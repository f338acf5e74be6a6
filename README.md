# rest-client request files, modelled in Dafny

`rest-client` runs HTTP requests written in JetBrains-style `.http` request
files. A file holds blocks like this one:

```
#:name getUser
#:desc Fetch one user
GET {{svc}}/users/1
Accept: application/json

###
```

`cmd/app.go` reads such a file line by line into request records (`Req`):
file, name, description, method, URL, header lines and body lines. It picks
requests by name, executes them one after another, stopping at the first
error, and renders the responses as text.

This project models that core:

- `gostrings.dfy`: the Go library behaviour the core relies on.
  - `strings.Split` on a one-character separator, `Join`, `HasPrefix`, `TrimPrefix`.
  - `Trim`/`TrimSpace`, over Go's `unicode.IsSpace` set.
  - `sort.Strings`, as an insertion sort proved sorted and a permutation.
  - Newline-terminated line output.
  - A module `Common` of generic sequence lemmas and `Option`/`Result`.
- `requests.dfy`: the parser.
  - `Req`, `newReq`, `containsString` and `isReq` with its method whitelist.
  - A pure line classifier that keeps the source's `if/else` order.
  - The per-line step, the fold `Parse` that specifies the parser, and `ParseReqs`, the scanner loop proved equal to it.
- `parse_props.dfy`: what the parser guarantees for every input.
  - The shape of each request, and how many requests come out and with which names.
  - The effect of each kind of line.
- `sample.dfy`: the file of the repository's parser test, parsed to exactly three requests.
- `execution.dfy`: the pure steps of `Req.Execute`.
  - Body assembly and header splitting.
  - The header map built with `Header.Set`, which stores each value under the canonical form of its name (`textproto.CanonicalMIMEHeaderKey`).
  - The outcome of one execution against an abstract transport.
- `batch.dfy`: `filterReqs` and the fail-fast batch loop `execReqs`, over an abstract executor.
- `render.dfy`: `renderResponse`, `renderResponses` and `Req.String`.

Modelling choices:

- The template expansion (`expandString`, a call into the mustache library) is a function parameter `expand`. Nothing is assumed about it.
- `http.NewRequest`'s validation of the method and the expanded URL is a parameter `check`, which returns the error it would report, if any.
- The network round trip (`client.Do`) is a parameter `send`.
- A Go panic in the core becomes an error value:
  - a name line without a space (`Split(line, " ")[1]`);
  - a header line without a colon (`parts[1]`);
  - a nil request handed to `client.Do`.
- The request under construction (`*Req` in the source) is an `Option<Req>` value that the loop replaces field by field. The source appends the pointer and then sets it to nil, so no request is changed after it is emitted, and values capture the same behaviour.
- Two consequences of the parser's line-by-line classification are easy to miss, and the model keeps both:
  - A header-shaped line before the request line is not a header. It goes into the body (`StepBeforeRequestLineIsBody`).
  - Every line is classified afresh, including the lines after the blank line that starts the body. A line with exactly one colon becomes a header once the method is known, unless it is a description directive or a request line (`GET host:8080/x` has one colon and is a request line). That is why, in the test's file, the two JSON lines `"foo": "Foo",` and `"bar": "Bar"` end up among the POST request's headers (`ParseSampleText`).

## Model

| member | source | states |
|---|---|---|
| Requests.NewReq | cmd/app.go:151-156 | a new request carries only the given name and file; description, method, URL, headers and body are empty |
| Requests.ContainsString | cmd/app.go:271-278 | true exactly when the string is one of the list's elements |
| Requests.IsReqIff | cmd/app.go:234-247 | a line is a request line iff it has a space, the text before the first space is one of the nine whitelisted methods (lines 41-51) and no second space follows, so a double space never makes a request line |
| Requests.NameToken | cmd/app.go:196 | the name token is missing exactly when the name line has no space, and a name never holds a space |
| Requests.Classify | cmd/app.go:194-220 | each line kind implies its branch's test, in the source's order: a name directive only with no open request, a header only once the method is known and with exactly one colon, blank iff the line is empty, a body line only when non-blank and not `#`-prefixed, and an unrecognised line only with no open request |
| Requests.RunFailurePersists | cmd/app.go:196 | once a line makes the parse fail, no later line changes the error |
| Requests.ParseReqs | cmd/app.go:186-232 | the scanner loop returns exactly `Parse`: every line applied in order, the request still open at the end appended, or the name-line failure |
| ParseProperties.ParseWellFormed | cmd/app.go:194-220 | every request of a file has that file as its `File` and a name without spaces. Its method is a whitelisted one with a space-free URL, or it has no method and then no URL and no headers. Its description is trimmed. Each header has exactly one colon. Each body line is non-blank and not `#`-prefixed |
| ParseProperties.DescWellFormed | cmd/app.go:198-201 | a description directive keeps a request well formed: the new description has no white space at either end |
| ParseProperties.RequestWellFormed | cmd/app.go:202-206 | a request line keeps a request well formed: the method it sets is whitelisted and the URL has no space |
| ParseProperties.RunNames | cmd/app.go:194-229 | in a successful run, the requests (closed and open) carry the names of the name-directive lines in order, and the closed ones are as many as the separator lines |
| ParseProperties.ParseCount | cmd/app.go:213-229 | one request per name directive, named by that directive's second token, in order. The count equals the separator lines that closed a request, plus one if a request is still open at end of input |
| ParseProperties.StepRequestLineOverwrites | cmd/app.go:202-206 | inside an open block, every request line (a first one or a later one) sets method and URL to the text before and after its space and keeps everything else |
| ParseProperties.StepBeforeRequestLineIsBody | cmd/app.go:207-219 | before the request line, a non-blank line that is not `#`-prefixed goes to the body, even one with a single colon |
| ParseProperties.DirectiveIsSeparatorPrefixed | cmd/app.go:213 | name and description directives are `#`-prefixed, so they pass the separator branch's prefix test (line 213) |
| ParseProperties.StepOneColonIsHeader | cmd/app.go:207-209 | once the method is known, a line with exactly one colon that is neither a description nor a request line is appended to the headers |
| ParseProperties.StepDescSetsTrimmed | cmd/app.go:198-201 | inside an open block, a description directive sets the description to the `TrimSpace` of the text after `#:desc` |
| ParseProperties.StepBlank | cmd/app.go:210-212 | a blank line changes nothing |
| ParseProperties.StepNameOpens | cmd/app.go:194-197 | with no request open, a name line with a space opens a new request for the file, named by the line's second space-separated token |
| ParseProperties.StepUnrecognized | cmd/app.go:194-220 | with no request open, any line other than a name directive leaves the state unchanged |
| ParseProperties.HashIsNoRequest | cmd/app.go:234-247 | a `#`-prefixed line is never a request line, because no whitelisted method starts with `#` |
| ParseProperties.StepSeparatorCloses | cmd/app.go:213-216 | inside an open block, a `#`-prefixed line that is neither a description nor a header appends the open request to the closed ones and leaves none open |
| ParseProperties.StepBodyAny | cmd/app.go:217-219 | inside an open block, with or without a method, a non-blank line that is not `#`-prefixed, not a request line and not a header is appended to the body |
| ParseProperties.NameLineShape | cmd/app.go:194-207 | a `#:name N` line (N without space or colon) is a name directive, `#`-prefixed, not a description, not a request line, and has exactly one colon |
| ParseProperties.SecondNameLineIsHeader | cmd/app.go:207-209 | a second name directive inside a block whose method is known is classified as a header |
| ParseProperties.SecondNameLineCloses | cmd/app.go:213-216 | a second name directive inside a block without a method closes the block without opening a new request |
| ParseProperties.StepNameLineWithoutSpace | cmd/app.go:194-197 | with no request open, a name line without a space fails with that line, whatever the state |
| ParseProperties.NameLineWithoutSpaceFails | cmd/app.go:194-197 | a name line without a space, met at any position while no request is open, makes the whole parse fail with that line, whatever follows it |
| ParseProperties.RunFeed | cmd/app.go:191-221 | reading the lines forward one step at a time gives the same state as the fold over prefixes |
| ParseSample.StepNameLine | cmd/app.go:194-197 | with no open request, `#:name N` opens a request named N for the file |
| ParseSample.StepRequestLine | cmd/app.go:202-206 | a whitelisted method, one space and a space-free URL set method and URL |
| ParseSample.HeaderLineKind | cmd/app.go:202-209 | a `key:value` line whose key does not start with `#` and either starts with a space or has none has one colon and is not a description and not a request line |
| ParseSample.ParseThreeBlocks | cmd/app_test.go:70-93 | a blank line, then GET and HEAD blocks closed by `###`, then a POST block ended by the end of input with a JSON body. For any such file this gives three requests in order. All three carry the name, file, description and URL. The JSON lines with one colon become POST headers and only `{` and `}` stay in its body |
| ParseSample.ParseSampleText | cmd/app_test.go:70-126 | the parser test's text gives exactly three requests: GET, HEAD and POST, all named `getWithNoParams` |
| GoStrings.Split | cmd/app.go:235 | `strings.Split` gives one piece more than there are separators, and no piece holds the separator |
| GoStrings.JoinSplit | cmd/app.go:235 | joining the pieces of a split with the separator gives back the string |
| GoStrings.SplitJoin | cmd/app.go:235 | splitting undoes joining when no piece holds the separator |
| GoStrings.TrimEnds | cmd/app.go:201 | `TrimSpace`/`Trim` leave no cutset character at either end |
| GoStrings.SortStrings | cmd/app.go:303 | `sort.Strings` gives a sorted permutation of its input |
| GoStrings.SortedUnique | cmd/app.go:303 | two sorted permutations of the same lines are equal, so the sorted order is fully determined |
| GoStrings.SplitTerminated | cmd/app.go:116-120 | lines each followed by a newline split back into those lines and one empty piece, when no line holds a newline |
| Execution.SplitHeader | cmd/app.go:132-134 | splitting a header line fails exactly when it has no colon, and the error carries the line |
| Execution.SplitHeaderIff | cmd/app.go:132-134 | the name is the text before the first colon and the value the text between the first and second colon, both trimmed of spaces; text after a second colon is lost |
| Execution.SplitHeaderRoundTrip | cmd/app.go:132-134 | `k: v` splits back into `(k, v)` for a name and value without colons or surrounding spaces |
| Execution.HeaderPairsIff | cmd/app.go:127-136 | splitting all header lines succeeds exactly when every one of them has a colon |
| Execution.HeaderPairsFailureLine | cmd/app.go:127-134 | a failed split of the header lines names the first line without a colon, where the source's `parts[1]` panics |
| Execution.CanonicalKeyIdempotent | cmd/app.go:135 | `Header.Set`'s canonical form of a name is a fixed point: canonicalizing again changes nothing |
| Execution.CanonicalKeyCaseless | cmd/app.go:135 | two token names that differ only in letter case have the same canonical form |
| Execution.CanonicalContentType | cmd/app.go:135 | `content-type` and `Content-Type` both canonicalize to `Content-Type` |
| Execution.SetHeaders | cmd/app.go:135 | the header map's names are exactly the canonical forms of the pairs' names |
| Execution.SetHeadersLastWins | cmd/app.go:135 | a canonical name's value is the value of the last pair whose name has that canonical form |
| Execution.SetHeadersCaseVariants | cmd/app.go:135 | `content-type: a` then `Content-Type: b` leave the single header `Content-Type` with value `b` |
| Execution.AssembleFailure | cmd/app.go:127-136 | assembling fails, with a malformed-header error, exactly when some expanded header line has no colon, and the error carries the first such line |
| Execution.PrepareAsWrittenDiffers | cmd/app.go:124-136 | the source's build and the corrected build differ exactly on requests that `http.NewRequest` rejects and that have no header lines |
| Execution.NilRequestExample | cmd/app.go:124-136 | a headerless request with a URL lacking a scheme goes on as a nil request in the source's build, and stops with the creation error in the corrected build |
| Execution.PreparedBodyLines | cmd/app.go:114-121 | every expanded body line is followed by a newline, the last one included: the payload splits on newlines into the expanded lines and one empty piece |
| Execution.AssembleBody | cmd/app.go:114-121 | the payload loop builds each expanded line followed by a newline |
| Execution.SetRequestHeaders | cmd/app.go:126-136 | the header loop returns the creation error on the first header line, if there is one, and an empty map when there are no header lines. With no creation error, it fails on the first expanded line without a colon, and otherwise yields the map of all split pairs keyed by canonical name, a later name overwriting an earlier one with the same canonical form |
| Execution.BuildRequest | cmd/app.go:110-136 | the steps before the round trip behave as the source does, including the nil request when creation failed and there are no header lines |
| Execution.Execute | cmd/app.go:110-149 | the corrected execution (see ## Findings), which never hands on a nil request. A success carries the original request and the transport's response to the prepared request. A creation error happens iff `http.NewRequest` rejects the request, and carries `NewRequest`'s own error. A malformed-header error happens iff the request is accepted and some expanded header has no colon, and carries the first such line. A transport error happens iff the prepared request was sent and the send failed, and carries the transport's own error |
| Batch.SelectedIncreasing | cmd/app.go:249-257 | the selected positions are positions of the input, strictly increasing |
| Batch.SelectedMembers | cmd/app.go:249-257 | a position is selected exactly when the request there has a listed name |
| Batch.FilteredAtSelected | cmd/app.go:249-257 | the filter's result is the input read at the selected positions |
| Batch.FilteredIsSelection | cmd/app.go:249-257 | the result is an order-preserving subsequence of the input holding exactly the requests whose name is listed, duplicates included |
| Batch.FilteredMembers | cmd/app.go:249-257 | a request is in the result iff it is in the input and its name is listed |
| Batch.FilterReqs | cmd/app.go:249-257 | the selection loop returns exactly the filtered sequence |
| Batch.FirstFailure | cmd/app.go:259-269 | the index of the first request the executor fails on: all before it succeed, and it fails |
| Batch.RunBatchFailFast | cmd/app.go:259-269 | with no failure, one response per request in order; otherwise exactly the responses of the requests before the first failure, and that failure's error |
| Batch.RunBatchIgnoresLater | cmd/app.go:259-269 | requests after the first failure are never executed: changing the executor on them changes nothing |
| Batch.ExecReqs | cmd/app.go:259-269 | the batch loop, returning early on the first error, returns exactly the fail-fast outcome |
| Batch.ExecutedInOrder | cmd/app.go:259-269 | with the corrected per-request execution, the responses answer the requests in order. Each is the transport's answer to its request built without error, so no response comes from a request that a malformed header or a rejected URL stopped. A batch without error answers all of them |
| Batch.SecondOfThreeFails | cmd/app.go:259-269 | of three requests where the second fails, one response and the second's error come back |
| Render.ResponseTextSorted | cmd/app.go:295-318 | a response is its status line, then its formatted header lines in any sorted arrangement, then `"\n" + body` only when the body is non-empty |
| Render.ResponseTextOrderIndependent | cmd/app.go:299-306 | the iteration order of the response's header map does not show in the text |
| Render.CollectHeaderLines | cmd/app.go:299-302 | the header loop formats one line per header-map entry |
| Render.RenderResponse | cmd/app.go:295-318 | the rendering loop builds exactly the response text |
| Render.ResponsesTextSnoc | cmd/app.go:284-293 | no responses give `""`, one gives its own text, and each further one adds `"\n###\n\n"` and its text, so the separator stands only between two responses |
| Render.RenderResponses | cmd/app.go:284-293 | the rendering loop builds exactly the joined text |
| Render.HeadText | cmd/app.go:93-96 | the head of `Req.String` is the file, name and description lines, a blank line and the request line |
| Render.ReqTextLines | cmd/app.go:91-107 | when no field holds a newline, a request's text splits back into its file, name and description lines, a blank line, the request line and the header lines. When there is a body, a blank line and the body lines follow |
| Render.ReqString | cmd/app.go:91-107 | the builder loop returns exactly the request's text |

## Left out

- HTTP execution is a parameter: `http.NewRequest`'s own validation, `http.Client.Do` and its 10-second timeout (cmd/app.go:124, 139-145) are not modelled beyond the error they return.
- Reading and closing the response body (cmd/app.go:308-312) is left out. The body is a given string, so the panic on a failed read is not modelled.
- `expandString` (cmd/app.go:280-282) is an uninterpreted function parameter. The mustache library is not part of this model.
- `parseEnvs` (cmd/app.go:60-72) is JSON decoding by `encoding/json`, which is not part of this model.
- `loadReqs` and `listReqFiles` (cmd/app.go:158-184, 320-333) open files and walk directories. `loadReqs` concatenates the per-file results of the parser in path order; the model covers one file at a time.
- Scanner errors and `log.Fatal` (cmd/app.go:222-224) are left out. The parser gets the file's lines as a sequence.
- The CLI files (cmd/root.go, cmd/exec.go, cmd/reqs.go, cmd/envs.go, cmd/completion.go, cmd/version.go, identity/identity.go) are command wiring and printing, and are not part of this model.
- Execution.Execute: the response's header map is a sequence of entries in the map's iteration order. A Go map's order is not fixed, and the rendering lemmas prove that the text does not depend on it.
- Requests.ParseReqs: the request under construction is a value, not a pointer. Aliasing of `*Req` is not modelled because the source never changes a request after it is emitted.
- GoStrings.Split: models `strings.Split` for a one-character separator only, the only form the core uses.
- GoStrings.SortStrings: `sort.Strings` compares strings by bytes. The model compares by Unicode code points, which gives the same order on every valid UTF-8 string.
- Go strings are byte strings, while the model's strings are sequences of Unicode scalar values. A line, a header or a body holding invalid UTF-8 cannot be represented, so the model says nothing about such input.

## Findings

| source | as written | input that shows it | evidently intended | confidence | as-written member | corrected member |
|---|---|---|---|---|---|---|
| cmd/app.go:124-136 | The error of `http.NewRequest` is only checked inside the header loop. A request with no header lines whose creation failed goes on to `client.Do` as a nil request, which panics (modelled by `Execution.BuildRequest`) | `GET :no-scheme` with no headers: `NewRequest` reports a missing scheme, the header loop does not run, and a nil request is sent | return the creation error whether or not there are header lines | not executed | Execution.NilRequestExample | Execution.Execute |
