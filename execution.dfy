/**
 * The pure steps of executing one request: expanding its fields, assembling
 * the payload, building the request, splitting the header lines into the
 * request's header map, and wrapping what the transport returns.
 */
module Execution {
  import opened Common
  import opened GoStrings
  import opened Requests

  /** An HTTP response as the renderer sees it; `header` lists the entries of
    * the response's header map in the map's iteration order. */
  datatype Response = Response(
    proto: string,
    status: string,
    header: seq<(string, seq<string>)>,
    body: string)

  /** A response together with the request that produced it. */
  datatype Res = Res(req: Req, response: Response)

  /** What is handed to the transport: the expanded method, URL and payload, and the headers keyed by canonical name. */
  datatype Prepared = Prepared(
    httpMethod: string,
    url: string,
    body: string,
    header: map<string, string>)

  /** Why executing one request stops. */
  datatype ExecError =
    | BuildError(reason: string)      // `http.NewRequest` rejected the method or the expanded URL
    | MalformedHeader(line: string)   // an expanded header line without a colon: `parts[1]` panics
    | NilRequest                      // a nil request reaches `client.Do`, which panics
    | TransportError(reason: string)  // `client.Do` failed or timed out

  /** Splits a header line on its colons and keeps the first two pieces, stripped of spaces. */
  function SplitHeader(line: string): (r: Result<(string, string), ExecError>)
    ensures r.Failure? <==> ':' !in line
    ensures r.Failure? ==> r.error == MalformedHeader(line)
  {
    CountCharZero(line, ':');
    var parts := Split(line, ':');
    if |parts| < 2 then Failure(MalformedHeader(line))
    else Success((Trim(parts[0], {' '}), Trim(parts[1], {' '})))
  }

  /** The text of `s` up to its first colon, or all of it. */
  function BeforeColon(s: string): string
  {
    if ':' in s then s[..IndexOf(s, ':')] else s
  }

  /**
   * A header line splits iff it has a colon; the name is the text before the
   * first colon and the value the text between the first and the second
   * colon (what follows a second colon is lost), both stripped of spaces.
   */
  lemma SplitHeaderIff(line: string)
    ensures SplitHeader(line).Failure? <==> ':' !in line
    ensures ':' in line ==>
      var i := IndexOf(line, ':');
      SplitHeader(line) == Success((Trim(line[..i], {' '}), Trim(BeforeColon(line[i + 1..]), {' '})))
  {
    if ':' in line {
      var i := IndexOf(line, ':');
      var parts := Split(line, ':');
      var rest := line[i + 1..];
      SplitFirst(line, ':');
      assert parts[1..] == Split(rest, ':');
      assert parts[1] == Split(rest, ':')[0];
      if ':' in rest {
        SplitFirst(rest, ':');
      } else {
        SplitNoSep(rest, ':');
      }
      assert parts[0] == line[..i] && parts[1] == BeforeColon(rest);
    }
  }

  /** Trimming spaces from a string that has none at either end changes nothing. */
  lemma TrimSpacesFixed(s: string)
    requires s == [] || (s[0] != ' ' && s[|s| - 1] != ' ')
    ensures Trim(s, {' '}) == s
  {
    TrimFixed(s, {' '});
  }

  /** One leading space is trimmed away. */
  lemma TrimLeadingSpace(v: string)
    requires v == [] || (v[0] != ' ' && v[|v| - 1] != ' ')
    ensures Trim([' '] + v, {' '}) == v
  {
    assert ([' '] + v)[1..] == v;
    assert TrimLeft([' '] + v, {' '}) == TrimLeft(v, {' '});
    TrimSpacesFixed(v);
  }

  /** The line `k: v` for a name and a value without colons and surrounding spaces splits back into them. */
  lemma SplitHeaderRoundTrip(k: string, v: string)
    requires ':' !in k && ':' !in v
    requires k == [] || (k[0] != ' ' && k[|k| - 1] != ' ')
    requires v == [] || (v[0] != ' ' && v[|v| - 1] != ' ')
    ensures SplitHeader(k + ": " + v) == Success((k, v))
  {
    var sv := [' '] + v;
    assert k + ": " + v == k + [':'] + sv;
    assert ':' !in sv;
    SplitTwo(k, sv, ':');
    TrimSpacesFixed(k);
    TrimLeadingSpace(v);
  }

  /** The header lines as name/value pairs, or the first line without a colon. */
  function HeaderPairs(lines: seq<string>): (r: Result<seq<(string, string)>, ExecError>)
    ensures r.Success? ==> |r.value| == |lines|
    ensures r.Failure? ==> r.error.MalformedHeader?
    decreases |lines|
  {
    if lines == [] then Success([])
    else
      match HeaderPairs(lines[..|lines| - 1])
      case Failure(e) => Failure(e)
      case Success(pairs) =>
        match SplitHeader(lines[|lines| - 1])
        case Failure(e) => Failure(e)
        case Success(p) => Success(pairs + [p])
  }

  lemma HeaderPairsSnoc(lines: seq<string>, line: string)
    ensures HeaderPairs(lines + [line]) ==
      match HeaderPairs(lines)
      case Failure(e) => Failure(e)
      case Success(pairs) =>
        match SplitHeader(line)
        case Failure(e) => Failure(e)
        case Success(p) => Success(pairs + [p])
  {
    SnocTake(lines, line);
  }

  lemma {:induction false} HeaderPairsFailurePersists(lines: seq<string>, k: nat)
    requires k <= |lines|
    requires HeaderPairs(lines[..k]).Failure?
    ensures HeaderPairs(lines) == HeaderPairs(lines[..k])
    decreases |lines|
  {
    if k < |lines| {
      var pre := lines[..|lines| - 1];
      TakeTake(lines, k, |lines| - 1);
      HeaderPairsFailurePersists(pre, k);
      var e := HeaderPairs(pre).error;
      assert HeaderPairs(pre) == Failure(e);
      assert HeaderPairs(lines) == Failure(e);
    } else {
      TakeFull(lines);
    }
  }

  lemma HeaderPairsLast(lines: seq<string>)
    requires lines != []
    ensures HeaderPairs(lines).Success? <==> HeaderPairs(lines[..|lines| - 1]).Success? && ':' in lines[|lines| - 1]
  {
  }

  lemma {:induction false} HeaderPairsAllColons(lines: seq<string>)
    requires forall i :: 0 <= i < |lines| ==> ':' in lines[i]
    ensures HeaderPairs(lines).Success?
    decreases |lines|
  {
    if lines != [] {
      var n := |lines| - 1;
      assert forall i :: 0 <= i < n ==> lines[..n][i] == lines[i];
      HeaderPairsAllColons(lines[..n]);
      HeaderPairsLast(lines);
    }
  }

  lemma HeaderPairsNoColon(lines: seq<string>, j: nat)
    requires j < |lines| && ':' !in lines[j]
    ensures HeaderPairs(lines).Failure?
  {
    TakeTake(lines, j, j + 1);
    HeaderPairsLast(lines[..j + 1]);
    HeaderPairsFailurePersists(lines, j + 1);
  }

  /** The header lines split in order: fails exactly when one of them has no colon. */
  lemma HeaderPairsIff(lines: seq<string>)
    ensures HeaderPairs(lines).Success? <==> forall i :: 0 <= i < |lines| ==> ':' in lines[i]
  {
    if forall i :: 0 <= i < |lines| ==> ':' in lines[i] {
      HeaderPairsAllColons(lines);
    } else {
      var j :| 0 <= j < |lines| && ':' !in lines[j];
      HeaderPairsNoColon(lines, j);
    }
  }

  /** A failed split names the first header line without a colon. */
  lemma {:induction false} HeaderPairsFailureLine(lines: seq<string>)
    requires HeaderPairs(lines).Failure?
    ensures exists j ::
      && 0 <= j < |lines| && ':' !in lines[j]
      && (forall i :: 0 <= i < j ==> ':' in lines[i])
      && HeaderPairs(lines).error == MalformedHeader(lines[j])
    decreases |lines|
  {
    var n := |lines| - 1;
    var pre := lines[..n];
    assert forall i :: 0 <= i < n ==> pre[i] == lines[i];
    if HeaderPairs(pre).Failure? {
      HeaderPairsFailureLine(pre);
      var j :| 0 <= j < |pre| && ':' !in pre[j]
        && (forall i :: 0 <= i < j ==> ':' in pre[i])
        && HeaderPairs(pre).error == MalformedHeader(pre[j]);
      assert ':' !in lines[j] && HeaderPairs(lines).error == MalformedHeader(lines[j]);
    } else {
      HeaderPairsIff(pre);
      assert ':' !in lines[n] && HeaderPairs(lines).error == MalformedHeader(lines[n]);
    }
  }

  /** The characters allowed in a header name: the token characters of RFC 7230, section 3.2.6. */
  predicate IsTokenChar(c: char)
  {
    ('a' <= c <= 'z') || ('A' <= c <= 'Z') || ('0' <= c <= '9') || c in "!#$%&'*+-.^_`|~"
  }

  function UpperAscii(c: char): char
  {
    if 'a' <= c <= 'z' then (c as int - 32) as char else c
  }

  function LowerAscii(c: char): char
  {
    if 'A' <= c <= 'Z' then (c as int + 32) as char else c
  }

  /**
   * A name with a capital at its start and after each dash and lower case
   * elsewhere (`content-type` becomes `Content-Type`).
   */
  function CanonicalForm(k: string): string
  {
    seq(|k|, i requires 0 <= i < |k| => if i == 0 || k[i - 1] == '-' then UpperAscii(k[i]) else LowerAscii(k[i]))
  }

  /**
   * Go's `textproto.CanonicalMIMEHeaderKey`, under which `Header.Set` stores
   * a name: a name made only of token characters is put in canonical form;
   * any other name is kept as it is.
   */
  function CanonicalKey(k: string): string
  {
    if forall i :: 0 <= i < |k| ==> IsTokenChar(k[i]) then CanonicalForm(k) else k
  }

  lemma CaseChar(c: char)
    ensures IsTokenChar(c) ==> IsTokenChar(UpperAscii(c)) && IsTokenChar(LowerAscii(c))
    ensures UpperAscii(UpperAscii(c)) == UpperAscii(c) && LowerAscii(LowerAscii(c)) == LowerAscii(c)
    ensures (UpperAscii(c) == '-' <==> c == '-') && (LowerAscii(c) == '-' <==> c == '-')
  {
  }

  /** At each position of a token name, the canonical form holds a token character that canonicalizing again keeps. */
  lemma CanonicalFormFixedAt(k: string, i: nat)
    requires i < |k| && IsTokenChar(k[i])
    ensures IsTokenChar(CanonicalForm(k)[i])
    ensures CanonicalForm(CanonicalForm(k))[i] == CanonicalForm(k)[i]
  {
    var r := CanonicalForm(k);
    CaseChar(k[i]);
    if i > 0 {
      CaseChar(k[i - 1]);
      assert r[i - 1] == UpperAscii(k[i - 1]) || r[i - 1] == LowerAscii(k[i - 1]);
    }
  }

  /** Canonicalizing a name twice gives what canonicalizing it once gives. */
  lemma CanonicalKeyIdempotent(k: string)
    ensures CanonicalKey(CanonicalKey(k)) == CanonicalKey(k)
  {
    if forall i :: 0 <= i < |k| ==> IsTokenChar(k[i]) {
      var r := CanonicalForm(k);
      forall i | 0 <= i < |r| ensures IsTokenChar(r[i]) && CanonicalForm(r)[i] == r[i] {
        CanonicalFormFixedAt(k, i);
      }
      assert CanonicalForm(r) == r;
    }
  }

  lemma CaselessChar(x: char, y: char)
    requires LowerAscii(x) == LowerAscii(y)
    ensures IsTokenChar(x) <==> IsTokenChar(y)
    ensures UpperAscii(x) == UpperAscii(y)
    ensures x == '-' <==> y == '-'
  {
  }

  /** Two token names that differ only in the case of their letters have the same canonical form. */
  lemma CanonicalKeyCaseless(a: string, b: string)
    requires |a| == |b|
    requires forall i :: 0 <= i < |a| ==> IsTokenChar(a[i])
    requires forall i :: 0 <= i < |a| ==> LowerAscii(a[i]) == LowerAscii(b[i])
    ensures CanonicalKey(a) == CanonicalKey(b)
  {
    assert forall i :: 0 <= i < |b| ==> IsTokenChar(b[i]) by {
      forall i | 0 <= i < |b| ensures IsTokenChar(b[i]) {
        CaselessChar(a[i], b[i]);
      }
    }
    forall i | 0 <= i < |a| ensures CanonicalForm(a)[i] == CanonicalForm(b)[i] {
      CaselessChar(a[i], b[i]);
      if i > 0 { CaselessChar(a[i - 1], b[i - 1]); }
    }
  }

  lemma ContentTypeTokens()
    ensures forall i :: 0 <= i < |"content-type"| ==> IsTokenChar("content-type"[i])
  {
    var k := "content-type";
    forall i | 0 <= i < |k| ensures IsTokenChar(k[i]) {
      assert 'a' <= k[i] <= 'z' || k[i] == '-';
    }
  }

  /** The canonical form of `content-type`. */
  lemma CanonicalContentType()
    ensures CanonicalKey("content-type") == "Content-Type"
    ensures CanonicalKey("Content-Type") == "Content-Type"
  {
    var k := "content-type";
    ContentTypeTokens();
    var r := CanonicalForm(k);
    assert |r| == |"Content-Type"|;
    forall i | 0 <= i < |r| ensures r[i] == "Content-Type"[i] {
      if i == 0 || i == 8 {
        assert r[i] == UpperAscii(k[i]);
      } else {
        assert r[i] == LowerAscii(k[i]);
      }
    }
    assert CanonicalKey(k) == r;
    CanonicalKeyIdempotent(k);
  }

  /**
   * `http.Header.Set` applied to each pair in turn: the value is stored
   * under the canonical form of the name, so a later name overwrites an
   * earlier one with the same canonical form.
   */
  function SetHeaders(pairs: seq<(string, string)>): (m: map<string, string>)
    ensures forall k :: k in m <==> exists i :: 0 <= i < |pairs| && CanonicalKey(pairs[i].0) == k
  {
    if pairs == [] then map[]
    else
      var n := |pairs| - 1;
      var m := SetHeaders(pairs[..n]);
      assert forall i :: 0 <= i < n ==> pairs[..n][i] == pairs[i];
      m[CanonicalKey(pairs[n].0) := pairs[n].1]
  }

  lemma SetHeadersSnoc(pairs: seq<(string, string)>, p: (string, string))
    ensures SetHeaders(pairs + [p]) == SetHeaders(pairs)[CanonicalKey(p.0) := p.1]
  {
    SnocTake(pairs, p);
  }

  /** The value a canonical name ends up with is the value of the last pair whose name has that form. */
  lemma {:induction false} SetHeadersLastWins(pairs: seq<(string, string)>, j: nat)
    requires j < |pairs|
    requires forall i :: j < i < |pairs| ==> CanonicalKey(pairs[i].0) != CanonicalKey(pairs[j].0)
    ensures SetHeaders(pairs)[CanonicalKey(pairs[j].0)] == pairs[j].1
    decreases |pairs|
  {
    var n := |pairs| - 1;
    var pre := pairs[..n];
    var key := CanonicalKey(pairs[j].0);
    DropLast(pairs);
    SetHeadersSnoc(pre, pairs[n]);
    if j < n {
      assert pre[j] == pairs[j];
      assert forall i :: j < i < n ==> pre[i] == pairs[i];
      SetHeadersLastWins(pre, j);
      assert CanonicalKey(pairs[n].0) != key;
    }
  }

  /** `content-type: a` followed by `Content-Type: b` leaves the single header `Content-Type: b`. */
  lemma SetHeadersCaseVariants()
    ensures SetHeaders([("content-type", "a"), ("Content-Type", "b")]) == map["Content-Type" := "b"]
  {
    var pairs := [("content-type", "a"), ("Content-Type", "b")];
    CanonicalContentType();
    SetHeadersSnoc([("content-type", "a")], ("Content-Type", "b"));
    SetHeadersSnoc([], ("content-type", "a"));
    assert [] + [("content-type", "a")] == [("content-type", "a")];
    assert [("content-type", "a")] + [("Content-Type", "b")] == pairs;
  }

  /** The request once `http.NewRequest` has accepted it: the headers set, the payload attached. */
  function Assemble(r: Req, expand: string -> string): Result<Prepared, ExecError>
  {
    match HeaderPairs(MapSeq(r.headers, expand))
    case Failure(e) => Failure(e)
    case Success(pairs) =>
      Success(Prepared(r.httpMethod, expand(r.url), Terminated(MapSeq(r.body, expand)), SetHeaders(pairs)))
  }

  /** Assembling fails exactly when an expanded header line has no colon. */
  lemma AssembleFailure(r: Req, expand: string -> string)
    ensures Assemble(r, expand).Failure?
        <==> exists i :: 0 <= i < |r.headers| && ':' !in expand(r.headers[i])
    ensures Assemble(r, expand).Failure? ==> Assemble(r, expand).error.MalformedHeader?
    ensures Assemble(r, expand).Failure? ==>
      exists j ::
        && 0 <= j < |r.headers| && ':' !in expand(r.headers[j])
        && (forall i :: 0 <= i < j ==> ':' in expand(r.headers[i]))
        && Assemble(r, expand).error.line == expand(r.headers[j])
  {
    var ex := MapSeq(r.headers, expand);
    HeaderPairsIff(ex);
    assert forall i :: 0 <= i < |ex| ==> ex[i] == expand(r.headers[i]);
    if HeaderPairs(ex).Failure? {
      HeaderPairsFailureLine(ex);
    }
  }

  /**
   * The request handed to the transport. `check` gives the error
   * `http.NewRequest` reports for a method and an expanded URL, if any; a
   * rejected request stops here, whatever its headers.
   */
  function Prepare(r: Req, expand: string -> string, check: (string, string) -> Option<string>)
    : Result<Prepared, ExecError>
  {
    match check(r.httpMethod, expand(r.url))
    case Some(e) => Failure(BuildError(e))
    case None => Assemble(r, expand)
  }

  /**
   * The request handed to the transport as the source builds it: the error
   * of `http.NewRequest` is only looked at inside the header loop, so a
   * rejected request without headers goes on as a nil request.
   */
  function PrepareAsWritten(r: Req, expand: string -> string, check: (string, string) -> Option<string>)
    : Result<Prepared, ExecError>
  {
    match check(r.httpMethod, expand(r.url))
    case Some(e) => if r.headers == [] then Failure(NilRequest) else Failure(BuildError(e))
    case None => Assemble(r, expand)
  }

  /** The two builds differ only on rejected requests without headers. */
  lemma PrepareAsWrittenDiffers(r: Req, expand: string -> string, check: (string, string) -> Option<string>)
    ensures PrepareAsWritten(r, expand, check) != Prepare(r, expand, check)
        <==> r.headers == [] && check(r.httpMethod, expand(r.url)).Some?
  {
  }

  /** A request without headers whose URL lacks a scheme reaches the transport as a nil request. */
  lemma NilRequestExample()
    ensures var r := NewReq("x", "a.http").(httpMethod := "GET", url := ":no-scheme");
      var check := (m: string, u: string) => if u == ":no-scheme" then Some("missing protocol scheme") else None;
      && PrepareAsWritten(r, s => s, check) == Failure(NilRequest)
      && Prepare(r, s => s, check) == Failure(BuildError("missing protocol scheme"))
  {
  }

  /**
   * Every expanded body line ends with a newline, the last one included:
   * with no newline inside the expanded lines, splitting the payload on
   * newlines gives back those lines and one empty piece.
   */
  lemma PreparedBodyLines(r: Req, expand: string -> string, check: (string, string) -> Option<string>)
    requires Prepare(r, expand, check).Success?
    requires forall i :: 0 <= i < |r.body| ==> '\n' !in expand(r.body[i])
    ensures Split(Prepare(r, expand, check).value.body, '\n') == MapSeq(r.body, expand) + [""]
  {
    SplitTerminated(MapSeq(r.body, expand));
  }

  /** The payload loop of the source's `Execute`: each expanded line, then a newline. */
  method AssembleBody(lines: seq<string>, expand: string -> string) returns (body: string)
    ensures body == Terminated(MapSeq(lines, expand))
  {
    ghost var ex := MapSeq(lines, expand);
    body := "";
    for i := 0 to |lines|
      invariant body == Terminated(ex[..i])
    {
      TakeSnoc(ex, i);
      SnocTake(ex[..i], ex[i]);
      var line := expand(lines[i]);
      body := body + line + "\n";
    }
    TakeFull(ex);
  }

  /**
   * The header loop of the source's `Execute`: expands each header line,
   * returns the creation error `err` if there is one, and otherwise splits
   * the line and sets the header.
   */
  method SetRequestHeaders(lines: seq<string>, expand: string -> string, err: Option<string>)
    returns (res: Result<map<string, string>, ExecError>)
    ensures err.Some? && lines != [] ==> res == Failure(BuildError(err.value))
    ensures err.Some? && lines == [] ==> res == Success(map[])
    ensures err.None? ==> match HeaderPairs(MapSeq(lines, expand))
      case Failure(e) => res == Failure(e)
      case Success(pairs) => res == Success(SetHeaders(pairs))
  {
    var header: map<string, string> := map[];
    ghost var ex := MapSeq(lines, expand);
    ghost var pairs: seq<(string, string)> := [];
    for i := 0 to |lines|
      invariant err.Some? ==> i == 0
      invariant HeaderPairs(ex[..i]) == Success(pairs)
      invariant header == SetHeaders(pairs)
    {
      var line := expand(lines[i]);
      if err.Some? {
        return Failure(BuildError(err.value));
      }
      TakeSnoc(ex, i);
      HeaderPairsSnoc(ex[..i], line);
      var kv := SplitHeader(line);
      if kv.Failure? {
        HeaderPairsFailurePersists(ex, i + 1);
        return Failure(kv.error);
      }
      var (k, v) := kv.value;
      SetHeadersSnoc(pairs, (k, v));
      header := header[CanonicalKey(k) := v];
      pairs := pairs + [(k, v)];
    }
    TakeFull(ex);
    return Success(header);
  }

  /**
   * The first part of the source's `Execute`: expands the URL, builds the
   * payload, creates the request and sets the headers; a request whose
   * creation failed and that has no header lines goes on as a nil request.
   */
  method BuildRequest(r: Req, expand: string -> string, check: (string, string) -> Option<string>)
    returns (res: Result<Prepared, ExecError>)
    ensures res == PrepareAsWritten(r, expand, check)
  {
    var url := expand(r.url);
    var body := AssembleBody(r.body, expand);
    var err := check(r.httpMethod, url);
    var header := SetRequestHeaders(r.headers, expand, err);
    if header.Failure? {
      return Failure(header.error);
    }
    if err.Some? {
      return Failure(NilRequest);
    }
    return Success(Prepared(r.httpMethod, url, body, header.value));
  }

  /**
   * One request executed against a transport: a rejected request or a
   * malformed header stops it before anything is sent; otherwise the
   * transport's answer is wrapped together with the original request.
   */
  function Execute(
    r: Req,
    expand: string -> string,
    check: (string, string) -> Option<string>,
    send: Prepared -> Result<Response, string>)
    : (res: Result<Res, ExecError>)
    ensures res.Success? ==>
      && res.value.req == r
      && Prepare(r, expand, check).Success?
      && send(Prepare(r, expand, check).value) == Success(res.value.response)
    ensures (res.Failure? && res.error.BuildError?) <==> check(r.httpMethod, expand(r.url)).Some?
    ensures res.Failure? && res.error.BuildError? ==> check(r.httpMethod, expand(r.url)) == Some(res.error.reason)
    ensures (res.Failure? && res.error.MalformedHeader?)
        <==> check(r.httpMethod, expand(r.url)).None?
             && exists i :: 0 <= i < |r.headers| && ':' !in expand(r.headers[i])
    ensures (res.Failure? && res.error.TransportError?)
        <==> Prepare(r, expand, check).Success? && send(Prepare(r, expand, check).value).Failure?
    ensures res.Failure? && res.error.TransportError? ==> send(Prepare(r, expand, check).value) == Failure(res.error.reason)
    ensures res.Failure? && res.error.MalformedHeader? ==>
      exists j ::
        && 0 <= j < |r.headers| && ':' !in expand(r.headers[j])
        && (forall i :: 0 <= i < j ==> ':' in expand(r.headers[i]))
        && res.error.line == expand(r.headers[j])
    ensures !(res.Failure? && res.error.NilRequest?)
  {
    AssembleFailure(r, expand);
    match Prepare(r, expand, check)
    case Failure(e) => Failure(e)
    case Success(p) =>
      match send(p)
      case Failure(reason) => Failure(TransportError(reason))
      case Success(resp) => Success(Res(r, resp))
  }
}
