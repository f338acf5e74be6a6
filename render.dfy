/**
 * The text forms of requests and responses: `Req.String`, one response
 * (status line, sorted header lines, body) and a list of responses joined
 * by the `###` separator.
 */
module Render {
  import opened Common
  import opened GoStrings
  import opened Requests
  import opened Execution

  /** Written between two consecutive responses. */
  const Separator: string := "\n###\n\n"

  /** Concatenation of the pieces, in order. */
  function Concat(ss: seq<string>): string
  {
    if ss == [] then "" else Concat(ss[..|ss| - 1]) + ss[|ss| - 1]
  }

  lemma ConcatSnoc(ss: seq<string>, s: string)
    ensures Concat(ss + [s]) == Concat(ss) + s
  {
    SnocTake(ss, s);
  }

  /** Go's `%s` of a `[]string`: the values between brackets, separated by single spaces. */
  function FormatValues(vs: seq<string>): string
  {
    "[" + Join(vs, " ") + "]"
  }

  /** The line written for one entry of the response's header map. */
  function FormatHeader(entry: (string, seq<string>)): string
  {
    entry.0 + ": " + FormatValues(entry.1) + "\n"
  }

  /** The header lines, in the map's iteration order. */
  function HeaderLines(header: seq<(string, seq<string>)>): seq<string>
  {
    MapSeq(header, FormatHeader)
  }

  /** The text of one response (the source's `renderResponse`). */
  function ResponseText(res: Res): string
  {
    var resp := res.response;
    resp.proto + " " + resp.status + "\n"
    + Concat(SortStrings(HeaderLines(resp.header)))
    + (if resp.body == "" then "" else "\n" + resp.body)
  }

  /**
   * A response is rendered as its status line, then its header lines in
   * non-decreasing order (any sorted arrangement of them gives the same
   * text), then, only when the body is non-empty, a newline and the body.
   */
  lemma ResponseTextSorted(res: Res, hs: seq<string>)
    requires Sorted(hs) && multiset(hs) == multiset(HeaderLines(res.response.header))
    ensures ResponseText(res)
         == res.response.proto + " " + res.response.status + "\n" + Concat(hs)
            + (if res.response.body == "" then "" else "\n" + res.response.body)
  {
    SortedUnique(SortStrings(HeaderLines(res.response.header)), hs);
  }

  /** The order in which the header map is iterated does not show in the text. */
  lemma ResponseTextOrderIndependent(a: Res, b: Res)
    requires a.response.proto == b.response.proto && a.response.status == b.response.status
    requires a.response.body == b.response.body
    requires multiset(a.response.header) == multiset(b.response.header)
    ensures ResponseText(a) == ResponseText(b)
  {
    MapSeqPermutation(a.response.header, b.response.header, FormatHeader);
    var hs := SortStrings(HeaderLines(b.response.header));
    ResponseTextSorted(a, hs);
  }

  /** The header loop of the source's `renderResponse`: one formatted line per entry of the header map. */
  method CollectHeaderLines(header: seq<(string, seq<string>)>) returns (lines: seq<string>)
    ensures lines == HeaderLines(header)
  {
    lines := [];
    for i := 0 to |header|
      invariant lines == HeaderLines(header[..i])
    {
      TakeSnoc(header, i);
      MapSeqSnoc(header[..i], header[i], FormatHeader);
      lines := lines + [FormatHeader(header[i])];
    }
    TakeFull(header);
  }

  /**
   * The source's `renderResponse`: the status line, the header lines
   * collected from the map and sorted, then the body if there is one.
   */
  method RenderResponse(res: Res) returns (text: string)
    ensures text == ResponseText(res)
  {
    var resp := res.response;
    text := resp.proto + " " + resp.status + "\n";
    var headers := CollectHeaderLines(resp.header);
    headers := SortStrings(headers);
    ghost var start := text;
    for i := 0 to |headers|
      invariant text == start + Concat(headers[..i])
    {
      TakeSnoc(headers, i);
      ConcatSnoc(headers[..i], headers[i]);
      text := text + headers[i];
    }
    TakeFull(headers);
    if |resp.body| > 0 {
      text := text + "\n" + resp.body;
    }
  }

  /** The texts of several responses, separated by `Separator`. */
  function ResponsesText(rs: seq<Res>): string
  {
    Join(MapSeq(rs, ResponseText), Separator)
  }

  lemma {:induction false} JoinSnoc(parts: seq<string>, p: string, sep: string)
    requires parts != []
    ensures Join(parts + [p], sep) == Join(parts, sep) + sep + p
    decreases |parts|
  {
    if |parts| == 1 {
      assert (parts + [p])[1..] == [p];
    } else {
      ConsDrop(parts[0], parts[1..] + [p]);
      ConsTail(parts);
      assert parts + [p] == [parts[0]] + (parts[1..] + [p]);
      JoinSnoc(parts[1..], p, sep);
    }
  }

  /**
   * No response gives the empty text, one response its own text, and each
   * further response adds the separator and then its text, so the separator
   * stands only between two responses and never at the end.
   */
  lemma ResponsesTextSnoc(rs: seq<Res>, r: Res)
    ensures ResponsesText([]) == ""
    ensures ResponsesText([r]) == ResponseText(r)
    ensures rs != [] ==> ResponsesText(rs + [r]) == ResponsesText(rs) + Separator + ResponseText(r)
  {
    MapSeqSnoc([], r, ResponseText);
    assert [] + [r] == [r];
    if rs != [] {
      MapSeqSnoc(rs, r, ResponseText);
      JoinSnoc(MapSeq(rs, ResponseText), ResponseText(r), Separator);
    }
  }

  /** The source's `renderResponses`: each response's text, then the separator unless it is the last. */
  method RenderResponses(rs: seq<Res>) returns (text: string)
    ensures text == ResponsesText(rs)
  {
    text := "";
    for i := 0 to |rs|
      invariant i == 0 ==> text == ""
      invariant 0 < i ==> text == ResponsesText(rs[..i]) + (if i < |rs| then Separator else "")
    {
      var t := RenderResponse(rs[i]);
      TakeSnoc(rs, i);
      ResponsesTextSnoc(rs[..i], rs[i]);
      text := text + t;
      if i < |rs| - 1 {
        text := text + Separator;
      }
    }
    TakeFull(rs);
    if rs == [] {
      ResponsesTextSnoc([], Res(NewReq("", ""), Response("", "", [], "")));
    }
  }

  /** The fixed lines at the head of `Req.String`. */
  function HeadLines(r: Req): seq<string>
  {
    ["File: " + r.file, "Name: " + r.name, "Desc: " + r.desc, "", r.httpMethod + " " + r.url]
  }

  /** The lines the source's `Req.String` writes, each followed by a newline. */
  function ReqLines(r: Req): seq<string>
  {
    HeadLines(r) + r.headers + (if r.body == [] then [] else [""] + r.body)
  }

  /** The text of `Req.String`. */
  function ReqText(r: Req): string
  {
    Terminated(ReqLines(r))
  }

  lemma TerminatedSnoc(lines: seq<string>, l: string)
    ensures Terminated(lines + [l]) == Terminated(lines) + l + "\n"
  {
    SnocTake(lines, l);
  }

  /** A five-element display is built by appending its elements one at a time. */
  lemma FiveBySnoc<T>(a: T, b: T, c: T, d: T, e: T)
    ensures [a] == [] + [a] && [a, b] == [a] + [b] && [a, b, c] == [a, b] + [c]
    ensures [a, b, c, d] == [a, b, c] + [d] && [a, b, c, d, e] == [a, b, c, d] + [e]
  {
  }

  /** The head of `Req.String`: five lines, each followed by a newline (a blank line after the description). */
  lemma HeadText(r: Req)
    ensures Terminated(HeadLines(r))
         == "File: " + r.file + "\n" + "Name: " + r.name + "\n" + "Desc: " + r.desc + "\n\n"
            + r.httpMethod + " " + r.url + "\n"
  {
    var a, b, c, d, e := "File: " + r.file, "Name: " + r.name, "Desc: " + r.desc, "", r.httpMethod + " " + r.url;
    FiveBySnoc(a, b, c, d, e);
    TerminatedSnoc([], a);
    TerminatedSnoc([a], b);
    TerminatedSnoc([a, b], c);
    TerminatedSnoc([a, b, c], d);
    TerminatedSnoc([a, b, c, d], e);
  }

  /**
   * A request's text splits at its newlines back into the file, name and
   * description lines, a blank line, the request line, the header lines
   * and, when there is a body, a blank line and the body lines, provided no
   * field holds a newline of its own.
   */
  lemma ReqTextLines(r: Req)
    requires '\n' !in r.file && '\n' !in r.name && '\n' !in r.desc
    requires '\n' !in r.httpMethod && '\n' !in r.url
    requires forall i :: 0 <= i < |r.headers| ==> '\n' !in r.headers[i]
    requires forall i :: 0 <= i < |r.body| ==> '\n' !in r.body[i]
    ensures Split(ReqText(r), '\n') == ReqLines(r) + [""]
  {
    var ls := ReqLines(r);
    forall i | 0 <= i < |ls| ensures '\n' !in ls[i] {
      if i >= 5 + |r.headers| + 1 {
        assert ls[i] == r.body[i - 6 - |r.headers|];
      } else if i >= 5 && i < 5 + |r.headers| {
        assert ls[i] == r.headers[i - 5];
      }
    }
    SplitTerminated(ls);
  }

  /** The source's `Req.String`: the fixed lines, each header line, then a blank line and the body lines. */
  method ReqString(r: Req) returns (text: string)
    ensures text == ReqText(r)
  {
    var head := HeadLines(r);
    text := "File: " + r.file + "\n";
    text := text + "Name: " + r.name + "\n";
    text := text + "Desc: " + r.desc + "\n\n";
    text := text + r.httpMethod + " " + r.url + "\n";
    HeadText(r);
    AppendNil(head, r.headers[..0]);
    for i := 0 to |r.headers|
      invariant text == Terminated(head + r.headers[..i])
    {
      AppendTakeSnoc(head, r.headers, i);
      TerminatedSnoc(head + r.headers[..i], r.headers[i]);
      text := text + r.headers[i] + "\n";
    }
    TakeFull(r.headers);
    if |r.body| > 0 {
      var lines := head + r.headers + [""];
      TerminatedSnoc(head + r.headers, "");
      text := text + "\n";
      AppendNil(lines, r.body[..0]);
      for i := 0 to |r.body|
        invariant text == Terminated(lines + r.body[..i])
      {
        AppendTakeSnoc(lines, r.body, i);
        TerminatedSnoc(lines + r.body[..i], r.body[i]);
        text := text + r.body[i] + "\n";
      }
      TakeFull(r.body);
      AppendAssoc(head + r.headers, [""], r.body);
    } else {
      AppendNil(head + r.headers, []);
    }
  }
}
