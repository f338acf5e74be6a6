/**
 * The `.http` request-file parser: the request record, the method whitelist,
 * the per-line classifier and the line-by-line state machine that turns the
 * lines of one file into requests.
 */
module Requests {
  import opened Common
  import opened GoStrings

  const NamePrefix: string := "#:name"
  const DescPrefix: string := "#:desc"
  const SeparatorPrefix: string := "#"

  /** The HTTP methods a request line may start with. */
  const ValidMethods: seq<string> :=
    ["GET", "HEAD", "POST", "PUT", "PATCH", "DELETE", "CONNECT", "OPTIONS", "TRACE"]

  /** One request block of a request file, with its lines still unexpanded. */
  datatype Req = Req(
    file: string,
    name: string,
    desc: string,
    httpMethod: string,
    url: string,
    headers: seq<string>,
    body: seq<string>)

  /** A name line with no space: Go's `strings.Split(line, " ")[1]` panics. */
  datatype ParseError = NameWithoutToken(line: string)

  /** A fresh request: only the name and the file are set. */
  function NewReq(name: string, file: string): (r: Req)
    ensures r.name == name && r.file == file
    ensures r.desc == "" && r.httpMethod == "" && r.url == ""
    ensures r.headers == [] && r.body == []
  {
    Req(file, name, "", "", "", [], [])
  }

  /** Linear search for `s` in `ss`. */
  function ContainsString(ss: seq<string>, s: string): (b: bool)
    ensures b <==> s in ss
  {
    if ss == [] then false
    else if ss[0] == s then true
    else ContainsString(ss[1..], s)
  }

  /** A request line: exactly two space-separated parts, the first a whitelisted method. */
  predicate IsReq(line: string)
  {
    var parts := Split(line, ' ');
    |parts| == 2 && ContainsString(ValidMethods, parts[0])
  }

  /**
   * A request line is a whitelisted method, one space, and a URL without
   * spaces; two spaces in a row therefore never make a request line.
   */
  lemma IsReqIff(line: string)
    ensures IsReq(line) <==>
      ' ' in line
      && line[..IndexOf(line, ' ')] in ValidMethods
      && ' ' !in line[IndexOf(line, ' ') + 1..]
  {
    if ' ' in line {
      var i := IndexOf(line, ' ');
      SplitFirst(line, ' ');
      var rest := line[i + 1..];
      if ' ' in rest {
        SplitFirst(rest, ' ');
      } else {
        SplitNoSep(rest, ' ');
      }
    } else {
      SplitNoSep(line, ' ');
    }
  }

  lemma EmptyIsNoMethod()
    ensures "" !in ValidMethods
  {
  }

  /** The name a name-directive line gives: its second space-separated part. */
  function NameToken(line: string): (r: Option<string>)
    ensures r.None? <==> ' ' !in line
    ensures r.Some? ==> ' ' !in r.value
  {
    CountCharZero(line, ' ');
    var parts := Split(line, ' ');
    if |parts| < 2 then None else Some(parts[1])
  }

  /** The line kinds of the parser, in the order in which the source tests them. */
  datatype LineKind =
    | NameDirective
    | DescDirective
    | RequestLine
    | HeaderLine
    | BlankLine
    | SeparatorLine
    | BodyLine
    | Unrecognized

  /** Classifies `line` against the request under construction, if any. */
  function Classify(line: string, cur: Option<Req>): (k: LineKind)
    ensures k == NameDirective ==> cur.None? && HasPrefix(line, NamePrefix)
    ensures k == DescDirective ==> cur.Some? && HasPrefix(line, DescPrefix)
    ensures k == RequestLine ==> cur.Some? && IsReq(line)
    ensures k == HeaderLine ==> cur.Some? && cur.value.httpMethod != "" && CountChar(line, ':') == 1
    ensures k == BlankLine <==> line == ""
    ensures k == SeparatorLine ==> cur.Some? && HasPrefix(line, SeparatorPrefix)
    ensures k == BodyLine ==> cur.Some? && line != [] && !HasPrefix(line, SeparatorPrefix)
    ensures k == Unrecognized ==> cur.None?
  {
    if HasPrefix(line, NamePrefix) && cur.None? then NameDirective
    else if HasPrefix(line, DescPrefix) && cur.Some? then DescDirective
    else if IsReq(line) && cur.Some? then RequestLine
    else if |Split(line, ':')| == 2 && cur.Some? && cur.value.httpMethod != "" then HeaderLine
    else if line == "" then BlankLine
    else if HasPrefix(line, SeparatorPrefix) && cur.Some? then SeparatorLine
    else if cur.Some? then BodyLine
    else Unrecognized
  }

  /** The parser's state: the requests closed so far and the one under construction. */
  datatype ParseState = ParseState(reqs: seq<Req>, cur: Option<Req>)

  const Start: ParseState := ParseState([], None)

  /** Whether a line of kind `k` can meet the state `st`. */
  predicate Fits(k: LineKind, st: ParseState)
  {
    k.NameDirective? || k.BlankLine? || k.Unrecognized? || st.cur.Some?
  }

  /** The effect on the state `st` of a line already classified as `k`. */
  function Apply(st: ParseState, k: LineKind, line: string, path: string): Result<ParseState, ParseError>
    requires Fits(k, st)
    requires k.RequestLine? ==> IsReq(line)
  {
    match k
    case NameDirective =>
      (match NameToken(line)
       case None => Failure(NameWithoutToken(line))
       case Some(name) => Success(st.(cur := Some(NewReq(name, path)))))
    case DescDirective =>
      Success(st.(cur := Some(st.cur.value.(desc := TrimSpace(TrimPrefix(line, DescPrefix))))))
    case RequestLine =>
      var parts := Split(line, ' ');
      Success(st.(cur := Some(st.cur.value.(httpMethod := parts[0], url := parts[1]))))
    case HeaderLine =>
      Success(st.(cur := Some(st.cur.value.(headers := st.cur.value.headers + [line]))))
    case BlankLine => Success(st)
    case SeparatorLine => Success(ParseState(st.reqs + [st.cur.value], None))
    case BodyLine =>
      Success(st.(cur := Some(st.cur.value.(body := st.cur.value.body + [line]))))
    case Unrecognized => Success(st)
  }

  /** The effect of one line on the parser state. */
  function Step(st: ParseState, line: string, path: string): Result<ParseState, ParseError>
  {
    Apply(st, Classify(line, st.cur), line, path)
  }

  /** The parser state after the lines `lines`, or the first error. */
  function Run(lines: seq<string>, path: string): Result<ParseState, ParseError>
    decreases |lines|
  {
    if lines == [] then Success(Start)
    else
      match Run(lines[..|lines| - 1], path)
      case Failure(e) => Failure(e)
      case Success(st) => Step(st, lines[|lines| - 1], path)
  }

  /** Closes the request still open at end of input. */
  function Finish(st: ParseState): seq<Req>
  {
    match st.cur
    case None => st.reqs
    case Some(r) => st.reqs + [r]
  }

  /** The requests of one file, in the file's order. */
  function Parse(lines: seq<string>, path: string): Result<seq<Req>, ParseError>
  {
    match Run(lines, path)
    case Failure(e) => Failure(e)
    case Success(st) => Success(Finish(st))
  }

  /** A failure in a prefix of the input is the failure of the whole input. */
  lemma {:induction false} RunFailurePersists(lines: seq<string>, k: nat, path: string)
    requires k <= |lines|
    requires Run(lines[..k], path).Failure?
    ensures Run(lines, path) == Run(lines[..k], path)
    decreases |lines|
  {
    if k < |lines| {
      var pre := lines[..|lines| - 1];
      TakeTake(lines, k, |lines| - 1);
      RunFailurePersists(pre, k, path);
      DropLast(lines);
    } else {
      TakeFull(lines);
    }
  }

  /**
   * The scanner loop of the source: reads the lines in order, updating the
   * request under construction and appending each closed request.
   */
  method ParseReqs(lines: seq<string>, path: string) returns (res: Result<seq<Req>, ParseError>)
    ensures res == Parse(lines, path)
  {
    var reqs: seq<Req> := [];
    var req: Option<Req> := None;
    var i := 0;
    while i < |lines|
      invariant 0 <= i <= |lines|
      invariant Run(lines[..i], path) == Success(ParseState(reqs, req))
    {
      var line := lines[i];
      TakeTake(lines, i, i + 1);
      var kind := Classify(line, req);
      assert Run(lines[..i + 1], path) == Apply(ParseState(reqs, req), kind, line, path);
      match kind {
        case NameDirective =>
          var parts := Split(line, ' ');
          if |parts| < 2 {
            RunFailurePersists(lines, i + 1, path);
            return Failure(NameWithoutToken(line));
          }
          req := Some(NewReq(parts[1], path));
        case DescDirective =>
          var desc := TrimSpace(TrimPrefix(line, DescPrefix));
          req := Some(req.value.(desc := desc));
        case RequestLine =>
          var parts := Split(line, ' ');
          req := Some(req.value.(httpMethod := parts[0], url := parts[1]));
        case HeaderLine =>
          req := Some(req.value.(headers := req.value.headers + [line]));
        case BlankLine =>
        case SeparatorLine =>
          reqs := reqs + [req.value];
          req := None;
        case BodyLine =>
          req := Some(req.value.(body := req.value.body + [line]));
        case Unrecognized =>
      }
      i := i + 1;
    }
    TakeFull(lines);
    if req.Some? {
      reqs := reqs + [req.value];
    }
    return Success(reqs);
  }
}
