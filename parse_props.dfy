/**
 * What the request parser guarantees about every input: the shape of each
 * request it returns, which lines open and close requests, and the effect of
 * the individual line kinds.
 */
module ParseProperties {
  import opened Common
  import opened GoStrings
  import opened Requests

  /** The shape every request built from the file `path` has. */
  ghost predicate WellFormed(r: Req, path: string)
  {
    && r.file == path
    && ' ' !in r.name
    && (r.httpMethod == "" ==> r.url == "" && r.headers == [])
    && (r.httpMethod != "" ==> r.httpMethod in ValidMethods && ' ' !in r.url)
    && (r.desc == "" || (r.desc[0] !in WhiteSpace && r.desc[|r.desc| - 1] !in WhiteSpace))
    && (forall h :: h in r.headers ==> CountChar(h, ':') == 1)
    && (forall l :: l in r.body ==> l != "" && !HasPrefix(l, SeparatorPrefix))
  }

  ghost predicate StateWellFormed(st: ParseState, path: string)
  {
    && (forall r :: r in st.reqs ==> WellFormed(r, path))
    && (st.cur.Some? ==> WellFormed(st.cur.value, path))
  }

  lemma StepWellFormed(st: ParseState, line: string, path: string)
    requires StateWellFormed(st, path)
    requires Step(st, line, path).Success?
    ensures StateWellFormed(Step(st, line, path).value, path)
  {
    var k := Classify(line, st.cur);
    ApplyWellFormed(st, k, line, path);
  }

  /** A description directive keeps a request well formed: the new description is trimmed. */
  lemma DescWellFormed(r: Req, line: string, path: string)
    requires WellFormed(r, path)
    ensures WellFormed(r.(desc := TrimSpace(TrimPrefix(line, DescPrefix))), path)
  {
    TrimEnds(TrimPrefix(line, DescPrefix), WhiteSpace);
  }

  /** A request line keeps a request well formed: its method is whitelisted and its URL has no space. */
  lemma RequestWellFormed(r: Req, line: string, path: string)
    requires WellFormed(r, path) && IsReq(line)
    ensures var parts := Split(line, ' ');
      WellFormed(r.(httpMethod := parts[0], url := parts[1]), path)
  {
    EmptyIsNoMethod();
  }

  lemma ApplyWellFormed(st: ParseState, k: LineKind, line: string, path: string)
    requires StateWellFormed(st, path)
    requires Fits(k, st)
    requires k.RequestLine? ==> IsReq(line)
    requires k.HeaderLine? ==> st.cur.value.httpMethod != "" && CountChar(line, ':') == 1
    requires k.BodyLine? ==> line != [] && !HasPrefix(line, SeparatorPrefix)
    requires Apply(st, k, line, path).Success?
    ensures StateWellFormed(Apply(st, k, line, path).value, path)
  {
    match k
    case DescDirective => DescWellFormed(st.cur.value, line, path);
    case RequestLine => RequestWellFormed(st.cur.value, line, path);
    case _ =>
  }

  lemma {:induction false} RunWellFormed(lines: seq<string>, path: string)
    requires Run(lines, path).Success?
    ensures StateWellFormed(Run(lines, path).value, path)
    decreases |lines|
  {
    if lines != [] {
      var pre := lines[..|lines| - 1];
      RunWellFormed(pre, path);
      StepWellFormed(Run(pre, path).value, lines[|lines| - 1], path);
    }
  }

  /**
   * Every request of a file has that file as its `file`, a name without
   * spaces, a whitelisted method (or none, and then no URL and no headers),
   * a trimmed description, headers with exactly one colon, and body lines
   * that are neither blank nor `#`-prefixed.
   */
  lemma ParseWellFormed(lines: seq<string>, path: string)
    requires Parse(lines, path).Success?
    ensures forall r :: r in Parse(lines, path).value ==> WellFormed(r, path)
  {
    RunWellFormed(lines, path);
  }

  /** The kind each line was classified as, in a run that succeeded. */
  function Kinds(lines: seq<string>, path: string): (ks: seq<LineKind>)
    requires Run(lines, path).Success?
    ensures |ks| == |lines|
    decreases |lines|
  {
    if lines == [] then []
    else
      var pre := lines[..|lines| - 1];
      Kinds(pre, path) + [Classify(lines[|lines| - 1], Run(pre, path).value.cur)]
  }

  function CountKind(ks: seq<LineKind>, k: LineKind): nat
  {
    if ks == [] then 0
    else CountKind(ks[..|ks| - 1], k) + (if ks[|ks| - 1] == k then 1 else 0)
  }

  /** The names given by the lines classified as name directives, in order. */
  function OpenedNames(lines: seq<string>, ks: seq<LineKind>): (names: seq<string>)
    requires |ks| == |lines|
    ensures |names| <= CountKind(ks, NameDirective)
  {
    if lines == [] then []
    else
      var n := |lines| - 1;
      OpenedNames(lines[..n], ks[..n])
      + (if ks[n] == NameDirective && NameToken(lines[n]).Some? then [NameToken(lines[n]).value] else [])
  }

  function Names(rs: seq<Req>): (names: seq<string>)
    ensures |names| == |rs|
  {
    if rs == [] then [] else Names(rs[..|rs| - 1]) + [rs[|rs| - 1].name]
  }

  lemma NamesSnoc(rs: seq<Req>, r: Req)
    ensures Names(rs + [r]) == Names(rs) + [r.name]
  {
    SnocTake(rs, r);
  }

  /**
   * In a run that succeeded, the requests (closed and open) carry exactly the
   * names of the name-directive lines, in order, one request per directive,
   * and the closed ones are exactly as many as the separator lines.
   */
  lemma {:induction false} RunNames(lines: seq<string>, path: string)
    requires Run(lines, path).Success?
    ensures Names(Finish(Run(lines, path).value)) == OpenedNames(lines, Kinds(lines, path))
    ensures |OpenedNames(lines, Kinds(lines, path))| == CountKind(Kinds(lines, path), NameDirective)
    ensures |Run(lines, path).value.reqs| == CountKind(Kinds(lines, path), SeparatorLine)
    decreases |lines|
  {
    if lines != [] {
      var n := |lines| - 1;
      var pre := lines[..n];
      var line := lines[n];
      RunNames(pre, path);
      var st := Run(pre, path).value;
      var ks := Kinds(lines, path);
      SnocTake(Kinds(pre, path), ks[n]);
      match Classify(line, st.cur)
      case NameDirective =>
        NamesSnoc(st.reqs, NewReq(NameToken(line).value, path));
      case SeparatorLine =>
      case BlankLine =>
      case Unrecognized =>
      case DescDirective =>
        NamesSnoc(st.reqs, st.cur.value);
        NamesSnoc(st.reqs, Step(st, line, path).value.cur.value);
      case RequestLine =>
        NamesSnoc(st.reqs, st.cur.value);
        NamesSnoc(st.reqs, Step(st, line, path).value.cur.value);
      case HeaderLine =>
        NamesSnoc(st.reqs, st.cur.value);
        NamesSnoc(st.reqs, Step(st, line, path).value.cur.value);
      case BodyLine =>
        NamesSnoc(st.reqs, st.cur.value);
        NamesSnoc(st.reqs, Step(st, line, path).value.cur.value);
    }
  }

  /**
   * A file yields one request per name directive, named by that directive's
   * second token; a request is emitted when a separator line closes it or
   * when it is still open at end of input.
   */
  lemma ParseCount(lines: seq<string>, path: string)
    requires Parse(lines, path).Success?
    ensures Names(Parse(lines, path).value) == OpenedNames(lines, Kinds(lines, path))
    ensures |Parse(lines, path).value| == CountKind(Kinds(lines, path), NameDirective)
    ensures |Parse(lines, path).value|
         == CountKind(Kinds(lines, path), SeparatorLine) + (if Run(lines, path).value.cur.Some? then 1 else 0)
  {
    RunNames(lines, path);
  }

  /** A second request line in a block replaces the method and URL and keeps the rest. */
  lemma StepRequestLineOverwrites(st: ParseState, line: string, path: string)
    requires st.cur.Some? && IsReq(line)
    ensures ' ' in line
    ensures var i := IndexOf(line, ' ');
      Step(st, line, path)
        == Success(st.(cur := Some(st.cur.value.(httpMethod := line[..i], url := line[i + 1..]))))
  {
    DirectiveIsSeparatorPrefixed(line);
    if HasPrefix(line, SeparatorPrefix) {
      HashIsNoRequest(line);
    }
    IsReqIff(line);
    var i := IndexOf(line, ' ');
    SplitFirst(line, ' ');
    SplitNoSep(line[i + 1..], ' ');
  }

  /** Before the request line, a non-blank line that is not `#`-prefixed goes to the body,
    * even one shaped like a header. */
  lemma StepBeforeRequestLineIsBody(st: ParseState, line: string, path: string)
    requires st.cur.Some? && st.cur.value.httpMethod == ""
    requires line != "" && !IsReq(line) && !HasPrefix(line, SeparatorPrefix)
    ensures Step(st, line, path)
         == Success(st.(cur := Some(st.cur.value.(body := st.cur.value.body + [line]))))
  {
    DirectiveIsSeparatorPrefixed(line);
  }

  lemma DirectiveIsSeparatorPrefixed(line: string)
    ensures HasPrefix(line, DescPrefix) ==> HasPrefix(line, SeparatorPrefix)
    ensures HasPrefix(line, NamePrefix) ==> HasPrefix(line, SeparatorPrefix)
  {
    if HasPrefix(line, DescPrefix) || HasPrefix(line, NamePrefix) {
      assert line[..1] == line[..6][..1];
    }
  }

  /** Once the request line is known, a line with exactly one colon is a header,
    * however it starts, unless it is a description or a request line. */
  lemma StepOneColonIsHeader(st: ParseState, line: string, path: string)
    requires st.cur.Some? && st.cur.value.httpMethod != ""
    requires CountChar(line, ':') == 1 && !HasPrefix(line, DescPrefix) && !IsReq(line)
    ensures Step(st, line, path)
         == Success(st.(cur := Some(st.cur.value.(headers := st.cur.value.headers + [line]))))
  {
  }

  /** Inside an open block, a description directive sets the description to the trimmed text after the marker. */
  lemma StepDescSetsTrimmed(st: ParseState, line: string, path: string)
    requires st.cur.Some? && HasPrefix(line, DescPrefix)
    ensures Step(st, line, path)
         == Success(st.(cur := Some(st.cur.value.(desc := TrimSpace(line[|DescPrefix|..])))))
  {
    assert line[..|DescPrefix|] == DescPrefix;
    assert line[2] == 'd';
    assert !HasPrefix(line, NamePrefix);
    assert Classify(line, st.cur) == DescDirective;
    assert TrimPrefix(line, DescPrefix) == line[|DescPrefix|..];
  }

  /** With no request open, a name line with a space opens a new request named by its second token. */
  lemma StepNameOpens(st: ParseState, line: string, path: string)
    requires st.cur.None? && HasPrefix(line, NamePrefix) && ' ' in line
    ensures NameToken(line).Some?
    ensures Step(st, line, path) == Success(st.(cur := Some(NewReq(NameToken(line).value, path))))
  {
  }

  /** With no request open, any line other than a name directive leaves the state as it is. */
  lemma StepUnrecognized(st: ParseState, line: string, path: string)
    requires st.cur.None? && !HasPrefix(line, NamePrefix)
    ensures Step(st, line, path) == Success(st)
  {
  }

  /** A `#`-prefixed line is never a request line: no method starts with `#`. */
  lemma HashIsNoRequest(line: string)
    requires HasPrefix(line, SeparatorPrefix)
    ensures !IsReq(line)
  {
    IsReqIff(line);
    EmptyIsNoMethod();
    if ' ' in line {
      var i := IndexOf(line, ' ');
      if i > 0 {
        assert line[..i][0] == '#';
      }
    }
  }

  /**
   * Inside an open block, a `#`-prefixed line that is neither a description
   * nor a header closes the block: the open request is appended to the
   * closed ones and no request is open afterwards.
   */
  lemma StepSeparatorCloses(st: ParseState, line: string, path: string)
    requires st.cur.Some? && HasPrefix(line, SeparatorPrefix) && !HasPrefix(line, DescPrefix)
    requires st.cur.value.httpMethod == "" || CountChar(line, ':') != 1
    ensures Step(st, line, path) == Success(ParseState(st.reqs + [st.cur.value], None))
  {
    HashIsNoRequest(line);
  }

  /**
   * Inside an open block, with or without a method, a non-blank line that
   * is not `#`-prefixed, not a request line and not a header goes to the body.
   */
  lemma StepBodyAny(st: ParseState, line: string, path: string)
    requires st.cur.Some? && line != "" && !HasPrefix(line, SeparatorPrefix) && !IsReq(line)
    requires st.cur.value.httpMethod == "" || CountChar(line, ':') != 1
    ensures Step(st, line, path)
         == Success(st.(cur := Some(st.cur.value.(body := st.cur.value.body + [line]))))
  {
    DirectiveIsSeparatorPrefixed(line);
  }

  /** A blank line never changes the state. */
  lemma StepBlank(st: ParseState, path: string)
    ensures Step(st, "", path) == Success(st)
  {
  }

  /** The shape of a name directive `#:name N` whose name has no space and no colon. */
  lemma NameLineShape(line: string, name: string)
    requires line == NamePrefix + [' '] + name && ' ' !in name && ':' !in name
    ensures HasPrefix(line, NamePrefix) && HasPrefix(line, SeparatorPrefix)
    ensures !HasPrefix(line, DescPrefix) && !IsReq(line)
    ensures |Split(line, ':')| == 2
  {
    assert line[..6] == NamePrefix;
    assert line[..1] == SeparatorPrefix;
    assert NamePrefix !in ValidMethods;
    SplitTwo(NamePrefix, name, ' ');
    assert line == "#" + [':'] + (NamePrefix[2..] + [' '] + name);
    SplitTwo("#", NamePrefix[2..] + [' '] + name, ':');
  }

  /**
   * A second name directive inside an open block does not start a new
   * request: once the request line is known it is taken as a header ...
   */
  lemma SecondNameLineIsHeader(r: Req, line: string, name: string)
    requires line == NamePrefix + [' '] + name && ' ' !in name && ':' !in name
    requires r.httpMethod != ""
    ensures Classify(line, Some(r)) == HeaderLine
  {
    NameLineShape(line, name);
  }

  /** ... and before it, it closes the block without opening another. */
  lemma SecondNameLineCloses(r: Req, line: string, name: string)
    requires line == NamePrefix + [' '] + name && ' ' !in name && ':' !in name
    requires r.httpMethod == ""
    ensures Classify(line, Some(r)) == SeparatorLine
  {
    NameLineShape(line, name);
  }

  /** With no request open, a name line without a space is an error, whatever came before. */
  lemma StepNameLineWithoutSpace(st: ParseState, line: string, path: string)
    requires st.cur.None? && HasPrefix(line, NamePrefix) && ' ' !in line
    ensures Step(st, line, path) == Failure(NameWithoutToken(line))
  {
  }

  /**
   * A name line without a space, met while no request is open, makes the
   * whole parse fail with that line, whatever follows it.
   */
  lemma NameLineWithoutSpaceFails(lines: seq<string>, k: nat, path: string)
    requires k < |lines|
    requires Run(lines[..k], path).Success? && Run(lines[..k], path).value.cur.None?
    requires HasPrefix(lines[k], NamePrefix) && ' ' !in lines[k]
    ensures Parse(lines, path) == Failure(NameWithoutToken(lines[k]))
  {
    TakeTake(lines, k, k + 1);
    assert lines[..k + 1][k] == lines[k];
    StepNameLineWithoutSpace(Run(lines[..k], path).value, lines[k], path);
    RunFailurePersists(lines, k + 1, path);
  }

  /** The parser run forward from the state `st` over `lines`, or the first error. */
  function Feed(st: ParseState, lines: seq<string>, path: string): Result<ParseState, ParseError>
    decreases |lines|
  {
    if lines == [] then Success(st)
    else
      match Step(st, lines[0], path)
      case Failure(e) => Failure(e)
      case Success(next) => Feed(next, lines[1..], path)
  }

  lemma {:induction false} FeedSnoc(st: ParseState, lines: seq<string>, line: string, path: string)
    ensures Feed(st, lines + [line], path)
         == match Feed(st, lines, path)
            case Failure(e) => Failure(e)
            case Success(s) => Step(s, line, path)
    decreases |lines|
  {
    if lines == [] {
      assert [] + [line] == [line];
      ConsDrop(line, []);
    } else {
      TailSnoc(lines, line);
      match Step(st, lines[0], path)
      case Failure(e) =>
      case Success(next) => FeedSnoc(next, lines[1..], line, path);
    }
  }

  /** Reading the lines forward, one step per line, is the parser's run. */
  lemma {:induction false} RunFeed(lines: seq<string>, path: string)
    ensures Run(lines, path) == Feed(Start, lines, path)
    decreases |lines|
  {
    if lines != [] {
      var n := |lines| - 1;
      RunFeed(lines[..n], path);
      DropLast(lines);
      FeedSnoc(Start, lines[..n], lines[n], path);
    }
  }

  /** A forward run that ends in a state gives the requests of that state. */
  lemma ParseOfFeed(lines: seq<string>, st: ParseState, path: string)
    requires Feed(Start, lines, path) == Success(st)
    ensures Parse(lines, path) == Success(Finish(st))
  {
    RunFeed(lines, path);
  }

  /** A forward run over two pieces of input is the run over the first, then over the second. */
  lemma {:induction false} FeedAppend(st: ParseState, a: seq<string>, b: seq<string>, path: string)
    ensures Feed(st, a + b, path)
         == match Feed(st, a, path)
            case Failure(e) => Failure(e)
            case Success(s) => Feed(s, b, path)
    decreases |a|
  {
    if a == [] {
      assert a + b == b;
    } else {
      ConsTail(a);
      AppendAssoc([a[0]], a[1..], b);
      ConsDrop(a[0], a[1..] + b);
      match Step(st, a[0], path)
      case Failure(e) =>
      case Success(next) => FeedAppend(next, a[1..], b, path);
    }
  }
}
