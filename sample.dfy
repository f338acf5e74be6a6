/**
 * The request file of the repository's parser test, read line by line: three
 * blocks named `getWithNoParams`, the last one without a closing `###` and
 * with a JSON body. The block shapes are proved for any name, description,
 * URL and header of the right form, then applied to the test's text.
 */
module ParseSample {
  import opened Common
  import opened GoStrings
  import opened Requests
  import opened ParseProperties

  /** A header line `key:value` as written in a request file. */
  datatype HeaderText = HeaderText(key: string, value: string)
  {
    function Line(): string
    {
      key + ":" + value
    }
  }

  /**
   * A header line with one colon that does not start with `#` and whose key
   * either starts with a space or has no space in it, so its first
   * space-separated word is never an HTTP method.
   */
  predicate HeaderShaped(h: HeaderText)
  {
    ':' !in h.key && ':' !in h.value && h.key != [] && h.key[0] != '#'
    && (h.key[0] == ' ' || ' ' !in h.key)
  }

  /** A name with no space and no colon. */
  predicate NameShaped(name: string)
  {
    ' ' !in name && ':' !in name
  }

  /** A description that `strings.TrimSpace` leaves as it is. */
  predicate DescShaped(desc: string)
  {
    desc != [] && desc[0] !in WhiteSpace && desc[|desc| - 1] !in WhiteSpace
  }

  /** The first word of `p + q` extends `p` when `p` holds no separator. */
  lemma {:induction false} FirstWordPrefix(p: string, q: string, sep: char)
    requires sep !in p
    ensures Split(p + q, sep)[0] == p + Split(q, sep)[0]
    decreases |p|
  {
    if p == [] {
      assert p + q == q;
    } else {
      assert (p + q)[1..] == p[1..] + q;
      FirstWordPrefix(p[1..], q, sep);
      assert (p + q)[0] == p[0];
      assert [p[0]] + (p[1..] + Split(q, sep)[0]) == p + Split(q, sep)[0];
    }
  }

  lemma NoMethodHasColon(w: string)
    requires ':' in w
    ensures w !in ValidMethods
  {
  }

  /** A name directive opens a request when none is open. */
  lemma StepNameLine(st: ParseState, name: string, path: string)
    requires st.cur.None? && NameShaped(name)
    ensures Step(st, NamePrefix + " " + name, path) == Success(st.(cur := Some(NewReq(name, path))))
  {
    var line := NamePrefix + " " + name;
    NameLineShape(line, name);
    SplitTwo(NamePrefix, name, ' ');
  }

  /** A description directive sets the trimmed text after the marker. */
  lemma StepDescLine(st: ParseState, desc: string, path: string)
    requires st.cur.Some? && DescShaped(desc)
    ensures Step(st, DescPrefix + " " + desc, path) == Success(st.(cur := Some(st.cur.value.(desc := desc))))
  {
    var line := DescPrefix + " " + desc;
    assert line[..6] == DescPrefix;
    assert Classify(line, st.cur) == DescDirective;
    assert TrimPrefix(line, DescPrefix) == [' '] + desc;
    TrimLeftCons(' ', desc, WhiteSpace);
    TrimFixed(desc, WhiteSpace);
    assert TrimSpace(TrimPrefix(line, DescPrefix)) == desc;
  }

  lemma MethodsAreLetters(m: string)
    requires m in ValidMethods
    ensures m != [] && m[0] != '#'
  {
  }

  /** A request line sets the method and the URL. */
  lemma StepRequestLine(st: ParseState, m: string, url: string, path: string)
    requires st.cur.Some? && m in ValidMethods && ' ' !in url
    ensures Step(st, m + " " + url, path) == Success(st.(cur := Some(st.cur.value.(httpMethod := m, url := url))))
  {
    var line := m + " " + url;
    MethodsAreLetters(m);
    assert line[0] == m[0];
    SplitTwo(m, url, ' ');
  }

  /** The first word of a header-shaped line is no HTTP method. */
  lemma HeaderFirstWord(h: HeaderText)
    requires HeaderShaped(h)
    ensures Split(h.Line(), ' ')[0] !in ValidMethods
  {
    var line := h.Line();
    if h.key[0] == ' ' {
      assert line == [' '] + line[1..];
      assert ([' '] + line[1..])[1..] == line[1..];
      assert Split(line, ' ')[0] == "";
    } else {
      FirstWordPrefix(h.key + ":", h.value, ' ');
      assert Split(line, ' ')[0][|h.key|] == ':';
      NoMethodHasColon(Split(line, ' ')[0]);
    }
  }

  /** A header-shaped line has one colon and is neither a description nor a request line. */
  lemma HeaderLineKind(h: HeaderText)
    requires HeaderShaped(h)
    ensures CountChar(h.Line(), ':') == 1 && !HasPrefix(h.Line(), DescPrefix) && !IsReq(h.Line())
  {
    var line := h.Line();
    SplitTwo(h.key, h.value, ':');
    assert line[0] == h.key[0];
    HeaderFirstWord(h);
  }

  /** A header-shaped line is a header once the method is known. */
  lemma StepHeaderLine(st: ParseState, h: HeaderText, path: string)
    requires st.cur.Some? && st.cur.value.httpMethod != "" && HeaderShaped(h)
    ensures Step(st, h.Line(), path) == Success(st.(cur := Some(st.cur.value.(headers := st.cur.value.headers + [h.Line()]))))
  {
    HeaderLineKind(h);
    StepOneColonIsHeader(st, h.Line(), path);
  }

  /** A line without spaces, colons or a leading `#` goes to the body of an open request. */
  lemma StepBodyLine(st: ParseState, line: string, path: string)
    requires st.cur.Some? && line != [] && ' ' !in line && ':' !in line && line[0] != '#'
    ensures Step(st, line, path) == Success(st.(cur := Some(st.cur.value.(body := st.cur.value.body + [line]))))
  {
    SplitNoSep(line, ' ');
    SplitNoSep(line, ':');
  }

  /** `###` closes the open request. */
  lemma StepSeparatorLine(st: ParseState, path: string)
    requires st.cur.Some?
    ensures Step(st, "###", path) == Success(ParseState(st.reqs + [st.cur.value], None))
  {
    SplitNoSep("###", ' ');
    SplitNoSep("###", ':');
  }

  /** A forward run extended by a name directive. */
  lemma FeedName(st: ParseState, xs: seq<string>, mid: ParseState, name: string, path: string)
    requires Feed(st, xs, path) == Success(mid) && mid.cur.None? && NameShaped(name)
    ensures Feed(st, xs + [NamePrefix + " " + name], path) == Success(mid.(cur := Some(NewReq(name, path))))
  {
    FeedSnoc(st, xs, NamePrefix + " " + name, path);
    StepNameLine(mid, name, path);
  }

  /** A forward run extended by a description directive. */
  lemma FeedDesc(st: ParseState, xs: seq<string>, mid: ParseState, desc: string, path: string)
    requires Feed(st, xs, path) == Success(mid) && mid.cur.Some? && DescShaped(desc)
    ensures Feed(st, xs + [DescPrefix + " " + desc], path) == Success(mid.(cur := Some(mid.cur.value.(desc := desc))))
  {
    FeedSnoc(st, xs, DescPrefix + " " + desc, path);
    StepDescLine(mid, desc, path);
  }

  /** A forward run extended by a request line. */
  lemma FeedRequest(st: ParseState, xs: seq<string>, mid: ParseState, m: string, url: string, path: string)
    requires Feed(st, xs, path) == Success(mid) && mid.cur.Some? && m in ValidMethods && ' ' !in url
    ensures Feed(st, xs + [m + " " + url], path) == Success(mid.(cur := Some(mid.cur.value.(httpMethod := m, url := url))))
  {
    FeedSnoc(st, xs, m + " " + url, path);
    StepRequestLine(mid, m, url, path);
  }

  /** A forward run extended by a header line. */
  lemma FeedHeader(st: ParseState, xs: seq<string>, mid: ParseState, h: HeaderText, path: string)
    requires Feed(st, xs, path) == Success(mid) && mid.cur.Some? && mid.cur.value.httpMethod != "" && HeaderShaped(h)
    ensures Feed(st, xs + [h.Line()], path) == Success(mid.(cur := Some(mid.cur.value.(headers := mid.cur.value.headers + [h.Line()]))))
  {
    FeedSnoc(st, xs, h.Line(), path);
    StepHeaderLine(mid, h, path);
  }

  /** A forward run extended by a body line. */
  lemma FeedBody(st: ParseState, xs: seq<string>, mid: ParseState, line: string, path: string)
    requires Feed(st, xs, path) == Success(mid) && mid.cur.Some?
    requires line != [] && ' ' !in line && ':' !in line && line[0] != '#'
    ensures Feed(st, xs + [line], path) == Success(mid.(cur := Some(mid.cur.value.(body := mid.cur.value.body + [line]))))
  {
    FeedSnoc(st, xs, line, path);
    StepBodyLine(mid, line, path);
  }

  /** A forward run extended by a blank line. */
  lemma FeedBlank(st: ParseState, xs: seq<string>, mid: ParseState, path: string)
    requires Feed(st, xs, path) == Success(mid)
    ensures Feed(st, xs + [""], path) == Success(mid)
  {
    FeedSnoc(st, xs, "", path);
    StepBlank(mid, path);
  }

  /** A forward run extended by `###`. */
  lemma FeedSeparator(st: ParseState, xs: seq<string>, mid: ParseState, path: string)
    requires Feed(st, xs, path) == Success(mid) && mid.cur.Some?
    ensures Feed(st, xs + ["###"], path) == Success(ParseState(mid.reqs + [mid.cur.value], None))
  {
    FeedSnoc(st, xs, "###", path);
    StepSeparatorLine(mid, path);
  }

  /*
   * The blocks below are spelled as lines appended one at a time to `[]`
   * (`[] + [a] + [b]`), the shape in which the forward-run lemmas above take
   * them, so that each line's step is proved on its own.
   */

  /** The opening lines of a block: name, description, request line, one header. */
  function Opening(name: string, desc: string, m: string, url: string, h: HeaderText): seq<string>
  {
    [] + [NamePrefix + " " + name] + [DescPrefix + " " + desc] + [m + " " + url] + [h.Line()]
  }

  /** The lines that close a block: a blank line, `###` and a blank line. */
  function Closing(): seq<string>
  {
    [] + [""] + ["###"] + [""]
  }

  /** The request an opening leaves open. */
  function Opened(name: string, desc: string, m: string, url: string, h: HeaderText, path: string): Req
  {
    NewReq(name, path).(desc := desc, httpMethod := m, url := url, headers := [h.Line()])
  }

  /** The name and description lines of a block open a request with that description. */
  lemma FeedNamed(st: ParseState, name: string, desc: string, path: string)
    requires st.cur.None? && NameShaped(name) && DescShaped(desc)
    ensures Feed(st, [] + [NamePrefix + " " + name] + [DescPrefix + " " + desc], path)
         == Success(st.(cur := Some(NewReq(name, path).(desc := desc))))
  {
    FeedName(st, [], st, name, path);
    FeedDesc(st, [] + [NamePrefix + " " + name], st.(cur := Some(NewReq(name, path))), desc, path);
  }

  lemma FeedOpening(st: ParseState, name: string, desc: string, m: string, url: string, h: HeaderText, path: string)
    requires st.cur.None? && NameShaped(name) && DescShaped(desc)
    requires m in ValidMethods && ' ' !in url && HeaderShaped(h)
    ensures Feed(st, Opening(name, desc, m, url, h), path) == Success(st.(cur := Some(Opened(name, desc, m, url, h, path))))
  {
    var s2 := st.(cur := Some(NewReq(name, path).(desc := desc)));
    var s3 := s2.(cur := Some(s2.cur.value.(httpMethod := m, url := url)));
    var x2 := [] + [NamePrefix + " " + name] + [DescPrefix + " " + desc];
    var x3 := x2 + [m + " " + url];
    FeedNamed(st, name, desc, path);
    FeedRequest(st, x2, s2, m, url, path);
    FeedHeader(st, x3, s3, h, path);
    assert Opening(name, desc, m, url, h) == x3 + [h.Line()];
    var r := s3.cur.value.(headers := s3.cur.value.headers + [h.Line()]);
    assert r == Opened(name, desc, m, url, h, path);
  }

  lemma FeedClosing(st: ParseState, path: string)
    requires st.cur.Some?
    ensures Feed(st, Closing(), path) == Success(ParseState(st.reqs + [st.cur.value], None))
  {
    FeedBlank(st, [], st, path);
    FeedSeparator(st, [] + [""], st, path);
    FeedBlank(st, [] + [""] + ["###"], ParseState(st.reqs + [st.cur.value], None), path);
  }

  /** The end of the last block: a blank line, then a JSON body of four lines. */
  function JsonBody(foo: HeaderText, bar: HeaderText): seq<string>
  {
    [] + [""] + ["{"] + [foo.Line()] + [bar.Line()] + ["}"]
  }

  lemma FeedJsonBody(st: ParseState, foo: HeaderText, bar: HeaderText, path: string)
    requires st.cur.Some? && st.cur.value.httpMethod != "" && HeaderShaped(foo) && HeaderShaped(bar)
    ensures Feed(st, JsonBody(foo, bar), path)
         == Success(st.(cur := Some(st.cur.value.(
              headers := st.cur.value.headers + [foo.Line()] + [bar.Line()],
              body := st.cur.value.body + ["{"] + ["}"]))))
  {
    var r := st.cur.value;
    var s1 := st.(cur := Some(r.(body := r.body + ["{"])));
    var s2 := s1.(cur := Some(s1.cur.value.(headers := r.headers + [foo.Line()])));
    var s3 := s2.(cur := Some(s2.cur.value.(headers := r.headers + [foo.Line()] + [bar.Line()])));
    var x1 := [] + [""];
    var x2 := x1 + ["{"];
    var x3 := x2 + [foo.Line()];
    var x4 := x3 + [bar.Line()];
    FeedBlank(st, [], st, path);
    FeedBody(st, x1, st, "{", path);
    FeedHeader(st, x2, s1, foo, path);
    FeedHeader(st, x3, s2, bar, path);
    FeedBody(st, x4, s3, "}", path);
  }

  /**
   * The test's file: a blank line, a GET block and a HEAD block each closed
   * by `###`, and a POST block closed by the end of the text, whose JSON
   * body has two lines with one colon each.
   */
  function ThreeBlocks(name: string, desc: string, url: string, h: HeaderText, foo: HeaderText, bar: HeaderText): seq<string>
  {
    [""] + Opening(name, desc, "GET", url, h) + Closing()
    + Opening(name, desc, "HEAD", url, h) + Closing()
    + Opening(name, desc, "POST", url, h) + JsonBody(foo, bar)
  }

  /** What the parser makes of `ThreeBlocks`. */
  function ThreeReqs(name: string, desc: string, url: string, h: HeaderText, foo: HeaderText, bar: HeaderText, path: string): seq<Req>
  {
    var r := Opened(name, desc, "GET", url, h, path);
    [r,
     r.(httpMethod := "HEAD"),
     r.(httpMethod := "POST", headers := [h.Line(), foo.Line(), bar.Line()], body := ["{", "}"])]
  }

  /** A forward run extended by the opening lines of a block. */
  lemma FeedThenOpening(st: ParseState, xs: seq<string>, mid: ParseState, name: string, desc: string, m: string, url: string, h: HeaderText, path: string)
    requires Feed(st, xs, path) == Success(mid) && mid.cur.None?
    requires NameShaped(name) && DescShaped(desc) && m in ValidMethods && ' ' !in url && HeaderShaped(h)
    ensures Feed(st, xs + Opening(name, desc, m, url, h), path) == Success(mid.(cur := Some(Opened(name, desc, m, url, h, path))))
  {
    FeedOpening(mid, name, desc, m, url, h, path);
    FeedAppend(st, xs, Opening(name, desc, m, url, h), path);
  }

  /** A forward run extended by the closing lines of a block. */
  lemma FeedThenClosing(st: ParseState, xs: seq<string>, mid: ParseState, path: string)
    requires Feed(st, xs, path) == Success(mid) && mid.cur.Some?
    ensures Feed(st, xs + Closing(), path) == Success(ParseState(mid.reqs + [mid.cur.value], None))
  {
    FeedClosing(mid, path);
    FeedAppend(st, xs, Closing(), path);
  }

  /** A forward run extended by the JSON body. */
  lemma FeedThenJsonBody(st: ParseState, xs: seq<string>, mid: ParseState, foo: HeaderText, bar: HeaderText, path: string)
    requires Feed(st, xs, path) == Success(mid) && mid.cur.Some? && mid.cur.value.httpMethod != ""
    requires HeaderShaped(foo) && HeaderShaped(bar)
    ensures Feed(st, xs + JsonBody(foo, bar), path)
         == Success(mid.(cur := Some(mid.cur.value.(
              headers := mid.cur.value.headers + [foo.Line()] + [bar.Line()],
              body := mid.cur.value.body + ["{"] + ["}"]))))
  {
    FeedJsonBody(mid, foo, bar, path);
    FeedAppend(st, xs, JsonBody(foo, bar), path);
  }

  /** The state after the GET and HEAD blocks: both closed, nothing open. */
  lemma FeedFirstTwo(name: string, desc: string, url: string, h: HeaderText, path: string)
    requires NameShaped(name) && DescShaped(desc) && ' ' !in url && HeaderShaped(h)
    ensures Feed(Start, [""] + Opening(name, desc, "GET", url, h) + Closing() + Opening(name, desc, "HEAD", url, h) + Closing(), path)
         == Success(ParseState([Opened(name, desc, "GET", url, h, path), Opened(name, desc, "HEAD", url, h, path)], None))
  {
    var get := Opened(name, desc, "GET", url, h, path);
    var head := Opened(name, desc, "HEAD", url, h, path);
    var a := [""] + Opening(name, desc, "GET", url, h);
    var b := a + Closing() + Opening(name, desc, "HEAD", url, h);
    FeedBlank(Start, [], Start, path);
    assert [] + [""] == [""];
    FeedThenOpening(Start, [""], Start, name, desc, "GET", url, h, path);
    FeedThenClosing(Start, a, ParseState([], Some(get)), path);
    assert [] + [get] == [get];
    FeedThenOpening(Start, a + Closing(), ParseState([get], None), name, desc, "HEAD", url, h, path);
    FeedThenClosing(Start, b, ParseState([get], Some(head)), path);
    assert [get] + [head] == [get, head];
  }

  /** The parser state at the end of `ThreeBlocks`: GET and HEAD closed, POST still open. */
  lemma FeedThreeBlocks(name: string, desc: string, url: string, h: HeaderText, foo: HeaderText, bar: HeaderText, path: string)
    requires NameShaped(name) && DescShaped(desc) && ' ' !in url
    requires HeaderShaped(h) && HeaderShaped(foo) && HeaderShaped(bar)
    ensures var post := Opened(name, desc, "POST", url, h, path);
      Feed(Start, ThreeBlocks(name, desc, url, h, foo, bar), path)
      == Success(ParseState(
           [Opened(name, desc, "GET", url, h, path), Opened(name, desc, "HEAD", url, h, path)],
           Some(post.(headers := post.headers + [foo.Line()] + [bar.Line()], body := post.body + ["{"] + ["}"]))))
  {
    var get := Opened(name, desc, "GET", url, h, path);
    var head := Opened(name, desc, "HEAD", url, h, path);
    var post := Opened(name, desc, "POST", url, h, path);
    var b := [""] + Opening(name, desc, "GET", url, h) + Closing() + Opening(name, desc, "HEAD", url, h) + Closing();
    var c := b + Opening(name, desc, "POST", url, h);
    FeedFirstTwo(name, desc, url, h, path);
    FeedThenOpening(Start, b, ParseState([get, head], None), name, desc, "POST", url, h, path);
    FeedThenJsonBody(Start, c, ParseState([get, head], Some(post)), foo, bar, path);
  }

  /** Closing the POST request at end of input gives the three requests of `ThreeReqs`. */
  lemma FinishThreeBlocks(name: string, desc: string, url: string, h: HeaderText, foo: HeaderText, bar: HeaderText, path: string)
    ensures var post := Opened(name, desc, "POST", url, h, path);
      Finish(ParseState(
        [Opened(name, desc, "GET", url, h, path), Opened(name, desc, "HEAD", url, h, path)],
        Some(post.(headers := post.headers + [foo.Line()] + [bar.Line()], body := post.body + ["{"] + ["}"]))))
      == ThreeReqs(name, desc, url, h, foo, bar, path)
  {
    var get := Opened(name, desc, "GET", url, h, path);
    var head := Opened(name, desc, "HEAD", url, h, path);
    var post := Opened(name, desc, "POST", url, h, path);
    var post' := post.(headers := [h.Line()] + [foo.Line()] + [bar.Line()], body := [] + ["{"] + ["}"]);
    assert [h.Line()] + [foo.Line()] + [bar.Line()] == [h.Line(), foo.Line(), bar.Line()];
    assert [] + ["{"] + ["}"] == ["{", "}"];
    assert [get, head] + [post'] == [get, head, post'];
    assert post' == ThreeReqs(name, desc, url, h, foo, bar, path)[2];
  }

  /**
   * Three blocks give three requests in order, each with the name, the file
   * path, the description and the URL; the JSON lines with one colon become
   * headers of the POST request and only `{` and `}` stay in its body.
   */
  lemma ParseThreeBlocks(name: string, desc: string, url: string, h: HeaderText, foo: HeaderText, bar: HeaderText, path: string)
    requires NameShaped(name) && DescShaped(desc) && ' ' !in url
    requires HeaderShaped(h) && HeaderShaped(foo) && HeaderShaped(bar)
    ensures Parse(ThreeBlocks(name, desc, url, h, foo, bar), path) == Success(ThreeReqs(name, desc, url, h, foo, bar, path))
  {
    var post := Opened(name, desc, "POST", url, h, path);
    var st := ParseState(
      [Opened(name, desc, "GET", url, h, path), Opened(name, desc, "HEAD", url, h, path)],
      Some(post.(headers := post.headers + [foo.Line()] + [bar.Line()], body := post.body + ["{"] + ["}"])));
    FeedThreeBlocks(name, desc, url, h, foo, bar, path);
    ParseOfFeed(ThreeBlocks(name, desc, url, h, foo, bar), st, path);
    FinishThreeBlocks(name, desc, url, h, foo, bar, path);
  }

  const SampleName: string := "getWithNoParams"
  const SampleDesc: string := "Example get with no query parameters"
  const SampleUrl: string := "{{svc}}{{api}}"
  const SampleType: HeaderText := HeaderText("Content-Type", " application/json")
  const SampleFoo: HeaderText := HeaderText("  \"foo\"", " \"Foo\",")
  const SampleBar: HeaderText := HeaderText("  \"bar\"", " \"Bar\"")
  const SamplePath: string := "/some/path"

  lemma SampleFieldsShaped()
    ensures NameShaped(SampleName)
    ensures DescShaped(SampleDesc)
    ensures ' ' !in SampleUrl
  {
  }

  lemma SampleHeadersShaped()
    ensures HeaderShaped(SampleType)
    ensures HeaderShaped(SampleFoo)
    ensures HeaderShaped(SampleBar)
  {
  }

  /**
   * The parser test's text gives three requests, all named
   * `getWithNoParams` with the test's description and file path: GET and
   * HEAD with the one content-type header, and POST with the two JSON lines
   * as further headers and `{`, `}` as its body.
   */
  lemma ParseSampleText()
    ensures var reqs := ThreeReqs(SampleName, SampleDesc, SampleUrl, SampleType, SampleFoo, SampleBar, SamplePath);
      && Parse(ThreeBlocks(SampleName, SampleDesc, SampleUrl, SampleType, SampleFoo, SampleBar), SamplePath) == Success(reqs)
      && |reqs| == 3
      && reqs[0].httpMethod == "GET" && reqs[1].httpMethod == "HEAD" && reqs[2].httpMethod == "POST"
      && reqs[2].headers == [SampleType.Line(), SampleFoo.Line(), SampleBar.Line()]
      && reqs[2].body == ["{", "}"]
  {
    SampleFieldsShaped();
    SampleHeadersShaped();
    ParseThreeBlocks(SampleName, SampleDesc, SampleUrl, SampleType, SampleFoo, SampleBar, SamplePath);
  }
}
