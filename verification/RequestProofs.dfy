/** Requests: a text is parsed to its parts. */
module RequestProofs {
  import opened Wrappers
  import opened CStrings
  import opened Splitting
  import opened HeaderSpec
  import opened HeaderProofs
  import opened HeaderLines
  import opened Query
  import opened RequestSpec

  /** Methods and versions are recovered, and only from their own texts. */
  lemma MethodRoundTrip(s: CString, m: Method)
    ensures ParseHttpMethod(HttpMethodStringify(m)) == m
    ensures m != UnknownMethod ==> (ParseHttpMethod(s) == m <==> s == HttpMethodStringify(m))
  {
  }

  lemma VersionRoundTrip(s: CString, v: Version)
    ensures ParseHttpVersion(HttpVersionStringify(v)) == v
    ensures v != UnknownVersion ==> (ParseHttpVersion(s) == v <==> s == HttpVersionStringify(v))
  {
  }

  /** The texts of the known methods and versions. */
  lemma KnownTexts()
    ensures HttpMethodStringify(Get) == "GET" && HttpMethodStringify(Post) == "POST"
    ensures HttpMethodStringify(Put) == "PUT"
    ensures HttpMethodStringify(Delete) == "DELETE" && HttpMethodStringify(Options) == "OPTIONS"
    ensures ParseHttpMethod("GET") == Get && ParseHttpMethod("POST") == Post && ParseHttpMethod("PUT") == Put
    ensures ParseHttpMethod("DELETE") == Delete && ParseHttpMethod("OPTIONS") == Options
    ensures HttpVersionStringify(Http10) == "HTTP/1.0" && HttpVersionStringify(Http11) == "HTTP/1.1"
    ensures HttpVersionStringify(Http20) == "HTTP/2.0" && HttpVersionStringify(Http30) == "HTTP/3.0"
    ensures ParseHttpVersion("HTTP/1.0") == Http10 && ParseHttpVersion("HTTP/1.1") == Http11
    ensures ParseHttpVersion("HTTP/2.0") == Http20 && ParseHttpVersion("HTTP/3.0") == Http30
  {
  }

  /** A text that may stand between the blanks of a request line. */
  predicate Word(s: string) {
    ' ' !in s && NoCrlf(s)
  }

  predicate Sendable(l: Line) {
    && Word(l.path) && (l.path != "" ==> '?' !in l.path[1..]) && (l.path == "" ==> l.query == [])
    && |l.query| <= MAX_PARAMETERS
    && forall p :: p in l.query ==> Expressible(p) && Word(p.key) && Word(p.value)
  }

  /* ---- Words ---- */

  lemma NoCrlfJoin(a: string, ch: char, b: string)
    requires ch != '\r' && ch != '\n'
    ensures NoCrlf(a + [ch] + b) <==> NoCrlf(a) && NoCrlf(b)
  {
    var s := a + [ch] + b;
    if NoCrlf(s) {
      forall k | 0 <= k < |a| ensures !BreakAt(a, k) { assert !BreakAt(s, k); }
      forall k | 0 <= k < |b| ensures !BreakAt(b, k) { assert !BreakAt(s, |a| + 1 + k); }
    }
    if NoCrlf(a) && NoCrlf(b) {
      forall k | 0 <= k < |s| ensures !BreakAt(s, k) {
        if k < |a| { assert !BreakAt(a, k); }
        if k > |a| { assert !BreakAt(b, k - |a| - 1); }
      }
    }
  }

  lemma WordJoin(a: string, ch: char, b: string)
    requires ch != '\r' && ch != '\n' && ch != ' '
    ensures Word(a + [ch] + b) <==> Word(a) && Word(b)
  {
    NoCrlfJoin(a, ch, b);
    var s := a + [ch] + b;
    assert ' ' in s <==> ' ' in a || ' ' in b;
  }

  lemma {:induction false} WordPieces(ps: seq<string>, d: char)
    requires d != '\r' && d != '\n' && d != ' ' && Word(Join(ps, d))
    ensures forall p :: p in ps ==> Word(p)
    decreases |ps|
  {
    if |ps| == 1 {
    } else if ps != [] {
      WordJoin(ps[0], d, Join(ps[1..], d));
      WordPieces(ps[1..], d);
    }
  }

  /** The tokens of a word are words. */
  lemma WordTokens(s: string, d: char)
    requires d != '\r' && d != '\n' && d != ' ' && Word(s)
    ensures forall p :: p in Tokens(s, d) ==> Word(p)
  {
    JoinSplit(s, d);
    WordPieces(Split(s, d), d);
  }

  lemma {:induction false} WordPairs(pieces: seq<CString>)
    requires (forall p :: p in pieces ==> Word(p)) && Pairs(pieces).Some?
    ensures forall p :: p in Pairs(pieces).value ==> Word(p.key) && Word(p.value)
  {
    if pieces != [] {
      WordTokens(pieces[0], '=');
      WordPairs(pieces[1..]);
    }
  }

  lemma WordParameters(s: CString)
    requires Word(s)
    ensures forall p :: p in ParametersOf(s) ==> Word(p.key) && Word(p.value)
  {
    TokensOfCString(s, '&');
    WordTokens(s, '&');
    if Pairs(Tokens(s, '&')).Some? { WordPairs(Tokens(s, '&')); }
  }

  lemma {:induction false} RenderedParametersWord(ps: seq<Parameter>)
    requires forall p :: p in ps ==> Word(p.key) && Word(p.value)
    ensures Word(RenderParameters(ps))
    decreases |ps|
  {
    if ps != [] {
      WordJoin(ps[0].key, '=', ps[0].value);
      if |ps| > 1 {
        RenderedParametersWord(ps[1..]);
        WordJoin(RenderParameter(ps[0]), '&', RenderParameters(ps[1..]));
      }
    }
  }

  lemma SendableTarget(l: Line)
    requires Sendable(l)
    ensures Word(RenderTarget(l))
  {
    hide Expressible, RenderParameters, Word;
    RenderedParametersWord(l.query);
    if l.query == [] {
      assert l.path + "" == l.path;
    } else {
      WordJoin(l.path, '?', RenderParameters(l.query));
      assert l.path + "?" + RenderParameters(l.query) == RenderTarget(l);
    }
  }

  lemma WordCut(s: string, i: nat, j: nat)
    requires i <= j <= |s| && Word(s)
    ensures Word(s[i..j])
  {
    NoCrlfCut(s, i, j);
  }

  lemma NoCrlfCut(s: string, i: nat, j: nat)
    requires i <= j <= |s| && NoCrlf(s)
    ensures NoCrlf(s[i..j])
  {
    forall k | 0 <= k < j - i ensures !BreakAt(s[i..j], k) { assert !BreakAt(s, i + k); }
  }

  /* ---- The request line ---- */

  lemma WordsOfLine(m: CString, target: CString, v: CString)
    requires ' ' !in m && ' ' !in target
    ensures LineAt(m + " " + target + " " + v) == Some(LineOf(m, target, v))
  {
    var tail: CString := target + " " + v;
    var line: CString := m + " " + tail;
    assert line == m + " " + target + " " + v;
    FindChar(m, ' ', tail);
    FindChar(target, ' ', v);
    assert line[..|m|] == m && line[|m| + 1..] == tail;
    assert tail[..|target|] == target && tail[|target| + 1..] == v;
  }

  lemma LineOfPath(m: CString, path: CString, v: CString)
    requires '?' !in if path == "" then v else path[1..]
    ensures LineOf(m, path, v) == Line(ParseHttpMethod(m), path, [], ParseHttpVersion(v))
  {
    hide ParseHttpMethod, ParseHttpVersion, ParametersOf;
    FindNoChar(if path == "" then v else path[1..], '?');
  }

  lemma LineOfQuery(m: CString, path: CString, q: CString, v: CString)
    requires path != "" && '?' !in path[1..]
    ensures LineOf(m, path + "?" + q, v) == Line(ParseHttpMethod(m), path, ParametersOf(q), ParseHttpVersion(v))
  {
    hide ParseHttpMethod, ParseHttpVersion, ParametersOf;
    var target: CString := path + "?" + q;
    assert target[1..] == path[1..] + "?" + q;
    FindChar(path[1..], '?', q);
    assert target[1..][|path|..] == q && target[..|path|] == path;
  }

  lemma TextsAreWords(m: Method, v: Version)
    ensures var s := HttpMethodStringify(m); Word(s) && s != "" && s[|s| - 1] != '\r'
    ensures var s := HttpVersionStringify(v); Word(s) && '?' !in s && s != "" && s[|s| - 1] != '\r'
  {
  }

  lemma SendableLineOf(l: Line)
    requires Sendable(l)
    ensures LineOf(HttpMethodStringify(l.verb), RenderTarget(l), HttpVersionStringify(l.version)) == l
  {
    hide LineOf, HttpMethodStringify, HttpVersionStringify, ParametersOf, RenderParameters;
    var m, v := HttpMethodStringify(l.verb), HttpVersionStringify(l.version);
    MethodRoundTrip(m, l.verb);
    VersionRoundTrip(v, l.version);
    if l.query == [] {
      assert RenderTarget(l) == l.path;
      TextsAreWords(l.verb, l.version);
      LineOfPath(m, l.path, v);
    } else {
      QueryRoundTrip(l.query);
      assert RenderTarget(l) == l.path + "?" + RenderParameters(l.query);
      LineOfQuery(m, l.path, RenderParameters(l.query), v);
    }
  }

  lemma SendableLine(l: Line)
    requires Sendable(l)
    ensures LineAt(RenderLine(l)) == Some(l) && NoCrlf(RenderLine(l))
    ensures RenderLine(l) != "" && RenderLine(l)[|RenderLine(l)| - 1] != '\r'
  {
    hide LineAt, LineOf, HttpMethodStringify, HttpVersionStringify, RenderTarget, NoCrlf;
    var m, v := HttpMethodStringify(l.verb), HttpVersionStringify(l.version);
    TextsAreWords(l.verb, l.version);
    SendableTarget(l);
    WordsOfLine(m, RenderTarget(l), v);
    SendableLineOf(l);
    NoCrlfJoin(m, ' ', RenderTarget(l));
    NoCrlfJoin(m + " " + RenderTarget(l), ' ', v);
  }

  /** Only sendable lines come back, an empty path in front of a query apart. */
  lemma LineIsSendable(line: CString)
    requires NoCrlf(line) && LineAt(line).Some?
    ensures var l := LineAt(line).value; (l.path == "" && l.query != []) || Sendable(l)
  {
    hide LineOf, Find;
    var first := Find(line, " ");
    var tail := line[first + 1..];
    var second := Find(tail, " ");
    NotBeforeFind(tail, ' ');
    assert tail[..second] == line[first + 1..first + 1 + second];
    NoCrlfCut(line, first + 1, first + 1 + second);
    WordLineOf(line[..first], tail[..second], tail[second + 1..]);
  }

  lemma WordLineOf(m: CString, target: CString, v: CString)
    requires Word(target)
    ensures var l := LineOf(m, target, v); (l.path == "" && l.query != []) || Sendable(l)
  {
    hide Word, Find, ParametersOf, PathOf, QueryOf, Expressible;
    WordQuery(target, v);
    if target == "" {
      EmptyTarget(v);
    } else {
      WordPath(target, v);
    }
  }

  lemma EmptyTarget(v: CString)
    ensures PathOf("", v) == "" && Word("")
  {
    hide Find;
  }

  lemma WordPath(target: CString, v: CString)
    requires Word(target) && target != ""
    ensures var path := PathOf(target, v); path != "" && Word(path) && '?' !in path[1..]
  {
    hide Word, Find;
    var searched := target[1..];
    var mark := Find(searched, "?");
    NotBeforeFind(searched, '?');
    if mark < |searched| {
      WordCut(target, 0, mark + 1);
      assert target[0..mark + 1] == target[..mark + 1] && target[..mark + 1][1..] == searched[..mark];
    } else {
      assert searched[..mark] == searched;
    }
  }

  lemma WordQuery(target: CString, v: CString)
    requires Word(target)
    ensures |QueryOf(target, v)| <= MAX_PARAMETERS
    ensures forall p :: p in QueryOf(target, v) ==> Expressible(p) && (target != "" ==> Word(p.key) && Word(p.value))
  {
    hide Word, Find, ParametersOf, Expressible;
    var searched := Searched(target, v);
    var mark := Find(searched, "?");
    if mark < |searched| {
      OnlyExpressible(searched[mark + 1..]);
      if target != "" {
        WordCut(target, mark + 2, |target|);
        assert target[mark + 2..|target|] == searched[mark + 1..];
        WordParameters(searched[mark + 1..]);
      }
    }
  }

  /* ---- The header block ---- */

  lemma BlankIsTwoBreaks(s: string, k: nat)
    ensures OccursAt(s, BLANK, k) <==> BreakAt(s, k) && BreakAt(s, k + 2)
  {
    if k + 4 <= |s| { assert s[k..k + 4] == [s[k], s[k + 1], s[k + 2], s[k + 3]]; }
  }

  lemma NoBlankAcross(first: string, rest: string, k: nat)
    requires |first| >= 2 && first[|first| - 1] == '\n' && rest != ""
    requires k < |first| - 2 ==> !BreakAt(first + rest, k)
    requires |first| - 2 <= k < |first| ==> rest[0] != '\r'
    requires k >= |first| ==> !OccursAt(rest, BLANK, k - |first|)
    ensures !OccursAt(first + rest, BLANK, k)
  {
    var t := first + rest;
    BlankIsTwoBreaks(t, k);
    if k >= |first| {
      BlankIsTwoBreaks(rest, k - |first|);
      assert BreakAt(t, k) <==> BreakAt(rest, k - |first|);
      assert BreakAt(t, k + 2) <==> BreakAt(rest, k + 2 - |first|);
    } else {
      assert t[|first|] == rest[0] && t[|first| - 1] == '\n';
    }
  }

  /** No empty line comes before the one behind the header lines, whatever their values and
      the body. */
  lemma {:induction false} NoBlankInLines(ls: seq<Header>, body: CString, k: nat)
    requires ls != [] && (forall h :: h in ls ==> OneLine(h)) && k < |RawLines(ls)| - 2
    ensures !OccursAt(RawLines(ls) + CRLF + body, BLANK, k)
    decreases |ls|
  {
    hide *;
    var first := RawLine(ls[0]);
    var rest := Rest(ls[1..], body);
    LinesSplit(ls, body);
    RawLineEnds(ls[0]);
    RestIsLong(ls[1..], body);
    LineMeans(ls[0], rest);
    if k < |first| - 2 {
      NoBreakBeforeLineEnd(first + rest, k);
    } else if k >= |first| {
      RestIs(ls[1..], body);
      NoBlankInLines(ls[1..], body, k - |first|);
    } else {
      LinesStart(ls[1..], body);
    }
    NoBlankAcross(first, rest, k);
  }

  function Rest(ls: seq<Header>, body: CString): CString {
    RawLines(ls) + CRLF + body
  }

  lemma RestIs(ls: seq<Header>, body: CString)
    ensures Rest(ls, body) == RawLines(ls) + CRLF + body
  {
  }

  lemma Regroup(a: string, b: string, c: string, d: string)
    ensures a + b + c + d == a + (b + c + d)
  {
  }

  lemma RawLineEnds(h: Header)
    ensures var r := RawLine(h); |r| >= 2 && r[|r| - 1] == '\n'
  {
  }

  lemma LinesSplit(ls: seq<Header>, body: CString)
    requires ls != []
    ensures RawLines(ls) + CRLF + body == RawLine(ls[0]) + Rest(ls[1..], body)
    ensures |RawLines(ls)| == |RawLine(ls[0])| + |RawLines(ls[1..])|
    ensures |ls| == 1 ==> |RawLines(ls)| == |RawLine(ls[0])|
  {
    hide RawLine;
    Regroup(RawLine(ls[0]), RawLines(ls[1..]), CRLF, body);
  }

  lemma RestIsLong(ls: seq<Header>, body: CString)
    ensures Rest(ls, body) != ""
  {
    assert |Rest(ls, body)| == |RawLines(ls)| + 2 + |body|;
  }

  lemma LinesStart(ls: seq<Header>, body: CString)
    requires ls != [] && OneLine(ls[0])
    ensures Rest(ls, body)[0] != '\r'
  {
    assert RawLines(ls)[0] == ls[0].key[0];
  }

  /** Clean headers: the first empty line is the one behind them, whatever the body. */
  lemma {:induction false} NoBlankInHeaders(hs: seq<Header>, body: CString, k: nat)
    requires hs != [] && (forall h :: h in hs ==> Clean(h)) && k < |RenderHeaders(hs)| - 2
    ensures !OccursAt(RenderHeaders(hs) + CRLF + body, BLANK, k)
  {
    PrintedAreLines(hs);
    NoBlankInLines(AllSpaced(hs), body, k);
  }

  lemma LinesEndInBreak(ls: seq<Header>)
    requires ls != []
    ensures |RawLines(ls)| >= 2 && BreakAt(RawLines(ls), |RawLines(ls)| - 2)
    decreases |ls|
  {
    if |ls| > 1 { LinesEndInBreak(ls[1..]); }
  }

  lemma BlankIs(ls: seq<Header>, body: CString)
    requires ls != [] && forall h :: h in ls ==> OneLine(h)
    ensures |RawLines(ls)| >= 2 && Find(RawLines(ls) + CRLF + body, BLANK) == |RawLines(ls)| - 2
  {
    hide OneLine, RawLines;
    var t: CString := RawLines(ls) + CRLF + body;
    LinesEndInBreak(ls);
    var n := |RawLines(ls)| - 2;
    BlankIsTwoBreaks(t, n);
    assert BreakAt(t, n);
    forall k | 0 <= k < n ensures !OccursAt(t, BLANK, k) { NoBlankInLines(ls, body, k); }
    FindIs(t, BLANK, n);
  }

  /** What a request with these parts gives. */
  function WithHeaders(l: Line, headers: Listed<Header>, body: CString): RequestOutcome {
    match headers
    case Accepted(hs) => GoodRequest(Request(l, Some(hs), body))
    case Rejected => GoodRequest(Request(l, None, body))
    case Undefined => UndefinedRequest
  }

  /** Header lines of any kind with their empty line and a body. */
  lemma LineBlock(l: Line, ls: seq<Header>, body: CString)
    requires ls != [] && forall h :: h in ls ==> OneLine(h)
    ensures BehindLine(l, RawLines(ls) + CRLF + body) == WithHeaders(l, Meanings(ls), body)
  {
    hide OneLine, RawLines, HeadersAt, Meanings, Find;
    var t: CString := RawLines(ls) + CRLF + body;
    BlankIs(ls, body);
    var n := |RawLines(ls)| - 2;
    assert t[..n + 2] == RawLines(ls) && t[n + 4..] == body;
    LinesMean(ls);
  }

  lemma CleanHeaderBlock(l: Line, hs: seq<Header>, body: CString)
    requires hs != [] && forall h :: h in hs ==> Clean(h)
    ensures BehindLine(l, RenderHeaders(hs) + CRLF + body) == GoodRequest(Request(l, Some(hs), body))
  {
    hide Clean, OneLine, RenderHeaders, RawLines, HeadersAt, Meanings, BehindLine;
    PrintedAreLines(hs);
    LineBlock(l, AllSpaced(hs), body);
    LinesMean(AllSpaced(hs));
    HeadersRoundTrip(hs);
  }

  lemma {:induction false} OnlyCleanHeaderBlock(l: Line, hs: seq<Header>, body: CString)
    requires BehindLine(l, RenderHeaders(hs) + CRLF + body) == GoodRequest(Request(l, Some(hs), body))
    ensures hs != [] && forall h :: h in hs ==> Clean(h)
  {
    hide Clean, HeadersAt, Find;
    var t: CString := RenderHeaders(hs) + CRLF + body;
    var blank := Find(t, BLANK);
    assert |t[blank + 4..]| == |body|;
    assert t[..blank + 2] == RenderHeaders(hs);
    HeadersRoundTrip(hs);
  }

  /* ---- The whole request ---- */

  lemma RequestLineEnd(line: CString, rest: CString)
    requires NoCrlf(line) && (line != "" ==> line[|line| - 1] != '\r')
    ensures RequestAt(line + CRLF + rest) ==
      match LineAt(line)
      case None => NoRequest
      case Some(l) => BehindLine(l, rest)
  {
    var t: CString := line + CRLF + rest;
    forall k | 0 <= k < |line| ensures !BreakAt(t, k) { assert !BreakAt(line, k); }
    LineEndIs(t, |line|);
    assert t[..|line|] == line && t[|line| + 2..] == rest;
  }

  lemma {:induction false} ParsedLineIsSendable(text: CString)
    requires RequestAt(text).GoodRequest?
    ensures var l := RequestAt(text).request.line; (l.path == "" && l.query != []) || Sendable(l)
  {
    hide RequestAt, LineAt, Find, Sendable, NoCrlf;
    var end := Find(text, CRLF);
    FirstLineHasNoBreak(text);
    LineOfRequest(text);
    LineIsSendable(text[..end]);
  }

  lemma FirstLineHasNoBreak(text: string)
    ensures NoCrlf(text[..Find(text, CRLF)])
  {
    hide Find;
    var end := Find(text, CRLF);
    forall k | 0 <= k < end ensures !BreakAt(text[..end], k) { NoBreakBeforeLineEnd(text, k); }
  }

  lemma LineOfRequest(text: CString)
    requires RequestAt(text).GoodRequest?
    ensures LineAt(text[..Find(text, CRLF)]) == Some(RequestAt(text).request.line)
  {
    hide LineAt, Find, HeadersAt;
  }

  /** With a query but no path the target starts with the question mark, which is taken for a
      path. */
  lemma EmptyPathDiffers(l: Line, rest: CString)
    requires l.path == "" && l.query != [] && RequestAt(RenderLine(l) + CRLF + rest).GoodRequest?
    ensures RequestAt(RenderLine(l) + CRLF + rest).request.line.path != ""
  {
    hide LineAt, HttpMethodStringify, BehindLine, RenderParameters, RequestAt, HttpVersionStringify;
    var m := HttpMethodStringify(l.verb);
    var tail: CString := "?" + RenderParameters(l.query) + " " + HttpVersionStringify(l.version) + CRLF + rest;
    var text: CString := RenderLine(l) + CRLF + rest;
    assert text == m + " " + tail;
    TextsAreWords(l.verb, l.version);
    MarkedLine(m, tail);
  }

  lemma MarkedLine(m: CString, tail: CString)
    requires Word(m) && (m != "" ==> m[|m| - 1] != '\r') && tail != "" && tail[0] == '?'
    ensures var r := RequestAt(m + " " + tail); r.GoodRequest? ==> r.request.line.path != ""
  {
    hide LineAt, HeadersAt;
    var text: CString := m + " " + tail;
    var end := Find(text, CRLF);
    OccursIsBreak(text, end);
    forall k | 0 <= k < |m| ensures !BreakAt(text, k) { assert !BreakAt(m, k); }
    assert text[|m|] == ' ' && text[|m| + 1] == '?';
    if end < |text| {
      assert end > |m| + 1;
      var line: CString := text[..end];
      assert line == m + " " + tail[..end - |m| - 1];
      MarkedTarget(m, tail[..end - |m| - 1]);
    }
  }

  lemma MarkedTarget(m: CString, tail: CString)
    requires Word(m) && tail != "" && tail[0] == '?'
    ensures LineAt(m + " " + tail).Some? ==> LineAt(m + " " + tail).value.path != ""
  {
    hide ParseHttpMethod, ParseHttpVersion, ParametersOf;
    var line: CString := m + " " + tail;
    FindChar(m, ' ', tail);
    assert line[|m| + 1..] == tail;
  }

  /** The text of a request is parsed to exactly its parts if and only if the request
      line is sendable, there is at least one header, and all headers are clean.  Nothing is
      asked of the body, which may hold empty lines of its own. */
  lemma {:induction false} RequestRoundTrip(l: Line, hs: seq<Header>, body: CString)
    ensures RequestAt(RenderRequest(l, hs, body)) == GoodRequest(Request(l, Some(hs), body))
       <==> Sendable(l) && hs != [] && forall h :: h in hs ==> Clean(h)
  {
    var text, rest: CString := RenderRequest(l, hs, body), RenderHeaders(hs) + CRLF + body;
    if RequestAt(text) == GoodRequest(Request(l, Some(hs), body)) {
      ParsedLineIsSendable(text);
      if l.path == "" && l.query != [] { EmptyPathDiffers(l, rest); }
    }
    if Sendable(l) {
      SendableLine(l);
      RequestLineEnd(RenderLine(l), rest);
      if RequestAt(text) == GoodRequest(Request(l, Some(hs), body)) {
        OnlyCleanHeaderBlock(l, hs, body);
      }
      if hs != [] && forall h :: h in hs ==> Clean(h) { CleanHeaderBlock(l, hs, body); }
    }
  }

  /** A request without header lines is turned away, unless its body brings the empty line that
      the search behind the request line asks for. */
  lemma {:induction false} NoHeadersRejected(l: Line, body: CString)
    requires Sendable(l)
    ensures RequestAt(RenderRequest(l, [], body)) == NoRequest <==> forall k: nat :: !OccursAt(CRLF + body, BLANK, k)
    ensures RequestAt(RenderRequest(l, [], "")) == NoRequest
  {
    hide LineAt, HeadersAt, RenderLine, Find;
    var rest: CString := CRLF + body;
    SendableLine(l);
    assert RenderHeaders([]) + CRLF + body == rest;
    RequestLineEnd(RenderLine(l), rest);
    if k: nat :| OccursAt(rest, BLANK, k) {
      if Find(rest, BLANK) == |rest| { FindIsFirst(rest, BLANK, k); }
    } else {
      FindNone(rest, BLANK);
    }
    assert RenderHeaders([]) + CRLF + "" == CRLF;
    RequestLineEnd(RenderLine(l), CRLF);
    FindNone(CRLF, BLANK);
  }

  /** The text of a request with header lines as they stand. */
  function RawRequest(l: Line, ls: seq<Header>, body: CString): CString {
    RenderLine(l) + CRLF + (RawLines(ls) + CRLF + body)
  }

  /** A sendable request line with header lines of any values: the request is what the lines
      mean, and its parsing is undefined if and only if the first line that is not good has no value
      or a lone quote for one. */
  lemma RequestOfLines(l: Line, ls: seq<Header>, body: CString)
    requires Sendable(l) && ls != [] && forall h :: h in ls ==> OneLine(h)
    ensures var r := RequestAt(RawRequest(l, ls, body));
            && r == WithHeaders(l, Meanings(ls), body)
            && (Meanings(ls) == Rejected ==> r == GoodRequest(Request(l, None, body)))
            && (Meanings(ls).Accepted? ==> r == GoodRequest(Request(l, Some(Meanings(ls).items), body)))
            && (r == UndefinedRequest <==>
                  exists i :: 0 <= i < |ls| && (Blank(ls[i].value) || LoneQuote(ls[i].value))
                           && forall j :: 0 <= j < i ==> Meaning(ls[j]).GoodHeader?)
  {
    hide RequestAt, OneLine, Meanings, RenderLine, RawLines, BehindLine, Blank, LoneQuote, LineAt, Inner;
    SendableLine(l);
    RequestLineEnd(RenderLine(l), RawLines(ls) + CRLF + body);
    LineBlock(l, ls, body);
    ListUndefinedExactlyWhen(ls);
    forall i | 0 <= i < |ls|
      ensures Meaning(ls[i]) == UndefinedHeader <==> Blank(ls[i].value) || LoneQuote(ls[i].value)
    {
      InnerIs(ls[i].value);
    }
    assert forall i :: FirstUndefined(ls, i) <==>
      && 0 <= i < |ls| && (Blank(ls[i].value) || LoneQuote(ls[i].value))
      && forall j :: 0 <= j < i ==> Meaning(ls[j]).GoodHeader?;
  }

  /* ---- Texts that are no requests ---- */

  predicate TwoBlanks(line: string) {
    exists i, j :: 0 <= i < j < |line| && line[i] == ' ' && line[j] == ' '
  }

  lemma {:induction false} BlankFound(s: string)
    ensures Find(s, " ") == |s| <==> ' ' !in s
    ensures Find(s, " ") < |s| ==> s[Find(s, " ")] == ' ' && ' ' !in s[..Find(s, " ")]
  {
    var n := Find(s, " ");
    NotBeforeFind(s, ' ');
    if n < |s| {
      assert s[n..n + 1] == [s[n]];
    } else {
      assert s[..n] == s;
    }
  }

  /** A request line has its parts exactly when there are two blanks in it. */
  lemma LinePartsExactlyWhen(line: CString)
    ensures LineAt(line).Some? <==> TwoBlanks(line)
  {
    hide Find, LineOf;
    var i := Find(line, " ");
    BlankFound(line);
    if i < |line| {
      var tail: CString := line[i + 1..];
      BlankFound(tail);
      var j := Find(tail, " ");
      if j < |tail| {
        assert line[i + 1 + j] == tail[j];
      } else {
        forall x, y | 0 <= x < y < |line| ensures !(line[x] == ' ' && line[y] == ' ') {
          if x < i { assert line[x] == line[..i][x]; }
          if y > i { assert line[y] == tail[y - i - 1]; }
        }
      }
    }
  }

  lemma BreakFound(t: string)
    ensures Find(t, CRLF) == |t| <==> NoCrlf(t)
  {
    hide Find;
    if Find(t, CRLF) == |t| {
      forall k | 0 <= k < |t| ensures !BreakAt(t, k) { NoBreakBeforeLineEnd(t, k); }
    } else {
      OccursIsBreak(t, Find(t, CRLF));
    }
  }

  lemma EmptyLineFound(t: string)
    ensures Find(t, BLANK) == |t| <==> forall k: nat :: !OccursAt(t, BLANK, k)
  {
    hide Find;
    if Find(t, BLANK) == |t| {
      forall k: nat ensures !OccursAt(t, BLANK, k) {
        if k < |t| { FindIsFirst(t, BLANK, k); }
      }
    }
  }

  /** What stands behind the first line break. */
  function BehindFirstLine(t: string): string {
    if Find(t, CRLF) == |t| then "" else t[Find(t, CRLF) + 2..]
  }

  /** A text is no request exactly when it has no line break, or fewer than two blanks in its
      first line, or no empty line behind that line's own break. */
  lemma NoRequestExactlyWhen(t: CString)
    ensures RequestAt(t) == NoRequest
       <==> NoCrlf(t) || !TwoBlanks(t[..Find(t, CRLF)]) || forall k: nat :: !OccursAt(BehindFirstLine(t), BLANK, k)
  {
    hide Find, LineAt, HeadersAt, TwoBlanks, NoCrlf, OccursAt;
    BreakFound(t);
    LinePartsExactlyWhen(t[..Find(t, CRLF)]);
    EmptyLineFound(BehindFirstLine(t));
  }

  /** Between two blanks that follow each other there is an empty path, and the question mark is
      searched in the version: a query found there counts, and the version is taken whole. */
  lemma EmptyPathTakesQueryFromVersion(m: CString, a: CString, q: CString)
    requires ' ' !in m && '?' !in a
    ensures LineAt(m + " " + "" + " " + (a + "?" + q))
         == Some(Line(ParseHttpMethod(m), "", ParametersOf(q), ParseHttpVersion(a + "?" + q)))
  {
    hide LineAt, ParametersOf, ParseHttpMethod, ParseHttpVersion;
    var v: CString := a + "?" + q;
    WordsOfLine(m, "", v);
    FindChar(a, '?', q);
    assert v[|a| + 1..] == q;
  }
}
