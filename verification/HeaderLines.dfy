/** What the header parser makes of any line `key:value`, and of any list of them. */
module HeaderLines {
  import opened Wrappers
  import opened CStrings
  import opened HeaderSpec
  import opened HeaderProofs

  /** A line as it stands: nothing is put between the colon and the value. */
  function RawLine(h: Header): CString {
    h.key + ":" + h.value + CRLF
  }

  function RawLines(ls: seq<Header>): CString {
    if ls == [] then "" else RawLine(ls[0]) + RawLines(ls[1..])
  }

  /** One line with a key that needs no quotes, whatever its value. */
  predicate OneLine(h: Header) {
    Plain(h.key) && ':' !in h.key && NoCrlf(h.value)
  }

  /** The value without the white-space around it. */
  function Inner(v: CString): CString {
    TrimRight(SkipSpaces(v))
  }

  /** What a value without outer white-space means: undefined when there is none or only a quote;
      rejected when an opening quote is not closed; otherwise the value, without its quotes. */
  function OfInner(key: CString, w: CString): HeaderOutcome {
    if w == "" || w == "\"" then UndefinedHeader
    else if w[0] != '"' then GoodHeader(Header(key, w))
    else if w[|w| - 1] != '"' then BadHeader
    else GoodHeader(Header(key, w[1..|w| - 1]))
  }

  function Meaning(h: Header): HeaderOutcome {
    OfInner(h.key, Inner(h.value))
  }

  predicate LoneQuote(v: string) {
    exists i :: 0 <= i < |v| && v[i] == '"' && forall k :: 0 <= k < |v| && k != i ==> IsSpace(v[k])
  }

  ghost predicate RawShape(t: string, k: string, v: string) {
    && |k| + 1 + |v| + 2 <= |t|
    && (forall i :: 0 <= i < |k| ==> t[i] == k[i])
    && t[|k|] == ':'
    && (forall i :: 0 <= i < |v| ==> t[|k| + 1 + i] == v[i])
    && BreakAt(t, |k| + 1 + |v|)
  }

  lemma RawLineShape(h: Header, rest: CString)
    ensures RawShape(RawLine(h) + rest, h.key, h.value)
  {
    var k, v, t := h.key, h.value, RawLine(h) + rest;
    assert t == k + (":" + (v + (CRLF + rest)));
  }

  lemma RawLineEnd(t: string, k: string, v: string)
    requires RawShape(t, k, v) && NoCrlf(k) && NoCrlf(v)
    ensures Find(t, CRLF) == |k| + 1 + |v|
  {
    var n := |k| + 1 + |v|;
    forall i | 0 <= i < n ensures !BreakAt(t, i) {
      if i < |k| {
        assert !BreakAt(k, i);
      } else if i > |k| {
        assert !BreakAt(v, i - |k| - 1);
        assert t[|k| + 1 + (i - |k| - 1)] == v[i - |k| - 1];
        if i + 1 < n { assert t[|k| + 1 + (i - |k|)] == v[i - |k|]; }
      }
    }
    LineEndIs(t, n);
  }

  lemma RawKeyPart(t: CString, k: CString, v: string)
    requires RawShape(t, k, v) && Plain(k) && ':' !in k && |k| < Find(t, CRLF) < |t|
    ensures HeaderAt(t) == ValueFrom(t, Find(t, CRLF), k, |k| + 1)
  {
    hide HeaderAt, Find, ValueFrom, PlainKeyEnd, NonSpaceFrom, TrimRight;
    assert t[0] == k[0];
    NonSpaceFromIs(t, 0, 0);
    PlainKeyEndIs(t, Find(t, CRLF), 0, |k|);
    assert t[..|k|] == k;
    TrimmedIsTrimmed(k);
    PlainKeyLine(t, Find(t, CRLF), |k|);
  }

  /** Where the search for the value stops in the line, and where in the value itself. */
  lemma ValueStart(t: CString, n: nat, v: CString)
    requires n + |v| + 2 <= |t| && (forall i :: 0 <= i < |v| ==> t[n + i] == v[i]) && BreakAt(t, n + |v|)
    ensures var i := NonSpaceFrom(v, 0);
            if i == |v| then NonSpaceFrom(t, n) > n + |v|
            else NonSpaceFrom(t, n) == n + i && t[n + i..n + |v|] == v[i..] == SkipSpaces(v)
  {
    assert IsSpace(t[n + |v|]);
    hide NonSpaceFrom, IsSpace;
    var i, j := NonSpaceFrom(v, 0), NonSpaceFrom(t, n);
    if i == |v| {
      assert forall k :: n <= k <= n + |v| ==> IsSpace(t[k]) by {
        forall k | n <= k < n + |v| ensures IsSpace(t[k]) { assert t[n + (k - n)] == v[k - n]; }
      }
    } else {
      forall k | n <= k < n + i ensures IsSpace(t[k]) { assert t[n + (k - n)] == v[k - n]; }
      assert t[n + i] == v[i];
      NonSpaceFromIs(t, n, n + i);
    }
  }

  lemma TrimRightStep(w: string)
    ensures TrimRight(w) == if w != "" && IsSpace(w[|w| - 1]) then TrimRight(w[..|w| - 1]) else w
  {
  }

  /** Trimming behind a first character that stays. */
  lemma {:induction false} TrimRightTail(w: CString)
    requires w != "" && !IsSpace(w[0])
    ensures TrimRight(w) == [w[0]] + TrimRight(w[1..])
    decreases |w|
  {
    hide TrimRight;
    var tail := w[1..];
    assert w == [w[0]] + tail;
    TrimRightStep(w);
    TrimRightStep(tail);
    if IsSpace(w[|w| - 1]) {
      TrimRightTail(w[..|w| - 1]);
      assert tail[..|tail| - 1] == w[..|w| - 1][1..];
    }
  }

  lemma ValueOfInner(t: CString, line: nat, key: CString, from: nat, start: nat, w: CString)
    requires from <= start < line < |t| && NonSpaceFrom(t, from) == start && t[start..line] == w
    ensures ValueFrom(t, line, key, from) == OfInner(key, TrimRight(w))
  {
    hide NonSpaceFrom, TrimRight;
    TrimRightTail(w);
    var body := TrimRight(w[1..]);
    assert t[start + 1..line] == w[1..];
    assert TrimRight(w) == [w[0]] + body;
    assert body != "" ==> ([w[0]] + body)[1..|body|] == body[..|body| - 1];
  }

  lemma NoValue(t: CString, line: nat, key: CString, from: nat)
    requires from <= |t| && line < |t| && NonSpaceFrom(t, from) >= line
    ensures ValueFrom(t, line, key, from) == UndefinedHeader == OfInner(key, "")
  {
    hide NonSpaceFrom, TrimRight;
  }

  lemma InnerOf(v: CString)
    ensures Inner(v) == TrimRight(SkipSpaces(v))
  {
  }

  /** The value in a text: from behind a colon to the end of the line. */
  ghost predicate ValueShape(t: string, n: nat, v: string) {
    n + |v| + 2 <= |t| && (forall i :: 0 <= i < |v| ==> t[n + i] == v[i]) && BreakAt(t, n + |v|)
  }

  lemma ValueMeans(t: CString, n: nat, key: CString, v: CString)
    requires ValueShape(t, n, v)
    ensures ValueFrom(t, n + |v|, key, n) == OfInner(key, Inner(v))
  {
    hide NonSpaceFrom, SkipSpaces, TrimRight, OfInner, ValueFrom, Inner;
    var i := NonSpaceFrom(v, 0);
    ValueStart(t, n, v);
    BlankInner(v);
    if i < |v| {
      ValueOfInner(t, n + |v|, key, n, n + i, SkipSpaces(v));
      InnerOf(v);
    } else {
      NoValue(t, n + |v|, key, n);
    }
  }

  lemma BlankInner(v: CString)
    ensures NonSpaceFrom(v, 0) == |v| ==> Inner(v) == ""
    ensures NonSpaceFrom(v, 0) < |v| ==> SkipSpaces(v) == v[NonSpaceFrom(v, 0)..] != ""
  {
  }

  lemma MeaningIs(h: Header)
    ensures Meaning(h) == OfInner(h.key, Inner(h.value))
  {
  }

  /** Any line with a plain key and one colon behind it. */
  lemma LineMeans(h: Header, rest: CString)
    requires OneLine(h)
    ensures HeaderAt(RawLine(h) + rest) == Meaning(h)
    ensures Find(RawLine(h) + rest, CRLF) == |RawLine(h)| - 2
  {
    hide HeaderAt, Find, Meaning, ValueFrom, OfInner, Inner;
    var t := RawLine(h) + rest;
    RawLineShape(h, rest);
    RawLineEnd(t, h.key, h.value);
    RawKeyPart(t, h.key, h.value);
    ValueMeans(t, |h.key| + 1, h.key, h.value);
    MeaningIs(h);
  }

  /** A line's parsing is defined if and only if its value is not all white-space and not a
      quote alone among white-space. */
  lemma {:induction false} LineDefinedExactlyWhen(h: Header, rest: CString)
    requires OneLine(h)
    ensures HeaderAt(RawLine(h) + rest) != UndefinedHeader <==> !Blank(h.value) && !LoneQuote(h.value)
  {
    hide HeaderAt, OneLine;
    LineMeans(h, rest);
    InnerIs(h.value);
  }

  lemma InnerIs(v: CString)
    ensures Inner(v) == "" <==> Blank(v)
    ensures Inner(v) == "\"" <==> LoneQuote(v)
  {
    var i := NonSpaceFrom(v, 0);
    if i < |v| {
      var w, r := v[i..], TrimRight(v[i..]);
      assert w[0] == v[i];
      forall j | i + |r| <= j < |v| ensures IsSpace(v[j]) { assert w[j - i] == v[j]; }
      if r == "\"" {
        assert v[i] == '"' by { assert r[0] == w[0]; }
        assert forall k :: 0 <= k < |v| && k != i ==> IsSpace(v[k]);
      }
      if LoneQuote(v) {
        TrimRightKeeps(w, 0);
        assert w[..1] == "\"";
      }
    }
  }

  /* ---- Lists ---- */

  /** The headers up to the first line that is not good. */
  function Meanings(ls: seq<Header>): Listed<Header> {
    if ls == [] then Accepted([])
    else
      match Meaning(ls[0])
      case BadHeader => Rejected
      case UndefinedHeader => Undefined
      case GoodHeader(h) => Prepend(h, Meanings(ls[1..]))
  }

  lemma {:induction false} LinesMean(ls: seq<Header>)
    requires forall h :: h in ls ==> OneLine(h)
    ensures HeadersAt(RawLines(ls)) == Meanings(ls)
  {
    hide HeaderAt, Find, Meaning, OneLine;
    if ls != [] {
      var rest := RawLines(ls[1..]);
      LineMeans(ls[0], rest);
      assert (RawLine(ls[0]) + rest)[|RawLine(ls[0])|..] == rest;
      assert |RawLine(ls[0])| > 2;
      LinesMean(ls[1..]);
    }
  }

  /** Line `i` is undefined, and every line before it is good. */
  predicate FirstUndefined(ls: seq<Header>, i: int) {
    0 <= i < |ls| && Meaning(ls[i]) == UndefinedHeader && forall j :: 0 <= j < i ==> Meaning(ls[j]).GoodHeader?
  }

  /** A list's parsing is undefined if and only if its first line that is not good is one
      with an undefined value. */
  lemma {:induction false} ListUndefinedExactlyWhen(ls: seq<Header>)
    ensures Meanings(ls) == Undefined <==> exists i :: FirstUndefined(ls, i)
  {
    hide Meaning;
    if ls != [] {
      ListUndefinedExactlyWhen(ls[1..]);
      if i :| FirstUndefined(ls, i) {
        if i > 0 {
          forall j | 0 <= j < i - 1 ensures Meaning(ls[1..][j]).GoodHeader? { assert ls[1..][j] == ls[j + 1]; }
          assert FirstUndefined(ls[1..], i - 1);
        }
        assert Meanings(ls) == Undefined;
      }
      if Meaning(ls[0]) == UndefinedHeader { assert FirstUndefined(ls, 0); }
      if Meaning(ls[0]).GoodHeader? && Meanings(ls[1..]) == Undefined {
        var i :| FirstUndefined(ls[1..], i);
        forall j | 0 <= j < i + 1 ensures Meaning(ls[j]).GoodHeader? {
          if j > 0 { assert ls[1..][j - 1] == ls[j]; }
        }
        assert FirstUndefined(ls, i + 1);
      }
    }
  }

  /* ---- Printed headers are such lines ---- */

  function Spaced(h: Header): Header {
    Header(h.key, " " + h.value)
  }

  function AllSpaced(hs: seq<Header>): (ls: seq<Header>)
    ensures |ls| == |hs| && forall i :: 0 <= i < |hs| ==> ls[i] == Spaced(hs[i])
  {
    seq(|hs|, i requires 0 <= i < |hs| => Spaced(hs[i]))
  }

  lemma {:induction false} PrintedAreLines(hs: seq<Header>)
    ensures RenderHeaders(hs) == RawLines(AllSpaced(hs))
    ensures (forall h :: h in hs ==> Clean(h)) ==> forall l :: l in AllSpaced(hs) ==> OneLine(l)
  {
    if hs != [] {
      PrintedAreLines(hs[1..]);
      assert AllSpaced(hs)[1..] == AllSpaced(hs[1..]);
      assert RenderHeader(hs[0]) == RawLine(Spaced(hs[0]));
    }
    forall i | 0 <= i < |hs| && Clean(hs[i]) ensures OneLine(AllSpaced(hs)[i]) { SpacedValue(hs[i].value); }
  }

  lemma SpacedValue(v: CString)
    requires NoCrlf(v)
    ensures NoCrlf(" " + v)
  {
    forall k | 0 <= k < |v| + 1 ensures !BreakAt(" " + v, k) { if k > 0 { assert !BreakAt(v, k - 1); } }
  }

  /* ---- Lines with a quoted key ---- */

  /** The key in quotes, white-space, a colon and the value as it stands. */
  function QuotedLine(h: Header, blanks: CString): CString {
    InQuotes(h.key) + blanks + ":" + h.value + CRLF
  }

  predicate OneQuotedLine(h: Header, blanks: CString) {
    NoCrlf(h.key) && NoCrlf(blanks) && Blank(blanks) && NoCrlf(h.value)
  }

  ghost predicate QuotedRawShape(t: string, k: string, blanks: string, v: string) {
    && |k| + 2 + |blanks| + 1 + |v| + 2 <= |t|
    && t[0] == '"' && t[|k| + 1] == '"' && t[|k| + 2 + |blanks|] == ':'
    && (forall i :: 0 <= i < |k| ==> t[1 + i] == k[i])
    && (forall i :: 0 <= i < |blanks| ==> t[|k| + 2 + i] == blanks[i])
    && ValueShape(t, |k| + 2 + |blanks| + 1, v)
  }

  lemma QuotedLineShape(h: Header, blanks: CString, rest: CString)
    ensures QuotedRawShape(QuotedLine(h, blanks) + rest, h.key, blanks, h.value)
  {
  }

  /** A stretch of a text that has no line break, up to a character that is no line feed. */
  lemma NoBreakInside(t: string, n: nat, v: string, i: nat)
    requires NoCrlf(v) && n <= i < n + |v| < |t| && t[n + |v|] != '\n' && forall j :: 0 <= j < |v| ==> t[n + j] == v[j]
    ensures !BreakAt(t, i)
  {
    assert !BreakAt(v, i - n);
    assert t[n + (i - n)] == v[i - n];
    if i + 1 < n + |v| { assert t[n + (i + 1 - n)] == v[i + 1 - n]; }
  }

  lemma QuotedRawEnd(t: string, k: string, blanks: string, v: string)
    requires QuotedRawShape(t, k, blanks, v) && NoCrlf(k) && NoCrlf(blanks) && NoCrlf(v)
    ensures Find(t, CRLF) == |k| + 2 + |blanks| + 1 + |v|
  {
    var colon := |k| + 2 + |blanks|;
    forall i | 0 <= i < colon + 1 + |v| ensures !BreakAt(t, i) {
      if 1 <= i <= |k| {
        NoBreakInside(t, 1, k, i);
      } else if |k| + 2 <= i < colon {
        NoBreakInside(t, |k| + 2, blanks, i);
      } else if colon < i {
        NoBreakInside(t, colon + 1, v, i);
      }
    }
    LineEndIs(t, colon + 1 + |v|);
  }

  lemma QuotedBlanks(t: string, k: string, blanks: string, v: string)
    requires QuotedRawShape(t, k, blanks, v) && Blank(blanks)
    ensures forall i :: |k| + 2 <= i < |k| + 2 + |blanks| ==> IsSpace(t[i])
  {
    forall i | |k| + 2 <= i < |k| + 2 + |blanks| ensures IsSpace(t[i]) {
      assert t[|k| + 2 + (i - |k| - 2)] == blanks[i - |k| - 2];
    }
  }

  /** Any value behind a quoted key means what it means behind a plain one, unless the key is
      taken to end early. */
  lemma {:induction false} QuotedLineMeans(h: Header, blanks: CString, rest: CString)
    requires OneQuotedLine(h, blanks) && !EarlyClose(h.key)
    ensures HeaderAt(QuotedLine(h, blanks) + rest) == Meaning(h)
  {
    hide HeaderAt, Find, EarlyClose, ValueFrom, NonSpaceFrom, QuotedKeyEnd, QuotedLine, Meaning, OfInner, Inner;
    var t := QuotedLine(h, blanks) + rest;
    var k, n := h.key, |h.key| + 2 + |blanks|;
    var line := n + 1 + |h.value|;
    QuotedLineShape(h, blanks, rest);
    QuotedRawEnd(t, k, blanks, h.value);
    QuotedBlanks(t, k, blanks, h.value);
    QuotedKeyScan(t, k, blanks, line);
    QuotedKeyPart(t, line, NonSpaceFrom(t, 1), n, |k| + 1);
    assert t[1..|k| + 1] == k;
    ValueMeans(t, n + 1, k, h.value);
    MeaningIs(h);
  }

  /* ---- White-space in front of a line ---- */

  ghost predicate IndentedShape(t: string, w: string, k: string, v: string) {
    && |w| + |k| + |v| + 4 <= |t|
    && (forall i :: 0 <= i < |w| ==> t[i] == w[i])
    && (forall i :: 0 <= i < |k| ==> t[|w| + i] == k[i])
    && t[|w| + |k|] == ':' && t[|w| + |k| + 1] == ' '
    && (forall i :: 0 <= i < |v| ==> t[|w| + |k| + 2 + i] == v[i])
    && BreakAt(t, |w| + |k| + 2 + |v|)
  }

  lemma IndentedLineShape(w: CString, h: Header, rest: CString)
    ensures IndentedShape(w + RenderHeader(h) + rest, w, h.key, h.value)
  {
    hide RenderHeader;
    RenderedShape(h, rest);
    var u := RenderHeader(h) + rest;
    assert w + RenderHeader(h) + rest == w + u;
    IndentedFrom(w, u, h.key, h.value);
  }

  lemma IndentedFrom(w: string, u: string, k: string, v: string)
    requires Shape(u, k, v)
    ensures IndentedShape(w + u, w, k, v)
  {
    var t := w + u;
    forall i | 0 <= i < |u| ensures t[|w| + i] == u[i] {}
    assert t[|w| + (|k|)] == u[|k|] && t[|w| + (|k| + 1)] == u[|k| + 1];
    forall i | 0 <= i < |v| ensures t[|w| + |k| + 2 + i] == v[i] { assert t[|w| + (|k| + 2 + i)] == u[|k| + 2 + i]; }
    var n := |k| + 2 + |v|;
    assert t[|w| + n] == u[n] && t[|w| + (n + 1)] == u[n + 1];
  }

  lemma IndentedEnd(t: string, w: string, k: string, v: string)
    requires IndentedShape(t, w, k, v) && NoCrlf(w) && Plain(k) && Plain(v)
    ensures Find(t, CRLF) == |w| + |k| + 2 + |v|
  {
    var colon := |w| + |k|;
    assert t[|w|] == k[0];
    forall i | 0 <= i < colon + 2 + |v| ensures !BreakAt(t, i) {
      if i < |w| {
        NoBreakInside(t, 0, w, i);
      } else if i < colon {
        NoBreakInside(t, |w|, k, i);
      } else if colon + 2 <= i {
        NoBreakInside(t, colon + 2, v, i);
      }
    }
    LineEndIs(t, colon + 2 + |v|);
  }

  lemma PlainKeyFrom(t: CString, line: nat, start: nat, at: nat)
    requires line == Find(t, CRLF) < |t| && start < at < |t| && t[start] != '"'
    requires NonSpaceFrom(t, 0) == start && PlainKeyEnd(t, line, start) == Colon(at, at)
    ensures HeaderAt(t) == ValueFrom(t, line, TrimRight(t[start..at]), at - start + 1)
  {
    hide Find, ValueFrom, PlainKeyEnd, NonSpaceFrom, TrimRight;
  }

  lemma IndentedKeyPart(t: CString, w: CString, k: CString, v: CString, line: nat)
    requires IndentedShape(t, w, k, v) && Blank(w) && Plain(k) && ':' !in k && |w| + |k| < line == Find(t, CRLF) < |t|
    ensures HeaderAt(t) == ValueFrom(t, line, k, |k| + 1)
  {
    hide HeaderAt, Find, ValueFrom, PlainKeyEnd, NonSpaceFrom, TrimRight;
    var start, colon := |w|, |w| + |k|;
    assert t[start + 0] == k[0];
    NonSpaceFromIs(t, 0, start);
    forall i | start <= i < colon ensures t[i] != ':' { assert t[start + (i - start)] == k[i - start]; }
    PlainKeyEndIs(t, line, start, colon);
    assert t[start..colon] == k;
    TrimmedIsTrimmed(k);
    PlainKeyFrom(t, line, start, colon);
  }

  /** The value found is longer when the search for it starts too early. */
  lemma EarlyValueIsLonger(t: CString, line: nat, key: CString, from: nat, colon: nat, v: CString)
    requires from <= colon && colon + 2 + |v| == line < |t| && t[colon] == ':' && v != "" && !IsSpace(v[|v| - 1])
    requires t[line - 1] == v[|v| - 1]
    ensures var r := ValueFrom(t, line, key, from); r.GoodHeader? ==> |r.header.value| > |v|
  {
    hide NonSpaceFrom, TrimRight;
    var start := NonSpaceFrom(t, from);
    assert start <= colon;
    TrimmedAtEnd(t, start, line);
    TrimmedAtEnd(t, start + 1, line);
  }

  lemma TrimmedAtEnd(t: string, start: nat, end: nat)
    requires start < end <= |t| && !IsSpace(t[end - 1])
    ensures TrimRight(t[start..end]) == t[start..end]
  {
  }

  /** White-space in front of a clean header line shifts the search for its value into its key:
      the line is read back if and only if there is none. */
  lemma IndentedRoundTrip(w: CString, h: Header, rest: CString)
    requires Clean(h) && Blank(w) && NoCrlf(w)
    ensures HeaderAt(w + RenderHeader(h) + rest) == GoodHeader(h) <==> w == ""
  {
    hide HeaderAt, Find, ValueFrom, RenderHeader;
    if w == "" {
      assert w + RenderHeader(h) + rest == RenderHeader(h) + rest;
      CleanReadsBack(h, rest);
    } else {
      IndentedDiffers(w + RenderHeader(h) + rest, w, h, rest);
    }
  }

  lemma IndentedDiffers(t: CString, w: CString, h: Header, rest: CString)
    requires Clean(h) && Blank(w) && NoCrlf(w) && w != "" && t == w + RenderHeader(h) + rest
    ensures HeaderAt(t) != GoodHeader(h)
  {
    hide HeaderAt, Find, ValueFrom, RenderHeader;
    var k, v := h.key, h.value;
    IndentedLineShape(w, h, rest);
    IndentedEnd(t, w, k, v);
    var line := |w| + |k| + 2 + |v|;
    IndentedKeyPart(t, w, k, v, line);
    assert t[|w| + |k| + 2 + (|v| - 1)] == v[|v| - 1];
    EarlyValueIsLonger(t, line, k, |k| + 1, |w| + |k|, v);
  }

  /* ---- Lines of white-space ---- */

  lemma BlankLineEnd(w: string, rest: string)
    requires NoCrlf(w)
    ensures Find(w + CRLF + rest, CRLF) == |w|
  {
    var t := w + CRLF + rest;
    forall k | 0 <= k < |w| ensures !BreakAt(t, k) {
      assert !BreakAt(w, k);
    }
    LineEndIs(t, |w|);
  }

  /** Where only white-space comes before the end of the line, the value found is none. */
  lemma NoValueInBlankLine(t: CString, line: nat, key: CString, from: nat)
    requires from <= |t| && line < |t| && forall k :: 0 <= k <= line ==> IsSpace(t[k])
    ensures ValueFrom(t, line, key, from) == UndefinedHeader
  {
    hide TrimRight;
  }

  /** A key scan that starts behind the end of the line does not find that end. */
  lemma {:induction false} ScansBehindLine(t: string, line: nat, at: nat, last: nat)
    requires line < at <= |t| && last < at
    ensures !PlainKeyEnd(t, line, at).EndOfLine? && !QuotedKeyEnd(t, line, at, last).EndOfLine?
    decreases |t| - at
  {
    if at < |t| {
      ScansBehindLine(t, line, at + 1, last);
      ScansBehindLine(t, line, at + 1, at);
    }
  }

  /** A line of white-space only is no empty line: the parser looks for a key behind its end, and leaves
      the line in every case. */
  lemma BlankLineIsUndefined(w: CString, rest: CString)
    requires w != "" && Blank(w) && NoCrlf(w)
    ensures HeaderAt(w + CRLF + rest) == UndefinedHeader && HeadersAt(w + CRLF + rest) == Undefined
  {
    hide Find, PlainKeyEnd, QuotedKeyEnd, NonSpaceFrom, TrimRight, ValueFrom;
    var t: CString := w + CRLF + rest;
    BlankLineEnd(w, rest);
    forall k | 0 <= k <= |w| ensures IsSpace(t[k]) { assert k < |w| ==> t[k] == w[k]; }
    BlankLineHeader(t, |w|);
    HeadersRound(t);
  }

  lemma BlankLineHeader(t: CString, line: nat)
    requires line == Find(t, CRLF) < |t| && forall k :: 0 <= k <= line ==> IsSpace(t[k])
    ensures HeaderAt(t) == UndefinedHeader
  {
    hide HeaderAt, Find, NonSpaceFrom;
    var start := NonSpaceFrom(t, 0);
    if start == |t| {
      NoKeyAtAll(t);
    } else if t[start] != '"' {
      BlankThenPlain(t, line, start);
    } else {
      BlankThenQuoted(t, line, start);
    }
  }

  lemma NoKeyAtAll(t: CString)
    requires NonSpaceFrom(t, 0) == |t|
    ensures HeaderAt(t) == UndefinedHeader
  {
    hide Find, NonSpaceFrom, ValueFrom, PlainKeyEnd, QuotedKeyEnd;
  }

  lemma NoValueForAnyKey(t: CString, line: nat)
    requires line < |t| && forall k :: 0 <= k <= line ==> IsSpace(t[k])
    ensures forall key: CString, from: nat :: from <= |t| ==> ValueFrom(t, line, key, from) == UndefinedHeader
  {
    hide ValueFrom;
    forall key: CString, from: nat | from <= |t| ensures ValueFrom(t, line, key, from) == UndefinedHeader {
      NoValueInBlankLine(t, line, key, from);
    }
  }

  lemma BlankThenPlain(t: CString, line: nat, start: nat)
    requires line == Find(t, CRLF) < start < |t| && start == NonSpaceFrom(t, 0) && t[start] != '"'
    requires forall k :: 0 <= k <= line ==> IsSpace(t[k])
    ensures HeaderAt(t) == UndefinedHeader
  {
    hide Find, PlainKeyEnd, QuotedKeyEnd, NonSpaceFrom, TrimRight, ValueFrom, IsSpace;
    ScansBehindLine(t, line, start, 0);
    NoValueForAnyKey(t, line);
  }

  lemma CutOfText(t: CString, i: nat, j: nat)
    requires i <= j <= |t|
    ensures '\0' !in t[i..j]
  {
  }

  lemma QuotedFrom(t: CString, line: nat, start: nat, first: nat, at: nat, last: nat, key: CString)
    requires line == Find(t, CRLF) < |t| && start == NonSpaceFrom(t, 0) < |t| && t[start] == '"'
    requires first == NonSpaceFrom(t, start + 1) < |t| && QuotedKeyEnd(t, line, first + 1, first) == Colon(at, last)
    requires start < last <= at < |t| && key == t[start + 1..last]
    ensures HeaderAt(t) == ValueFrom(t, line, key, at - start + 1)
  {
    hide Find, QuotedKeyEnd, NonSpaceFrom, ValueFrom;
  }

  lemma QuotedOff(t: CString, line: nat, start: nat, first: nat)
    requires line == Find(t, CRLF) < |t| && start == NonSpaceFrom(t, 0) < |t| && t[start] == '"'
    requires first == NonSpaceFrom(t, start + 1)
    requires first < |t| ==> QuotedKeyEnd(t, line, first + 1, first).OffTheText?
    ensures HeaderAt(t) == UndefinedHeader
  {
    hide Find, QuotedKeyEnd, NonSpaceFrom, ValueFrom;
  }

  lemma BlankThenQuotedKey(t: CString, line: nat, start: nat, first: nat, at: nat, last: nat)
    requires line == Find(t, CRLF) < start < |t| && start == NonSpaceFrom(t, 0) && t[start] == '"'
    requires forall k :: 0 <= k <= line ==> IsSpace(t[k])
    requires first == NonSpaceFrom(t, start + 1) < |t| && QuotedKeyEnd(t, line, first + 1, first) == Colon(at, last)
    requires start < last <= at < |t|
    ensures HeaderAt(t) == UndefinedHeader
  {
    hide *;
    CutOfText(t, start + 1, last);
    QuotedFrom(t, line, start, first, at, last, t[start + 1..last]);
    NoValueInBlankLine(t, line, t[start + 1..last], at - start + 1);
  }

  lemma BlankThenQuoted(t: CString, line: nat, start: nat)
    requires line == Find(t, CRLF) < start < |t| && start == NonSpaceFrom(t, 0) && t[start] == '"'
    requires forall k :: 0 <= k <= line ==> IsSpace(t[k])
    ensures HeaderAt(t) == UndefinedHeader
  {
    hide *;
    var first := NonSpaceFrom(t, start + 1);
    if first == |t| {
      QuotedOff(t, line, start, first);
    } else {
      ScansBehindLine(t, line, first + 1, first);
      match QuotedKeyEnd(t, line, first + 1, first)
      case Colon(at, last) => BlankThenQuotedKey(t, line, start, first, at, last);
      case _ => QuotedOff(t, line, start, first);
    }
  }

  /* ---- Ends of the text ---- */

  /** A text without a line end is no list, unless it is empty; a single header there is undefined; and an
      empty line in front ends the list at once. */
  lemma EndsOfLists(t: CString, rest: CString)
    ensures NoCrlf(t) ==> HeaderAt(t) == UndefinedHeader
    ensures NoCrlf(t) && t != "" ==> HeadersAt(t) == Rejected
    ensures HeadersAt("") == Accepted([]) && HeadersAt(CRLF + rest) == Accepted([])
  {
    hide Find, PlainKeyEnd, QuotedKeyEnd, NonSpaceFrom, ValueFrom;
    if NoCrlf(t) { OccursIsBreak(t, Find(t, CRLF)); }
    HeadersRound(t);
    HeadersRound("");
    HeadersRound(CRLF + rest);
    NoRound();
    LineEndIs(CRLF + rest, 0);
  }

  /** A line that starts with its colon is trimmed back beyond its start. */
  lemma EmptyKeyIsUndefined(v: CString, rest: CString)
    requires NoCrlf(v)
    ensures HeaderAt(":" + v + CRLF + rest) == UndefinedHeader
  {
    hide Find, NonSpaceFrom, ValueFrom;
    var t: CString := ":" + v + CRLF + rest;
    NonSpaceFromIs(t, 0, 0);
    forall k | 0 <= k < |v| + 1 ensures !BreakAt(t, k) {
      if k > 0 {
        assert !BreakAt(v, k - 1);
      }
    }
    LineEndIs(t, |v| + 1);
    PlainKeyEndIs(t, |v| + 1, 0, 0);
  }

  /* ---- A quote with nothing behind it ---- */

  /** A key scan that has passed the end of the line, in a text without another colon. */
  lemma {:induction false} ScansOff(t: string, line: nat, at: nat, last: nat)
    requires line < at <= |t| && last < at && forall k :: at <= k < |t| ==> t[k] != ':'
    ensures QuotedKeyEnd(t, line, at, last).OffTheText?
    decreases |t| - at
  {
    if at < |t| { ScansOff(t, line, at + 1, if IsSpace(t[at]) then last else at); }
  }

  lemma LoneQuoteScan(t: CString, line: nat)
    requires 0 < line == Find(t, CRLF) && line + 1 < |t| && t[0] == '"' && NonSpaceFrom(t, 0) == 0
    requires forall k :: 1 <= k <= line + 1 ==> IsSpace(t[k])
    requires forall k :: line + 2 <= k < |t| ==> t[k] != ':'
    ensures HeaderAt(t) == UndefinedHeader
  {
    hide Find, QuotedKeyEnd, HeaderAt, NonSpaceFrom;
    var first := NonSpaceFrom(t, 1);
    assert first > line + 1;
    if first < |t| { ScansOff(t, line, first + 1, first); }
    QuotedOff(t, line, 0, first);
  }

  /** A line that holds only an opening quote is left: the scan goes on behind its end, and when there is
      no colon, off the text. */
  lemma LoneOpeningQuoteIsUndefined(w: CString, rest: CString)
    requires Blank(w) && NoCrlf(w) && ':' !in rest
    ensures HeaderAt("\"" + w + CRLF + rest) == UndefinedHeader
  {
    hide Find, QuotedKeyEnd, HeaderAt, NonSpaceFrom;
    var line, t: CString := |w| + 1, "\"" + w + CRLF + rest;
    assert t == "\"" + (w + (CRLF + rest));
    NonSpaceFromIs(t, 0, 0);
    forall k | 0 <= k < line ensures !BreakAt(t, k) {
      if k > 0 {
        assert !BreakAt(w, k - 1);
      }
    }
    LineEndIs(t, line);
    forall k | 1 <= k <= line + 1 ensures IsSpace(t[k]) { assert k <= |w| ==> t[k] == w[k - 1]; }
    forall k | line + 2 <= k < |t| ensures t[k] != ':' { assert t[k] == rest[k - line - 2]; }
    LoneQuoteScan(t, line);
  }
}
