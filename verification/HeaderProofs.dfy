/** Header lines: printing and parsing undo each other. */
module HeaderProofs {
  import opened Wrappers
  import opened CStrings
  import opened HeaderSpec

  predicate BreakAt(s: string, k: int) {
    0 <= k && k + 1 < |s| && s[k] == '\r' && s[k + 1] == '\n'
  }

  predicate NoCrlf(s: string) {
    forall k :: 0 <= k < |s| ==> !BreakAt(s, k)
  }

  /** A text that stands for itself when printed without quotes. */
  predicate Plain(s: string) {
    s != "" && Trimmed(s) && s[0] != '"' && NoCrlf(s)
  }

  predicate Clean(h: Header) {
    Plain(h.key) && ':' !in h.key && Plain(h.value)
  }

  /* ---- Small facts ---- */

  lemma {:induction false} PlainKeyEndIs(t: string, line: nat, at: nat, end: nat)
    requires at <= end < |t| && t[end] == ':' && !(at <= line <= end)
    requires forall k :: at <= k < end ==> t[k] != ':'
    ensures PlainKeyEnd(t, line, at) == Colon(end, end)
    decreases end - at
  {
    if at < end { PlainKeyEndIs(t, line, at + 1, end); }
  }

  lemma TrimmedIsTrimmed(s: string)
    requires Trimmed(s)
    ensures TrimRight(s) == s
  {
  }

  lemma OccursIsBreak(s: string, k: nat)
    ensures OccursAt(s, CRLF, k) <==> BreakAt(s, k)
  {
    if k + 2 <= |s| { assert s[k..k + 2] == [s[k], s[k + 1]]; }
  }

  lemma LineEndIs(t: string, n: nat)
    requires BreakAt(t, n) && forall k :: 0 <= k < n ==> !BreakAt(t, k)
    ensures Find(t, CRLF) == n
  {
    OccursIsBreak(t, n);
    forall k | 0 <= k < n ensures !OccursAt(t, CRLF, k) { OccursIsBreak(t, k); assert !BreakAt(t, k); }
    FindIs(t, CRLF, n);
  }

  lemma NoBreakBeforeLineEnd(t: string, k: nat)
    requires k < Find(t, CRLF)
    ensures !BreakAt(t, k)
  {
    FindIsFirst(t, CRLF, k);
    OccursIsBreak(t, k);
  }

  /* ---- One line ---- */

  /** The characters of a rendered header with something behind it. */
  ghost predicate Shape(t: string, k: string, v: string) {
    && |k| + |v| + 4 <= |t|
    && (forall i :: 0 <= i < |k| ==> t[i] == k[i])
    && t[|k|] == ':' && t[|k| + 1] == ' '
    && (forall i :: 0 <= i < |v| ==> t[|k| + 2 + i] == v[i])
    && BreakAt(t, |k| + 2 + |v|)
  }

  lemma RenderedShape(h: Header, rest: CString)
    ensures Shape(RenderHeader(h) + rest, h.key, h.value)
  {
  }

  lemma CleanLineEnd(t: string, k: string, v: string)
    requires Shape(t, k, v) && Plain(k) && Plain(v)
    ensures Find(t, CRLF) == |k| + 2 + |v|
  {
    var n := |k| + 2 + |v|;
    forall i | 0 <= i < n ensures !BreakAt(t, i) {
      if i < |k| {
        assert !BreakAt(k, i);
      } else if i >= |k| + 2 {
        assert !BreakAt(v, i - |k| - 2);
        assert t[|k| + 2 + (i - |k| - 2)] == v[i - |k| - 2];
        if i + 1 < n { assert t[|k| + 2 + (i + 1 - |k| - 2)] == v[i + 1 - |k| - 2]; }
      }
    }
    LineEndIs(t, n);
  }

  /** A plain value behind the colon is read back, whatever the key. */
  lemma PlainValueReadsBack(t: CString, line: nat, key: CString, from: nat, start: nat, v: CString)
    requires from <= start < line < |t| && Plain(v) && line == start + |v|
    requires (forall i :: from <= i < start ==> IsSpace(t[i])) && forall i :: 0 <= i < |v| ==> t[start + i] == v[i]
    ensures ValueFrom(t, line, key, from) == GoodHeader(Header(key, v))
  {
    assert t[start + 0] == v[0];
    NonSpaceFromIs(t, from, start);
    assert t[start..line] == v;
    TrimmedIsTrimmed(v);
  }

  lemma CleanShapeReadsBack(t: CString, k: CString, v: CString)
    requires Shape(t, k, v) && Plain(k) && ':' !in k && Plain(v)
    ensures HeaderAt(t) == GoodHeader(Header(k, v))
  {
    hide Find, ValueFrom, PlainKeyEnd;
    var n, line := |k|, |k| + 2 + |v|;
    CleanLineEnd(t, k, v);
    assert t[0] == k[0];
    NonSpaceFromIs(t, 0, 0);
    PlainKeyEndIs(t, line, 0, n);
    assert t[0..n] == k;
    TrimmedIsTrimmed(k);
    PlainValueReadsBack(t, line, k, n + 1, n + 2, v);
  }

  lemma {:induction false} CleanReadsBack(h: Header, rest: CString)
    requires Clean(h)
    ensures HeaderAt(RenderHeader(h) + rest) == GoodHeader(h)
    ensures Find(RenderHeader(h) + rest, CRLF) == |RenderHeader(h)| - 2
  {
    var t := RenderHeader(h) + rest;
    RenderedShape(h, rest);
    CleanLineEnd(t, h.key, h.value);
    CleanShapeReadsBack(t, h.key, h.value);
  }

  /* ---- Only clean headers come back ---- */

  /** Where a key equals what a quoted key scan cut out, everything before its closing quote is
      white-space or a quote. */
  lemma {:induction false} QuotedKeyRepeats(t: string, start: nat, k: string, i: nat)
    requires start + 1 + |k| < |t| && t[start] == '"' && i < start + 1 + |k|
    requires forall j :: 0 <= j < start ==> IsSpace(t[j])
    requires forall j :: 0 <= j < |k| ==> t[j] == k[j] && t[start + 1 + j] == k[j]
    ensures IsSpace(t[i]) || t[i] == '"'
    decreases i
  {
    if i > start {
      assert t[start + 1 + (i - start - 1)] == k[i - start - 1];
      QuotedKeyRepeats(t, start, k, i - start - 1);
    }
  }

  /** A quoted key is never the printed key. */
  lemma QuotedKeyIsNot(t: CString, start: nat, last: nat, k: string, v: string)
    requires Shape(t, k, v) && start < last < |t| && t[start] == '"' && t[last] == '"'
    requires forall j :: 0 <= j < start ==> IsSpace(t[j])
    ensures t[start + 1..last] != k
  {
    if t[start + 1..last] == k {
      forall j | 0 <= j < |k| ensures t[start + 1 + j] == k[j] { assert t[start + 1..last][j] == k[j]; }
      if start > 0 {
        QuotedKeyRepeats(t, start, k, |k|);
      }
      assert false;
    }
  }

  /** The start of a line's text, cut before the line's end, has no line break. */
  lemma CutHasNoBreak(t: string, start: nat, v: string)
    requires start + |v| <= Find(t, CRLF) && forall i :: 0 <= i < |v| ==> t[start + i] == v[i]
    ensures NoCrlf(v)
  {
    forall i | 0 <= i < |v| ensures !BreakAt(v, i) {
      NoBreakBeforeLineEnd(t, start + i);
      assert v[i] == t[start + i];
      if i + 1 < |v| { assert v[i + 1] == t[start + (i + 1)]; }
    }
  }

  lemma TrimmedCut(t: string, start: nat, end: nat, v: string)
    requires start < end <= |t| && !IsSpace(t[start]) && v == TrimRight(t[start..end])
    ensures v != "" && Trimmed(v) && v[0] == t[start] && start + |v| <= end
    ensures forall i :: 0 <= i < |v| ==> t[start + i] == v[i]
  {
    var raw := t[start..end];
    assert raw[0] == t[start];
    assert v == raw[..|v|];
    forall i | 0 <= i < |v| ensures t[start + i] == v[i] { assert v[i] == raw[i]; }
  }

  /** A value that reaches as far as the line cannot have stood in quotes: these would not fit. */
  lemma ValueIsCut(t: CString, line: nat, key: CString, from: nat, v: CString)
    requires from < line < |t| && IsSpace(t[from]) && line <= from + 1 + |v|
    requires ValueFrom(t, line, key, from) == GoodHeader(Header(key, v))
    ensures var start := NonSpaceFrom(t, from); start < line && t[start] != '"' && v == TrimRight(t[start..line])
  {
    hide TrimRight;
  }

  lemma ValueIsPlain(t: CString, k: string, v: CString, key: CString)
    requires Shape(t, k, v) && |k| < Find(t, CRLF) < |t|
    requires ValueFrom(t, Find(t, CRLF), key, |k| + 1) == GoodHeader(Header(key, v))
    ensures Plain(v)
  {
    hide Find, TrimRight, ValueFrom, NonSpaceFrom;
    var line, start := Find(t, CRLF), NonSpaceFrom(t, |k| + 1);
    LineNotPast(t, |k| + 2 + |v|);
    ValueIsCut(t, line, key, |k| + 1, v);
    TrimmedCut(t, start, line, v);
    CutHasNoBreak(t, start, v);
  }

  lemma LineNotPast(t: string, n: nat)
    requires BreakAt(t, n)
    ensures Find(t, CRLF) <= n
  {
    if n < Find(t, CRLF) { NoBreakBeforeLineEnd(t, n); }
  }

  lemma PlainKeyIsWhole(t: CString, k: CString, v: CString, line: nat, start: nat, at: nat)
    requires Shape(t, k, v) && start < at < |t| && t[at] == ':' && line == Find(t, CRLF) && !(start <= line <= at)
    requires start == NonSpaceFrom(t, 0) && t[start] != '"' && k == TrimRight(t[start..at])
    requires forall j :: start <= j < at ==> t[j] != ':'
    ensures start == 0 && at == |k| && Plain(k) && ':' !in k && |k| < line
  {
    TrimmedCut(t, start, at, k);
    assert t[0] == k[0];
    forall j | 0 <= j < |k| ensures k[j] != ':' { assert k[j] == t[start + j]; }
    CutHasNoBreak(t, start, k);
  }

  lemma {:induction false} OnlyCleanReadsBack(h: Header, rest: CString)
    requires HeaderAt(RenderHeader(h) + rest) == GoodHeader(h)
    ensures Clean(h)
  {
    var t := RenderHeader(h) + rest;
    RenderedShape(h, rest);
    OnlyCleanShape(t, h.key, h.value);
  }

  lemma ValueFromKey(t: CString, line: nat, key: CString, from: nat)
    requires from <= |t| && line < |t|
    ensures var r := ValueFrom(t, line, key, from); r.GoodHeader? ==> r.header.key == key
  {
  }

  lemma QuotedShapeDiffers(t: CString, k: CString, v: CString)
    requires Shape(t, k, v) && NonSpaceFrom(t, 0) < |t| && t[NonSpaceFrom(t, 0)] == '"'
    ensures HeaderAt(t) != GoodHeader(Header(k, v))
  {
    hide Find, NonSpaceFrom, QuotedKeyEnd, ValueFrom, Shape;
    var line, start := Find(t, CRLF), NonSpaceFrom(t, 0);
    var first := NonSpaceFrom(t, start + 1);
    if line < |t| && first < |t| && QuotedKeyEnd(t, line, first + 1, first).Colon? {
      var end := QuotedKeyEnd(t, line, first + 1, first);
      QuotedKeyIsNot(t, start, end.last, k, v);
      ValueFromKey(t, line, t[start + 1..end.last], end.at - start + 1);
    }
  }

  lemma OnlyCleanShape(t: CString, k: CString, v: CString)
    requires Shape(t, k, v) && HeaderAt(t) == GoodHeader(Header(k, v))
    ensures Clean(Header(k, v))
  {
    hide Find, ValueFrom, NonSpaceFrom;
    var line, start := Find(t, CRLF), NonSpaceFrom(t, 0);
    if t[start] == '"' {
      QuotedShapeDiffers(t, k, v);
    } else {
      var at := PlainKeyEnd(t, line, start).at;
      ValueFromKey(t, line, TrimRight(t[start..at]), at - start + 1);
      PlainKeyIsWhole(t, k, v, line, start, at);
      ValueIsPlain(t, k, v, k);
    }
  }

  /** A printed header line is read back exactly when it is clean: key and value non-empty,
      without a line break, without white-space around or a quote in front, and no colon in the
      key. */
  lemma {:induction false} HeaderRoundTrip(h: Header, rest: CString)
    ensures HeaderAt(RenderHeader(h) + rest) == GoodHeader(h) <==> Clean(h)
  {
    if Clean(h) { CleanReadsBack(h, rest); }
    if HeaderAt(RenderHeader(h) + rest) == GoodHeader(h) { OnlyCleanReadsBack(h, rest); }
  }

  /* ---- Lists ---- */

  lemma {:induction false} CleanHeadersReadBack(hs: seq<Header>)
    requires forall h :: h in hs ==> Clean(h)
    ensures HeadersAt(RenderHeaders(hs)) == Accepted(hs)
  {
    hide OneRound, Clean, RenderHeader, HeaderAt, Find;
    if hs == [] {
      NoRound();
    } else {
      var rest := RenderHeaders(hs[1..]);
      CleanReadsBack(hs[0], rest);
      LongerThanBreak(hs[0]);
      GoodRound(RenderHeader(hs[0]), hs[0], rest);
      CleanHeadersReadBack(hs[1..]);
      assert [hs[0]] + hs[1..] == hs;
    }
  }

  lemma LongerThanBreak(h: Header)
    ensures |RenderHeader(h)| > 2
  {
  }

  /** A line that yields a header, and the text behind it. */
  lemma GoodRound(first: CString, h: Header, rest: CString)
    requires |first| > 2 && Find(first + rest, CRLF) == |first| - 2 && HeaderAt(first + rest) == GoodHeader(h)
    ensures OneRound(first + rest) == Go(h, rest)
  {
    hide HeaderAt, Find;
    assert (first + rest)[|first|..] == rest;
  }

  lemma {:induction false} OnlyCleanHeadersReadBack(hs: seq<Header>)
    requires HeadersAt(RenderHeaders(hs)) == Accepted(hs)
    ensures forall h :: h in hs ==> Clean(h)
  {
    hide HeadersAt, HeaderAt, RenderHeader, Find, Clean;
    if hs != [] {
      var rest := RenderHeaders(hs[1..]);
      var t := RenderHeader(hs[0]) + rest;
      HeadRead(t, hs);
      OnlyCleanReadsBack(hs[0], rest);
      CleanReadsBack(hs[0], rest);
      assert t[|RenderHeader(hs[0])|..] == rest;
      OnlyCleanHeadersReadBack(hs[1..]);
    }
  }

  /** What a list's first header was read from, and the others. */
  lemma HeadRead(t: CString, hs: seq<Header>)
    requires HeadersAt(t) == Accepted(hs) && hs != []
    ensures HeaderAt(t) == GoodHeader(hs[0])
    ensures Find(t, CRLF) + 2 <= |t| && HeadersAt(t[Find(t, CRLF) + 2..]) == Accepted(hs[1..])
  {
    hide OneRound, HeaderAt, Find, Prepend;
    RoundGives(t);
    assert OneRound(t).Go?;
    PrependIs(OneRound(t).header, HeadersAt(OneRound(t).rest), hs);
  }

  lemma PrependIs<T>(x: T, rest: Listed<T>, xs: seq<T>)
    requires Prepend(x, rest) == Accepted(xs)
    ensures xs != [] && xs[0] == x && rest == Accepted(xs[1..])
  {
  }

  lemma RoundGives(t: CString)
    ensures var r := OneRound(t);
            match r
            case Stop(outcome) => outcome.Accepted? ==> outcome.items == []
            case Go(h, rest) =>
              HeaderAt(t) == GoodHeader(h) && Find(t, CRLF) + 2 <= |t| && rest == t[Find(t, CRLF) + 2..]
  {
    hide HeaderAt, Find;
  }

  /** A printed header list is read back, in order and with duplicates, exactly when each header
      is clean. */
  lemma {:induction false} HeadersRoundTrip(hs: seq<Header>)
    ensures HeadersAt(RenderHeaders(hs)) == Accepted(hs) <==> forall h :: h in hs ==> Clean(h)
  {
    if forall h :: h in hs ==> Clean(h) { CleanHeadersReadBack(hs); }
    if HeadersAt(RenderHeaders(hs)) == Accepted(hs) { OnlyCleanHeadersReadBack(hs); }
  }

  /* ---- Quoted values ---- */

  function InQuotes(s: CString): CString {
    "\"" + s + "\""
  }

  lemma QuotedValueBody(t: CString, line: nat, key: CString, v: CString, from: nat)
    requires 0 < from && from + 1 + |v| < line < |t| && t[from - 1] == ' ' && t[from] == '"' && t[from + 1 + |v|] == '"'
    requires line == from + 2 + |v| && forall i :: 0 <= i < |v| ==> t[from + 1 + i] == v[i]
    ensures ValueFrom(t, line, key, from - 1) == GoodHeader(Header(key, v))
  {
    NonSpaceFromIs(t, from - 1, from);
    var body := t[from + 1..line];
    assert body == v + "\"";
    assert TrimRight(body) == body && body[..|body| - 1] == v;
  }

  /** A value written in quotes is recovered exactly, inner quotes, colons and outer blanks
      included, if and only if it has no line break. */
  lemma QuotedValueRoundTrip(k: CString, v: CString, rest: CString)
    requires Plain(k) && ':' !in k
    ensures HeaderAt(RenderHeader(Header(k, InQuotes(v))) + rest) == GoodHeader(Header(k, v)) <==> NoCrlf(v)
  {
    var q, t := InQuotes(v), RenderHeader(Header(k, InQuotes(v))) + rest;
    RenderedShape(Header(k, q), rest);
    if NoCrlf(v) {
      QuotedValueShape(t, k, v);
    } else {
      var j :| 0 <= j < |v| && BreakAt(v, j);
      BrokenValueShape(t, k, v, j);
    }
  }

  lemma PlainKeyLine(t: CString, line: nat, at: nat)
    requires line == Find(t, CRLF) < |t| && 0 < at < |t| && t[0] != '"'
    requires NonSpaceFrom(t, 0) == 0 && PlainKeyEnd(t, line, 0) == Colon(at, at)
    ensures HeaderAt(t) == ValueFrom(t, line, TrimRight(t[..at]), at + 1)
  {
    hide Find, ValueFrom, PlainKeyEnd, NonSpaceFrom, TrimRight;
    assert t[0..at] == t[..at];
  }

  /** The key part of a line, when the key is plain. */
  lemma PlainKeyPart(t: CString, k: CString, q: string)
    requires Shape(t, k, q) && Plain(k) && ':' !in k && |k| < Find(t, CRLF) < |t|
    ensures HeaderAt(t) == ValueFrom(t, Find(t, CRLF), k, |k| + 1)
  {
    hide HeaderAt, Find, ValueFrom, PlainKeyEnd, NonSpaceFrom, TrimRight;
    assert t[0] == k[0];
    NonSpaceFromIs(t, 0, 0);
    PlainKeyEndIs(t, Find(t, CRLF), 0, |k|);
    assert t[..|k|] == k;
    TrimmedIsTrimmed(k);
    PlainKeyLine(t, Find(t, CRLF), |k|);
  }

  lemma QuotedValueLineEnd(t: string, k: string, v: CString)
    requires Shape(t, k, InQuotes(v)) && NoCrlf(k) && (k != "" ==> k[|k| - 1] != '\r') && NoCrlf(v)
    ensures Find(t, CRLF) == |k| + 4 + |v|
    ensures t[|k| + 2] == '"' && t[|k| + 3 + |v|] == '"' && forall i :: 0 <= i < |v| ==> t[|k| + 3 + i] == v[i]
  {
    var q, n := InQuotes(v), |k| + 2;
    assert t[n + 0] == q[0] && t[n + (|v| + 1)] == q[|v| + 1];
    forall i | 0 <= i < |v| ensures t[n + 1 + i] == v[i] { assert t[n + (1 + i)] == q[1 + i]; }
    forall i | 0 <= i < n + |q| ensures !BreakAt(t, i) {
      if i < |k| { assert !BreakAt(k, i); }
      if n < i < n + 1 + |v| {
        assert t[n + 1 + (i - n - 1)] == v[i - n - 1];
        if i < n + |v| { assert t[n + 1 + (i - n)] == v[i - n]; }
        assert !BreakAt(v, i - n - 1);
      }
    }
    LineEndIs(t, n + |q|);
  }

  lemma QuotedValueShape(t: CString, k: CString, v: CString)
    requires Shape(t, k, InQuotes(v)) && Plain(k) && ':' !in k && NoCrlf(v)
    ensures HeaderAt(t) == GoodHeader(Header(k, v))
  {
    hide HeaderAt, Find, ValueFrom;
    QuotedValueLineEnd(t, k, v);
    PlainKeyPart(t, k, InQuotes(v));
    QuotedValueBody(t, |k| + 4 + |v|, k, v, |k| + 2);
  }

  lemma BrokenValueShape(t: CString, k: CString, v: CString, j: nat)
    requires Shape(t, k, InQuotes(v)) && Plain(k) && ':' !in k && BreakAt(v, j)
    ensures HeaderAt(t) != GoodHeader(Header(k, v))
  {
    hide Find, HeaderAt;
    var q, n, line := InQuotes(v), |k| + 2, Find(t, CRLF);
    assert t[n + (1 + j)] == q[1 + j] && t[n + (2 + j)] == q[2 + j] && t[n + 0] == q[0];
    LineNotPast(t, n + 1 + j);
    OccursIsBreak(t, line);
    assert line < |k| ==> !BreakAt(k, line);
    PlainKeyPart(t, k, q);
    NonSpaceFromIs(t, |k| + 1, n);
  }

  /* ---- Quoted keys ---- */

  /** Up to `p` the last character that is not white-space is a quote. */
  ghost predicate ClosedBefore(s: string, p: int) {
    exists l :: 0 <= l < p <= |s| && s[l] == '"' && forall m :: l < m < p ==> IsSpace(s[m])
  }

  /** A colon inside the key that the parser takes for the one behind it. */
  ghost predicate EarlyClose(k: string) {
    exists j :: 0 <= j < |k| && k[j] == ':' && ClosedBefore(k, j)
  }

  lemma {:induction false} QuotedKeyEndIs(t: string, line: nat, at: nat, last: nat, stop: nat, close: nat)
    requires last < at <= stop < |t| && last <= close < stop && !(at <= line <= stop)
    requires !IsSpace(t[last]) && forall m :: last < m < at ==> IsSpace(t[m])
    requires t[stop] == ':' && t[close] == '"' && forall m :: close < m < stop ==> IsSpace(t[m])
    requires forall p, l :: at <= p < close && t[p] == ':' && last <= l < p && t[l] == '"' ==>
               exists m :: l < m < p && !IsSpace(t[m])
    ensures QuotedKeyEnd(t, line, at, last) == Colon(stop, close)
    decreases stop - at
  {
    assert !IsSpace('"') && !IsSpace(':');
    hide IsSpace;
    if at < stop {
      QuotedKeyEndIs(t, line, at + 1, if IsSpace(t[at]) then last else at, stop, close);
    }
  }

  /** The scan stops at the latest where a colon follows a closing quote. */
  lemma {:induction false} QuotedKeyEndStops(t: string, line: nat, at: nat, last: nat, p: nat, l: nat)
    requires last < at <= p < |t| && last <= l < p && !(at <= line <= p)
    requires !IsSpace(t[last]) && forall m :: last < m < at ==> IsSpace(t[m])
    requires t[p] == ':' && t[l] == '"' && forall m :: l < m < p ==> IsSpace(t[m])
    ensures QuotedKeyEnd(t, line, at, last).Colon? && QuotedKeyEnd(t, line, at, last).last < p
    decreases p - at
  {
    if at < p && !(t[at] == ':' && t[last] == '"') {
      QuotedKeyEndStops(t, line, at + 1, if IsSpace(t[at]) then last else at, p, l);
    }
  }

  /** A line with a quoted key, white-space behind the key and a plain value. */
  function QuotedKeyLine(k: CString, blanks: CString, v: CString, rest: CString): CString {
    InQuotes(k) + blanks + ": " + v + CRLF + rest
  }

  ghost predicate QuotedShape(t: string, k: string, blanks: string, v: string) {
    var n := |k| + 2 + |blanks|;
    && n + |v| + 4 <= |t|
    && t[0] == '"' && t[|k| + 1] == '"' && t[n] == ':' && t[n + 1] == ' '
    && (forall i :: 0 <= i < |k| ==> t[1 + i] == k[i])
    && (forall i :: 0 <= i < |blanks| ==> t[|k| + 2 + i] == blanks[i])
    && (forall i :: 0 <= i < |v| ==> t[n + 2 + i] == v[i])
    && BreakAt(t, n + 2 + |v|)
  }

  lemma QuotedLineEnd(t: string, k: string, blanks: string, v: string)
    requires QuotedShape(t, k, blanks, v) && NoCrlf(k) && NoCrlf(blanks) && Plain(v)
    ensures Find(t, CRLF) == |k| + 2 + |blanks| + 2 + |v|
  {
    var n := |k| + 2 + |blanks|;
    forall i | 0 <= i < n + 2 + |v| ensures !BreakAt(t, i) {
      if 1 <= i <= |k| {
        assert !BreakAt(k, i - 1);
        assert t[1 + (i - 1)] == k[i - 1];
        if i < |k| { assert t[1 + i] == k[i]; }
      } else if |k| + 2 <= i < n {
        assert !BreakAt(blanks, i - |k| - 2);
        assert t[|k| + 2 + (i - |k| - 2)] == blanks[i - |k| - 2];
        if i + 1 < n { assert t[|k| + 2 + (i + 1 - |k| - 2)] == blanks[i + 1 - |k| - 2]; }
      } else if i >= n + 2 {
        assert !BreakAt(v, i - n - 2);
        assert t[n + 2 + (i - n - 2)] == v[i - n - 2];
        if i + 1 < n + 2 + |v| { assert t[n + 2 + (i + 1 - n - 2)] == v[i + 1 - n - 2]; }
      }
    }
    LineEndIs(t, n + 2 + |v|);
  }

  /** The key part of a line that starts with a quote. */
  lemma QuotedKeyPart(t: CString, line: nat, first: nat, at: nat, last: nat)
    requires line == Find(t, CRLF) < |t| && t[0] == '"' && first == NonSpaceFrom(t, 1) < |t|
    requires QuotedKeyEnd(t, line, first + 1, first) == Colon(at, last)
    ensures HeaderAt(t) == ValueFrom(t, line, t[1..last], at + 1)
  {
    hide Find, QuotedKeyEnd, ValueFrom;
    NonSpaceFromIs(t, 0, 0);
  }

  lemma QuotedKeyScan(t: string, k: string, blanks: string, line: nat)
    requires var n := |k| + 2 + |blanks|; n < line <= |t| && t[n] == ':' && t[|k| + 1] == '"'
    requires forall i :: 0 <= i < |k| ==> t[1 + i] == k[i]
    requires forall i :: |k| + 2 <= i < |k| + 2 + |blanks| ==> IsSpace(t[i])
    requires !EarlyClose(k)
    ensures var first := NonSpaceFrom(t, 1);
            first < |t| && QuotedKeyEnd(t, line, first + 1, first) == Colon(|k| + 2 + |blanks|, |k| + 1)
  {
    hide EarlyClose;
    var first := NonSpaceFrom(t, 1);
    assert first <= |k| + 1;
    NoEarlyStops(t, k, first);
    QuotedKeyEndIs(t, line, first + 1, first, |k| + 2 + |blanks|, |k| + 1);
  }

  lemma NoEarlyStops(t: string, k: string, first: nat)
    requires !EarlyClose(k) && 1 <= first && |k| < |t| && (forall i :: 0 <= i < |k| ==> t[1 + i] == k[i])
    ensures forall p, l :: first + 1 <= p < |k| + 1 && t[p] == ':' && first <= l < p && t[l] == '"' ==>
              exists m :: l < m < p && !IsSpace(t[m])
  {
    forall p, l | first + 1 <= p < |k| + 1 && t[p] == ':' && first <= l < p && t[l] == '"'
      ensures exists m :: l < m < p && !IsSpace(t[m])
    {
      NoEarlyCloseMeans(t, k, p, l);
    }
  }

  lemma QuotedShapeScan(t: string, k: string, blanks: string, v: string)
    requires QuotedShape(t, k, blanks, v) && (forall i :: 0 <= i < |blanks| ==> IsSpace(blanks[i])) && !EarlyClose(k)
    ensures var n, first := |k| + 2 + |blanks|, NonSpaceFrom(t, 1);
            first < |t| && QuotedKeyEnd(t, n + 2 + |v|, first + 1, first) == Colon(n, |k| + 1)
  {
    hide EarlyClose;
    var n := |k| + 2 + |blanks|;
    forall i | |k| + 2 <= i < n ensures IsSpace(t[i]) { assert t[|k| + 2 + (i - |k| - 2)] == blanks[i - |k| - 2]; }
    QuotedKeyScan(t, k, blanks, n + 2 + |v|);
  }

  lemma QuotedKeyShapeReadsBack(t: CString, k: CString, blanks: CString, v: CString)
    requires QuotedShape(t, k, blanks, v) && NoCrlf(k) && NoCrlf(blanks) && Plain(v)
    requires (forall i :: 0 <= i < |blanks| ==> IsSpace(blanks[i])) && !EarlyClose(k)
    ensures HeaderAt(t) == GoodHeader(Header(k, v))
  {
    hide HeaderAt, ValueFrom, EarlyClose, Find, NonSpaceFrom, QuotedKeyEnd;
    var n := |k| + 2 + |blanks|;
    QuotedLineEnd(t, k, blanks, v);
    QuotedShapeScan(t, k, blanks, v);
    QuotedKeyPart(t, n + 2 + |v|, NonSpaceFrom(t, 1), n, |k| + 1);
    assert t[1..|k| + 1] == k;
    PlainValueReadsBack(t, n + 2 + |v|, k, n + 1, n + 2, v);
  }

  lemma NoEarlyCloseMeans(t: string, k: string, p: nat, l: nat)
    requires !EarlyClose(k) && 1 <= l < p <= |k| < |t| && (forall i :: 0 <= i < |k| ==> t[1 + i] == k[i])
    requires t[p] == ':' && t[l] == '"'
    ensures exists m :: l < m < p && !IsSpace(t[m])
  {
    assert k[p - 1] == t[1 + (p - 1)] && k[l - 1] == t[1 + (l - 1)];
    assert !ClosedBefore(k, p - 1);
    var m :| l - 1 < m < p - 1 && !IsSpace(k[m]);
    assert t[1 + m] == k[m];
  }

  lemma EarlyCloseScan(t: CString, k: CString, line: nat)
    requires |k| + 1 < line <= |t| && (forall i :: 0 <= i < |k| ==> t[1 + i] == k[i]) && EarlyClose(k)
    ensures var first := NonSpaceFrom(t, 1);
            && first < |t| && QuotedKeyEnd(t, line, first + 1, first).Colon?
            && QuotedKeyEnd(t, line, first + 1, first).last <= |k|
  {
    hide NonSpaceFrom, QuotedKeyEnd;
    var first := NonSpaceFrom(t, 1);
    var j :| 0 <= j < |k| && k[j] == ':' && ClosedBefore(k, j);
    var l :| 0 <= l < j && k[l] == '"' && forall m :: l < m < j ==> IsSpace(k[m]);
    assert t[1 + l] == k[l] && t[1 + j] == k[j];
    forall m | 1 + l < m < 1 + j ensures IsSpace(t[m]) { assert t[1 + (m - 1)] == k[m - 1]; }
    QuotedKeyEndStops(t, line, first + 1, first, 1 + j, 1 + l);
  }

  lemma EarlyCloseDiffers(t: CString, k: CString, blanks: CString, v: CString)
    requires QuotedShape(t, k, blanks, v) && NoCrlf(k) && NoCrlf(blanks) && Plain(v) && EarlyClose(k)
    ensures HeaderAt(t) != GoodHeader(Header(k, v))
  {
    hide HeaderAt, ValueFrom, Find, NonSpaceFrom, QuotedKeyEnd, EarlyClose;
    QuotedLineEnd(t, k, blanks, v);
    var line, first := Find(t, CRLF), NonSpaceFrom(t, 1);
    EarlyCloseScan(t, k, line);
    var end := QuotedKeyEnd(t, line, first + 1, first);
    QuotedKeyPart(t, line, first, end.at, end.last);
    assert |t[1..end.last]| < |k|;
    ValueFromKey(t, line, t[1..end.last], end.at + 1);
  }

  /** A key written in quotes, followed by optional white-space and a colon, is recovered exactly
      if and only if it contains no quote that white-space and a colon follow.  A key without
      quotes inside is such a key. */
  lemma {:induction false} QuotedKeyRoundTrip(k: CString, blanks: CString, v: CString, rest: CString)
    requires NoCrlf(k) && NoCrlf(blanks) && (forall i :: 0 <= i < |blanks| ==> IsSpace(blanks[i])) && Plain(v)
    ensures HeaderAt(QuotedKeyLine(k, blanks, v, rest)) == GoodHeader(Header(k, v)) <==> !EarlyClose(k)
    ensures '"' !in k ==> !EarlyClose(k)
  {
    var t := QuotedKeyLine(k, blanks, v, rest);
    assert QuotedShape(t, k, blanks, v);
    if EarlyClose(k) {
      EarlyCloseDiffers(t, k, blanks, v);
    } else {
      QuotedKeyShapeReadsBack(t, k, blanks, v);
    }
  }

  /* ---- Lines that are rejected ---- */

  lemma {:induction false} PlainKeyEndNone(t: string, line: nat, at: nat)
    requires at <= line <= |t| && forall p :: at <= p < line ==> t[p] != ':'
    ensures PlainKeyEnd(t, line, at) == EndOfLine
    decreases line - at
  {
    if at < line { PlainKeyEndNone(t, line, at + 1); }
  }

  lemma {:induction false} QuotedKeyEndNone(t: string, line: nat, at: nat, last: nat)
    requires last < at <= line <= |t| && !IsSpace(t[last]) && forall m :: last < m < at ==> IsSpace(t[m])
    requires forall p :: at <= p < line && t[p] == ':' ==> !ClosedBefore(t, p)
    ensures QuotedKeyEnd(t, line, at, last) == EndOfLine
    decreases line - at
  {
    if at < line {
      assert t[at] == ':' && t[last] == '"' ==> ClosedBefore(t, at);
      QuotedKeyEndNone(t, line, at + 1, if IsSpace(t[at]) then last else at);
    }
  }

  /** The first line has no colon, or starts with a quote and has no colon behind a closing
      quote. */
  ghost predicate NoKey(t: string) {
    var line, start := Find(t, CRLF), NonSpaceFrom(t, 0);
    && start < line < |t|
    && if t[start] != '"' then forall p :: start <= p < line ==> t[p] != ':'
       else NonSpaceFrom(t, start + 1) < line && forall p :: start < p < line && t[p] == ':' ==> !ClosedBefore(t, p)
  }

  lemma NoKeyIsBad(t: CString)
    requires NoKey(t)
    ensures HeaderAt(t) == BadHeader
  {
    hide Find, NonSpaceFrom, ClosedBefore, ValueFrom, TrimRight;
    var line, start := Find(t, CRLF), NonSpaceFrom(t, 0);
    if t[start] != '"' {
      PlainKeyEndNone(t, line, start);
    } else {
      var first := NonSpaceFrom(t, start + 1);
      QuotedKeyEndNone(t, line, first + 1, first);
    }
  }

  /** Such a line is rejected, and with it the whole list that starts with it. */
  lemma NoKeyRejected(t: CString)
    requires NoKey(t)
    ensures HeaderAt(t) == BadHeader && HeadersAt(t) == Rejected
  {
    hide HeaderAt, Find, NonSpaceFrom, ClosedBefore;
    NoKeyIsBad(t);
  }
}
