/** White-space between the tokens of an object. */
module JsonSpacing {
  import opened Wrappers
  import opened CStrings
  import opened JsonSpec
  import opened JsonProofs

  /** White-space around the two parts of a member. */
  datatype Gaps = Gaps(beforeKey: CString, afterKey: CString, beforeValue: CString, afterValue: CString)

  predicate BlankGaps(g: Gaps) {
    Blank(g.beforeKey) && Blank(g.afterKey) && Blank(g.beforeValue) && Blank(g.afterValue)
  }

  function ValueText(e: Element): CString {
    if e.kind.JsonString? then Quoted(e.value) else e.value
  }

  function SpacedElement(e: Element, g: Gaps): CString {
    g.beforeKey + Quoted(e.key) + g.afterKey + ":" + (g.beforeValue + ValueText(e) + g.afterValue)
  }

  /** The members, the closing brace and what follows it. */
  function SpacedMembers(es: seq<Element>, gs: seq<Gaps>, rest: CString): CString
    requires |es| == |gs| > 0
  {
    SpacedElement(es[0], gs[0]) + if |es| == 1 then "}" + rest else "," + SpacedMembers(es[1..], gs[1..], rest)
  }

  /** An empty object has white-space between its braces only. */
  function SpacedObject(es: seq<Element>, gs: seq<Gaps>, inside: CString, rest: CString): CString
    requires |es| == |gs|
  {
    "{" + if es == [] then inside + ("}" + rest) else SpacedMembers(es, gs, rest)
  }

  /** A number without any text has no room for white-space around it: the parser would trim it
      back to the colon. */
  predicate Fits(e: Element, g: Gaps) {
    e.kind.JsonNumber? && e.value == "" ==> g.beforeValue == "" && g.afterValue == ""
  }

  /* ---- One member ---- */

  /** What is left behind a member: the white-space behind a string has not been read. */
  function Unread(e: Element, g: Gaps, rest: CString): CString {
    (if e.kind.JsonString? then g.afterValue else "") + rest
  }

  lemma SpacedString(key: CString, v: CString, g: Gaps, rest: CString)
    requires !EndsInBackslash(v) && BlankGaps(g)
    ensures ValueAt(key, g.beforeValue + Quoted(v) + g.afterValue + rest)
            == Parsed(g.afterValue + rest, Element(JsonString, key, v))
  {
    hide SkipSpaces, Blank;
    var s: CString := Quoted(v) + (g.afterValue + rest);
    assert g.beforeValue + Quoted(v) + g.afterValue + rest == g.beforeValue + s;
    SkipBlank(g.beforeValue, s);
    QuotedReadsBack(v, g.afterValue + rest);
    assert s[|Quoted(v)|..] == g.afterValue + rest;
  }

  lemma {:induction false} TrimBlank(v: string, w: string)
    requires Blank(w) && Trimmed(v) && v != ""
    ensures TrimRight(v + w) == v
  {
    TrimRightKeeps(v + w, |v| - 1);
    assert (v + w)[..|v|] == v;
  }

  lemma SpacedNumber(key: CString, v: CString, g: Gaps, rest: CString)
    requires Plain(v) && v != "" && BlankGaps(g) && ClosesValue(rest)
    ensures ValueAt(key, g.beforeValue + v + g.afterValue + rest) == Parsed(rest, Element(JsonNumber, key, v))
  {
    hide SkipSpaces, TrimRight;
    var raw: CString := v + g.afterValue;
    var s: CString := raw + rest;
    assert g.beforeValue + v + g.afterValue + rest == g.beforeValue + s;
    assert s[0] == v[0];
    SkipBlank(g.beforeValue, s);
    forall k | 0 <= k < |raw| ensures s[k] != ',' && s[k] != '}' {
      assert s[k] == raw[k];
      if k >= |v| { assert IsSpace(g.afterValue[k - |v|]); }
    }
    RawLengthIs(s, |raw|);
    assert s[..|raw|] == raw && s[|raw|..] == rest;
    TrimBlank(v, g.afterValue);
  }

  lemma SpacedNothing(key: CString, g: Gaps, rest: CString)
    requires BlankGaps(g) && ClosesValue(rest)
    ensures ValueAt(key, g.beforeValue + "" + g.afterValue + rest) ==
              if g.beforeValue + g.afterValue == "" then Parsed(rest, Element(JsonNumber, key, ""))
              else UndefinedElement
  {
    hide SkipSpaces;
    var w: CString := g.beforeValue + g.afterValue;
    assert g.beforeValue + "" + g.afterValue + rest == w + rest;
    SkipBlank(w, rest);
    RawLengthIs(rest, 0);
    assert rest[0..] == rest && rest[..0] == "";
  }

  lemma SpacedValue(e: Element, g: Gaps, rest: CString)
    requires Readable(e) && BlankGaps(g) && ClosesValue(rest)
    ensures ValueAt(e.key, g.beforeValue + ValueText(e) + g.afterValue + rest) ==
              if Fits(e, g) then Parsed(Unread(e, g, rest), e) else UndefinedElement
  {
    hide ValueAt, Quoted, BlankGaps;
    if e.kind.JsonString? {
      SpacedString(e.key, e.value, g, rest);
    } else if e.value != "" {
      SpacedNumber(e.key, e.value, g, rest);
      assert "" + rest == rest;
    } else {
      SpacedNothing(e.key, g, rest);
      assert "" + rest == rest;
      assert g.beforeValue + g.afterValue == "" <==> g.beforeValue == "" && g.afterValue == "" by {
        assert |g.beforeValue + g.afterValue| == |g.beforeValue| + |g.afterValue|;
      }
    }
  }

  lemma SpacedKey(key: CString, gap: CString, tail: CString)
    requires !EndsInBackslash(key) && Blank(gap)
    ensures ElementAt(Quoted(key) + gap + ":" + tail) == ValueAt(key, tail)
  {
    hide ValueAt, Blank, SkipSpaces;
    var colon: CString := ":" + tail;
    var text: CString := Quoted(key) + (gap + colon);
    assert Quoted(key) + gap + ":" + tail == text;
    NothingToSkip(text);
    QuotedReadsBack(key, gap + colon);
    assert text[|Quoted(key)|..] == gap + colon;
    SkipBlank(gap, colon);
    assert colon[1..] == tail;
  }

  /* ---- Lists of members ---- */

  lemma SeparatorBehind(w: CString, rest: CString)
    requires Blank(w) && ClosesValue(rest)
    ensures SeparatorOf(w + rest) == if rest[0] == ',' then Comma(|w| + 1) else Brace
  {
    hide SkipSpaces;
    SkipBlank(w, rest);
  }

  /** What the parser finds behind white-space and a member's text. */
  lemma SpacedStep(e: Element, g: Gaps, rest: CString)
    requires Readable(e) && BlankGaps(g) && ClosesValue(rest)
    ensures Members(SpacedElement(e, g) + rest) ==
              if !Fits(e, g) then Undefined
              else if rest[0] == ',' then Prepend(e, Members(rest[1..]))
              else Accepted([e])
  {
    hide ElementAt, ValueAt, SkipSpaces, Blank, Quoted, Fits, Readable, Members;
    var value: CString := g.beforeValue + ValueText(e) + g.afterValue + rest;
    var start: CString := Quoted(e.key) + g.afterKey + ":" + value;
    assert SpacedElement(e, g) + rest == g.beforeKey + start;
    QuotedStarts(e.key, g.afterKey + ":" + value);
    assert start == Quoted(e.key) + (g.afterKey + ":" + value);
    SkipBlank(g.beforeKey, start);
    KeyIsReadable(e);
    SpacedKey(e.key, g.afterKey, value);
    SpacedValue(e, g, rest);
    var w: CString := if e.kind.JsonString? then g.afterValue else "";
    BlankEmpty();
    SeparatorBehind(w, rest);
    MembersSkip(g.beforeKey + start, start);
    assert (w + rest)[|w| + 1..] == rest[1..];
  }

  lemma BlankEmpty()
    ensures Blank("")
  {
  }

  lemma KeyIsReadable(e: Element)
    requires Readable(e)
    ensures !EndsInBackslash(e.key)
  {
  }

  lemma QuotedStarts(s: CString, rest: CString)
    ensures Quoted(s) + rest != "" && (Quoted(s) + rest)[0] == '"' && !IsSpace('"')
  {
  }

  lemma MembersSkip(s: CString, start: CString)
    requires s != "" && SkipSpaces(s) == start
    ensures Members(s) == MembersFrom(start)
  {
  }

  lemma {:induction false} SpacedMembersMean(es: seq<Element>, gs: seq<Gaps>, rest: CString)
    requires |es| == |gs| > 0 && (forall e :: e in es ==> Readable(e)) && (forall g :: g in gs ==> BlankGaps(g))
    ensures Members(SpacedMembers(es, gs, rest)) ==
              if forall i :: 0 <= i < |es| ==> Fits(es[i], gs[i]) then Accepted(es) else Undefined
    decreases |es|
  {
    hide Members, SpacedElement, Readable, BlankGaps, Fits;
    var tail: CString := if |es| == 1 then "}" + rest else "," + SpacedMembers(es[1..], gs[1..], rest);
    SpacedStep(es[0], gs[0], tail);
    assert [es[0]] + es[1..] == es;
    if |es| > 1 {
      assert tail[1..] == SpacedMembers(es[1..], gs[1..], rest);
      SpacedMembersMean(es[1..], gs[1..], rest);
      assert (forall i :: 0 <= i < |es| ==> Fits(es[i], gs[i]))
        <==> Fits(es[0], gs[0]) && (forall i :: 0 <= i < |es[1..]| ==> Fits(es[1..][i], gs[1..][i])) by {
        forall i | 0 < i < |es| ensures es[i] == es[1..][i - 1] && gs[i] == gs[1..][i - 1] {}
      }
    }
  }

  lemma SpacedNoMembers(inside: CString, rest: CString)
    requires Blank(inside)
    ensures Members(inside + ("}" + rest)) == Accepted([])
  {
    hide SkipSpaces;
    var brace: CString := "}" + rest;
    SkipBlank(inside, brace);
    MembersSkip(inside + brace, brace);
  }

  /** White-space between the tokens changes nothing: with any of it the text of an object parses
      to exactly its members if and only if they are readable and no number without text has
      white-space around it.  What follows the closing brace is ignored. */
  lemma WhiteSpaceIsFree(es: seq<Element>, gs: seq<Gaps>, inside: CString, rest: CString)
    requires |es| == |gs| && Blank(inside) && forall g :: g in gs ==> BlankGaps(g)
    ensures ParseJson(SpacedObject(es, gs, inside, rest)) == Accepted(es)
       <==> (forall e :: e in es ==> Readable(e)) && forall i :: 0 <= i < |es| ==> Fits(es[i], gs[i])
  {
    hide Members, Readable, Fits, BlankGaps, SpacedMembers, Blank;
    var text := SpacedObject(es, gs, inside, rest);
    if es == [] {
      SpacedNoMembers(inside, rest);
      assert text[1..] == inside + ("}" + rest);
    } else {
      var body := SpacedMembers(es, gs, rest);
      assert text[1..] == body;
      if Members(body) == Accepted(es) { MembersAreReadable(body); }
      if forall e :: e in es ==> Readable(e) { SpacedMembersMean(es, gs, rest); }
    }
  }
}
