/** The printed text of an object piece by piece, and the texts that are not accepted. */
module JsonTexts {
  import opened Wrappers
  import opened CStrings
  import opened Splitting
  import opened JsonSpec
  import opened JsonProofs
  import opened JsonSpacing

  /* ---- The printed text ---- */

  /** Key and value with a colon between; only strings have their value in quotes. */
  function MemberText(e: Element): string {
    "\"" + Escape(e.key) + "\":" + if e.kind == JsonString then "\"" + Escape(e.value) + "\"" else e.value
  }

  function MemberTexts(es: seq<Element>): (ts: seq<string>)
    ensures |ts| == |es|
  {
    if es == [] then [] else [MemberText(es[0])] + MemberTexts(es[1..])
  }

  lemma MemberIs(e: Element)
    ensures RenderElement(e) == MemberText(e)
  {
    assert Quoted(e.key) + ":" == "\"" + Escape(e.key) + "\":";
  }

  /** The members in braces, with a comma and nothing else between them. */
  lemma {:induction false} PrintedText(es: seq<Element>)
    ensures Render(es) == "{" + Join(MemberTexts(es), ',') + "}"
  {
    MembersJoined(es);
  }

  lemma {:induction false} MembersJoined(es: seq<Element>)
    ensures RenderElements(es) == Join(MemberTexts(es), ',')
    decreases |es|
  {
    hide MemberText, RenderElement;
    if es != [] {
      MemberIs(es[0]);
      MembersJoined(es[1..]);
      assert MemberTexts(es)[1..] == MemberTexts(es[1..]);
      JoinFirst(MemberTexts(es), ',');
    }
  }

  /* ---- Other kinds ---- */

  /** The kind a printed value has when it is read: everything but a string is a number. */
  function Retyped(e: Element): Element {
    if e.kind == JsonString then e else Element(JsonNumber, e.key, e.value)
  }

  function AllRetyped(es: seq<Element>): (rs: seq<Element>)
    ensures |rs| == |es| && forall i :: 0 <= i < |es| ==> rs[i] == Retyped(es[i])
  {
    seq(|es|, i requires 0 <= i < |es| => Retyped(es[i]))
  }

  lemma {:induction false} RetypedPrintsAlike(es: seq<Element>)
    ensures RenderElements(AllRetyped(es)) == RenderElements(es)
    decreases |es|
  {
    if es != [] {
      RetypedPrintsAlike(es[1..]);
      assert AllRetyped(es)[1..] == AllRetyped(es[1..]);
      assert RenderElement(Retyped(es[0])) == RenderElement(es[0]);
    }
  }

  /** Truth values, null and nested values come back with their text, as numbers: what is read is the
      object with its kinds so changed, if and only if that object is readable. */
  lemma OtherKindsBecomeNumbers(es: seq<Element>)
    ensures ParseJson(Render(es)) == Accepted(AllRetyped(es)) <==> forall e :: e in es ==> Readable(Retyped(e))
  {
    hide Readable, RenderElements, ParseJson;
    RetypedPrintsAlike(es);
    assert Render(AllRetyped(es)) == Render(es);
    ObjectRoundTrip(AllRetyped(es));
    var rs := AllRetyped(es);
    if forall r :: r in rs ==> Readable(r) {
      forall e | e in es ensures Readable(Retyped(e)) {
        var i :| 0 <= i < |es| && es[i] == e;
        assert rs[i] in rs;
      }
    }
  }

  /* ---- Where a text may end, and where not ---- */

  /** Members with a comma behind each. */
  function Leading(es: seq<Element>): CString {
    if es == [] then "" else RenderElement(es[0]) + "," + Leading(es[1..])
  }

  /** The first member, and the others with what follows them. */
  lemma LeadingSplit(es: seq<Element>, rest: CString)
    requires es != []
    ensures Leading(es) + rest == RenderElement(es[0]) + ("," + (Leading(es[1..]) + rest))
  {
    hide RenderElement;
    Regroup(RenderElement(es[0]), ",", Leading(es[1..]), rest);
  }

  /** Behind readable members with their commas the parser is where it was in front of them. */
  lemma {:induction false} LeadingMembers(es: seq<Element>, rest: CString)
    requires forall e :: e in es ==> Readable(e)
    ensures Members(Leading(es) + rest) == Collected(es, Members(rest))
    decreases |es|
  {
    hide Members, Readable, RenderElement, ElementAt, Leading, Collected;
    if es == [] {
      LeadingNothing(rest);
      CollectNothing(Members(rest));
    } else {
      var tail: CString := "," + (Leading(es[1..]) + rest);
      var text: CString := RenderElement(es[0]) + tail;
      LeadingSplit(es, rest);
      ElementReadsBack(es[0], tail);
      ElementStarts(es[0]);
      MembersStep(text, tail, es[0]);
      assert tail[1..] == Leading(es[1..]) + rest;
      LeadingMembers(es[1..], rest);
      CollectFront(es[0], es[1..], Members(rest));
      assert [es[0]] + es[1..] == es;
    }
  }

  lemma LeadingNothing(rest: CString)
    ensures Leading([]) + rest == rest
  {
  }

  lemma CollectNothing(rest: Listed<Element>)
    ensures Collected([], rest) == rest
  {
    if rest.Accepted? { assert [] + rest.items == rest.items; }
  }

  lemma CollectFront(e: Element, es: seq<Element>, rest: Listed<Element>)
    ensures Prepend(e, Collected(es, rest)) == Collected([e] + es, rest)
  {
    if rest.Accepted? { assert [e] + (es + rest.items) == [e] + es + rest.items; }
  }

  /** What may stand where a member is expected. */
  lemma MemberExpected(w: CString, x: CString)
    requires Blank(w) && (x != "" ==> !IsSpace(x[0]))
    ensures w == "" && x == "" ==> Members(w + x) == Accepted([])
    ensures w != "" && x == "" ==> Members(w + x) == Rejected
    ensures x != "" && x[0] == '}' ==> Members(w + x) == Accepted([])
    ensures x != "" && x[0] != '}' && x[0] != '"' ==> Members(w + x) == Rejected
    ensures x != "" && x[0] == '"' && StringToken(x).NoToken? ==> Members(w + x) == Rejected
  {
    hide SkipSpaces, StringToken, Blank;
    SkipBlank(w, x);
    if w + x != "" { MembersSkip(w + x, x); }
    NothingToSkip(x);
  }

  /** A key has to be followed by a colon. */
  lemma ColonExpected(k: CString, w: CString, y: CString)
    requires !EndsInBackslash(k) && Blank(w) && (y != "" ==> !IsSpace(y[0]) && y[0] != ':')
    ensures Members(Quoted(k) + (w + y)) == Rejected
  {
    hide SkipSpaces, Blank, Quoted, StringToken;
    var x: CString := Quoted(k) + (w + y);
    QuotedStarts(k, w + y);
    QuotedReadsBack(k, w + y);
    NothingToSkip(x);
    MembersSkip(x, x);
    assert x[|Quoted(k)|..] == w + y;
    SkipBlank(w, y);
  }

  /** A member with a string value has to be followed by a comma or a closing brace. */
  lemma SeparatorExpected(k: CString, v: CString, w: CString, y: CString)
    requires !EndsInBackslash(k) && !EndsInBackslash(v) && Blank(w)
            && (y != "" ==> !IsSpace(y[0]) && y[0] != ',' && y[0] != '}')
    ensures Members(Quoted(k) + ":" + (Quoted(v) + (w + y))) == if y == "" then Undefined else Rejected
  {
    hide SkipSpaces, Blank, Quoted, StringToken, ValueAt, ElementAt;
    var value: CString := Quoted(v) + (w + y);
    var x: CString := Quoted(k) + ":" + value;
    assert x == Quoted(k) + (":" + value);
    QuotedStarts(k, ":" + value);
    NothingToSkip(x);
    MembersSkip(x, x);
    KeyReadsBack(k, value);
    StringValueReadsBack(k, v, w + y);
    SkipBlank(w, y);
  }

  /** One bad member, wherever it stands, and a missing opening brace spoil the whole text; a text
      that ends behind the opening brace, or behind a comma, does not. */
  lemma OneBadMemberSpoilsAll(es: seq<Element>, x: CString, s: CString)
    requires forall e :: e in es ==> Readable(e)
    ensures Members(x) == Rejected ==> ParseJson("{" + (Leading(es) + x)) == Rejected
    ensures Members(x) == Undefined ==> ParseJson("{" + (Leading(es) + x)) == Undefined
    ensures ParseJson("{" + Leading(es)) == Accepted(es)
    ensures s == "" || s[0] != '{' ==> ParseJson(s) == Rejected
  {
    hide Members, Readable, Leading;
    LeadingMembers(es, x);
    LeadingMembers(es, "");
    assert ("{" + (Leading(es) + x))[1..] == Leading(es) + x;
    assert Leading(es) + "" == Leading(es) && ("{" + Leading(es))[1..] == Leading(es);
    MembersNothing();
    assert es + [] == es;
  }

  lemma MembersNothing()
    ensures Members("") == Accepted([])
  {
  }

  /** Nothing but white-space behind the colon leaves the text; a string that is not closed does not. */
  lemma ValueExpected(k: CString, w: CString, x: CString)
    requires !EndsInBackslash(k) && Blank(w) && (x != "" ==> x[0] == '"')
    requires x != "" ==> StringToken(x).NoToken?
    ensures Members(Quoted(k) + ":" + (w + x)) == if x == "" then Undefined else Rejected
  {
    hide SkipSpaces, Blank, Quoted, StringToken, ElementAt;
    var text: CString := Quoted(k) + ":" + (w + x);
    assert text == Quoted(k) + (":" + (w + x));
    QuotedStarts(k, ":" + (w + x));
    NothingToSkip(text);
    MembersSkip(text, text);
    KeyReadsBack(k, w + x);
    SkipBlank(w, x);
  }

  /** A member asked for where there is only white-space leaves the text as well. */
  lemma NoMemberAtAll(w: CString)
    requires Blank(w)
    ensures ElementAt(w) == UndefinedElement
  {
    hide SkipSpaces, Blank;
    SkipBlank(w, "");
    assert w + "" == w;
  }
}
