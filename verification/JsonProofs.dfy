/** Printing and parsing undo each other. */
module JsonProofs {
  import opened Wrappers
  import opened CStrings
  import opened JsonSpec

  predicate EndsInBackslash(s: string) {
    s != "" && s[|s| - 1] == '\\'
  }

  /* ---- Strings ---- */

  /** The scan stops at the first quote that no backslash precedes. */
  lemma {:induction false} ScanIs(s: string, len: nat, q: nat)
    requires 1 <= len <= q < |s| && s[q] == '"' && s[q - 1] != '\\'
    requires forall k :: len <= k < q ==> s[k] != '"' || s[k - 1] == '\\'
    ensures Scan(s, len) == q
    decreases q - len
  {
    if len < q { ScanIs(s, len + 1, q); }
  }

  /** A string token is what it should be: `stat` is one past the first quote after the opening
      one that no backslash immediately precedes, the decoded text fits the buffer, and it does
      not end in a backslash. */
  lemma TokenMeaning(s: CString)
    ensures var r := StringToken(s);
            r.Token? ==>
              && 2 <= r.stat <= |s| && s[0] == '"' && s[r.stat - 1] == '"' && s[r.stat - 2] != '\\'
              && (forall k :: 1 <= k < r.stat - 1 ==> s[k] != '"' || s[k - 1] == '\\')
              && |r.value| <= r.stat - 2
              && !EndsInBackslash(r.value)
  {
    var r := StringToken(s);
    if r.Token? {
      var t := s[1..r.stat - 1];
      if EndsInBackslash(r.value) { BackslashLast(t, r.value); }
    }
  }

  /** Only a text ending in a backslash decodes to one that does. */
  lemma {:induction false} BackslashLast(t: string, v: string)
    requires Unescape(t) == Some(v) && EndsInBackslash(v)
    ensures EndsInBackslash(t)
    decreases |t|
  {
    if t[0] != '\\' {
      if |v| > 1 { BackslashLast(t[1..], v[1..]); }
    } else if t[1] == 'u' {
      BackslashLast(t[6..], v[1..]);
    } else if |v| > 1 {
      BackslashLast(t[2..], v[1..]);
    } else {
      UnescapeEmpty(t[2..]);
    }
  }

  lemma UnescapeEmpty(t: string)
    requires Unescape(t) == Some("")
    ensures t == ""
  {
  }

  lemma UnescapeEscapeChar(ch: char, rest: string)
    ensures Unescape(EscapeChar(ch) + rest) == Ahead([ch], Unescape(rest))
  {
    var t := EscapeChar(ch) + rest;
    match EscapeOf(ch)
    case None => assert t[1..] == rest;
    case Some(c) => assert Decoded(c) == Some(ch) && c != 'u'; assert t[2..] == rest;
  }

  lemma AheadTwice(a: string, b: string, rest: Option<string>)
    ensures Ahead(a, Ahead(b, rest)) == Ahead(a + b, rest)
  {
    if rest.Some? { assert a + (b + rest.value) == a + b + rest.value; }
  }

  /** Decoding undoes escaping, whatever follows. */
  lemma {:induction false} UnescapeEscape(s: string, t: string)
    ensures Unescape(Escape(s) + t) == Ahead(s, Unescape(t))
    decreases |s|
  {
    if s == "" {
      assert Escape(s) + t == t;
      if Unescape(t).Some? { assert "" + Unescape(t).value == Unescape(t).value; }
    } else {
      UnescapeEscape(s[1..], t);
      assert Escape(s) + t == EscapeChar(s[0]) + (Escape(s[1..]) + t);
      UnescapeEscapeChar(s[0], Escape(s[1..]) + t);
      AheadTwice([s[0]], s[1..], Unescape(t));
      assert [s[0]] + s[1..] == s;
    }
  }

  /** In an escaped text every quote has a backslash before it, and it ends in a backslash
      exactly when the original does. */
  lemma {:induction false} EscapedQuotes(s: string)
    ensures forall k :: 0 <= k < |Escape(s)| && Escape(s)[k] == '"' ==> k > 0 && Escape(s)[k - 1] == '\\'
    ensures EndsInBackslash(Escape(s)) <==> EndsInBackslash(s)
    decreases |s|
  {
    if s != "" {
      EscapedQuotes(s[1..]);
      var e, r := EscapeChar(s[0]), Escape(s[1..]);
      assert Escape(s) == e + r;
      forall k | 0 <= k < |Escape(s)| && Escape(s)[k] == '"'
        ensures k > 0 && Escape(s)[k - 1] == '\\'
      {
        if k >= |e| { assert r[k - |e|] == '"'; }
      }
      if |s| == 1 { assert s[1..] == ""; } else { assert |r| > 0; }
    }
  }

  /** A printed string not ending in a backslash is read back whole. */
  lemma QuotedReadsBack(s: CString, rest: CString)
    requires !EndsInBackslash(s)
    ensures StringToken(Quoted(s) + rest) == Token(|Quoted(s)|, s)
  {
    hide Escape, Scan, Unescape;
    var e, text := Escape(s), Quoted(s) + rest;
    EscapedQuotes(s);
    UnescapeNothing();
    var q := 1 + |e|;
    forall k | 1 <= k < q
      ensures text[k] != '"' || text[k - 1] == '\\'
    {
      assert text[k] == e[k - 1];
    }
    assert text[q - 1] == if e == "" then '"' else e[|e| - 1];
    ScanIs(text, 1, q);
    assert text[1..q] == e;
    UnescapeEscape(s, "");
    assert e + "" == e && s + "" == s;
  }

  lemma UnescapeNothing()
    ensures Unescape("") == Some("")
  {
  }

  /** A printed string is read back exactly when it does not end in a backslash. */
  lemma StringRoundTrip(s: CString, rest: CString)
    ensures StringToken(Quoted(s) + rest) == Token(|Quoted(s)|, s) <==> !EndsInBackslash(s)
  {
    if EndsInBackslash(s) {
      TokenMeaning(Quoted(s) + rest);
    } else {
      QuotedReadsBack(s, rest);
    }
  }

  /* ---- Elements ---- */

  /** What a parsed element looks like, and what survives printing. */
  predicate Readable(e: Element) {
    && !EndsInBackslash(e.key)
    && match e.kind
       case JsonString => !EndsInBackslash(e.value)
       case JsonNumber => Plain(e.value)
       case _ => false
  }

  /** The text of a value that is not a string: no separator inside, no white-space around it
      and no quote in front. */
  predicate Plain(s: string) {
    ',' !in s && '}' !in s && Trimmed(s) && (s != "" ==> s[0] != '"')
  }

  lemma NumberIsPlain(start: string)
    requires start != "" && !IsSpace(start[0]) && start[0] != '"'
    ensures Plain(TrimRight(RawValue(start)))
  {
    var raw := RawValue(start);
    var t := TrimRight(raw);
    if raw != "" {
      assert raw[0] == start[0];
      assert t != "" && t[0] == raw[0];
    }
    assert forall k :: 0 <= k < |t| ==> t[k] == raw[k];
  }

  lemma ValueIsReadable(key: CString, s: CString)
    requires ValueAt(key, s).Parsed? && !EndsInBackslash(key)
    ensures Readable(ValueAt(key, s).element)
  {
    var start := SkipSpaces(s);
    if start[0] == '"' { TokenMeaning(start); } else { NumberIsPlain(start); }
  }

  /** The parser only produces readable elements. */
  lemma {:induction false} ParsedIsReadable(s: CString)
    requires ElementAt(s).Parsed?
    ensures Readable(ElementAt(s).element)
  {
    var start := SkipSpaces(s);
    TokenMeaning(start);
    var token := StringToken(start);
    ValueIsReadable(token.value, SkipSpaces(start[token.stat..])[1..]);
  }

  /** The first comma or brace ends a raw value. */
  lemma {:induction false} RawLengthIs(s: string, n: nat)
    requires n <= |s| && forall k :: 0 <= k < n ==> s[k] != ',' && s[k] != '}'
    requires n < |s| ==> s[n] == ',' || s[n] == '}'
    ensures RawLength(s) == n
    decreases n
  {
    if n > 0 { RawLengthIs(s[1..], n - 1); }
  }

  predicate ClosesValue(rest: string) {
    rest != "" && (rest[0] == ',' || rest[0] == '}')
  }

  lemma StringValueReadsBack(key: CString, value: CString, rest: CString)
    requires !EndsInBackslash(value)
    ensures ValueAt(key, Quoted(value) + rest) == Parsed(rest, Element(JsonString, key, value))
  {
    var v := Quoted(value) + rest;
    QuotedReadsBack(value, rest);
    assert SkipSpaces(v) == v;
    assert v[|Quoted(value)|..] == rest;
  }

  lemma PlainValueReadsBack(key: CString, value: CString, rest: CString)
    requires Plain(value) && ClosesValue(rest)
    ensures ValueAt(key, value + rest) == Parsed(rest, Element(JsonNumber, key, value))
  {
    var v := value + rest;
    assert v[0] == if value == "" then rest[0] else value[0];
    assert SkipSpaces(v) == v;
    RawLengthIs(v, |value|);
    assert v[..|value|] == value && v[|value|..] == rest;
    assert TrimRight(value) == value;
  }

  lemma KeyReadsBack(key: CString, tail: CString)
    requires !EndsInBackslash(key)
    ensures ElementAt(Quoted(key) + ":" + tail) == ValueAt(key, tail)
  {
    var text, colon := Quoted(key) + ":" + tail, ":" + tail;
    assert text == Quoted(key) + colon;
    QuotedReadsBack(key, colon);
    assert SkipSpaces(text) == text;
    assert text[|Quoted(key)|..] == colon && SkipSpaces(colon) == colon && colon[1..] == tail;
  }

  /** A readable member is read back, and the parser stands where it ended. */
  lemma {:induction false} ElementReadsBack(e: Element, rest: CString)
    requires Readable(e) && ClosesValue(rest)
    ensures ElementAt(RenderElement(e) + rest) == Parsed(rest, e)
  {
    var value: CString := if e.kind.JsonString? then Quoted(e.value) else e.value;
    assert RenderElement(e) + rest == Quoted(e.key) + ":" + (value + rest);
    KeyReadsBack(e.key, value + rest);
    if e.kind.JsonString? {
      StringValueReadsBack(e.key, e.value, rest);
    } else {
      PlainValueReadsBack(e.key, e.value, rest);
    }
  }

  /* ---- Objects ---- */

  /** The text of the members and what follows them. */
  function Body(es: seq<Element>, rest: CString): CString {
    RenderElements(es) + ("}" + rest)
  }

  lemma MembersStep(s: CString, tail: CString, e: Element)
    requires s != "" && s[0] == '"' && ElementAt(s) == Parsed(tail, e) && ClosesValue(tail)
    ensures Members(s) == if tail[0] == ',' then Prepend(e, Members(tail[1..])) else Accepted([e])
  {
    hide ElementAt, SkipSpaces;
    NothingToSkip(s);
    NothingToSkip(tail);
    assert Members(s) == MembersFrom(s);
  }

  /** What stands behind the first member. */
  function Tail(es: seq<Element>, rest: CString): CString
    requires es != []
  {
    if |es| == 1 then "}" + rest else "," + Body(es[1..], rest)
  }

  lemma ElementStarts(e: Element)
    ensures RenderElement(e) != "" && RenderElement(e)[0] == '"'
  {
  }

  lemma BodySplit(es: seq<Element>, rest: CString)
    requires es != []
    ensures Body(es, rest) == RenderElement(es[0]) + Tail(es, rest)
    ensures Body(es, rest)[0] == '"' && ClosesValue(Tail(es, rest))
    ensures |es| > 1 ==> Tail(es, rest)[1..] == Body(es[1..], rest)
  {
    hide RenderElement;
    ElementStarts(es[0]);
    if |es| > 1 {
      Regroup(RenderElement(es[0]), ",", RenderElements(es[1..]), "}" + rest);
    }
  }

  lemma Regroup(a: string, b: string, c: string, d: string)
    ensures a + b + c + d == a + (b + (c + d))
  {
  }

  lemma {:induction false} MembersReadBack(es: seq<Element>, rest: CString)
    requires es != [] && forall e :: e in es ==> Readable(e)
    ensures Members(Body(es, rest)) == Accepted(es)
    decreases |es|
  {
    hide ElementAt, Members, Readable, ClosesValue, RenderElements;
    var e, tail := es[0], Tail(es, rest);
    BodySplit(es, rest);
    ElementReadsBack(e, tail);
    MembersStep(Body(es, rest), tail, e);
    if |es| > 1 { MembersReadBack(es[1..], rest); }
    assert [e] + es[1..] == es;
  }

  lemma {:induction false} MembersAreReadable(s: CString)
    requires Members(s).Accepted?
    ensures forall e :: e in Members(s).items ==> Readable(e)
    decreases |s|
  {
    hide ElementAt, SkipSpaces, Readable;
    var start := SkipSpaces(s);
    if s != "" && start != "" && start[0] == '"' {
      var r := ElementAt(start);
      if r.Parsed? {
        ParsedIsReadable(start);
        var separator := SeparatorOf(r.rest);
        if separator.Comma? { MembersAreReadable(r.rest[separator.next..]); }
      }
    }
  }

  /** Parsing the text of an object gives back its members, their order, duplicates and value
      types, if and only if every member is readable. */
  lemma ObjectRoundTrip(es: seq<Element>)
    ensures ParseJson(Render(es)) == Accepted(es) <==> forall e :: e in es ==> Readable(e)
  {
    hide Readable, Members, RenderElements;
    var body: CString := Render(es)[1..];
    if es == [] {
      EmptyObject();
    } else {
      assert body == Body(es, "");
      if forall e :: e in es ==> Readable(e) { MembersReadBack(es, ""); }
    }
    if Members(body) == Accepted(es) { MembersAreReadable(body); }
  }

  lemma EmptyObject()
    ensures ParseJson(Render([])) == Accepted([])
  {
    NothingToSkip("}");
    assert Render([]) == "{}" && Render([])[1..] == "}";
    assert Members("}") == MembersFrom("}");
  }

  /** Normal form: whatever text was accepted, printing its members and parsing again gives
      the same members. */
  lemma NormalForm(text: CString, es: seq<Element>)
    requires ParseJson(text) == Accepted(es)
    ensures ParseJson(Render(es)) == Accepted(es)
  {
    MembersAreReadable(text[1..]);
    ObjectRoundTrip(es);
  }
}
