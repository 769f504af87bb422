/** The JSON parser and printer as they are written: index loops over NUL-terminated text,
    filling buffers and a growing table. */
module Json {
  import opened Wrappers
  import opened CStrings
  import opened JsonSpec
  import opened JsonProofs
  import opened Tables

  /* ---- parse_string_token ---- */

  /** The escape whose backslash stands at `start`: the character it stands for, if it is one,
      and where the text goes on.  A four-digit escape cannot run over the closing quote at
      `close`, because a quote is no digit. */
  method ReadEscape(token: CString, start: nat, close: nat) returns (decoded: Option<char>, next: nat)
    requires start + 1 < close < |token| && token[start] == '\\' && token[close] == '"'
    ensures decoded.Some? ==> start < next <= close && decoded.value != '\0'
    ensures Unescape(token[start..close])
         == if decoded == None then None else Ahead([decoded.value], Unescape(token[next..close]))
  {
    ghost var t := token[start..close];
    var i := start + 1;
    if token[i] == 'u' {
      var isValidUnicode := true;
      i := i + 1;
      if !IsHexDigit(At(token, i)) { isValidUnicode := false; }
      i := i + 1;
      if !IsHexDigit(At(token, i)) { isValidUnicode := false; }
      i := i + 1;
      if !IsHexDigit(At(token, i)) { isValidUnicode := false; }
      i := i + 1;
      if !IsHexDigit(At(token, i)) { isValidUnicode := false; }
      if !isValidUnicode {
        return None, i;
      }
      assert t[6..] == token[i + 1..close];
      return Some(' '), i + 1;
    }
    assert t[2..] == token[i + 1..close];
    return Decoded(token[i]), i + 1;
  }

  lemma AheadGrows(done: string, ch: char, whole: Option<string>, rest: Option<string>)
    requires whole == Ahead(done, Ahead([ch], rest))
    ensures whole == Ahead(done + [ch], rest)
  {
    AheadTwice(done, [ch], rest);
  }

  lemma AheadNothing(rest: Option<string>)
    ensures Ahead("", rest) == rest
  {
    if rest.Some? { assert "" + rest.value == rest.value; }
  }

  /** The decoding loop, over the text between the opening quote and the closing one at
      `close`: every store stays inside the buffer, and leaves room for the terminator. */
  method DecodeInto(token: CString, close: nat, ret: array<char>) returns (ok: bool, retLen: nat)
    requires 1 <= close < |token| && token[close] == '"' && token[close - 1] != '\\' && ret.Length == close + 1
    modifies ret
    ensures ok ==> retLen < close && Unescape(token[1..close]) == Some(ret[..retLen])
    ensures !ok ==> Unescape(token[1..close]) == None
  {
    ghost var whole := Unescape(token[1..close]);
    retLen := 0;
    var i := 1;
    AheadNothing(whole);
    while i < close
      invariant 1 <= i <= close && retLen < i
      invariant whole == Ahead(ret[..retLen], Unescape(token[i..close]))
      decreases close - i
    {
      ghost var done := ret[..retLen];
      var ch := token[i];
      if ch == '\\' {
        var decoded, next := ReadEscape(token, i, close);
        if decoded == None {
          return false, retLen;
        }
        ch, i := decoded.value, next;
      } else {
        assert token[i..close][1..] == token[i + 1..close];
        i := i + 1;
      }
      AheadGrows(done, ch, whole, Unescape(token[i..close]));
      ret[retLen] := ch;
      retLen := retLen + 1;
      assert ret[..retLen] == done + [ch];
    }
    assert token[i..close] == "";
    assert ret[..retLen] + "" == ret[..retLen];
    ok := true;
  }

  method ParseStringToken(token: CString) returns (r: Token)
    ensures r == StringToken(token)
  {
    if At(token, 0) != '"' {
      return NoToken;
    }
    var len := 1;
    while (token[len - 1] == '\\' || At(token, len) != '"') && At(token, len) != '\0'
      invariant 1 <= len <= |token| && Scan(token, len) == Scan(token, 1)
      decreases |token| - len
    {
      len := len + 1;
    }
    if At(token, len) == '\0' {
      return NoToken;
    }
    len := len + 1;
    var ret := new char[len];
    var ok, retLen := DecodeInto(token, len - 1, ret);
    if !ok {
      return NoToken;
    }
    ghost var value := ret[..retLen];
    ret[retLen] := '\0';
    assert ret[..retLen] == value;
    r := Token(len, ret[..retLen]);
  }

  /* ---- parse_json_element ---- */

  /** The end of the value at `start`: the first comma, brace or terminator. */
  method FindValueEnd(s: CString, start: nat) returns (end: nat)
    requires start <= |s|
    ensures start <= end <= |s| && end - start == RawLength(s[start..])
  {
    end := start;
    while At(s, end) != '\0' && At(s, end) != ',' && At(s, end) != '}'
      invariant start <= end <= |s|
      invariant forall k :: start <= k < end ==> s[k] != ',' && s[k] != '}'
      decreases |s| - end
    {
      end := end + 1;
    }
    RawLengthIs(s[start..], end - start);
  }

  /** Where a member's key has been read, or has not been found. */
  lemma ElementOf(s: CString, start: CString, token: Token)
    requires start == SkipSpaces(s) && (start != "" ==> token == StringToken(start))
    ensures start == "" ==> ElementAt(s) == UndefinedElement
    ensures start != "" && token.NoToken? ==> ElementAt(s) == Bad
    ensures start != "" && token.Token? ==>
              var colon := SkipSpaces(start[token.stat..]);
              ElementAt(s) == if colon == "" || colon[0] != ':' then Bad else ValueAt(token.value, colon[1..])
  {
    hide SkipSpaces, StringToken, ValueAt;
  }

  /** The offset behind the element; `rest` is the pointer to the same place. */
  method ParseJsonElement(s: CString) returns (r: ElementOutcome, offset: nat)
    ensures r == ElementAt(s)
    ensures r.Parsed? ==> offset <= |s| && r.rest == s[offset..]
  {
    hide ElementAt, ValueAt, StringToken, SkipSpaces, NonSpaceFrom;
    offset := 0;
    var startOfKey := FindNonSpace(s, 0);
    assert s[0..] == s;
    if startOfKey == None {
      ElementOf(s, "", NoToken);
      return UndefinedElement, 0; // a null pointer is passed on
    }
    var start := s[startOfKey.value..];
    var name := ParseStringToken(start);
    ElementOf(s, start, name);
    if name.NoToken? {
      return Bad, 0;
    }
    offset := startOfKey.value + name.stat;
    assert s[offset..] == start[name.stat..];
    var colon := FindNonSpace(s, offset);
    if colon == None || s[colon.value] != ':' {
      return Bad, 0;
    }
    assert s[colon.value..][1..] == s[colon.value + 1..];
    r, offset := ParseValue(s, name.value, colon.value);
  }

  method ParseValue(s: CString, key: CString, colon: nat) returns (r: ElementOutcome, offset: nat)
    requires colon < |s| && s[colon] == ':'
    ensures r == ValueAt(key, s[colon + 1..])
    ensures r.Parsed? ==> offset <= |s| && r.rest == s[offset..]
  {
    hide ValueAt, SkipSpaces, StringToken, RawLength, NonSpaceFrom;
    var startOfValue := FindNonSpace(s, colon + 1);
    if startOfValue == None {
      ValueMissing(key, s[colon + 1..]);
      return UndefinedElement, 0; // the offset of a null pointer is used
    }
    if s[startOfValue.value] != '"' {
      r, offset := ParsePlainValue(s, key, colon, startOfValue.value);
    } else {
      r, offset := ParseQuotedValue(s, key, colon, startOfValue.value);
    }
  }

  method ParsePlainValue(s: CString, key: CString, colon: nat, start: nat) returns (r: ElementOutcome, offset: nat)
    requires colon < start < |s| && s[colon] == ':' && s[start] != '"' && NonSpaceFrom(s, colon + 1) == start
    ensures r == ValueAt(key, s[colon + 1..])
    ensures r.Parsed? ==> offset <= |s| && r.rest == s[offset..]
  {
    hide ValueAt, SkipSpaces, StringToken, RawLength, NonSpaceFrom;
    SkipSpacesFrom(s, colon + 1);
    offset := FindValueEnd(s, start);
    var last := TrimBack(s, colon, offset);
    var length: int := last - start + 1;
    var text: CString := if last < start then "" else s[start..last + 1];
    PlainValueMeaning(s, key, colon, start, offset, last, s[colon + 1..], s[offset..], text);
    if length < 0 {
      return UndefinedElement, 0; // strncpy is given a negative count
    }
    r := Parsed(s[offset..], Element(JsonNumber, key, text));
  }

  method ParseQuotedValue(s: CString, key: CString, colon: nat, start: nat) returns (r: ElementOutcome, offset: nat)
    requires colon < start < |s| && s[start] == '"' && NonSpaceFrom(s, colon + 1) == start
    ensures r == ValueAt(key, s[colon + 1..])
    ensures r.Parsed? ==> offset <= |s| && r.rest == s[offset..]
  {
    hide ValueAt, SkipSpaces, StringToken, RawLength, NonSpaceFrom;
    SkipSpacesFrom(s, colon + 1);
    var token := ParseStringToken(s[start..]);
    StringValueMeaning(s, key, colon, start);
    if token.NoToken? {
      return Bad, 0;
    }
    offset := start + token.stat;
    r := Parsed(s[offset..], Element(JsonString, key, token.value));
  }

  lemma ValueMissing(key: CString, s: CString)
    requires SkipSpaces(s) == ""
    ensures ValueAt(key, s) == UndefinedElement
  {
  }

  lemma PlainValueMeaning(s: CString, key: CString, colon: nat, start: nat, end: nat, last: nat,
                          tail: CString, after: CString, text: CString)
    requires colon < start <= end <= |s| && start < |s| && s[colon] == ':' && colon <= last < end
    requires forall k :: colon + 1 <= k < start ==> IsSpace(s[k])
    requires !IsSpace(s[start]) && !IsSpace(s[last]) && forall k :: last < k < end ==> IsSpace(s[k])
    requires tail == s[colon + 1..] && after == s[end..] && text == if last < start then "" else s[start..last + 1]
    requires SkipSpaces(tail) == s[start..] && s[start] != '"' && end - start == RawLength(s[start..])
    ensures ValueAt(key, tail) == if last - start + 1 < 0 then UndefinedElement
            else Parsed(after, Element(JsonNumber, key, text))
  {
    hide SkipSpaces, RawLength, TrimRight, StringToken;
    var rest := s[start..];
    assert rest[end - start..] == s[end..];
    assert RawValue(rest) == s[start..end];
    PlainValueTrimmed(s, colon, start, end, last);
  }

  lemma PlainValueTrimmed(s: string, colon: nat, start: nat, end: nat, last: nat)
    requires colon < start <= end <= |s| && s[colon] == ':' && colon <= last < end
    requires forall k :: colon + 1 <= k < start ==> IsSpace(s[k])
    requires start < end ==> !IsSpace(s[start])
    requires !IsSpace(s[last]) && forall k :: last < k < end ==> IsSpace(s[k])
    ensures last - start + 1 < 0 <==> start == end && |s[start..]| < |s[colon + 1..]|
    ensures last - start + 1 >= 0 ==> s[start..last + 1] == TrimRight(s[start..end])
  {
    if start == end {
      assert s[start..end] == "";
    } else {
      var raw := s[start..end];
      forall k | last - start < k < |raw| ensures IsSpace(raw[k]) { assert raw[k] == s[start + k]; }
      TrimRightKeeps(raw, last - start);
      assert raw[..last - start + 1] == s[start..last + 1];
    }
  }

  lemma StringValueMeaning(s: CString, key: CString, colon: nat, start: nat)
    requires colon < start < |s| && SkipSpaces(s[colon + 1..]) == s[start..] && s[start] == '"'
    ensures var token := StringToken(s[start..]);
            ValueAt(key, s[colon + 1..]) ==
              if token.NoToken? then Bad
              else Parsed(s[start + token.stat..], Element(JsonString, key, token.value))
  {
    var token := StringToken(s[start..]);
    if token.Token? { assert s[start..][token.stat..] == s[start + token.stat..]; }
  }

  /* ---- parse_json ---- */

  method ReadSeparator(text: CString, from: nat) returns (r: Separator)
    requires from <= |text|
    ensures r == SeparatorOf(text[from..])
  {
    var next := FindNonSpace(text, from);
    if next == None {
      return Nothing;
    }
    assert |text[from..]| - |text[next.value..]| == next.value - from;
    if text[next.value] != ',' {
      return if text[next.value] == '}' then Brace else Junk;
    }
    return Comma(next.value - from + 1);
  }

  /** What one round of the member loop finds: the end of the loop, or an element with more
      to come behind its comma. */
  datatype Round = Ends(outcome: Listed<Element>) | More(element: Element, offset: nat)

  ghost predicate RoundOf(text: CString, from: nat, r: Round)
    requires from < |text|
  {
    match r
    case Ends(outcome) => Members(text[from..]) == outcome && (outcome.Accepted? ==> |outcome.items| <= 1)
    case More(e, offset) => from < offset <= |text| && Members(text[from..]) == Prepend(e, Members(text[offset..]))
  }

  /** One round of the member loop. */
  method ParseMember(text: CString, from: nat) returns (r: Round)
    requires from < |text|
    ensures RoundOf(text, from, r)
  {
    var first := FindNonSpace(text, from);
    if first == None {
      return Ends(Rejected);
    }
    if text[first.value] == '}' {
      return Ends(Accepted([]));
    }
    if text[first.value] != '"' {
      return Ends(Rejected);
    }
    r := ParseMemberAt(text, from, first.value);
  }

  method ParseMemberAt(text: CString, from: nat, first: nat) returns (r: Round)
    requires from <= first < |text| && SkipSpaces(text[from..]) == text[first..] && text[first] == '"'
    ensures RoundOf(text, from, r)
  {
    hide ElementAt, SkipSpaces, SeparatorOf; // only its result matters here
    var start := text[first..];
    assert Members(text[from..]) == MembersFrom(start);
    var parsed, stat := ParseJsonElement(start);
    match parsed {
      case Bad =>
        return Ends(Rejected);
      case UndefinedElement =>
        return Ends(Undefined);
      case Parsed(rest, e) =>
        assert start[stat..] == text[first + stat..];
        var separator := ReadSeparator(text, first + stat);
        match separator {
          case Nothing => return Ends(Undefined); // the offset of a null pointer is used
          case Brace => return Ends(Accepted([e]));
          case Junk => return Ends(Rejected);
          case Comma(n) =>
            assert rest[n..] == text[first + stat + n..];
            return More(e, first + stat + n);
        }
    }
  }

  /** A null table stands for the NULL result; an undefined outcome means the C code leaves
      its string.  The table starts with eight entries and doubles. */
  method ParseJsonObject(text: CString) returns (outcome: Listed<Element>, table: Table?<Element>)
    ensures outcome == ParseJson(text)
    ensures outcome.Accepted? <==> table != null
    ensures table != null ==> fresh(table) && table.Valid() && table.Contents() == outcome.items
  {
    hide MembersFrom; // one round at a time
    if At(text, 0) != '{' {
      return Rejected, null;
    }
    var items := new Table<Element>(8);
    var offset := 1;
    while At(text, offset) != '\0'
      invariant 1 <= offset <= |text|
      invariant items.Valid() && fresh(items) && fresh(items.items)
      invariant ParseJson(text) == Collected(items.Contents(), Members(text[offset..]))
      decreases |text| - offset
    {
      ghost var done := items.Contents();
      var round := ParseMember(text, offset);
      match round {
        case Ends(Accepted(last)) =>
          if last != [] { items.Push(last[0]); }
          return Accepted(items.Contents()), items;
        case Ends(other) =>
          return other, null;
        case More(element, next) =>
          CollectOne(done, element, Members(text[next..]));
          items.Push(element);
          offset := next;
      }
    }
    assert items.Contents() + [] == items.Contents();
    return Accepted(items.Contents()), items;
  }

  /* ---- json_object_stringify ---- */

  lemma EscapeNone(s: string)
    requires s == ""
    ensures Escape(s) == ""
  {
  }

  lemma {:induction false} EscapeRound(s: string, i: nat)
    requires i < |s|
    ensures Escape(s[i..]) == EscapeChar(s[i]) + Escape(s[i + 1..])
  {
    assert s[i..][1..] == s[i + 1..];
  }

  /** The first pass over one string: two bytes for each character that is escaped. */
  method CountEscaped(s: CString) returns (n: nat)
    ensures n == |Escape(s)|
  {
    n := 0;
    var i := 0;
    while At(s, i) != '\0'
      invariant i <= |s| && n + |Escape(s[i..])| == |Escape(s)|
      decreases |s| - i
    {
      EscapeRound(s, i);
      if EscapeOf(s[i]) != None {
        n := n + 1;
      }
      n := n + 1;
      i := i + 1;
    }
  }

  /** The second pass over one string, writing at index `at`. */
  method FillEscaped(buf: array<char>, at: nat, s: CString) returns (end: nat)
    requires at + |Escape(s)| <= buf.Length
    modifies buf
    ensures end == at + |Escape(s)| && buf[..end] == old(buf[..at]) + Escape(s)
  {
    hide Escape;
    end := at;
    var i := 0;
    assert s[0..] == s;
    while At(s, i) != '\0'
      invariant i <= |s| && at <= end
      invariant end + |Escape(s[i..])| == at + |Escape(s)|
      invariant buf[..end] + Escape(s[i..]) == old(buf[..at]) + Escape(s)
      decreases |s| - i
    {
      ghost var before := buf[..end];
      EscapeRound(s, i);
      var escape := EscapeOf(s[i]);
      if escape != None {
        buf[end] := '\\';
        end := end + 1;
        buf[end] := escape.value;
      } else {
        buf[end] := s[i];
      }
      end := end + 1;
      assert buf[..end] == before + EscapeChar(s[i]);
      assert buf[..end] + Escape(s[i + 1..]) == before + (EscapeChar(s[i]) + Escape(s[i + 1..]));
      i := i + 1;
    }
    EscapeNone(s[i..]);
  }

  /** The printed length of the members without the commas. */
  ghost function Lengths(es: seq<Element>): nat {
    if es == [] then 0 else |RenderElement(es[0])| + Lengths(es[1..])
  }

  lemma {:induction false} RenderedLength(es: seq<Element>)
    ensures |RenderElements(es)| == Lengths(es) + if es == [] then 0 else |es| - 1
    decreases |es|
  {
    if es != [] { RenderedLength(es[1..]); }
  }

  lemma {:induction false} RenderRound(es: seq<Element>, i: nat)
    requires i < |es|
    ensures RenderElements(es[i..])
         == RenderElement(es[i]) + (if i + 1 < |es| then "," else "") + RenderElements(es[i + 1..])
    ensures Lengths(es[i..]) == |RenderElement(es[i])| + Lengths(es[i + 1..])
  {
    assert es[i..][1..] == es[i + 1..];
  }

  /** The first pass: exact if and only if there is a member; one short for an empty object,
      which has two braces and no comma less than none. */
  method CountObject(table: Table<Element>) returns (n: nat)
    requires table.Valid()
    ensures n == |Render(table.Contents())| <==> table.size != 0
    ensures table.size == 0 ==> n == |Render(table.Contents())| - 1
  {
    ghost var es := table.Contents();
    n := 0;
    assert es[0..] == es;
    for i := 0 to table.size
      invariant n + Lengths(es[i..]) == Lengths(es)
    {
      var item := table.items[i];
      assert item == es[i];
      RenderRound(es, i);
      var keyLength := CountEscaped(item.key);
      n := n + keyLength + 2 + 1;
      if item.kind.JsonString? {
        var valueLength := CountEscaped(item.value);
        n := n + valueLength + 2;
      } else {
        n := n + |item.value|;
      }
    }
    n := n + 2 + (table.size - 1);
    RenderedLength(es);
  }

  method Put(buf: array<char>, at: nat, ch: char) returns (end: nat)
    requires at < buf.Length
    modifies buf
    ensures end == at + 1 && buf[..end] == old(buf[..at]) + [ch]
  {
    buf[at] := ch;
    end := at + 1;
  }

  method FillQuoted(buf: array<char>, at: nat, s: CString) returns (end: nat)
    requires at + |Quoted(s)| <= buf.Length
    modifies buf
    ensures end == at + |Quoted(s)| && buf[..end] == old(buf[..at]) + Quoted(s)
  {
    end := Put(buf, at, '"');
    end := FillEscaped(buf, end, s);
    end := Put(buf, end, '"');
  }

  method FillElement(buf: array<char>, at: nat, item: Element) returns (end: nat)
    requires at + |RenderElement(item)| <= buf.Length
    modifies buf
    ensures end == at + |RenderElement(item)| && buf[..end] == old(buf[..at]) + RenderElement(item)
  {
    hide Quoted;
    end := FillQuoted(buf, at, item.key);
    end := Put(buf, end, ':');
    if item.kind.JsonString? {
      end := FillQuoted(buf, end, item.value);
    } else {
      end := CopyInto(buf, end, item.value);
    }
  }

  lemma NoElements(es: seq<Element>)
    requires es == []
    ensures RenderElements(es) == ""
  {
  }

  /** A member and the comma behind it, if there is one. */
  function MemberText(item: Element, comma: bool): CString {
    RenderElement(item) + if comma then "," else ""
  }

  method FillMember(buf: array<char>, at: nat, item: Element, comma: bool) returns (end: nat)
    requires at + |MemberText(item, comma)| <= buf.Length
    modifies buf
    ensures end == at + |MemberText(item, comma)| && buf[..end] == old(buf[..at]) + MemberText(item, comma)
  {
    hide RenderElement;
    end := FillElement(buf, at, item);
    if comma {
      end := Put(buf, end, ',');
    }
  }

  /** Count, allocate, fill: for an object with a member the second pass writes exactly the bytes
      the first one counted, inside the buffer, and the result is the printed object with its
      terminator.  For an empty one the terminator falls behind the buffer; null stands for that. */
  method JsonObjectStringify(table: Table<Element>) returns (result: array?<char>)
    requires table.Valid()
    ensures result == null <==> table.size == 0
    ensures result != null ==>
              && fresh(result) && result.Length == |Render(table.Contents())| + 1
              && result[..result.Length - 1] == Render(table.Contents()) && result[result.Length - 1] == '\0'
  {
    hide RenderElement, RenderElements;
    ghost var es := table.Contents();
    var retLen := CountObject(table);
    var ret := new char[retLen + 1];
    var reti: nat := Put(ret, 0, '{');
    assert es[0..] == es;
    NoElements(es[table.size..]);
    for i := 0 to table.size
      invariant reti + |RenderElements(es[i..])| + 1 == |Render(es)|
      invariant ret[..reti] + RenderElements(es[i..]) == "{" + RenderElements(es)
      invariant table.Contents() == es && table.Valid()
    {
      RenderRound(es, i);
      reti := FillMember(ret, reti, table.items[i], i + 1 < table.size);
    }
    reti := Put(ret, reti, '}');
    if reti == ret.Length {
      return null;
    }
    ret[reti] := '\0';
    assert reti == retLen;
    result := ret;
  }
}
