/** The header parser and printer as they are written: pointers walked over the text, strings
    cut out of it, and a growing table. */
module Headers {
  import opened Wrappers
  import opened CStrings
  import opened HeaderSpec
  import opened Tables

  /** The length of a text without the white-space at its end. */
  method TrimmedLength(t: CString, start: nat, end: nat) returns (length: nat)
    requires start < end <= |t| && !IsSpace(t[start])
    ensures start + length <= end && t[start..start + length] == TrimRight(t[start..end])
  {
    var last := TrimBack(t, start, end);
    length := last - start + 1;
    LastCharacter(t, start, end, last);
    assert t[start..last + 1] == t[start..last] + [t[last]];
  }

  /** find_non_space, as an index. */
  method NextNonSpace(t: CString, from: nat) returns (i: nat)
    requires from <= |t|
    ensures i == NonSpaceFrom(t, from)
  {
    var r := FindNonSpace(t, from);
    i := if r == None then |t| else r.value;
  }

  method FindPlainKeyEnd(t: CString, line: nat, start: nat) returns (r: KeyEnd)
    requires start <= |t|
    ensures r == PlainKeyEnd(t, line, start)
  {
    var endOfKey := start;
    while endOfKey != line && At(t, endOfKey) != ':'
      invariant start <= endOfKey <= |t|
      invariant PlainKeyEnd(t, line, endOfKey) == PlainKeyEnd(t, line, start)
      decreases |t| - endOfKey
    {
      if endOfKey == |t| {
        return OffTheText;
      }
      endOfKey := endOfKey + 1;
    }
    r := if endOfKey == line then EndOfLine else Colon(endOfKey, endOfKey);
  }

  method FindQuotedKeyEnd(t: CString, line: nat, first: nat) returns (r: KeyEnd)
    requires first < |t|
    ensures r == QuotedKeyEnd(t, line, first + 1, first)
  {
    var lastNonSpace, endOfKey := first, first + 1;
    while endOfKey != line && (At(t, endOfKey) != ':' || t[lastNonSpace] != '"')
      invariant first <= lastNonSpace < endOfKey <= |t|
      invariant QuotedKeyEnd(t, line, endOfKey, lastNonSpace) == QuotedKeyEnd(t, line, first + 1, first)
      decreases |t| - endOfKey
    {
      if endOfKey == |t| {
        return OffTheText;
      }
      if !IsSpace(t[endOfKey]) {
        lastNonSpace := endOfKey;
      }
      endOfKey := endOfKey + 1;
    }
    r := if endOfKey == line then EndOfLine else Colon(endOfKey, lastNonSpace);
  }

  method ParseHttpHeader(t: CString) returns (r: HeaderOutcome)
    ensures r == HeaderAt(t)
  {
    hide Find, NonSpaceFrom, PlainKeyEnd, QuotedKeyEnd, TrimRight, ValueFrom;
    var line := Find(t, CRLF);
    var startOfKey := NextNonSpace(t, 0);
    if line == |t| || startOfKey == |t| {
      return UndefinedHeader;
    }
    if t[startOfKey] != '"' {
      var end := FindPlainKeyEnd(t, line, startOfKey);
      match end {
        case EndOfLine => return BadHeader;
        case OffTheText => return UndefinedHeader;
        case Colon(at, _) =>
          var offset := at - startOfKey + 1;
          if at == startOfKey {
            return UndefinedHeader;
          }
          var length := TrimmedLength(t, startOfKey, at);
          r := ParseHeaderValue(t, line, t[startOfKey..startOfKey + length], offset);
      }
    } else {
      var first := NextNonSpace(t, startOfKey + 1);
      if first == |t| {
        return UndefinedHeader;
      }
      var end := FindQuotedKeyEnd(t, line, first);
      match end {
        case EndOfLine => return BadHeader;
        case OffTheText => return UndefinedHeader;
        case Colon(at, last) =>
          r := ParseHeaderValue(t, line, t[startOfKey + 1..last], at - startOfKey + 1);
      }
    }
  }

  method ParseHeaderValue(t: CString, line: nat, key: CString, offset: nat) returns (r: HeaderOutcome)
    requires offset <= |t| && line < |t|
    ensures r == ValueFrom(t, line, key, offset)
  {
    hide NonSpaceFrom, TrimRight;
    var startOfValue := NextNonSpace(t, offset);
    if startOfValue >= line {
      return UndefinedHeader; // the walk to the end of the line starts behind it
    }
    if t[startOfValue] != '"' {
      var length := TrimmedLength(t, startOfValue, line);
      return GoodHeader(Header(key, t[startOfValue..startOfValue + length]));
    }
    r := ParseQuotedValue(t, line, key, startOfValue);
    QuotedValueIs(t, line, key, offset);
  }

  /** What a value that starts with a quote gives. */
  function QuotedOutcome(key: CString, body: CString): HeaderOutcome {
    if body == "" then UndefinedHeader
    else if body[|body| - 1] != '"' then BadHeader
    else GoodHeader(Header(key, body[..|body| - 1]))
  }

  lemma QuotedValueIs(t: CString, line: nat, key: CString, offset: nat)
    requires offset <= |t| && line < |t|
    requires NonSpaceFrom(t, offset) < line && t[NonSpaceFrom(t, offset)] == '"'
    ensures ValueFrom(t, line, key, offset) == QuotedOutcome(key, TrimRight(t[NonSpaceFrom(t, offset) + 1..line]))
  {
    hide NonSpaceFrom, TrimRight;
  }

  method ParseQuotedValue(t: CString, line: nat, key: CString, quote: nat) returns (r: HeaderOutcome)
    requires quote < line < |t|
    ensures r == QuotedOutcome(key, TrimRight(t[quote + 1..line]))
  {
    hide NonSpaceFrom, TrimRight;
    var lastNonSpace := NextNonSpace(t, quote + 1);
    if lastNonSpace >= line {
      TrimRightBlank(t[quote + 1..line]);
      return UndefinedHeader;
    }
    var endOfValue := lastNonSpace + 1;
    while endOfValue != line
      invariant quote < lastNonSpace < endOfValue <= line
      invariant !IsSpace(t[lastNonSpace]) && forall k :: lastNonSpace < k < endOfValue ==> IsSpace(t[k])
      decreases line - endOfValue
    {
      if !IsSpace(t[endOfValue]) {
        lastNonSpace := endOfValue;
      }
      endOfValue := endOfValue + 1;
    }
    LastCharacter(t, quote + 1, line, lastNonSpace);
    if t[lastNonSpace] != '"' {
      return BadHeader;
    }
    r := GoodHeader(Header(key, t[quote + 1..lastNonSpace]));
  }

  lemma {:induction false} TrimRightBlank(s: string)
    requires forall k :: 0 <= k < |s| ==> IsSpace(s[k])
    ensures TrimRight(s) == ""
  {
    if s != "" { TrimRightBlank(s[..|s| - 1]); }
  }

  lemma LastCharacter(t: string, start: nat, end: nat, last: nat)
    requires start <= last < end <= |t| && !IsSpace(t[last]) && forall k :: last < k < end ==> IsSpace(t[k])
    ensures TrimRight(t[start..end]) == t[start..last] + [t[last]]
  {
    var raw := t[start..end];
    forall k | last - start < k < |raw| ensures IsSpace(raw[k]) { assert raw[k] == t[start + k]; }
    TrimRightKeeps(raw, last - start);
    var n := last - start;
    assert raw[..n + 1] == raw[..n] + [raw[n]];
    assert raw[..n] == t[start..last] by {
      forall k | 0 <= k < n ensures raw[..n][k] == t[start..last][k] { assert raw[k] == t[start + k]; }
    }
    assert raw[n] == t[start + n];
  }

  lemma RoundAt(t: CString)
    requires t != ""
    ensures var line := Find(t, CRLF);
            OneRound(t) ==
              if line == |t| then Stop(Rejected)
              else if line == 0 then Stop(Accepted([]))
              else
                match HeaderAt(t)
                case BadHeader => Stop(Rejected)
                case UndefinedHeader => Stop(Undefined)
                case GoodHeader(h) => Go(h, t[line + 2..])
  {
    hide HeaderAt, Find;
  }

  /** A null table stands for the failure result (capacity zero).  The table starts with eight
      entries and doubles. */
  method ParseHttpHeaders(text: CString) returns (outcome: Listed<Header>, table: Table?<Header>)
    ensures outcome == HeadersAt(text)
    ensures outcome.Accepted? <==> table != null
    ensures table != null ==> fresh(table) && table.Valid() && table.Contents() == outcome.items
  {
    hide HeaderAt, Find, OneRound, HeadersAt;
    var items := new Table<Header>(8);
    var offset := 0;
    assert text[0..] == text;
    while At(text, offset) != '\0'
      invariant offset <= |text|
      invariant items.Valid() && fresh(items) && fresh(items.items)
      invariant HeadersAt(text) == Collected(items.Contents(), HeadersAt(text[offset..]))
      decreases |text| - offset
    {
      ghost var done := items.Contents();
      var here := text[offset..];
      var line := Find(here, CRLF);
      RoundAt(here);
      HeadersRound(here);
      if line == |here| {
        return Rejected, null;
      }
      if line == 0 {
        assert done + [] == done;
        break;
      }
      var parsed := ParseHttpHeader(here);
      match parsed {
        case BadHeader => return Rejected, null;
        case UndefinedHeader => return Undefined, null;
        case GoodHeader(h) =>
          items.Push(h);
          assert here[line + 2..] == text[offset + line + 2..];
          CollectOne(done, h, HeadersAt(text[offset + line + 2..]));
          offset := offset + line + 2;
      }
    }
    if At(text, offset) == '\0' {
      NoRound();
      HeadersRound(text[offset..]);
    }
    assert items.Contents() + [] == items.Contents();
    return Accepted(items.Contents()), items;
  }

  /* ---- http_headers_stringify ---- */

  /** `strncat`: append at the end of the string in the buffer and terminate it again. */
  method Append(buf: array<char>, length: nat, s: CString) returns (end: nat)
    requires length + |s| < buf.Length
    modifies buf
    ensures end == length + |s| && buf[..end] == old(buf[..length]) + s && buf[end] == '\0'
  {
    end := CopyInto(buf, length, s);
    buf[end] := '\0';
  }

  method AppendHeader(buf: array<char>, length: nat, header: Header) returns (end: nat)
    requires length + |RenderHeader(header)| < buf.Length
    modifies buf
    ensures end == length + |RenderHeader(header)|
    ensures buf[..end] == old(buf[..length]) + RenderHeader(header) && buf[end] == '\0'
  {
    end := Append(buf, length, header.key);
    end := Append(buf, end, ": ");
    end := Append(buf, end, header.value);
    end := Append(buf, end, "\r\n");
    assert buf[..end] == old(buf[..length]) + RenderHeader(header);
  }

  lemma {:induction false} RenderRound(hs: seq<Header>, i: nat)
    requires i < |hs|
    ensures RenderHeaders(hs[i..]) == RenderHeader(hs[i]) + RenderHeaders(hs[i + 1..])
  {
    assert hs[i..][1..] == hs[i + 1..];
  }

  lemma RenderNone(hs: seq<Header>)
    requires hs == []
    ensures RenderHeaders(hs) == ""
  {
  }

  /** No result for an empty list; otherwise the buffer is exactly one byte, for the terminator,
      larger than the printed headers, and holds them. */
  method HttpHeadersStringify(table: Table<Header>) returns (result: array?<char>)
    requires table.Valid()
    ensures result == null <==> table.size == 0
    ensures result != null ==>
              && fresh(result) && result.Length == |RenderHeaders(table.Contents())| + 1
              && result[..result.Length - 1] == RenderHeaders(table.Contents()) && result[result.Length - 1] == '\0'
  {
    hide RenderHeaders;
    if table.size == 0 {
      return null;
    }
    ghost var hs := table.Contents();
    var totalLength := 0;
    assert hs[0..] == hs;
    for i := 0 to table.size
      invariant totalLength + |RenderHeaders(hs[i..])| == |RenderHeaders(hs)|
    {
      RenderRound(hs, i);
      totalLength := totalLength + |table.items[i].key| + |table.items[i].value| + 4;
    }
    RenderNone(hs[table.size..]);
    var buf := new char[totalLength + 1](_ => '\0');
    var length: nat := 0;
    for i := 0 to table.size
      invariant table.Contents() == hs && table.Valid()
      invariant length + |RenderHeaders(hs[i..])| == totalLength && buf[length] == '\0'
      invariant buf[..length] + RenderHeaders(hs[i..]) == RenderHeaders(hs)
    {
      RenderRound(hs, i);
      var header := table.items[i];
      length := AppendHeader(buf, length, header);
    }
    RenderNone(hs[table.size..]);
    result := buf;
  }
}
