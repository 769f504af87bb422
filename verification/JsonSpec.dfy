/** What the JSON parser and printer compute, stated on strings. */
module JsonSpec {
  import opened Wrappers
  import opened CStrings

  datatype Kind = JsonObject | JsonArray | JsonNumber | JsonString | JsonBoolean | JsonNull

  datatype Element = Element(kind: Kind, key: CString, value: CString)

  /* ---- parse_string_token ---- */

  /** The position where the scan for the closing quote stops: the first quote at or after `len`
      that no backslash immediately precedes, or the terminator. */
  function Scan(s: string, len: nat): (r: nat)
    requires 1 <= len <= |s|
    ensures len <= r <= |s|
    ensures r < |s| ==> s[r] == '"' && s[r - 1] != '\\'
    ensures forall k :: len <= k < r ==> s[k] != '"' || s[k - 1] == '\\'
    decreases |s| - len
  {
    if len < |s| && (s[len - 1] == '\\' || s[len] != '"') then Scan(s, len + 1) else len
  }

  predicate IsHexDigit(ch: char) {
    '0' <= ch <= '9' || 'a' <= ch <= 'f' || 'A' <= ch <= 'F'
  }

  /** The character a two-character escape stands for. */
  function Decoded(ch: char): Option<char> {
    match ch
    case '"' => Some('"')
    case '\\' => Some('\\')
    case '/' => Some('/')
    case 'b' => Some(8 as char)
    case 'f' => Some(12 as char)
    case 'n' => Some('\n')
    case 'r' => Some('\r')
    case 't' => Some('\t')
    case _ => None
  }

  /** `prefix` in front of a decoded rest, if there is one. */
  function Ahead(prefix: string, rest: Option<string>): Option<string> {
    match rest
    case None => None
    case Some(r) => Some(prefix + r)
  }

  /** The text between the quotes with its escapes resolved.  A four-digit escape becomes a
      blank; every character that is not part of an escape stands for itself. */
  function Unescape(t: string): (r: Option<string>)
    ensures r.Some? ==> |r.value| <= |t|
    ensures r.Some? && '\0' !in t ==> '\0' !in r.value
  {
    if t == "" then Some("")
    else if t[0] != '\\' then Ahead([t[0]], Unescape(t[1..]))
    else if |t| == 1 then None
    else if t[1] == 'u' then
      if |t| >= 6 && IsHexDigit(t[2]) && IsHexDigit(t[3]) && IsHexDigit(t[4]) && IsHexDigit(t[5])
      then Ahead(" ", Unescape(t[6..])) else None
    else
      match Decoded(t[1])
      case None => None
      case Some(ch) => Ahead([ch], Unescape(t[2..]))
  }

  /** `stat` characters were read, both quotes included. */
  datatype Token = NoToken | Token(stat: nat, value: CString)

  function StringToken(s: CString): (r: Token)
    ensures r.Token? ==> 2 <= r.stat <= |s|
  {
    if At(s, 0) != '"' then NoToken
    else
      var q := Scan(s, 1);
      if q == |s| then NoToken
      else
        match Unescape(s[1..q])
        case None => NoToken
        case Some(v) => Token(q + 1, v)
  }

  /* ---- parse_json_element ---- */

  /** `UndefinedElement` marks the inputs on which the C code leaves its string: it uses the NULL that
      find_non_space returned, or copies a negative number of characters. */
  datatype ElementOutcome = Parsed(rest: CString, element: Element) | Bad | UndefinedElement

  /** The number of characters before the first comma or closing brace. */
  function RawLength(s: string): (n: nat)
    ensures n <= |s| && forall k :: 0 <= k < n ==> s[k] != ',' && s[k] != '}'
    ensures n < |s| ==> s[n] == ',' || s[n] == '}'
  {
    if s == "" || s[0] == ',' || s[0] == '}' then 0 else 1 + RawLength(s[1..])
  }

  function RawValue(s: string): string {
    s[..RawLength(s)]
  }

  function ElementAt(s: CString): (r: ElementOutcome)
    ensures r.Parsed? ==> |r.rest| < |s|
  {
    var start := SkipSpaces(s);
    if start == "" then UndefinedElement
    else
      match StringToken(start)
      case NoToken => Bad
      case Token(stat, key) =>
        var colon := SkipSpaces(start[stat..]);
        if colon == "" || colon[0] != ':' then Bad else ValueAt(key, colon[1..])
  }

  /** Behind the colon. */
  function ValueAt(key: CString, s: CString): (r: ElementOutcome)
    ensures r.Parsed? ==> |r.rest| <= |s|
  {
    var start := SkipSpaces(s);
    if start == "" then UndefinedElement
    else if start[0] == '"' then
      match StringToken(start)
      case NoToken => Bad
      case Token(stat, value) => Parsed(start[stat..], Element(JsonString, key, value))
    else
      var raw := RawValue(start);
      if raw == "" && |start| < |s| then UndefinedElement // trimming runs back to the colon
      else Parsed(start[RawLength(start)..], Element(JsonNumber, key, TrimRight(raw)))
  }

  /* ---- parse_json ---- */

  /** The members from here on. */
  function Members(s: CString): Listed<Element>
    decreases |s|, 1
  {
    if s == "" then Accepted([]) else MembersFrom(SkipSpaces(s))
  }

  /** The same behind the white-space. */
  function MembersFrom(start: CString): Listed<Element>
    decreases |start|, 0
  {
    if start == "" then Rejected
    else if start[0] == '}' then Accepted([])
    else if start[0] != '"' then Rejected
    else
      match ElementAt(start)
      case Bad => Rejected
      case UndefinedElement => Undefined
      case Parsed(rest, e) =>
        match SeparatorOf(rest)
        case Nothing => Undefined
        case Brace => Accepted([e])
        case Comma(n) => Prepend(e, Members(rest[n..]))
        case Junk => Rejected
  }

  /** What stands behind an element: the end of the text, a brace, a comma (and where the text
      goes on) or something else. */
  datatype Separator = Nothing | Brace | Comma(next: nat) | Junk

  function SeparatorOf(s: string): (r: Separator)
    ensures r.Comma? ==> 0 < r.next <= |s|
  {
    var next := SkipSpaces(s);
    if next == "" then Nothing
    else if next[0] == ',' then Comma(|s| - |next| + 1)
    else if next[0] == '}' then Brace
    else Junk
  }

  /** The whole text; what follows the closing brace is ignored. */
  function ParseJson(s: CString): Listed<Element> {
    if At(s, 0) != '{' then Rejected else Members(s[1..])
  }

  /* ---- json_object_stringify ---- */

  /** The character behind the backslash, for those that are printed as two. */
  function EscapeOf(ch: char): Option<char> {
    if ch == '"' then Some('"')
    else if ch == '\\' then Some('\\')
    else if ch == '/' then Some('/')
    else if ch == 8 as char then Some('b')
    else if ch == 12 as char then Some('f')
    else if ch == '\n' then Some('n')
    else if ch == '\r' then Some('r')
    else if ch == '\t' then Some('t')
    else None
  }

  function EscapeChar(ch: char): string {
    match EscapeOf(ch)
    case None => [ch]
    case Some(c) => ['\\', c]
  }

  function Escape(s: string): (r: string)
    ensures '\0' !in s ==> '\0' !in r
  {
    if s == "" then "" else EscapeChar(s[0]) + Escape(s[1..])
  }

  function Quoted(s: CString): CString {
    "\"" + Escape(s) + "\""
  }

  function RenderElement(e: Element): CString {
    Quoted(e.key) + ":" + if e.kind.JsonString? then Quoted(e.value) else e.value
  }

  function RenderElements(es: seq<Element>): CString {
    if es == [] then ""
    else if |es| == 1 then RenderElement(es[0])
    else RenderElement(es[0]) + "," + RenderElements(es[1..])
  }

  function Render(es: seq<Element>): CString {
    "{" + RenderElements(es) + "}"
  }
}
