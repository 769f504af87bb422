/** What the header parser and printer compute, stated on strings. */
module HeaderSpec {
  import opened Wrappers
  import opened CStrings

  datatype Header = Header(key: CString, value: CString)

  const CRLF: CString := "\r\n"

  /** `UndefinedHeader` marks the lines on which the C code leaves its string: it uses a NULL
      from find_non_space, walks past the end looking for the end of the line, or trims
      back beyond the start. */
  datatype HeaderOutcome = GoodHeader(header: Header) | BadHeader | UndefinedHeader

  /** Where a key scan stops: at the end of the line, past the end of the text, or at the colon
      behind a key that ends before `last`. */
  datatype KeyEnd = EndOfLine | OffTheText | Colon(at: nat, last: nat)

  /** The scan for the colon behind an unquoted key. */
  function PlainKeyEnd(t: string, line: nat, at: nat): (r: KeyEnd)
    requires at <= |t|
    ensures r.Colon? ==>
              && at <= r.at == r.last < |t| && t[r.at] == ':'
              && !(at <= line <= r.at) && forall k :: at <= k < r.at ==> t[k] != ':'
    decreases |t| - at
  {
    if at == line then EndOfLine
    else if at == |t| then OffTheText
    else if t[at] == ':' then Colon(at, at)
    else PlainKeyEnd(t, line, at + 1)
  }

  /** The scan for a colon whose last character before it, white-space aside, is a quote. */
  function QuotedKeyEnd(t: string, line: nat, at: nat, last: nat): (r: KeyEnd)
    requires last < at <= |t|
    ensures r.Colon? ==> last <= r.last < r.at && at <= r.at < |t| && t[r.at] == ':' && t[r.last] == '"'
    decreases |t| - at
  {
    if at == line then EndOfLine
    else if at == |t| then OffTheText
    else if t[at] == ':' && t[last] == '"' then Colon(at, last)
    else QuotedKeyEnd(t, line, at + 1, if IsSpace(t[at]) then last else at)
  }

  /** One header line at the front of `t`, which may go on behind it. */
  function HeaderAt(t: CString): HeaderOutcome {
    var line := Find(t, CRLF);
    var start := NonSpaceFrom(t, 0);
    if line == |t| || start == |t| then UndefinedHeader
    else if t[start] != '"' then
      match PlainKeyEnd(t, line, start)
      case EndOfLine => BadHeader
      case OffTheText => UndefinedHeader
      case Colon(at, _) =>
        if at == start then UndefinedHeader // an empty key is trimmed back beyond the start
        else ValueFrom(t, line, TrimRight(t[start..at]), at - start + 1)
    else
      var first := NonSpaceFrom(t, start + 1);
      if first == |t| then UndefinedHeader
      else
        match QuotedKeyEnd(t, line, first + 1, first)
        case EndOfLine => BadHeader
        case OffTheText => UndefinedHeader
        case Colon(at, last) => ValueFrom(t, line, t[start + 1..last], at - start + 1)
  }

  /** The value, searched from index `from`: the distance of the colon from the key, not from
      the line. */
  function ValueFrom(t: CString, line: nat, key: CString, from: nat): HeaderOutcome
    requires from <= |t| && line < |t|
  {
    var start := NonSpaceFrom(t, from);
    if start >= line then UndefinedHeader
    else if t[start] != '"' then GoodHeader(Header(key, TrimRight(t[start..line])))
    else
      var body := TrimRight(t[start + 1..line]);
      if body == "" then UndefinedHeader
      else if body[|body| - 1] != '"' then BadHeader
      else GoodHeader(Header(key, body[..|body| - 1]))
  }

  /** What one round of the loop over header lines finds: the end, or a header and where the
      text goes on. */
  datatype HeaderRound = Stop(outcome: Listed<Header>) | Go(header: Header, rest: CString)

  /** An empty line or the end of the text ends the list. */
  function OneRound(t: CString): (r: HeaderRound)
    ensures r.Go? ==> |r.rest| < |t|
  {
    var line := Find(t, CRLF);
    if t == "" then Stop(Accepted([]))
    else if line == |t| then Stop(Rejected)
    else if line == 0 then Stop(Accepted([]))
    else
      match HeaderAt(t)
      case BadHeader => Stop(Rejected)
      case UndefinedHeader => Stop(Undefined)
      case GoodHeader(h) => Go(h, t[line + 2..])
  }

  lemma NoRound()
    ensures OneRound("") == Stop(Accepted([]))
  {
  }

  /** The header lines at the front of `t`. */
  function HeadersAt(t: CString): Listed<Header>
    decreases |t|
  {
    match OneRound(t)
    case Stop(outcome) => outcome
    case Go(h, rest) => Prepend(h, HeadersAt(rest))
  }

  lemma HeadersRound(t: CString)
    ensures match OneRound(t)
            case Stop(outcome) => HeadersAt(t) == outcome
            case Go(h, rest) => HeadersAt(t) == Prepend(h, HeadersAt(rest))
  {
    hide OneRound;
  }

  function RenderHeader(h: Header): CString {
    h.key + ": " + h.value + CRLF
  }

  function RenderHeaders(hs: seq<Header>): CString {
    if hs == [] then "" else RenderHeader(hs[0]) + RenderHeaders(hs[1..])
  }
}
