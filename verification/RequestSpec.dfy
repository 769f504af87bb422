/** Requests: the request line, the header block and the body. */
module RequestSpec {
  import opened Wrappers
  import opened CStrings
  import opened HeaderSpec
  import opened Query

  datatype Method = Get | Post | Put | Delete | Options | UnknownMethod

  datatype Version = Http10 | Http11 | Http20 | Http30 | UnknownVersion

  function ParseHttpMethod(s: CString): Method {
    if s == "GET" then Get
    else if s == "POST" then Post
    else if s == "PUT" then Put
    else if s == "DELETE" then Delete
    else if s == "OPTIONS" then Options
    else UnknownMethod
  }

  function HttpMethodStringify(m: Method): CString {
    match m
    case Get => "GET"
    case Post => "POST"
    case Put => "PUT"
    case Delete => "DELETE"
    case Options => "OPTIONS"
    case UnknownMethod => "UNKNOWN"
  }

  function ParseHttpVersion(s: CString): Version {
    if s == "HTTP/1.0" then Http10
    else if s == "HTTP/1.1" then Http11
    else if s == "HTTP/2.0" then Http20
    else if s == "HTTP/3.0" then Http30
    else UnknownVersion
  }

  function HttpVersionStringify(v: Version): CString {
    match v
    case Http10 => "HTTP/1.0"
    case Http11 => "HTTP/1.1"
    case Http20 => "HTTP/2.0"
    case Http30 => "HTTP/3.0"
    case UnknownVersion => "Unknown"
  }

  datatype Line = Line(verb: Method, path: CString, query: seq<Parameter>, version: Version)

  /** No headers (None) is the table of capacity zero that stands for headers that did
      not parse. */
  datatype Request = Request(line: Line, headers: Option<seq<Header>>, body: CString)

  datatype RequestOutcome = GoodRequest(request: Request) | NoRequest | UndefinedRequest

  /** The request line, without its line break: verb, target and version between the first two
      blanks. */
  function LineAt(line: CString): Option<Line> {
    var space := Find(line, " ");
    if space == |line| then None else BehindVerb(line[..space], line[space + 1..])
  }

  function BehindVerb(verb: CString, tail: CString): Option<Line> {
    var space := Find(tail, " ");
    if space == |tail| then None else Some(LineOf(verb, tail[..space], tail[space + 1..]))
  }

  /** The question mark is searched from the second character of the target on; behind an
      empty target that is the start of the version text. */
  function Searched(target: CString, version: CString): CString {
    if target == "" then version else target[1..]
  }

  function PathOf(target: CString, version: CString): CString {
    var mark := Find(Searched(target, version), "?");
    if target == "" || mark == |Searched(target, version)| then target else target[..mark + 1]
  }

  function QueryOf(target: CString, version: CString): seq<Parameter> {
    var mark := Find(Searched(target, version), "?");
    if mark == |Searched(target, version)| then [] else ParametersOf(Searched(target, version)[mark + 1..])
  }

  function LineOf(verb: CString, target: CString, version: CString): Line {
    Line(ParseHttpMethod(verb), PathOf(target, version), QueryOf(target, version), ParseHttpVersion(version))
  }

  const BLANK: CString := "\r\n\r\n"

  function RequestAt(text: CString): RequestOutcome {
    var end := Find(text, CRLF);
    if end == |text| then NoRequest
    else
      match LineAt(text[..end])
      case None => NoRequest
      case Some(line) => BehindLine(line, text[end + 2..])
  }

  /** The headers go up to the first empty line, which is searched behind the request line's
      own line break. */
  function BehindLine(line: Line, rest: CString): RequestOutcome {
    var blank := Find(rest, BLANK);
    if blank == |rest| then NoRequest
    else
      match HeadersAt(rest[..blank + 2])
      case Accepted(hs) => GoodRequest(Request(line, Some(hs), rest[blank + 4..]))
      case Rejected => GoodRequest(Request(line, None, rest[blank + 4..]))
      case Undefined => UndefinedRequest
  }

  /* ---- The text of a request ---- */

  function RenderTarget(l: Line): CString {
    l.path + if l.query == [] then "" else "?" + RenderParameters(l.query)
  }

  function RenderLine(l: Line): CString {
    HttpMethodStringify(l.verb) + " " + RenderTarget(l) + " " + HttpVersionStringify(l.version)
  }

  function RenderRequest(l: Line, hs: seq<Header>, body: CString): CString {
    RenderLine(l) + CRLF + (RenderHeaders(hs) + CRLF + body)
  }
}
