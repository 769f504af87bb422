/** The request parser as it is written: NULs are written into a copy of the text. */
module Request {
  import opened Wrappers
  import opened CStrings
  import opened HeaderSpec
  import opened Headers
  import opened Query
  import opened RequestSpec

  /** The request line in the buffer is cut at its first blank, */
  method CutRequestLine(buffer: array<char>, ghost line: CString) returns (r: Option<Line>)
    requires TextAt(buffer[..], 0) == line && |line| < buffer.Length
    modifies buffer
    ensures r == LineAt(line)
  {
    hide BehindVerb, TextAt, Find;
    var space := Find(TextAt(buffer[..], 0), " ");
    if space == |TextAt(buffer[..], 0)| {
      return None;
    }
    CutText(buffer[..], 0, space);
    WriteNul(buffer, space);
    r := CutBehindVerb(buffer, space + 1, line[..space], line[space + 1..]);
  }

  /** and behind it at its second one. */
  method CutBehindVerb(buffer: array<char>, target: nat, ghost verb: CString, ghost tail: CString)
    returns (r: Option<Line>)
    requires |verb| < target && target + |tail| < buffer.Length
    requires TextAt(buffer[..], 0) == verb && TextAt(buffer[..], target) == tail
    modifies buffer
    ensures r == BehindVerb(verb, tail)
  {
    hide *;
    var space := Find(TextAt(buffer[..], target), " ");
    BehindVerbMeaning(verb, tail);
    if space == |TextAt(buffer[..], target)| {
      return None;
    }
    VersionText(buffer[..], target, verb, tail, space);
    WriteNul(buffer, target + space);
    var line := ReadParts(buffer, target, target + space + 1, verb, tail[..space], tail[space + 1..]);
    r := Some(line);
  }

  /** The three parts in the buffer, each with its terminator. */
  method ReadParts(buffer: array<char>, target: nat, version: nat, ghost verb: CString, ghost t: CString,
                   ghost v: CString)
    returns (r: Line)
    requires target + |t| + 1 == version && version + |v| < buffer.Length
    requires TextAt(buffer[..], 0) == verb && TextAt(buffer[..], target) == t && TextAt(buffer[..], version) == v
    modifies buffer
    ensures r == LineOf(verb, t, v)
  {
    hide ParseHttpMethod, ParseHttpVersion, PathOf, QueryOf, TextAt, Find;
    var parsedMethod := ParseHttpMethod(TextAt(buffer[..], 0));
    var parsedVersion := ParseHttpVersion(TextAt(buffer[..], version));
    var path, query := CutTarget(buffer, target, t, v);
    var parameters := [];
    if query.Some? {
      parameters := ParseQueryParameters(query.value);
    }
    r := Line(parsedMethod, path, parameters, parsedVersion);
  }

  lemma BehindVerbMeaning(verb: CString, tail: CString)
    ensures var space := Find(tail, " ");
            && (space == |tail| ==> BehindVerb(verb, tail) == None)
            && (space < |tail| ==> BehindVerb(verb, tail) == Some(LineOf(verb, tail[..space], tail[space + 1..])))
  {
    hide Find, LineOf;
  }

  lemma VersionText(b: seq<char>, target: nat, verb: CString, tail: CString, space: nat)
    requires |verb| < target && target + |tail| < |b| && space < |tail|
    requires TextAt(b, 0) == verb && TextAt(b, target) == tail
    ensures TextAt(b[target + space := '\0'], 0) == verb
    ensures TextAt(b[target + space := '\0'], target) == tail[..space]
    ensures TextAt(b[target + space := '\0'], target + space + 1) == tail[space + 1..]
  {
    hide *;
    CutText(b, target, target + space);
    CutBehind(b, 0, target + space);
  }

  /** The target in the buffer is cut at the question mark; the query is copied. */
  method CutTarget(buffer: array<char>, at: nat, ghost target: CString, ghost version: CString)
    returns (path: CString, query: Option<CString>)
    requires at + |target| < buffer.Length && TextAt(buffer[..], at) == target
    requires target == "" ==> TextAt(buffer[..], at + 1) == version && at + 1 + |version| < buffer.Length
    modifies buffer
    ensures path == PathOf(target, version)
    ensures QueryOf(target, version) == match query case None => [] case Some(q) => ParametersOf(q)
  {
    hide *;
    var searched := TextAt(buffer[..], at + 1);
    SearchedText(buffer[..], at, target, version);
    var mark := Find(searched, "?");
    CutTargetMeaning(target, version, searched);
    if mark == |searched| {
      return TextAt(buffer[..], at), None;
    }
    query := Some(searched[mark + 1..]);
    path := CutAt(buffer, at, mark, target);
  }

  method CutAt(buffer: array<char>, at: nat, mark: nat, ghost target: CString) returns (path: CString)
    requires at + |target| < buffer.Length && TextAt(buffer[..], at) == target && at + 1 + mark < buffer.Length
    requires target != "" ==> mark + 1 < |target|
    modifies buffer
    ensures path == if target == "" then "" else target[..mark + 1]
  {
    hide *;
    PathText(buffer[..], at, target, mark);
    WriteNul(buffer, at + 1 + mark);
    path := TextAt(buffer[..], at);
  }

  /** Where the question mark is searched. */
  lemma SearchedText(b: seq<char>, at: nat, target: CString, version: CString)
    requires at + |target| < |b| && TextAt(b, at) == target && (target == "" ==> TextAt(b, at + 1) == version)
    ensures TextAt(b, at + 1) == if target == "" then version else target[1..]
  {
    if target != "" { SecondCharacter(b, at); }
  }

  lemma PathText(b: seq<char>, at: nat, target: CString, mark: nat)
    requires at + |target| < |b| && TextAt(b, at) == target && at + 1 + mark < |b|
    requires target != "" ==> mark + 1 < |target|
    ensures TextAt(b[at + 1 + mark := '\0'], at) == if target == "" then "" else target[..mark + 1]
  {
    hide *;
    if target == "" {
      CutBehind(b, at, at + 1 + mark);
    } else {
      CutText(b, at, at + 1 + mark);
    }
  }

  lemma CutTargetMeaning(target: CString, version: CString, searched: CString)
    requires searched == if target == "" then version else target[1..]
    ensures var mark := Find(searched, "?");
            && (mark == |searched| ==> PathOf(target, version) == target && QueryOf(target, version) == [])
            && (mark < |searched| ==>
                  && PathOf(target, version) == (if target == "" then "" else target[..mark + 1])
                  && QueryOf(target, version) == ParametersOf(searched[mark + 1..]))
  {
    hide Find, ParametersOf;
  }

  lemma SecondCharacter(b: seq<char>, from: nat)
    requires from < |b| && TextAt(b, from) != ""
    ensures TextAt(b, from + 1) == TextAt(b, from)[1..]
  {
  }

  method ParseHttpRequest(text: CString) returns (r: RequestOutcome)
    ensures r == RequestAt(text)
  {
    hide LineAt, HeadersAt, Find, TextAt;
    var buffer := Duplicate(text);
    var requestLine := Find(text, CRLF);
    if requestLine == |text| {
      return NoRequest;
    }
    CutText(buffer[..], 0, requestLine);
    WriteNul(buffer, requestLine);
    var line := CutRequestLine(buffer, text[..requestLine]);
    if line == None {
      return NoRequest;
    }
    var rest := text[requestLine + 2..];
    var bodyStart := Find(rest, BLANK);
    if bodyStart == |rest| {
      return NoRequest;
    }
    var headers, table := ParseHttpHeaders(rest[..bodyStart + 2]);
    var body := rest[bodyStart + 4..];
    match headers {
      case Undefined => r := UndefinedRequest;
      case Rejected => r := GoodRequest(RequestSpec.Request(line.value, None, body));
      case Accepted(_) => r := GoodRequest(RequestSpec.Request(line.value, Some(table.Contents()), body));
    }
  }
}
