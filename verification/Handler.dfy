/** What a request handler does with the bytes it reads into its buffer.

    The buffer is neither cleared between requests nor terminated behind the bytes read, so what
    is parsed goes on with what an earlier request, or malloc, left there. */
module Handler {
  import opened Wrappers
  import opened CStrings
  import opened HeaderSpec
  import opened HeaderProofs
  import opened RequestSpec
  import opened RequestProofs
  import opened Routes
  import Requests = Request
  import opened Tables

  /** Answer 500 or 204, call a route's function with the request, or send a static file. */
  datatype Action =
    | Reply500
    | Reply204
    | Callback(route: Route, request: Request)
    | StaticFile(path: CString)
    | UndefinedAction

  function ActionFor(routes: seq<Route>, text: CString): Action {
    match RequestAt(text)
    case NoRequest => Reply500
    case UndefinedRequest => UndefinedAction
    case GoodRequest(r) =>
      if r.line.verb == Options then Reply204
      else
        match Dispatch(routes, r.line.path, r.line.verb)
        case Some(route) => Callback(route, r)
        case None => StaticFile(r.line.path)
  }

  /** A buffer after bytes were read into its start. */
  function Overlaid(before: seq<char>, bytes: seq<char>): (b: seq<char>)
    requires |bytes| <= |before|
    ensures |b| == |before|
  {
    bytes + before[|bytes|..]
  }

  /** Nothing read is an error; a buffer without any NUL is read beyond its end. */
  function ActionAfterRead(routes: seq<Route>, buffer: seq<char>, n: nat): Action {
    if n == 0 then Reply500
    else if '\0' !in buffer then UndefinedAction
    else ActionFor(routes, TextAt(buffer, 0))
  }

  /** `read` with room for the whole buffer but one. */
  method Read(buffer: array<char>, bytes: seq<char>)
    requires |bytes| < buffer.Length
    modifies buffer
    ensures buffer[..] == Overlaid(old(buffer[..]), bytes)
  {
    for i := 0 to |bytes|
      invariant forall k :: 0 <= k < i ==> buffer[k] == bytes[k]
      invariant forall k :: i <= k < buffer.Length ==> buffer[k] == old(buffer[k])
    {
      buffer[i] := bytes[i];
    }
  }

  method HandleHttpRequest(routes: Table<Route>, buffer: array<char>, bytes: seq<char>) returns (action: Action)
    requires routes.Valid() && |bytes| < buffer.Length
    modifies buffer
    ensures buffer[..] == Overlaid(old(buffer[..]), bytes) && routes.Contents() == old(routes.Contents())
    ensures action == ActionAfterRead(old(routes.Contents()), buffer[..], |bytes|)
  {
    hide RequestAt, Dispatch, TextAt;
    Read(buffer, bytes);
    if |bytes| == 0 {
      return Reply500;
    }
    if '\0' !in buffer[..] {
      return UndefinedAction;
    }
    action := AnswerText(routes, TextAt(buffer[..], 0));
  }

  method AnswerText(routes: Table<Route>, text: CString) returns (action: Action)
    requires routes.Valid()
    ensures action == ActionFor(routes.Contents(), text)
  {
    hide RequestAt, Dispatch;
    var outcome := Requests.ParseHttpRequest(text);
    match outcome {
      case NoRequest => return Reply500;
      case UndefinedRequest => return UndefinedAction;
      case GoodRequest(request) =>
        if request.line.verb == Options {
          return Reply204;
        }
        var route := FindRoute(routes, request.line.path, request.line.verb);
        action := if route.Some? then Callback(route.value, request) else StaticFile(request.line.path);
    }
  }

  /* ---- The text in the buffer ---- */

  /** What is parsed is what was sent, and behind it what was in the buffer. */
  lemma {:induction false} TextAfterRead(before: seq<char>, sent: CString)
    requires |sent| < |before|
    ensures TextAt(Overlaid(before, sent), 0) == sent + TextAt(before, |sent|)
    ensures '\0' in Overlaid(before, sent) <==> '\0' in before[|sent|..]
  {
    var b, n, rest := Overlaid(before, sent), |sent|, TextAt(before, |sent|);
    forall k | n <= k < |b| ensures b[k] == before[k] {}
    TextBehind(b, before, n);
    PrefixText(b, 0, n);
    assert b[0..n] == sent;
    assert b == sent + before[n..];
  }

  lemma {:induction false} TextBehind(b: seq<char>, c: seq<char>, from: nat)
    requires |b| == |c| && from <= |b| && forall k :: from <= k < |b| ==> b[k] == c[k]
    ensures TextAt(b, from) == TextAt(c, from)
    decreases |b| - from
  {
    if from < |b| { TextBehind(b, c, from + 1); }
  }

  lemma {:induction false} PrefixText(b: seq<char>, from: nat, to: nat)
    requires from <= to <= |b| && '\0' !in b[from..to]
    ensures TextAt(b, from) == b[from..to] + TextAt(b, to)
    decreases |b| - from
  {
    if from < to {
      assert b[from..to] == [b[from]] + b[from + 1..to];
      PrefixText(b, from + 1, to);
    }
  }

  /** What an earlier text in the buffer leaves behind the first `n` characters. */
  function Leftover(before: seq<char>, first: CString, n: nat): CString
    requires n <= |first| <= |before|
  {
    first[n..] + TextAt(before, |first|)
  }

  /** The second of two requests that use a buffer is followed by the tail of the first, where
      that was longer. */
  lemma SecondRequestSeesFirst(before: seq<char>, first: CString, second: CString)
    requires |second| < |first| < |before|
    ensures TextAt(Overlaid(Overlaid(before, first), second), 0) == second + Leftover(before, first, |second|)
  {
    var b := Overlaid(before, first);
    TextAfterRead(b, second);
    TextAfterRead(before, first);
    PrefixText(b, |second|, |first|);
    assert b[|second|..|first|] == first[|second|..];
    forall k | |first| <= k < |b| ensures b[k] == before[k] {}
    TextBehind(b, before, |first|);
  }

  /* ---- Which route is called, and with what ---- */

  lemma LeftoverIsBody(l: Line, hs: seq<Header>, body: CString, stale: CString)
    ensures RenderRequest(l, hs, body) + stale == RenderRequest(l, hs, body + stale)
  {
  }

  lemma TextReachesItsRoute(routes: seq<Route>, l: Line, hs: seq<Header>, body: CString)
    requires Sendable(l) && hs != [] && (forall h :: h in hs ==> Clean(h)) && l.verb != Options && Unambiguous(routes)
    ensures var action, r := ActionFor(routes, RenderRequest(l, hs, body)), Request(l, Some(hs), body);
            && (forall route :: route in routes && Matches(route, l.path, l.verb) ==> action == Callback(route, r))
            && ((forall route :: route in routes ==> !Matches(route, l.path, l.verb)) ==> action == StaticFile(l.path))
  {
    hide RequestAt, RenderRequest, Sendable, Clean;
    RequestRoundTrip(l, hs, body);
    var found := Dispatch(routes, l.path, l.verb);
    forall route | route in routes && Matches(route, l.path, l.verb) ensures found == Some(route) {
      var i :| 0 <= i < |routes| && routes[i] == route;
      var j :| 0 <= j < |routes| && routes[j] == found.value;
    }
  }

  /** A sendable request read into a buffer is handed to the one route that was inserted for its
      method and path, whatever else was inserted and in whichever order, or answered from the
      static files if and only if there is none.  Its line and headers are exactly those sent;
      its body is the one sent and then what the buffer held behind the bytes read, up to a
      NUL.  So the body is exact if and only if the buffer held a NUL there; and without any NUL
      from there on the buffer is read beyond its end. */
  lemma RequestReachesItsRoute(log: seq<Route>, l: Line, hs: seq<Header>, body: CString, before: seq<char>)
    requires Sendable(l) && hs != [] && (forall h :: h in hs ==> Clean(h)) && l.verb != Options
    requires Unambiguous(InsertAll(log)) && |RenderRequest(l, hs, body)| < |before|
    ensures var routes, sent := InsertAll(log), RenderRequest(l, hs, body);
            var action := ActionAfterRead(routes, Overlaid(before, sent), |sent|);
            var got := Request(l, Some(hs), body + TextAt(before, |sent|));
            if '\0' !in before[|sent|..] then action == UndefinedAction
            else
              && (forall route :: action == Callback(route, got) <==> route in routes && Matches(route, l.path, l.verb))
              && (action == StaticFile(l.path) <==> forall route :: route in routes ==> !Matches(route, l.path, l.verb))
  {
    hide RequestAt, RenderRequest, Sendable, Clean, InsertAll, ActionFor, Overlaid, TextAt, Unambiguous;
    var sent := RenderRequest(l, hs, body);
    var stale := TextAt(before, |sent|);
    SentIsNotEmpty(l, hs, body);
    TextAfterRead(before, sent);
    LeftoverIsBody(l, hs, body, stale);
    TextReachesItsRoute(InsertAll(log), l, hs, body + stale);
  }

  lemma SentIsNotEmpty(l: Line, hs: seq<Header>, body: CString)
    ensures RenderRequest(l, hs, body) != ""
  {
  }

  /** ... that is: */
  lemma BodyIsExactExactlyWhen(routes: seq<Route>, route: Route, l: Line, hs: seq<Header>, body: CString,
                               before: seq<char>)
    requires Sendable(l) && hs != [] && (forall h :: h in hs ==> Clean(h)) && l.verb != Options
    requires Unambiguous(routes) && route in routes && Matches(route, l.path, l.verb)
    requires |RenderRequest(l, hs, body)| < |before|
    ensures var sent := RenderRequest(l, hs, body);
            ActionAfterRead(routes, Overlaid(before, sent), |sent|) == Callback(route, Request(l, Some(hs), body))
            <==> before[|sent|] == '\0'
  {
    hide RequestAt, RenderRequest, Sendable, Clean, ActionFor, Overlaid, Unambiguous, Matches;
    var sent := RenderRequest(l, hs, body);
    var stale := TextAt(before, |sent|);
    SentIsNotEmpty(l, hs, body);
    TextAfterRead(before, sent);
    LeftoverIsBody(l, hs, body, stale);
    TextReachesItsRoute(routes, l, hs, body + stale);
    assert body + stale == body <==> stale == "" by { assert |body + stale| == |body| + |stale|; }
    assert before[|sent|] == before[|sent|..][0];
  }

  /** A buffer that held a longer request hands its tail to the next one's route. */
  lemma ReuseAddsTail(routes: seq<Route>, route: Route, l: Line, hs: seq<Header>, body: CString,
                      before: seq<char>, first: CString)
    requires Sendable(l) && hs != [] && (forall h :: h in hs ==> Clean(h)) && l.verb != Options
    requires Unambiguous(routes) && route in routes && Matches(route, l.path, l.verb)
    requires |RenderRequest(l, hs, body)| < |first| < |before| && '\0' in before[|first|..]
    ensures var sent := RenderRequest(l, hs, body);
            ActionAfterRead(routes, Overlaid(Overlaid(before, first), sent), |sent|)
            == Callback(route, Request(l, Some(hs), body + Leftover(before, first, |sent|)))
  {
    hide RequestAt, RenderRequest, Sendable, Clean, ActionFor, Overlaid, Unambiguous, Matches, TextAt, Leftover;
    var sent := RenderRequest(l, hs, body);
    var stale := Leftover(before, first, |sent|);
    SentIsNotEmpty(l, hs, body);
    SecondRequestSeesFirst(before, first, sent);
    TextAfterRead(before, first);
    TailHasNul(before, first, sent);
    LeftoverIsBody(l, hs, body, stale);
    TextReachesItsRoute(routes, l, hs, body + stale);
  }

  lemma TailHasNul(before: seq<char>, first: CString, second: CString)
    requires |second| < |first| < |before| && '\0' in before[|first|..]
    ensures '\0' in Overlaid(Overlaid(before, first), second)
  {
    var k :| 0 <= k < |before| - |first| && before[|first|..][k] == '\0';
    assert Overlaid(Overlaid(before, first), second)[|first| + k] == '\0';
  }

  /* ---- The other answers ---- */

  /** A sendable request for the options gets 204, whatever the routes. */
  lemma OptionsAnswered204(routes: seq<Route>, l: Line, hs: seq<Header>, body: CString, before: seq<char>)
    requires Sendable(l) && hs != [] && (forall h :: h in hs ==> Clean(h)) && l.verb == Options
    requires |RenderRequest(l, hs, body)| < |before| && '\0' in before[|RenderRequest(l, hs, body)|..]
    ensures var sent := RenderRequest(l, hs, body);
            ActionAfterRead(routes, Overlaid(before, sent), |sent|) == Reply204
  {
    hide RequestAt, RenderRequest, Sendable, Clean, Overlaid, TextAt;
    var sent := RenderRequest(l, hs, body);
    var stale := TextAt(before, |sent|);
    SentIsNotEmpty(l, hs, body);
    TextAfterRead(before, sent);
    LeftoverIsBody(l, hs, body, stale);
    RequestRoundTrip(l, hs, body + stale);
  }

  /** 500 is answered exactly when nothing was read, or the text in the buffer is no request: without a
      line break, without two blanks in its first line, or without an empty line behind that. */
  lemma Answers500ExactlyWhen(routes: seq<Route>, buffer: seq<char>, n: nat)
    ensures ActionAfterRead(routes, buffer, n) == Reply500 <==>
              || n == 0
              || ('\0' in buffer
                  && var t := TextAt(buffer, 0);
                     || NoCrlf(t) || !TwoBlanks(t[..Find(t, CRLF)])
                     || forall k: nat :: !OccursAt(BehindFirstLine(t), BLANK, k))
  {
    hide RequestAt, TextAt, Dispatch, NoCrlf, TwoBlanks, OccursAt, BehindFirstLine, Find;
    NoRequestExactlyWhen(TextAt(buffer, 0));
  }

  /** 204 is answered for no other method. */
  lemma Only204ForOptions(routes: seq<Route>, text: CString)
    ensures ActionFor(routes, text) == Reply204 <==>
              RequestAt(text).GoodRequest? && RequestAt(text).request.line.verb == Options
  {
    hide RequestAt, Dispatch;
  }
}
