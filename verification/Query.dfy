/** Query strings: at most ten `key=value` pieces between ampersands. */
module Query {
  import opened Wrappers
  import opened CStrings
  import opened Splitting
  import opened Tables

  const MAX_PARAMETERS := 10

  datatype Parameter = Parameter(key: CString, value: CString)

  /* ---- What is computed ---- */

  function NonEmpty(ps: seq<string>): (r: seq<string>)
    ensures "" !in r && forall p :: p in r ==> p in ps
  {
    if ps == [] then [] else (if ps[0] == "" then [] else [ps[0]]) + NonEmpty(ps[1..])
  }

  /** What successive `strtok_r` calls return. */
  function Tokens(s: string, d: char): seq<string> {
    NonEmpty(Split(s, d))
  }

  /** A piece needs at least two fields; further ones are ignored. */
  function Pair(piece: CString): Option<Parameter> {
    TokensOfCString(piece, '=');
    var fields := Tokens(piece, '=');
    if |fields| < 2 then None else Some(Parameter(fields[0], fields[1]))
  }

  /** The pairs of the pieces, if each piece has one. */
  function Pairs(pieces: seq<CString>): (r: Option<seq<Parameter>>)
    ensures r.Some? ==> |r.value| == |pieces|
  {
    if pieces == [] then Some([])
    else
      match (Pair(pieces[0]), Pairs(pieces[1..]))
      case (Some(p), Some(ps)) => Some([p] + ps)
      case _ => None
  }

  /** One pair for each non-empty piece, in order, if there are at most ten and each has two
      non-empty fields; otherwise nothing. */
  function ParametersOf(s: CString): seq<Parameter> {
    TokensOfCString(s, '&');
    var pieces := Tokens(s, '&');
    match Pairs(pieces)
    case Some(ps) => if |pieces| <= MAX_PARAMETERS then ps else []
    case None => []
  }

  lemma TokensOfCString(s: string, d: char)
    requires '\0' !in s
    ensures forall p :: p in Tokens(s, d) ==> '\0' !in p && d !in p && p != ""
    ensures forall p, ch :: p in Tokens(s, d) && ch in p ==> ch in s
  {
    JoinSplit(s, d);
    forall p, ch | p in Tokens(s, d) && ch in p ensures ch in s { InJoin(Split(s, d), d, p, ch); }
  }

  lemma {:induction false} InJoin(ps: seq<string>, d: char, p: string, ch: char)
    requires p in ps && ch in p
    ensures ch in Join(ps, d)
    decreases |ps|
  {
    if |ps| > 1 && p != ps[0] { InJoin(ps[1..], d, p, ch); }
  }

  /* ---- strtok_r ---- */

  lemma {:induction false} TokensSkip(s: string, d: char)
    requires s != "" && s[0] == d
    ensures Tokens(s, d) == Tokens(s[1..], d)
  {
    assert ([""] + Split(s[1..], d))[1..] == Split(s[1..], d);
  }

  lemma TokensTake(w: string, rest: string, d: char)
    requires w != "" && d !in w && (rest == "" || rest[0] == d)
    ensures Tokens(w + rest, d) == [w] + Tokens(rest, d)
  {
    SplitPiece(w, rest, d);
    if rest == "" {
      assert [w][1..] == [] && NonEmpty([w]) == [w];
      assert [""][1..] == [] && Tokens("", d) == [];
    } else {
      TokensSkip(rest, d);
      assert ([w] + Split(rest[1..], d))[1..] == Split(rest[1..], d);
    }
  }

  lemma SkipAt(s: CString, i: nat, d: char)
    requires i < |s| && s[i] == d
    ensures Tokens(s[i..], d) == Tokens(s[i + 1..], d)
  {
    assert s[i..][1..] == s[i + 1..];
    TokensSkip(s[i..], d);
  }

  lemma TakeAt(s: CString, start: nat, end: nat, d: char)
    requires start < end <= |s| && d !in s[start..end] && (end == |s| || s[end] == d)
    ensures Tokens(s[start..], d) == [s[start..end]] + Tokens(s[end..], d)
  {
    assert s[start..] == s[start..end] + s[end..];
    TokensTake(s[start..end], s[end..], d);
  }

  /** The next token from `from` on, and where the following call starts. */
  method StrTok(s: CString, from: nat, d: char) returns (token: Option<CString>, save: nat)
    requires from <= |s| && d != '\0'
    ensures from <= save <= |s| && (token.Some? ==> from < save)
    ensures Tokens(s[from..], d) == match token case None => [] case Some(w) => [w] + Tokens(s[save..], d)
  {
    hide Tokens;
    var start := from;
    while At(s, start) == d
      invariant from <= start <= |s| && Tokens(s[start..], d) == Tokens(s[from..], d)
      decreases |s| - start
    {
      SkipAt(s, start, d);
      start := start + 1;
    }
    if At(s, start) == '\0' {
      NoTokens(d);
      assert s[start..] == "";
      return None, start;
    }
    var end := start;
    while At(s, end) != d && At(s, end) != '\0'
      invariant start <= end <= |s| && d !in s[start..end]
      decreases |s| - end
    {
      assert s[start..end + 1] == s[start..end] + [s[end]];
      end := end + 1;
    }
    TakeAt(s, start, end, d);
    save := end;
    if At(s, end) == d {
      SkipAt(s, end, d);
      save := end + 1;
    }
    token := Some(s[start..end]);
  }

  lemma NoTokens(d: char)
    ensures Tokens("", d) == []
  {
    assert [""][1..] == [];
  }

  /* ---- Parsing ---- */

  method ParseHttpQueryParameter(piece: CString) returns (key: Option<CString>, value: Option<CString>)
    ensures Pair(piece) == if key == None || value == None then None else Some(Parameter(key.value, value.value))
  {
    assert piece[0..] == piece;
    var save: nat;
    key, save := StrTok(piece, 0, '=');
    if key == None {
      return None, None; // nothing but separators: the second call finds nothing either
    }
    value, save := StrTok(piece, save, '=');
  }

  lemma {:induction false} PairsAppend(ps: seq<CString>, p: CString)
    ensures Pairs(ps + [p]) ==
      match (Pairs(ps), Pair(p))
      case (Some(a), Some(b)) => Some(a + [b])
      case _ => None
  {
    if ps == [] {
      assert ps + [p] == [p] && [p][1..] == [];
      if Pair(p).Some? { assert [Pair(p).value] + [] == [] + [Pair(p).value]; }
    } else {
      assert (ps + [p])[1..] == ps[1..] + [p];
      PairsAppend(ps[1..], p);
      if Pair(ps[0]).Some? && Pairs(ps[1..]).Some? && Pair(p).Some? {
        assert [Pair(ps[0]).value] + (Pairs(ps[1..]).value + [Pair(p).value])
            == [Pair(ps[0]).value] + Pairs(ps[1..]).value + [Pair(p).value];
      }
    }
  }

  lemma {:induction false} PairsPrefix(ps: seq<CString>, qs: seq<CString>)
    ensures Pairs(ps) == None ==> Pairs(ps + qs) == None
    decreases |ps|
  {
    if ps != [] {
      assert (ps + qs)[1..] == ps[1..] + qs;
      PairsPrefix(ps[1..], qs);
    }
  }

  /** Room for ten entries; NULL (false) when the table is full or the piece is no pair. */
  method InsertQueryParameter(items: Table<Parameter>, piece: CString) returns (ok: bool)
    requires items.Valid() && items.items.Length == MAX_PARAMETERS
    modifies items, items.items
    ensures items.Valid() && items.items == old(items.items)
    ensures ok <==> |old(items.Contents())| < MAX_PARAMETERS && Pair(piece).Some?
    ensures items.Contents() == old(items.Contents()) + if ok then [Pair(piece).value] else []
  {
    if items.size >= MAX_PARAMETERS {
      return false;
    }
    var key, value := ParseHttpQueryParameter(piece);
    if key == None || value == None {
      return false;
    }
    items.Push(Parameter(key.value, value.value));
    ok := true;
  }

  method ParseQueryParameters(s: CString) returns (r: seq<Parameter>)
    ensures r == ParametersOf(s)
  {
    hide Tokens, Pair;
    TokensOfCString(s, '&');
    ghost var pieces: seq<CString> := Tokens(s, '&');
    ghost var done: seq<CString> := [];
    var items := new Table<Parameter>(MAX_PARAMETERS);
    assert s[0..] == s;
    var token, save := StrTok(s, 0, '&');
    while token != None
      invariant save <= |s| && items.Valid() && fresh(items)
      invariant fresh(items.items) && items.items.Length == MAX_PARAMETERS
      invariant pieces == done + match token case None => [] case Some(w) => [w] + Tokens(s[save..], '&')
      invariant Pairs(done) == Some(items.Contents())
      decreases |s| - save, if token == None then 0 else 1
    {
      ghost var rest := Tokens(s[save..], '&');
      var w := token.value;
      assert pieces == (done + [w]) + rest;
      PairsAppend(done, w);
      var ok := InsertQueryParameter(items, w);
      if !ok {
        PairsPrefix(done + [w], rest);
        return [];
      }
      done := done + [w];
      token, save := StrTok(s, save, '&');
    }
    r := items.Contents();
    assert pieces == done;
  }

  /* ---- Rendering ---- */

  function RenderParameter(p: Parameter): CString {
    p.key + "=" + p.value
  }

  function RenderParameters(ps: seq<Parameter>): CString {
    if ps == [] then ""
    else if |ps| == 1 then RenderParameter(ps[0])
    else RenderParameter(ps[0]) + "&" + RenderParameters(ps[1..])
  }

  predicate Field(s: string) {
    s != "" && '&' !in s && '=' !in s
  }

  predicate Expressible(p: Parameter) {
    Field(p.key) && Field(p.value)
  }

  lemma FieldsOfRendered(p: Parameter)
    requires Expressible(p)
    ensures Tokens(RenderParameter(p), '=') == [p.key, p.value]
  {
    assert RenderParameter(p) == p.key + ("=" + p.value);
    TokensTake(p.key, "=" + p.value, '=');
    TokensSkip("=" + p.value, '=');
    assert p.value + "" == p.value && ("=" + p.value)[1..] == p.value;
    TokensTake(p.value, "", '=');
    assert Tokens("", '=') == [];
  }

  lemma PairOfRendered(p: Parameter)
    requires Expressible(p)
    ensures var w := RenderParameter(p); Pair(w) == Some(p) && w != "" && '&' !in w
  {
    FieldsOfRendered(p);
  }

  /** The printed parameters, one by one. */
  function Texts(ps: seq<Parameter>): (ts: seq<CString>)
    ensures |ts| == |ps|
  {
    if ps == [] then [] else [RenderParameter(ps[0])] + Texts(ps[1..])
  }

  lemma {:induction false} TokensOfRendered(ps: seq<Parameter>)
    requires forall p :: p in ps ==> Expressible(p)
    ensures Tokens(RenderParameters(ps), '&') == Texts(ps)
    decreases |ps|
  {
    hide Tokens, Pair, Expressible, RenderParameter;
    NoTokens('&');
    if ps != [] {
      var w: CString := RenderParameter(ps[0]);
      PairOfRendered(ps[0]);
      TokensOfRendered(ps[1..]);
      if |ps| == 1 {
        TokensTake(w, "", '&');
        assert w + "" == w;
      } else {
        var rest: CString := "&" + RenderParameters(ps[1..]);
        assert RenderParameters(ps) == w + rest && rest[1..] == RenderParameters(ps[1..]);
        TokensTake(w, rest, '&');
        TokensSkip(rest, '&');
      }
    }
  }

  lemma {:induction false} PairsOfTexts(ps: seq<Parameter>)
    requires forall p :: p in ps ==> Expressible(p)
    ensures Pairs(Texts(ps)) == Some(ps)
  {
    hide Pair, Expressible, RenderParameter;
    if ps != [] {
      PairOfRendered(ps[0]);
      PairsOfTexts(ps[1..]);
      assert Texts(ps)[1..] == Texts(ps[1..]);
      assert [ps[0]] + ps[1..] == ps;
    }
  }

  lemma RenderedReadsBack(ps: seq<Parameter>)
    requires forall p :: p in ps ==> Expressible(p)
    ensures var ts := Tokens(RenderParameters(ps), '&');
            |ts| == |ps| && (forall t :: t in ts ==> '\0' !in t) && Pairs(ts) == Some(ps)
  {
    hide Tokens, Pairs, Texts, Expressible, RenderParameters;
    TokensOfRendered(ps);
    PairsOfTexts(ps);
  }

  lemma {:induction false} PairsAreExpressible(pieces: seq<string>)
    requires forall p :: p in pieces ==> '\0' !in p && '&' !in p
    requires Pairs(pieces).Some?
    ensures forall p :: p in Pairs(pieces).value ==> Expressible(p)
  {
    if pieces != [] {
      TokensOfCString(pieces[0], '=');
      PairsAreExpressible(pieces[1..]);
    }
  }

  /** Rendering a list of parameters and parsing it is the identity if and only if there are at
      most ten and all keys and values are non-empty and free of both separators. */
  lemma {:induction false} QueryRoundTrip(ps: seq<Parameter>)
    ensures ParametersOf(RenderParameters(ps)) == ps
       <==> |ps| <= MAX_PARAMETERS && forall p :: p in ps ==> Expressible(p)
  {
    if forall p :: p in ps ==> Expressible(p) { RenderedReadsBack(ps); }
    OnlyExpressible(RenderParameters(ps));
  }

  /** The parser only produces expressible parameters, and at most ten. */
  lemma OnlyExpressible(s: CString)
    ensures |ParametersOf(s)| <= MAX_PARAMETERS && forall p :: p in ParametersOf(s) ==> Expressible(p)
  {
    TokensOfCString(s, '&');
    var pieces := Tokens(s, '&');
    if Pairs(pieces).Some? { PairsAreExpressible(pieces); }
  }

  /* ---- Any query ---- */

  /** Separators only. */
  predicate Only(s: string, d: char) {
    forall k :: 0 <= k < |s| ==> s[k] == d
  }

  lemma {:induction false} TokensBehind(gap: string, s: string, d: char)
    requires Only(gap, d)
    ensures Tokens(gap + s, d) == Tokens(s, d)
  {
    hide Tokens;
    if gap == "" {
      assert gap + s == s;
    } else {
      assert (gap + s)[1..] == gap[1..] + s;
      TokensSkip(gap + s, d);
      TokensBehind(gap[1..], s, d);
    }
  }

  /** A piece gives the first two fields, however many '=' stand around them, and whatever comes behind
      the next one. */
  lemma PairIsFirstTwoFields(front: CString, k: CString, gap: CString, v: CString, tail: CString)
    requires Only(front, '=') && Only(gap, '=') && gap != "" && k != "" && v != "" && '=' !in k && '=' !in v
    requires tail == "" || tail[0] == '='
    ensures Pair(front + (k + (gap + (v + tail)))) == Some(Parameter(k, v))
  {
    hide Tokens;
    var s: CString := front + (k + (gap + (v + tail)));
    TokensBehind(front, k + (gap + (v + tail)), '=');
    TokensTake(k, gap + (v + tail), '=');
    TokensBehind(gap, v + tail, '=');
    TokensTake(v, tail, '=');
    var fields := Tokens(s, '=');
    assert fields == [k] + ([v] + Tokens(tail, '='));
    assert fields[0] == k && fields[1] == v;
  }

  /** A piece with less than two fields gives nothing. */
  lemma OneFieldIsNoPair(front: CString, k: CString, gap: CString)
    requires Only(front, '=') && Only(gap, '=') && '=' !in k
    ensures Pair(front + (k + gap)) == None
  {
    hide Tokens;
    TokensBehind(front, k + gap, '=');
    TokensBehind(gap, "", '=');
    assert gap + "" == gap;
    NoTokens('=');
    if k == "" {
      assert k + gap == gap;
    } else {
      TokensTake(k, gap, '=');
    }
  }

  lemma {:induction false} PairsAre(pieces: seq<CString>)
    ensures Pairs(pieces).Some? <==> forall p :: p in pieces ==> Pair(p).Some?
    ensures Pairs(pieces).Some? ==>
              forall i :: 0 <= i < |pieces| ==> Pair(pieces[i]) == Some(Pairs(pieces).value[i])
  {
    hide Pair;
    if pieces != [] {
      PairsAre(pieces[1..]);
      forall p | p in pieces ensures p == pieces[0] || p in pieces[1..] {}
      if Pairs(pieces).Some? {
        forall i | 0 < i < |pieces| ensures Pair(pieces[i]) == Some(Pairs(pieces).value[i]) {
          assert pieces[i] == pieces[1..][i - 1];
        }
      }
    }
  }

  /** Any query is pieces between ampersands.  The empty ones are skipped; if more than ten are left, or
      one of them is no pair, nothing is read; otherwise one pair for each, in order. */
  lemma PiecesMean(pieces: seq<CString>)
    requires pieces != [] && Free(pieces, '&') && '\0' !in Join(pieces, '&')
    ensures var full, r := NonEmpty(pieces), ParametersOf(Join(pieces, '&'));
            if |full| > MAX_PARAMETERS || exists p: CString :: p in full && Pair(p) == None then r == []
            else |r| == |full| && forall i :: 0 <= i < |full| ==> '\0' !in full[i] && Pair(full[i]) == Some(r[i])
  {
    hide Pair, Pairs, Split, Join, NonEmpty;
    var s: CString := Join(pieces, '&');
    SplitJoin(pieces, '&');
    assert Tokens(s, '&') == NonEmpty(pieces);
    TokensOfCString(s, '&');
    var full: seq<CString> := NonEmpty(pieces);
    PairsAre(full);
    assert full == Tokens(s, '&');
  }
}
