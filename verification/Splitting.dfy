/** Cutting a text at every occurrence of a character, and gluing it together again. */
module Splitting {
  import opened CStrings

  /** The pieces between the occurrences of `d`, empty ones included. */
  function Split(s: string, d: char): (ps: seq<string>)
    ensures ps != []
  {
    if s == "" then [""]
    else if s[0] == d then [""] + Split(s[1..], d)
    else
      var ps := Split(s[1..], d);
      [[s[0]] + ps[0]] + ps[1..]
  }

  function Join(ps: seq<string>, d: char): string {
    if ps == [] then ""
    else if |ps| == 1 then ps[0]
    else ps[0] + [d] + Join(ps[1..], d)
  }

  predicate Free(ps: seq<string>, d: char) {
    forall p :: p in ps ==> d !in p
  }

  /** Gluing with a longer first piece. */
  lemma JoinLonger(ch: char, ps: seq<string>, d: char)
    requires ps != []
    ensures Join([[ch] + ps[0]] + ps[1..], d) == [ch] + Join(ps, d)
  {
    hide Join;
    var qs := [[ch] + ps[0]] + ps[1..];
    assert qs[0] == [ch] + ps[0] && qs[1..] == ps[1..];
    JoinFirst(qs, d);
    JoinFirst(ps, d);
  }

  /** Gluing, first piece first. */
  lemma JoinFirst(ps: seq<string>, d: char)
    requires ps != []
    ensures Join(ps, d) == ps[0] + if |ps| == 1 then "" else [d] + Join(ps[1..], d)
  {
  }

  /** Cutting, first character first. */
  lemma SplitStep(s: string, d: char)
    requires s != ""
    ensures var ps := Split(s[1..], d);
            Split(s, d) == if s[0] == d then [""] + ps else [[s[0]] + ps[0]] + ps[1..]
  {
  }

  lemma FreeLonger(ch: char, ps: seq<string>, d: char)
    requires ps != [] && Free(ps, d) && ch != d
    ensures Free([[ch] + ps[0]] + ps[1..], d)
  {
    forall p | p in [[ch] + ps[0]] + ps[1..] ensures d !in p { assert p == [ch] + ps[0] || p in ps; }
  }

  lemma {:induction false} JoinSplit(s: string, d: char)
    ensures Join(Split(s, d), d) == s && Free(Split(s, d), d)
  {
    hide Join, Split;
    if s == "" {
      SplitNothing(d);
      JoinFirst([""], d);
    } else {
      JoinSplit(s[1..], d);
      SplitStep(s, d);
      var ps := Split(s[1..], d);
      assert [s[0]] + s[1..] == s;
      if s[0] == d {
        JoinFirst([""] + ps, d);
        assert ([""] + ps)[1..] == ps;
      } else {
        JoinLonger(s[0], ps, d);
        FreeLonger(s[0], ps, d);
      }
    }
  }

  lemma SplitNothing(d: char)
    ensures Split("", d) == [""]
  {
  }

  /** A piece, and what the pieces behind it are. */
  lemma {:induction false} SplitPiece(p: string, s: string, d: char)
    requires d !in p && (s == "" || s[0] == d)
    ensures Split(p + s, d) == if s == "" then [p] else [p] + Split(s[1..], d)
  {
    var t := p + s;
    if p == "" {
      assert t == s;
    } else {
      assert t[1..] == p[1..] + s;
      SplitPiece(p[1..], s, d);
      assert [t[0]] + p[1..] == p;
    }
  }

  lemma {:induction false} SplitJoin(ps: seq<string>, d: char)
    requires ps != [] && Free(ps, d)
    ensures Split(Join(ps, d), d) == ps
    decreases |ps|
  {
    hide Split, Join;
    JoinFirst(ps, d);
    if |ps| == 1 {
      SplitPiece(ps[0], "", d);
      assert ps[0] + "" == ps[0] && [ps[0]] == ps;
    } else {
      var rest := [d] + Join(ps[1..], d);
      assert rest[1..] == Join(ps[1..], d);
      SplitPiece(ps[0], rest, d);
      SplitJoin(ps[1..], d);
      assert [ps[0]] + ps[1..] == ps;
    }
  }

  /** Splitting and gluing undo each other, both ways. */
  lemma SplitIsInverseOfJoin(s: string, ps: seq<string>, d: char)
    ensures ps == Split(s, d) <==> ps != [] && Free(ps, d) && Join(ps, d) == s
  {
    JoinSplit(s, d);
    if ps != [] && Free(ps, d) { SplitJoin(ps, d); }
  }
}
