/** Results shared by the other modules. */
module Wrappers {
  /** The usual optional value: a C pointer that may be NULL. */
  datatype Option<+T> = None | Some(value: T)

  /** What parsing a list gives; undefined where the C code leaves its string. */
  datatype Listed<+T> = Accepted(items: seq<T>) | Rejected | Undefined

  function Prepend<T>(x: T, rest: Listed<T>): Listed<T> {
    match rest
    case Accepted(xs) => Accepted([x] + xs)
    case _ => rest
  }

  /** What was read so far in front of what the rest yields. */
  ghost function Collected<T>(done: seq<T>, rest: Listed<T>): Listed<T> {
    match rest
    case Accepted(xs) => Accepted(done + xs)
    case _ => rest
  }

  lemma CollectOne<T>(done: seq<T>, x: T, rest: Listed<T>)
    ensures Collected(done, Prepend(x, rest)) == Collected(done + [x], rest)
  {
    if rest.Accepted? { assert done + ([x] + rest.items) == done + [x] + rest.items; }
  }

  /** The first element that `p` holds of. */
  function FirstMatch<T>(xs: seq<T>, p: T -> bool): (r: Option<T>)
    ensures r.Some? ==> r.value in xs && p(r.value)
    ensures r == None ==> forall x :: x in xs ==> !p(x)
  {
    if xs == [] then None else if p(xs[0]) then Some(xs[0]) else FirstMatch(xs[1..], p)
  }

  lemma {:induction false} FirstMatchAt<T>(xs: seq<T>, i: nat, p: T -> bool)
    requires i <= |xs| && (forall k :: 0 <= k < i ==> !p(xs[k])) && (i < |xs| ==> p(xs[i]))
    ensures FirstMatch(xs, p) == if i < |xs| then Some(xs[i]) else None
  {
    if 0 < i { FirstMatchAt(xs[1..], i - 1, p); }
  }

  lemma {:induction false} FirstMatchAppend<T>(xs: seq<T>, x: T, p: T -> bool)
    ensures FirstMatch(xs + [x], p) == if FirstMatch(xs, p).Some? then FirstMatch(xs, p)
            else if p(x) then Some(x) else None
  {
    if xs == [] {
      assert xs + [x] == [x] && [x][1..] == [];
    } else {
      assert (xs + [x])[1..] == xs[1..] + [x];
      FirstMatchAppend(xs[1..], x, p);
    }
  }
}
