/** NUL-terminated strings and the white-space helpers the parsers share. */
module CStrings {
  import opened Wrappers

  /** The characters before the terminator. */
  type CString = s: string | '\0' !in s

  /** Reading index `i` of a C string: the terminator stands behind the last character.  A read
      further on is outside the string; it is only made where its result does not matter. */
  function At(s: string, i: nat): char {
    if i < |s| then s[i] else '\0'
  }

  /** `is_non_space`, which despite its name is true for white-space. */
  predicate IsSpace(ch: char) {
    ch == '\n' || ch == '\t' || ch == '\r' || ch == ' ' || ch == 12 as char || ch == 11 as char
  }

  /** Tab, line feed, vertical tab, form feed, carriage return and blank. */
  lemma WhiteSpaceIs(ch: char)
    ensures IsSpace(ch) <==> 9 <= ch as int <= 13 || ch as int == 32
  {
  }

  predicate Blank(s: string) {
    forall k :: 0 <= k < |s| ==> IsSpace(s[k])
  }

  /** The index of the first character that is not white-space, from `from` on; the length of `s`
      where find_non_space returns NULL. */
  function NonSpaceFrom(s: string, from: nat): (i: nat)
    requires from <= |s|
    ensures from <= i <= |s| && (i < |s| ==> !IsSpace(s[i])) && forall k :: from <= k < i ==> IsSpace(s[k])
    decreases |s| - from
  {
    if from < |s| && IsSpace(s[from]) then NonSpaceFrom(s, from + 1) else from
  }

  lemma {:induction false} NonSpaceFromIs(s: string, from: nat, i: nat)
    requires from <= i <= |s| && (i < |s| ==> !IsSpace(s[i])) && forall k :: from <= k < i ==> IsSpace(s[k])
    ensures NonSpaceFrom(s, from) == i
    decreases i - from
  {
    if from < i { NonSpaceFromIs(s, from + 1, i); }
  }

  /** The suffix that starts there. */
  function SkipSpaces(s: string): (r: string)
    ensures |r| <= |s|
    ensures '\0' !in s ==> '\0' !in r
    ensures r != "" ==> !IsSpace(r[0])
  {
    s[NonSpaceFrom(s, 0)..]
  }

  lemma SkipSpacesFrom(s: string, from: nat)
    requires from <= |s|
    ensures SkipSpaces(s[from..]) == s[NonSpaceFrom(s, from)..]
  {
    var i := NonSpaceFrom(s, from);
    NonSpaceFromIs(s[from..], 0, i - from);
    assert s[from..][i - from..] == s[i..];
  }

  lemma SkipBlank(w: string, s: string)
    requires Blank(w) && (s != "" ==> !IsSpace(s[0]))
    ensures SkipSpaces(w + s) == s
  {
    NonSpaceFromIs(w + s, 0, |w|);
    assert (w + s)[|w|..] == s;
  }

  lemma NothingToSkip(s: string)
    requires s != "" ==> !IsSpace(s[0])
    ensures SkipSpaces(s) == s
  {
  }

  /** Without the white-space at the end. */
  function TrimRight(s: string): (r: string)
    ensures |r| <= |s| && r == s[..|r|]
    ensures '\0' !in s ==> '\0' !in r
    ensures r != "" ==> !IsSpace(r[|r| - 1])
    ensures forall k :: |r| <= k < |s| ==> IsSpace(s[k])
  {
    if s != "" && IsSpace(s[|s| - 1]) then TrimRight(s[..|s| - 1]) else s
  }

  lemma {:induction false} TrimRightKeeps(s: string, n: nat)
    requires n < |s| && !IsSpace(s[n]) && forall k :: n < k < |s| ==> IsSpace(s[k])
    ensures TrimRight(s) == s[..n + 1]
    decreases |s|
  {
    if n + 1 < |s| {
      TrimRightKeeps(s[..|s| - 1], n);
      assert s[..|s| - 1][..n + 1] == s[..n + 1];
    } else {
      assert s[..n + 1] == s;
    }
  }

  /** No white-space at either end. */
  predicate Trimmed(s: string) {
    s != "" ==> !IsSpace(s[0]) && !IsSpace(s[|s| - 1])
  }

  /** A pointer walked over white-space from index `from` of `s`: where find_non_space stops,
      or None for NULL. */
  method FindNonSpace(s: CString, from: nat) returns (r: Option<nat>)
    requires from <= |s|
    ensures r == if NonSpaceFrom(s, from) == |s| then None else Some(NonSpaceFrom(s, from))
    ensures SkipSpaces(s[from..]) == if r == None then "" else s[r.value..]
  {
    SkipSpacesFrom(s, from);
    var i := from;
    while IsSpace(At(s, i)) && At(s, i) != '\0'
      invariant from <= i <= |s|
      invariant forall k :: from <= k < i ==> IsSpace(s[k])
      decreases |s| - i
    {
      i := i + 1;
    }
    NonSpaceFromIs(s, from, i);
    if At(s, i) == '\0' {
      return None;
    }
    return Some(i);
  }

  /** Back over the white-space in front of `end`, at worst to `stop`, which is none. */
  method TrimBack(s: CString, stop: nat, end: nat) returns (last: nat)
    requires stop < end <= |s| && !IsSpace(s[stop])
    ensures stop <= last < end && !IsSpace(s[last]) && forall k :: last < k < end ==> IsSpace(s[k])
  {
    last := end - 1;
    while IsSpace(s[last])
      invariant stop <= last < end
      invariant forall k :: last < k < end ==> IsSpace(s[k])
      decreases last
    {
      last := last - 1;
    }
  }

  /** Copy a C string, without its terminator, to index `at` of a buffer. */
  method CopyInto(buf: array<char>, at: nat, s: CString) returns (end: nat)
    requires at + |s| <= buf.Length
    modifies buf
    ensures end == at + |s| && buf[..end] == old(buf[..at]) + s
  {
    end := at;
    var i := 0;
    while At(s, i) != '\0'
      invariant i <= |s| && end == at + i && buf[..end] == old(buf[..at]) + s[..i]
      decreases |s| - i
    {
      buf[end] := s[i];
      end := end + 1;
      i := i + 1;
    }
  }

  /* ---- strstr ---- */

  predicate OccursAt(s: string, p: string, k: nat) {
    k + |p| <= |s| && s[k..k + |p|] == p
  }

  /** The first occurrence of `p`, or the length of `s` for NULL. */
  function Find(s: string, p: string): (n: nat)
    requires p != ""
    ensures n <= |s| && (n < |s| ==> OccursAt(s, p, n))
  {
    if s == "" || OccursAt(s, p, 0) then 0
    else
      assert Find(s[1..], p) < |s[1..]| ==> OccursAt(s, p, 1 + Find(s[1..], p)) by {
        if Find(s[1..], p) < |s[1..]| { OccursShift(s, p, Find(s[1..], p)); }
      }
      1 + Find(s[1..], p)
  }

  lemma OccursShift(s: string, p: string, k: nat)
    requires s != ""
    ensures OccursAt(s[1..], p, k) <==> OccursAt(s, p, k + 1)
  {
    if k + 1 + |p| <= |s| { assert s[1..][k..k + |p|] == s[k + 1..k + 1 + |p|]; }
  }

  lemma {:induction false} FindIsFirst(s: string, p: string, k: nat)
    requires p != "" && k < Find(s, p)
    ensures !OccursAt(s, p, k)
    decreases k
  {
    if k > 0 {
      FindIsFirst(s[1..], p, k - 1);
      OccursShift(s, p, k - 1);
    }
  }

  lemma {:induction false} FindIs(s: string, p: string, n: nat)
    requires p != "" && OccursAt(s, p, n) && forall k :: 0 <= k < n ==> !OccursAt(s, p, k)
    ensures Find(s, p) == n
    decreases n
  {
    if n > 0 {
      assert !OccursAt(s, p, 0);
      forall k | 0 <= k < n - 1 ensures !OccursAt(s[1..], p, k) {
        OccursShift(s, p, k);
        assert !OccursAt(s, p, k + 1);
      }
      OccursShift(s, p, n - 1);
      FindIs(s[1..], p, n - 1);
    }
  }

  lemma {:induction false} FindNone(s: string, p: string)
    requires p != "" && forall k :: 0 <= k < |s| ==> !OccursAt(s, p, k)
    ensures Find(s, p) == |s|
  {
    if s != "" {
      assert !OccursAt(s, p, 0);
      forall k | 0 <= k < |s[1..]| ensures !OccursAt(s[1..], p, k) {
        OccursShift(s, p, k);
        assert !OccursAt(s, p, k + 1);
      }
      FindNone(s[1..], p);
    }
  }

  /** A one-character string is found where the character first occurs (`strchr`). */
  lemma FindChar(a: string, ch: char, b: string)
    requires ch !in a
    ensures Find(a + [ch] + b, [ch]) == |a|
  {
    var s := a + [ch] + b;
    assert s[|a|..|a| + 1] == [ch];
    forall k | 0 <= k < |a| ensures !OccursAt(s, [ch], k) { assert s[k..k + 1] == [a[k]]; }
    FindIs(s, [ch], |a|);
  }

  lemma FindNoChar(a: string, ch: char)
    requires ch !in a
    ensures Find(a, [ch]) == |a|
  {
    forall k | 0 <= k < |a| ensures !OccursAt(a, [ch], k) { if k + 1 <= |a| { assert a[k..k + 1] == [a[k]]; } }
    FindNone(a, [ch]);
  }

  lemma NotBeforeFind(s: string, ch: char)
    ensures ch !in s[..Find(s, [ch])]
  {
    forall k | 0 <= k < Find(s, [ch]) ensures s[k] != ch {
      FindIsFirst(s, [ch], k);
      assert s[k..k + 1] == [s[k]];
    }
  }

  /* ---- Strings inside a buffer ---- */

  /** The string that a pointer to index `from` of a buffer denotes: up to the next NUL. */
  function TextAt(b: seq<char>, from: nat): (s: CString)
    requires from <= |b|
    ensures from + |s| <= |b|
    decreases |b| - from
  {
    if from == |b| || b[from] == '\0' then "" else [b[from]] + TextAt(b, from + 1)
  }

  lemma {:induction false} TextAtMeans(b: seq<char>, from: nat)
    requires from <= |b|
    ensures var s := TextAt(b, from); s == b[from..from + |s|] && (from + |s| < |b| ==> b[from + |s|] == '\0')
    decreases |b| - from
  {
    if from < |b| && b[from] != '\0' {
      TextAtMeans(b, from + 1);
      assert TextAt(b, from) == [b[from]] + TextAt(b, from + 1);
    }
  }

  lemma {:induction false} TextIs(b: seq<char>, from: nat, to: nat)
    requires from <= to < |b| && b[to] == '\0' && '\0' !in b[from..to]
    ensures TextAt(b, from) == b[from..to]
    decreases |b| - from
  {
    if from < to {
      assert b[from..to] == [b[from]] + b[from + 1..to];
      TextIs(b, from + 1, to);
    }
  }

  /** Writing a NUL into a string cuts it in two. */
  lemma CutText(b: seq<char>, from: nat, i: nat)
    requires from <= i < |b| && i < from + |TextAt(b, from)| < |b|
    ensures TextAt(b[i := '\0'], from) == TextAt(b, from)[..i - from]
    ensures TextAt(b[i := '\0'], i + 1) == TextAt(b, from)[i + 1 - from..]
  {
    hide TextAt;
    TextAtMeans(b, from);
    var s, b', to := TextAt(b, from), b[i := '\0'], from + |TextAt(b, from)|;
    assert b'[from..i] == s[..i - from];
    TextIs(b', from, i);
    assert b'[i + 1..to] == s[i + 1 - from..];
    TextIs(b', i + 1, to);
  }

  /** ... and leaves a string that ends before it alone. */
  lemma {:induction false} CutBehind(b: seq<char>, from: nat, i: nat)
    requires from <= i < |b| && from + |TextAt(b, from)| < i
    ensures TextAt(b[i := '\0'], from) == TextAt(b, from)
    decreases |b| - from
  {
    if TextAt(b, from) != "" { CutBehind(b, from + 1, i); }
  }

  method WriteNul(buf: array<char>, i: nat)
    requires i < buf.Length
    modifies buf
    ensures buf[..] == old(buf[..])[i := '\0']
  {
    buf[i] := '\0';
  }

  /** strdup: the text and its terminator. */
  method Duplicate(s: CString) returns (buf: array<char>)
    ensures fresh(buf) && buf.Length == |s| + 1 && buf[..] == s + ['\0'] && TextAt(buf[..], 0) == s
  {
    buf := new char[|s| + 1](_ => '\0');
    var end := CopyInto(buf, 0, s);
    assert buf[..|s|] == s && buf[0..|s|] == s;
    buf[end] := '\0';
    assert buf[0..|s|] == s;
    TextIs(buf[..], 0, |s|);
  }
}
