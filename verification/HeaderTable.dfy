/** The header table under insertion: a map from keys, letter case aside, to values. */
module HeaderTable {
  import opened Wrappers
  import opened CStrings
  import opened HeaderSpec
  import opened Tables

  function Lower(ch: char): char {
    if 'A' <= ch <= 'Z' then ch - 'A' + 'a' else ch
  }

  /** The key with its ASCII letters in lower case. */
  function Folded(s: string): (r: string)
    ensures |r| == |s|
  {
    seq(|s|, i requires 0 <= i < |s| => Lower(s[i]))
  }

  /** strcasecmp(a, b) == 0 */
  predicate SameKey(a: string, b: string) {
    Folded(a) == Folded(b)
  }

  /** Two characters that are equal, or the same ASCII letter in both cases. */
  predicate SameLetter(a: char, b: char) {
    || a == b
    || ('A' <= a <= 'Z' && b as int == a as int + 32)
    || ('A' <= b <= 'Z' && a as int == b as int + 32)
  }

  /** Keys are the same when their characters are, letter case aside. */
  lemma SameKeyMeans(a: string, b: string)
    ensures SameKey(a, b) <==> |a| == |b| && forall i :: 0 <= i < |a| ==> SameLetter(a[i], b[i])
  {
    forall x: char, y: char ensures Lower(x) == Lower(y) <==> SameLetter(x, y) {}
    if SameKey(a, b) {
      forall i | 0 <= i < |a| ensures SameLetter(a[i], b[i]) {
        assert Folded(a)[i] == Folded(b)[i];
      }
    } else if |a| == |b| {
      var i :| 0 <= i < |a| && Folded(a)[i] != Folded(b)[i];
    }
  }

  /** strcasecmp, as far as it is used: whether it gives zero. */
  method EqualIgnoringCase(a: CString, b: CString) returns (same: bool)
    ensures same <==> SameKey(a, b)
  {
    var i := 0;
    while Lower(At(a, i)) == Lower(At(b, i)) && At(a, i) != '\0'
      invariant i <= |a| && i <= |b|
      invariant forall k :: 0 <= k < i ==> Lower(a[k]) == Lower(b[k])
      decreases |a| - i
    {
      i := i + 1;
    }
    same := Lower(At(a, i)) == Lower(At(b, i));
    if same {
      assert Folded(a) == Folded(b);
    } else if i < |a| && i < |b| {
      assert Folded(a)[i] != Folded(b)[i];
    }
  }

  /* ---- Insertion, on sequences ---- */

  /** The position of the header with this key; the number of headers if there is none. */
  function Position(hs: seq<Header>, key: string): (i: nat)
    ensures i <= |hs| && (i < |hs| ==> SameKey(hs[i].key, key))
    ensures forall j :: 0 <= j < i ==> !SameKey(hs[j].key, key)
  {
    if hs == [] || SameKey(hs[0].key, key) then 0 else 1 + Position(hs[1..], key)
  }

  function Insert(hs: seq<Header>, h: Header): seq<Header> {
    var i := Position(hs, h.key);
    if i < |hs| then hs[i := Header(hs[i].key, h.value)] else hs + [h]
  }

  /** The table after these insertions into an empty one. */
  function InsertAll(log: seq<Header>): seq<Header> {
    if log == [] then [] else Insert(InsertAll(log[..|log| - 1]), log[|log| - 1])
  }

  /* ---- What a history of insertions means ---- */

  /** An insertion whose key, letter case aside, had not been inserted before. */
  predicate FirstOfKey(log: seq<Header>, i: nat)
    requires i < |log|
  {
    forall j :: 0 <= j < i ==> !SameKey(log[j].key, log[i].key)
  }

  /** The keys in the order of their first insertion, as spelled there. */
  function FirstSpellings(log: seq<Header>): (ks: seq<CString>)
    ensures |ks| <= |log|
  {
    if log == [] then []
    else
      FirstSpellings(log[..|log| - 1])
      + if FirstOfKey(log, |log| - 1) then [log[|log| - 1].key] else []
  }

  /** The value given last for a key. */
  function LastValue(log: seq<Header>, key: string): (v: Option<CString>)
    ensures v == None <==> forall j :: 0 <= j < |log| ==> !SameKey(log[j].key, key)
  {
    if log == [] then None
    else if SameKey(log[|log| - 1].key, key) then Some(log[|log| - 1].value)
    else LastValue(log[..|log| - 1], key)
  }

  function Keys(hs: seq<Header>): (ks: seq<CString>)
    ensures |ks| == |hs| && forall i :: 0 <= i < |hs| ==> ks[i] == hs[i].key
  {
    seq(|hs|, i requires 0 <= i < |hs| => hs[i].key)
  }

  /** No two keys are the same, letter case aside. */
  predicate Distinct(ks: seq<CString>) {
    forall i, j :: 0 <= i < j < |ks| ==> !SameKey(ks[i], ks[j])
  }

  predicate Has(ks: seq<CString>, key: string) {
    exists i :: 0 <= i < |ks| && SameKey(ks[i], key)
  }

  lemma HasAppend(ks: seq<CString>, k: CString, key: string)
    ensures Has(ks + [k], key) <==> Has(ks, key) || SameKey(k, key)
  {
    hide Folded;
    if Has(ks, key) {
      var i :| 0 <= i < |ks| && SameKey(ks[i], key);
      assert (ks + [k])[i] == ks[i];
    }
    if SameKey(k, key) { assert (ks + [k])[|ks|] == k; }
  }

  /** The first spellings are pairwise different and cover what was inserted. */
  lemma {:induction false} SpellingsCover(log: seq<Header>, key: string)
    ensures Has(FirstSpellings(log), key) <==> LastValue(log, key).Some?
    ensures Distinct(FirstSpellings(log))
  {
    hide Folded;
    if log != [] {
      var init, last := log[..|log| - 1], log[|log| - 1];
      SpellingsCover(init, key);
      SpellingsCover(init, last.key);
      HasAppend(FirstSpellings(init), last.key, key);
      assert FirstOfKey(log, |log| - 1) <==> LastValue(init, last.key) == None;
    }
  }

  lemma KeysInsert(hs: seq<Header>, h: Header)
    ensures Keys(Insert(hs, h)) == Keys(hs) + if Has(Keys(hs), h.key) then [] else [h.key]
  {
    hide SameKey;
    assert Has(Keys(hs), h.key) <==> Position(hs, h.key) < |hs|;
  }

  /** After any insertions into an empty table: the keys are the first spellings, in the order
      of first insertion; letter case aside they are pairwise different; and each holds the value
      given last. */
  lemma {:induction false} TableIsAMap(log: seq<Header>)
    ensures Keys(InsertAll(log)) == FirstSpellings(log) && Distinct(Keys(InsertAll(log)))
    ensures forall h :: h in InsertAll(log) ==> Some(h.value) == LastValue(log, h.key)
  {
    hide Keys, SameKey, FirstOfKey, LastValue, Distinct, Insert, Has;
    if log == [] {
      assert Keys([]) == [];
      assert Distinct([]) by { SpellingsCover([], ""); }
    } else {
      var init, last := log[..|log| - 1], log[|log| - 1];
      TableIsAMap(init);
      KeysInsert(InsertAll(init), last);
      SpellingsCover(init, last.key);
      SpellingsCover(log, last.key);
      FirstExactlyWhen(log);
      ValuesInsert(InsertAll(init), init, last);
      assert init + [last] == log;
    }
  }

  lemma FirstExactlyWhen(log: seq<Header>)
    requires log != []
    ensures FirstOfKey(log, |log| - 1) <==> LastValue(log[..|log| - 1], log[|log| - 1].key) == None
  {
    hide SameKey;
  }

  lemma ValuesInsert(hs: seq<Header>, log: seq<Header>, h: Header)
    requires Distinct(Keys(hs)) && forall x :: x in hs ==> Some(x.value) == LastValue(log, x.key)
    ensures forall x :: x in Insert(hs, h) ==> Some(x.value) == LastValue(log + [h], x.key)
  {
    hide Folded;
    assert (log + [h])[..|log|] == log;
    var at, hs' := Position(hs, h.key), Insert(hs, h);
    forall i | 0 <= i < |hs'| ensures Some(hs'[i].value) == LastValue(log + [h], hs'[i].key) {
      if i < |hs| && i != at {
        assert hs[i] in hs && !SameKey(h.key, hs[i].key) by {
          assert i > at ==> !SameKey(Keys(hs)[at], Keys(hs)[i]);
        }
      }
    }
  }

  /** The last value is that of the last insertion with the key. */
  lemma {:induction false} LastValueIs(log: seq<Header>, key: string, i: nat)
    requires i < |log| && SameKey(log[i].key, key)
    requires forall j :: i < j < |log| ==> !SameKey(log[j].key, key)
    ensures LastValue(log, key) == Some(log[i].value)
  {
    hide SameKey;
    if i < |log| - 1 { LastValueIs(log[..|log| - 1], key, i); }
  }

  /** Later insertions add spellings behind the earlier ones. */
  lemma {:induction false} SpellingsOnlyGrow(log: seq<Header>, n: nat)
    requires n <= |log|
    ensures FirstSpellings(log[..n]) <= FirstSpellings(log)
  {
    hide SameKey;
    if n < |log| {
      SpellingsOnlyGrow(log[..|log| - 1], n);
      assert log[..|log| - 1][..n] == log[..n];
    } else {
      assert log[..n] == log;
    }
  }

  /** Which keys the first spellings are. */
  lemma {:induction false} SpellingsAre(log: seq<Header>, key: CString)
    ensures key in FirstSpellings(log) <==> exists i :: 0 <= i < |log| && log[i].key == key && FirstOfKey(log, i)
  {
    hide SameKey;
    if log != [] {
      var init := log[..|log| - 1];
      SpellingsAre(init, key);
      forall i | 0 <= i < |init| ensures FirstOfKey(init, i) <==> FirstOfKey(log, i) {}
      if i :| 0 <= i < |init| && init[i].key == key && FirstOfKey(init, i) {
        assert log[i].key == key && FirstOfKey(log, i);
      }
    }
  }

  /** The header with exactly this key. */
  function Lookup(hs: seq<Header>, key: string): (r: Option<Header>)
    ensures r.Some? ==> r.value in hs && r.value.key == key
    ensures r == None ==> forall h :: h in hs ==> h.key != key
  {
    FirstMatch(hs, (h: Header) => h.key == key)
  }

  /** A lookup compares letter case: it finds the last value of a key if and only if it spells
      the key as the first insertion did. */
  lemma LookupNeedsFirstSpelling(log: seq<Header>, key: CString)
    ensures Lookup(InsertAll(log), key).Some? <==> exists i :: 0 <= i < |log| && log[i].key == key && FirstOfKey(log, i)
    ensures var r := Lookup(InsertAll(log), key); r.Some? ==> Some(r.value.value) == LastValue(log, key)
  {
    hide FirstOfKey, InsertAll;
    TableIsAMap(log);
    SpellingsAre(log, key);
    var hs := InsertAll(log);
    if key in FirstSpellings(log) {
      var i :| 0 <= i < |hs| && Keys(hs)[i] == key;
      assert hs[i] in hs;
    }
    var r := Lookup(hs, key);
    if r.Some? {
      var i :| 0 <= i < |hs| && hs[i] == r.value;
      assert Keys(hs)[i] == key;
    }
  }

  /* ---- As it is written ---- */

  lemma {:induction false} PositionIs(hs: seq<Header>, key: string, i: nat)
    requires i <= |hs| && (forall j :: 0 <= j < i ==> !SameKey(hs[j].key, key))
            && (i < |hs| ==> SameKey(hs[i].key, key))
    ensures Position(hs, key) == i
  {
    if 0 < i { PositionIs(hs[1..], key, i - 1); }
  }

  method InsertHeader(headers: Table<Header>, key: CString, value: CString)
    requires headers.Valid()
    modifies headers, headers.items
    ensures headers.Valid() && (headers.items == old(headers.items) || fresh(headers.items))
    ensures headers.Contents() == Insert(old(headers.Contents()), Header(key, value))
  {
    ghost var hs := headers.Contents();
    for i := 0 to headers.size
      invariant headers.Valid() && headers.items == old(headers.items) && headers.Contents() == hs
      invariant forall j :: 0 <= j < i ==> !SameKey(hs[j].key, key)
    {
      var same := EqualIgnoringCase(headers.items[i].key, key);
      if same {
        PositionIs(hs, key, i);
        headers.items[i] := headers.items[i].(value := value);
        return;
      }
    }
    PositionIs(hs, key, |hs|);
    headers.Push(Header(key, value));
  }

  lemma LookupAt(hs: seq<Header>, i: nat, key: string)
    requires i <= |hs| && (forall k :: 0 <= k < i ==> hs[k].key != key) && (i < |hs| ==> hs[i].key == key)
    ensures Lookup(hs, key) == if i < |hs| then Some(hs[i]) else None
  {
    FirstMatchAt(hs, i, (h: Header) => h.key == key);
  }

  method FindHeader(headers: Table<Header>, key: CString) returns (r: Option<Header>)
    requires headers.Valid()
    ensures r == Lookup(headers.Contents(), key)
  {
    for i := 0 to headers.size
      invariant forall k :: 0 <= k < i ==> headers.Contents()[k].key != key
    {
      if headers.items[i].key == key {
        LookupAt(headers.Contents(), i, key);
        return Some(headers.items[i]);
      }
    }
    LookupAt(headers.Contents(), |headers.Contents()|, key);
    r := None;
  }
}
