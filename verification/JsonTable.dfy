/** Building an object member by member, and looking members up. */
module JsonTable {
  import opened Wrappers
  import opened CStrings
  import opened JsonSpec
  import opened JsonProofs
  import opened Tables

  /** The first member with this key. */
  function Lookup(es: seq<Element>, key: string): (r: Option<Element>)
    ensures r.Some? ==> r.value in es && r.value.key == key
    ensures r == None ==> forall e :: e in es ==> e.key != key
  {
    FirstMatch(es, (e: Element) => e.key == key)
  }

  /** A key that is present already is refused. */
  function Insert(es: seq<Element>, e: Element): seq<Element> {
    if Lookup(es, e.key) == None then es + [e] else es
  }

  /** The object after these insertions into an empty one. */
  function InsertAll(log: seq<Element>): seq<Element> {
    if log == [] then [] else Insert(InsertAll(log[..|log| - 1]), log[|log| - 1])
  }

  predicate DistinctKeys(es: seq<Element>) {
    forall i, j :: 0 <= i < j < |es| ==> es[i].key != es[j].key
  }

  lemma LookupAppend(es: seq<Element>, e: Element, key: string)
    ensures Lookup(es + [e], key) == if Lookup(es, key).Some? then Lookup(es, key)
            else if e.key == key then Some(e) else None
  {
    FirstMatchAppend(es, e, (x: Element) => x.key == key);
  }

  /** However often a key is inserted, a lookup finds the member given first; the keys of the
      object are distinct, and nothing is in it that was not inserted. */
  lemma {:induction false} FirstInsertionWins(log: seq<Element>, key: string)
    ensures Lookup(InsertAll(log), key) == Lookup(log, key)
    ensures DistinctKeys(InsertAll(log)) && forall e :: e in InsertAll(log) ==> e in log
  {
    if log != [] {
      var init, last := log[..|log| - 1], log[|log| - 1];
      FirstInsertionWins(init, key);
      FirstInsertionWins(init, last.key);
      assert init + [last] == log;
      LookupAppend(init, last, key);
      LookupAppend(InsertAll(init), last, key);
      DistinctAppend(InsertAll(init), last);
    }
  }

  lemma DistinctAppend(es: seq<Element>, e: Element)
    requires DistinctKeys(es)
    ensures DistinctKeys(Insert(es, e))
  {
    if Lookup(es, e.key) == None {
      forall i | 0 <= i < |es| ensures es[i].key != e.key { assert es[i] in es; }
    }
  }

  /** No insertion is refused exactly when the keys are distinct. */
  lemma {:induction false} AllAcceptedExactlyWhen(log: seq<Element>)
    ensures InsertAll(log) == log <==> DistinctKeys(log)
  {
    FirstInsertionWins(log, "");
    if DistinctKeys(log) && log != [] {
      var init, last := log[..|log| - 1], log[|log| - 1];
      AllAcceptedExactlyWhen(init);
      assert init + [last] == log;
    }
  }

  /** Build an object of readable members, print it, parse the text: a lookup in the result
      finds the member that was inserted first under the key. */
  lemma LookupSurvivesPrinting(log: seq<Element>, key: string)
    requires log != [] && forall e :: e in log ==> Readable(e)
    ensures var r := ParseJson(Render(InsertAll(log))); r.Accepted? && Lookup(r.items, key) == Lookup(log, key)
  {
    hide Readable;
    FirstInsertionWins(log, key);
    FirstInsertionWins(log, log[0].key);
    assert InsertAll(log) != [];
    ObjectRoundTrip(InsertAll(log));
  }

  /* ---- As it is written ---- */

  lemma LookupAt(es: seq<Element>, i: nat, key: string)
    requires i <= |es| && (forall k :: 0 <= k < i ==> es[k].key != key) && (i < |es| ==> es[i].key == key)
    ensures Lookup(es, key) == if i < |es| then Some(es[i]) else None
  {
    FirstMatchAt(es, i, (e: Element) => e.key == key);
  }

  method FindJsonElement(members: Table<Element>, key: CString) returns (r: Option<Element>)
    requires members.Valid()
    ensures r == Lookup(members.Contents(), key)
  {
    for i := 0 to members.size
      invariant forall k :: 0 <= k < i ==> members.Contents()[k].key != key
    {
      if members.items[i].key == key {
        LookupAt(members.Contents(), i, key);
        return Some(members.items[i]);
      }
    }
    LookupAt(members.Contents(), |members.Contents()|, key);
    r := None;
  }

  /** False where the code returns NULL. */
  method InsertJsonElement(members: Table<Element>, key: CString, value: CString, kind: Kind) returns (ok: bool)
    requires members.Valid()
    modifies members, members.items
    ensures members.Valid() && (members.items == old(members.items) || fresh(members.items))
    ensures ok <==> Lookup(old(members.Contents()), key) == None
    ensures members.Contents() == Insert(old(members.Contents()), Element(kind, key, value))
    ensures members.Contents() == old(members.Contents()) + if ok then [Element(kind, key, value)] else []
  {
    var present := FindJsonElement(members, key);
    if present.Some? {
      return false;
    }
    members.Push(Element(kind, key, value));
    ok := true;
  }
}
