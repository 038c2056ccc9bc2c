/**
 * The rebuild loop shared by the tile catalog and the serialized dictionary:
 * every entry of an array is passed, in order, to Dictionary<K, V>.Add, which
 * throws ArgumentException on a key that is already present. The exception
 * leaves behind the entries added before it.
 */
module Dictionaries {

  /** What the loop of Add calls ends with. */
  datatype AddOutcome<K, V> =
    | Added(result: map<K, V>)
    | DuplicateKey(key: K, index: nat, partial: map<K, V>)
  {
    /** The dictionary's contents afterwards, complete or partial. */
    function Contents(): map<K, V> {
      if Added? then result else partial
    }
  }

  /** Calls Add(entries[j].0, entries[j].1) on `m` for j = i, i + 1, ... in order. */
  function AddFrom<K(==), V>(m: map<K, V>, entries: seq<(K, V)>, i: nat): AddOutcome<K, V>
    requires i <= |entries|
    decreases |entries| - i
  {
    if i == |entries| then Added(m)
    else if entries[i].0 in m then DuplicateKey(entries[i].0, i, m)
    else AddFrom(m[entries[i].0 := entries[i].1], entries, i + 1)
  }

  /**
   * The rebuild loop itself: a cleared (or new) dictionary, then Add for every
   * entry in order, stopping at the first exception.
   */
  method AddAll<K(==), V>(entries: seq<(K, V)>) returns (outcome: AddOutcome<K, V>)
    ensures outcome == AddFrom(map[], entries, 0)
  {
    var m: map<K, V> := map[];
    var i := 0;
    while i < |entries|
      invariant 0 <= i <= |entries|
      invariant AddFrom(m, entries, i) == AddFrom(map[], entries, 0)
    {
      var (key, value) := entries[i];
      if key in m {
        return DuplicateKey(key, i, m);
      }
      m := m[key := value];
      i := i + 1;
    }
    return Added(m);
  }

  /** The keys of entries[lo..hi]. */
  function KeysOf<K(==), V>(entries: seq<(K, V)>, lo: nat, hi: nat): set<K>
    requires lo <= hi <= |entries|
  {
    set j | lo <= j < hi :: entries[j].0
  }

  /** No key occurs twice among entries[lo..hi]. */
  predicate DistinctBetween<K(==), V>(entries: seq<(K, V)>, lo: nat, hi: nat)
    requires lo <= hi <= |entries|
  {
    forall j, k :: lo <= j < k < hi ==> entries[j].0 != entries[k].0
  }

  /** No key occurs twice in the whole array. */
  predicate DistinctKeys<K(==), V>(entries: seq<(K, V)>) {
    DistinctBetween(entries, 0, |entries|)
  }

  /** The Add loop completes exactly when the remaining keys are new and pairwise distinct. */
  lemma {:induction false} AddFromCompletesIff<K, V>(m: map<K, V>, entries: seq<(K, V)>, i: nat)
    requires i <= |entries|
    ensures AddFrom(m, entries, i).Added? <==>
              (forall j :: i <= j < |entries| ==> entries[j].0 !in m) && DistinctBetween(entries, i, |entries|)
    decreases |entries| - i
  {
    if i < |entries| {
      var k := entries[i].0;
      if k !in m {
        AddFromCompletesIff(m[k := entries[i].1], entries, i + 1);
      }
    }
  }

  /** When the loop completes, the dictionary holds the old entries plus every added pair. */
  lemma {:induction false} AddFromContents<K, V>(m: map<K, V>, entries: seq<(K, V)>, i: nat)
    requires i <= |entries|
    requires AddFrom(m, entries, i).Added?
    ensures var r := AddFrom(m, entries, i).result;
            && r.Keys == m.Keys + KeysOf(entries, i, |entries|)
            && (forall j :: i <= j < |entries| ==> r[entries[j].0] == entries[j].1)
            && (forall k :: k in m ==> r[k] == m[k])
    decreases |entries| - i
  {
    if i < |entries| {
      var m' := m[entries[i].0 := entries[i].1];
      AddFromContents(m', entries, i + 1);
      AddFromCompletesIff(m', entries, i + 1);
      assert KeysOf(entries, i, |entries|) == {entries[i].0} + KeysOf(entries, i + 1, |entries|);
    } else {
      assert KeysOf(entries, i, |entries|) == {};
    }
  }

  /**
   * When the loop throws, it throws at the first entry whose key was already
   * present, and the dictionary keeps the old entries plus those added before.
   */
  lemma {:induction false} AddFromStopsAtFirstDuplicate<K, V>(m: map<K, V>, entries: seq<(K, V)>, i: nat)
    requires i <= |entries|
    requires AddFrom(m, entries, i).DuplicateKey?
    ensures var r := AddFrom(m, entries, i);
            && i <= r.index < |entries|
            && r.key == entries[r.index].0
            && r.key in m.Keys + KeysOf(entries, i, r.index)
            && (forall j :: i <= j < r.index ==> entries[j].0 !in m) && DistinctBetween(entries, i, r.index)
            && r.partial.Keys == m.Keys + KeysOf(entries, i, r.index)
            && (forall j :: i <= j < r.index ==> r.partial[entries[j].0] == entries[j].1)
            && (forall k :: k in m ==> r.partial[k] == m[k])
    decreases |entries| - i
  {
    var k := entries[i].0;
    if k in m {
      assert KeysOf(entries, i, i) == {};
    } else {
      var m' := m[k := entries[i].1];
      AddFromStopsAtFirstDuplicate(m', entries, i + 1);
      var r := AddFrom(m', entries, i + 1);
      assert KeysOf(entries, i, r.index) == {k} + KeysOf(entries, i + 1, r.index);
    }
  }

  /** Rebuilding from an empty dictionary completes exactly when the keys are distinct. */
  lemma RebuildCompletesIffDistinct<K, V>(entries: seq<(K, V)>)
    ensures AddFrom(map[], entries, 0).Added? <==> DistinctKeys(entries)
  {
    AddFromCompletesIff(map[], entries, 0);
  }

  /** A completed rebuild maps exactly the entries' keys, each to its entry's value. */
  lemma RebuildContents<K, V>(entries: seq<(K, V)>)
    requires DistinctKeys(entries)
    ensures AddFrom(map[], entries, 0).Added?
    ensures var r := AddFrom(map[], entries, 0).result;
            && r.Keys == KeysOf(entries, 0, |entries|)
            && forall j :: 0 <= j < |entries| ==> r[entries[j].0] == entries[j].1
  {
    AddFromCompletesIff(map[], entries, 0);
    AddFromContents(map[], entries, 0);
  }

  /** A failed rebuild stops at the first repeated key and keeps exactly the entries before it. */
  lemma RebuildFailure<K, V>(entries: seq<(K, V)>)
    requires !DistinctKeys(entries)
    ensures AddFrom(map[], entries, 0).DuplicateKey?
    ensures var r := AddFrom(map[], entries, 0);
            && r.index < |entries| && r.key == entries[r.index].0
            && (exists j :: 0 <= j < r.index && entries[j].0 == r.key)
            && DistinctBetween(entries, 0, r.index)
            && r.partial.Keys == KeysOf(entries, 0, r.index)
            && forall j :: 0 <= j < r.index ==> r.partial[entries[j].0] == entries[j].1
  {
    AddFromCompletesIff(map[], entries, 0);
    AddFromStopsAtFirstDuplicate(map[], entries, 0);
  }
}
