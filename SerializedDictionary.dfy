/**
 * A dictionary Unity can serialize: it is stored as an array of key/value
 * pairs and rebuilt into a Dictionary<K, T> after every deserialization.
 * Lookup of a missing key yields default(T).
 */
module SerializedDictionaries {
  import opened Wrappers
  import opened Dictionaries

  class SerializedDictionary<K(==), T> {
    /** The serialized pairs, in array order. */
    var pairs: seq<(K, T)>
    /** The runtime dictionary; None until the first rebuild. */
    var dict: Option<map<K, T>>
    /** default(T), what lookup of a missing key returns. */
    const defaultValue: T

    /** The state Unity's deserializer leaves: the stored pairs and no dictionary yet. */
    constructor (stored: seq<(K, T)>, defaultValue: T)
      ensures pairs == stored && dict == None && this.defaultValue == defaultValue
    {
      pairs := stored;
      dict := None;
      this.defaultValue := defaultValue;
    }

    /**
     * OnAfterDeserialize: the dictionary is cleared (or created) and every pair
     * is added in order. A repeated key throws, leaving the pairs before it.
     */
    method OnAfterDeserialize() returns (outcome: AddOutcome<K, T>)
      modifies this`dict
      ensures outcome == AddFrom(map[], pairs, 0)
      ensures dict == Some(outcome.Contents())
    {
      outcome := AddAll(pairs);
      dict := Some(outcome.Contents());
    }

    /** OnBeforeSerialize does nothing: the pairs are already the stored form. */
    method OnBeforeSerialize()
      ensures unchanged(this)
    {
    }

    /**
     * The indexer `this[key]`: TryGetValue, so default(T) for a missing key;
     * a dictionary that was never built throws.
     */
    function Get(key: K): (v: Result<T, Fault>)
      reads this
      ensures dict.None? <==> v == Failure(NullReference)
      ensures dict.Some? && key in dict.value ==> v == Success(dict.value[key])
      ensures dict.Some? && key !in dict.value ==> v == Success(defaultValue)
    {
      if dict.None? then Failure(NullReference)
      else if key in dict.value then Success(dict.value[key])
      else Success(defaultValue)
    }

    /** The dictionary holds the result of a rebuild that completed. */
    ghost predicate Rebuilt()
      reads this
    {
      dict == Some(AddFrom(map[], pairs, 0).Contents()) && AddFrom(map[], pairs, 0).Added?
    }
  }

  /**
   * After a completed rebuild every pair's key looks up that pair's value,
   * and every other key looks up default(T).
   */
  lemma LookupAfterRebuild<K, T>(d: SerializedDictionary<K, T>, key: K)
    requires d.Rebuilt()
    ensures forall j :: 0 <= j < |d.pairs| ==> d.Get(d.pairs[j].0) == Success(d.pairs[j].1)
    ensures key !in KeysOf(d.pairs, 0, |d.pairs|) ==> d.Get(key) == Success(d.defaultValue)
  {
    RebuildCompletesIffDistinct(d.pairs);
    RebuildContents(d.pairs);
  }

  /**
   * A rebuild completes exactly when no key is repeated, and its keys are then
   * exactly the pair keys; complete or not, no key from before survives.
   */
  lemma RebuildSucceedsIffDistinct<K, T>(d: SerializedDictionary<K, T>)
    requires d.dict == Some(AddFrom(map[], d.pairs, 0).Contents())
    ensures d.Rebuilt() <==> DistinctKeys(d.pairs)
    ensures d.Rebuilt() ==> d.dict.value.Keys == KeysOf(d.pairs, 0, |d.pairs|)
    ensures d.dict.value.Keys <= KeysOf(d.pairs, 0, |d.pairs|)
  {
    RebuildCompletesIffDistinct(d.pairs);
    if DistinctKeys(d.pairs) {
      RebuildContents(d.pairs);
    } else {
      RebuildFailure(d.pairs);
    }
  }
}
