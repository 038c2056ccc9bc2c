/**
 * The tile catalog: an array of tile configurations, and the id -> config
 * dictionary rebuilt from it after every deserialization.
 */
module TileCatalog {
  import opened Wrappers
  import opened Geometry
  import opened Dictionaries

  /**
   * One kind of tile. `layer` is the level layer the tile paints on;
   * `sprite` and `anim` are opaque Unity references; a null name is None.
   */
  datatype TileConfig = TileConfig(
    id: int,
    name: Option<string>,
    sprite: UnityRef,
    walkable: bool,
    breakable: bool,
    health: int,
    layer: int,
    anim: UnityRef,
    speedModifier: real)

  /** A config as its field initializers leave it, before Unity fills in the stored fields. */
  function NewTileConfig(): (c: TileConfig)
    ensures c.id == 0 && c.name == None && c.sprite == NullRef && c.anim == NullRef
    ensures !c.walkable && !c.breakable
    ensures c.health == 1 && c.layer == 0 && c.speedModifier == -1.0
  {
    TileConfig(0, None, NullRef, false, false, 1, 0, NullRef, -1.0)
  }

  /** The (key, value) pairs the rebuild adds: each config under its id. */
  function IdEntries(configs: seq<TileConfig>): (entries: seq<(int, TileConfig)>)
    ensures |entries| == |configs|
    ensures forall i :: 0 <= i < |configs| ==> entries[i] == (configs[i].id, configs[i])
  {
    seq(|configs|, i requires 0 <= i < |configs| => (configs[i].id, configs[i]))
  }

  /** No two configs share an id. */
  predicate DistinctIds(configs: seq<TileConfig>) {
    forall i, j :: 0 <= i < j < |configs| ==> configs[i].id != configs[j].id
  }

  class TileSettings {
    /** The serialized configs; None stands for a null array. */
    var configs: Option<seq<TileConfig>>
    /** The runtime dictionary; None until the first rebuild. */
    var configMap: Option<map<int, TileConfig>>

    /** The state Unity's deserializer leaves: the stored configs and no dictionary yet. */
    constructor (stored: Option<seq<TileConfig>>)
      ensures configs == stored && configMap == None
    {
      configs := stored;
      configMap := None;
    }

    /**
     * OnAfterDeserialize: with no configs nothing happens. Otherwise the
     * dictionary is cleared (or created) and every config is added under its
     * id, in order; a repeated id throws, leaving the configs before it.
     */
    method OnAfterDeserialize() returns (outcome: Option<AddOutcome<int, TileConfig>>)
      modifies this`configMap
      ensures configs.None? ==> outcome.None? && configMap == old(configMap)
      ensures configs.Some? ==> outcome == Some(AddFrom(map[], IdEntries(configs.value), 0))
      ensures configs.Some? ==> configMap == Some(outcome.value.Contents())
    {
      if configs.None? {
        return None;
      }
      var added := AddAll(IdEntries(configs.value));
      configMap := Some(added.Contents());
      return Some(added);
    }

    /** OnBeforeSerialize does nothing. */
    method OnBeforeSerialize()
      ensures unchanged(this)
    {
    }

    /**
     * GetConfigById: TryGetValue, so null (None) for an id the dictionary
     * lacks; a dictionary that was never built throws.
     */
    function GetConfigById(id: int): (r: Result<Option<TileConfig>, Fault>)
      reads this
      ensures configMap.None? <==> r == Failure(NullReference)
      ensures configMap.Some? ==> r.Success? && (r.value.Some? <==> id in configMap.value)
      ensures configMap.Some? && id in configMap.value ==> r.value.value == configMap.value[id]
    {
      if configMap.None? then Failure(NullReference)
      else if id in configMap.value then Success(Some(configMap.value[id]))
      else Success(None)
    }

    /**
     * GetSpriteById: the sprite of the config with that id. A missing id
     * gives a null config, whose sprite throws, as does an unbuilt dictionary.
     */
    function GetSpriteById(id: int): (s: Result<UnityRef, Fault>)
      reads this
      ensures s.Success? <==> configMap.Some? && id in configMap.value
      ensures s.Success? ==> s.value == configMap.value[id].sprite
      ensures s.Failure? ==> s.error == NullReference
    {
      match GetConfigById(id)
      case Failure(f) => Failure(f)
      case Success(None) => Failure(NullReference)
      case Success(Some(config)) => Success(config.sprite)
    }

    /** GetConfigs: the serialized array itself. */
    function GetConfigs(): (r: Option<seq<TileConfig>>)
      reads this
      ensures r == configs
    {
      configs
    }

    /** The dictionary holds the result of a rebuild from the current configs. */
    ghost predicate Rebuilt()
      reads this
    {
      configs.Some? && configMap == Some(AddFrom(map[], IdEntries(configs.value), 0).Contents())
    }
  }

  /** The configs' ids are the keys the rebuild adds. */
  lemma IdKeys(configs: seq<TileConfig>)
    ensures DistinctKeys(IdEntries(configs)) <==> DistinctIds(configs)
    ensures forall id :: id in KeysOf(IdEntries(configs), 0, |configs|) <==> exists i :: 0 <= i < |configs| && configs[i].id == id
  {
    var e := IdEntries(configs);
    forall id | id in KeysOf(e, 0, |configs|)
      ensures exists i :: 0 <= i < |configs| && configs[i].id == id
    {
      var i :| 0 <= i < |configs| && e[i].0 == id;
      assert configs[i].id == id;
    }
    forall id | exists i :: 0 <= i < |configs| && configs[i].id == id
      ensures id in KeysOf(e, 0, |configs|)
    {
      var i :| 0 <= i < |configs| && configs[i].id == id;
      assert e[i].0 == id;
    }
  }

  /**
   * After a rebuild from configs with distinct ids, every config is found
   * under its own id, and any other id finds nothing.
   */
  lemma LookupAfterRebuild(t: TileSettings, id: int)
    requires t.Rebuilt() && DistinctIds(t.configs.value)
    ensures forall i :: 0 <= i < |t.configs.value| ==>
              t.GetConfigById(t.configs.value[i].id) == Success(Some(t.configs.value[i])) &&
              t.GetSpriteById(t.configs.value[i].id) == Success(t.configs.value[i].sprite)
    ensures (forall i :: 0 <= i < |t.configs.value| ==> t.configs.value[i].id != id) ==>
              t.GetConfigById(id) == Success(None) && t.GetSpriteById(id) == Failure(NullReference)
  {
    var cs := t.configs.value;
    IdKeys(cs);
    RebuildContents(IdEntries(cs));
  }

  /** Two configs with the same id make the rebuild throw, at the first repeat, keeping the configs before it. */
  lemma RebuildFailsOnRepeatedId(configs: seq<TileConfig>, i: int, j: int)
    requires 0 <= i < j < |configs| && configs[i].id == configs[j].id
    ensures AddFrom(map[], IdEntries(configs), 0).DuplicateKey?
    ensures var r := AddFrom(map[], IdEntries(configs), 0);
            && r.index <= j
            && (exists k :: 0 <= k < r.index && configs[k].id == configs[r.index].id)
            && forall k :: 0 <= k < r.index ==> configs[k].id in r.partial && r.partial[configs[k].id] == configs[k]
  {
    IdKeys(configs);
    var e := IdEntries(configs);
    RebuildFailure(e);
    var r := AddFrom(map[], e, 0);
    forall k | 0 <= k < r.index
      ensures configs[k].id in r.partial
    {
      assert e[k].0 in KeysOf(e, 0, r.index);
    }
  }
}
