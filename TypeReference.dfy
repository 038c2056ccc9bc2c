/**
 * A serializable reference to a type by its assembly-qualified name. After
 * deserialization the name is resolved; a name that no longer resolves is
 * cleared. Resolution (Type.GetType) and string hashing are host code and
 * come in as function parameters.
 */
module TypeReferences {
  import opened Wrappers

  /** What Equals(object) can be handed: null, another type reference, or any other object. */
  datatype Argument<Ty> = NullArg | TypeRefArg(other: TypeReference<Ty>) | OtherArg

  class TypeReference<Ty> {
    /** The stored type name; empty means "no type". */
    var typePath: string
    /** The resolved type, not serialized. */
    var resolved: Option<Ty>

    /** The field initializers: an empty path and no type. */
    constructor ()
      ensures typePath == "" && resolved == None
    {
      typePath := "";
      resolved := None;
    }

    /** IsEmpty: no type name is stored. */
    predicate IsEmpty()
      reads this
    {
      |typePath| == 0
    }

    /**
     * Equals(object): null equals an empty reference, another type reference
     * is equal when the names are, and anything else is unequal.
     */
    function Equals(obj: Argument<Ty>): (r: bool)
      reads this, if obj.TypeRefArg? then {obj.other} else {}
      ensures obj.NullArg? ==> (r <==> typePath == "")
      ensures obj.OtherArg? ==> !r
      ensures obj.TypeRefArg? ==> (r <==> typePath == obj.other.typePath)
    {
      match obj
      case NullArg => IsEmpty()
      case OtherArg => false
      case TypeRefArg(other) => typePath == other.typePath
    }

    /** GetHashCode: the hash of the name, under the host's string hash. */
    function GetHashCode(hash: string -> int): (h: int)
      reads this
      ensures h == hash(typePath)
    {
      hash(typePath)
    }

    /** Clear: the name becomes empty; the resolved type is left as it is. */
    method Clear()
      modifies this`typePath
      ensures IsEmpty()
    {
      typePath := "";
    }

    /** ExtractType: resolve the name; a name that does not resolve is cleared. */
    method ExtractType(resolve: string -> Option<Ty>)
      modifies this
      ensures resolved == resolve(old(typePath))
      ensures typePath == (if resolved.None? then "" else old(typePath))
    {
      resolved := resolve(typePath);
      if resolved.None? {
        Clear();
      }
    }

    /**
     * OnAfterDeserialize: an empty reference is left alone; otherwise the name
     * is resolved, and kept exactly when it resolves.
     */
    method OnAfterDeserialize(resolve: string -> Option<Ty>)
      modifies this
      ensures old(typePath) == "" ==> unchanged(this)
      ensures old(typePath) != "" ==> resolved == resolve(old(typePath))
      ensures old(typePath) != "" ==> (IsEmpty() <==> resolved.None?)
      ensures IsEmpty() || typePath == old(typePath)
    {
      if !IsEmpty() {
        ExtractType(resolve);
      }
    }

    /** OnBeforeSerialize does nothing. */
    method OnBeforeSerialize()
      ensures unchanged(this)
    {
    }
  }

  /** Equality of type references is an equivalence: reflexive, symmetric and transitive. */
  lemma EqualsIsEquivalence<Ty>(a: TypeReference<Ty>, b: TypeReference<Ty>, c: TypeReference<Ty>)
    ensures a.Equals(TypeRefArg(a))
    ensures a.Equals(TypeRefArg(b)) ==> b.Equals(TypeRefArg(a))
    ensures a.Equals(TypeRefArg(b)) && b.Equals(TypeRefArg(c)) ==> a.Equals(TypeRefArg(c))
  {
  }

  /** Equal references hash equally, whatever the string hash. */
  lemma EqualsAgreesWithHash<Ty>(a: TypeReference<Ty>, b: TypeReference<Ty>, hash: string -> int)
    requires a.Equals(TypeRefArg(b))
    ensures a.GetHashCode(hash) == b.GetHashCode(hash)
  {
  }

  /** A reference equals null exactly when it equals a fresh (empty) reference. */
  lemma NullEqualsEmpty<Ty>(a: TypeReference<Ty>, empty: TypeReference<Ty>)
    requires empty.IsEmpty()
    ensures a.Equals(NullArg) <==> a.Equals(TypeRefArg(empty))
  {
  }
}
