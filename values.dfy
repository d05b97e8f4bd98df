/**
  Python run-time values, as far as they can reach the validator: the values of
  the record, the rules of the schema and the two arguments themselves.
  Types are first-class values in Python; here a type object is a `TypeTag`.
 */
module PyValues {

  /** The exact run-time type of a value; `TClass` is a user-defined class, by qualified name. */
  datatype TypeTag =
    | TStr | TInt | TFloat | TBool | TNone | TList | TTuple | TDict | TType
    | TClass(qualName: string)

  /** A float is kept as its IEEE-754 bit pattern; no float arithmetic is interpreted. */
  type FloatBits = bv64

  /**
    A Python value. A dict keeps its entries in insertion order; its keys are
    strings, and like every Python dict it never holds a key twice
    (`DistinctKeys`), which the lemmas that need it require. An instance of a
    user class is known by its class and its identity.
   */
  datatype PyValue =
    | VStr(s: string)
    | VInt(i: int)
    | VBool(b: bool)
    | VFloat(bits: FloatBits)
    | VNone
    | VList(items: seq<PyValue>)
    | VTuple(items: seq<PyValue>)
    | VDict(entries: seq<(string, PyValue)>)
    | VType(tag: TypeTag)
    | VObj(cls: string, id: nat)

  /**
    `type(v)`. A bool is of type bool, never of type int; an instance's type is
    its own class.
   */
  function TypeOf(v: PyValue): (t: TypeTag)
    ensures t == TInt <==> v.VInt?
    ensures t == TBool <==> v.VBool?
    ensures t.TClass? <==> v.VObj?
    ensures v.VObj? ==> t.qualName == v.cls
  {
    match v
    case VStr(_) => TStr
    case VInt(_) => TInt
    case VBool(_) => TBool
    case VFloat(_) => TFloat
    case VNone => TNone
    case VList(_) => TList
    case VTuple(_) => TTuple
    case VDict(_) => TDict
    case VType(_) => TType
    case VObj(c, _) => TClass(c)
  }

  /** How Python prints a type object, as in `<class 'dict'>`. */
  function TypeRepr(t: TypeTag): string
  {
    match t
    case TStr => "<class 'str'>"
    case TInt => "<class 'int'>"
    case TFloat => "<class 'float'>"
    case TBool => "<class 'bool'>"
    case TNone => "<class 'NoneType'>"
    case TList => "<class 'list'>"
    case TTuple => "<class 'tuple'>"
    case TDict => "<class 'dict'>"
    case TType => "<class 'type'>"
    case TClass(n) => "<class '" + n + "'>"
  }

  /** No key occurs twice: what every Python dict guarantees of its entries. */
  ghost predicate DistinctKeys<T>(entries: seq<(string, T)>)
  {
    forall i, j :: 0 <= i < j < |entries| ==> entries[i].0 != entries[j].0
  }

  /** Lookup view of a dict's entries; a later entry for the same key wins, as in `dict(pairs)`. */
  function ToMap(entries: seq<(string, PyValue)>): map<string, PyValue>
    decreases |entries|
  {
    if entries == [] then map[]
    else
      var last := entries[|entries| - 1];
      ToMap(entries[..|entries| - 1])[last.0 := last.1]
  }

  /** The keys of the lookup view are exactly the keys of the entries. */
  lemma {:induction false} ToMapKeys(entries: seq<(string, PyValue)>)
    ensures forall k :: k in ToMap(entries) <==> exists i :: 0 <= i < |entries| && entries[i].0 == k
    decreases |entries|
  {
    if entries != [] {
      var prefix := entries[..|entries| - 1];
      ToMapKeys(prefix);
      assert forall i :: 0 <= i < |prefix| ==> prefix[i] == entries[i];
    }
  }

  /** In a dict without repeated keys, every entry is what a lookup of its key yields. */
  lemma {:induction false} ToMapAt(entries: seq<(string, PyValue)>, i: nat)
    requires DistinctKeys(entries)
    requires i < |entries|
    ensures entries[i].0 in ToMap(entries) && ToMap(entries)[entries[i].0] == entries[i].1
    decreases |entries|
  {
    if i < |entries| - 1 {
      var prefix := entries[..|entries| - 1];
      assert prefix[i] == entries[i];
      ToMapAt(prefix, i);
    }
  }

  /** The lookup view after `k + 1` entries is the one after `k` entries, updated by entry `k`. */
  lemma ToMapPrefix(entries: seq<(string, PyValue)>, k: nat)
    requires k < |entries|
    ensures ToMap(entries[..k + 1]) == ToMap(entries[..k])[entries[k].0 := entries[k].1]
  {
    assert entries[..k + 1][..k] == entries[..k];
  }
}
