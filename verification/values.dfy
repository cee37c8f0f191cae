/**
  The dynamically typed data the CLI passes around: the payload built from
  command-line flags, resources fetched from the server, patches. Python dicts
  are insertion-ordered association lists with unique keys; lists are sequences;
  `None` is `Null`.
 */
module Values {
  import opened Wrappers

  /** A dict key. The flag parser only produces names, but Python dicts accept
      integer keys too, and `set_nested_value` can store one (see Nested). */
  datatype Key = Name(name: string) | Num(n: int)

  /** The scalars a payload can hold (floats are not modelled). */
  datatype Atom = Text(text: string) | Int(i: int) | Bool(b: bool)

  datatype Value =
    | Null
    | Scalar(atom: Atom)
    | Obj(fields: seq<Field>)
    | Arr(items: seq<Value>)

  datatype Field = Field(key: Key, val: Value)

  function Str(s: string): Value {
    Scalar(Text(s))
  }

  function KeysOf(fields: seq<Field>): (ks: seq<Key>)
    ensures |ks| == |fields|
    ensures forall i :: 0 <= i < |fields| ==> ks[i] == fields[i].key
  {
    seq(|fields|, i requires 0 <= i < |fields| => fields[i].key)
  }

  /** The invariant every Python dict keeps. */
  predicate UniqueKeys(fields: seq<Field>) {
    forall i, j :: 0 <= i < j < |fields| ==> fields[i].key != fields[j].key
  }

  /** Unique keys in every dict, at every depth. */
  predicate WellFormed(v: Value) {
    match v
    case Obj(fs) => UniqueKeys(fs) && forall i :: 0 <= i < |fs| ==> WellFormed(fs[i].val)
    case Arr(xs) => forall i :: 0 <= i < |xs| ==> WellFormed(xs[i])
    case _ => true
  }

  /** Position of the first entry under `k`: `k in d` and where it sits. */
  function IndexOf(fields: seq<Field>, k: Key): (r: Option<nat>)
    ensures r.Some? ==> r.value < |fields| && fields[r.value].key == k
    ensures r.Some? ==> forall j :: 0 <= j < r.value ==> fields[j].key != k
    ensures r.None? ==> forall j :: 0 <= j < |fields| ==> fields[j].key != k
  {
    if fields == [] then None
    else if fields[0].key == k then Some(0)
    else match IndexOf(fields[1..], k)
      case None => None
      case Some(i) => Some(i + 1)
  }

  /** The first position holding `k` is determined by the entries alone. */
  lemma IndexOfIs(fields: seq<Field>, k: Key, i: nat)
    requires i < |fields| && fields[i].key == k
    requires forall j :: 0 <= j < i ==> fields[j].key != k
    ensures IndexOf(fields, k) == Some(i)
  {
  }

  lemma IndexOfNone(fields: seq<Field>, k: Key)
    requires forall j :: 0 <= j < |fields| ==> fields[j].key != k
    ensures IndexOf(fields, k) == None
  {
  }

  /** `d.get(k)`: the value stored under `k`, if any. */
  function Lookup(fields: seq<Field>, k: Key): (r: Option<Value>)
    ensures r.Some? <==> k in KeysOf(fields)
    ensures r.Some? ==> Field(k, r.value) in fields
  {
    match IndexOf(fields, k)
    case None => None
    case Some(i) => Some(fields[i].val)
  }

  /** In a dict with unique keys, the entry at position `i` is what lookup finds. */
  lemma LookupAt(fields: seq<Field>, i: nat)
    requires UniqueKeys(fields)
    requires i < |fields|
    ensures Lookup(fields, fields[i].key) == Some(fields[i].val)
  {
    IndexOfIs(fields, fields[i].key, i);
  }

  /** `d[k] = v`: an existing key keeps its position and gets the new value; a
      new key goes to the end. */
  function Put(fields: seq<Field>, k: Key, v: Value): (r: seq<Field>)
    ensures KeysOf(r) == if k in KeysOf(fields) then KeysOf(fields) else KeysOf(fields) + [k]
    ensures Lookup(r, k) == Some(v)
    ensures forall k' :: k' != k ==> Lookup(r, k') == Lookup(fields, k')
    ensures UniqueKeys(fields) ==> UniqueKeys(r)
    ensures forall i :: 0 <= i < |r| ==> r[i] == Field(k, v) || r[i] in fields
  {
    match IndexOf(fields, k)
    case Some(i) =>
      var r := fields[i := Field(k, v)];
      assert KeysOf(r) == KeysOf(fields);
      IndexOfIs(r, k, i);
      forall k' | k' != k ensures Lookup(r, k') == Lookup(fields, k') {
        PutOtherKey(fields, r, k, k', i);
      }
      r
    case None =>
      var r := fields + [Field(k, v)];
      assert KeysOf(r) == KeysOf(fields) + [k];
      IndexOfIs(r, k, |fields|);
      forall k' | k' != k ensures Lookup(r, k') == Lookup(fields, k') {
        PutOtherKey(fields, r, k, k', |fields|);
      }
      r
  }

  /** Writing position `i` (in place, or appending when `i == |fields|`) with key
      `k` leaves lookups of other keys alone. */
  lemma PutOtherKey(fields: seq<Field>, r: seq<Field>, k: Key, k': Key, i: nat)
    requires k' != k
    requires i <= |fields| && |r| == if i == |fields| then |fields| + 1 else |fields|
    requires r[i].key == k
    requires i < |fields| ==> fields[i].key == k
    requires forall j :: 0 <= j < |fields| && j != i ==> r[j] == fields[j]
    ensures Lookup(r, k') == Lookup(fields, k')
  {
    match IndexOf(fields, k')
    case None =>
      IndexOfNone(r, k');
    case Some(j) =>
      IndexOfIs(r, k', j);
  }

  /** Putting a new key appends one entry. */
  lemma PutNewKey(fields: seq<Field>, k: Key, v: Value)
    requires k !in KeysOf(fields)
    ensures Put(fields, k, v) == fields + [Field(k, v)]
  {
    IndexOfNone(fields, k);
  }

  /** Putting a present key rewrites its entry in place. */
  lemma PutPresentKey(fields: seq<Field>, k: Key, v: Value, i: nat)
    requires UniqueKeys(fields) && i < |fields| && fields[i].key == k
    ensures Put(fields, k, v) == fields[i := Field(k, v)]
  {
    IndexOfIs(fields, k, i);
  }
}
