/**
  The patch semantics of `flowctl patch` (`deep_merge_dicts` and
  `merge_lists` in flowctl/utils.py). Both build a new value and leave their
  inputs alone, which immutable values give for free.

  A dict patch is applied entry by entry, in the patch's order, to a copy of
  the base: a key both sides hold as dicts is merged recursively, one both
  sides hold as lists is merged position by position, and any other patch
  value replaces the base value (`None` included). A list patch is merged
  position by position: two dicts merge, a `None` keeps the base element,
  anything else replaces it, and positions past the end of the base are
  appended as they are.
 */
module Merge {
  import opened Wrappers
  import opened Values

  /** `deep_merge_dicts(base, patch)`. */
  function MergeObjects(base: seq<Field>, patch: seq<Field>): (r: seq<Field>)
    decreases patch
    ensures KeysOf(base) <= KeysOf(r)
    ensures forall k :: k in KeysOf(r) <==> k in KeysOf(base) || k in KeysOf(patch)
    ensures UniqueKeys(base) ==> UniqueKeys(r)
  {
    if patch == [] then base
    else
      var acc := MergeEntry(base, patch[0]);
      var r := MergeObjects(acc, patch[1..]);
      assert forall k :: k in KeysOf(patch) <==> k == patch[0].key || k in KeysOf(patch[1..]) by {
        assert KeysOf(patch) == [patch[0].key] + KeysOf(patch[1..]);
      }
      r
  }

  /** One step of the loop in `deep_merge_dicts`: the patch entry `f` applied
      to the dict built so far. */
  function MergeEntry(acc: seq<Field>, f: Field): (r: seq<Field>)
    decreases f
    ensures KeysOf(r) == if f.key in KeysOf(acc) then KeysOf(acc) else KeysOf(acc) + [f.key]
    ensures UniqueKeys(acc) ==> UniqueKeys(r)
  {
    match Lookup(acc, f.key)
    case Some(prior) => Put(acc, f.key, Combine(prior, f.val))
    case None => Put(acc, f.key, f.val)
  }

  /** What a dict merge stores under a key both sides hold. */
  function Combine(prior: Value, v: Value): Value
    decreases v
  {
    if prior.Obj? && v.Obj? then Obj(MergeObjects(prior.fields, v.fields))
    else if prior.Arr? && v.Arr? then Arr(MergeLists(prior.items, v.items))
    else v
  }

  /** `merge_lists(base, patch)`. */
  function MergeLists(base: seq<Value>, patch: seq<Value>): (r: seq<Value>)
    decreases patch
    ensures |r| == if |base| < |patch| then |patch| else |base|
    ensures forall i :: 0 <= i < |base| && i < |patch| ==> r[i] == MergeItem(base[i], patch[i])
    ensures forall i :: |patch| <= i < |base| ==> r[i] == base[i]
    ensures forall i :: |base| <= i < |patch| ==> r[i] == patch[i]
  {
    if patch == [] then base
    else if base == [] then patch
    else [MergeItem(base[0], patch[0])] + MergeLists(base[1..], patch[1..])
  }

  /** What a list merge keeps at a position both lists have. */
  function MergeItem(prior: Value, v: Value): Value
    decreases v
  {
    if prior.Obj? && v.Obj? then Obj(MergeObjects(prior.fields, v.fields))
    else if v != Null then v
    else prior
  }

  /** Lookup past a first entry under another key. */
  lemma LookupTail(fields: seq<Field>, k: Key)
    requires fields != [] && fields[0].key != k
    ensures Lookup(fields, k) == Lookup(fields[1..], k)
  {
    match IndexOf(fields[1..], k)
    case None =>
    case Some(i) =>
      assert fields[1..][i] == fields[i + 1];
  }

  /** One turn of the loop in `deep_merge_dicts`. */
  lemma MergeStep(base: seq<Field>, patch: seq<Field>)
    requires patch != []
    ensures MergeObjects(base, patch) == MergeObjects(MergeEntry(base, patch[0]), patch[1..])
  {
  }

  /** The value a dict merge holds under `k`, read off the two inputs alone:
      the combination when both sides hold `k`, otherwise whichever side does. */
  function MergedAt(base: seq<Field>, patch: seq<Field>, k: Key): Option<Value> {
    match Lookup(patch, k)
    case Some(v) => (match Lookup(base, k)
      case Some(prior) => Some(Combine(prior, v))
      case None => Some(v))
    case None => Lookup(base, k)
  }

  /** Every key of the merge holds what `MergedAt` says: base-only keys keep
      their values, patch-only keys are copied, and shared keys are combined. */
  lemma {:induction false} MergeLookup(base: seq<Field>, patch: seq<Field>, k: Key)
    requires UniqueKeys(patch)
    decreases patch
    ensures Lookup(MergeObjects(base, patch), k) == MergedAt(base, patch, k)
  {
    if patch != [] {
      var f := patch[0];
      var acc := MergeEntry(base, f);
      MergeStep(base, patch);
      MergeLookup(acc, patch[1..], k);
      if k == f.key {
        IndexOfIs(patch, k, 0);
        IndexOfNone(patch[1..], k);
      } else {
        LookupTail(patch, k);
      }
    }
  }

  /** The keys of `ks` not yet in `known`, in order, each once: the keys a
      sequence of assignments adds to a dict holding `known`. */
  function NewKeys(known: seq<Key>, ks: seq<Key>): seq<Key>
    decreases |ks|
  {
    if ks == [] then []
    else if ks[0] in known then NewKeys(known, ks[1..])
    else [ks[0]] + NewKeys(known + [ks[0]], ks[1..])
  }

  /** Key order of the merge: the base's keys in their order, then the keys
      only the patch has, in the patch's order. */
  lemma {:induction false} MergeKeys(base: seq<Field>, patch: seq<Field>)
    decreases patch
    ensures KeysOf(MergeObjects(base, patch)) == KeysOf(base) + NewKeys(KeysOf(base), KeysOf(patch))
  {
    if patch != [] {
      var f := patch[0];
      var acc := MergeEntry(base, f);
      MergeStep(base, patch);
      MergeKeys(acc, patch[1..]);
      KeysHead(patch);
      NewKeysStep(KeysOf(base), KeysOf(acc), f.key, KeysOf(patch[1..]));
    }
  }

  /** The keys of a non-empty dict: its first key, then the rest. */
  lemma KeysHead(fields: seq<Field>)
    requires fields != []
    ensures KeysOf(fields) == [fields[0].key] + KeysOf(fields[1..])
  {
  }

  /** One assignment under `k` turns the key list `kb` into `ka`; the keys
      new to `kb` in `[k] + rest` are those new to `ka` in `rest`, after `k`
      itself when it was new. */
  lemma NewKeysStep(kb: seq<Key>, ka: seq<Key>, k: Key, rest: seq<Key>)
    requires ka == if k in kb then kb else kb + [k]
    ensures ka + NewKeys(ka, rest) == kb + NewKeys(kb, [k] + rest)
  {
    assert ([k] + rest)[1..] == rest;
    if k !in kb {
      assert (kb + [k]) + NewKeys(ka, rest) == kb + ([k] + NewKeys(ka, rest));
    }
  }

  /** Merging into a dict that shares no key with the patch appends the patch. */
  lemma {:induction false} MergeDisjoint(acc: seq<Field>, patch: seq<Field>)
    requires UniqueKeys(patch)
    requires forall i :: 0 <= i < |patch| ==> patch[i].key !in KeysOf(acc)
    decreases patch
    ensures MergeObjects(acc, patch) == acc + patch
  {
    if patch != [] {
      var f := patch[0];
      MergeStep(acc, patch);
      PutNewKey(acc, f.key, f.val);
      assert MergeEntry(acc, f) == acc + [f];
      DisjointTail(acc, patch);
      MergeDisjoint(acc + [f], patch[1..]);
      AppendHead(acc, patch);
    }
  }

  /** Moving the first patch entry into the accumulator keeps the rest of the
      patch disjoint from it. */
  lemma DisjointTail(acc: seq<Field>, patch: seq<Field>)
    requires patch != [] && UniqueKeys(patch)
    requires forall i :: 0 <= i < |patch| ==> patch[i].key !in KeysOf(acc)
    ensures UniqueKeys(patch[1..])
    ensures forall i :: 0 <= i < |patch[1..]| ==> patch[1..][i].key !in KeysOf(acc + [patch[0]])
  {
    var f := patch[0];
    assert KeysOf(acc + [f]) == KeysOf(acc) + [f.key];
    forall i | 0 <= i < |patch[1..]| ensures patch[1..][i].key !in KeysOf(acc + [f]) {
      assert patch[1..][i] == patch[i + 1];
    }
  }

  /** The identity laws: merging into `{}` copies the patch, and merging `{}`
      into a dict copies the dict. */
  lemma MergeIdentity(x: seq<Field>, patch: seq<Field>)
    requires UniqueKeys(patch)
    ensures MergeObjects([], patch) == patch
    ensures MergeObjects(x, []) == x
  {
    MergeDisjoint([], patch);
    assert [] + patch == patch;
  }

  /** Writing back the value a key already holds changes nothing. */
  lemma PutSame(fields: seq<Field>, k: Key, v: Value)
    requires UniqueKeys(fields) && Lookup(fields, k) == Some(v)
    ensures Put(fields, k, v) == fields
  {
    var i := IndexOf(fields, k).value;
    assert fields[i] == Field(k, v);
    assert fields[i := Field(k, v)] == fields;
  }

  /** A patch whose every entry is already in the dict, with a value that
      merges into itself unchanged, changes nothing. */
  lemma {:induction false} MergeAbsorbed(x: seq<Field>, patch: seq<Field>)
    requires UniqueKeys(x)
    requires forall i :: 0 <= i < |patch| ==> Lookup(x, patch[i].key) == Some(patch[i].val)
    requires forall i :: 0 <= i < |patch| ==> Combine(patch[i].val, patch[i].val) == patch[i].val
    decreases patch
    ensures MergeObjects(x, patch) == x
  {
    if patch != [] {
      var f := patch[0];
      MergeStep(x, patch);
      PutSame(x, f.key, f.val);
      assert MergeEntry(x, f) == x;
      forall i | 0 <= i < |patch[1..]|
        ensures Lookup(x, patch[1..][i].key) == Some(patch[1..][i].val)
        ensures Combine(patch[1..][i].val, patch[1..][i].val) == patch[1..][i].val
      {
        assert patch[1..][i] == patch[i + 1];
      }
      MergeAbsorbed(x, patch[1..]);
    }
  }

  /** Merging a well-formed value into itself gives it back, in dicts and in
      lists alike. */
  lemma {:induction false} CombineSelf(v: Value)
    requires WellFormed(v)
    decreases v, 1
    ensures Combine(v, v) == v
    ensures MergeItem(v, v) == v
  {
    match v
    case Obj(fs) => ObjectsSelf(fs);
    case Arr(xs) => ListsSelf(xs);
    case _ =>
  }

  lemma {:induction false} ObjectsSelf(fs: seq<Field>)
    requires WellFormed(Obj(fs))
    decreases fs, 0
    ensures MergeObjects(fs, fs) == fs
  {
    forall i | 0 <= i < |fs|
      ensures Lookup(fs, fs[i].key) == Some(fs[i].val)
      ensures Combine(fs[i].val, fs[i].val) == fs[i].val
    {
      LookupAt(fs, i);
      CombineSelf(fs[i].val);
    }
    MergeAbsorbed(fs, fs);
  }

  lemma {:induction false} ListsSelf(xs: seq<Value>)
    requires forall i :: 0 <= i < |xs| ==> WellFormed(xs[i])
    decreases xs, 0
    ensures MergeLists(xs, xs) == xs
  {
    forall i | 0 <= i < |xs| ensures MergeItem(xs[i], xs[i]) == xs[i] {
      CombineSelf(xs[i]);
    }
  }

  /** Merging keeps every dict's keys unique, at every depth. */
  lemma {:induction false} CombineWellFormed(x: Value, v: Value)
    requires WellFormed(x) && WellFormed(v)
    decreases v, 1
    ensures WellFormed(Combine(x, v))
    ensures WellFormed(MergeItem(x, v))
  {
    if x.Obj? && v.Obj? {
      ObjectsWellFormed(x.fields, v.fields);
    } else if x.Arr? && v.Arr? {
      ListsWellFormed(x.items, v.items);
    }
  }

  lemma {:induction false} ObjectsWellFormed(base: seq<Field>, patch: seq<Field>)
    requires WellFormed(Obj(base)) && WellFormed(Obj(patch))
    decreases patch, 0
    ensures WellFormed(Obj(MergeObjects(base, patch)))
  {
    var r := MergeObjects(base, patch);
    forall i | 0 <= i < |r| ensures WellFormed(r[i].val) {
      var k := r[i].key;
      LookupAt(r, i);
      MergeLookup(base, patch, k);
      match IndexOf(patch, k)
      case None =>
        var j := IndexOf(base, k).value;
        assert r[i].val == base[j].val;
      case Some(j) =>
        match IndexOf(base, k)
        case None =>
          assert r[i].val == patch[j].val;
        case Some(b) =>
          CombineWellFormed(base[b].val, patch[j].val);
    }
  }

  lemma {:induction false} ListsWellFormed(base: seq<Value>, patch: seq<Value>)
    requires forall i :: 0 <= i < |base| ==> WellFormed(base[i])
    requires forall i :: 0 <= i < |patch| ==> WellFormed(patch[i])
    decreases patch, 0
    ensures forall i :: 0 <= i < |MergeLists(base, patch)| ==> WellFormed(MergeLists(base, patch)[i])
  {
    var r := MergeLists(base, patch);
    forall i | 0 <= i < |r| ensures WellFormed(r[i]) {
      if i < |base| && i < |patch| {
        CombineWellFormed(base[i], patch[i]);
      }
    }
  }

  /** Two association lists with unique keys, the same keys in the same order
      and the same value under every key are equal. */
  lemma SameEntries(r: seq<Field>, s: seq<Field>)
    requires UniqueKeys(r) && UniqueKeys(s) && KeysOf(r) == KeysOf(s)
    requires forall k :: Lookup(r, k) == Lookup(s, k)
    ensures r == s
  {
    forall i | 0 <= i < |r| ensures r[i] == s[i] {
      assert r[i].key == KeysOf(r)[i] == s[i].key;
      LookupAt(r, i);
      LookupAt(s, i);
    }
  }

  /** Keys all already known add nothing. */
  lemma {:induction false} NewKeysKnown(known: seq<Key>, ks: seq<Key>)
    requires forall i :: 0 <= i < |ks| ==> ks[i] in known
    decreases |ks|
    ensures NewKeys(known, ks) == []
  {
    if ks != [] {
      NewKeysKnown(known, ks[1..]);
    }
  }

  /** Applying the same patch twice is the same as applying it once. */
  lemma {:induction false} CombineTwice(x: Value, v: Value)
    requires WellFormed(x) && WellFormed(v)
    decreases v, 1
    ensures Combine(Combine(x, v), v) == Combine(x, v)
    ensures MergeItem(MergeItem(x, v), v) == MergeItem(x, v)
  {
    if x.Obj? && v.Obj? {
      ObjectsTwice(x.fields, v.fields);
    } else {
      CombineSelf(v);
      if x.Arr? && v.Arr? {
        ListsTwice(x.items, v.items);
      }
    }
  }

  lemma {:induction false} ObjectsTwice(base: seq<Field>, patch: seq<Field>)
    requires WellFormed(Obj(base)) && WellFormed(Obj(patch))
    decreases patch, 0
    ensures MergeObjects(MergeObjects(base, patch), patch) == MergeObjects(base, patch)
  {
    var m := MergeObjects(base, patch);
    var m2 := MergeObjects(m, patch);
    MergeKeys(m, patch);
    forall i | 0 <= i < |KeysOf(patch)| ensures KeysOf(patch)[i] in KeysOf(m) {
      assert KeysOf(patch)[i] in KeysOf(patch);
    }
    NewKeysKnown(KeysOf(m), KeysOf(patch));
    assert KeysOf(m2) == KeysOf(m);
    forall k ensures Lookup(m2, k) == Lookup(m, k) {
      MergeLookup(m, patch, k);
      MergeLookup(base, patch, k);
      match IndexOf(patch, k)
      case None =>
      case Some(j) =>
        var v := patch[j].val;
        match IndexOf(base, k)
        case None =>
          CombineSelf(v);
        case Some(b) =>
          CombineTwice(base[b].val, v);
    }
    SameEntries(m2, m);
  }

  lemma {:induction false} ListsTwice(base: seq<Value>, patch: seq<Value>)
    requires forall i :: 0 <= i < |base| ==> WellFormed(base[i])
    requires forall i :: 0 <= i < |patch| ==> WellFormed(patch[i])
    decreases patch, 0
    ensures MergeLists(MergeLists(base, patch), patch) == MergeLists(base, patch)
  {
    var m := MergeLists(base, patch);
    var m2 := MergeLists(m, patch);
    forall i | 0 <= i < |m| ensures m2[i] == m[i] {
      if i < |patch| {
        if i < |base| {
          CombineTwice(base[i], patch[i]);
        } else {
          CombineSelf(patch[i]);
        }
      }
    }
  }

  /** A one-entry patch is one turn of the loop. */
  lemma MergeOne(base: seq<Field>, f: Field)
    ensures MergeObjects(base, [f]) == MergeEntry(base, f)
  {
    MergeStep(base, [f]);
    assert [f][1..] == [];
  }

  /** A patch entry under a key the base holds at position `i`. */
  lemma EntryPresent(base: seq<Field>, f: Field, i: nat)
    requires UniqueKeys(base) && i < |base| && base[i].key == f.key
    ensures MergeEntry(base, f) == base[i := Field(f.key, Combine(base[i].val, f.val))]
  {
    LookupAt(base, i);
    PutPresentKey(base, f.key, Combine(base[i].val, f.val), i);
  }

  function IntV(i: int): Value {
    Scalar(Int(i))
  }

  /** A nested dict patch overrides one key and keeps its siblings: for any
      keys with `a != b` and `c != d`, `{a: x, b: {c: y, d: z}}` patched with
      `{b: {c: w}}` is `{a: x, b: {c: w, d: z}}`. */
  lemma NestedOverride(a: Key, b: Key, c: Key, d: Key, x: int, y: int, z: int, w: int)
    requires a != b && c != d
    ensures MergeObjects(
        [Field(a, IntV(x)), Field(b, Obj([Field(c, IntV(y)), Field(d, IntV(z))]))],
        [Field(b, Obj([Field(c, IntV(w))]))])
      == [Field(a, IntV(x)), Field(b, Obj([Field(c, IntV(w)), Field(d, IntV(z))]))]
  {
    var inner := [Field(c, IntV(y)), Field(d, IntV(z))];
    PatchFirstOfTwo(c, IntV(y), d, IntV(z), IntV(w));
    PatchSecondOfTwo(a, IntV(x), b, Obj(inner), Obj([Field(c, IntV(w))]));
  }

  /** Lists of dicts merge position by position: for any keys `items`, `id`
      and `n` (the last two distinct), `{items: [{id: i, n: a}, {id: j, n: b}]}`
      patched with `{items: [{n: c}]}` is `{items: [{id: i, n: c}, {id: j, n: b}]}`. */
  lemma ListOfDicts(items: Key, id: Key, n: Key, i: int, j: int, a: string, b: string, c: string)
    requires id != n
    ensures MergeObjects(
        [Field(items, Arr([
          Obj([Field(id, IntV(i)), Field(n, Str(a))]),
          Obj([Field(id, IntV(j)), Field(n, Str(b))])]))],
        [Field(items, Arr([Obj([Field(n, Str(c))])]))])
      == [Field(items, Arr([
          Obj([Field(id, IntV(i)), Field(n, Str(c))]),
          Obj([Field(id, IntV(j)), Field(n, Str(b))])]))]
  {
    var first := [Field(id, IntV(i)), Field(n, Str(a))];
    PatchSecondOfTwo(id, IntV(i), n, Str(a), Str(c));
    FirstItemPatch(items, first, Obj([Field(id, IntV(j)), Field(n, Str(b))]), [Field(n, Str(c))]);
  }

  /** A one-entry patch holding a one-dict list, applied to a one-entry dict
      holding a two-element list under the same key, merges into the first
      element only. */
  lemma FirstItemPatch(k: Key, first: seq<Field>, second: Value, p: seq<Field>)
    ensures MergeObjects([Field(k, Arr([Obj(first), second]))], [Field(k, Arr([Obj(p)]))])
      == [Field(k, Arr([Obj(MergeObjects(first, p)), second]))]
  {
    ListPatchFirst(Obj(first), second, Obj(p));
    PatchOnly(k, Arr([Obj(first), second]), Arr([Obj(p)]));
  }

  /** A one-entry patch of a one-entry dict under the same key. */
  lemma PatchOnly(k: Key, prior: Value, v: Value)
    ensures MergeObjects([Field(k, prior)], [Field(k, v)]) == [Field(k, Combine(prior, v))]
  {
    MergeOne([Field(k, prior)], Field(k, v));
    EntryPresent([Field(k, prior)], Field(k, v), 0);
  }

  /** A one-entry patch of a two-entry dict under its first key. */
  lemma PatchFirstOfTwo(k1: Key, v1: Value, k2: Key, v2: Value, v: Value)
    requires k1 != k2
    ensures MergeObjects([Field(k1, v1), Field(k2, v2)], [Field(k1, v)])
      == [Field(k1, Combine(v1, v)), Field(k2, v2)]
  {
    var base := [Field(k1, v1), Field(k2, v2)];
    assert UniqueKeys(base);
    MergeOne(base, Field(k1, v));
    EntryPresent(base, Field(k1, v), 0);
  }

  /** A one-entry patch of a two-entry dict under its second key. */
  lemma PatchSecondOfTwo(k1: Key, v1: Value, k2: Key, v2: Value, v: Value)
    requires k1 != k2
    ensures MergeObjects([Field(k1, v1), Field(k2, v2)], [Field(k2, v)])
      == [Field(k1, v1), Field(k2, Combine(v2, v))]
  {
    var base := [Field(k1, v1), Field(k2, v2)];
    assert UniqueKeys(base);
    MergeOne(base, Field(k2, v));
    EntryPresent(base, Field(k2, v), 1);
  }

  /** A one-element list patch of a two-element list. */
  lemma ListPatchFirst(x: Value, y: Value, p: Value)
    ensures MergeLists([x, y], [p]) == [MergeItem(x, p), y]
  {
  }

  /** `None` in a list patch keeps the base element: `[1, 2, 3]` patched with
      `[None, 9, None]` is `[1, 9, 3]`. */
  lemma NullKeepsListItem()
    ensures MergeLists([IntV(1), IntV(2), IntV(3)], [Null, IntV(9), Null]) == [IntV(1), IntV(9), IntV(3)]
  {
    var r := MergeLists([IntV(1), IntV(2), IntV(3)], [Null, IntV(9), Null]);
    assert r[0] == MergeItem(IntV(1), Null);
    assert r[1] == MergeItem(IntV(2), IntV(9));
    assert r[2] == MergeItem(IntV(3), Null);
  }

  lemma AppendHead<T>(a: seq<T>, b: seq<T>)
    requires b != []
    ensures a + [b[0]] + b[1..] == a + b
  {
    assert [b[0]] + b[1..] == b;
  }
}
