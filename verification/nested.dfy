/**
  Path insertion (`set_nested_value` in flowctl/utils.py): store one flag value
  at the position a key path names inside the payload dict, creating containers
  on the way. Python signals a path that does not fit the structure already
  built only by raising whatever error the mismatched container happens to
  produce; here every such case is the one error `Conflict`.
 */
module Nested {
  import opened Wrappers
  import opened Values
  import opened KeyPath

  datatype PathError =
    | EmptyPath   // a flag that is only dashes: `keys[-1]` fails on an empty list
    | Conflict    // a segment meets a value of the wrong shape

  /** The container created for a missing or `None` slot: a list when the next
      segment indexes or appends, a dict otherwise. */
  function Fresh(next: Segment): Value {
    if next.Key? then Obj([]) else Arr([])
  }

  /** The container a non-final segment continues into: the value already in
      the slot, or a fresh container when the slot is missing or `None`. */
  function Descend(prior: Option<Value>, next: Segment): Value {
    match prior
    case Some(x) => if x == Null then Fresh(next) else x
    case None => Fresh(next)
  }

  /** The list position an index or append segment targets. */
  function Slot(items: seq<Value>, seg: Segment): nat
    requires !seg.Key?
  {
    if seg.Append? then |items| else seg.n
  }

  function Max(a: nat, b: nat): nat {
    if a < b then b else a
  }

  /** `while len(d) <= n: d.append(None)`. */
  function Pad(items: seq<Value>, n: nat): (r: seq<Value>)
    decreases n + 1 - |items|
    ensures |r| == Max(|items|, n + 1)
    ensures r[..|items|] == items
    ensures forall i :: |items| <= i < |r| ==> r[i] == Null
  {
    if |items| > n then items else Pad(items + [Null], n)
  }

  /** What a final key segment stores: the value itself, or the existing list
      with the value appended. */
  function Stored(existing: Option<Value>, v: Value): Value {
    match existing
    case Some(Arr(xs)) => Arr(xs + [v])
    case _ => v
  }

  /** The last segment of a path (utils.py lines 479-490, with an index into a
      dict treated as a conflict; see AssignLastAsWritten). */
  function AssignLast(c: Value, seg: Segment, v: Value): (r: Result<Value, PathError>)
    ensures seg.Key? ==> (r.Ok? <==> c.Obj?)
    ensures !seg.Key? ==> (r.Ok? <==> c.Arr?)
    ensures r.Ok? && seg.Key? ==>
      var k := Name(seg.name);
      && r.value.Obj?
      && (Lookup(c.fields, k).Some? && Lookup(c.fields, k).value.Arr? ==>
            Lookup(r.value.fields, k) == Some(Arr(Lookup(c.fields, k).value.items + [v])))
      && (!(Lookup(c.fields, k).Some? && Lookup(c.fields, k).value.Arr?) ==>
            Lookup(r.value.fields, k) == Some(v))
      && (forall k' :: k' != k ==> Lookup(r.value.fields, k') == Lookup(c.fields, k'))
      && KeysOf(r.value.fields) == (if k in KeysOf(c.fields) then KeysOf(c.fields) else KeysOf(c.fields) + [k])
    ensures r.Ok? && !seg.Key? ==>
      var n := Slot(c.items, seg);
      && r.value.Arr?
      && |r.value.items| == Max(|c.items|, n + 1)
      && r.value.items[n] == v
      && (forall i :: 0 <= i < |c.items| && i != n ==> r.value.items[i] == c.items[i])
      && (forall i :: |c.items| <= i < |r.value.items| && i != n ==> r.value.items[i] == Null)
  {
    match seg
    case Key(name) =>
      if !c.Obj? then Err(Conflict)
      else Ok(Obj(Put(c.fields, Name(name), Stored(Lookup(c.fields, Name(name)), v))))
    case _ =>
      if !c.Arr? then Err(Conflict)
      else
        var n := Slot(c.items, seg);
        var items := Pad(c.items, n);
        assert forall i :: 0 <= i < |c.items| ==> items[i] == items[..|c.items|][i];
        Ok(Arr(items[n := v]))
  }

  /** `set_nested_value(c, path, v)` for a non-empty path. */
  function Insert(c: Value, path: seq<Segment>, v: Value): (r: Result<Value, PathError>)
    requires |path| > 0
    decreases |path|
    ensures r.Err? ==> r.error == Conflict
    ensures r.Ok? && path[0].Key? ==> c.Obj? && r.value.Obj?
    ensures r.Ok? && !path[0].Key? ==> c.Arr? && r.value.Arr?
    ensures r.Ok? && path[0].Key? ==>
      var k := Name(path[0].name);
      && (forall k' :: k' != k ==> Lookup(r.value.fields, k') == Lookup(c.fields, k'))
      && KeysOf(r.value.fields) == (if k in KeysOf(c.fields) then KeysOf(c.fields) else KeysOf(c.fields) + [k])
    ensures r.Ok? && !path[0].Key? ==>
      var n := Slot(c.items, path[0]);
      && |r.value.items| == Max(|c.items|, n + 1)
      && (forall i :: 0 <= i < |c.items| && i != n ==> r.value.items[i] == c.items[i])
      && (forall i :: |c.items| <= i < |r.value.items| && i != n ==> r.value.items[i] == Null)
  {
    if |path| == 1 then AssignLast(c, path[0], v)
    else
      var next := path[1];
      match path[0]
      case Key(name) =>
        if !c.Obj? then Err(Conflict)
        else
          var child := Descend(Lookup(c.fields, Name(name)), next);
          var sub :- Insert(child, path[1..], v);
          Ok(Obj(Put(c.fields, Name(name), sub)))
      case _ =>
        if !c.Arr? then Err(Conflict)
        else
          var n := Slot(c.items, path[0]);
          var items := Pad(c.items, n);
          assert forall i :: 0 <= i < |c.items| ==> items[i] == items[..|c.items|][i];
          var child := Descend(Some(items[n]), next);
          var sub :- Insert(child, path[1..], v);
          Ok(Arr(items[n := sub]))
  }

  /** A one-segment path is the final step alone. */
  lemma InsertOne(c: Value, seg: Segment, v: Value)
    ensures Insert(c, [seg], v) == AssignLast(c, seg, v)
  {
  }

  /** A leading key segment descends into the slot under that key and writes
      the updated child back. */
  lemma InsertUnderKey(fields: seq<Field>, name: string, rest: seq<Segment>, v: Value)
    requires rest != []
    ensures var step := Insert(Descend(Lookup(fields, Name(name)), rest[0]), rest, v);
      Insert(Obj(fields), [Key(name)] + rest, v) ==
        if step.Ok? then Ok(Obj(Put(fields, Name(name), step.value))) else step
  {
    var path := [Key(name)] + rest;
    assert path[0] == Key(name) && path[1] == rest[0] && path[1..] == rest;
  }

  /** The whole of `set_nested_value`: an empty path is an error. */
  function SetNested(root: Value, path: seq<Segment>, v: Value): (r: Result<Value, PathError>)
    ensures path == [] <==> r == Err(EmptyPath)
  {
    if path == [] then Err(EmptyPath) else Insert(root, path, v)
  }

  /** Reading a value back along a path of keys and indices. */
  function Get(v: Value, path: seq<Segment>): Option<Value> {
    if path == [] then Some(v)
    else
      match path[0]
      case Key(name) =>
        if !v.Obj? then None
        else (match Lookup(v.fields, Name(name))
          case Some(x) => Get(x, path[1..])
          case None => None)
      case Index(n) =>
        if v.Arr? && n < |v.items| then Get(v.items[n], path[1..]) else None
      case Append => None
  }

  predicate NoAppend(path: seq<Segment>) {
    forall i :: 0 <= i < |path| ==> !path[i].Append?
  }

  /** Read after write: after a successful insertion along a path without `[]`,
      the path leads to the value, or, for a final key that already held a list,
      to that list with the value appended. */
  lemma {:induction false} GetAfterInsert(c: Value, path: seq<Segment>, v: Value)
    requires |path| > 0 && NoAppend(path)
    requires Insert(c, path, v).Ok?
    decreases |path|
    ensures path[|path| - 1].Index? ==> Get(Insert(c, path, v).value, path) == Some(v)
    ensures path[|path| - 1].Key? ==> Get(Insert(c, path, v).value, path) == Some(Stored(Get(c, path), v))
  {
    if |path| == 1 {
      LastStepReadsBack(c, path, v);
    } else {
      var rest := path[1..];
      assert NoAppend(rest) by {
        forall i | 0 <= i < |rest| ensures !rest[i].Append? {
          assert rest[i] == path[i + 1];
        }
      }
      match path[0]
      case Key(name) =>
        var child := Descend(Lookup(c.fields, Name(name)), path[1]);
        GetAfterInsert(child, rest, v);
        KeyStepReadsBack(c, path, v, child, Insert(child, rest, v).value);
      case Index(n) =>
        var child := Descend(Some(Pad(c.items, n)[n]), path[1]);
        GetAfterInsert(child, rest, v);
        IndexStepReadsBack(c, path, v, child, Insert(child, rest, v).value);
    }
  }

  /** The read-after-write property of `GetAfterInsert`, for the value `r`
      that inserting `v` along `path` into `c` produced. */
  predicate ReadsBack(c: Value, path: seq<Segment>, v: Value, r: Value)
    requires |path| > 0
  {
    && (path[|path| - 1].Index? ==> Get(r, path) == Some(v))
    && (path[|path| - 1].Key? ==> Get(r, path) == Some(Stored(Get(c, path), v)))
  }

  lemma LastStepReadsBack(c: Value, path: seq<Segment>, v: Value)
    requires |path| == 1 && !path[0].Append? && Insert(c, path, v).Ok?
    ensures ReadsBack(c, path, v, Insert(c, path, v).value)
  {
    var r := Insert(c, path, v).value;
    assert path == [path[0]] && path[1..] == [];
    InsertOne(c, path[0], v);
    match path[0]
    case Key(name) =>
      assert Get(c, path) == Lookup(c.fields, Name(name));
    case Index(n) =>
  }

  lemma KeyStepReadsBack(c: Value, path: seq<Segment>, v: Value, child: Value, sub: Value)
    requires |path| > 1 && path[0].Key? && !path[1].Append? && c.Obj?
    requires child == Descend(Lookup(c.fields, Name(path[0].name)), path[1])
    requires Insert(child, path[1..], v) == Ok(sub)
    requires ReadsBack(child, path[1..], v, sub)
    ensures Insert(c, path, v) == Ok(Obj(Put(c.fields, Name(path[0].name), sub)))
    ensures ReadsBack(c, path, v, Obj(Put(c.fields, Name(path[0].name), sub)))
  {
    var rest := path[1..];
    var prior := Lookup(c.fields, Name(path[0].name));
    var r := Obj(Put(c.fields, Name(path[0].name), sub));
    assert path[|path| - 1] == rest[|rest| - 1];
    assert Get(r, path) == Get(sub, rest);
    if prior.Some? && prior.value != Null {
      assert Get(c, path) == Get(child, rest);
    } else {
      FreshHoldsNothing(path[1], rest);
      NothingBelow(c, path);
    }
  }

  lemma IndexStepReadsBack(c: Value, path: seq<Segment>, v: Value, child: Value, sub: Value)
    requires |path| > 1 && path[0].Index? && !path[1].Append? && c.Arr?
    requires child == Descend(Some(Pad(c.items, path[0].n)[path[0].n]), path[1])
    requires Insert(child, path[1..], v) == Ok(sub)
    requires ReadsBack(child, path[1..], v, sub)
    ensures Insert(c, path, v) == Ok(Arr(Pad(c.items, path[0].n)[path[0].n := sub]))
    ensures ReadsBack(c, path, v, Arr(Pad(c.items, path[0].n)[path[0].n := sub]))
  {
    var n := path[0].n;
    var rest := path[1..];
    var items := Pad(c.items, n);
    var r := Arr(items[n := sub]);
    assert path[|path| - 1] == rest[|rest| - 1];
    assert Get(r, path) == Get(sub, rest);
    if items[n] != Null {
      assert n < |c.items| && items[n] == c.items[n];
      assert Get(c, path) == Get(child, rest);
    } else {
      FreshHoldsNothing(path[1], rest);
      NothingBelow(c, path);
    }
  }

  /** A freshly created container holds nothing along a path of keys and indices. */
  lemma FreshHoldsNothing(next: Segment, rest: seq<Segment>)
    requires |rest| > 0 && rest[0] == next && !next.Append?
    ensures Get(Fresh(next), rest) == None
  {
  }

  /** When the slot a path's head leads to is missing or `None`, the old value
      has nothing along the rest of the path, so a final key stores `v` itself. */
  lemma NothingBelow(c: Value, path: seq<Segment>)
    requires |path| > 1 && !path[0].Append? && !path[1].Append?
    requires path[0].Key? ==> c.Obj? && (Lookup(c.fields, Name(path[0].name)).None? || Lookup(c.fields, Name(path[0].name)) == Some(Null))
    requires path[0].Index? ==> c.Arr? && (path[0].n >= |c.items| || c.items[path[0].n] == Null)
    ensures Get(c, path) == None || Get(c, path) == Some(Null)
  {
    assert Get(Null, path[1..]) == None;
  }

  /** Inserting into the container a path's first segment would create never
      conflicts: every container on the way is created to fit. */
  lemma {:induction false} InsertIntoFresh(path: seq<Segment>, v: Value)
    requires |path| > 0
    decreases |path|
    ensures Insert(Fresh(path[0]), path, v).Ok?
  {
    if |path| > 1 {
      InsertIntoFresh(path[1..], v);
      if !path[0].Key? {
        var n := Slot([], path[0]);
        assert Pad([], n)[n] == Null;
      }
    }
  }

  /** Flag names are the only dict keys: no integer key anywhere. */
  predicate NamedKeysOnly(v: Value) {
    match v
    case Obj(fs) => forall i :: 0 <= i < |fs| ==> fs[i].key.Name? && NamedKeysOnly(fs[i].val)
    case Arr(xs) => forall i :: 0 <= i < |xs| ==> NamedKeysOnly(xs[i])
    case _ => true
  }

  /** Insertion keeps the payload free of integer keys (the property the
      as-written final step breaks, see AssignLastAsWritten), and keeps dict
      keys unique. */
  lemma {:induction false} InsertKeepsShape(c: Value, path: seq<Segment>, v: Value)
    requires |path| > 0 && Insert(c, path, v).Ok?
    requires NamedKeysOnly(c) && NamedKeysOnly(v)
    requires WellFormed(c) && WellFormed(v)
    decreases |path|
    ensures NamedKeysOnly(Insert(c, path, v).value)
    ensures WellFormed(Insert(c, path, v).value)
  {
    if |path| == 1 {
      LastStepKeepsShape(c, path, v);
    } else if path[0].Key? {
      var child := Descend(Lookup(c.fields, Name(path[0].name)), path[1]);
      ChildShape(c, Name(path[0].name), path[1]);
      InsertKeepsShape(child, path[1..], v);
      KeyStepKeepsShape(c, path, v, child, Insert(child, path[1..], v).value);
    } else {
      var n := Slot(c.items, path[0]);
      var items := Pad(c.items, n);
      PadKeepsShape(c.items, n, Null);
      assert NamedKeysOnly(items[n]) && WellFormed(items[n]);
      var child := Descend(Some(items[n]), path[1]);
      InsertKeepsShape(child, path[1..], v);
      IndexStepKeepsShape(c, path, v, child, Insert(child, path[1..], v).value);
    }
  }

  lemma LastStepKeepsShape(c: Value, path: seq<Segment>, v: Value)
    requires |path| == 1 && Insert(c, path, v).Ok?
    requires NamedKeysOnly(c) && NamedKeysOnly(v) && WellFormed(c) && WellFormed(v)
    ensures NamedKeysOnly(Insert(c, path, v).value) && WellFormed(Insert(c, path, v).value)
  {
    assert path == [path[0]];
    InsertOne(c, path[0], v);
    if path[0].Key? {
      var k := Name(path[0].name);
      StoredKeepsShape(c, k, v);
      PutKeepsShape(c.fields, k, Stored(Lookup(c.fields, k), v));
    } else {
      PadKeepsShape(c.items, Slot(c.items, path[0]), v);
    }
  }

  /** The container a key segment continues into has the shape of `c`'s values. */
  lemma ChildShape(c: Value, k: Key, next: Segment)
    requires c.Obj? && NamedKeysOnly(c) && WellFormed(c)
    ensures NamedKeysOnly(Descend(Lookup(c.fields, k), next)) && WellFormed(Descend(Lookup(c.fields, k), next))
  {
    var o := Lookup(c.fields, k);
    if o.Some? {
      FieldShape(c, Field(k, o.value));
    }
  }

  lemma KeyStepKeepsShape(c: Value, path: seq<Segment>, v: Value, child: Value, sub: Value)
    requires |path| > 1 && path[0].Key? && c.Obj?
    requires child == Descend(Lookup(c.fields, Name(path[0].name)), path[1])
    requires Insert(child, path[1..], v) == Ok(sub)
    requires NamedKeysOnly(c) && WellFormed(c) && NamedKeysOnly(sub) && WellFormed(sub)
    ensures Insert(c, path, v) == Ok(Obj(Put(c.fields, Name(path[0].name), sub)))
    ensures NamedKeysOnly(Insert(c, path, v).value) && WellFormed(Insert(c, path, v).value)
  {
    PutKeepsShape(c.fields, Name(path[0].name), sub);
  }

  lemma IndexStepKeepsShape(c: Value, path: seq<Segment>, v: Value, child: Value, sub: Value)
    requires |path| > 1 && !path[0].Key? && c.Arr?
    requires child == Descend(Some(Pad(c.items, Slot(c.items, path[0]))[Slot(c.items, path[0])]), path[1])
    requires Insert(child, path[1..], v) == Ok(sub)
    requires NamedKeysOnly(c) && WellFormed(c) && NamedKeysOnly(sub) && WellFormed(sub)
    ensures Insert(c, path, v) == Ok(Arr(Pad(c.items, Slot(c.items, path[0]))[Slot(c.items, path[0]) := sub]))
    ensures NamedKeysOnly(Insert(c, path, v).value) && WellFormed(Insert(c, path, v).value)
  {
    PadKeepsShape(c.items, Slot(c.items, path[0]), sub);
  }

  lemma FieldShape(c: Value, f: Field)
    requires c.Obj? && f in c.fields
    requires NamedKeysOnly(c) && WellFormed(c)
    ensures NamedKeysOnly(f.val) && WellFormed(f.val)
  {
    var i :| 0 <= i < |c.fields| && c.fields[i] == f;
  }

  lemma StoredKeepsShape(c: Value, k: Key, v: Value)
    requires c.Obj? && NamedKeysOnly(c) && WellFormed(c)
    requires NamedKeysOnly(v) && WellFormed(v)
    ensures NamedKeysOnly(Stored(Lookup(c.fields, k), v)) && WellFormed(Stored(Lookup(c.fields, k), v))
  {
    var o := Lookup(c.fields, k);
    if o.Some? {
      FieldShape(c, Field(k, o.value));
      if o.value.Arr? {
        var xs := o.value.items + [v];
        assert forall i :: 0 <= i < |xs| ==> xs[i] == v || xs[i] == o.value.items[i];
      }
    }
  }

  lemma PutKeepsShape(fields: seq<Field>, k: Key, v: Value)
    requires NamedKeysOnly(Obj(fields)) && WellFormed(Obj(fields))
    requires k.Name? && NamedKeysOnly(v) && WellFormed(v)
    ensures NamedKeysOnly(Obj(Put(fields, k, v))) && WellFormed(Obj(Put(fields, k, v)))
  {
    var r := Put(fields, k, v);
    forall i | 0 <= i < |r| ensures r[i].key.Name? && NamedKeysOnly(r[i].val) && WellFormed(r[i].val) {
      if r[i] != Field(k, v) {
        FieldShape(Obj(fields), r[i]);
      }
    }
  }

  lemma PadKeepsShape(items: seq<Value>, n: nat, v: Value)
    requires NamedKeysOnly(Arr(items)) && WellFormed(Arr(items))
    requires NamedKeysOnly(v) && WellFormed(v)
    ensures NamedKeysOnly(Arr(Pad(items, n))) && WellFormed(Arr(Pad(items, n)))
    ensures NamedKeysOnly(Arr(Pad(items, n)[n := v])) && WellFormed(Arr(Pad(items, n)[n := v]))
  {
    var p := Pad(items, n);
    assert forall i :: 0 <= i < |items| ==> p[i] == p[..|items|][i];
  }

  /** The last step exactly as utils.py lines 479-490 are written. An index `n`
      into a dict runs `while len(d) <= n: d.append(None)`, which raises only
      when the dict has at most `n` keys; otherwise the loop does not run and
      `d[n] = value` stores the integer key `n` in the dict. */
  function AssignLastAsWritten(c: Value, seg: Segment, v: Value): (r: Result<Value, PathError>)
    ensures c.Obj? && seg.Index? ==> (r.Ok? <==> seg.n < |c.fields|)
    ensures c.Obj? && seg.Index? && r.Ok? ==> r.value.Obj? && Lookup(r.value.fields, Num(seg.n)) == Some(v)
    ensures !(c.Obj? && seg.Index?) ==> r == AssignLast(c, seg, v)
  {
    match seg
    case Index(n) =>
      if c.Obj? then
        if |c.fields| <= n then Err(Conflict) else Ok(Obj(Put(c.fields, Num(n), v)))
      else AssignLast(c, seg, v)
    case _ => AssignLast(c, seg, v)
  }

  /** `--a.b 1 --a[0] x` leaves `{a: {b: '1', 0: 'x'}}` as written, while
      `--a.b 1 --a[1] x` raises; the corrected step rejects both. */
  lemma IndexIntoDictAsWritten()
    ensures var d := Obj([Field(Name("b"), Str("1"))]);
      && AssignLastAsWritten(d, Index(0), Str("x"))
           == Ok(Obj([Field(Name("b"), Str("1")), Field(Num(0), Str("x"))]))
      && AssignLastAsWritten(d, Index(1), Str("x")).Err?
      && AssignLast(d, Index(0), Str("x")) == Err(Conflict)
      && AssignLast(d, Index(1), Str("x")) == Err(Conflict)
  {
    var fs := [Field(Name("b"), Str("1"))];
    assert fs[1..] == [];
    assert IndexOf(fs, Num(0)) == None;
    assert Put(fs, Num(0), Str("x")) == fs + [Field(Num(0), Str("x"))];
    assert fs + [Field(Num(0), Str("x"))] == [Field(Name("b"), Str("1")), Field(Num(0), Str("x"))];
  }
}
