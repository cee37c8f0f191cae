/**
  The free-form argument parser (`parse_complex_args` in flowctl/utils.py).
  Tokens left over by the command-line framework are read left to right: a
  token that does not start with `-` is a positional argument; a token that
  does is a flag, whose name (all leading dashes stripped) is a key path and
  whose value is the next token, whatever it looks like, or `None` when the
  flag is the last token.
 */
module CliArgs {
  import opened Wrappers
  import opened Values
  import opened KeyPath
  import opened Nested

  datatype Parsed = Parsed(args: seq<string>, kwargs: Value)

  predicate IsFlag(t: string) {
    |t| > 0 && t[0] == '-'
  }

  /** `t.lstrip('-')`. */
  function StripDashes(t: string): (r: string)
    ensures |r| <= |t| && r == t[|t| - |r|..]
    ensures forall i :: 0 <= i < |t| - |r| ==> t[i] == '-'
    ensures !IsFlag(r)
  {
    if IsFlag(t) then StripDashes(t[1..]) else t
  }

  /** The key path a flag token names. */
  function FlagPath(t: string): seq<Segment> {
    ParseKey(StripDashes(t))
  }

  /** The positional arguments of a token list, read without building the
      payload: a flag drops itself and the token after it, any other token is
      kept. */
  function Positionals(tokens: seq<string>): seq<string>
    decreases |tokens|
  {
    if tokens == [] then []
    else if IsFlag(tokens[0]) then (if |tokens| > 1 then Positionals(tokens[2..]) else [])
    else [tokens[0]] + Positionals(tokens[1..])
  }

  /** The loop of `parse_complex_args`, from the tokens not yet read and what
      has been collected so far. */
  function ParseFrom(rest: seq<string>, args: seq<string>, kwargs: Value): (r: Result<Parsed, PathError>)
    decreases |rest|
    ensures r.Ok? ==> r.value.args == args + Positionals(rest)
    ensures r.Ok? ==> args <= r.value.args && |r.value.args| <= |args| + |rest|
    ensures r.Ok? ==> forall i :: |args| <= i < |r.value.args| ==> !IsFlag(r.value.args[i])
    ensures r.Ok? && kwargs.Obj? ==> r.value.kwargs.Obj?
  {
    if rest == [] then Ok(Parsed(args, kwargs))
    else if IsFlag(rest[0]) then
      var value := if |rest| > 1 then Str(rest[1]) else Null;
      var kw :- SetNested(kwargs, FlagPath(rest[0]), value);
      ParseFrom(if |rest| > 1 then rest[2..] else [], args, kw)
    else
      assert args + [rest[0]] + Positionals(rest[1..]) == args + Positionals(rest);
      ParseFrom(rest[1..], args + [rest[0]], kwargs)
  }

  /** The payload the parser builds has unique keys and only flag names as keys. */
  lemma {:induction false} ParseKeepsShape(rest: seq<string>, args: seq<string>, kwargs: Value)
    requires NamedKeysOnly(kwargs) && WellFormed(kwargs)
    requires ParseFrom(rest, args, kwargs).Ok?
    decreases |rest|
    ensures NamedKeysOnly(ParseFrom(rest, args, kwargs).value.kwargs)
    ensures WellFormed(ParseFrom(rest, args, kwargs).value.kwargs)
  {
    if rest != [] {
      if IsFlag(rest[0]) {
        var value := if |rest| > 1 then Str(rest[1]) else Null;
        InsertKeepsShape(kwargs, FlagPath(rest[0]), value);
        ParseKeepsShape(if |rest| > 1 then rest[2..] else [], args, SetNested(kwargs, FlagPath(rest[0]), value).value);
      } else {
        ParseKeepsShape(rest[1..], args + [rest[0]], kwargs);
      }
    }
  }

  /** `parse_complex_args(tokens)`: the positional arguments and the keyword
      payload, a dict with unique keys that are all flag names. */
  function ParseComplexArgs(tokens: seq<string>): (r: Result<Parsed, PathError>)
    ensures r.Ok? ==> r.value.kwargs.Obj?
    ensures r.Ok? ==> r.value.args == Positionals(tokens)
    ensures r.Ok? ==> |r.value.args| <= |tokens|
    ensures r.Ok? ==> forall i :: 0 <= i < |r.value.args| ==> !IsFlag(r.value.args[i])
    ensures r.Ok? ==> NamedKeysOnly(r.value.kwargs) && WellFormed(r.value.kwargs)
  {
    var r := ParseFrom(tokens, [], Obj([]));
    if r.Ok? then
      ParseKeepsShape(tokens, [], Obj([]));
      r
    else
      r
  }

  /** Positional tokens are collected in their original order, and what follows
      them is parsed as if they were not there. */
  lemma {:induction false} PositionalsInOrder(p: seq<string>, rest: seq<string>, args: seq<string>, kwargs: Value)
    requires forall i :: 0 <= i < |p| ==> !IsFlag(p[i])
    ensures ParseFrom(p + rest, args, kwargs) == ParseFrom(rest, args + p, kwargs)
  {
    if p != [] {
      assert (p + rest)[0] == p[0] && (p + rest)[1..] == p[1..] + rest;
      assert ParseFrom(p + rest, args, kwargs) == ParseFrom(p[1..] + rest, args + [p[0]], kwargs);
      PositionalsInOrder(p[1..], rest, args + [p[0]], kwargs);
      assert args + [p[0]] + p[1..] == args + p;
    } else {
      assert p + rest == rest && args + p == args;
    }
  }

  /** Without flags, every token is positional and the payload stays empty. */
  lemma NoFlagsAllPositional(tokens: seq<string>)
    requires forall i :: 0 <= i < |tokens| ==> !IsFlag(tokens[i])
    ensures ParseComplexArgs(tokens) == Ok(Parsed(tokens, Obj([])))
  {
    PositionalsInOrder(tokens, [], [], Obj([]));
    assert tokens + [] == tokens;
    assert [] + tokens == tokens;
  }

  /** A flag always takes the next token as its value, even one that starts
      with `-`; the value is never a positional argument. */
  lemma FlagTakesNextToken(f: string, v: string, rest: seq<string>, args: seq<string>, kwargs: Value)
    requires IsFlag(f)
    ensures var step := SetNested(kwargs, FlagPath(f), Str(v));
      ParseFrom([f, v] + rest, args, kwargs) ==
        if step.Ok? then ParseFrom(rest, args, step.value) else Err(step.error)
  {
    assert ([f, v] + rest)[2..] == rest;
  }

  /** A flag that is the last token stores `None`. */
  lemma TrailingFlagIsNone(f: string, args: seq<string>, kwargs: Value)
    requires IsFlag(f)
    ensures var step := SetNested(kwargs, FlagPath(f), Null);
      ParseFrom([f], args, kwargs) == if step.Ok? then Ok(Parsed(args, step.value)) else Err(step.error)
  {
  }

  /** A flag spelled from a key path, given alone with a value, parses into a
      payload where that path leads to the value: the parser builds every
      container the path needs. */
  lemma SpelledFlagRoundTrip(path: seq<Segment>, v: string)
    requires |path| > 0 && path[0].Key? && NoAppend(path)
    requires forall i :: 0 <= i < |path| ==> Spellable(path[i])
    ensures ParseComplexArgs(["--" + Spell(path, true), v]).Ok?
    ensures Get(ParseComplexArgs(["--" + Spell(path, true), v]).value.kwargs, path) == Some(Str(v))
  {
    var f := "--" + Spell(path, true);
    FlagPathOfSpell(path);
    SingleFlag(f, v);
    InsertIntoFresh(path, Str(v));
    GetAfterInsert(Obj([]), path, Str(v));
    GetOfEmptyObject(path);
  }

  /** The flag `--<spelling>` names exactly the spelled path. */
  lemma FlagPathOfSpell(path: seq<Segment>)
    requires forall i :: 0 <= i < |path| ==> Spellable(path[i])
    ensures IsFlag("--" + Spell(path, true))
    ensures FlagPath("--" + Spell(path, true)) == path
  {
    SpellIsNotFlag(path);
    StripTwoDashes(Spell(path, true));
    ParseKeyOfSpell(path);
  }

  /** Stripping the two dashes in front of a name that does not start with one
      gives the name back. */
  lemma StripTwoDashes(s: string)
    requires !IsFlag(s)
    ensures IsFlag("--" + s) && StripDashes("--" + s) == s
  {
    var t := "--" + s;
    assert t[1..] == "-" + s;
    assert ("-" + s)[1..] == s;
  }

  lemma SpellIsNotFlag(path: seq<Segment>)
    requires path != [] ==> Spellable(path[0])
    ensures !IsFlag(Spell(path, true))
  {
    if path != [] {
      var head := SpellSegment(path[0]);
      assert head != [] && head[0] != '-' by {
        match path[0]
        case Key(name) =>
          assert IsWordChar(name[0]);
        case Index(n) =>
          assert head == "[" + Decimal(n) + "]";
        case Append =>
      }
      var s := Spell(path, true);
      assert s == ("" + head) + Spell(path[1..], false);
      assert s[0] == head[0];
    }
  }

  /** One flag and its value, alone: the payload is the insertion into `{}`. */
  lemma SingleFlag(f: string, v: string)
    requires IsFlag(f)
    ensures var step := SetNested(Obj([]), FlagPath(f), Str(v));
      ParseComplexArgs([f, v]) == if step.Ok? then Ok(Parsed([], step.value)) else Err(step.error)
  {
    FlagTakesNextToken(f, v, [], [], Obj([]));
    assert [f, v] + [] == [f, v];
  }

  lemma GetOfEmptyObject(path: seq<Segment>)
    requires |path| > 0 && path[0].Key?
    ensures Get(Obj([]), path) == None
  {
  }

  /** The flag `f`, spelled from `path`, names `path`. */
  lemma FlagNames(f: string, path: seq<Segment>)
    requires forall i :: 0 <= i < |path| ==> Spellable(path[i])
    requires f == "--" + Spell(path, true)
    ensures IsFlag(f) && FlagPath(f) == path
  {
    FlagPathOfSpell(path);
  }

  /** The flag `--<a>.<b>` names the two-key path. */
  lemma FlagOfTwoKeys(a: string, b: string)
    requires IsWordRun(a) && IsWordRun(b)
    ensures IsFlag("--" + a + "." + b) && FlagPath("--" + a + "." + b) == [Key(a), Key(b)]
  {
    SpellPair(Key(a), Key(b));
    Concat4("--", a, ".", b);
    FlagNames("--" + a + "." + b, [Key(a), Key(b)]);
  }

  lemma SpellKeyThenSlot(a: string, seg: Segment)
    requires !seg.Key?
    ensures Spell([Key(a), seg], true) == a + SpellSegment(seg)
  {
    SpellPair(Key(a), seg);
    assert a + "" == a;
  }

  lemma Concat3(x: string, y: string, z: string)
    ensures x + y + z == x + (y + z)
  {
  }

  lemma Concat4(w: string, x: string, y: string, z: string)
    ensures w + x + y + z == w + (x + y + z)
  {
  }

  /** How a two-segment path is spelled. */
  lemma SpellPair(x: Segment, y: Segment)
    ensures Spell([x, y], true) == SpellSegment(x) + (if y.Key? then "." else "") + SpellSegment(y)
  {
    var p := [x, y];
    assert p[0] == x && p[1..] == [y];
    SpellOne(y);
    assert Spell(p, true) == SpellSegment(x) + Spell([y], false);
  }

  /** How a one-segment tail is spelled. */
  lemma SpellOne(y: Segment)
    ensures Spell([y], false) == (if y.Key? then "." else "") + SpellSegment(y)
  {
    assert [y][1..] == [];
  }

  lemma InsertAB()
    ensures Insert(Obj([]), [Key("a"), Key("b")], Str("1")) == Ok(Obj([Field(Name("a"), Obj([Field(Name("b"), Str("1"))]))]))
  {
    var e: seq<Field> := [];
    InsertOne(Obj(e), Key("b"), Str("1"));
    PutNewKey(e, Name("b"), Str("1"));
    assert Put(e, Name("b"), Str("1")) == [Field(Name("b"), Str("1"))];
    assert Lookup(e, Name("b")) == None;
    var inner := Obj([Field(Name("b"), Str("1"))]);
    assert Stored(Lookup(e, Name("b")), Str("1")) == Str("1");
    assert AssignLast(Obj(e), Key("b"), Str("1")).Ok?;
    assert AssignLast(Obj(e), Key("b"), Str("1")).value == Obj(Put(e, Name("b"), Stored(Lookup(e, Name("b")), Str("1"))));
    assert Descend(Lookup(e, Name("a")), Key("b")) == Obj(e);
    InsertUnderKey(e, "a", [Key("b")], Str("1"));
    PutNewKey(e, Name("a"), inner);
    assert Put(e, Name("a"), inner) == [Field(Name("a"), inner)];
    assert Lookup(e, Name("a")) == None;
    assert Insert(Obj(e), [Key("b")], Str("1")) == Ok(inner);
    assert Insert(Obj(e), [Key("a")] + [Key("b")], Str("1")) == Ok(Obj(Put(e, Name("a"), inner)));
    assert [Key("a"), Key("b")] == [Key("a")] + [Key("b")];
  }

  /** A second key under an existing dict is added after its sibling. */
  lemma InsertAC(a: string, b: string, c: string, x: string, y: string)
    requires b != c
    ensures Insert(Obj([Field(Name(a), Obj([Field(Name(b), Str(x))]))]), [Key(a), Key(c)], Str(y))
      == Ok(Obj([Field(Name(a), Obj([Field(Name(b), Str(x)), Field(Name(c), Str(y))]))]))
  {
    var inner := [Field(Name(b), Str(x))];
    InsertSibling(inner, c, y);
    assert inner + [Field(Name(c), Str(y))] == [Field(Name(b), Str(x)), Field(Name(c), Str(y))];
    InsertIntoOnlyChild(a, Obj(inner), [Key(c)], Str(y));
  }

  /** Inserting through the one key of a dict rewrites its one entry. */
  lemma InsertIntoOnlyChild(a: string, child: Value, rest: seq<Segment>, v: Value)
    requires rest != [] && child != Null
    ensures var step := Insert(child, rest, v);
      Insert(Obj([Field(Name(a), child)]), [Key(a)] + rest, v) ==
        if step.Ok? then Ok(Obj([Field(Name(a), step.value)])) else step
  {
    var outer := [Field(Name(a), child)];
    LookupAt(outer, 0);
    InsertUnderKey(outer, a, rest, v);
    var step := Insert(child, rest, v);
    if step.Ok? {
      PutPresentKey(outer, Name(a), step.value, 0);
      assert Put(outer, Name(a), step.value) == [Field(Name(a), step.value)];
    }
  }

  /** Inserting under a new key of a dict appends the entry. */
  lemma InsertSibling(inner: seq<Field>, c: string, y: string)
    requires Lookup(inner, Name(c)) == None
    ensures Insert(Obj(inner), [Key(c)], Str(y)) == Ok(Obj(inner + [Field(Name(c), Str(y))]))
  {
    InsertOne(Obj(inner), Key(c), Str(y));
    PutNewKey(inner, Name(c), Str(y));
    assert Stored(Lookup(inner, Name(c)), Str(y)) == Str(y);
  }

  /** Two flags with values, no positionals: the payload is the two insertions
      one after the other. */
  lemma TwoFlags(f1: string, v1: string, f2: string, v2: string, kw1: Value, kw2: Value)
    requires IsFlag(f1) && IsFlag(f2)
    requires SetNested(Obj([]), FlagPath(f1), Str(v1)) == Ok(kw1)
    requires SetNested(kw1, FlagPath(f2), Str(v2)) == Ok(kw2)
    ensures ParseComplexArgs([f1, v1, f2, v2]) == Ok(Parsed([], kw2))
  {
    var e: seq<string> := [];
    FlagThenValue(f2, v2, e, kw1, kw2);
    FlagThenValue(f1, v1, [f2, v2], Obj([]), kw1);
    assert ParseFrom([f2, v2], e, kw1) == Ok(Parsed(e, kw2));
  }

  /** A flag and its value in front of `rest`, when the insertion succeeds. */
  lemma FlagThenValue(f: string, v: string, rest: seq<string>, kwargs: Value, kw: Value)
    requires IsFlag(f) && SetNested(kwargs, FlagPath(f), Str(v)) == Ok(kw)
    ensures ParseFrom([f, v] + rest, [], kwargs) == ParseFrom(rest, [], kw)
    ensures |rest| == 2 ==> ParseFrom([f, v, rest[0], rest[1]], [], kwargs) == ParseFrom(rest, [], kw)
    ensures rest == [] ==> ParseFrom([f, v], [], kwargs) == Ok(Parsed([], kw))
  {
    FlagValueStep(f, v, rest, kwargs, kw);
    if |rest| == 2 {
      assert [f, v, rest[0], rest[1]] == [f, v] + rest;
    }
    if rest == [] {
      assert [f, v] == [f, v] + rest;
    }
  }

  lemma FlagValueStep(f: string, v: string, rest: seq<string>, kwargs: Value, kw: Value)
    requires IsFlag(f) && SetNested(kwargs, FlagPath(f), Str(v)) == Ok(kw)
    ensures ParseFrom([f, v] + rest, [], kwargs) == ParseFrom(rest, [], kw)
  {
    var all := [f, v] + rest;
    assert all[0] == f && |all| > 1 && all[1] == v && all[2..] == rest;
  }

  lemma FlagAB()
    ensures IsFlag("--a.b") && FlagPath("--a.b") == [Key("a"), Key("b")]
  {
    Literal2Keys("a", "b");
    FlagOfTwoKeys("a", "b");
  }

  lemma FlagAC()
    ensures IsFlag("--a.c") && FlagPath("--a.c") == [Key("a"), Key("c")]
  {
    Literal2Keys("a", "c");
    FlagOfTwoKeys("a", "c");
  }

  /** The flag `--a.<x>` written out, for one-letter names. */
  lemma Literal2Keys(a: string, x: string)
    requires |a| == 1 && |x| == 1
    ensures "--" + a + "." + x == ['-', '-', a[0], '.', x[0]]
  {
  }

  /** Flags with a common prefix fill one nested dict. */
  lemma DottedFlagsShareParent()
    ensures ParseComplexArgs(["--a.b", "1", "--a.c", "2"]) ==
      Ok(Parsed([], Obj([Field(Name("a"), Obj([Field(Name("b"), Str("1")), Field(Name("c"), Str("2"))]))])))
  {
    FlagAB();
    FlagAC();
    InsertAB();
    InsertAC("a", "b", "c", "1", "2");
    var kw1 := Obj([Field(Name("a"), Obj([Field(Name("b"), Str("1"))]))]);
    var kw2 := Obj([Field(Name("a"), Obj([Field(Name("b"), Str("1")), Field(Name("c"), Str("2"))]))]);
    TwoFlags("--a.b", "1", "--a.c", "2",
      Obj([Field(Name("a"), Obj([Field(Name("b"), Str("1"))]))]),
      Obj([Field(Name("a"), Obj([Field(Name("b"), Str("1")), Field(Name("c"), Str("2"))]))]));
  }

  /** The flag `--<a>` names the one-key path. */
  lemma FlagOfKey(a: string)
    requires IsWordRun(a)
    ensures IsFlag("--" + a) && FlagPath("--" + a) == [Key(a)]
  {
    assert Spell([Key(a)], true) == "" + a + Spell([], false);
    assert "--" + a == "--" + Spell([Key(a)], true);
    FlagNames("--" + a, [Key(a)]);
  }

  /** The flag `--<a>[...]` names a key followed by an index or append segment. */
  lemma FlagOfKeyThenSlot(a: string, seg: Segment)
    requires IsWordRun(a) && !seg.Key?
    ensures IsFlag("--" + a + SpellSegment(seg)) && FlagPath("--" + a + SpellSegment(seg)) == [Key(a), seg]
  {
    SpellKeyThenSlot(a, seg);
    Concat3("--", a, SpellSegment(seg));
    FlagNames("--" + a + SpellSegment(seg), [Key(a), seg]);
  }

  lemma FlagListTwo()
    ensures IsFlag("--list[2]") && FlagPath("--list[2]") == [Key("list"), Index(2)]
  {
    assert Decimal(2) == "2";
    assert SpellSegment(Index(2)) == "[2]";
    assert "--list[2]" == "--" + "list" + SpellSegment(Index(2));
    FlagOfKeyThenSlot("list", Index(2));
  }

  lemma FlagTag()
    ensures IsFlag("--tag") && FlagPath("--tag") == [Key("tag")]
  {
    assert "--tag" == "--" + "tag";
    FlagOfKey("tag");
  }

  /** `name[]` on a missing key starts a one-element list. */
  lemma AppendToMissingKey(name: string, v: Value)
    ensures Insert(Obj([]), [Key(name), Append], v) == Ok(Obj([Field(Name(name), Arr([v]))]))
  {
    var e: seq<Field> := [];
    InsertUnderKey(e, name, [Append], v);
    assert Descend(Lookup(e, Name(name)), Append) == Arr([]);
    InsertOne(Arr([]), Append, v);
    assert AssignLast(Arr([]), Append, v).Ok?;
    assert AssignLast(Arr([]), Append, v).value.items == [v];
    PutNewKey(e, Name(name), Arr([v]));
    assert Put(e, Name(name), Arr([v])) == [Field(Name(name), Arr([v]))];
    assert [Key(name), Append] == [Key(name)] + [Append];
  }

  /** `name[]` on a key holding a list appends to it. */
  lemma AppendToListKey(name: string, xs: seq<Value>, v: Value)
    ensures Insert(Obj([Field(Name(name), Arr(xs))]), [Key(name), Append], v) == Ok(Obj([Field(Name(name), Arr(xs + [v]))]))
  {
    var fs := [Field(Name(name), Arr(xs))];
    InsertUnderKey(fs, name, [Append], v);
    LookupAt(fs, 0);
    assert Descend(Lookup(fs, Name(name)), Append) == Arr(xs);
    InsertOne(Arr(xs), Append, v);
    assert AssignLast(Arr(xs), Append, v).Ok?;
    assert AssignLast(Arr(xs), Append, v).value.items == xs + [v];
    assert Insert(Arr(xs), [Append], v) == Ok(Arr(xs + [v]));
    PutPresentKey(fs, Name(name), Arr(xs + [v]), 0);
    assert Put(fs, Name(name), Arr(xs + [v])) == [Field(Name(name), Arr(xs + [v]))];
    assert [Key(name), Append] == [Key(name)] + [Append];
  }

  /** A final key on a missing key stores the value. */
  lemma SetMissingKey(name: string, v: Value)
    ensures Insert(Obj([]), [Key(name)], v) == Ok(Obj([Field(Name(name), v)]))
  {
    var e: seq<Field> := [];
    InsertOne(Obj(e), Key(name), v);
    assert Stored(Lookup(e, Name(name)), v) == v;
    assert AssignLast(Obj(e), Key(name), v).Ok?;
    PutNewKey(e, Name(name), v);
    assert Put(e, Name(name), v) == [Field(Name(name), v)];
  }

  /** A final key on a key holding a list appends to that list; on any other
      value it overwrites. */
  lemma SetPresentKey(name: string, prior: Value, v: Value)
    ensures Insert(Obj([Field(Name(name), prior)]), [Key(name)], v) ==
      Ok(Obj([Field(Name(name), if prior.Arr? then Arr(prior.items + [v]) else v)]))
  {
    var fs := [Field(Name(name), prior)];
    InsertOne(Obj(fs), Key(name), v);
    LookupAt(fs, 0);
    var stored := if prior.Arr? then Arr(prior.items + [v]) else v;
    assert Stored(Lookup(fs, Name(name)), v) == stored;
    assert AssignLast(Obj(fs), Key(name), v).Ok?;
    PutPresentKey(fs, Name(name), stored, 0);
    assert Put(fs, Name(name), stored) == [Field(Name(name), stored)];
  }

  /** Repeated `name[]` flags collect their values in order. */
  lemma AppendFlagsCollect(n: string, x: string, y: string)
    requires IsWordRun(n)
    ensures ParseComplexArgs(["--" + n + "[]", x, "--" + n + "[]", y]) ==
      Ok(Parsed([], Obj([Field(Name(n), Arr([Str(x), Str(y)]))])))
  {
    var xs := [Str(x)];
    FlagOfKeyThenSlot(n, Append);
    AppendToMissingKey(n, Str(x));
    AppendToListKey(n, xs, Str(y));
    TwoInsertions("--" + n + "[]", [Key(n), Append], x, "--" + n + "[]", [Key(n), Append], y,
      Obj([Field(Name(n), Arr(xs))]), Obj([Field(Name(n), Arr(xs + [Str(y)]))]));
    TwoItems(Str(x), Str(y));
  }

  /** An index past the end pads the new list with `None`. */
  lemma IndexFlagPads()
    ensures ParseComplexArgs(["--list[2]", "z"]) ==
      Ok(Parsed([], Obj([Field(Name("list"), Arr([Null, Null, Str("z")]))])))
  {
    FlagListTwo();
    SingleFlag("--list[2]", "z");
    IndexIntoMissingKey();
  }

  lemma IndexIntoMissingKey()
    ensures Insert(Obj([]), [Key("list"), Index(2)], Str("z")) == Ok(Obj([Field(Name("list"), Arr([Null, Null, Str("z")]))]))
  {
    var e: seq<Field> := [];
    InsertUnderKey(e, "list", [Index(2)], Str("z"));
    assert Descend(Lookup(e, Name("list")), Index(2)) == Arr([]);
    InsertOne(Arr([]), Index(2), Str("z"));
    assert AssignLast(Arr([]), Index(2), Str("z")).Ok?;
    assert AssignLast(Arr([]), Index(2), Str("z")).value.items == [Null, Null, Str("z")];
    PutNewKey(e, Name("list"), Arr([Null, Null, Str("z")]));
    assert Put(e, Name("list"), Arr([Null, Null, Str("z")])) == [Field(Name("list"), Arr([Null, Null, Str("z")]))];
    assert [Key("list"), Index(2)] == [Key("list")] + [Index(2)];
  }

  /** A repeated plain flag keeps only its last value. */
  lemma RepeatedFlagOverwrites()
    ensures ParseComplexArgs(["--tag", "x", "--tag", "y"]) == Ok(Parsed([], Obj([Field(Name("tag"), Str("y"))])))
  {
    FlagTag();
    SetMissingKey("tag", Str("x"));
    SetPresentKey("tag", Str("x"), Str("y"));
    TwoFlags("--tag", "x", "--tag", "y", Obj([Field(Name("tag"), Str("x"))]), Obj([Field(Name("tag"), Str("y"))]));
  }

  /** A plain flag after `name[]` extends the list the earlier flag started. */
  lemma PlainFlagExtendsList(n: string, x: string, y: string)
    requires IsWordRun(n)
    ensures ParseComplexArgs(["--" + n + "[]", x, "--" + n, y]) ==
      Ok(Parsed([], Obj([Field(Name(n), Arr([Str(x), Str(y)]))])))
  {
    var xs := [Str(x)];
    FlagOfKey(n);
    FlagOfKeyThenSlot(n, Append);
    AppendToMissingKey(n, Str(x));
    SetListKey(n, xs, Str(y));
    TwoInsertions("--" + n + "[]", [Key(n), Append], x, "--" + n, [Key(n)], y,
      Obj([Field(Name(n), Arr(xs))]), Obj([Field(Name(n), Arr(xs + [Str(y)]))]));
    TwoItems(Str(x), Str(y));
  }

  lemma TwoItems(a: Value, b: Value)
    ensures [a] + [b] == [a, b]
  {
  }

  /** A final key on a key holding a list appends to that list. */
  lemma SetListKey(name: string, xs: seq<Value>, v: Value)
    ensures Insert(Obj([Field(Name(name), Arr(xs))]), [Key(name)], v) == Ok(Obj([Field(Name(name), Arr(xs + [v]))]))
  {
    SetPresentKey(name, Arr(xs), v);
  }

  /** Two flags with values, stated through the paths they name. */
  lemma TwoInsertions(f1: string, p1: seq<Segment>, v1: string, f2: string, p2: seq<Segment>, v2: string, kw1: Value, kw2: Value)
    requires IsFlag(f1) && IsFlag(f2) && FlagPath(f1) == p1 && FlagPath(f2) == p2 && p1 != [] && p2 != []
    requires Insert(Obj([]), p1, Str(v1)) == Ok(kw1) && Insert(kw1, p2, Str(v2)) == Ok(kw2)
    ensures ParseComplexArgs([f1, v1, f2, v2]) == Ok(Parsed([], kw2))
  {
    TwoFlags(f1, v1, f2, v2, kw1, kw2);
  }
}
