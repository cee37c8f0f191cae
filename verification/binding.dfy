/**
  Argument binding (`validate_args_kwargs` in flowctl/utils.py), which hands
  the call to Python's `inspect.Signature.bind` and `apply_defaults`. Instead of
  reflecting on a function, the model takes the target's signature as data:
  positional-or-keyword parameters without defaults, then keyword-only
  parameters that may carry a default, which is every shape the dispatch
  tables use.

  Binding walks the positional arguments first, then the remaining parameters
  by keyword, then rejects leftover keywords; the first problem found is the
  error reported.
 */
module Binding {
  import opened Wrappers
  import opened Values

  /** An argument: the SDK client, or a data value. */
  datatype Arg = Client | Data(v: Value)

  /** A keyword argument. */
  datatype Kw = Kw(name: string, arg: Arg)

  /** A keyword-only parameter and its default, if it has one. */
  datatype Param = Param(name: string, default: Option<Value>)

  datatype Signature = Signature(positional: seq<string>, keywordOnly: seq<Param>)

  /** `bound.args` and `bound.kwargs` after `apply_defaults`. */
  datatype BoundCall = BoundCall(args: seq<Arg>, kwargs: seq<Kw>)

  datatype BindError =
    | TooManyPositional
    | MultipleValues(name: string)
    | Missing(name: string)
    | UnexpectedKeyword(name: string)

  function Names(kws: seq<Kw>): (ns: seq<string>)
    ensures |ns| == |kws|
    ensures forall i :: 0 <= i < |kws| ==> ns[i] == kws[i].name
  {
    seq(|kws|, i requires 0 <= i < |kws| => kws[i].name)
  }

  /** The names of every parameter of a signature. */
  function ParamNames(sig: Signature): (ns: seq<string>)
    ensures forall x :: x in ns <==> x in sig.positional || exists p :: p in sig.keywordOnly && p.name == x
  {
    var kw := seq(|sig.keywordOnly|, i requires 0 <= i < |sig.keywordOnly| => sig.keywordOnly[i].name);
    assert forall x :: x in kw <==> exists p :: p in sig.keywordOnly && p.name == x by {
      forall x | x in kw ensures exists p :: p in sig.keywordOnly && p.name == x {
        var i :| 0 <= i < |kw| && kw[i] == x;
        assert sig.keywordOnly[i] in sig.keywordOnly;
      }
      forall x | exists p :: p in sig.keywordOnly && p.name == x ensures x in kw {
        var p :| p in sig.keywordOnly && p.name == x;
        var i :| 0 <= i < |sig.keywordOnly| && sig.keywordOnly[i] == p;
        assert kw[i] == x;
      }
    }
    sig.positional + kw
  }

  /** `kwargs[name]`, if given. */
  function Given(kws: seq<Kw>, name: string): (r: Option<Arg>)
    ensures r.Some? <==> name in Names(kws)
    ensures r.Some? ==> Kw(name, r.value) in kws
  {
    if kws == [] then None
    else if kws[0].name == name then Some(kws[0].arg)
    else
      var r := Given(kws[1..], name);
      assert Names(kws) == [kws[0].name] + Names(kws[1..]);
      r
  }

  /** The positional phase: each positional argument takes the next
      positional parameter, which must exist and must not also be given by
      keyword. Scans arguments `i` to `n`. */
  function PositionalClash(pos: seq<string>, n: nat, given: seq<string>, i: nat): (r: Option<BindError>)
    requires i <= n
    decreases n - i
    ensures r.None? <==> (i < n ==> n <= |pos|) && forall j :: i <= j < n && j < |pos| ==> pos[j] !in given
    ensures r == Some(TooManyPositional) ==> |pos| < n && forall j :: i <= j < |pos| ==> pos[j] !in given
    ensures r.Some? && !r.value.TooManyPositional? ==>
      r.value.MultipleValues? && exists j :: i <= j < n && j < |pos| && pos[j] == r.value.name && pos[j] in given
  {
    if i == n then None
    else if i >= |pos| then Some(TooManyPositional)
    else if pos[i] in given then Some(MultipleValues(pos[i]))
    else PositionalClash(pos, n, given, i + 1)
  }

  /** The first remaining parameter that is neither given by keyword nor
      defaulted. */
  function FirstMissing(ps: seq<Param>, given: seq<string>): (r: Option<string>)
    ensures r.None? <==> Covered(ps, given)
    ensures r.Some? ==> exists i :: 0 <= i < |ps| && ps[i].name == r.value && ps[i].name !in given && ps[i].default.None?
  {
    if ps == [] then None
    else if ps[0].name !in given && ps[0].default.None? then Some(ps[0].name)
    else
      var r := FirstMissing(ps[1..], given);
      assert forall i :: 1 <= i < |ps| ==> ps[i] == ps[1..][i - 1];
      r
  }

  /** The first keyword argument that names no parameter. */
  function FirstUnexpected(kws: seq<Kw>, known: seq<string>): (r: Option<string>)
    ensures r.None? <==> forall i :: 0 <= i < |kws| ==> kws[i].name in known
    ensures r.Some? ==> r.value in Names(kws) && r.value !in known
  {
    if kws == [] then None
    else if kws[0].name !in known then Some(kws[0].name)
    else
      var r := FirstUnexpected(kws[1..], known);
      assert forall i :: 1 <= i < |kws| ==> kws[i] == kws[1..][i - 1];
      r
  }

  /** The parameters left for the keyword phase once `n` positional arguments
      are bound. */
  function Remaining(sig: Signature, n: nat): (ps: seq<Param>)
    requires n <= |sig.positional|
    ensures |ps| == |sig.positional| - n + |sig.keywordOnly|
    ensures forall i :: 0 <= i < |sig.positional| - n ==> ps[i] == Param(sig.positional[n + i], None)
    ensures forall j :: 0 <= j < |sig.keywordOnly| ==> ps[|sig.positional| - n + j] == sig.keywordOnly[j]
  {
    seq(|sig.positional| - n, i requires 0 <= i < |sig.positional| - n => Param(sig.positional[n + i], None))
      + sig.keywordOnly
  }

  /** The value a keyword-only parameter ends up with: the one given, or its default. */
  function KeywordValue(kws: seq<Kw>, p: Param): Arg
    requires p.name in Names(kws) || p.default.Some?
  {
    match Given(kws, p.name)
    case Some(a) => a
    case None => Data(p.default.value)
  }

  /** Every parameter of `ps` is given by keyword or has a default. */
  predicate Covered(ps: seq<Param>, given: seq<string>) {
    forall i :: 0 <= i < |ps| ==> ps[i].name in given || ps[i].default.Some?
  }

  /** The positional parameters past the first `n` are all given by keyword. */
  predicate TailGiven(sig: Signature, n: nat, given: seq<string>) {
    forall i :: n <= i < |sig.positional| ==> sig.positional[i] in given
  }

  /** The remaining parameters are covered exactly when the positional tail is
      given by keyword and every keyword-only parameter is covered. */
  lemma RemainingCovered(sig: Signature, n: nat, given: seq<string>)
    requires n <= |sig.positional|
    ensures Covered(Remaining(sig, n), given) <==> TailGiven(sig, n, given) && Covered(sig.keywordOnly, given)
  {
    if Covered(Remaining(sig, n), given) {
      CoveredSplits(sig, n, given);
    }
    if TailGiven(sig, n, given) && Covered(sig.keywordOnly, given) {
      CoveredJoins(sig, n, given);
    }
  }

  lemma CoveredSplits(sig: Signature, n: nat, given: seq<string>)
    requires n <= |sig.positional| && Covered(Remaining(sig, n), given)
    ensures TailGiven(sig, n, given) && Covered(sig.keywordOnly, given)
  {
    var rest := Remaining(sig, n);
    var m := |sig.positional| - n;
    forall i | n <= i < |sig.positional| ensures sig.positional[i] in given {
      assert rest[i - n] == Param(sig.positional[i], None);
    }
    forall j | 0 <= j < |sig.keywordOnly| ensures sig.keywordOnly[j].name in given || sig.keywordOnly[j].default.Some? {
      assert rest[m + j] == sig.keywordOnly[j];
    }
  }

  lemma CoveredJoins(sig: Signature, n: nat, given: seq<string>)
    requires n <= |sig.positional| && TailGiven(sig, n, given) && Covered(sig.keywordOnly, given)
    ensures Covered(Remaining(sig, n), given)
  {
    var rest := Remaining(sig, n);
    var m := |sig.positional| - n;
    forall i | 0 <= i < |rest| ensures rest[i].name in given || rest[i].default.Some? {
      if i < m {
        assert rest[i].name == sig.positional[n + i];
      } else {
        assert rest[i] == sig.keywordOnly[i - m];
      }
    }
  }

  /** The keyword arguments for `names`, in that order. */
  function ByName(kws: seq<Kw>, names: seq<string>): (r: seq<Arg>)
    requires forall i :: 0 <= i < |names| ==> names[i] in Names(kws)
    ensures |r| == |names|
    ensures forall i :: 0 <= i < |names| ==> Given(kws, names[i]) == Some(r[i])
  {
    seq(|names|, i requires 0 <= i < |names| => Given(kws, names[i]).value)
  }

  /** The keyword-only parameters with the value each ends up with. */
  function KeywordArgs(kws: seq<Kw>, ps: seq<Param>): (r: seq<Kw>)
    requires Covered(ps, Names(kws))
    ensures |r| == |ps|
    ensures forall j :: 0 <= j < |ps| ==> r[j].name == ps[j].name
    ensures forall j :: 0 <= j < |ps| ==>
      r[j].arg == match Given(kws, ps[j].name)
        case Some(a) => a
        case None => Data(ps[j].default.value)
  {
    seq(|ps|, j requires 0 <= j < |ps| => Kw(ps[j].name, KeywordValue(kws, ps[j])))
  }

  /** The bound call once binding is known to succeed: the arguments, then the
      positional parameters given by keyword, in parameter order; and every
      keyword-only parameter with its value. */
  function Assemble(sig: Signature, args: seq<Arg>, kws: seq<Kw>): (b: BoundCall)
    requires |args| <= |sig.positional|
    requires TailGiven(sig, |args|, Names(kws)) && Covered(sig.keywordOnly, Names(kws))
    ensures |b.args| == |sig.positional|
    ensures b.args[..|args|] == args
    ensures forall i :: |args| <= i < |sig.positional| ==> Given(kws, sig.positional[i]) == Some(b.args[i])
    ensures b.kwargs == KeywordArgs(kws, sig.keywordOnly)
  {
    var pos := sig.positional;
    var n := |args|;
    var tail := pos[n..];
    assert forall i :: 0 <= i < |tail| ==> tail[i] == pos[n + i];
    var filled := ByName(kws, tail);
    var all := args + filled;
    assert all[..n] == args;
    assert forall i :: n <= i < |pos| ==> Given(kws, pos[i]) == Some(all[i]) by {
      forall i | n <= i < |pos| ensures Given(kws, pos[i]) == Some(all[i]) {
        assert all[i] == filled[i - n] && tail[i - n] == pos[i];
      }
    }
    BoundCall(all, KeywordArgs(kws, sig.keywordOnly))
  }

  /** When only the last positional parameter is left to the keywords, the
      bound arguments are the given ones followed by its keyword value. */
  lemma AssembleLastByKeyword(sig: Signature, args: seq<Arg>, kws: seq<Kw>, a: Arg)
    requires |args| + 1 == |sig.positional|
    requires TailGiven(sig, |args|, Names(kws)) && Covered(sig.keywordOnly, Names(kws))
    requires Given(kws, sig.positional[|args|]) == Some(a)
    ensures Assemble(sig, args, kws).args == args + [a]
  {
    var n := |args|;
    var c := Assemble(sig, args, kws).args;
    assert Given(kws, sig.positional[n]) == Some(c[n]);
    LastAppended(c, args, a);
  }

  lemma LastAppended<T>(c: seq<T>, xs: seq<T>, x: T)
    requires |c| == |xs| + 1 && c[..|xs|] == xs && c[|xs|] == x
    ensures c == xs + [x]
  {
    assert c == c[..|xs|] + [c[|xs|]];
  }

  /** `sig.bind(*args, **kwargs)` followed by `apply_defaults()`. */
  function Bind(sig: Signature, args: seq<Arg>, kws: seq<Kw>): (r: Result<BoundCall, BindError>)
    ensures r.Ok? <==>
      && |args| <= |sig.positional|
      && (forall i :: 0 <= i < |args| ==> sig.positional[i] !in Names(kws))
      && TailGiven(sig, |args|, Names(kws))
      && Covered(sig.keywordOnly, Names(kws))
      && (forall i :: 0 <= i < |kws| ==> kws[i].name in ParamNames(sig))
    ensures r.Ok? ==> r.value == Assemble(sig, args, kws)
    ensures r == Err(TooManyPositional) ==> |args| > |sig.positional|
    ensures r.Err? && r.error.MultipleValues? ==>
      exists i :: 0 <= i < |args| && i < |sig.positional| && sig.positional[i] == r.error.name && r.error.name in Names(kws)
    ensures r.Err? && r.error.Missing? ==>
      && r.error.name !in Names(kws)
      && ((exists i :: |args| <= i < |sig.positional| && sig.positional[i] == r.error.name)
          || (exists j :: 0 <= j < |sig.keywordOnly| && sig.keywordOnly[j] == Param(r.error.name, None)))
    ensures r.Err? && r.error.UnexpectedKeyword? ==> r.error.name in Names(kws) && r.error.name !in ParamNames(sig)
  {
    var pos := sig.positional;
    var n := |args|;
    var given := Names(kws);
    match PositionalClash(pos, n, given, 0)
    case Some(e) => Err(e)
    case None =>
      RemainingCovered(sig, n, given);
      match FirstMissing(Remaining(sig, n), given)
      case Some(x) => Err(Missing(x))
      case None =>
        match FirstUnexpected(kws, ParamNames(sig))
        case Some(x) => Err(UnexpectedKeyword(x))
        case None => Ok(Assemble(sig, args, kws))
  }
  /** `name` names a keyword-only parameter of `sig`. */
  predicate KeywordOnlyName(sig: Signature, name: string) {
    name !in sig.positional && name in ParamNames(sig)
  }

  /** When the arguments fill every positional parameter, binding succeeds
      exactly when there is no surplus argument, every keyword-only parameter
      is given or defaulted, and every keyword names a keyword-only
      parameter. */
  lemma BindAllPositional(sig: Signature, args: seq<Arg>, kws: seq<Kw>)
    requires |args| >= |sig.positional|
    ensures Bind(sig, args, kws).Ok? <==>
      && |args| == |sig.positional|
      && Covered(sig.keywordOnly, Names(kws))
      && (forall i :: 0 <= i < |kws| ==> KeywordOnlyName(sig, kws[i].name))
  {
  }

  /** When the arguments fill exactly the positional parameters and binding
      succeeds, the keyword-only parameters take their given or default values. */
  lemma BindPositionalOnly(sig: Signature, args: seq<Arg>, kws: seq<Kw>)
    requires |args| == |sig.positional|
    requires Covered(sig.keywordOnly, Names(kws))
    requires forall i :: 0 <= i < |kws| ==> KeywordOnlyName(sig, kws[i].name)
    ensures Bind(sig, args, kws) == Ok(BoundCall(args, KeywordArgs(kws, sig.keywordOnly)))
  {
    BindAllPositional(sig, args, kws);
    var b := Assemble(sig, args, kws);
    assert b.args == b.args[..|args|];
  }

  /** The names after one more keyword argument. */
  lemma NamesAppend(kws: seq<Kw>, x: Kw)
    ensures Names(kws + [x]) == Names(kws) + [x.name]
  {
    var a := Names(kws + [x]);
    var b := Names(kws) + [x.name];
    assert forall i :: 0 <= i < |a| ==> a[i] == b[i];
  }

  /** Looking a name up after one more keyword argument: an earlier keyword of
      that name still wins, otherwise the new one answers for its own name. */
  lemma {:induction false} GivenAppend(kws: seq<Kw>, x: Kw, name: string)
    decreases |kws|
    ensures Given(kws + [x], name) ==
      if name in Names(kws) then Given(kws, name)
      else if name == x.name then Some(x.arg)
      else None
  {
    var all := kws + [x];
    if kws == [] {
      assert all == [x] && all[1..] == [];
    } else {
      assert all[0] == kws[0] && all[1..] == kws[1..] + [x];
      assert Names(kws) == [kws[0].name] + Names(kws[1..]);
      GivenAppend(kws[1..], x, name);
    }
  }

  /** Looking up either of two keyword arguments with different names. */
  lemma GivenPair(x: Kw, y: Kw)
    requires x.name != y.name
    ensures Names([x, y]) == [x.name, y.name]
    ensures Given([x, y], x.name) == Some(x.arg) && Given([x, y], y.name) == Some(y.arg)
  {
    assert [x, y][1..] == [y];
  }

  /** The values two keyword-only parameters end up with. */
  lemma KeywordArgsPair(kws: seq<Kw>, p: Param, q: Param)
    requires p.name in Names(kws) || p.default.Some?
    requires q.name in Names(kws) || q.default.Some?
    ensures Covered([p, q], Names(kws))
    ensures KeywordArgs(kws, [p, q]) == [Kw(p.name, KeywordValue(kws, p)), Kw(q.name, KeywordValue(kws, q))]
  {
  }
}
