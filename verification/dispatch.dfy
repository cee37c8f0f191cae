/**
  The generic resource operations of flowctl/resources.py: `get_resource`,
  `list_resources`, `delete_resource`, `create_resource` and
  `update_resource`. Each one checks, in this order, that the kind is known,
  that the operation supports it, (for get) that an identifier is given, then
  fills in the schema version, binds the arguments against the target's
  signature, and only then calls the server. The server call is a parameter:
  it maps the bound call to an outcome.
 */
module Dispatch {
  import opened Wrappers
  import opened Values
  import opened Kinds
  import opened Binding

  datatype Operation = Get | List | Delete | Create | Update

  /** A call that reached the server: which operation, on which kind, with
      which bound arguments. */
  datatype Call = Call(op: Operation, kind: Kind, bound: BoundCall)

  /** What the server answered. */
  datatype Outcome = Found(v: Value) | NotFound | Failed(reason: string)

  datatype DispatchError =
    | UnknownResourceKind(given: string)
    | Unsupported(kind: Kind, op: Operation)
    | MissingIdentifier
    | BadArguments(why: BindError)
    | RemoteNotFound
    | RemoteFailed(reason: string)

  const Version: Param := Param("version", None)

  /** The per-operation tables: the signature of the target for each kind the
      operation supports, `None` for a kind it does not. */
  function SignatureOf(op: Operation, k: Kind): Option<Signature> {
    match op
    case Get => Some(Signature(["sdk", "identifier"], [Version]))
    case Delete =>
      if k == Plugin then None else Some(Signature(["sdk", "identifier"], [Version]))
    case List =>
      if k == WorkflowRun then Some(Signature(["sdk", "identifier"], [Version, Param("limit", Some(Scalar(Int(10))))]))
      else Some(Signature(["sdk"], [Version]))
    case Create =>
      if IsDefinitionKind(k) then Some(Signature(["sdk", "definition"], [Version])) else None
    case Update =>
      if IsDefinitionKind(k) then Some(Signature(["sdk", "identifier", "definition"], [Version])) else None
  }

  predicate Supports(op: Operation, k: Kind) {
    SignatureOf(op, k).Some?
  }

  /** The support table: get and list take every kind, delete every kind but
      plugins, create and update only the kinds a definition file may declare. */
  lemma SupportTable(op: Operation, k: Kind)
    ensures Supports(op, k) <==>
      || op == Get || op == List
      || (op == Delete && k != Plugin)
      || ((op == Create || op == Update) && (k == Workflow || k == TriggerRule || k == Config))
  {
  }

  /** Python truthiness of a value. */
  predicate Truthy(v: Value) {
    match v
    case Null => false
    case Scalar(a) => (match a
      case Text(s) => s != ""
      case Int(i) => i != 0
      case Bool(b) => b)
    case Obj(fs) => fs != []
    case Arr(xs) => xs != []
  }

  /** `version or get_latest_supported_version(kind)`. */
  function VersionArg(k: Kind, version: Value): (v: Value)
    ensures Truthy(version) ==> v == version
    ensures !Truthy(version) ==> v == Str(LatestVersion(k))
  {
    if Truthy(version) then version else Str(LatestVersion(k))
  }

  /** The names a dispatcher binds to its own parameters; Python never lets
      them reach its `**kwargs`. */
  function OwnParams(op: Operation): seq<string> {
    match op
    case Create => ["sdk", "resource_kind", "definition", "version"]
    case Update => ["sdk", "resource_kind", "resource_identifier", "definition", "version"]
    case _ => ["sdk", "resource_kind", "resource_identifier", "version"]
  }

  /** The `**kwargs` a dispatcher can receive: a dict, so names are unique, and
      none of the dispatcher's own parameter names. */
  predicate CallerKwargs(op: Operation, kws: seq<Kw>) {
    && (forall i, j :: 0 <= i < j < |kws| ==> kws[i].name != kws[j].name)
    && (forall i :: 0 <= i < |kws| ==> kws[i].name !in OwnParams(op))
  }

  /** The first two checks every dispatcher makes: the kind is known, and the
      operation supports it. */
  function Gate(op: Operation, kindName: string): (r: Result<Kind, DispatchError>)
    ensures ParseKind(kindName).None? ==> r == Err(UnknownResourceKind(kindName))
    ensures ParseKind(kindName).Some? && !Supports(op, ParseKind(kindName).value) ==>
      r == Err(Unsupported(ParseKind(kindName).value, op))
    ensures r.Ok? <==> ParseKind(kindName).Some? && Supports(op, ParseKind(kindName).value)
    ensures r.Ok? ==> KindName(r.value) == kindName
  {
    match ParseKind(kindName)
    case None => Err(UnknownResourceKind(kindName))
    case Some(k) => if Supports(op, k) then Ok(k) else Err(Unsupported(k, op))
  }

  /** The keyword arguments after `kwargs["version"] = ...`. */
  function WithVersion(k: Kind, version: Value, kws: seq<Kw>): seq<Kw> {
    kws + [Kw("version", Data(VersionArg(k, version)))]
  }

  /** The call a target whose only keyword-only parameter is `version`
      receives once binding succeeds: its positional arguments and the
      filled-in version. */
  function SoleVersionCall(op: Operation, k: Kind, positional: seq<Arg>, version: Value): Call {
    Call(op, k, BoundCall(positional, [Kw("version", Data(VersionArg(k, version)))]))
  }

  /** The last steps every dispatcher shares: fill in the version and bind the
      arguments against the target's signature. A call that goes through is
      for the requested operation and kind, starts with the given positional
      arguments, and (for the keyword arguments Python can pass) carries the
      filled-in version as its first keyword; anything else is a binding error. */
  function Finish(op: Operation, k: Kind, positional: seq<Arg>, version: Value, kws: seq<Kw>): (r: Result<Call, DispatchError>)
    requires Supports(op, k)
    ensures r.Ok? ==> r.value.op == op && r.value.kind == k
    ensures r.Ok? ==> |positional| <= |r.value.bound.args| && r.value.bound.args[..|positional|] == positional
    ensures r.Ok? && CallerKwargs(op, kws) ==>
      r.value.bound.kwargs != [] && r.value.bound.kwargs[0] == Kw("version", Data(VersionArg(k, version)))
    ensures r.Err? ==> r.error.BadArguments?
  {
    match Bind(SignatureOf(op, k).value, positional, WithVersion(k, version, kws))
    case Ok(b) =>
      VersionFirst(op, k);
      VersionSent(op, k, version, kws);
      Ok(Call(op, k, b))
    case Err(e) => Err(BadArguments(e))
  }

  /** The version filled in after the caller's keywords is the one binding
      sees, since the caller cannot pass `version` itself. */
  lemma VersionSent(op: Operation, k: Kind, version: Value, kws: seq<Kw>)
    ensures CallerKwargs(op, kws) ==>
      Given(WithVersion(k, version, kws), "version") == Some(Data(VersionArg(k, version)))
  {
    if CallerKwargs(op, kws) {
      NoVersionKwarg(op, kws);
      GivenAppend(kws, Kw("version", Data(VersionArg(k, version))), "version");
    }
  }

  /** The checks of `get_resource`, up to the call. The kind is checked
      first, then the identifier; the call goes through exactly for a known
      kind, a truthy identifier and no further argument, and the target then
      gets the client, the identifier and the version. */
  function PrepareGet(kindName: string, identifier: Value, args: seq<Arg>, version: Value, kws: seq<Kw>): (r: Result<Call, DispatchError>)
    ensures ParseKind(kindName).None? ==> r == Err(UnknownResourceKind(kindName))
    ensures ParseKind(kindName).Some? && !Truthy(identifier) ==> r == Err(MissingIdentifier)
    ensures ParseKind(kindName).Some? && Truthy(identifier) && r.Err? ==> r.error.BadArguments?
    ensures CallerKwargs(Get, kws) ==>
      (r.Ok? <==> ParseKind(kindName).Some? && Truthy(identifier) && args == [] && kws == [])
    ensures CallerKwargs(Get, kws) && r.Ok? ==>
      r.value == SoleVersionCall(Get, ParseKind(kindName).value, [Client, Data(identifier)], version)
  {
    var k :- Gate(Get, kindName);
    if !Truthy(identifier) then Err(MissingIdentifier)
    else
      SoleVersionFinish(Get, k, [Client, Data(identifier)], args, version, kws);
      Finish(Get, k, [Client, Data(identifier)] + args, version, kws)
  }

  /** The positional arguments `list_resources` passes: the identifier only
      when it is truthy. */
  function ListPositionals(identifier: Value, args: seq<Arg>): (ps: seq<Arg>)
    ensures Truthy(identifier) ==> ps == [Client, Data(identifier)] + args
    ensures !Truthy(identifier) ==> ps == [Client] + args
  {
    [Client] + (if Truthy(identifier) then [Data(identifier)] + args else args)
  }

  /** The limit a run listing asks for: the caller's, else 10. */
  function LimitArg(kws: seq<Kw>): Arg {
    match Given(kws, "limit")
    case Some(x) => x
    case None => Data(Scalar(Int(10)))
  }

  /** Listing workflow runs binds exactly when the workflow is named once (by
      the identifier or one extra positional argument, or else by an
      `identifier` keyword) and the caller passes no keyword other than
      `identifier` and `limit`. */
  predicate RunsAccepted(identifier: Value, args: seq<Arg>, kws: seq<Kw>) {
    var n := |ListPositionals(identifier, args)|;
    && n <= 2
    && ("identifier" in Names(kws) <==> n == 1)
    && forall i :: 0 <= i < |kws| ==> kws[i].name == "identifier" || kws[i].name == "limit"
  }

  /** What an accepted run listing passes on: the client and the workflow,
      then the version and the limit. */
  function RunsBound(identifier: Value, args: seq<Arg>, version: Value, kws: seq<Kw>): BoundCall
    requires RunsAccepted(identifier, args, kws)
  {
    var ps := ListPositionals(identifier, args);
    var owner := if |ps| == 2 then ps[1] else Given(kws, "identifier").value;
    BoundCall([Client, owner], [Kw("version", Data(VersionArg(WorkflowRun, version))), Kw("limit", LimitArg(kws))])
  }

  /** The checks of `list_resources`, up to the call. Only the kind is
      checked before binding. Every target but the run listing takes the
      client alone, so the call goes through exactly when no identifier and
      no further argument is passed; the run listing is described by
      `RunsAccepted` and `RunsBound`. */
  function PrepareList(kindName: string, identifier: Value, args: seq<Arg>, version: Value, kws: seq<Kw>): (r: Result<Call, DispatchError>)
    ensures ParseKind(kindName).None? ==> r == Err(UnknownResourceKind(kindName))
    ensures ParseKind(kindName).Some? && r.Err? ==> r.error.BadArguments?
    ensures CallerKwargs(List, kws) && ParseKind(kindName).Some? && ParseKind(kindName) != Some(WorkflowRun) ==>
      (r.Ok? <==> !Truthy(identifier) && args == [] && kws == [])
    ensures CallerKwargs(List, kws) && r.Ok? && ParseKind(kindName) != Some(WorkflowRun) ==>
      r.value == SoleVersionCall(List, ParseKind(kindName).value, [Client], version)
    ensures CallerKwargs(List, kws) && ParseKind(kindName) == Some(WorkflowRun) ==>
      (r.Ok? <==> RunsAccepted(identifier, args, kws))
    ensures CallerKwargs(List, kws) && ParseKind(kindName) == Some(WorkflowRun) && r.Ok? ==>
      r.value == Call(List, WorkflowRun, RunsBound(identifier, args, version, kws))
  {
    var k :- Gate(List, kindName);
    if k == WorkflowRun then
      RunsFinish(identifier, args, version, kws);
      Finish(List, k, ListPositionals(identifier, args), version, kws)
    else
      SoleVersionFinish(List, k, [Client], if Truthy(identifier) then [Data(identifier)] + args else args, version, kws);
      Finish(List, k, ListPositionals(identifier, args), version, kws)
  }

  /** The checks of `delete_resource`, up to the call. Plugins cannot be
      deleted; the identifier is not checked, so the call goes through for
      any other known kind when nothing else is passed. */
  function PrepareDelete(kindName: string, identifier: Value, args: seq<Arg>, version: Value, kws: seq<Kw>): (r: Result<Call, DispatchError>)
    ensures ParseKind(kindName).None? ==> r == Err(UnknownResourceKind(kindName))
    ensures ParseKind(kindName) == Some(Plugin) ==> r == Err(Unsupported(Plugin, Delete))
    ensures ParseKind(kindName).Some? && ParseKind(kindName) != Some(Plugin) && r.Err? ==> r.error.BadArguments?
    ensures CallerKwargs(Delete, kws) ==>
      (r.Ok? <==> ParseKind(kindName).Some? && ParseKind(kindName) != Some(Plugin) && args == [] && kws == [])
    ensures CallerKwargs(Delete, kws) && r.Ok? ==>
      r.value == SoleVersionCall(Delete, ParseKind(kindName).value, [Client, Data(identifier)], version)
  {
    var k :- Gate(Delete, kindName);
    SoleVersionFinish(Delete, k, [Client, Data(identifier)], args, version, kws);
    Finish(Delete, k, [Client, Data(identifier)] + args, version, kws)
  }

  /** The checks of `create_resource`, up to the call: only the kinds a
      definition file may declare are created, and the call goes through
      for them when nothing else is passed. */
  function PrepareCreate(kindName: string, definition: Value, args: seq<Arg>, version: Value, kws: seq<Kw>): (r: Result<Call, DispatchError>)
    ensures ParseKind(kindName).None? ==> r == Err(UnknownResourceKind(kindName))
    ensures ParseKind(kindName).Some? && !IsDefinitionKind(ParseKind(kindName).value) ==>
      r == Err(Unsupported(ParseKind(kindName).value, Create))
    ensures ParseKind(kindName).Some? && IsDefinitionKind(ParseKind(kindName).value) && r.Err? ==> r.error.BadArguments?
    ensures CallerKwargs(Create, kws) ==>
      (r.Ok? <==> ParseKind(kindName).Some? && IsDefinitionKind(ParseKind(kindName).value) && args == [] && kws == [])
    ensures CallerKwargs(Create, kws) && r.Ok? ==>
      r.value == SoleVersionCall(Create, ParseKind(kindName).value, [Client, Data(definition)], version)
  {
    var k :- Gate(Create, kindName);
    SoleVersionFinish(Create, k, [Client, Data(definition)], args, version, kws);
    Finish(Create, k, [Client, Data(definition)] + args, version, kws)
  }

  /** The checks of `update_resource`, up to the call: as for create, with
      the identifier (unchecked) before the definition. */
  function PrepareUpdate(kindName: string, identifier: Value, definition: Value, args: seq<Arg>, version: Value, kws: seq<Kw>): (r: Result<Call, DispatchError>)
    ensures ParseKind(kindName).None? ==> r == Err(UnknownResourceKind(kindName))
    ensures ParseKind(kindName).Some? && !IsDefinitionKind(ParseKind(kindName).value) ==>
      r == Err(Unsupported(ParseKind(kindName).value, Update))
    ensures ParseKind(kindName).Some? && IsDefinitionKind(ParseKind(kindName).value) && r.Err? ==> r.error.BadArguments?
    ensures CallerKwargs(Update, kws) ==>
      (r.Ok? <==> ParseKind(kindName).Some? && IsDefinitionKind(ParseKind(kindName).value) && args == [] && kws == [])
    ensures CallerKwargs(Update, kws) && r.Ok? ==>
      r.value == SoleVersionCall(Update, ParseKind(kindName).value, [Client, Data(identifier), Data(definition)], version)
  {
    var k :- Gate(Update, kindName);
    SoleVersionFinish(Update, k, [Client, Data(identifier), Data(definition)], args, version, kws);
    Finish(Update, k, [Client, Data(identifier), Data(definition)] + args, version, kws)
  }

  /** get and delete: a not-found answer becomes `None`. */
  function Recover(o: Outcome): (r: Result<Option<Value>, DispatchError>)
    ensures r == Ok(None) <==> o == NotFound
    ensures forall v :: r == Ok(Some(v)) <==> o == Found(v)
    ensures forall e :: r == Err(RemoteFailed(e)) <==> o == Failed(e)
  {
    match o
    case Found(v) => Ok(Some(v))
    case NotFound => Ok(None)
    case Failed(e) => Err(RemoteFailed(e))
  }

  /** list, create and update: every answer passes through. */
  function Propagate(o: Outcome): (r: Result<Value, DispatchError>)
    ensures forall v :: r == Ok(v) <==> o == Found(v)
    ensures r == Err(RemoteNotFound) <==> o == NotFound
    ensures forall e :: r == Err(RemoteFailed(e)) <==> o == Failed(e)
  {
    match o
    case Found(v) => Ok(v)
    case NotFound => Err(RemoteNotFound)
    case Failed(e) => Err(RemoteFailed(e))
  }

  /** `get_resource`: the server is asked exactly when the kind is known, the
      identifier truthy and nothing else passed, and then with the client,
      the identifier and the version; every other input fails with the first
      check it trips. */
  function GetResource(remote: Call -> Outcome, kindName: string, identifier: Value, args: seq<Arg>, version: Value, kws: seq<Kw>): (r: Result<Option<Value>, DispatchError>)
    requires CallerKwargs(Get, kws)
    ensures ParseKind(kindName).None? ==> r == Err(UnknownResourceKind(kindName))
    ensures ParseKind(kindName).Some? && !Truthy(identifier) ==> r == Err(MissingIdentifier)
    ensures ParseKind(kindName).Some? && Truthy(identifier) && !(args == [] && kws == []) ==>
      r.Err? && r.error.BadArguments?
    ensures ParseKind(kindName).Some? && Truthy(identifier) && args == [] && kws == [] ==>
      r == Recover(remote(SoleVersionCall(Get, ParseKind(kindName).value, [Client, Data(identifier)], version)))
  {
    var call :- PrepareGet(kindName, identifier, args, version, kws);
    Recover(remote(call))
  }

  /** `list_resources`: the server is asked exactly when binding succeeds,
      and its answer passes through. */
  function ListResources(remote: Call -> Outcome, kindName: string, identifier: Value, args: seq<Arg>, version: Value, kws: seq<Kw>): (r: Result<Value, DispatchError>)
    requires CallerKwargs(List, kws)
    ensures ParseKind(kindName).None? ==> r == Err(UnknownResourceKind(kindName))
    ensures ParseKind(kindName).Some? && ParseKind(kindName) != Some(WorkflowRun) ==>
      if !Truthy(identifier) && args == [] && kws == []
      then r == Propagate(remote(SoleVersionCall(List, ParseKind(kindName).value, [Client], version)))
      else r.Err? && r.error.BadArguments?
    ensures ParseKind(kindName) == Some(WorkflowRun) ==>
      if RunsAccepted(identifier, args, kws)
      then r == Propagate(remote(Call(List, WorkflowRun, RunsBound(identifier, args, version, kws))))
      else r.Err? && r.error.BadArguments?
  {
    var call :- PrepareList(kindName, identifier, args, version, kws);
    Propagate(remote(call))
  }

  /** `delete_resource`: the server is asked exactly when the kind is known
      and not a plugin and nothing else is passed; not-found becomes `None`. */
  function DeleteResource(remote: Call -> Outcome, kindName: string, identifier: Value, args: seq<Arg>, version: Value, kws: seq<Kw>): (r: Result<Option<Value>, DispatchError>)
    requires CallerKwargs(Delete, kws)
    ensures ParseKind(kindName).None? ==> r == Err(UnknownResourceKind(kindName))
    ensures ParseKind(kindName) == Some(Plugin) ==> r == Err(Unsupported(Plugin, Delete))
    ensures ParseKind(kindName).Some? && ParseKind(kindName) != Some(Plugin) && !(args == [] && kws == []) ==>
      r.Err? && r.error.BadArguments?
    ensures ParseKind(kindName).Some? && ParseKind(kindName) != Some(Plugin) && args == [] && kws == [] ==>
      r == Recover(remote(SoleVersionCall(Delete, ParseKind(kindName).value, [Client, Data(identifier)], version)))
  {
    var call :- PrepareDelete(kindName, identifier, args, version, kws);
    Recover(remote(call))
  }

  /** `create_resource`: the server is asked exactly for a definition kind
      with nothing else passed, and its answer passes through. */
  function CreateResource(remote: Call -> Outcome, kindName: string, definition: Value, args: seq<Arg>, version: Value, kws: seq<Kw>): (r: Result<Value, DispatchError>)
    requires CallerKwargs(Create, kws)
    ensures ParseKind(kindName).None? ==> r == Err(UnknownResourceKind(kindName))
    ensures ParseKind(kindName).Some? && !IsDefinitionKind(ParseKind(kindName).value) ==>
      r == Err(Unsupported(ParseKind(kindName).value, Create))
    ensures ParseKind(kindName).Some? && IsDefinitionKind(ParseKind(kindName).value) ==>
      if args == [] && kws == []
      then r == Propagate(remote(SoleVersionCall(Create, ParseKind(kindName).value, [Client, Data(definition)], version)))
      else r.Err? && r.error.BadArguments?
  {
    var call :- PrepareCreate(kindName, definition, args, version, kws);
    Propagate(remote(call))
  }

  /** `update_resource`: as create, with the identifier before the definition. */
  function UpdateResource(remote: Call -> Outcome, kindName: string, identifier: Value, definition: Value, args: seq<Arg>, version: Value, kws: seq<Kw>): (r: Result<Value, DispatchError>)
    requires CallerKwargs(Update, kws)
    ensures ParseKind(kindName).None? ==> r == Err(UnknownResourceKind(kindName))
    ensures ParseKind(kindName).Some? && !IsDefinitionKind(ParseKind(kindName).value) ==>
      r == Err(Unsupported(ParseKind(kindName).value, Update))
    ensures ParseKind(kindName).Some? && IsDefinitionKind(ParseKind(kindName).value) ==>
      if args == [] && kws == []
      then r == Propagate(remote(SoleVersionCall(Update, ParseKind(kindName).value, [Client, Data(identifier), Data(definition)], version)))
      else r.Err? && r.error.BadArguments?
  {
    var call :- PrepareUpdate(kindName, identifier, definition, args, version, kws);
    Propagate(remote(call))
  }

  /** Every signature in the tables has `version` as its first keyword-only
      parameter; only the workflow-run listing has a second one. */
  lemma VersionFirst(op: Operation, k: Kind)
    requires Supports(op, k)
    ensures SignatureOf(op, k).value.keywordOnly[0] == Version
    ensures !(op == List && k == WorkflowRun) ==> SignatureOf(op, k).value.keywordOnly == [Version]
  {
  }

  /** Binding against a signature whose only keyword-only parameter is
      `version`, with the version appended after keywords that do not name it. */
  lemma SoleVersionBind(sig: Signature, ps: seq<Arg>, a: Arg, kws: seq<Kw>)
    requires sig.keywordOnly == [Version] && "version" !in sig.positional
    requires forall i :: 0 <= i < |kws| ==> kws[i].name != "version"
    requires |ps| >= |sig.positional|
    ensures Bind(sig, ps, kws + [Kw("version", a)]).Ok? <==> |ps| == |sig.positional| && kws == []
    ensures Bind(sig, ps, kws + [Kw("version", a)]).Ok? ==>
      Bind(sig, ps, kws + [Kw("version", a)]).value == BoundCall(ps, [Kw("version", a)])
  {
    var vkw := Kw("version", a);
    var all := kws + [vkw];
    BindAllPositional(sig, ps, all);
    VersionOnlyKeyword(sig);
    if kws != [] {
      assert all[0] == kws[0];
      assert !KeywordOnlyName(sig, all[0].name);
    } else if |ps| == |sig.positional| {
      assert all == [vkw];
      SoleVersionValue(sig, ps, a);
    }
  }

  /** In such a signature, `version` is the one keyword-only name. */
  lemma VersionOnlyKeyword(sig: Signature)
    requires sig.keywordOnly == [Version] && "version" !in sig.positional
    ensures forall x :: KeywordOnlyName(sig, x) <==> x == "version"
  {
    assert sig.keywordOnly[0] == Version;
  }

  lemma SoleVersionValue(sig: Signature, ps: seq<Arg>, a: Arg)
    requires sig.keywordOnly == [Version] && "version" !in sig.positional
    requires |ps| == |sig.positional|
    ensures Bind(sig, ps, [Kw("version", a)]) == Ok(BoundCall(ps, [Kw("version", a)]))
  {
    var vkw := Kw("version", a);
    VersionOnlyKeyword(sig);
    assert Names([vkw]) == ["version"];
    assert Given([vkw], "version") == Some(a);
    BindPositionalOnly(sig, ps, [vkw]);
    assert KeywordArgs([vkw], [Version]) == [vkw];
  }

  /** For a target whose only keyword-only parameter is `version`, the call
      goes through exactly when the positional arguments fill its positional
      parameters and the caller passed no keyword argument; the bound call then
      carries just those arguments and the filled-in version. */
  lemma SoleVersionKeyword(op: Operation, k: Kind, ps: seq<Arg>, version: Value, kws: seq<Kw>)
    requires Supports(op, k) && !(op == List && k == WorkflowRun)
    requires CallerKwargs(op, kws)
    requires |ps| >= |SignatureOf(op, k).value.positional|
    ensures var r := Finish(op, k, ps, version, kws);
      && (r.Ok? <==> |ps| == |SignatureOf(op, k).value.positional| && kws == [])
      && (r.Ok? ==> r.value == Call(op, k, BoundCall(ps, [Kw("version", Data(VersionArg(k, version)))])))
  {
    var sig := SignatureOf(op, k).value;
    var a := Data(VersionArg(k, version));
    VersionNotPositional(op, k);
    NoVersionKwarg(op, kws);
    SoleVersionBind(sig, ps, a, kws);
    FinishBinds(op, k, ps, version, kws);
    var b := Bind(sig, ps, kws + [Kw("version", a)]);
    var r := Finish(op, k, ps, version, kws);
    assert r.Ok? <==> b.Ok?;
    assert r.Ok? ==> r.value == Call(op, k, b.value);
  }

  /** What `Finish` returns, from the binding it performs. */
  lemma FinishBinds(op: Operation, k: Kind, ps: seq<Arg>, version: Value, kws: seq<Kw>)
    requires Supports(op, k)
    ensures var b := Bind(SignatureOf(op, k).value, ps, kws + [Kw("version", Data(VersionArg(k, version)))]);
      Finish(op, k, ps, version, kws) == if b.Ok? then Ok(Call(op, k, b.value)) else Err(BadArguments(b.error))
  {
  }

  lemma VersionNotPositional(op: Operation, k: Kind)
    requires Supports(op, k) && !(op == List && k == WorkflowRun)
    ensures "version" !in SignatureOf(op, k).value.positional
    ensures SignatureOf(op, k).value.keywordOnly == [Version]
  {
  }

  /** A caller's keyword arguments never name `version`. */
  lemma NoVersionKwarg(op: Operation, kws: seq<Kw>)
    requires CallerKwargs(op, kws)
    ensures forall i :: 0 <= i < |kws| ==> kws[i].name != "version"
  {
    assert "version" in OwnParams(op);
  }
  /** Create and update pass the gate exactly for the kinds a definition file
      may declare. */
  lemma DefinitionGate(op: Operation, kindName: string)
    requires op == Create || op == Update
    ensures Gate(op, kindName).Ok? <==> ParseKind(kindName).Some? && IsDefinitionKind(ParseKind(kindName).value)
  {
  }

  /** How many positional parameters each target has. */
  lemma Arity(op: Operation, k: Kind)
    requires Supports(op, k) && !(op == List && k == WorkflowRun)
    ensures |SignatureOf(op, k).value.positional| == (match op case List => 1 case Update => 3 case _ => 2)
  {
  }

  /** For a target whose only keyword-only parameter is `version`, once the
      given front fills its positional parameters, the call goes through
      exactly when nothing else is passed, and then carries the front and
      the version alone. */
  lemma SoleVersionFinish(op: Operation, k: Kind, front: seq<Arg>, args: seq<Arg>, version: Value, kws: seq<Kw>)
    requires Supports(op, k) && !(op == List && k == WorkflowRun)
    requires |front| == (match op case List => 1 case Update => 3 case _ => 2)
    ensures CallerKwargs(op, kws) ==>
      var r := Finish(op, k, front + args, version, kws);
      && (r.Ok? <==> args == [] && kws == [])
      && (r.Ok? ==> r.value == SoleVersionCall(op, k, front, version))
  {
    if CallerKwargs(op, kws) {
      Arity(op, k);
      SoleVersionKeyword(op, k, front + args, version, kws);
      if args == [] {
        assert front + args == front;
      }
    }
  }

  /** Binding the run listing after the caller's keywords and the version:
      the first argument is the client, `sdk` and `version` are not the
      caller's to pass. It goes through exactly when the workflow is named
      once and every keyword is `identifier` or `limit`. */
  lemma RunsBind(ps: seq<Arg>, kws: seq<Kw>, a: Arg)
    requires 1 <= |ps|
    requires forall i :: 0 <= i < |kws| ==> kws[i].name != "sdk" && kws[i].name != "version"
    ensures Bind(RunListing, ps, kws + [Kw("version", a)]).Ok? <==>
      && |ps| <= 2
      && ("identifier" in Names(kws) <==> |ps| == 1)
      && forall i :: 0 <= i < |kws| ==> kws[i].name == "identifier" || kws[i].name == "limit"
  {
    var all := kws + [Kw("version", a)];
    var sig := RunListing;
    RunListingKeywords();
    RunsNames(kws, a);
    assert Covered(sig.keywordOnly, Names(all));
    assert sig.positional[0] == "sdk" && sig.positional[1] == "identifier";
    if |ps| == 1 {
      assert TailGiven(sig, 1, Names(all)) <==> "identifier" in Names(all);
    } else {
      assert (forall i :: 0 <= i < |ps| && i < 2 ==> sig.positional[i] !in Names(all)) <==>
        "identifier" !in Names(all);
    }
  }

  /** The names binding sees in a run listing. */
  lemma RunsNames(kws: seq<Kw>, a: Arg)
    requires forall i :: 0 <= i < |kws| ==> kws[i].name != "sdk" && kws[i].name != "version"
    ensures var all := kws + [Kw("version", a)];
      && "sdk" !in Names(all) && "version" in Names(all)
      && ("identifier" in Names(all) <==> "identifier" in Names(kws))
      && ((forall i :: 0 <= i < |all| ==> all[i].name in ParamNames(RunListing)) <==>
          forall i :: 0 <= i < |kws| ==> kws[i].name == "identifier" || kws[i].name == "limit")
  {
    var all := kws + [Kw("version", a)];
    NamesAppend(kws, Kw("version", a));
    RunListingKeywords();
    assert forall i :: 0 <= i < |kws| ==> all[i] == kws[i];
    assert all[|kws|].name == "version";
  }

  /** What an accepted run listing binds to: `owner` is the workflow, named
      by the second positional argument or by keyword. */
  lemma {:induction false} RunsBindValue(ps: seq<Arg>, kws: seq<Kw>, a: Arg, owner: Arg)
    requires 1 <= |ps| <= 2 && ps[0] == Client
    requires forall i :: 0 <= i < |kws| ==> kws[i].name != "sdk" && kws[i].name != "version"
    requires "identifier" in Names(kws) <==> |ps| == 1
    requires forall i :: 0 <= i < |kws| ==> kws[i].name == "identifier" || kws[i].name == "limit"
    requires if |ps| == 2 then owner == ps[1] else Given(kws, "identifier") == Some(owner)
    ensures Bind(RunListing, ps, kws + [Kw("version", a)]) ==
      Ok(BoundCall([Client, owner], [Kw("version", a), Kw("limit", LimitArg(kws))]))
  {
    var vkw := Kw("version", a);
    var all := kws + [vkw];
    RunsBind(ps, kws, a);
    RunListingKeywords();
    RunsNames(kws, a);
    var b := Bind(RunListing, ps, all).value;
    GivenAppend(kws, vkw, "version");
    GivenAppend(kws, vkw, "limit");
    GivenAppend(kws, vkw, "identifier");
    assert b.kwargs == [Kw("version", a), Kw("limit", LimitArg(kws))] by {
      KeywordArgsPair(all, Version, Param("limit", Some(Scalar(Int(10)))));
    }
    var c := Assemble(RunListing, ps, all);
    assert b == c;
    assert c.args[0] == Client by {
      assert c.args[..|ps|][0] == ps[0];
    }
    assert c.args[1] == owner by {
      if |ps| == 2 {
        assert c.args[..|ps|][1] == ps[1];
      } else {
        assert Given(all, RunListing.positional[1]) == Some(c.args[1]);
      }
    }
    PairOf(c.args);
  }

  lemma PairOf<T>(s: seq<T>)
    requires |s| == 2
    ensures s == [s[0], s[1]]
  {
  }

  /** Listing workflow runs binds exactly when `RunsAccepted` holds, and then
      to `RunsBound`. */
  lemma RunsFinish(identifier: Value, args: seq<Arg>, version: Value, kws: seq<Kw>)
    ensures CallerKwargs(List, kws) ==>
      var r := Finish(List, WorkflowRun, ListPositionals(identifier, args), version, kws);
      && (r.Ok? <==> RunsAccepted(identifier, args, kws))
      && (r.Ok? ==> r.value == Call(List, WorkflowRun, RunsBound(identifier, args, version, kws)))
  {
    if CallerKwargs(List, kws) {
      var ps := ListPositionals(identifier, args);
      var a := Data(VersionArg(WorkflowRun, version));
      NoVersionKwarg(List, kws);
      assert "sdk" in OwnParams(List);
      assert ps[0] == Client;
      RunsBind(ps, kws, a);
      FinishBinds(List, WorkflowRun, ps, version, kws);
      if RunsAccepted(identifier, args, kws) {
        RunsBindValue(ps, kws, a, RunsBound(identifier, args, version, kws).args[1]);
      }
    }
  }

  const RunListing: Signature := SignatureOf(List, WorkflowRun).value
  const DefaultLimit: Kw := Kw("limit", Data(Scalar(Int(10))))

  /** `list_resources("workflow_run", ...)` passes the gate and goes straight
      to binding. */
  lemma RunsPrepare(identifier: Value, version: Value, kws: seq<Kw>)
    ensures PrepareList("workflow_run", identifier, [], version, kws) ==
      Finish(List, WorkflowRun, ListPositionals(identifier, []), version, kws)
  {
    assert ParseKind("workflow_run") == Some(WorkflowRun);
    assert Gate(List, "workflow_run") == Ok(WorkflowRun);
  }

  /** Listing workflow runs of one workflow: the identifier is the workflow,
      and `limit` defaults to 10. */
  lemma ListRunsOfWorkflow(identifier: Value, version: Value)
    requires Truthy(identifier)
    ensures PrepareList("workflow_run", identifier, [], version, []) ==
      Ok(Call(List, WorkflowRun, BoundCall([Client, Data(identifier)],
        [Kw("version", Data(VersionArg(WorkflowRun, version))), DefaultLimit])))
  {
    var e: seq<Kw> := [];
    var a := Data(VersionArg(WorkflowRun, version));
    RunsPrepare(identifier, version, e);
    assert ListPositionals(identifier, []) == [Client, Data(identifier)];
    assert WithVersion(WorkflowRun, version, e) == [Kw("version", a)];
    RunListingPositional(Data(identifier), a);
  }

  lemma RunListingPositional(a: Arg, b: Arg)
    ensures Bind(RunListing, [Client, a], [Kw("version", b)]) ==
      Ok(BoundCall([Client, a], [Kw("version", b), DefaultLimit]))
  {
    var vkw := Kw("version", b);
    var all := [vkw];
    assert Names(all) == ["version"];
    var c := Assemble(RunListing, [Client, a], all);
    assert c.args == c.args[..2];
    assert Given(all, "limit") == None;
    assert c.kwargs == [vkw, DefaultLimit];
  }

  /** A `limit` keyword overrides the default. */
  lemma ListRunsWithLimit(identifier: Value, version: Value, limit: Value)
    requires Truthy(identifier)
    ensures PrepareList("workflow_run", identifier, [], version, [Kw("limit", Data(limit))]) ==
      Ok(Call(List, WorkflowRun, BoundCall([Client, Data(identifier)],
        [Kw("version", Data(VersionArg(WorkflowRun, version))), Kw("limit", Data(limit))])))
  {
    var a := Data(VersionArg(WorkflowRun, version));
    RunsWithOneKeyword(identifier, version, Kw("limit", Data(limit)));
    RunListingLimit(Data(identifier), a, Data(limit));
  }

  lemma KwPair(x: Kw, y: Kw)
    ensures [x] + [y] == [x, y]
  {
  }

  /** Listing the runs of one workflow with one caller keyword binds that
      keyword and then the version. */
  lemma RunsWithOneKeyword(identifier: Value, version: Value, kw: Kw)
    requires Truthy(identifier)
    ensures var b := Bind(RunListing, [Client, Data(identifier)],
        [kw, Kw("version", Data(VersionArg(WorkflowRun, version)))]);
      PrepareList("workflow_run", identifier, [], version, [kw]) ==
        if b.Ok? then Ok(Call(List, WorkflowRun, b.value)) else Err(BadArguments(b.error))
  {
    var vkw := Kw("version", Data(VersionArg(WorkflowRun, version)));
    RunsPrepare(identifier, version, [kw]);
    assert ListPositionals(identifier, []) == [Client, Data(identifier)];
    KwPair(kw, vkw);
    FinishBinds(List, WorkflowRun, [Client, Data(identifier)], version, [kw]);
  }

  lemma RunListingLimit(a: Arg, b: Arg, c: Arg)
    ensures Bind(RunListing, [Client, a], [Kw("limit", c), Kw("version", b)]) ==
      Ok(BoundCall([Client, a], [Kw("version", b), Kw("limit", c)]))
  {
    var vkw := Kw("version", b);
    var lkw := Kw("limit", c);
    var all := [lkw, vkw];
    RunListingKeywords();
    GivenPair(lkw, vkw);
    KeywordArgsPair(all, Version, Param("limit", Some(Scalar(Int(10)))));
    BindPositionalOnly(RunListing, [Client, a], all);
  }

  /** The keyword-only parameters of the run listing. */
  lemma RunListingKeywords()
    ensures RunListing.positional == ["sdk", "identifier"]
    ensures RunListing.keywordOnly == [Version, Param("limit", Some(Scalar(Int(10))))]
    ensures KeywordOnlyName(RunListing, "version") && KeywordOnlyName(RunListing, "limit")
    ensures "limit" != "version" && "identifier" != "version"
    ensures ParamNames(RunListing) == ["sdk", "identifier", "version", "limit"]
  {
  }

  /** Without an identifier, listing workflow runs fails in binding: the
      target's `identifier` parameter is missing. */
  lemma ListRunsNeedIdentifier(identifier: Value, version: Value)
    requires !Truthy(identifier)
    ensures PrepareList("workflow_run", identifier, [], version, []) == Err(BadArguments(Missing("identifier")))
  {
    var e: seq<Kw> := [];
    var a := Data(VersionArg(WorkflowRun, version));
    RunsPrepare(identifier, version, e);
    assert ListPositionals(identifier, []) == [Client];
    assert WithVersion(WorkflowRun, version, e) == [Kw("version", a)];
    RunListingMissing(a);
  }

  lemma RunListingMissing(b: Arg)
    ensures Bind(RunListing, [Client], [Kw("version", b)]) == Err(Missing("identifier"))
  {
    assert Names([Kw("version", b)]) == ["version"];
    assert Remaining(RunListing, 1) == [Param("identifier", None), Version, Param("limit", Some(Scalar(Int(10))))];
  }

  /** Binding the run listing with the identifier given by keyword. */
  lemma RunListingByKeyword(a: Arg, b: Arg)
    ensures Bind(RunListing, [Client], [Kw("identifier", a), Kw("version", b)]) ==
      Ok(BoundCall([Client, a], [Kw("version", b), DefaultLimit]))
  {
    var ikw := Kw("identifier", a);
    var vkw := Kw("version", b);
    var all := [ikw, vkw];
    RunListingKeywords();
    GivenPair(ikw, vkw);
    KeywordArgsPair(all, Version, Param("limit", Some(Scalar(Int(10)))));
    assert TailGiven(RunListing, 1, Names(all));
    AssembleByKeyword(a, b);
  }

  lemma AssembleByKeyword(a: Arg, b: Arg)
    requires TailGiven(RunListing, 1, Names([Kw("identifier", a), Kw("version", b)]))
    requires Covered(RunListing.keywordOnly, Names([Kw("identifier", a), Kw("version", b)]))
    ensures Assemble(RunListing, [Client], [Kw("identifier", a), Kw("version", b)]) ==
      BoundCall([Client, a], [Kw("version", b), DefaultLimit])
  {
    var ikw := Kw("identifier", a);
    var vkw := Kw("version", b);
    var all := [ikw, vkw];
    RunListingKeywords();
    GivenPair(ikw, vkw);
    KeywordArgsPair(all, Version, Param("limit", Some(Scalar(Int(10)))));
    AssembleLastByKeyword(RunListing, [Client], all, a);
  }

  /** The identifier may come by keyword instead, as `--identifier`. */
  lemma ListRunsIdentifierByKeyword(identifier: Value, version: Value)
    requires !Truthy(version)
    ensures PrepareList("workflow_run", Null, [], version, [Kw("identifier", Data(identifier))]) ==
      Ok(Call(List, WorkflowRun, BoundCall([Client, Data(identifier)],
        [Kw("version", Data(Str("v1alpha1"))), DefaultLimit])))
  {
    OnlyVersion(WorkflowRun);
    var ikw := Kw("identifier", Data(identifier));
    RunsPrepare(Null, version, [ikw]);
    assert WithVersion(WorkflowRun, version, [ikw]) == [ikw, Kw("version", Data(Str("v1alpha1")))];
    assert ListPositionals(Null, []) == [Client];
    RunListingByKeyword(Data(identifier), Data(Str("v1alpha1")));
  }

  /** An explicit version is passed to the server as given, even one the kind
      does not support: the dispatchers do not check it. */
  lemma ExplicitVersionUnchecked(kindName: string, identifier: Value, v: string)
    requires ParseKind(kindName).Some? && Truthy(identifier) && v != ""
    ensures "v9" !in SupportedVersions(ParseKind(kindName).value)
    ensures PrepareGet(kindName, identifier, [], Str(v), []) ==
      Ok(Call(Get, ParseKind(kindName).value, BoundCall([Client, Data(identifier)], [Kw("version", Data(Str(v)))])))
  {
    var k := ParseKind(kindName).value;
    OnlyVersion(k);
    assert VersionArg(k, Str(v)) == Str(v);
    NoKwargs(Get);
  }

  lemma NoKwargs(op: Operation)
    ensures CallerKwargs(op, [])
  {
  }
}
