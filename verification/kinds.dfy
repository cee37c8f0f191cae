/**
  The resource-kind registry of flowctl/resources.py: the five canonical kinds,
  their singular and plural aliases, and the schema versions each kind supports.
 */
module Kinds {
  import opened Wrappers

  datatype Kind = Workflow | WorkflowRun | TriggerRule | Config | Plugin

  /** The canonical name of a kind, as the server and the dispatch tables know it. */
  function KindName(k: Kind): string {
    match k
    case Workflow => "workflow"
    case WorkflowRun => "workflow_run"
    case TriggerRule => "trigger_rule"
    case Config => "config"
    case Plugin => "plugin"
  }

  /** `resource_kind in resource_kinds`: the kind a canonical name denotes. */
  function ParseKind(s: string): (r: Option<Kind>)
    ensures forall k :: r == Some(k) <==> KindName(k) == s
  {
    if s == "workflow" then Some(Workflow)
    else if s == "workflow_run" then Some(WorkflowRun)
    else if s == "trigger_rule" then Some(TriggerRule)
    else if s == "config" then Some(Config)
    else if s == "plugin" then Some(Plugin)
    else None
  }

  /** The kinds a definition file may declare (`resource_definition_kinds`). */
  predicate IsDefinitionKind(k: Kind) {
    k == Workflow || k == TriggerRule || k == Config
  }

  /** One row of an alias table: the names that select a kind. */
  datatype Alias = Alias(names: seq<string>, kind: Kind)

  /** `resource_kind_aliases`, in its order. */
  const SingularAliases: seq<Alias> := [
    Alias(["workflow"], Workflow),
    Alias(["workflow_run", "run"], WorkflowRun),
    Alias(["trigger_rule", "trigger"], TriggerRule),
    Alias(["config"], Config),
    Alias(["plugin"], Plugin)
  ]

  /** `resource_kind_plural_aliases`, in its order. */
  const PluralAliases: seq<Alias> := [
    Alias(["workflows"], Workflow),
    Alias(["workflow_runs", "runs"], WorkflowRun),
    Alias(["trigger_rules", "triggers"], TriggerRule),
    Alias(["configs"], Config),
    Alias(["plugins"], Plugin)
  ]

  /** The kind of the first row of `table` that lists `name`. */
  function FindAlias(table: seq<Alias>, name: string): (r: Option<Kind>)
    ensures r.Some? ==> exists i :: 0 <= i < |table| && name in table[i].names && table[i].kind == r.value
    ensures r.None? <==> forall i :: 0 <= i < |table| ==> name !in table[i].names
  {
    if table == [] then None
    else if name in table[0].names then Some(table[0].kind)
    else
      var r := FindAlias(table[1..], name);
      assert forall i :: 1 <= i < |table| ==> table[i] == table[1..][i - 1];
      r
  }

  /** `str.lower` on ASCII letters. */
  function LowerChar(c: char): char {
    if 'A' <= c <= 'Z' then c - 'A' + 'a' else c
  }

  function Lower(s: string): (r: string)
    ensures |r| == |s|
    ensures forall i :: 0 <= i < |s| ==> r[i] == LowerChar(s[i])
  {
    seq(|s|, i requires 0 <= i < |s| => LowerChar(s[i]))
  }

  datatype KindError = UnknownKind(given: string)

  /** `normalize_resource_kind`: the kind a user-supplied name denotes, and
      whether the name was a plural alias. Plural aliases are consulted first. */
  function NormalizeResourceKind(s: string): (r: Result<(Kind, bool), KindError>)
    ensures r.Err? ==> r.error == UnknownKind(s)
  {
    var name := Lower(s);
    match FindAlias(PluralAliases, name)
    case Some(k) => Ok((k, true))
    case None =>
      match FindAlias(SingularAliases, name)
      case Some(k) => Ok((k, false))
      case None => Err(UnknownKind(s))
  }

  /** The plural names of each kind, written out independently of the tables. */
  predicate PluralName(name: string, k: Kind) {
    match k
    case Workflow => name == "workflows"
    case WorkflowRun => name == "workflow_runs" || name == "runs"
    case TriggerRule => name == "trigger_rules" || name == "triggers"
    case Config => name == "configs"
    case Plugin => name == "plugins"
  }

  /** The singular names of each kind, written out independently of the tables. */
  predicate SingularName(name: string, k: Kind) {
    match k
    case Workflow => name == "workflow"
    case WorkflowRun => name == "workflow_run" || name == "run"
    case TriggerRule => name == "trigger_rule" || name == "trigger"
    case Config => name == "config"
    case Plugin => name == "plugin"
  }

  /** One step of the table search. */
  lemma FindAliasCons(a: Alias, rest: seq<Alias>, name: string)
    ensures FindAlias([a] + rest, name) == if name in a.names then Some(a.kind) else FindAlias(rest, name)
  {
    assert ([a] + rest)[1..] == rest;
  }

  /** The plural table, read as a chain of tests. */
  lemma PluralSearch(name: string)
    ensures FindAlias(PluralAliases, name) ==
      if name == "workflows" then Some(Workflow)
      else if name == "workflow_runs" || name == "runs" then Some(WorkflowRun)
      else if name == "trigger_rules" || name == "triggers" then Some(TriggerRule)
      else if name == "configs" then Some(Config)
      else if name == "plugins" then Some(Plugin)
      else None
  {
    var a0, a1, a2, a3, a4 := PluralAliases[0], PluralAliases[1], PluralAliases[2], PluralAliases[3], PluralAliases[4];
    assert PluralAliases == [a0] + ([a1] + ([a2] + ([a3] + ([a4] + []))));
    FindAliasCons(a4, [], name);
    FindAliasCons(a3, [a4] + [], name);
    FindAliasCons(a2, [a3] + ([a4] + []), name);
    FindAliasCons(a1, [a2] + ([a3] + ([a4] + [])), name);
    FindAliasCons(a0, [a1] + ([a2] + ([a3] + ([a4] + []))), name);
  }

  lemma PluralTable(name: string, k: Kind)
    ensures FindAlias(PluralAliases, name) == Some(k) <==> PluralName(name, k)
  {
    PluralSearch(name);
  }

  /** The singular table, read as a chain of tests. */
  lemma SingularSearch(name: string)
    ensures FindAlias(SingularAliases, name) ==
      if name == "workflow" then Some(Workflow)
      else if name == "workflow_run" || name == "run" then Some(WorkflowRun)
      else if name == "trigger_rule" || name == "trigger" then Some(TriggerRule)
      else if name == "config" then Some(Config)
      else if name == "plugin" then Some(Plugin)
      else None
  {
    var a0, a1, a2, a3, a4 := SingularAliases[0], SingularAliases[1], SingularAliases[2], SingularAliases[3], SingularAliases[4];
    assert SingularAliases == [a0] + ([a1] + ([a2] + ([a3] + ([a4] + []))));
    FindAliasCons(a4, [], name);
    FindAliasCons(a3, [a4] + [], name);
    FindAliasCons(a2, [a3] + ([a4] + []), name);
    FindAliasCons(a1, [a2] + ([a3] + ([a4] + [])), name);
    FindAliasCons(a0, [a1] + ([a2] + ([a3] + ([a4] + []))), name);
  }

  lemma SingularTable(name: string, k: Kind)
    ensures FindAlias(SingularAliases, name) == Some(k) <==> SingularName(name, k)
  {
    SingularSearch(name);
  }

  /** Normalising accepts exactly the listed names, case-insensitively, and
      reports a plural name as plural and a singular one as singular. */
  lemma {:induction false} NormalizeIsAliasLookup(s: string, k: Kind)
    ensures NormalizeResourceKind(s) == Ok((k, true)) <==> PluralName(Lower(s), k)
    ensures NormalizeResourceKind(s) == Ok((k, false)) <==> SingularName(Lower(s), k)
    ensures NormalizeResourceKind(s).Err? <==> forall k' :: !PluralName(Lower(s), k') && !SingularName(Lower(s), k')
  {
    var name := Lower(s);
    PluralTable(name, k);
    SingularTable(name, k);
    forall k' ensures FindAlias(PluralAliases, name) == Some(k') <==> PluralName(name, k') {
      PluralTable(name, k');
    }
    forall k' ensures FindAlias(SingularAliases, name) == Some(k') <==> SingularName(name, k') {
      SingularTable(name, k');
    }
    if SingularName(name, k) {
      NamesDisjoint(name, k);
    }
  }

  /** No name is both singular and plural, so consulting the plural table
      first never hides a singular name. */
  lemma NamesDisjoint(name: string, k: Kind)
    requires SingularName(name, k)
    ensures forall k' :: !PluralName(name, k')
  {
  }

  /** Normalising ignores case: a name and its lower-cased form are accepted
      or rejected together, and name the same kind when accepted. */
  lemma NormalizeIgnoresCase(s: string)
    ensures Lower(Lower(s)) == Lower(s)
    ensures NormalizeResourceKind(Lower(s)).Ok? <==> NormalizeResourceKind(s).Ok?
    ensures NormalizeResourceKind(s).Ok? ==> NormalizeResourceKind(Lower(s)) == NormalizeResourceKind(s)
  {
    assert Lower(Lower(s)) == Lower(s);
  }

  /** Each canonical name normalises to its kind as a singular. */
  lemma NormalizeCanonical(k: Kind)
    ensures NormalizeResourceKind(KindName(k)) == Ok((k, false))
  {
    var name := KindName(k);
    assert Lower(name) == name;
    NormalizeIsAliasLookup(name, k);
  }

  /** `resource_supported_versions[k]`. */
  function SupportedVersions(k: Kind): (vs: seq<string>)
    ensures |vs| > 0
  {
    ["v1alpha1"]
  }

  /** `get_latest_supported_version(k)`: the last supported version. */
  function LatestVersion(k: Kind): (v: string)
    ensures v in SupportedVersions(k)
    ensures v == SupportedVersions(k)[|SupportedVersions(k)| - 1]
  {
    var vs := SupportedVersions(k);
    vs[|vs| - 1]
  }

  /** Every kind currently supports exactly `v1alpha1`. */
  lemma OnlyVersion(k: Kind)
    ensures SupportedVersions(k) == ["v1alpha1"] && LatestVersion(k) == "v1alpha1"
  {
  }
}
