/**
  Resource definition files, as flowctl/resources.py handles them once a file
  has been read: the kind and version check of `parse_resource_definition`,
  the extension filter `filter_definition_paths`, and the dict branch of
  `get_resource_name`.
 */
module Definitions {
  import opened Wrappers
  import opened Values
  import opened Kinds
  import opened Dispatch

  datatype DefinitionError =
    | NotDefinitionKind(given: string)
    | UnsupportedVersion(version: string, of: Kind)

  /** Python truthiness of an optional string. */
  predicate VersionGiven(version: Option<string>) {
    version.Some? && version.value != ""
  }

  /** The validation of `parse_resource_definition`: the kind must be one a
      definition file may declare, and a version, when given, must be one that
      kind supports. */
  function CheckDefinition(kind: string, version: Option<string>): (r: Result<Kind, DefinitionError>)
    ensures r.Ok? <==>
      && ParseKind(kind).Some? && IsDefinitionKind(ParseKind(kind).value)
      && (VersionGiven(version) ==> version.value in SupportedVersions(ParseKind(kind).value))
    ensures r.Ok? ==> KindName(r.value) == kind
    ensures (ParseKind(kind).None? || !IsDefinitionKind(ParseKind(kind).value)) ==> r == Err(NotDefinitionKind(kind))
    ensures r.Err? && r.error.UnsupportedVersion? ==>
      r.error == UnsupportedVersion(version.value, ParseKind(kind).value) && VersionGiven(version)
  {
    match ParseKind(kind)
    case None => Err(NotDefinitionKind(kind))
    case Some(k) =>
      if !IsDefinitionKind(k) then Err(NotDefinitionKind(kind))
      else if VersionGiven(version) && version.value !in SupportedVersions(k) then Err(UnsupportedVersion(version.value, k))
      else Ok(k)
  }

  /** A definition that passes the check can be created and updated. */
  lemma CheckedDefinitionIsApplicable(kind: string, version: Option<string>)
    requires CheckDefinition(kind, version).Ok?
    ensures Supports(Create, CheckDefinition(kind, version).value)
    ensures Supports(Update, CheckDefinition(kind, version).value)
    ensures Supports(Delete, CheckDefinition(kind, version).value)
  {
    SupportTable(Create, CheckDefinition(kind, version).value);
  }

  /** The kinds a definition file may declare, each with no version or with
      `v1alpha1`; anything else is rejected. */
  lemma DefinitionKinds(kind: string, version: Option<string>)
    requires version == None || version == Some("") || version == Some("v1alpha1")
    ensures CheckDefinition(kind, version).Ok? <==> kind == "workflow" || kind == "trigger_rule" || kind == "config"
  {
  }

  /** The final component of a slash-separated path. */
  function FileName(path: string): (name: string)
    ensures '/' !in name
    ensures |name| <= |path| && name == path[|path| - |name|..]
    ensures |name| < |path| ==> path[|path| - |name| - 1] == '/'
  {
    if path == [] then []
    else if path[|path| - 1] == '/' then []
    else
      var rest := FileName(path[..|path| - 1]);
      assert path[..|path| - 1][|path| - 1 - |rest|..] == path[|path| - 1 - |rest|..|path| - 1];
      rest + [path[|path| - 1]]
  }

  /** The index of the last dot in `s`, if any. */
  function LastDot(s: string): (r: Option<nat>)
    ensures r.Some? ==> r.value < |s| && s[r.value] == '.' && '.' !in s[r.value + 1..]
    ensures r.None? <==> '.' !in s
  {
    if s == [] then None
    else if s[|s| - 1] == '.' then Some(|s| - 1)
    else
      var r := LastDot(s[..|s| - 1]);
      assert s == s[..|s| - 1] + [s[|s| - 1]];
      assert r.Some? ==> s[r.value + 1..] == s[..|s| - 1][r.value + 1..] + [s[|s| - 1]];
      r
  }

  /** `PurePath.suffix`: from the last dot of the file name to its end, unless
      that dot opens the name or ends it. */
  function Suffix(path: string): (ext: string)
    ensures ext != "" ==> |ext| >= 2 && ext[0] == '.' && '.' !in ext[1..]
    ensures ext != "" ==> |ext| < |FileName(path)| && ext == FileName(path)[|FileName(path)| - |ext|..]
  {
    var name := FileName(path);
    match LastDot(name)
    case Some(i) =>
      if 0 < i < |name| - 1 then
        assert name[i..][1..] == name[i + 1..];
        name[i..]
      else ""
    case None => ""
  }

  /** The file name is everything after the last slash. */
  lemma {:induction false} FileNameAfterSlash(dir: string, name: string)
    requires '/' !in name
    ensures FileName(dir + "/" + name) == name
    decreases |name|
  {
    var p := dir + "/" + name;
    if name == [] {
      assert p[|p| - 1] == '/';
    } else {
      var init := name[..|name| - 1];
      assert p[..|p| - 1] == dir + "/" + init;
      assert p[|p| - 1] == name[|name| - 1] != '/';
      FileNameAfterSlash(dir, init);
      assert name == init + [name[|name| - 1]];
    }
  }

  /** A path without a slash is its own file name. */
  lemma {:induction false} FileNameOfName(name: string)
    requires '/' !in name
    ensures FileName(name) == name
    decreases |name|
  {
    if name != [] {
      var init := name[..|name| - 1];
      FileNameOfName(init);
      assert name == init + [name[|name| - 1]];
    }
  }

  /** `LastDot` finds the dot that no later dot follows. */
  lemma {:induction false} LastDotIs(s: string, i: nat)
    requires i < |s| && s[i] == '.' && '.' !in s[i + 1..]
    ensures LastDot(s) == Some(i)
    decreases |s|
  {
    if i < |s| - 1 {
      assert s[|s| - 1] in s[i + 1..];
      var init := s[..|s| - 1];
      assert init[i + 1..] == s[i + 1..|s| - 1];
      LastDotIs(init, i);
    }
  }

  /** A file's suffix is its last extension, whatever directory it is in. */
  lemma SuffixOfFile(dir: string, stem: string, ext: string)
    requires stem != "" && ext != "" && '/' !in stem && '/' !in ext && '.' !in ext
    ensures Suffix(dir + "/" + stem + "." + ext) == "." + ext
  {
    var name := stem + "." + ext;
    assert '/' !in name by {
      assert forall c :: c in name ==> c in stem || c == '.' || c in ext;
    }
    assert dir + "/" + stem + "." + ext == dir + "/" + name;
    FileNameAfterSlash(dir, name);
    NameSuffix(stem, ext);
  }

  /** Only the last extension counts: a stem may hold dots of its own. */
  lemma SuffixIsLastExtension(stem: string, ext: string)
    requires stem != "" && ext != "" && '/' !in stem && '/' !in ext && '.' !in ext
    ensures Suffix(stem + "." + ext) == "." + ext
  {
    var name := stem + "." + ext;
    assert '/' !in name by {
      assert forall c :: c in name ==> c in stem || c == '.' || c in ext;
    }
    FileNameOfName(name);
    NameSuffix(stem, ext);
  }

  /** In the file name `stem.ext`, the dot before `ext` is the last one and
      neither opens nor ends the name. */
  lemma NameSuffix(stem: string, ext: string)
    requires stem != "" && ext != "" && '.' !in ext
    ensures var name := stem + "." + ext;
      LastDot(name) == Some(|stem|) && 0 < |stem| < |name| - 1 && name[|stem|..] == "." + ext
  {
    var name := stem + "." + ext;
    assert name[|stem| + 1..] == ext;
    LastDotIs(name, |stem|);
  }

  /** A leading dot does not start a suffix, nor does a trailing one. */
  lemma NoSuffixAtEnds(s: string)
    requires '/' !in s
    ensures '.' !in s ==> Suffix("." + s) == ""
    ensures Suffix(s + ".") == ""
  {
    if '.' !in s {
      LeadingDot(s);
    }
    TrailingDot(s);
  }

  lemma LeadingDot(s: string)
    requires '/' !in s && '.' !in s
    ensures Suffix("." + s) == ""
  {
    var hidden := "." + s;
    assert '/' !in hidden by {
      assert forall c :: c in hidden ==> c == '.' || c in s;
    }
    assert hidden[1..] == s;
    FileNameOfName(hidden);
    LastDotIs(hidden, 0);
  }

  lemma TrailingDot(s: string)
    requires '/' !in s
    ensures Suffix(s + ".") == ""
  {
    var trailing := s + ".";
    assert '/' !in trailing by {
      assert forall c :: c in trailing ==> c in s || c == '.';
    }
    assert trailing[|s| + 1..] == [];
    FileNameOfName(trailing);
    LastDotIs(trailing, |s|);
  }

  /** A dot in a directory name is not a suffix of the file. */
  lemma NoSuffixFromDirectory(dir: string, name: string)
    requires '/' !in name && '.' !in name
    ensures Suffix(dir + "/" + name) == ""
  {
    FileNameAfterSlash(dir, name);
  }

  /** `filter_definition_paths`: the paths whose suffix is a known definition
      extension, in their original order. */
  function FilterDefinitionPaths(paths: seq<string>, exts: seq<string>): (r: seq<string>)
    ensures |r| <= |paths|
    ensures forall p :: p in r <==> p in paths && Suffix(p) in exts
  {
    if paths == [] then []
    else
      var rest := FilterDefinitionPaths(paths[1..], exts);
      assert forall p :: p in paths <==> p == paths[0] || p in paths[1..];
      if Suffix(paths[0]) in exts then [paths[0]] + rest else rest
  }

  /** Filtering distributes over concatenation, so it keeps the relative
      order of the paths it keeps. */
  lemma {:induction false} FilterAppend(a: seq<string>, b: seq<string>, exts: seq<string>)
    ensures FilterDefinitionPaths(a + b, exts) == FilterDefinitionPaths(a, exts) + FilterDefinitionPaths(b, exts)
  {
    if a == [] {
      assert a + b == b;
    } else {
      var ab := a + b;
      assert ab[0] == a[0] && ab[1..] == a[1..] + b;
      FilterAppend(a[1..], b, exts);
    }
  }

  /** Filtering twice is filtering once. */
  lemma {:induction false} FilterIdempotent(paths: seq<string>, exts: seq<string>)
    ensures FilterDefinitionPaths(FilterDefinitionPaths(paths, exts), exts) == FilterDefinitionPaths(paths, exts)
  {
    if paths != [] {
      var rest := FilterDefinitionPaths(paths[1..], exts);
      FilterIdempotent(paths[1..], exts);
      if Suffix(paths[0]) in exts {
        assert ([paths[0]] + rest)[1..] == rest;
      }
    }
  }

  datatype NameError =
    | KeyMissing(key: string)
    | NotSubscriptable

  /** `d[key]` on a value that may or may not be a dict. */
  function Subscript(v: Value, key: string): (r: Result<Value, NameError>)
    ensures r.Ok? <==> v.Obj? && Lookup(v.fields, Name(key)).Some?
    ensures r.Ok? ==> Field(Name(key), r.value) in v.fields
  {
    match v
    case Obj(fs) => (match Lookup(fs, Name(key))
      case Some(x) => Ok(x)
      case None => Err(KeyMissing(key)))
    case _ => Err(NotSubscriptable)
  }

  /** Where a kind keeps its name: under `metadata`, or at the top level. */
  predicate NameUnderMetadata(kindName: string) {
    kindName == "workflow" || kindName == "trigger_rule" || kindName == "config"
  }

  predicate NameAtTop(kindName: string) {
    kindName == "workflow_run" || kindName == "plugin"
  }

  /** `get_resource_name` on a dict resource. */
  function GetResourceName(resource: seq<Field>, kindName: string, default: Value): (r: Result<Value, NameError>)
    ensures NameUnderMetadata(kindName) ==>
      (r.Ok? <==> exists m :: Lookup(resource, Name("metadata")) == Some(Obj(m)) && Lookup(m, Name("name")).Some?)
    ensures NameUnderMetadata(kindName) && r.Ok? ==>
      Lookup(Lookup(resource, Name("metadata")).value.fields, Name("name")) == Some(r.value)
    ensures NameAtTop(kindName) ==> (r.Ok? <==> Lookup(resource, Name("name")).Some?)
    ensures NameAtTop(kindName) && r.Ok? ==> Lookup(resource, Name("name")) == Some(r.value)
    ensures !NameUnderMetadata(kindName) && !NameAtTop(kindName) ==> r == Ok(default)
  {
    if NameUnderMetadata(kindName) then
      var metadata :- Subscript(Obj(resource), "metadata");
      Subscript(metadata, "name")
    else if NameAtTop(kindName) then Subscript(Obj(resource), "name")
    else Ok(default)
  }

  /** A resource built with a name in the place its kind keeps it gives that
      name back. */
  lemma {:induction false} NameRoundTrip(k: Kind, fields: seq<Field>, metadata: seq<Field>, name: Value, default: Value)
    ensures var r := if NameUnderMetadata(KindName(k))
        then Put(fields, Name("metadata"), Obj(Put(metadata, Name("name"), name)))
        else Put(fields, Name("name"), name);
      GetResourceName(r, KindName(k), default) == Ok(name)
  {
    var kindName := KindName(k);
    if NameUnderMetadata(kindName) {
      NameBackFromMetadata(fields, metadata, name, kindName, default);
    } else {
      KindKeepsName(k);
      NameBackFromTop(fields, name, kindName, default);
    }
  }

  /** Every kind keeps its name in one of the two places. */
  lemma KindKeepsName(k: Kind)
    ensures NameUnderMetadata(KindName(k)) != NameAtTop(KindName(k))
  {
  }

  lemma NameBackFromMetadata(fields: seq<Field>, metadata: seq<Field>, name: Value, kindName: string, default: Value)
    requires NameUnderMetadata(kindName)
    ensures GetResourceName(Put(fields, Name("metadata"), Obj(Put(metadata, Name("name"), name))), kindName, default) == Ok(name)
  {
    var m := Put(metadata, Name("name"), name);
    var r := Put(fields, Name("metadata"), Obj(m));
    assert Subscript(Obj(r), "metadata") == Ok(Obj(m));
    assert Subscript(Obj(m), "name") == Ok(name);
  }

  lemma NameBackFromTop(fields: seq<Field>, name: Value, kindName: string, default: Value)
    requires NameAtTop(kindName) && !NameUnderMetadata(kindName)
    ensures GetResourceName(Put(fields, Name("name"), name), kindName, default) == Ok(name)
  {
    assert Subscript(Obj(Put(fields, Name("name"), name)), "name") == Ok(name);
  }

  /** A workflow without metadata has no name: the lookup fails instead of
      falling back to the default. */
  lemma MissingMetadata(default: Value)
    ensures GetResourceName([Field(Name("name"), Str("w"))], "workflow", default) == Err(KeyMissing("metadata"))
  {
    var fs := [Field(Name("name"), Str("w"))];
    assert KeysOf(fs) == [Name("name")];
    assert Name("metadata") != Name("name");
  }
}
