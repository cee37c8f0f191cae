# flowctl core, modelled in Dafny

flowctl is a command-line client for a workflow server. This project models
the three pieces of pure logic behind it:

- **The free-form flag parser** (`parse_complex_args`, `parse_key`,
  `process_nested_key`, `set_nested_value` in `flowctl/utils.py`). It turns
  the leftover command-line tokens, such as `--a.b 1 --list[] x --list[2] z`,
  into a list of positionals and a nested dict/list payload.
- **The deep merge** (`deep_merge_dicts` and `merge_lists`). It implements the
  patch semantics of `flowctl patch`.
- **The resource registry and dispatch** (`flowctl/resources.py`). This covers:
  - kind aliases and `normalize_resource_kind`;
  - supported versions;
  - the per-operation support tables;
  - the five dispatchers `get_resource`, `list_resources`, `delete_resource`,
    `create_resource` and `update_resource`;
  - the argument binding they delegate to (`validate_args_kwargs`, that is,
    Python's `Signature.bind` and `apply_defaults`);
  - the validation part of `parse_resource_definition`;
  - `filter_definition_paths`;
  - the dict branch of `get_resource_name`.

Modules, one per file:

| file | module | contents |
|---|---|---|
| wrappers.dfy | `Wrappers` | `Option`, `Result` |
| values.dfy | `Values` | the shared value type. Dicts are insertion-ordered association lists (`Lookup`, `Put`). |
| keypath.dfy | `KeyPath` | `parse_key` as a tokeniser for `\w+` and `\[\d*\]`. Also segments (`Key`, `Index`, `Append`) and a spelling function that inverts parsing. |
| nested.dfy | `Nested` | `set_nested_value` as recursive path insertion, plus the read-back function `Get` |
| cliargs.dfy | `CliArgs` | the token loop of `parse_complex_args` |
| merge.dfy | `Merge` | `deep_merge_dicts` and `merge_lists` |
| roundtrip.dfy | `ParsedPatch` | how parsed payloads behave under merge |
| kinds.dfy | `Kinds` | kinds, alias tables, normalisation, versions |
| binding.dfy | `Binding` | `Signature.bind` and `apply_defaults` over a signature given as data |
| dispatch.dfy | `Dispatch` | the support tables and the five dispatchers. The server is a function parameter. |
| definitions.dfy | `Definitions` | the definition check, the extension filter and resource names |

Two behaviours of the code are easy to misread:

- Repeating a bare flag (`--tag x --tag y`) overwrites: the result is
  `{tag: "y"}`, not a list (`CliArgs.RepeatedFlagOverwrites`). A bare flag
  appends only when the key already holds a list
  (`CliArgs.PlainFlagExtendsList`).
- The dispatchers do not check an explicit version against the supported list.
  They use it as given when it is truthy, and the latest version otherwise
  (`Dispatch.ExplicitVersionUnchecked`). Only the definition-file check rejects
  unsupported versions (`Definitions.CheckDefinition`).

## Model

| member | source | states |
|---|---|---|
| KeyPath.Tokens | flowctl/utils.py:449-451 | Every token is a `\w+` run or a `[digits]` group, and the word characters of the tokens, in order, are exactly those of the key. How the key is split is pinned down by the three lemmas below: a maximal word run is one token, a bracket group at the front is one token, and any other character is skipped. |
| KeyPath.TokensOfWordRun | flowctl/utils.py:449-451 | A word run followed by a non-word character is taken whole as one token (maximal munch). |
| KeyPath.TokensOfBracketGroup | flowctl/utils.py:449-451 | A bracket group at the front is one token. |
| KeyPath.TokensSkipChar | flowctl/utils.py:449-451 | A character that is not a word character and does not open a `[digits]` group is skipped. |
| KeyPath.Decimal | flowctl/utils.py:455-457 | Produces a non-empty digit string whose decimal value (the `int(...)` of the source) is the given number. |
| KeyPath.ToSegment | flowctl/utils.py:453-457 | A word run becomes a key, `[]` becomes append, and `[n]` becomes the index with decimal value n. |
| KeyPath.ParseKey | flowctl/utils.py:449-457 | The segments correspond one-to-one, in order, to the tokens of the key. |
| KeyPath.ParseKeyOfSpell | flowctl/utils.py:449-457 | Round trip: writing any path as `a.b[3][]` and parsing it gives the path back. |
| KeyPath.TokensOfSpell | flowctl/utils.py:449-451 | A spelled path tokenises into the spelling of each of its segments. |
| Nested.Pad | flowctl/utils.py:468-469 | Padding to index n yields length max(len, n+1), keeps the existing items, and fills the rest with `None`. |
| Nested.AssignLast | flowctl/utils.py:479-490 | Final key: appends if the key holds a list, else sets it; other keys and key order are unchanged. Final index or `[]`: writes slot n (len for `[]`), keeps other items and pads with `None`. Succeeds exactly on a dict for a key and on a list for an index. |
| Nested.Insert | flowctl/utils.py:460-490 | Errors are conflicts. A key step keeps every other key and the key order. An index step keeps every other item and pads with `None`. |
| Nested.InsertOne | flowctl/utils.py:479-490 | A one-segment path is just the final assignment. |
| Nested.InsertUnderKey | flowctl/utils.py:473-476 | An intermediate key descends into the existing value, or into a fresh container when it is missing or `None`. The result is stored back under that key. |
| Nested.SetNested | flowctl/utils.py:460-490 | Fails with an empty-path error exactly when the path is empty (`keys[-1]` on `[]`). |
| Nested.GetAfterInsert | flowctl/utils.py:460-490 | Read after write: along a path without `[]`, the inserted value is found again. A final key that held a list reads back as that list plus the value. |
| Nested.FreshHoldsNothing | flowctl/utils.py:470-476 | A freshly created container holds nothing under the next segment. |
| Nested.NothingBelow | flowctl/utils.py:470-476 | Below a missing or `None` slot, every path reads as absent or `None`. |
| Nested.InsertIntoFresh | flowctl/utils.py:470-490 | Inserting any path into the container its first segment calls for always succeeds. |
| Nested.InsertKeepsShape | flowctl/utils.py:460-490 | Insertion keeps dict keys unique and never introduces an integer dict key. |
| Nested.AssignLastAsWritten | flowctl/utils.py:480-485 | As written, an index into a dict with more than n keys stores the integer key n in the dict. |
| Nested.IndexIntoDictAsWritten | flowctl/utils.py:480-485 | Concrete case: `{b: "1"}` with final index 0 becomes `{b: "1", 0: "x"}`, while the corrected step reports a conflict. |
| CliArgs.StripDashes | flowctl/utils.py:442 | Removes exactly the leading dashes; the result never starts with `-`. |
| CliArgs.ParseFrom | flowctl/utils.py:438-447 | On success, the positionals are those collected so far followed by `Positionals` of the remaining tokens: every non-flag token that is not a flag's value, in order. The payload stays a dict. |
| CliArgs.ParseComplexArgs | flowctl/utils.py:436-447 | On success, the positionals are exactly `Positionals(tokens)`, so none is a flag or a flag's value. The payload is a dict with unique keys and no integer keys. |
| CliArgs.ParseKeepsShape | flowctl/utils.py:436-447 | The token loop keeps the payload free of integer keys and duplicate keys. |
| CliArgs.PositionalsInOrder | flowctl/utils.py:444-445 | A run of non-flag tokens is appended to the positionals in its original order, and nothing else changes. |
| CliArgs.NoFlagsAllPositional | flowctl/utils.py:440-447 | Without flags, every token is a positional and the payload is empty. |
| CliArgs.FlagTakesNextToken | flowctl/utils.py:441-443 | A flag consumes the next token as its value and inserts it at the flag's key path. |
| CliArgs.TrailingFlagIsNone | flowctl/utils.py:442 | A flag with no token after it inserts `None`. |
| CliArgs.FlagPathOfSpell | flowctl/utils.py:442-457 | `--` plus a spelled path is a flag whose key path is that path. |
| CliArgs.SpelledFlagRoundTrip | flowctl/utils.py:436-490 | `--<path> v` parses to a payload in which the path leads to `v`, for every path without `[]` that starts with a key. |
| CliArgs.TwoFlags | flowctl/utils.py:440-443 | Two flag/value pairs insert one after the other into the same payload. |
| CliArgs.SetPresentKey | flowctl/utils.py:486-490 | A final key overwrites a scalar, or appends when it holds a list. |
| CliArgs.AppendToListKey | flowctl/utils.py:480-485 | `[]` appends one item to an existing list. |
| CliArgs.DottedFlagsShareParent | flowctl/utils.py:473-476 | `--a.b 1 --a.c 2` gives `{a: {b: "1", c: "2"}}`: the existing dict is reused. |
| CliArgs.AppendFlagsCollect | flowctl/utils.py:480-485 | For any key name `n` and values `x`, `y`: `--n[] x --n[] y` gives `{n: [x, y]}`. |
| CliArgs.IndexFlagPads | flowctl/utils.py:474-485 | `--list[2] z` gives `{list: [None, None, "z"]}`. |
| CliArgs.RepeatedFlagOverwrites | flowctl/utils.py:486-490 | `--tag x --tag y` gives `{tag: "y"}`. |
| CliArgs.PlainFlagExtendsList | flowctl/utils.py:486-490 | For any key name `n` and values `x`, `y`: `--n[] x --n y` gives `{n: [x, y]}` (a bare key appends to a list it already holds). |
| Merge.MergeObjects | flowctl/utils.py:493-507 | The base's keys come first, in order. Result keys are exactly the union of base and patch keys. Unique keys are kept. |
| Merge.MergeEntry | flowctl/utils.py:496-505 | One patch entry keeps the key order and appends a new key at the end. |
| Merge.MergeLists | flowctl/utils.py:510-522 | Length is the maximum of the two. At shared indices the element is dict-merged, replaced by a non-`None` patch element, or kept for `None`. Past either end, the longer list's elements are taken, including `None`. |
| Merge.MergeStep | flowctl/utils.py:496-505 | The merge is a left fold of the patch entries over a copy of the base. |
| Merge.MergeLookup | flowctl/utils.py:493-507 | Against an independent per-key definition: base-only keys keep their value and patch-only keys are copied. A key in both gets a recursive merge (dict×dict), a list merge (list×list) or the patch value, including `None`. |
| Merge.MergeKeys | flowctl/utils.py:494-505 | Result key order is the base's keys followed by the patch's new keys, in patch order. |
| Merge.MergeDisjoint | flowctl/utils.py:504-505 | With no shared keys, the merge is concatenation. |
| Merge.MergeIdentity | flowctl/utils.py:493-507 | `merge({}, p) == p` and `merge(x, {}) == x`. |
| Merge.EntryPresent | flowctl/utils.py:497-503 | A shared key is combined in place, at its base position. |
| Merge.CombineSelf | flowctl/utils.py:493-522 | Merging a well-formed value with itself gives it back. |
| Merge.ObjectsSelf | flowctl/utils.py:493-507 | Merging a dict with itself gives it back. |
| Merge.ListsSelf | flowctl/utils.py:510-522 | Merging a list with itself gives it back. |
| Merge.CombineWellFormed | flowctl/utils.py:493-522 | Merging keeps every dict's keys unique, at every depth. |
| Merge.ObjectsWellFormed | flowctl/utils.py:493-507 | A dict merge of well-formed dicts is well-formed. |
| Merge.ListsWellFormed | flowctl/utils.py:510-522 | A list merge of well-formed lists has well-formed elements. |
| Merge.CombineTwice | flowctl/utils.py:493-522 | Applying the same patch twice equals applying it once. |
| Merge.ObjectsTwice | flowctl/utils.py:493-507 | Dict patches are idempotent. |
| Merge.ListsTwice | flowctl/utils.py:510-522 | List patches are idempotent. |
| Merge.NestedOverride | flowctl/utils.py:497-499 | For any keys with `a != b` and `c != d` and any integers, `{a:x, b:{c:y, d:z}}` patched with `{b:{c:w}}` gives `{a:x, b:{c:w, d:z}}`: the nested key is overridden and its sibling kept. |
| Merge.ListOfDicts | flowctl/utils.py:500-501 | For any keys `items`, `id`, `n` (`id != n`), `{items:[{id:i, n:a}, {id:j, n:b}]}` patched with `{items:[{n:c}]}` gives `{items:[{id:i, n:c}, {id:j, n:b}]}`: dicts inside lists merge position by position, and unpatched positions are kept. |
| Merge.NullKeepsListItem | flowctl/utils.py:517-518 | `[1,2,3]` patched with `[None,9,None]` gives `[1,9,3]`. |
| ParsedPatch.ParsedPayloadMergesIntoEmpty | flowctl/utils.py:493-507 | A parsed flag payload merged into `{}` is itself, and merged into itself is itself. |
| Kinds.ParseKind | flowctl/resources.py:22 | Accepts exactly the five canonical names, each naming its kind. |
| Kinds.FindAlias | flowctl/resources.py:286-292 | Returns the kind of a row that lists the name, and `None` exactly when no row does. |
| Kinds.Lower | flowctl/resources.py:284 | Lower-cases character by character and keeps the length. |
| Kinds.NormalizeResourceKind | flowctl/resources.py:283-294 | The error carries the name as given. |
| Kinds.PluralTable | flowctl/resources.py:31-37 | The plural table maps exactly the listed plural names to their kinds. |
| Kinds.SingularTable | flowctl/resources.py:24-30 | The singular table maps exactly the listed singular names to their kinds. |
| Kinds.NormalizeIsAliasLookup | flowctl/resources.py:283-294 | A name is reported plural exactly when its lower-cased form is a plural alias, singular exactly when it is a singular alias, and rejected exactly when it is neither. |
| Kinds.NamesDisjoint | flowctl/resources.py:24-37 | No name is both singular and plural, so checking the plural table first hides nothing. |
| Kinds.NormalizeIgnoresCase | flowctl/resources.py:283-284 | A name and its lower-cased form normalise alike. |
| Kinds.NormalizeCanonical | flowctl/resources.py:283-294 | Each canonical name normalises to its own kind, as a singular. |
| Kinds.SupportedVersions | flowctl/resources.py:38-44 | Every kind supports at least one version. |
| Kinds.LatestVersion | flowctl/resources.py:297-298 | The latest version is the last supported one, and so is supported. |
| Kinds.OnlyVersion | flowctl/resources.py:38-44 | Every kind supports exactly `v1alpha1`. |
| Binding.PositionalClash | flowctl/utils.py:430-431 | The positional phase passes exactly when the arguments fit the positional parameters and none of those is also given by keyword. Otherwise it reports too many arguments or the clashing name. |
| Binding.FirstMissing | flowctl/utils.py:430-432 | Reports a parameter that is neither given nor defaulted, and `None` exactly when every one is covered. |
| Binding.FirstUnexpected | flowctl/utils.py:430-431 | Reports a keyword naming no parameter, and `None` exactly when there is none. |
| Binding.KeywordArgs | flowctl/utils.py:432 | Every keyword-only parameter, in order, has the value given or else its default. |
| Binding.Assemble | flowctl/utils.py:431-434 | `bound.args` starts with the arguments and is filled with the keyword values of the remaining positional parameters. `bound.kwargs` is as in KeywordArgs. |
| Binding.Bind | flowctl/utils.py:430-434 | Succeeds exactly when: the arguments fit, no positional is given twice, the remaining positionals are given by keyword, keyword-only parameters are covered, and every keyword names a parameter. Each error names its culprit. |
| Binding.BindAllPositional | flowctl/utils.py:430-434 | With all positionals filled, binding succeeds exactly when there is no surplus, keyword-only parameters are covered, and keywords name only keyword-only parameters. |
| Dispatch.SupportTable | flowctl/resources.py:46-115 | get and list take every kind. delete takes all but plugin. create and update take workflow, trigger_rule and config. |
| Dispatch.VersionFirst | flowctl/resources.py:46-115 | Every target takes `version` as its first keyword-only parameter. Only listing workflow runs has another (`limit`). |
| Dispatch.VersionArg | flowctl/resources.py:352 | A truthy version is used as given; otherwise the kind's latest version is used. |
| Dispatch.Gate | flowctl/resources.py:340-344 | An unknown kind is reported before an unsupported one. The gate passes exactly for a known, supported kind. |
| Dispatch.Finish | flowctl/resources.py:351-353 | A call that goes through is for the requested operation and kind, starts with the given positional arguments, and (for keywords Python can pass) carries the filled-in version as its first keyword. Every failure is a binding error. |
| Dispatch.PrepareGet | flowctl/resources.py:340-353 | An unknown kind is reported first, then a falsy identifier, then binding errors. The call goes through exactly for a known kind, a truthy identifier and no further argument. The target then receives the client, the identifier and the effective version. |
| Dispatch.ListPositionals | flowctl/resources.py:377-380 | The identifier is put after the client only when it is truthy. |
| Dispatch.PrepareList | flowctl/resources.py:369-382 | An unknown kind is reported first, then binding errors; the identifier is not checked. For kinds other than workflow runs the call goes through exactly when there is no identifier and no further argument, and passes the client and version. For workflow runs it goes through exactly when `RunsAccepted` holds: the workflow is named once, and the caller's keywords are only `identifier` and `limit`. It then passes the workflow, the version and the limit (10 by default). |
| Dispatch.PrepareDelete | flowctl/resources.py:395-405 | An unknown kind is reported first, then a plugin as unsupported, then binding errors. The call goes through exactly for a known non-plugin kind with nothing else passed, even when the identifier is falsy. The target receives the client, the identifier and the version. |
| Dispatch.PrepareCreate | flowctl/resources.py:421-431 | An unknown kind is reported first, then a kind other than workflow, trigger_rule or config as unsupported, then binding errors. The call goes through exactly for those three kinds with nothing else passed. The target receives the client, the definition and the version. |
| Dispatch.PrepareUpdate | flowctl/resources.py:445-455 | As create, with the identifier (unchecked) before the definition. |
| Dispatch.Recover | flowctl/resources.py:355-358 | Not-found becomes `None`; a found value and other failures pass through. |
| Dispatch.Propagate | flowctl/resources.py:384 | Every outcome, not-found included, passes through unchanged. |
| Dispatch.GetResource | flowctl/resources.py:332-358 | The server is consulted exactly for a known kind, a truthy identifier and no further argument, with the client, the identifier and the version. Not-found then becomes `None`. Every other input gets the first validation error, without a server call. |
| Dispatch.ListResources | flowctl/resources.py:361-384 | The server is consulted exactly when the listing binds: for workflow runs when `RunsAccepted` holds, with `RunsBound`; for other kinds when no identifier or further argument is passed. Its answer, not-found included, passes through. Otherwise the validation error is returned. |
| Dispatch.DeleteResource | flowctl/resources.py:387-410 | The server is consulted exactly for a known non-plugin kind with nothing else passed, with the client, the identifier and the version. Not-found becomes `None`. |
| Dispatch.CreateResource | flowctl/resources.py:413-433 | The server is consulted exactly for workflow, trigger_rule or config with nothing else passed, with the client, the definition and the version. Its answer passes through. |
| Dispatch.UpdateResource | flowctl/resources.py:436-457 | The server is consulted exactly for workflow, trigger_rule or config with nothing else passed, with the client, the identifier, the definition and the version. Its answer passes through. |
| Dispatch.SoleVersionKeyword | flowctl/resources.py:351-353 | For a target whose only keyword-only parameter is `version`, the call goes through exactly when the positionals fill the signature and no caller keyword is passed. The target then receives the positionals and the version. |
| Dispatch.SoleVersionFinish | flowctl/resources.py:351-353 | Once the dispatcher's own positional arguments fill a target whose only keyword-only parameter is `version`, the call goes through exactly when no further argument is passed. It then carries those arguments and the version alone. |
| Dispatch.RunsBind | flowctl/resources.py:81-83 | Binding the run listing `(sdk, identifier, *, version, limit=10)` succeeds exactly when the workflow is given once, by position or by keyword, and every keyword is `identifier` or `limit`. |
| Dispatch.RunsBindValue | flowctl/resources.py:81-83 | An accepted run listing binds the client and the workflow, then the version and the caller's limit or 10. |
| Dispatch.RunsFinish | flowctl/resources.py:377-382 | Listing workflow runs binds exactly when `RunsAccepted` holds, and then to `RunsBound`. |
| Dispatch.ListRunsOfWorkflow | flowctl/resources.py:81-83 | Listing workflow runs of a workflow passes its identifier and a `limit` of 10. |
| Dispatch.ListRunsWithLimit | flowctl/resources.py:81-83 | An explicit `limit` replaces the default. |
| Dispatch.ListRunsNeedIdentifier | flowctl/resources.py:377-382 | Without an identifier, listing workflow runs fails in binding, with `identifier` missing. |
| Dispatch.RunListingByKeyword | flowctl/resources.py:81-83 | The run listing binds an `identifier` keyword into the positional slot. |
| Dispatch.ListRunsIdentifierByKeyword | flowctl/resources.py:377-382 | `--identifier` works in place of the positional identifier, and the version defaults to `v1alpha1`. |
| Dispatch.ExplicitVersionUnchecked | flowctl/resources.py:352 | For any known kind and truthy identifier, any non-empty explicit version string reaches the server as given, including one the kind does not support (`v9`). |
| Definitions.CheckDefinition | flowctl/resources.py:240-249 | Accepts exactly the definition kinds whose version is absent, empty or supported. Otherwise it reports the kind error first, then the version error. |
| Definitions.CheckedDefinitionIsApplicable | flowctl/resources.py:94-115 | An accepted definition's kind supports create, update and delete. |
| Definitions.DefinitionKinds | flowctl/resources.py:240-249 | With no version or `v1alpha1`, exactly workflow, trigger_rule and config pass. |
| Definitions.Suffix | flowctl/resources.py:254-258 | The suffix is empty or a dot followed by at least one character and no other dot. It ends the file name and is shorter than it. |
| Definitions.SuffixOfFile | flowctl/resources.py:254-258 | For any directory, `dir/stem.ext` has suffix `.ext` when `ext` is non-empty and has no dot (e.g. `defs/flow.yaml` gives `.yaml`). |
| Definitions.SuffixIsLastExtension | flowctl/resources.py:254-258 | Only the last extension counts: `stem.ext` has suffix `.ext` even when the stem holds dots (`flow.tar.gz` gives `.gz`). |
| Definitions.NoSuffixAtEnds | flowctl/resources.py:254-258 | A name whose only dot opens it (`.hidden`), or any name ending in a dot (`flow.`), has no suffix. |
| Definitions.NoSuffixFromDirectory | flowctl/resources.py:254-258 | A file name without a dot has no suffix, whatever dots its directory holds. |
| Definitions.FilterDefinitionPaths | flowctl/resources.py:254-258 | A path is kept exactly when it is in the input and its suffix is a known extension. |
| Definitions.FilterAppend | flowctl/resources.py:254-258 | Filtering distributes over concatenation, so the kept paths stay in input order. |
| Definitions.FilterIdempotent | flowctl/resources.py:254-258 | Filtering twice equals filtering once. |
| Definitions.GetResourceName | flowctl/resources.py:301-329 | workflow, trigger_rule and config read `metadata.name`; workflow_run and plugin read `name`; any other kind gives the default. A missing key or a non-dict `metadata` is an error. |
| Definitions.NameRoundTrip | flowctl/resources.py:301-329 | A resource built with a name where its kind keeps it gives that name back. |
| Definitions.MissingMetadata | flowctl/resources.py:303-304 | A workflow without `metadata` is an error, not the default. |

## Left out

- I/O is not modelled:
  - file reading (`ResourceDefinition.from_file`, path expansion);
  - the server SDK and its transport, which become the `remote` function parameter of the dispatchers;
  - async execution;
  - rendering;
  - configuration;
  - the command handlers that call the core.
- `definition.normalize()` in `parse_resource_definition` belongs to the manifest library; only the kind and version check is modelled.
- `KNOWN_DEFINITION_EXTS` lives in `flowctl/constants.py`, which is not part of this model. `Definitions.FilterDefinitionPaths` takes the extension list as a parameter.
- Definitions.Suffix: follows the classic `PurePath.suffix` rule on a path already normalised to slash-separated form. A trailing-dot name has no suffix. Newer Python versions treat that case differently.
- The non-dict branch of `get_resource_name` uses pydantic attribute access and is not modelled.
- Kinds.Lower: `str.lower` is modelled on ASCII letters only.
- KeyPath.Tokens: `\w` is taken as ASCII letters, digits and underscore, and `\d` as the ASCII digits. Python's `\w`, `\d` and `int()` also accept other Unicode word characters and decimal digits; those are not modelled.
- Error messages are not modelled; only which error occurs.
- Python raises on structural path conflicts only incidentally (for example `--a x --a.b y`, or an index into a string). All of these become the single `Conflict` error of `Nested.Insert`.
- Dispatch.GetResource: requires `CallerKwargs`. The keyword arguments must have distinct names, none of them a dispatcher's own parameter. Python enforces this when the dispatcher is called, before any of the modelled code runs. Binding at that outer call (for example `--sdk x` reaching `sdk=`) is not modelled. The same holds for the other four dispatchers.
- Binding.Bind: models `Signature.bind` for the one signature shape the dispatch tables use. That shape is positional-or-keyword parameters without defaults, then keyword-only parameters with optional defaults. `*args`, `**kwargs` and positional-only parameters are not modelled.
- The command-line values are strings or `None`; the parser never coerces them (value coercion belongs to the manifest library).
- The version passed to a dispatcher is a `Value`, so `--version` on the command line can carry any parsed value. Its truthiness follows Python's.

## Findings

| source | as written | input that shows it | evidently intended | confidence | as-written member | corrected member |
|---|---|---|---|---|---|---|
| flowctl/utils.py:480-485 | A final index segment is applied to whatever container the path reached, including a dict. `len(d)` counts its keys and `d[n] = value` stores the integer key n. | `--a.b 1 --a[0] x` gives `{a: {b: "1", 0: "x"}}`, a dict with an integer key that no other path can produce. | An index into a dict is a structural conflict, like every other type clash on the path. | medium, not executed | Nested.IndexIntoDictAsWritten | Nested.InsertKeepsShape |
