# terminal-magic module lifecycle, modelled in Dafny

terminal-magic installs shell "modules" from a local git checkout (the repository) into a
home directory. A module is a directory in the repository with a `config.toml` descriptor
and a mustache `template.sh`. Installing one prompts the user for the descriptor's
placeholders. It then copies the module's supporting files, builds a Rust package with
`cargo install` when the module is one, renders the template into `script.sh`, and records
the filled descriptor as `data.toml`. Updating reconciles the stored answers with a changed
descriptor, brings dependencies up to date, optionally grows list placeholders, and asks
before it overwrites anything. The binary carries an older copy of the same logic, and its
command line runs that copy: `install` (src/main.rs:170), `update` (src/main.rs:205) and
"update all" (src/main.rs:198) call the binary's own functions, never the library's.

This project models that engine and proves properties of the model.

- **Data model** (`Models`, `IndexMaps`). The descriptor types are datatypes. An `IndexMap`
  is a sequence of key/value pairs, so key order is kept. Rust's derived equality is
  modelled by `EntryEq`, `InfoEq` and their relatives; an `IndexMap` compares equal
  regardless of key order.
- **Decoding** (`Serde`). TOML is modelled as the decoded value tree, not as text.
  Serde's untagged decoding is written out per variant, in two dialects. `Library` is the
  library crate's declarations. `Binary` is the binary's own. They declare `File` before
  `Directory`, and their plugin type is only `Shell` or `Script`, with no `RustPackage`.
- **Versions** (`SemVer`). A `major.minor.patch` triple of `u64` components is parsed and
  ordered by Semantic Versioning 2.0.0 precedence (section 11) restricted to release
  versions; a component too large for a `u64` is a parse error, as in the `semver` crate.
- **Rendering context** (`Context`). The mustache `MapBuilder` is a `map<string, Data>`
  in which a later insert replaces an earlier one.
- **The terminal** (`Prompts`). It is an injected answer stream (`Input`). Each prompt
  consumes one `Answer`: typed text, a yes/no confirmation, or a cancel. An exhausted
  stream is a failed prompt.
- **The host** (`FileSystem`, `Host`). The filesystem is a map from paths (sequences of
  components) to directories and files. A file holds text or a decoded TOML document.
  - A `World` holds the filesystem, the remaining answers and the `cargo` commands spawned
    so far.
  - The imperative code runs on a `Host.Machine` object whose fields are that world.
  - Each operation is also a function from a world to a `Run`: the new world plus the
    value or the halt that ended the process (`Exit(code)`, `Panic(message)` or
    `StackOverflow`).
  - Each method's `ensures` ties the machine's new state and result to that function.
- **Recursion depth**. `install` and `update` call each other through internal
  dependencies with no cycle guard. They carry a `fuel` parameter, and running out of it
  is the stack overflow a cycle causes (`Lifecycle.SelfDependency`).
- **Injected functions**. The environment `Env` supplies the home and repository
  directories, the order in which the host lists directory entries, tilde expansion, and
  the template engine, as uninterpreted functions.

Modules follow the source. `Prompts` models src/prompts.rs, `Modules` models
src/modules/mod.rs, `Template` models src/template.rs, and `InstallSteps` models the
helpers of src/modules/install.rs. `Lifecycle` holds `install` and `update`, which are
mutually recursive, and `Legacy` holds the older copies in src/main.rs.

## Model

| member | source | states |
|---|---|---|
| Strings.JoinWith | src/prompts.rs:70 | joining no strings gives "" and joining one string gives that string |
| Strings.JoinWithSnoc | src/modules/mod.rs:99-103 | joining one more string appends the separator and that string to the previous join |
| Strings.ReplaceAbsent | src/main.rs:190 | `replace` leaves a string that does not contain the pattern unchanged |
| IndexMaps.Get | src/modules/update.rs:62 | lookup fails exactly when the key is not among the map's keys |
| IndexMaps.Insert | src/prompts.rs:103 | inserting a present key keeps the key order; inserting a new key appends the pair at the end |
| IndexMaps.GetInsert | src/prompts.rs:103 | after an insert, the inserted key maps to the new value and every other key to its old value |
| Models.Display | src/models.rs:85-92 | a `Value` displays as its string; a non-empty display can only come from the `Value` with that string, so `Object` and `Array` display as "" |
| Models.EntryEqRefl | src/models.rs:77-83 | derived equality on a well-formed placeholder tree is reflexive |
| Models.VariantSensitive | src/models.rs:77-83 | a `Value` is never equal to an `Object` or an `Array`, in either order |
| Models.FieldOrderIgnored | src/models.rs:77-83 | two objects whose first two keys are swapped are different sequences but compare equal |
| Models.InfoEqComparesEveryField | src/models.rs:25-31 | equal descriptors agree on author, version, help, both dependency lists and plugin type, on whether placeholders and supporting files are present, and on how many of each there are |
| Models.PlaceholderCompared | src/models.rs:25-31 | a placeholder of one descriptor that the other lacks, or holds with an unequal value, makes the descriptors unequal |
| Models.SupportingFileCompared | src/models.rs:25-31 | a supporting-file entry of one descriptor that the other lacks, or holds as an unequal entry, makes the descriptors unequal |
| Models.FileEqRefl | src/models.rs:33-47 | derived equality of supporting-file trees is reflexive on trees with unique keys |
| Models.InfoEqRefl | src/models.rs:25-31 | a well-formed descriptor equals itself, so equal fields give equal descriptors |
| Serde.DecodeEntryKinds | src/models.rs:77-83 | a TOML string decodes to `Value`, a table to `Object` with the same keys in order, an array to `Array` with the same length; integers and booleans do not decode |
| Serde.DecodeEntry | src/models.rs:77-83 | reference for untagged `EntryType` decoding: a string is a `Value`, a table an `Object` in key order, an array an `Array`, anything else fails |
| Serde.DecodeEncodeEntry | src/models.rs:77-83 | decoding the encoding of any placeholder tree gives back that tree |
| Serde.EncodeDecodeEntry | src/models.rs:77-83 | encoding a decoded tree gives back the TOML value it came from, keeping key and element order |
| Serde.StringsRoundTrip | src/models.rs:60-61 | an optional string list written under a key absent from the rest of the table is read back unchanged |
| Serde.HeaderFields | src/models.rs:33-47 | a record with version, path and an optional destination yields that header |
| Serde.FilesField | src/models.rs:33-47 | an encoded entry carries its header, and has a `files` table exactly when it is a `Directory` |
| Serde.DecodeEncodeFile | src/models.rs:33-47 | every supporting-file entry survives encoding and decoding in the library dialect: `Directory` is tried first, so a record with `files` decodes as `Directory` with its children in order, and one without decodes as `File` |
| Serde.DecodeEncodeFiles | src/models.rs:30 | a supporting-file table survives encoding and decoding, in order |
| Serde.DecodeFile | src/models.rs:33-47 | reference for untagged `FileSystemEntry` decoding in either dialect: the library takes `Directory` when `files` decodes, the binary always takes `File` |
| Serde.BinaryNeverDecodesDirectory | src/main.rs:863-868 | in the binary's dialect, `File` is declared first and so a record never decodes as `Directory` |
| Serde.BinaryFlattensDirectory | src/main.rs:863-868 | in the binary's dialect, a directory record decodes as a `File` with the same header |
| Serde.PluginTypeRoundTrip | src/models.rs:65-75 | every plugin type except `Script` survives encoding and decoding; a `Script` comes back as `Shell` |
| Serde.DecodePluginType | src/models.rs:65-75 | reference: a string is `Shell` (so never `Script`), a table with optional `path`, `git`, `tag` is a `RustPackage` in the library dialect only |
| Serde.NeverScript | src/models.rs:65-75 | decoding never yields `Script`; a table without path, git or tag decodes as a `RustPackage` with all three absent; in the binary's dialect only a string decodes, as `Shell` |
| Serde.PackageLookup | src/models.rs:55-63 | an encoded package holds each of its fields under its serde name |
| Serde.DecodeEncodePackage | src/models.rs:55-63 | a package whose type is not `Script` survives encoding and decoding |
| Serde.InfoLookup | src/models.rs:25-31 | an encoded descriptor holds `plugin_info`, and `placeholders` and `supporting_files` exactly when they are present |
| Serde.DecodeEncodeInfo | src/modules/install.rs:195-198 | a descriptor whose type is not `Script` survives being written as a record and read back |
| Serde.DecodeInfo | src/models.rs:25-31 | reference for `PluginInfo` decoding: a table with a decodable `plugin_info`, and `placeholders` and `supporting_files` either absent or decodable |
| SemVer.ParseNumber | src/modules/mod.rs:142 | a parsed number component is non-empty, has no leading zero and fits a `u64` |
| SemVer.LeadingZeroRejected | src/modules/mod.rs:142 | a component of two or more characters that starts with 0 does not parse |
| SemVer.TooLargeRejected | src/modules/mod.rs:142 | a component of 2^64 or more does not parse |
| SemVer.TooLargeMajorRejected | src/modules/mod.rs:142 | a version whose major component is 2^64 or more does not parse, whatever follows |
| SemVer.Parse | src/modules/mod.rs:141-144 | a parsed version has exactly three dot-separated components |
| SemVer.ParseShow | src/modules/mod.rs:141-144 | every version parses back from its `major.minor.patch` text |
| SemVer.LessIsStrictTotal | src/modules/mod.rs:145 | version precedence is irreflexive, transitive, total and asymmetric |
| Context.FromEntry | src/modules/install.rs:55-57 | a `Value` becomes a string, an `Array` a list of the same length, and an `Object` a map with the object's keys |
| Context.Insert | src/modules/install.rs:55-57 | inserting a placeholder adds its key with the converted value and keeps every other key's value |
| Context.InsertStr | src/prompts.rs:91 | inserting a string adds its key with that string and keeps every other key's value |
| Prompts.BooleanPrompt | src/prompts.rs:14-20 | a confirmation answer yields its yes/no and consumes it; anything else (a cancel, text, no answer) exits with status 1 |
| Prompts.ReadValue | src/prompts.rs:45-57 | a typed answer yields the tilde-expanded answer, or the tilde-expanded default when the answer is empty; anything else exits with status 1 |
| Prompts.Read | src/prompts.rs:37-43 | the collector consumes part of the answer stream and never adds to it |
| Prompts.ReadConforms | src/prompts.rs:37-43 | by induction, a resolved tree has the shape of its prototype: a `Value` stays a `Value`, an `Object` keeps its keys in order, and every element of an `Array` conforms to the prototype's first element |
| Prompts.ReadScalarAndEmpty | src/prompts.rs:37-43 | resolving a `Value` leaves the context unchanged and consumes exactly one answer; an empty `Array` panics on the index |
| Prompts.ReadKeepsNames | src/prompts.rs:37-43 | the collector only adds keys to the context, never removes one |
| Prompts.ReadArrayLoop | src/prompts.rs:78-92 | the list loop consumes part of the answer stream |
| Prompts.ArrayLoopExtends | src/prompts.rs:78-92 | the loop returns an `Array` that starts with the elements collected so far and adds at least one, and sets `<key>_shortNames` to the short names of the newly built array only |
| Prompts.ArrayLoopKeepsNames | src/prompts.rs:78-92 | the list loop only adds keys to the context |
| Prompts.ListOfScalars | src/prompts.rs:78-92 | for a scalar prototype, answers t1, yes, ..., yes, tn followed by anything but a yes give exactly the n tilde-expanded answers, and the context gains only an empty `<key>_shortNames` |
| Prompts.ScalarAgain | src/prompts.rs:84-88 | for a scalar prototype, a typed answer followed by a yes to "Another one?" appends that tilde-expanded answer and reads the next element |
| Prompts.LastScalar | src/prompts.rs:84-92 | for a scalar prototype, a typed answer followed by anything but a yes to "Another one?", including an exhausted stream, ends the loop without exiting, with the answer appended and an empty `<key>_shortNames` |
| Prompts.ReadFieldsFrom | src/prompts.rs:95-106 | the object loop consumes part of the answer stream and returns an `Object` |
| Prompts.FieldsConform | src/prompts.rs:95-106 | the object loop returns exactly the prototype's keys in the same order, each value conforming to its prototype |
| Prompts.FieldsKeepNames | src/prompts.rs:95-106 | the object loop only adds keys to the context |
| Prompts.InsertNextField | src/prompts.rs:103 | inserting the next prototype key into the keys built so far appends it, so the key order is the prototype's |
| Prompts.ShortName | src/prompts.rs:62-68 | an element has a short name exactly when it is an `Object` whose `shortName` is a `Value`, and the name is that value |
| Prompts.ShortNameList | src/prompts.rs:59-71 | there are no more short names than elements |
| Prompts.ShortNameListMembers | src/prompts.rs:59-71 | a name is among the short names exactly when some element of the list has it as its short name |
| Prompts.NoShortNames | src/prompts.rs:59-71 | a list without objects, the empty list included, gives "" |
| Prompts.GetShortNames | src/prompts.rs:59-71 | the loop computes the space-joined short names, in list order |
| Prompts.ReadArray | src/prompts.rs:73-93 | the `read_array` loop computes what the list loop specifies, starting from an empty list |
| Prompts.ArrayConforms | src/prompts.rs:73-93 | every element of the returned array conforms to the prototype |
| Prompts.ReadObject | src/prompts.rs:95-106 | the `read_object` loop computes what the object loop specifies |
| FileSystem.ReadConfig | src/modules/mod.rs:61-67 | a descriptor is only read from an existing file holding a TOML document |
| FileSystem.ReadText | src/modules/mod.rs:62 | text is read exactly from an existing file holding text |
| FileSystem.Listing | src/modules/mod.rs:72 | a directory's listing holds only its existing direct children, in the host's order |
| FileSystem.CreateDirAllSpec | src/modules/install.rs:62 | `create_dir_all` succeeds exactly when no prefix of the path is a file; it then makes every prefix a directory and changes nothing else, and on failure it changes nothing |
| FileSystem.JoinRelative | src/modules/mod.rs:99-103 | joining a base with a path made relative to it gives back the path |
| FileSystem.RemoveDirAllSubtree | src/modules/mod.rs:130 | `remove_dir_all` of a directory removes exactly the paths below it, itself included, and keeps every other entry |
| Modules.Classify | src/modules/mod.rs:141-160 | the classifier never yields `NotInstalled` |
| Modules.ClassifyCases | src/modules/mod.rs:141-160 | `NewVersion` exactly when both versions parse and the repository's is greater; otherwise `TomlChanged` exactly when the configs differ; otherwise `UpToDate` exactly when script and template are both present or both absent, and `TemplateChanged` when only one is |
| Modules.DowngradeIsTomlChanged | src/modules/mod.rs:141-151 | a downgrade with different configs is reported as `TomlChanged` |
| Modules.CheckModuleState | src/modules/mod.rs:133-161 | the state is `NotInstalled` exactly when the module's home does not exist |
| Modules.GetListOfInstalledModules | src/modules/mod.rs:69-90 | the recursive listing loop computes the collector function |
| Modules.Collect | src/modules/mod.rs:69-90 | reference for `get_list_of_installed_modules`: directories are searched in listing order, other entries containing `script.sh` are listed relative to the base; its members are stated in `Modules.CollectMembers` |
| Modules.CollectSound | src/modules/mod.rs:69-90 | every listed name is the base-relative path of a non-directory below the start whose path contains `script.sh` |
| Modules.CollectComplete | src/modules/mod.rs:69-90 | in a well-formed tree that the host lists completely, every such file is listed |
| Modules.CollectMembers | src/modules/mod.rs:69-90 | the listing holds exactly the base-relative paths of the non-directories below the start whose path contains `script.sh` |
| Modules.SourceLines | src/modules/mod.rs:99-103 | one `source <home>/<entry>` line per listed module, in listing order |
| Modules.SourceTextShape | src/modules/mod.rs:99-103 | no modules give an empty text, one gives its line, and each further module adds a newline and its line, with no trailing newline |
| Modules.SourceLineOfListed | src/modules/mod.rs:101 | a listed path's line sources the path itself |
| Modules.UpdateSourceFileMethod | src/modules/mod.rs:92-106 | the method leaves the state and result that `update_source_file` specifies |
| Modules.UpdateSourceFile | src/modules/mod.rs:92-106 | reference for `update_source_file`: list, remove an existing `env` (a failure panics), write the `source` lines; the write's success is the result |
| Modules.UpdateSourceFileWrites | src/modules/mod.rs:92-106 | when the env file can be replaced, it is removed and rewritten with the source lines of the collected modules, and nothing else changes |
| Modules.RemoveMethod | src/modules/mod.rs:120-131 | the method leaves the state and result that `remove` specifies |
| Modules.Remove | src/modules/mod.rs:120-131 | reference for `remove`: not installed exits with status 1, otherwise the home is removed and a failure panics |
| Modules.RemoveEffect | src/modules/mod.rs:120-131 | removing a module that is not installed exits with status 1 and changes nothing; otherwise exactly the module's subtree is deleted, the tree stays well formed and answers and cargo runs are untouched |
| InstallSteps.WriteFrom | src/modules/install.rs:111-169 | copying supporting files never consumes answers or spawns commands |
| InstallSteps.WriteEntries | src/modules/install.rs:117-168 | the copy loop over one directory's entries leaves the state and result the copy function specifies |
| InstallSteps.WriteSupportingFilesMethod | src/modules/install.rs:111-169 | the method leaves the state and result that `write_supporting_files` specifies |
| InstallSteps.Destination | src/modules/install.rs:124-131 | reference: an entry goes to its override, resolved against the working directory, or to its path below `cwd` |
| InstallSteps.WriteSupportingFiles | src/modules/install.rs:111-169 | reference for `write_supporting_files`: the depth-first copy of the whole tree from `cwd`; its effect is stated in `InstallSteps.WriteIsPlan` |
| InstallSteps.WriteIsPlan | src/modules/install.rs:111-169 | copying is running a depth-first plan: a directory is created under its destination, with the children using it as their working directory, and a file is placed at its override or at `cwd/path`; the run stops with "Could not copy file" at the first failed step |
| InstallSteps.PlaceEffect | src/modules/install.rs:132-145 | placing a file removes any old destination and copies the source; it succeeds exactly when the source is a file distinct from a writable destination |
| InstallSteps.WriteFile | src/modules/install.rs:172-204 | `write_file` never consumes answers or spawns commands |
| InstallSteps.WriteFileMethod | src/modules/install.rs:172-204 | the method leaves the state that `write_file` specifies |
| InstallSteps.WriteFileEffect | src/modules/install.rs:172-204 | when the home can be created, `write_file` creates it, copies the repository `config.toml`, writes the script and writes the record |
| InstallSteps.FillHomeEffect | src/modules/install.rs:177-203 | in an existing home, the writes replace `config.toml`, `script.sh` and `data.toml` in that order |
| InstallSteps.HomeReady | src/modules/install.rs:174 | creating the home keeps the repository descriptor that is copied next |
| InstallSteps.RecordReadsBack | src/modules/install.rs:195-198 | the written record reads back as the descriptor it was written from |
| InstallSteps.RecordOnlyAfterScript | src/modules/install.rs:191-203 | when `script.sh` cannot be written, `data.toml` is left as it was |
| InstallSteps.Cargo | src/modules/install.rs:76-103 | the cargo step never touches files or answers |
| InstallSteps.CargoMethod | src/modules/install.rs:76-103 | the method leaves the state and result the cargo step specifies |
| InstallSteps.CargoCommand | src/modules/install.rs:76-94 | reference: `install --git <git>` with `--tag <tag>` when tagged and the git-fetch variable, else `install --path <moduleDir>/<path>`, else the panic; its branches are stated in `InstallSteps.CargoChoice` |
| InstallSteps.CargoChoice | src/modules/install.rs:76-94 | only a Rust package spawns; with git: `install --git <git>` plus `--tag <tag>` when tagged, with the git-fetch variable set; otherwise with a path: `install --path <moduleDir>/<path>`, the tag ignored; with neither it panics "either path or git should be set" and spawns nothing |
| Template.AddEntries | src/template.rs:15-76 | the loop over one directory's entries leaves the state and result `add_files_as_vars` specifies |
| Template.AddEntryMethod | src/template.rs:26-74 | one entry of the loop leaves the state and result its specification gives |
| Template.AddFilesAsVarsMethod | src/template.rs:15-76 | the method leaves the state and result that `add_files_as_vars` specifies |
| Template.VarsFrom | src/template.rs:26-74 | reference: each entry publishes its key with its override or `cwd/path`, a directory's entries follow with the same `cwd`, in map order |
| Template.AddFilesAsVars | src/template.rs:15-76 | reference for `add_files_as_vars`: with overwrite the files are copied first, then every destination is published |
| Template.AddFromVars | src/template.rs:26-75 | the published context is the old one with the entries' destinations inserted depth-first in map order, a directory's key before its children's |
| Template.AddEntryVars | src/template.rs:27-72 | one entry publishes its own destination, and a directory then publishes its children's |
| Template.AddFilesVars | src/template.rs:15-76 | the keys published and their values are fixed by the file tree and the working directory alone |
| Template.NoOverwriteFrom | src/template.rs:23-25 | without overwrite, the loop changes nothing and cannot fail |
| Template.NoOverwriteEntry | src/template.rs:23-25 | without overwrite, one entry changes nothing and cannot fail |
| Template.NoOverwrite | src/template.rs:23-25 | without overwrite, `add_files_as_vars` leaves the world unchanged and publishes every destination |
| Template.OverwriteFrom | src/template.rs:64-71 | with overwrite, the loop's effect is rerunning the copy for every nested directory's children, with the outer working directory |
| Template.OverwriteEntry | src/template.rs:64-71 | with overwrite, one directory entry reruns the copy for its children |
| Template.Overwrite | src/template.rs:23-25 | with overwrite, the effect is the copy of the whole tree followed by the copies of each nested directory's children, and the result fails exactly when one of them does |
| Template.NestedPlacement | src/template.rs:52-71 | a nested file is published at `cwd/path` but copied under its directory's destination |
| Template.VersionsIgnored | src/template.rs:28-29 | changing every entry's version changes nothing in the published context |
| Lifecycle.FillFrom | src/modules/install.rs:48-60 | filling keeps the placeholder keys in order and leaves the entries already filled unchanged |
| Lifecycle.FillPlaceholders | src/modules/install.rs:48-60 | the in-place loop over the placeholders computes what filling specifies |
| Lifecycle.FillConforms | src/modules/install.rs:48-60 | each filled placeholder conforms to its prototype |
| Lifecycle.FillPublishes | src/modules/install.rs:48-60 | filling keeps every context key and publishes every placeholder key at top level |
| Lifecycle.Load | src/modules/update.rs:42-50 | a failed read of the template or of one of the three descriptors panics |
| Lifecycle.Install | src/modules/install.rs:15-37 | reference for `install`: an installed module is updated silently without failing; one missing from the repository exits with status 1; a missing template or descriptor panics; otherwise the dependencies and then the rest; no depth left is a stack overflow |
| Lifecycle.InstallFound | src/modules/install.rs:33-107 | reference: the dependencies one level deeper, then the rest on the world they leave, unless one of them halted |
| Lifecycle.InstallDeps | src/modules/install.rs:33-37 | reference: each internal dependency installed in listed order; the first halt ends the loop |
| Lifecycle.InstallRest | src/modules/install.rs:47-107 | reference: placeholders read in order into record and context, home created (a failure ignored), supporting files copied and published, cargo for a Rust package, then `write_file` |
| Lifecycle.MergeFrom | src/modules/update.rs:58-76 | reference for the merge: each key of the new schema, in order, keeps the stored value, or is read from its new prototype |
| Lifecycle.Update | src/modules/update.rs:16-51 | reference for `update`: a module without a home or missing from the repository is skipped, or exits 1 when failures are fatal; a failed load panics; otherwise `UpdateLoaded` |
| Lifecycle.UpdateLoaded | src/modules/update.rs:52-91 | reference: reconciliation, the reconciled record's dependencies one level deeper, then the rest |
| Lifecycle.UpdateDeps | src/modules/update.rs:80-91 | reference: each dependency handled in listed order; the first halt ends the loop |
| Lifecycle.UpdateDep | src/modules/update.rs:82-89 | reference: one dependency chosen by its state; its cases are stated in `Lifecycle.UpdateDepDispatch` |
| Lifecycle.UpdateDepDispatch | src/modules/update.rs:82-89 | a dependency without a home is installed; an installed one is never installed again: left alone when up to date, otherwise updated silently with failures not fatal, and a missing installed descriptor panics |
| Lifecycle.UpdateFinish | src/modules/update.rs:141-163 | reference: "Update supporting files?" decides whether the files are copied while published; the script is rendered; then the commit |
| Lifecycle.Commit | src/modules/update.rs:157-193 | reference: the old script must exist, a no ends without writing, a yes runs cargo for a Rust package and then `write_file` |
| Lifecycle.Reconcile | src/modules/update.rs:52-78 | the record's `plugin_info` is always the repository's and its supporting files are the stored ones |
| Lifecycle.ReconcileMethod | src/modules/update.rs:52-78 | the reconciling loop computes what reconciliation specifies |
| Lifecycle.MergeSpec | src/modules/update.rs:58-76 | merging gives the new schema's keys in its order, a stored value for each key that has one and a value conforming to the new prototype otherwise |
| Lifecycle.ReconcileSpec | src/modules/update.rs:52-78 | with equal placeholder schemas nothing is asked and only `plugin_info` is replaced; otherwise the placeholders follow the new schema as merging states, and are absent exactly when the new schema is |
| Lifecycle.GrowEntry | src/modules/update.rs:104-138 | growth keeps a placeholder's variant |
| Lifecycle.GrowEntrySpec | src/modules/update.rs:110-128 | growth only appends to a list and leaves other placeholders alone; a confirmed growth of a previously stored list with an old schema adds at least one element |
| Lifecycle.GrowEntryShortNames | src/modules/update.rs:103-134 | for a list the record held: declining, or a silent update, publishes the short names of the whole list and keeps it; a yes with the key in the old schema publishes the short names of the new elements only, appended after the old ones; a yes without it publishes nothing and keeps the list |
| Lifecycle.GrowScalars | src/modules/update.rs:111-127 | a list of scalars grown by n typed answers gains exactly those n tilde-expanded elements, so a list of length m ends with m + n elements |
| Lifecycle.GrowConfirmed | src/modules/update.rs:111-127 | a yes to "Add new elements" appends the list read from the list's own first element |
| Lifecycle.GrowEntryKeepsNames | src/modules/update.rs:110-133 | growth only adds keys to the context |
| Lifecycle.GrowFrom | src/modules/update.rs:102-140 | the growth loop keeps the placeholder keys in order and the entries already processed |
| Lifecycle.Grow | src/modules/update.rs:102-140 | the in-place growth loop computes what growth specifies |
| Lifecycle.GrowFromSpec | src/modules/update.rs:102-140 | every placeholder after growth is its old value with elements appended |
| Lifecycle.GrowPublishes | src/modules/update.rs:102-140 | growth keeps every context key and publishes every placeholder key at top level |
| Lifecycle.SilentGrowth | src/modules/update.rs:111 | a silent update asks nothing and leaves every placeholder unchanged |
| Lifecycle.InstallMethod | src/modules/install.rs:15-108 | the method leaves the state and result `install` specifies |
| Lifecycle.InstallFoundMethod | src/modules/install.rs:33-108 | for a module found in the repository, the dependencies and then the rest |
| Lifecycle.InstallDepsMethod | src/modules/install.rs:33-37 | the dependency loop installs each dependency in listed order and stops at the first halt |
| Lifecycle.SelfDependency | src/modules/install.rs:33-37 | a module that lists itself as its first dependency overflows the stack, whatever the depth limit |
| Lifecycle.InstallRestMethod | src/modules/install.rs:47-107 | placeholders, home, supporting files, cargo and `write_file`, as specified |
| Lifecycle.Guards | src/modules/install.rs:16-28 | an installed module is updated silently without failing; a module missing from the repository exits with status 1 before any write; `update` of a module without a home or missing from the repository changes nothing and exits with status 1 exactly when failures are fatal; a failed load panics with nothing changed |
| Lifecycle.UpdateMethod | src/modules/update.rs:16-194 | the method leaves the state and result `update` specifies |
| Lifecycle.UpdateLoadedMethod | src/modules/update.rs:52-91 | reconciliation, then the dependencies, then the rest, as specified |
| Lifecycle.UpdateDepsMethod | src/modules/update.rs:80-91 | the dependency loop handles each dependency in listed order and stops at the first halt |
| Lifecycle.UpdateDepMethod | src/modules/update.rs:82-89 | a dependency is installed, updated silently or left alone according to its state |
| Lifecycle.UpdateRestMethod | src/modules/update.rs:102-193 | growth, the two confirmations, the files and the commit, as specified |
| Lifecycle.CommitMethod | src/modules/update.rs:157-193 | the old script must exist; only a yes to "Update?" runs cargo and `write_file` |
| Lifecycle.DeclineUpdate | src/modules/update.rs:161-163 | answering no to "Update?" returns with nothing but that answer consumed: no build and no write |
| Lifecycle.DeclineBoth | src/modules/update.rs:141-163 | declining both "Update supporting files?" and "Update?" leaves the filesystem and spawned commands unchanged and returns normally |
| Legacy.LegacyRead | src/main.rs:633-646 | the in-place collector consumes part of the answer stream and keeps the variant of every node, the keys of every object and the non-emptiness of every list |
| Legacy.ReadAgrees | src/main.rs:633-646 | on trees whose lists hold one prototype, the in-place collector gives the same result as the library's |
| Legacy.LegacyScalarAndEmpty | src/main.rs:633-660 | resolving a `Value` leaves the map builder unchanged and consumes one answer; an empty list panics on `remove(0)` |
| Legacy.LegacyReadMethod | src/main.rs:633-660 | the method computes what the in-place collector specifies |
| Legacy.LegacyReadArray | src/main.rs:677-693 | the in-place list read consumes part of the answers and keeps a list a list |
| Legacy.LegacyReadArrayMethod | src/main.rs:677-693 | the `remove(0)`/`push` loop computes what the in-place list read specifies |
| Legacy.ArrayLoopAgrees | src/main.rs:677-693 | the legacy list loop and the library's agree |
| Legacy.LegacyArrayLoop | src/main.rs:679-692 | the loop keeps the elements already there and pushes at least one |
| Legacy.ArrayLoopShift | src/prompts.rs:78-92 | starting the loop with extra elements prefixes them to the result and only changes `<key>_shortNames` |
| Legacy.LegacyFieldsFrom | src/main.rs:695-700 | the in-place object loop keeps the object's keys in order |
| Legacy.LegacyReadObject | src/main.rs:695-700 | the `iter_mut` loop computes what the object loop specifies |
| Legacy.FieldsAgree | src/main.rs:695-700 | the in-place object loop and the library's agree |
| Legacy.LegacyFillFrom | src/main.rs:518-526 | in-place filling keeps the placeholder keys, the filled prefix and each placeholder's shape |
| Legacy.LegacyFillPlaceholders | src/main.rs:518-526 | the loop computes what in-place filling specifies |
| Legacy.LegacyInstall | src/main.rs:489-538 | an installed module makes the legacy `install` return doing nothing |
| Legacy.LegacyInstallMethod | src/main.rs:489-538 | the method leaves the state and result the legacy `install` specifies |
| Legacy.LegacyInstallFoundMethod | src/main.rs:502-507 | the dependencies and then the rest, as specified |
| Legacy.LegacyInstallDepsMethod | src/main.rs:503-507 | each dependency is installed in listed order, stopping at the first halt |
| Legacy.LegacyInstallRestMethod | src/main.rs:517-537 | placeholders, home, supporting files and `write_file`, as specified |
| Legacy.LegacyGrowEntry | src/main.rs:433-444 | legacy growth only appends to a list, and consumes part of the answers |
| Legacy.LegacyGrowEntryMethod | src/main.rs:433-444 | the `insert(0, …)` step computes what legacy growth specifies |
| Legacy.LegacyGrowFrom | src/main.rs:431-449 | the loop keeps the keys, the processed prefix, and appends only |
| Legacy.LegacyGrow | src/main.rs:431-449 | the in-place loop computes what the legacy growth loop specifies |
| Legacy.GrowthIsAppend | src/main.rs:433-440 | when the old schema's prototype is the data's first element, legacy growth gives the library's list, differing only in `<key>_shortNames` |
| Legacy.GrowthAppends | src/main.rs:434-438 | a confirmed legacy growth keeps the old elements in order and appends |
| Legacy.LegacyUpdateLoaded | src/main.rs:397-419 | a placeholder mismatch aborts with status 1 when failures are fatal |
| Legacy.LegacyUpdateLoadedMethod | src/main.rs:397-419 | the method leaves the state and result the loaded legacy `update` specifies |
| Legacy.LegacyUpdateMethod | src/main.rs:374-468 | the method leaves the state and result the legacy `update` specifies |
| Legacy.LegacyUpdate | src/main.rs:374-396 | reference for legacy `update`: only with `fail` does a missing home or repository entry exit 1; without it the reads go on and panic; then the loaded update |
| Legacy.NotInstalledPanics | src/main.rs:374-392 | a legacy `update` of a module without a home does not return: it panics reading the record, with nothing changed |
| Legacy.LegacyUpdateRestMethod | src/main.rs:430-467 | growth, the confirmations, the files and the commit, as specified |
| Legacy.LegacyCommitMethod | src/main.rs:460-467 | the method leaves the state and result the legacy commit specifies |
| Legacy.LegacyCommit | src/main.rs:460-467 | reference: the old script must exist; declining "Update?" exits with status 1; a yes writes script and record |
| Legacy.LegacyDeclineBoth | src/main.rs:450-466 | declining both confirmations exits with status 1 with nothing written |
| Legacy.UpdateListed | src/main.rs:189-201 | a module that is not selected is skipped with nothing changed |
| Legacy.UpdateListedMethod | src/main.rs:189-201 | one round of the loop leaves the state and result specified |
| Legacy.UpdateAllMethod | src/main.rs:185-202 | the loop over the installed modules leaves the state and result "update all" specifies |
| Legacy.UpdateAll | src/main.rs:185-202 | reference for "update all": each installed module, as listed at the start, in turn, the first halt ending the loop |
| Legacy.Selected | src/main.rs:194-196 | reference: both versions parse, the repository's is greater, and the placeholder schemas are equal |
| Legacy.ListedName | src/main.rs:190 | reference: a listed script's path with `/script.sh` removed |
| Legacy.UpdateAllSkips | src/main.rs:189-202 | when no listed module is selected, "update all" changes nothing |
| Legacy.SelectedIsNewVersion | src/main.rs:194-196 | a module is selected exactly when the classifier reports `NewVersion` and the placeholder schemas are equal |

## Left out

- TOML text is not modelled. Parsing and printing `config.toml`, and the "could not
  serialize data" failure, are outside the model. A file holds a decoded document, and
  `read_config` is a partial decode of it.
- Pre-release and build metadata in versions are not modelled. Such a version does not
  parse, which makes it the "no version" case.
- The order of a directory listing is an input (`Env.order`), because the host decides it.
- Spawning `cargo` is modelled only as a record of the command and its environment. The
  process, its exit status, and the "Could not install module" and wait failures are not.
- Rendering and tilde expansion are injected, uninterpreted functions. A template that
  does not compile is modelled as a missing `template.sh`. Render failures are not modelled.
- `print_diff`, console output, `read_dir`, src/git.rs, `GlobalConfig` and CLI dispatch are
  not part of this model.
- `text_prompt` and `password_prompt` are not part of this model.
- Path normalisation (`..`, `.`, symlinks) is not modelled. Parsing a destination override
  as a path cannot fail, so the "Could not parse path" expect never fires.
- Panic messages whose text includes run-time values keep only their constant prefix, for
  example "Could not copy file".
- The recursion depth of `install`/`update` is a fuel bound. A real stack's depth is not
  modelled, only that a dependency cycle exhausts any bound.
- A run that halts keeps the world it had before the step that halted. The answers already
  consumed in that step are not returned.
- The helpers that src/main.rs carries between lines 295-372 and 540-632 repeat the
  library's `get_list_of_installed_modules`, `boolean_prompt`, `add_files_as_vars` and
  `write_file`. The legacy members use the library's models of them.
- The "Could not get list of installed modules" exit (src/main.rs:185-188) cannot happen
  in the model, because the collector never fails.
- The methods of `Host.Machine` are stand-ins for the standard-library calls, not source
  operations.
- Prompts.Read: its own contract only bounds the answers consumed. Variant dispatch,
  shape, the scalar case and the empty-list panic are stated in `Prompts.ReadConforms`,
  `Prompts.ReadScalarAndEmpty` and `Prompts.ArrayLoopExtends`.
- Prompts.ReadArrayLoop: its own contract only bounds the answers consumed. The result's
  shape and `<key>_shortNames` are stated in `Prompts.ArrayLoopExtends`.
- Lifecycle.GrowEntry: its own contract only keeps the variant. Appending is stated in
  `Lifecycle.GrowEntrySpec`, `<key>_shortNames` in `Lifecycle.GrowEntryShortNames`, and the
  exact growth of a list of scalars in `Lifecycle.GrowScalars`.
- Lifecycle.Reconcile: its own contract covers `plugin_info` and supporting files. The
  placeholder merge is stated in `Lifecycle.ReconcileSpec`.
- `update` checks only that the old descriptor has the key (src/modules/update.rs:113-118)
  and seeds `read_array` with the stored list's first element `arr[0]` (update.rs:121),
  not with the descriptor's prototype; `Lifecycle.GrowEntry` does the same.
