/** The data model of src/models.rs: placeholder trees, supporting-file trees, module
    descriptors and the derived module state. `IndexMap` fields are sequences of pairs
    (see IndexMaps); `PartialEq` of the program is modelled by the `...Eq` predicates. */
module Models {
  import opened Wrappers
  import opened IndexMaps

  datatype UpdateReason = TomlChanged | TemplateChanged | NewVersion

  datatype ModuleState = NotInstalled | UpToDate | NeedsUpdate(reason: UpdateReason)

  /** A placeholder: a scalar, a keyed group of sub-entries, or a list whose first
      element serves as prototype for new elements. */
  datatype EntryType =
    | Value(text: string)
    | Object(fields: seq<(string, EntryType)>)
    | Array(items: seq<EntryType>)

  /** A supporting file or directory; `Directory` is declared first, which matters for decoding. */
  datatype FileSystemEntry =
    | Directory(version: string, path: string, destination: Option<string>, files: seq<(string, FileSystemEntry)>)
    | File(version: string, path: string, destination: Option<string>)

  datatype PluginType =
    | Shell(command: string)
    | Script(script: string)
    | RustPackage(path: Option<string>, git: Option<string>, tag: Option<string>)

  datatype Package = Package(
    author: string,
    version: string,
    help: Option<string>,
    internalDependencies: Option<seq<string>>,
    externalDependencies: Option<seq<string>>,
    pluginType: PluginType)

  /** A module descriptor (`config.toml`), and also the persisted `data.toml` record. */
  datatype PluginInfo = PluginInfo(
    pluginInfo: Package,
    placeholders: Option<seq<(string, EntryType)>>,
    supportingFiles: Option<seq<(string, FileSystemEntry)>>)

  /** `Display for EntryType`: a scalar shows its text, a group or list shows nothing. */
  function Display(e: EntryType): (r: string)
    ensures r != "" ==> e == Value(r)
    ensures e.Value? ==> r == e.text
  {
    if e.Value? then e.text else ""
  }

  /** Unique keys at every level, as `IndexMap` guarantees. */
  predicate WellFormed(e: EntryType) {
    match e
    case Value(_) => true
    case Object(fields) => UniqueKeys(fields) && forall i :: 0 <= i < |fields| ==> WellFormed(fields[i].1)
    case Array(items) => forall i :: 0 <= i < |items| ==> WellFormed(items[i])
  }

  predicate WellFormedFile(f: FileSystemEntry) {
    match f
    case File(_, _, _) => true
    case Directory(_, _, _, files) => UniqueKeys(files) && forall i :: 0 <= i < |files| ==> WellFormedFile(files[i].1)
  }

  /** `PartialEq for EntryType`: variant-sensitive; lists compare element by element;
      groups compare as `IndexMap`s do, by length and key-wise lookup, ignoring key order. */
  predicate EntryEq(a: EntryType, b: EntryType) {
    match a
    case Value(s) => b.Value? && b.text == s
    case Array(xs) =>
      b.Array? && |xs| == |b.items| && forall i :: 0 <= i < |xs| ==> EntryEq(xs[i], b.items[i])
    case Object(m) =>
      b.Object? && |m| == |b.fields| &&
      forall i :: 0 <= i < |m| ==> Get(b.fields, m[i].0).Some? && EntryEq(m[i].1, Get(b.fields, m[i].0).value)
  }

  /** `PartialEq for IndexMap<String, EntryType>`. */
  predicate FieldsEq(m: seq<(string, EntryType)>, n: seq<(string, EntryType)>) {
    EntryEq(Object(m), Object(n))
  }

  /** `PartialEq for FileSystemEntry`, with the same order-insensitive comparison of children. */
  predicate FileEq(a: FileSystemEntry, b: FileSystemEntry) {
    match a
    case File(v, p, d) => b.File? && b.version == v && b.path == p && b.destination == d
    case Directory(v, p, d, m) =>
      b.Directory? && b.version == v && b.path == p && b.destination == d && |m| == |b.files| &&
      forall i :: 0 <= i < |m| ==> Get(b.files, m[i].0).Some? && FileEq(m[i].1, Get(b.files, m[i].0).value)
  }

  /** `PartialEq for IndexMap<String, FileSystemEntry>`: two maps compare like the children of
      two directories whose own fields agree. */
  predicate FilesEq(m: seq<(string, FileSystemEntry)>, n: seq<(string, FileSystemEntry)>) {
    FileEq(Directory("", "", None, m), Directory("", "", None, n))
  }

  predicate OptFieldsEq(a: Option<seq<(string, EntryType)>>, b: Option<seq<(string, EntryType)>>) {
    match a
    case None => b.None?
    case Some(m) => b.Some? && FieldsEq(m, b.value)
  }

  predicate OptFilesEq(a: Option<seq<(string, FileSystemEntry)>>, b: Option<seq<(string, FileSystemEntry)>>) {
    match a
    case None => b.None?
    case Some(m) => b.Some? && FilesEq(m, b.value)
  }

  /** `PartialEq for PluginInfo`: every field takes part. */
  predicate InfoEq(a: PluginInfo, b: PluginInfo) {
    a.pluginInfo == b.pluginInfo && OptFieldsEq(a.placeholders, b.placeholders) &&
    OptFilesEq(a.supportingFiles, b.supportingFiles)
  }

  predicate InfoWellFormed(p: PluginInfo) {
    (p.placeholders.Some? ==> WellFormed(Object(p.placeholders.value))) &&
    (p.supportingFiles.Some? ==> WellFormedFile(Directory("", "", None, p.supportingFiles.value)))
  }

  // ---- Properties of equality ----

  /** Equality is reflexive on well-formed trees (it needs unique keys: lookup finds the first pair). */
  lemma {:induction false} EntryEqRefl(e: EntryType)
    requires WellFormed(e)
    ensures EntryEq(e, e)
  {
    match e
    case Value(_) =>
    case Array(xs) =>
      forall i | 0 <= i < |xs| ensures EntryEq(xs[i], xs[i]) { EntryEqRefl(xs[i]); }
    case Object(m) =>
      forall i | 0 <= i < |m| ensures Get(m, m[i].0) == Some(m[i].1) && EntryEq(m[i].1, m[i].1) {
        GetUnique(m, i);
        EntryEqRefl(m[i].1);
      }
  }

  /** A scalar never equals a list or a group, whatever the text: comparison is variant-sensitive. */
  lemma VariantSensitive(s: string, e: EntryType)
    requires !e.Value?
    ensures !EntryEq(Value(s), e) && !EntryEq(e, Value(s))
  {
  }

  /** Two groups with the same pairs in a different order compare equal: swapping the first two
      fields of a well-formed group does not change it for `PartialEq`. */
  lemma {:induction false} FieldOrderIgnored(m: seq<(string, EntryType)>)
    requires WellFormed(Object(m)) && |m| >= 2
    ensures var swapped := [m[1], m[0]] + m[2..]; swapped != m && EntryEq(Object(m), Object(swapped))
  {
    var swapped := [m[1], m[0]] + m[2..];
    assert m[0].0 != m[1].0;
    assert swapped[0] != m[0];
    assert UniqueKeys(swapped) by {
      forall i, j | 0 <= i < j < |swapped| ensures swapped[i].0 != swapped[j].0 {
        var i' := if i == 0 then 1 else if i == 1 then 0 else i;
        var j' := if j == 0 then 1 else if j == 1 then 0 else j;
        assert swapped[i] == m[i'] && swapped[j] == m[j'];
      }
    }
    forall i | 0 <= i < |m|
      ensures Get(swapped, m[i].0) == Some(m[i].1) && EntryEq(m[i].1, m[i].1)
    {
      var i' := if i == 0 then 1 else if i == 1 then 0 else i;
      assert swapped[i'] == m[i];
      GetUnique(swapped, i');
      EntryEqRefl(m[i].1);
    }
  }

  /** Equality of supporting-file trees is reflexive on well-formed trees. */
  lemma {:induction false} FileEqRefl(f: FileSystemEntry)
    requires WellFormedFile(f)
    ensures FileEq(f, f)
  {
    match f
    case File(_, _, _) =>
    case Directory(_, _, _, m) =>
      forall i | 0 <= i < |m| ensures Get(m, m[i].0) == Some(m[i].1) && FileEq(m[i].1, m[i].1) {
        GetUnique(m, i);
        FileEqRefl(m[i].1);
      }
  }

  /** A well-formed descriptor equals itself: every field compares equal to its own copy. */
  lemma InfoEqRefl(a: PluginInfo)
    requires InfoWellFormed(a)
    ensures InfoEq(a, a)
  {
    if a.placeholders.Some? {
      EntryEqRefl(Object(a.placeholders.value));
    }
    if a.supportingFiles.Some? {
      FileEqRefl(Directory("", "", None, a.supportingFiles.value));
    }
  }

  /** Descriptor equality compares every field: descriptors that differ in any one field of
      the package, or in whether placeholders or supporting files are present, differ. */
  lemma InfoEqComparesEveryField(a: PluginInfo, b: PluginInfo)
    requires InfoEq(a, b)
    ensures a.pluginInfo.author == b.pluginInfo.author && a.pluginInfo.version == b.pluginInfo.version
    ensures a.pluginInfo.help == b.pluginInfo.help && a.pluginInfo.pluginType == b.pluginInfo.pluginType
    ensures a.pluginInfo.internalDependencies == b.pluginInfo.internalDependencies
    ensures a.pluginInfo.externalDependencies == b.pluginInfo.externalDependencies
    ensures a.placeholders.Some? <==> b.placeholders.Some?
    ensures a.supportingFiles.Some? <==> b.supportingFiles.Some?
    ensures a.placeholders.Some? ==> |a.placeholders.value| == |b.placeholders.value|
    ensures a.supportingFiles.Some? ==> |a.supportingFiles.value| == |b.supportingFiles.value|
  {
  }

  /** Placeholder values take part: a placeholder of `a` that `b` lacks, or holds with a
      different value, makes the descriptors differ. */
  lemma PlaceholderCompared(a: PluginInfo, b: PluginInfo, k: string)
    requires a.placeholders.Some? && Get(a.placeholders.value, k).Some?
    requires b.placeholders.Some? ==>
      Get(b.placeholders.value, k).None? || !EntryEq(Get(a.placeholders.value, k).value, Get(b.placeholders.value, k).value)
    ensures !InfoEq(a, b)
  {
    GetFound(a.placeholders.value, k);
  }

  /** Supporting-file entries take part: an entry of `a` that `b` lacks, or holds as a
      different entry, makes the descriptors differ. */
  lemma SupportingFileCompared(a: PluginInfo, b: PluginInfo, k: string)
    requires a.supportingFiles.Some? && Get(a.supportingFiles.value, k).Some?
    requires b.supportingFiles.Some? ==>
      Get(b.supportingFiles.value, k).None? || !FileEq(Get(a.supportingFiles.value, k).value, Get(b.supportingFiles.value, k).value)
    ensures !InfoEq(a, b)
  {
    GetFound(a.supportingFiles.value, k);
  }
}
