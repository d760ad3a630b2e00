/** How descriptors are read from and written to TOML (the serde derives of src/models.rs).
    TOML text is not modelled: a document is its parsed value tree, tables keep document order.
    `#[serde(untagged)]` enums try their variants in declaration order and take the first that
    fits; struct variants ignore unknown keys; a missing `Option` field decodes as `None`, and
    serialisation leaves `None` fields out. */
module Serde {
  import opened Wrappers
  import opened IndexMaps
  import opened Models

  /** A parsed TOML value. Floats and datetimes behave like integers and booleans here:
      no placeholder, file or descriptor field accepts them. */
  datatype Toml =
    | TString(s: string)
    | TInteger(i: int)
    | TBoolean(b: bool)
    | TArray(elements: seq<Toml>)
    | TTable(entries: seq<(string, Toml)>)

  /** The library's types (src/models.rs) or the binary's own older copies of them
      (src/main.rs:855-899): there `File` is declared before `Directory` and `PluginType`
      has no `RustPackage` variant. */
  datatype Dialect = Library | Binary

  // ---- Placeholder trees ----

  function DecodeEntry(t: Toml): Option<EntryType> {
    match t
    case TString(s) => Some(Value(s))
    case TTable(kvs) =>
      if forall i :: 0 <= i < |kvs| ==> DecodeEntry(kvs[i].1).Some?
      then Some(Object(seq(|kvs|, i requires 0 <= i < |kvs| && DecodeEntry(kvs[i].1).Some? =>
                             (kvs[i].0, DecodeEntry(kvs[i].1).value))))
      else None
    case TArray(xs) =>
      if forall i :: 0 <= i < |xs| ==> DecodeEntry(xs[i]).Some?
      then Some(Array(seq(|xs|, i requires 0 <= i < |xs| && DecodeEntry(xs[i]).Some? => DecodeEntry(xs[i]).value)))
      else None
    case _ => None
  }

  function EncodeEntry(e: EntryType): Toml {
    match e
    case Value(s) => TString(s)
    case Object(m) => TTable(seq(|m|, i requires 0 <= i < |m| => (m[i].0, EncodeEntry(m[i].1))))
    case Array(xs) => TArray(seq(|xs|, i requires 0 <= i < |xs| => EncodeEntry(xs[i])))
  }

  /** Untagged decoding maps the TOML kind to the variant: string to `Value`, table to `Object`,
      array to `Array`, with keys and elements in order; other kinds do not decode. */
  lemma DecodeEntryKinds(t: Toml)
    ensures t.TString? ==> DecodeEntry(t) == Some(Value(t.s))
    ensures DecodeEntry(t).Some? && t.TTable? ==> DecodeEntry(t).value.Object? && Keys(DecodeEntry(t).value.fields) == Keys(t.entries)
    ensures DecodeEntry(t).Some? && t.TArray? ==> DecodeEntry(t).value.Array? && |DecodeEntry(t).value.items| == |t.elements|
    ensures t.TInteger? || t.TBoolean? ==> DecodeEntry(t).None?
  {
    if t.TTable? && DecodeEntry(t).Some? {
      var r := DecodeEntry(t).value;
      assert |r.fields| == |t.entries|;
      forall i | 0 <= i < |t.entries| ensures Keys(r.fields)[i] == Keys(t.entries)[i] { }
    }
  }

  /** Encoding a tree and decoding it again gives the same tree. */
  lemma {:induction false} DecodeEncodeEntry(e: EntryType)
    ensures DecodeEntry(EncodeEntry(e)) == Some(e)
  {
    match e
    case Value(_) =>
    case Object(m) =>
      var kvs := EncodeEntry(e).entries;
      forall i | 0 <= i < |kvs| ensures DecodeEntry(kvs[i].1) == Some(m[i].1) { DecodeEncodeEntry(m[i].1); }
      assert DecodeEntry(EncodeEntry(e)).value.fields == m;
    case Array(xs) =>
      var ts := EncodeEntry(e).elements;
      forall i | 0 <= i < |ts| ensures DecodeEntry(ts[i]) == Some(xs[i]) { DecodeEncodeEntry(xs[i]); }
      assert DecodeEntry(EncodeEntry(e)).value.items == xs;
  }

  /** Decoding a document and encoding the result gives the same document back. */
  lemma {:induction false} EncodeDecodeEntry(t: Toml)
    requires DecodeEntry(t).Some?
    ensures EncodeEntry(DecodeEntry(t).value) == t
  {
    match t
    case TString(_) =>
    case TTable(kvs) =>
      forall i | 0 <= i < |kvs| ensures EncodeEntry(DecodeEntry(kvs[i].1).value) == kvs[i].1 { EncodeDecodeEntry(kvs[i].1); }
      assert EncodeEntry(DecodeEntry(t).value).entries == kvs;
    case TArray(xs) =>
      forall i | 0 <= i < |xs| ensures EncodeEntry(DecodeEntry(xs[i]).value) == xs[i] { EncodeDecodeEntry(xs[i]); }
      assert EncodeEntry(DecodeEntry(t).value).elements == xs;
  }

  // ---- Record fields ----

  /** A required string field. */
  function StringField(kvs: seq<(string, Toml)>, k: string): Option<string> {
    var v := Get(kvs, k);
    if v.Some? && v.value.TString? then Some(v.value.s) else None
  }

  /** An `Option<String>` field: absent gives `Some(None)`, a string gives `Some(Some(s))`,
      anything else makes the record fail to decode (`None`). */
  function OptStringField(kvs: seq<(string, Toml)>, k: string): Option<Option<string>> {
    var v := Get(kvs, k);
    if v.None? then Some(None)
    else if v.value.TString? then Some(Some(v.value.s))
    else None
  }

  /** An `Option<Vec<String>>` field. */
  function OptStringsField(kvs: seq<(string, Toml)>, k: string): Option<Option<seq<string>>> {
    var v := Get(kvs, k);
    if v.None? then Some(None)
    else if v.value.TArray? && forall i :: 0 <= i < |v.value.elements| ==> v.value.elements[i].TString?
    then Some(Some(seq(|v.value.elements|, i requires 0 <= i < |v.value.elements| && v.value.elements[i].TString? =>
                         v.value.elements[i].s)))
    else None
  }

  function OptField(k: string, v: Option<string>): seq<(string, Toml)> {
    if v.Some? then [(k, TString(v.value))] else []
  }

  function OptStringsFieldOut(k: string, v: Option<seq<string>>): seq<(string, Toml)> {
    if v.Some? then [(k, TArray(seq(|v.value|, i requires 0 <= i < |v.value| => TString(v.value[i]))))] else []
  }

  /** Lookup in a record that starts with an optional string field, for every key at once. */
  lemma GetOptField(k: string, v: Option<string>, rest: seq<(string, Toml)>)
    ensures forall q :: Get(OptField(k, v) + rest, q) == if v.Some? && q == k then Some(TString(v.value)) else Get(rest, q)
  {
    if v.Some? {
      GetConsAll((k, TString(v.value)), rest);
    } else {
      assert OptField(k, v) + rest == rest;
    }
  }

  lemma GetOptStringsField(k: string, v: Option<seq<string>>, rest: seq<(string, Toml)>)
    ensures forall q :: Get(OptStringsFieldOut(k, v) + rest, q) == if v.Some? && q == k then Some(OptStringsFieldOut(k, v)[0].1) else Get(rest, q)
  {
    if v.Some? {
      GetConsAll(OptStringsFieldOut(k, v)[0], rest);
    } else {
      assert OptStringsFieldOut(k, v) + rest == rest;
    }
  }

  /** A list of strings survives encoding and decoding. */
  lemma StringsRoundTrip(k: string, v: Option<seq<string>>, rest: seq<(string, Toml)>)
    ensures Get(rest, k).None? ==> OptStringsField(OptStringsFieldOut(k, v) + rest, k) == Some(v)
  {
    GetOptStringsField(k, v, rest);
    if v.Some? {
      var es := OptStringsFieldOut(k, v)[0].1.elements;
      assert seq(|es|, i requires 0 <= i < |es| && es[i].TString? => es[i].s) == v.value;
    }
  }

  // ---- Supporting files ----

  /** The `version`, `path` and `destination` fields shared by both variants. */
  function FileHeader(kvs: seq<(string, Toml)>): Option<(string, string, Option<string>)> {
    var version := StringField(kvs, "version");
    var path := StringField(kvs, "path");
    var dest := OptStringField(kvs, "destination");
    if version.Some? && path.Some? && dest.Some? then Some((version.value, path.value, dest.value)) else None
  }

  /** A table of supporting files (`IndexMap<String, FileSystemEntry>`), decoded entry by entry in order. */
  function DecodeFiles(t: Toml, d: Dialect): Option<seq<(string, FileSystemEntry)>>
    decreases t
  {
    if t.TTable? && forall i :: 0 <= i < |t.entries| ==> DecodeFile(t.entries[i].1, d).Some?
    then Some(seq(|t.entries|, i requires 0 <= i < |t.entries| && DecodeFile(t.entries[i].1, d).Some? =>
                    (t.entries[i].0, DecodeFile(t.entries[i].1, d).value)))
    else None
  }

  /** One supporting file. The variants are tried in declaration order: the library's
      `Directory` first (it needs a `files` table), the binary's `File` first (which accepts
      any record with the three common fields, ignoring `files`). */
  function DecodeFile(t: Toml, d: Dialect): Option<FileSystemEntry>
    decreases t
  {
    if !t.TTable? || FileHeader(t.entries).None? then None
    else
      var (version, path, dest) := FileHeader(t.entries).value;
      var files := Get(t.entries, "files");
      var children := if files.Some? then GetFound(t.entries, "files"); DecodeFiles(files.value, d) else None;
      if d == Library && children.Some? then Some(Directory(version, path, dest, children.value))
      else Some(File(version, path, dest))
  }

  function EncodeFiles(fs: seq<(string, FileSystemEntry)>): Toml {
    TTable(seq(|fs|, i requires 0 <= i < |fs| => (fs[i].0, EncodeFile(fs[i].1))))
  }

  function EncodeFile(f: FileSystemEntry): Toml {
    match f
    case File(v, p, dest) => TTable([("version", TString(v)), ("path", TString(p))] + OptField("destination", dest))
    case Directory(v, p, dest, fs) =>
      TTable([("version", TString(v)), ("path", TString(p))] + OptField("destination", dest) +
             [("files", TTable(seq(|fs|, i requires 0 <= i < |fs| => (fs[i].0, EncodeFile(fs[i].1)))))])
  }

  lemma HeaderFields(v: string, p: string, dest: Option<string>, rest: seq<(string, Toml)>)
    requires "destination" !in Keys(rest)
    ensures FileHeader([("version", TString(v)), ("path", TString(p))] + OptField("destination", dest) + rest) == Some((v, p, dest))
  {
    var a, b, tail := ("version", TString(v)), ("path", TString(p)), OptField("destination", dest) + rest;
    assert [a, b] + OptField("destination", dest) + rest == [a, b] + tail;
    HeaderLookups(a, b, tail);
    GetOpt("destination", dest, rest, "destination");
  }

  /** Lookup of the three header keys in a record that starts with `version` and `path`. */
  lemma HeaderLookups(a: (string, Toml), b: (string, Toml), tail: seq<(string, Toml)>)
    requires a.0 == "version" && b.0 == "path"
    ensures Get([a, b] + tail, "version") == Some(a.1)
    ensures Get([a, b] + tail, "path") == Some(b.1)
    ensures Get([a, b] + tail, "destination") == Get(tail, "destination")
  {
    assert [a, b] + tail == [a] + ([b] + tail);
    assert "version" != "path" && "version" != "destination" && "path" != "destination";
    GetCons(a, [b] + tail, "version");
    GetCons(a, [b] + tail, "path");
    GetCons(b, tail, "path");
    GetCons(a, [b] + tail, "destination");
    GetCons(b, tail, "destination");
  }

  /** The `files` table of an encoded directory is found under `files`; an encoded file has none. */
  lemma FilesField(f: FileSystemEntry)
    ensures var kvs := EncodeFile(f).entries;
      FileHeader(kvs) == Some((f.version, f.path, f.destination)) &&
      Get(kvs, "files") == if f.Directory? then Some(EncodeFiles(f.files)) else None
  {
    var kvs := EncodeFile(f).entries;
    var head := [("version", TString(f.version)), ("path", TString(f.path))] + OptField("destination", f.destination);
    assert kvs == head + kvs[|head|..];
    assert Keys(kvs[|head|..]) == if f.Directory? then ["files"] else [];
    HeaderFields(f.version, f.path, f.destination, kvs[|head|..]);
    assert "files" !in Keys(head);
    if f.Directory? {
      GetConcat(head, [("files", EncodeFiles(f.files))], "files");
    }
  }

  /** With the library's declaration order, a record with a `files` table decodes as
      `Directory` with its children in order, one without decodes as `File`:
      every entry survives encoding followed by decoding. */
  lemma {:induction false} DecodeEncodeFile(f: FileSystemEntry)
    ensures DecodeFile(EncodeFile(f), Library) == Some(f)
  {
    FilesField(f);
    if f.Directory? {
      var t := EncodeFiles(f.files);
      forall i | 0 <= i < |f.files| ensures DecodeFile(t.entries[i].1, Library) == Some(f.files[i].1) {
        DecodeEncodeFile(f.files[i].1);
      }
      assert DecodeFiles(t, Library).value == f.files;
    }
  }

  lemma DecodeEncodeFiles(fs: seq<(string, FileSystemEntry)>)
    ensures DecodeFiles(EncodeFiles(fs), Library) == Some(fs)
  {
    var t := EncodeFiles(fs);
    forall i | 0 <= i < |fs| ensures DecodeFile(t.entries[i].1, Library) == Some(fs[i].1) {
      DecodeEncodeFile(fs[i].1);
    }
    assert DecodeFiles(t, Library).value == fs;
  }

  /** The binary's copy declares `File` first, so it never produces a `Directory`. */
  lemma BinaryNeverDecodesDirectory(t: Toml)
    ensures DecodeFile(t, Binary).Some? ==> DecodeFile(t, Binary).value.File?
  {
  }

  /** In the binary's copy a directory record decodes as a `File` and its children are dropped. */
  lemma BinaryFlattensDirectory(v: string, p: string, dest: Option<string>, fs: seq<(string, FileSystemEntry)>)
    ensures DecodeFile(EncodeFile(Directory(v, p, dest, fs)), Binary) == Some(File(v, p, dest))
  {
    FilesField(Directory(v, p, dest, fs));
  }

  // ---- Plugin type ----

  function DecodePluginType(t: Toml, d: Dialect): Option<PluginType> {
    match t
    case TString(s) => Some(Shell(s))
    case TTable(kvs) =>
      var path := OptStringField(kvs, "path");
      var git := OptStringField(kvs, "git");
      var tag := OptStringField(kvs, "tag");
      if d == Library && path.Some? && git.Some? && tag.Some? then Some(RustPackage(path.value, git.value, tag.value))
      else None
    case _ => None
  }

  function EncodePluginType(p: PluginType): Toml {
    match p
    case Shell(s) => TString(s)
    case Script(s) => TString(s)
    case RustPackage(path, git, tag) => TTable(OptField("path", path) + (OptField("git", git) + OptField("tag", tag)))
  }

  /** A bare string always decodes as `Shell` (never `Script`), a table as `RustPackage`
      with each of `path`, `git` and `tag` optional; so a plugin type survives encoding
      and decoding exactly when it is not a `Script`. */
  lemma PluginTypeRoundTrip(p: PluginType)
    ensures DecodePluginType(EncodePluginType(p), Library) == Some(p) <==> !p.Script?
    ensures p.Script? ==> DecodePluginType(EncodePluginType(p), Library) == Some(Shell(p.script))
  {
    if p.RustPackage? {
      RustPackageRoundTrip(p.path, p.git, p.tag);
    }
  }

  lemma RustPackageRoundTrip(path: Option<string>, git: Option<string>, tag: Option<string>)
    ensures DecodePluginType(EncodePluginType(RustPackage(path, git, tag)), Library) == Some(RustPackage(path, git, tag))
  {
    assert "path" != "git" && "path" != "tag" && "git" != "tag";
    ThreeOptFields("path", path, "git", git, "tag", tag);
  }

  /** The three optional string fields of a record built from `OptField`s read back. */
  lemma ThreeOptFields(k1: string, v1: Option<string>, k2: string, v2: Option<string>, k3: string, v3: Option<string>)
    requires k1 != k2 && k1 != k3 && k2 != k3
    ensures var kvs := OptField(k1, v1) + (OptField(k2, v2) + OptField(k3, v3));
      OptStringField(kvs, k1) == Some(v1) && OptStringField(kvs, k2) == Some(v2) && OptStringField(kvs, k3) == Some(v3)
  {
    var tail := OptField(k2, v2) + OptField(k3, v3);
    assert OptField(k3, v3) == OptField(k3, v3) + [];
    GetOpt(k3, v3, [], k3);
    GetOpt(k2, v2, OptField(k3, v3), k2);
    GetOpt(k2, v2, OptField(k3, v3), k3);
    GetOpt(k1, v1, tail, k1);
    GetOpt(k1, v1, tail, k2);
    GetOpt(k1, v1, tail, k3);
  }

  /** Decoding never yields `Script`; a table with none of the three keys decodes as a
      `RustPackage` with neither `path` nor `git`, which installation rejects; the binary's
      copy has no `RustPackage` and rejects every table. */
  lemma NeverScript(t: Toml, d: Dialect)
    ensures DecodePluginType(t, d).Some? ==> !DecodePluginType(t, d).value.Script?
    ensures t.TTable? && d == Library && Get(t.entries, "path").None? && Get(t.entries, "git").None? && Get(t.entries, "tag").None?
            ==> DecodePluginType(t, d) == Some(RustPackage(None, None, None))
    ensures d == Binary && DecodePluginType(t, d).Some? ==> t.TString? && DecodePluginType(t, d) == Some(Shell(t.s))
  {
  }

  // ---- Package and descriptor ----

  function DecodePackage(t: Toml, d: Dialect): Option<Package> {
    if !t.TTable? then None
    else
      var kvs := t.entries;
      var author := StringField(kvs, "author");
      var version := StringField(kvs, "version");
      var help := OptStringField(kvs, "help");
      var internal := OptStringsField(kvs, "internal_dependencies");
      var external := OptStringsField(kvs, "external_dependencies");
      var pt := Get(kvs, "plugin_type");
      if author.Some? && version.Some? && help.Some? && internal.Some? && external.Some? &&
         pt.Some? && DecodePluginType(pt.value, d).Some?
      then Some(Package(author.value, version.value, help.value, internal.value, external.value, DecodePluginType(pt.value, d).value))
      else None
  }

  function EncodePackage(p: Package): Toml {
    TTable([("author", TString(p.author))] + ([("version", TString(p.version))] + (OptField("help", p.help) +
      (OptStringsFieldOut("internal_dependencies", p.internalDependencies) +
      (OptStringsFieldOut("external_dependencies", p.externalDependencies) +
      [("plugin_type", EncodePluginType(p.pluginType))])))))
  }

  /** The placeholder schema: a table of placeholder trees. */
  function DecodeFields(t: Toml): Option<seq<(string, EntryType)>> {
    if t.TTable? && DecodeEntry(t).Some? then Some(DecodeEntry(t).value.fields) else None
  }

  /** An optional field decoded with `decode`: absent gives `Some(None)`, malformed gives `None`. */
  function OptDecoded<T>(v: Option<Toml>, decode: Toml -> Option<T>): Option<Option<T>> {
    if v.None? then Some(None) else if decode(v.value).Some? then Some(decode(v.value)) else None
  }

  /** `read_config`: a `PluginInfo` (descriptor or stored record) from its document;
      `placeholders` and `supporting_files` may be absent, but not malformed. */
  function DecodeInfo(t: Toml, d: Dialect): Option<PluginInfo> {
    if !t.TTable? then None
    else
      var pkg := Get(t.entries, "plugin_info");
      var placeholders := OptDecoded(Get(t.entries, "placeholders"), DecodeFields);
      var files := OptDecoded(Get(t.entries, "supporting_files"), x => DecodeFiles(x, d));
      if pkg.Some? && DecodePackage(pkg.value, d).Some? && placeholders.Some? && files.Some?
      then Some(PluginInfo(DecodePackage(pkg.value, d).value, placeholders.value, files.value))
      else None
  }

  function OptTable(k: string, v: Option<Toml>): seq<(string, Toml)> {
    if v.Some? then [(k, v.value)] else []
  }

  /** `toml::to_vec` of a record, as a value tree; `None` fields are left out. */
  function EncodeInfo(p: PluginInfo): Toml {
    TTable([("plugin_info", EncodePackage(p.pluginInfo))] +
      (OptTable("placeholders", if p.placeholders.Some? then Some(EncodeEntry(Object(p.placeholders.value))) else None) +
       OptTable("supporting_files", if p.supportingFiles.Some? then Some(EncodeFiles(p.supportingFiles.value)) else None)))
  }

  lemma GetOptTable(k: string, v: Option<Toml>, rest: seq<(string, Toml)>, q: string)
    ensures Get(OptTable(k, v) + rest, q) == if v.Some? && q == k then v else Get(rest, q)
  {
    if v.Some? {
      GetCons((k, v.value), rest, q);
    } else {
      assert OptTable(k, v) + rest == rest;
    }
  }

  lemma GetOpt(k: string, v: Option<string>, rest: seq<(string, Toml)>, q: string)
    ensures Get(OptField(k, v) + rest, q) == if v.Some? && q == k then Some(TString(v.value)) else Get(rest, q)
  {
    if v.Some? {
      GetCons((k, TString(v.value)), rest, q);
    } else {
      assert OptField(k, v) + rest == rest;
    }
  }

  lemma GetOptStrings(k: string, v: Option<seq<string>>, rest: seq<(string, Toml)>, q: string)
    ensures v.None? || q != k ==> Get(OptStringsFieldOut(k, v) + rest, q) == Get(rest, q)
  {
    if v.Some? {
      GetCons(OptStringsFieldOut(k, v)[0], rest, q);
    } else {
      assert OptStringsFieldOut(k, v) + rest == rest;
    }
  }

  /** Where each field of an encoded package is found. */
  lemma PackageLookup(p: Package)
    ensures var kvs := EncodePackage(p).entries;
      StringField(kvs, "author") == Some(p.author) && StringField(kvs, "version") == Some(p.version) &&
      OptStringField(kvs, "help") == Some(p.help) &&
      OptStringsField(kvs, "internal_dependencies") == Some(p.internalDependencies) &&
      OptStringsField(kvs, "external_dependencies") == Some(p.externalDependencies) &&
      Get(kvs, "plugin_type") == Some(EncodePluginType(p.pluginType))
  {
    var pt := [("plugin_type", EncodePluginType(p.pluginType))];
    var r4 := OptStringsFieldOut("external_dependencies", p.externalDependencies) + pt;
    var r3 := OptStringsFieldOut("internal_dependencies", p.internalDependencies) + r4;
    var r2 := OptField("help", p.help) + r3;
    var r1 := [("version", TString(p.version))] + r2;
    var kvs := [("author", TString(p.author))] + r1;
    assert kvs == EncodePackage(p).entries;
    // plugin_type sits last
    assert pt == [("plugin_type", EncodePluginType(p.pluginType))] + [];
    GetCons(("plugin_type", EncodePluginType(p.pluginType)), [], "plugin_type");
    assert "external_dependencies" != "plugin_type" && "internal_dependencies" != "plugin_type" && "internal_dependencies" != "external_dependencies";
    assert "help" != "plugin_type" && "help" != "internal_dependencies" && "help" != "external_dependencies";
    assert "version" != "plugin_type" && "version" != "internal_dependencies" && "version" != "external_dependencies" && "version" != "help";
    assert "author" != "plugin_type" && "author" != "internal_dependencies" && "author" != "external_dependencies" && "author" != "help" && "author" != "version";
    GetOptStrings("external_dependencies", p.externalDependencies, pt, "plugin_type");
    GetOptStrings("internal_dependencies", p.internalDependencies, r4, "plugin_type");
    GetOpt("help", p.help, r3, "plugin_type");
    GetCons(("version", TString(p.version)), r2, "plugin_type");
    GetCons(("author", TString(p.author)), r1, "plugin_type");
    // external_dependencies
    GetCons(("plugin_type", EncodePluginType(p.pluginType)), [], "external_dependencies");
    StringsRoundTrip("external_dependencies", p.externalDependencies, pt);
    GetOptStrings("internal_dependencies", p.internalDependencies, r4, "external_dependencies");
    GetOpt("help", p.help, r3, "external_dependencies");
    GetCons(("version", TString(p.version)), r2, "external_dependencies");
    GetCons(("author", TString(p.author)), r1, "external_dependencies");
    // internal_dependencies
    GetCons(("plugin_type", EncodePluginType(p.pluginType)), [], "internal_dependencies");
    GetOptStrings("external_dependencies", p.externalDependencies, pt, "internal_dependencies");
    StringsRoundTrip("internal_dependencies", p.internalDependencies, r4);
    GetOpt("help", p.help, r3, "internal_dependencies");
    GetCons(("version", TString(p.version)), r2, "internal_dependencies");
    GetCons(("author", TString(p.author)), r1, "internal_dependencies");
    // help
    GetCons(("plugin_type", EncodePluginType(p.pluginType)), [], "help");
    GetOptStrings("external_dependencies", p.externalDependencies, pt, "help");
    GetOptStrings("internal_dependencies", p.internalDependencies, r4, "help");
    GetOpt("help", p.help, r3, "help");
    GetCons(("version", TString(p.version)), r2, "help");
    GetCons(("author", TString(p.author)), r1, "help");
    // version and author
    GetCons(("version", TString(p.version)), r2, "version");
    GetCons(("author", TString(p.author)), r1, "version");
    GetCons(("author", TString(p.author)), r1, "author");
  }

  lemma DecodeEncodePackage(p: Package)
    requires !p.pluginType.Script?
    ensures DecodePackage(EncodePackage(p), Library) == Some(p)
  {
    PackageLookup(p);
    PluginTypeRoundTrip(p.pluginType);
  }

  /** Where each field of an encoded record is found. */
  lemma InfoLookup(p: PluginInfo)
    ensures var kvs := EncodeInfo(p).entries;
      Get(kvs, "plugin_info") == Some(EncodePackage(p.pluginInfo)) &&
      Get(kvs, "placeholders") == (if p.placeholders.Some? then Some(EncodeEntry(Object(p.placeholders.value))) else None) &&
      Get(kvs, "supporting_files") == (if p.supportingFiles.Some? then Some(EncodeFiles(p.supportingFiles.value)) else None)
  {
    var ph := if p.placeholders.Some? then Some(EncodeEntry(Object(p.placeholders.value))) else None;
    var sf := if p.supportingFiles.Some? then Some(EncodeFiles(p.supportingFiles.value)) else None;
    var r2 := OptTable("supporting_files", sf);
    var r1 := OptTable("placeholders", ph) + r2;
    var kvs := [("plugin_info", EncodePackage(p.pluginInfo))] + r1;
    assert kvs == EncodeInfo(p).entries;
    assert r2 == OptTable("supporting_files", sf) + [];
    assert "plugin_info" != "placeholders" && "plugin_info" != "supporting_files" && "placeholders" != "supporting_files";
    GetOptTable("supporting_files", sf, [], "supporting_files");
    GetOptTable("placeholders", ph, r2, "supporting_files");
    GetCons(("plugin_info", EncodePackage(p.pluginInfo)), r1, "supporting_files");
    GetOptTable("supporting_files", sf, [], "placeholders");
    GetOptTable("placeholders", ph, r2, "placeholders");
    GetCons(("plugin_info", EncodePackage(p.pluginInfo)), r1, "placeholders");
    GetCons(("plugin_info", EncodePackage(p.pluginInfo)), r1, "plugin_info");
  }

  /** A record written by `write_file` reads back as the same record (for the plugin types
      decoding can produce). */
  lemma DecodeEncodeInfo(p: PluginInfo)
    requires !p.pluginInfo.pluginType.Script?
    ensures DecodeInfo(EncodeInfo(p), Library) == Some(p)
  {
    InfoLookup(p);
    var kvs := EncodeInfo(p).entries;
    DecodeEncodePackage(p.pluginInfo);
    if p.placeholders.Some? {
      DecodeEncodeEntry(Object(p.placeholders.value));
      assert DecodeFields(EncodeEntry(Object(p.placeholders.value))) == p.placeholders;
    }
    assert OptDecoded(Get(kvs, "placeholders"), DecodeFields) == Some(p.placeholders);
    if p.supportingFiles.Some? {
      DecodeEncodeFiles(p.supportingFiles.value);
    }
    assert OptDecoded(Get(kvs, "supporting_files"), x => DecodeFiles(x, Library)) == Some(p.supportingFiles);
  }
}
