/** The materialisation steps of src/modules/install.rs: copying a module's supporting files
    (`write_supporting_files`), writing the installed script and its records (`write_file`)
    and the `cargo install` command of a Rust package. `install` itself, which calls
    `update`, is in Lifecycle. */
module InstallSteps {
  import opened Wrappers
  import opened Models
  import opened Serde
  import opened FileSystem
  import opened Host
  import opened Modules

  /** Where a supporting entry goes: its override (resolved against the working directory
      when it is relative), or its path below `cwd`. */
  function Destination(env: Env, cwd: Path, path: string, destination: Option<string>): Path {
    if destination.Some? then Join(env.workdir, destination.value) else Join(cwd, path)
  }

  // ---- write_supporting_files ----

  /** The supporting files of a module, held as the entries of a directory so that the walk
      below descends through entries. */
  function Root(files: seq<(string, FileSystemEntry)>): (d: FileSystemEntry)
    ensures d.Directory? && d.files == files
  {
    Directory("", "", None, files)
  }

  /** What is left of `write_supporting_files(dir.files, cwd)` from entry `i` on: a file entry
      removes its destination if it is a file and copies `<module>/<path>` onto it, and a
      failed copy panics; a directory entry creates its destination (a failure is ignored)
      and writes its own entries below that destination. */
  function WriteFrom(env: Env, moduleDir: Path, dir: FileSystemEntry, i: nat, cwd: Path, w: World): (r: Run<()>)
    requires dir.Directory? && i <= |dir.files|
    ensures r.w.input == w.input && r.w.cargo == w.cargo
    decreases dir, |dir.files| - i
  {
    if i == |dir.files| then Run(w, Next(()))
    else
      match dir.files[i].1
      case File(_, path, destination) =>
        var dest := Destination(env, cwd, path, destination);
        var (f, _) := RemoveFile(w.fs, dest);
        var (g, ok) := Copy(f, Join(moduleDir, path), dest);
        if !ok then Run(w.(fs := f), Stop(Panic("Could not copy file")))
        else WriteFrom(env, moduleDir, dir, i + 1, cwd, w.(fs := g))
      case Directory(_, path, destination, _) =>
        var dest := Destination(env, cwd, path, destination);
        var (f, _) := CreateDirAll(w.fs, dest);
        var r := WriteFrom(env, moduleDir, dir.files[i].1, 0, dest, w.(fs := f));
        if r.out.Stop? then r else WriteFrom(env, moduleDir, dir, i + 1, cwd, r.w)
  }

  /** `write_supporting_files(files, cwd)`. */
  function WriteSupportingFiles(env: Env, moduleDir: Path, files: seq<(string, FileSystemEntry)>,
                                cwd: Path, w: World): Run<()> {
    WriteFrom(env, moduleDir, Root(files), 0, cwd, w)
  }

  /** `write_supporting_files` over the entries of `dir`, as the loop the program runs. */
  method WriteEntries(m: Machine, env: Env, moduleDir: Path, dir: FileSystemEntry, cwd: Path) returns (r: Step<()>)
    requires dir.Directory?
    modifies m
    ensures Run(m.State(), r) == WriteFrom(env, moduleDir, dir, 0, cwd, old(m.State()))
    decreases dir
  {
    for i := 0 to |dir.files|
      invariant WriteFrom(env, moduleDir, dir, i, cwd, m.State()) == WriteFrom(env, moduleDir, dir, 0, cwd, old(m.State()))
    {
      var e := dir.files[i].1;
      var dest := Destination(env, cwd, e.path, e.destination);
      if e.File? {
        var _ := m.RemoveFile(dest);
        var ok := m.Copy(Join(moduleDir, e.path), dest);
        if !ok {
          return Stop(Panic("Could not copy file"));
        }
      } else {
        var _ := m.CreateDirAll(dest);
        var s := WriteEntries(m, env, moduleDir, e, dest);
        if s.Stop? {
          return s;
        }
      }
    }
    return Next(());
  }

  method WriteSupportingFilesMethod(m: Machine, env: Env, moduleDir: Path,
                                    files: seq<(string, FileSystemEntry)>, cwd: Path) returns (r: Step<()>)
    modifies m
    ensures Run(m.State(), r) == WriteSupportingFiles(env, moduleDir, files, cwd, old(m.State()))
  {
    r := WriteEntries(m, env, moduleDir, Root(files), cwd);
  }

  // ---- The flat plan ----

  /** One step of materialisation: create a directory, or place a copy of a file. */
  datatype Action = MakeDir(dir: Path) | Place(src: Path, dst: Path)

  /** The steps `write_supporting_files` takes over the entries of `dir` from `i` on, depth
      first in map order: a directory's own step comes before the steps of its entries,
      which are placed below its destination. */
  function PlanFrom(env: Env, moduleDir: Path, dir: FileSystemEntry, i: nat, cwd: Path): seq<Action>
    requires dir.Directory? && i <= |dir.files|
    decreases dir, |dir.files| - i
  {
    if i == |dir.files| then []
    else
      match dir.files[i].1
      case File(_, path, destination) =>
        [Place(Join(moduleDir, path), Destination(env, cwd, path, destination))] + PlanFrom(env, moduleDir, dir, i + 1, cwd)
      case Directory(_, path, destination, _) =>
        var dest := Destination(env, cwd, path, destination);
        [MakeDir(dest)] + PlanFrom(env, moduleDir, dir.files[i].1, 0, dest) + PlanFrom(env, moduleDir, dir, i + 1, cwd)
  }

  /** Carrying out one step: a directory is created where it can be (a failure is ignored);
      a file target is first removed if it is a file, then the source copied onto it. The
      flag is false exactly when the copy failed. */
  function Perform(fs: Fs, a: Action): (Fs, bool) {
    match a
    case MakeDir(d) => (CreateDirAll(fs, d).0, true)
    case Place(src, dst) =>
      var (f, _) := RemoveFile(fs, dst);
      var (g, ok) := Copy(f, src, dst);
      if ok then (g, true) else (f, false)
  }

  /** Carrying out the steps in order, up to the first failed copy. */
  function PerformAll(fs: Fs, plan: seq<Action>): (Fs, bool)
    decreases |plan|
  {
    if plan == [] then (fs, true)
    else
      var (f, ok) := Perform(fs, plan[0]);
      if !ok then (f, false) else PerformAll(f, plan[1..])
  }

  lemma {:induction false} PerformAllConcat(fs: Fs, a: seq<Action>, b: seq<Action>)
    ensures PerformAll(fs, a + b) ==
      (var (f, ok) := PerformAll(fs, a); if !ok then (f, false) else PerformAll(f, b))
    decreases |a|
  {
    if a != [] {
      assert (a + b)[0] == a[0] && (a + b)[1..] == a[1..] + b;
      var (f, ok) := Perform(fs, a[0]);
      assert PerformAll(fs, a + b) == if !ok then (f, false) else PerformAll(f, a[1..] + b);
      assert PerformAll(fs, a) == if !ok then (f, false) else PerformAll(f, a[1..]);
      if ok {
        PerformAllConcat(f, a[1..], b);
      }
    } else {
      assert a + b == b;
    }
  }

  /** The tree walk is the flat plan carried out: it leaves the file system the plan leaves,
      and panics exactly when one of the plan's copies fails. */
  lemma {:induction false} WriteIsPlan(env: Env, moduleDir: Path, dir: FileSystemEntry, i: nat, cwd: Path, w: World)
    requires dir.Directory? && i <= |dir.files|
    ensures var (f, ok) := PerformAll(w.fs, PlanFrom(env, moduleDir, dir, i, cwd));
      WriteFrom(env, moduleDir, dir, i, cwd, w) == Run(w.(fs := f), if ok then Next(()) else Stop(Panic("Could not copy file")))
    decreases dir, |dir.files| - i
  {
    if i < |dir.files| {
      var e := dir.files[i].1;
      var rest := PlanFrom(env, moduleDir, dir, i + 1, cwd);
      var dest := Destination(env, cwd, e.path, e.destination);
      if e.File? {
        var a := Place(Join(moduleDir, e.path), dest);
        PerformAllConcat(w.fs, [a], rest);
        var (f, ok) := Perform(w.fs, a);
        assert PerformAll(w.fs, [a]) == (f, ok);
        if ok {
          WriteIsPlan(env, moduleDir, dir, i + 1, cwd, w.(fs := f));
        }
      } else {
        var inner := PlanFrom(env, moduleDir, e, 0, dest);
        var f := CreateDirAll(w.fs, dest).0;
        assert PerformAll(w.fs, [MakeDir(dest)]) == (f, true);
        PerformAllConcat(w.fs, [MakeDir(dest)] + inner, rest);
        PerformAllConcat(w.fs, [MakeDir(dest)], inner);
        WriteIsPlan(env, moduleDir, e, 0, dest, w.(fs := f));
        var (g, ok) := PerformAll(f, inner);
        if ok {
          WriteIsPlan(env, moduleDir, dir, i + 1, cwd, w.(fs := g));
        }
      }
    }
  }

  /** Placing a file succeeds exactly when the source is a file other than the target and
      the target can be written; the target then holds the source's content. A file copied
      onto itself is removed first and the copy fails. */
  lemma PlaceEffect(fs: Fs, src: Path, dst: Path)
    ensures var (f, ok) := Perform(fs, Place(src, dst));
      (ok <==> IsFile(fs, src) && src != dst && CanWrite(fs, dst)) &&
      (ok ==> f == fs[dst := fs[src]])
  {
    var f := RemoveFile(fs, dst).0;
    if IsFile(fs, dst) && dst != [] {
      assert Parent(dst) != dst;
      assert IsDir(f, Parent(dst)) <==> IsDir(fs, Parent(dst));
    }
    assert CanWrite(f, dst) <==> CanWrite(fs, dst);
    if IsFile(fs, src) && src != dst && CanWrite(fs, dst) {
      assert (fs - {dst})[dst := fs[src]] == fs[dst := fs[src]];
    }
  }

  // ---- write_file ----

  /** `write_file`: creates the module's home (a failure is ignored), removes its
      `script.sh`, copies the repository's `config.toml` in (a failure is ignored) and
      writes the rendered script; only when that write succeeds is `data.toml` replaced by
      the serialised record. */
  function WriteFile(env: Env, name: string, toml: PluginInfo, script: string, moduleDir: Path, w: World): (r: World)
    ensures r.input == w.input && r.cargo == w.cargo
  {
    var home := ModuleHome(env, name);
    w.(fs := FillHome(CreateDirAll(w.fs, home).0, home, moduleDir + ["config.toml"], toml, script))
  }

  /** The steps of `write_file` once the home exists. */
  function FillHome(fs: Fs, home: Path, src: Path, toml: PluginInfo, script: string): Fs {
    var f2 := RemoveFile(fs, home + ["script.sh"]).0;
    var f3 := Copy(f2, src, home + ["config.toml"]).0;
    var (f4, ok) := Write(f3, home + ["script.sh"], Text(script));
    if !ok then f4
    else
      var f5 := RemoveFile(f4, home + ["data.toml"]).0;
      Write(f5, home + ["data.toml"], Document(EncodeInfo(toml))).0
  }

  method WriteFileMethod(m: Machine, env: Env, name: string, toml: PluginInfo, script: string, moduleDir: Path)
    modifies m
    ensures m.State() == WriteFile(env, name, toml, script, moduleDir, old(m.State()))
  {
    var home := ModuleHome(env, name);
    var _ := m.CreateDirAll(home);
    var _ := m.RemoveFile(home + ["script.sh"]);
    var _ := m.Copy(moduleDir + ["config.toml"], home + ["config.toml"]);
    var ok := m.Write(home + ["script.sh"], Text(script));
    if ok {
      var _ := m.RemoveFile(home + ["data.toml"]);
      var _ := m.Write(home + ["data.toml"], Document(EncodeInfo(toml)));
    }
  }

  /** Where the home can be created and neither file is a directory, the installed module
      holds the repository's descriptor, the rendered script and the serialised record, and
      nothing else changes beyond the creation of the home. */
  lemma WriteFileEffect(env: Env, name: string, toml: PluginInfo, script: string, moduleDir: Path, w: World)
    requires var home := ModuleHome(env, name);
      (forall i :: 0 < i <= |home| ==> !IsFile(w.fs, home[..i])) &&
      IsFile(w.fs, moduleDir + ["config.toml"]) && moduleDir != home &&
      !IsDir(w.fs, home + ["config.toml"]) && !IsDir(w.fs, home + ["script.sh"]) && !IsDir(w.fs, home + ["data.toml"])
    ensures var home := ModuleHome(env, name);
      WriteFile(env, name, toml, script, moduleDir, w).fs ==
        CreateDirAll(w.fs, home).0[home + ["config.toml"] := w.fs[moduleDir + ["config.toml"]]]
                                  [home + ["script.sh"] := FileNode(Text(script))]
                                  [home + ["data.toml"] := FileNode(Document(EncodeInfo(toml)))]
  {
    var home := ModuleHome(env, name);
    var src := moduleDir + ["config.toml"];
    assert src[..|src| - 1] == moduleDir && src[|src| - 1] == "config.toml";
    HomeReady(w.fs, home, src);
    NotAPrefix(w.fs, home, "script.sh");
    NotAPrefix(w.fs, home, "config.toml");
    NotAPrefix(w.fs, home, "data.toml");
    FillHomeEffect(CreateDirAll(w.fs, home).0, home, src, toml, script);
  }

  lemma FillHomeEffect(fs: Fs, home: Path, src: Path, toml: PluginInfo, script: string)
    requires IsDir(fs, home) && IsFile(fs, src) && src != home + ["script.sh"] && src != home + ["config.toml"]
    requires !IsDir(fs, home + ["config.toml"]) && !IsDir(fs, home + ["script.sh"]) && !IsDir(fs, home + ["data.toml"])
    ensures FillHome(fs, home, src, toml, script) ==
      fs[home + ["config.toml"] := fs[src]][home + ["script.sh"] := FileNode(Text(script))]
        [home + ["data.toml"] := FileNode(Document(EncodeInfo(toml)))]
  {
    var script_, config, data := home + ["script.sh"], home + ["config.toml"], home + ["data.toml"];
    assert Parent(script_) == home && Parent(config) == home && Parent(data) == home;
    var f2 := RemoveFile(fs, script_).0;
    assert f2 == fs - {script_};
    var g := fs[config := fs[src]];
    var f3 := Copy(f2, src, config).0;
    assert f3 == g - {script_};
    var h := g[script_ := FileNode(Text(script))];
    assert CanWrite(f3, script_);
    assert f3[script_ := FileNode(Text(script))] == h;
    var f5 := RemoveFile(h, data).0;
    assert f5 == h - {data};
    var d := FileNode(Document(EncodeInfo(toml)));
    assert Write(f5, data, Document(EncodeInfo(toml))) == (f5[data := d], true);
    assert f5[data := d] == h[data := d];
  }

  /** `create_dir_all` of a home none of whose prefixes is a file makes it a directory and
      keeps every file that existed. */
  lemma HomeReady(fs: Fs, home: Path, src: Path)
    requires forall i :: 0 < i <= |home| ==> !IsFile(fs, home[..i])
    requires IsFile(fs, src)
    ensures var f := CreateDirAll(fs, home).0; IsDir(f, home) && IsFile(f, src) && f[src] == fs[src]
  {
    CreateDirAllSpec(fs, home);
    assert home[..|home|] == home;
  }

  /** A file directly inside a directory that `create_dir_all` made is not one of the
      directories it made, so it keeps whatever it was. */
  lemma NotAPrefix(fs: Fs, home: Path, file: string)
    requires forall i :: 0 < i <= |home| ==> !IsFile(fs, home[..i])
    ensures var f := CreateDirAll(fs, home).0;
      (home + [file] in f <==> home + [file] in fs) &&
      (home + [file] in fs ==> f[home + [file]] == fs[home + [file]])
  {
    CreateDirAllSpec(fs, home);
    forall i | 0 < i <= |home| ensures home[..i] != home + [file] {
    }
  }

  /** The record written reads back as the record, when its module kind is one decoding produces. */
  lemma RecordReadsBack(env: Env, name: string, toml: PluginInfo, fs: Fs)
    requires !toml.pluginInfo.pluginType.Script?
    ensures ReadConfig(fs[ModuleHome(env, name) + ["data.toml"] := FileNode(Document(EncodeInfo(toml)))],
                       ModuleHome(env, name) + ["data.toml"], Library) == Some(toml)
  {
    DecodeEncodeInfo(toml);
  }

  /** When the script cannot be written (its path is a directory), `data.toml` is left as it was. */
  lemma RecordOnlyAfterScript(env: Env, name: string, toml: PluginInfo, script: string, moduleDir: Path, w: World)
    requires var home := ModuleHome(env, name); home + ["script.sh"] in w.fs && w.fs[home + ["script.sh"]].DirNode?
    ensures var home := ModuleHome(env, name); var fs := WriteFile(env, name, toml, script, moduleDir, w).fs;
      (home + ["data.toml"] in fs <==> home + ["data.toml"] in w.fs) &&
      (home + ["data.toml"] in w.fs ==> fs[home + ["data.toml"]] == w.fs[home + ["data.toml"]])
  {
    var home := ModuleHome(env, name);
    CreateDirAllSpec(w.fs, home);
  }

  // ---- cargo install ----

  /** The `cargo install` command of a Rust package: from its git repository (with its tag,
      if any) when one is set, else from its path inside the module; neither panics. */
  function CargoCommand(moduleDir: Path, path: Option<string>, git: Option<string>, tag: Option<string>): Step<CargoRun> {
    if git.Some? then
      Next(CargoRun(["install", "--git", git.value] + (if tag.Some? then ["--tag", tag.value] else []),
                    [("CARGO_NET_GIT_FETCH_WITH_CLI", "true")]))
    else if path.Some? then Next(CargoRun(["install", "--path", PathString(Join(moduleDir, path.value))], []))
    else Stop(Panic("either path or git should be set"))
  }

  /** The cargo step: a Rust package spawns its command; other module kinds run nothing. */
  function Cargo(moduleDir: Path, t: PluginType, w: World): (r: Run<()>)
    ensures r.w.fs == w.fs && r.w.input == w.input
  {
    if !t.RustPackage? then Run(w, Next(()))
    else
      var c := CargoCommand(moduleDir, t.path, t.git, t.tag);
      if c.Stop? then Run(w, Stop(c.halt)) else Run(w.(cargo := w.cargo + [c.value]), Next(()))
  }

  method CargoMethod(m: Machine, moduleDir: Path, t: PluginType) returns (r: Step<()>)
    modifies m
    ensures Run(m.State(), r) == Cargo(moduleDir, t, old(m.State()))
  {
    if t.RustPackage? {
      var run: CargoRun;
      if t.git.Some? {
        var args := ["install", "--git", t.git.value];
        if t.tag.Some? {
          args := args + ["--tag", t.tag.value];
        } else {
          assert args == args + [];
        }
        run := CargoRun(args, [("CARGO_NET_GIT_FETCH_WITH_CLI", "true")]);
      } else if t.path.Some? {
        run := CargoRun(["install", "--path", PathString(Join(moduleDir, t.path.value))], []);
      } else {
        assert CargoCommand(moduleDir, t.path, t.git, t.tag) == Stop(Panic("either path or git should be set"));
        return Stop(Panic("either path or git should be set"));
      }
      assert CargoCommand(moduleDir, t.path, t.git, t.tag) == Next(run);
      m.Spawn(run);
    }
    return Next(());
  }

  /** A git source wins over a path and fetches with the git command line; the tag is passed
      exactly when a git source has one; a path is made absolute below the module; a package
      with neither panics; a shell or script module spawns nothing. */
  lemma CargoChoice(moduleDir: Path, t: PluginType, w: World)
    ensures var r := Cargo(moduleDir, t, w);
      (!t.RustPackage? ==> r == Run(w, Next(()))) &&
      (t.RustPackage? ==>
        (r.out.Stop? <==> t.git.None? && t.path.None?) &&
        (r.out.Stop? ==> r == Run(w, Stop(Panic("either path or git should be set")))) &&
        (r.out.Next? ==> |r.w.cargo| == |w.cargo| + 1 && r.w.cargo[..|w.cargo|] == w.cargo) &&
        (t.git.Some? ==> var c := r.w.cargo[|w.cargo|];
           c.args[..3] == ["install", "--git", t.git.value] &&
           (|c.args| > 3 <==> t.tag.Some?) &&
           (t.tag.Some? ==> c.args[3..] == ["--tag", t.tag.value]) &&
           c.env == [("CARGO_NET_GIT_FETCH_WITH_CLI", "true")]) &&
        (t.git.None? && t.path.Some? ==>
           r.w.cargo[|w.cargo|] == CargoRun(["install", "--path", PathString(Join(moduleDir, t.path.value))], [])))
  {
  }
}
