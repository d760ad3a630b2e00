/** `add_files_as_vars` of src/template.rs: every supporting entry becomes a template
    variable holding the path it is known by, and with `should_overwrite` the entries are
    copied first. The template engine itself (`render`) is a parameter of the process, see
    Host.Env. */
module Template {
  import opened Wrappers
  import opened Models
  import opened Context
  import opened FileSystem
  import opened Host
  import opened InstallSteps

  /** The string a variable holds: the override exactly as written, or `<cwd>/<path>`. */
  function VarValue(cwd: Path, path: string, destination: Option<string>): string {
    if destination.Some? then destination.value else PathString(Join(cwd, path))
  }

  /** The variables published for the entries of `dir` from `i` on, in insertion order: an
      entry before the entries of a directory, which are placed relative to the same `cwd`. */
  function VarsFrom(dir: FileSystemEntry, i: nat, cwd: Path): seq<(string, string)>
    requires dir.Directory? && i <= |dir.files|
    decreases dir, |dir.files| - i
  {
    if i == |dir.files| then []
    else
      var (k, e) := dir.files[i];
      [(k, VarValue(cwd, e.path, e.destination))]
        + (if e.Directory? then VarsFrom(e, 0, cwd) else [])
        + VarsFrom(dir, i + 1, cwd)
  }

  /** Inserting string variables one after the other. */
  function InsertAll(ctx: Ctx, vars: seq<(string, string)>): Ctx
    decreases |vars|
  {
    if vars == [] then ctx else InsertAll(InsertStr(ctx, vars[0].0, vars[0].1), vars[1..])
  }

  lemma {:induction false} InsertAllConcat(ctx: Ctx, a: seq<(string, string)>, b: seq<(string, string)>)
    ensures InsertAll(ctx, a + b) == InsertAll(InsertAll(ctx, a), b)
    decreases |a|
  {
    if a == [] {
      assert a + b == b;
    } else {
      assert (a + b)[0] == a[0] && (a + b)[1..] == a[1..] + b;
      InsertAllConcat(InsertStr(ctx, a[0].0, a[0].1), a[1..], b);
    }
  }

  /** What is left of `add_files_as_vars`' loop from entry `i` on. */
  function AddFrom(env: Env, moduleDir: Path, dir: FileSystemEntry, i: nat, ctx: Ctx, cwd: Path,
                   overwrite: bool, w: World): Run<Ctx>
    requires dir.Directory? && i <= |dir.files|
    decreases dir, 0, |dir.files| - i
  {
    if i == |dir.files| then Run(w, Next(ctx))
    else
      var r := AddEntry(env, moduleDir, dir.files[i].0, dir.files[i].1, ctx, cwd, overwrite, w);
      if r.out.Stop? then r else AddFrom(env, moduleDir, dir, i + 1, r.out.value, cwd, overwrite, r.w)
  }

  /** One entry of the loop: its variable, then for a directory the call on its entries. */
  function AddEntry(env: Env, moduleDir: Path, k: string, e: FileSystemEntry, ctx: Ctx, cwd: Path,
                    overwrite: bool, w: World): Run<Ctx>
    decreases e, 2, 0
  {
    var c := InsertStr(ctx, k, VarValue(cwd, e.path, e.destination));
    if e.File? then Run(w, Next(c)) else AddFiles(env, moduleDir, e, c, cwd, overwrite, w)
  }

  /** `add_files_as_vars` over the entries of `dir`: with `overwrite`, first
      `write_supporting_files` of those entries into `cwd`; then each entry's variable, and
      for a directory the same call on its entries, with the same `cwd` and flag. */
  function AddFiles(env: Env, moduleDir: Path, dir: FileSystemEntry, ctx: Ctx, cwd: Path,
                    overwrite: bool, w: World): Run<Ctx>
    requires dir.Directory?
    decreases dir, 1, 0
  {
    if overwrite then
      var r := WriteFrom(env, moduleDir, dir, 0, cwd, w);
      if r.out.Stop? then Run(r.w, Stop(r.out.halt)) else AddFrom(env, moduleDir, dir, 0, ctx, cwd, overwrite, r.w)
    else AddFrom(env, moduleDir, dir, 0, ctx, cwd, overwrite, w)
  }

  function AddFilesAsVars(env: Env, moduleDir: Path, files: seq<(string, FileSystemEntry)>, ctx: Ctx,
                          cwd: Path, overwrite: bool, w: World): Run<Ctx> {
    AddFiles(env, moduleDir, Root(files), ctx, cwd, overwrite, w)
  }

  /** `add_files_as_vars` over the entries of `dir`, as the loop the program runs. */
  method AddEntries(m: Machine, env: Env, moduleDir: Path, dir: FileSystemEntry, ctx: Ctx, cwd: Path,
                    overwrite: bool) returns (r: Step<Ctx>)
    requires dir.Directory?
    modifies m
    ensures Run(m.State(), r) == AddFiles(env, moduleDir, dir, ctx, cwd, overwrite, old(m.State()))
    decreases dir, 1
  {
    if overwrite {
      var s := WriteEntries(m, env, moduleDir, dir, cwd);
      if s.Stop? {
        return Stop(s.halt);
      }
    }
    var c := ctx;
    for i := 0 to |dir.files|
      invariant AddFrom(env, moduleDir, dir, i, c, cwd, overwrite, m.State()) == AddFiles(env, moduleDir, dir, ctx, cwd, overwrite, old(m.State()))
    {
      var s := AddEntryMethod(m, env, moduleDir, dir.files[i].0, dir.files[i].1, c, cwd, overwrite);
      if s.Stop? {
        return s;
      }
      c := s.value;
    }
    return Next(c);
  }

  method AddEntryMethod(m: Machine, env: Env, moduleDir: Path, k: string, e: FileSystemEntry, ctx: Ctx, cwd: Path,
                        overwrite: bool) returns (r: Step<Ctx>)
    modifies m
    ensures Run(m.State(), r) == AddEntry(env, moduleDir, k, e, ctx, cwd, overwrite, old(m.State()))
    decreases e, 2
  {
    var c := InsertStr(ctx, k, VarValue(cwd, e.path, e.destination));
    if e.File? {
      return Next(c);
    }
    r := AddEntries(m, env, moduleDir, e, c, cwd, overwrite);
  }

  method AddFilesAsVarsMethod(m: Machine, env: Env, moduleDir: Path, files: seq<(string, FileSystemEntry)>,
                              ctx: Ctx, cwd: Path, overwrite: bool) returns (r: Step<Ctx>)
    modifies m
    ensures Run(m.State(), r) == AddFilesAsVars(env, moduleDir, files, ctx, cwd, overwrite, old(m.State()))
  {
    r := AddEntries(m, env, moduleDir, Root(files), ctx, cwd, overwrite);
  }

  // ---- Properties ----

  /** Whatever the flag, a call that does not panic publishes exactly the variables of
      `VarsFrom`, in that order. */
  lemma {:induction false} AddFromVars(env: Env, moduleDir: Path, dir: FileSystemEntry, i: nat, ctx: Ctx, cwd: Path,
                                       overwrite: bool, w: World)
    requires dir.Directory? && i <= |dir.files|
    ensures var r := AddFrom(env, moduleDir, dir, i, ctx, cwd, overwrite, w);
      r.out.Next? ==> r.out.value == InsertAll(ctx, VarsFrom(dir, i, cwd))
    decreases dir, 0, |dir.files| - i
  {
    if i < |dir.files| {
      var (k, e) := dir.files[i];
      var mine := EntryVars(k, e, cwd);
      var rest := VarsFrom(dir, i + 1, cwd);
      assert VarsFrom(dir, i, cwd) == mine + rest;
      InsertAllConcat(ctx, mine, rest);
      AddEntryVars(env, moduleDir, k, e, ctx, cwd, overwrite, w);
      var r := AddEntry(env, moduleDir, k, e, ctx, cwd, overwrite, w);
      if r.out.Next? {
        AddFromVars(env, moduleDir, dir, i + 1, r.out.value, cwd, overwrite, r.w);
      }
    }
  }

  /** The variables of one entry: its own, then those of a directory's entries. */
  function EntryVars(k: string, e: FileSystemEntry, cwd: Path): seq<(string, string)> {
    [(k, VarValue(cwd, e.path, e.destination))] + (if e.Directory? then VarsFrom(e, 0, cwd) else [])
  }

  lemma {:induction false} AddEntryVars(env: Env, moduleDir: Path, k: string, e: FileSystemEntry, ctx: Ctx, cwd: Path,
                                        overwrite: bool, w: World)
    ensures var r := AddEntry(env, moduleDir, k, e, ctx, cwd, overwrite, w);
      r.out.Next? ==> r.out.value == InsertAll(ctx, EntryVars(k, e, cwd))
    decreases e, 2, 0
  {
    var own := [(k, VarValue(cwd, e.path, e.destination))];
    var c := InsertStr(ctx, k, VarValue(cwd, e.path, e.destination));
    assert InsertAll(ctx, own) == c;
    if e.Directory? {
      InsertAllConcat(ctx, own, VarsFrom(e, 0, cwd));
      AddFilesVars(env, moduleDir, e, c, cwd, overwrite, w);
    } else {
      assert EntryVars(k, e, cwd) == own;
    }
  }

  lemma {:induction false} AddFilesVars(env: Env, moduleDir: Path, dir: FileSystemEntry, ctx: Ctx, cwd: Path,
                                        overwrite: bool, w: World)
    requires dir.Directory?
    ensures var r := AddFiles(env, moduleDir, dir, ctx, cwd, overwrite, w);
      r.out.Next? ==> r.out.value == InsertAll(ctx, VarsFrom(dir, 0, cwd))
    decreases dir, 1, 0
  {
    if overwrite {
      var r := WriteFrom(env, moduleDir, dir, 0, cwd, w);
      if r.out.Next? {
        AddFromVars(env, moduleDir, dir, 0, ctx, cwd, overwrite, r.w);
      }
    } else {
      AddFromVars(env, moduleDir, dir, 0, ctx, cwd, overwrite, w);
    }
  }

  /** Without the flag nothing is written and nothing can fail. */
  lemma {:induction false} NoOverwriteFrom(env: Env, moduleDir: Path, dir: FileSystemEntry, i: nat, ctx: Ctx, cwd: Path, w: World)
    requires dir.Directory? && i <= |dir.files|
    ensures AddFrom(env, moduleDir, dir, i, ctx, cwd, false, w).w == w
    ensures AddFrom(env, moduleDir, dir, i, ctx, cwd, false, w).out.Next?
    decreases dir, 0, |dir.files| - i
  {
    if i < |dir.files| {
      var (k, e) := dir.files[i];
      NoOverwriteEntry(env, moduleDir, k, e, ctx, cwd, w);
      var r := AddEntry(env, moduleDir, k, e, ctx, cwd, false, w);
      NoOverwriteFrom(env, moduleDir, dir, i + 1, r.out.value, cwd, w);
    }
  }

  lemma {:induction false} NoOverwriteEntry(env: Env, moduleDir: Path, k: string, e: FileSystemEntry, ctx: Ctx, cwd: Path, w: World)
    ensures AddEntry(env, moduleDir, k, e, ctx, cwd, false, w).w == w
    ensures AddEntry(env, moduleDir, k, e, ctx, cwd, false, w).out.Next?
    decreases e, 2, 0
  {
    if e.Directory? {
      var c := InsertStr(ctx, k, VarValue(cwd, e.path, e.destination));
      NoOverwriteFrom(env, moduleDir, e, 0, c, cwd, w);
    }
  }

  lemma NoOverwrite(env: Env, moduleDir: Path, files: seq<(string, FileSystemEntry)>, ctx: Ctx, cwd: Path, w: World)
    ensures AddFilesAsVars(env, moduleDir, files, ctx, cwd, false, w) == Run(w, Next(InsertAll(ctx, VarsFrom(Root(files), 0, cwd))))
  {
    NoOverwriteFrom(env, moduleDir, Root(files), 0, ctx, cwd, w);
    AddFilesVars(env, moduleDir, Root(files), ctx, cwd, false, w);
  }

  /** The copies made with the flag: the entries of `dir` into `cwd`, then again, for each
      directory entry in turn, that directory's entries, into the same `cwd`. */
  function OverwritePlan(env: Env, moduleDir: Path, dir: FileSystemEntry, cwd: Path): seq<Action>
    requires dir.Directory?
    decreases dir, 1, 0
  {
    PlanFrom(env, moduleDir, dir, 0, cwd) + NestedPlan(env, moduleDir, dir, 0, cwd)
  }

  function NestedPlan(env: Env, moduleDir: Path, dir: FileSystemEntry, i: nat, cwd: Path): seq<Action>
    requires dir.Directory? && i <= |dir.files|
    decreases dir, 0, |dir.files| - i
  {
    if i == |dir.files| then []
    else
      var e := dir.files[i].1;
      (if e.Directory? then OverwritePlan(env, moduleDir, e, cwd) else []) + NestedPlan(env, moduleDir, dir, i + 1, cwd)
  }

  /** With the flag, the file system ends as after carrying out `OverwritePlan`, and the
      call panics exactly when one of its copies fails. */
  lemma {:induction false} OverwriteFrom(env: Env, moduleDir: Path, dir: FileSystemEntry, i: nat, ctx: Ctx, cwd: Path, w: World)
    requires dir.Directory? && i <= |dir.files|
    ensures var (f, ok) := PerformAll(w.fs, NestedPlan(env, moduleDir, dir, i, cwd));
      var r := AddFrom(env, moduleDir, dir, i, ctx, cwd, true, w);
      r.w == w.(fs := f) && (r.out.Next? <==> ok) && (!ok ==> r.out == Stop(Panic("Could not copy file")))
    decreases dir, 0, |dir.files| - i
  {
    if i < |dir.files| {
      var (k, e) := dir.files[i];
      var mine := if e.Directory? then OverwritePlan(env, moduleDir, e, cwd) else [];
      var rest := NestedPlan(env, moduleDir, dir, i + 1, cwd);
      assert NestedPlan(env, moduleDir, dir, i, cwd) == mine + rest;
      PerformAllConcat(w.fs, mine, rest);
      OverwriteEntry(env, moduleDir, k, e, ctx, cwd, w);
      var r := AddEntry(env, moduleDir, k, e, ctx, cwd, true, w);
      if r.out.Next? {
        OverwriteFrom(env, moduleDir, dir, i + 1, r.out.value, cwd, r.w);
      }
    }
  }

  lemma {:induction false} OverwriteEntry(env: Env, moduleDir: Path, k: string, e: FileSystemEntry, ctx: Ctx, cwd: Path, w: World)
    ensures var (f, ok) := PerformAll(w.fs, if e.Directory? then OverwritePlan(env, moduleDir, e, cwd) else []);
      var r := AddEntry(env, moduleDir, k, e, ctx, cwd, true, w);
      r.w == w.(fs := f) && (r.out.Next? <==> ok) && (!ok ==> r.out == Stop(Panic("Could not copy file")))
    decreases e, 2, 0
  {
    if e.Directory? {
      var c := InsertStr(ctx, k, VarValue(cwd, e.path, e.destination));
      Overwrite(env, moduleDir, e, c, cwd, w);
    }
  }

  lemma {:induction false} Overwrite(env: Env, moduleDir: Path, dir: FileSystemEntry, ctx: Ctx, cwd: Path, w: World)
    requires dir.Directory?
    ensures var (f, ok) := PerformAll(w.fs, OverwritePlan(env, moduleDir, dir, cwd));
      var r := AddFiles(env, moduleDir, dir, ctx, cwd, true, w);
      r.w == w.(fs := f) && (r.out.Next? <==> ok) && (!ok ==> r.out == Stop(Panic("Could not copy file")))
    decreases dir, 1, 0
  {
    var own := PlanFrom(env, moduleDir, dir, 0, cwd);
    var rest := NestedPlan(env, moduleDir, dir, 0, cwd);
    PerformAllConcat(w.fs, own, rest);
    WriteIsPlan(env, moduleDir, dir, 0, cwd, w);
    var r := WriteFrom(env, moduleDir, dir, 0, cwd, w);
    if r.out.Next? {
      OverwriteFrom(env, moduleDir, dir, 0, ctx, cwd, r.w);
    }
  }

  /** A directory's entries are published relative to the outer `cwd`, while they are
      copied below the directory's destination. */
  lemma NestedPlacement(env: Env, moduleDir: Path, cwd: Path, k: string, v: string, p: string,
                        k2: string, v2: string, q: string)
    ensures var dir := Root([(k, Directory(v, p, None, [(k2, File(v2, q, None))]))]);
      VarsFrom(dir, 0, cwd) == [(k, PathString(Join(cwd, p))), (k2, PathString(Join(cwd, q)))] &&
      PlanFrom(env, moduleDir, dir, 0, cwd) == [MakeDir(Join(cwd, p)), Place(Join(moduleDir, q), Join(Join(cwd, p), q))]
  {
    var d := Directory(v, p, None, [(k2, File(v2, q, None))]);
    var dir := Root([(k, d)]);
    assert VarsFrom(d, 1, cwd) == [];
    assert VarsFrom(d, 0, cwd) == [(k2, PathString(Join(cwd, q)))];
    assert VarsFrom(dir, 1, cwd) == [];
    assert PlanFrom(env, moduleDir, d, 1, Join(cwd, p)) == [];
    assert PlanFrom(env, moduleDir, dir, 1, cwd) == [];
  }

  /** The entry tree with every version replaced by `v`. */
  function Reversioned(e: FileSystemEntry, v: string): (r: FileSystemEntry)
    ensures r.Directory? == e.Directory? && r.path == e.path && r.destination == e.destination
    ensures r.Directory? ==> |r.files| == |e.files|
    decreases e
  {
    match e
    case File(_, path, destination) => File(v, path, destination)
    case Directory(_, path, destination, files) =>
      Directory(v, path, destination, seq(|files|, j requires 0 <= j < |files| => (files[j].0, Reversioned(files[j].1, v))))
  }

  /** No version affects the variables. */
  lemma {:induction false} VersionsIgnored(dir: FileSystemEntry, i: nat, cwd: Path, v: string)
    requires dir.Directory? && i <= |dir.files|
    ensures VarsFrom(Reversioned(dir, v), i, cwd) == VarsFrom(dir, i, cwd)
    decreases dir, |dir.files| - i
  {
    if i < |dir.files| {
      var e := dir.files[i].1;
      assert Reversioned(dir, v).files[i] == (dir.files[i].0, Reversioned(e, v));
      if e.Directory? {
        VersionsIgnored(e, 0, cwd, v);
      }
      VersionsIgnored(dir, i + 1, cwd, v);
    }
  }
}
