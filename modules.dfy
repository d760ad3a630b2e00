/** The catalogue helpers of src/modules/mod.rs: where a module lives, whether it needs an
    update, which modules are installed, the shell `env` file and removal. */
module Modules {
  import opened Wrappers
  import opened Strings
  import opened Models
  import opened SemVer
  import opened Serde
  import opened FileSystem
  import opened Host

  /** `<home>/<name>`: the installed copy of a module. */
  function ModuleHome(env: Env, name: string): Path {
    Join(env.home, name)
  }

  /** `<repo>/<name>`: the module in the repository. */
  function ModuleDir(env: Env, name: string): Path {
    Join(env.repo, name)
  }

  // ---- check_module_state ----

  /** The decision `check_module_state` takes for an installed module, from the two parsed
      versions, whether the descriptors are equal and whether the installed `script.sh`
      and the repository's `template.sh` exist. */
  function Classify(oldVersion: Option<Version>, newVersion: Option<Version>, sameConfig: bool,
                    script: bool, template: bool): (r: ModuleState)
    ensures r != NotInstalled
  {
    if oldVersion.Some? && newVersion.Some? && Less(oldVersion.value, newVersion.value) then NeedsUpdate(NewVersion)
    else if !sameConfig then NeedsUpdate(TomlChanged)
    else if script == template then UpToDate
    else NeedsUpdate(TemplateChanged)
  }

  /** The repository has a strictly newer release. */
  predicate Newer(oldVersion: Option<Version>, newVersion: Option<Version>) {
    oldVersion.Some? && newVersion.Some? && Less(oldVersion.value, newVersion.value)
  }

  /** A newer version wins over every other difference; without one, a changed descriptor
      (a downgrade or an unparsable version included) is a `TomlChanged`; with equal
      descriptors the module is up to date exactly when script and template are both
      present or both absent. */
  lemma ClassifyCases(o: Option<Version>, n: Option<Version>, same: bool, script: bool, template: bool)
    ensures var r := Classify(o, n, same, script, template);
      (r == NeedsUpdate(NewVersion) <==> Newer(o, n)) &&
      (r == NeedsUpdate(TomlChanged) <==> !Newer(o, n) && !same) &&
      (r == UpToDate <==> !Newer(o, n) && same && script == template) &&
      (r == NeedsUpdate(TemplateChanged) <==> !Newer(o, n) && same && script != template)
  {
  }

  /** A downgrade with a changed descriptor is reported as a changed descriptor. */
  lemma DowngradeIsTomlChanged(o: Version, n: Version, script: bool, template: bool)
    requires Less(n, o)
    ensures Classify(Some(o), Some(n), false, script, template) == NeedsUpdate(TomlChanged)
  {
    LessIsStrictTotal(o, n, o);
  }

  /** `check_module_state`: a module that is not installed is `NotInstalled` whatever the
      repository holds; otherwise both descriptors are read (a missing one panics) and
      classified. */
  function CheckModuleState(env: Env, fs: Fs, name: string): (r: Step<ModuleState>)
    ensures r == Next(NotInstalled) <==> !Exists(fs, ModuleHome(env, name))
  {
    var home := ModuleHome(env, name);
    if !Exists(fs, home) then Next(NotInstalled)
    else
      var config := ReadConfig(fs, home + ["config.toml"], Library);
      var newConfig := ReadConfig(fs, ModuleDir(env, name) + ["config.toml"], Library);
      if config.None? then Stop(Panic("No config for module found"))
      else if newConfig.None? then Stop(Panic("Cannot find module"))
      else
        Next(Classify(Parse(config.value.pluginInfo.version), Parse(newConfig.value.pluginInfo.version),
                      InfoEq(config.value, newConfig.value),
                      Exists(fs, home + ["script.sh"]), Exists(fs, ModuleDir(env, name) + ["template.sh"])))
  }

  // ---- get_list_of_installed_modules ----

  /** A bound on the length of the paths the host lists. */
  function Height(order: seq<Path>): (h: nat)
    ensures forall i :: 0 <= i < |order| ==> |order[i]| <= h
  {
    if order == [] then 0
    else var t := Height(order[1..]); if |order[0]| > t then |order[0]| else t
  }

  /** An entry listed inside `d` lies one level below it, hence below `base`. */
  lemma Child(order: seq<Path>, base: Path, d: Path, q: Path)
    requires base <= d && q in order && q != [] && Parent(q) == d
    ensures base < q && |q| == |d| + 1 && |q| <= Height(order)
  {
    assert q == d + [q[|q| - 1]];
    var i :| 0 <= i < |order| && order[i] == q;
  }

  /** `get_list_of_installed_modules(d, base)`: the scripts found below `d`, relative to `base`. */
  function Collect(fs: Fs, order: seq<Path>, base: Path, d: Path): seq<string>
    requires base <= d
    decreases Height(order) - |d|, 1, 0
  {
    if !IsDir(fs, d) then [] else CollectFrom(fs, order, base, d, Listing(fs, order, d), 0)
  }

  /** The scripts found below the entries of `d` from position `i` of its listing on. */
  function CollectFrom(fs: Fs, order: seq<Path>, base: Path, d: Path, kids: seq<Path>, i: nat): seq<string>
    requires base <= d && i <= |kids|
    requires forall j :: 0 <= j < |kids| ==> kids[j] in order && kids[j] != [] && Parent(kids[j]) == d
    decreases Height(order) - |d|, 0, |kids| - i
  {
    if i == |kids| then []
    else
      Child(order, base, d, kids[i]);
      EntryModules(fs, order, base, kids[i]) + CollectFrom(fs, order, base, d, kids, i + 1)
  }

  /** What one listed entry contributes: a directory is searched, any other entry whose path
      contains `script.sh` is listed relative to `base`. */
  function EntryModules(fs: Fs, order: seq<Path>, base: Path, q: Path): seq<string>
    requires base < q
    decreases Height(order) - |q|, 2, 0
  {
    if IsDir(fs, q) then Collect(fs, order, base, q)
    else if Contains(PathString(q), "script.sh") then [Relative(base, q)]
    else []
  }

  /** `get_list_of_installed_modules`, as the loop the program runs. */
  method GetListOfInstalledModules(m: Machine, env: Env, base: Path, d: Path) returns (out: seq<string>)
    requires base <= d
    ensures out == Collect(m.fs, env.order, base, d)
    decreases Height(env.order) - |d|
  {
    out := [];
    if !IsDir(m.fs, d) {
      return;
    }
    var kids := Listing(m.fs, env.order, d);
    for i := 0 to |kids|
      invariant out + CollectFrom(m.fs, env.order, base, d, kids, i) == Collect(m.fs, env.order, base, d)
    {
      var q := kids[i];
      Child(env.order, base, d, q);
      var found: seq<string>;
      if IsDir(m.fs, q) {
        found := GetListOfInstalledModules(m, env, base, q);
      } else if Contains(PathString(q), "script.sh") {
        found := [Relative(base, q)];
      } else {
        found := [];
      }
      assert found == EntryModules(m.fs, env.order, base, q);
      var later := CollectFrom(m.fs, env.order, base, d, kids, i + 1);
      assert CollectFrom(m.fs, env.order, base, d, kids, i) == found + later;
      assert out + (found + later) == (out + found) + later;
      out := out + found;
    }
  }

  /** In a tree every proper prefix of an entry is a directory. */
  lemma {:induction false} AncestorIsDir(fs: Fs, q: Path, a: Path)
    requires Tree(fs) && q in fs && a < q
    ensures IsDir(fs, a)
    decreases |q|
  {
    if a != Parent(q) {
      assert a < Parent(q);
      AncestorIsDir(fs, Parent(q), a);
    }
  }

  /** A listed entry of `d` is in `d`'s listing. */
  lemma {:induction false} InListing(fs: Fs, order: seq<Path>, d: Path, c: Path)
    requires c in fs && c in order && c != [] && Parent(c) == d
    ensures c in Listing(fs, order, d)
  {
    if order[0] != c {
      InListing(fs, order[1..], d, c);
    }
  }

  /** `x` is the listing of a script below `d`: a non-directory whose path contains
      `script.sh`, written relative to `base`. */
  predicate ScriptBelow(fs: Fs, base: Path, d: Path, q: Path, x: string) {
    q in fs && d < q && base <= q && !IsDir(fs, q) && Contains(PathString(q), "script.sh") && x == Relative(base, q)
  }

  lemma {:induction false} CollectFromMembers(fs: Fs, order: seq<Path>, base: Path, d: Path, kids: seq<Path>, i: nat, x: string)
    requires base <= d && i <= |kids|
    requires forall j :: 0 <= j < |kids| ==> kids[j] in order && kids[j] != [] && Parent(kids[j]) == d
    ensures x in CollectFrom(fs, order, base, d, kids, i) <==>
            exists j :: i <= j < |kids| && base < kids[j] && x in EntryModules(fs, order, base, kids[j])
    decreases |kids| - i
  {
    if i < |kids| {
      Child(order, base, d, kids[i]);
      CollectFromMembers(fs, order, base, d, kids, i + 1, x);
    }
  }

  /** Everything listed is a script below `d`. */
  lemma {:induction false} CollectSound(fs: Fs, order: seq<Path>, base: Path, d: Path, x: string)
    requires base <= d && x in Collect(fs, order, base, d)
    ensures exists q :: ScriptBelow(fs, base, d, q, x)
    decreases Height(order) - |d|
  {
    var kids := Listing(fs, order, d);
    CollectFromMembers(fs, order, base, d, kids, 0, x);
    var j :| 0 <= j < |kids| && base < kids[j] && x in EntryModules(fs, order, base, kids[j]);
    var c := kids[j];
    Child(order, base, d, c);
    if IsDir(fs, c) {
      CollectSound(fs, order, base, c, x);
      var q :| ScriptBelow(fs, base, c, q, x);
      assert ScriptBelow(fs, base, d, q, x);
    } else {
      assert ScriptBelow(fs, base, d, c, x);
    }
  }

  /** The entry of `d`'s listing on the way down to an entry `q` below `d`. */
  lemma FirstBelow(fs: Fs, order: seq<Path>, d: Path, q: Path)
    requires Tree(fs) && q in fs && d < q && forall p :: p in fs ==> p in order
    ensures var c := q[..|d| + 1];
      c in Listing(fs, order, d) && Parent(c) == d && (c != q ==> c < q && IsDir(fs, c))
  {
    var c := q[..|d| + 1];
    assert c != [] && Parent(c) == d;
    if c != q {
      AncestorIsDir(fs, q, c);
    }
    InListing(fs, order, d, c);
  }

  /** Every script below `d` is listed, when the host lists every entry of a tree. */
  lemma {:induction false} CollectComplete(fs: Fs, order: seq<Path>, base: Path, d: Path, q: Path, x: string)
    requires Tree(fs) && base <= d && forall p :: p in fs ==> p in order
    requires ScriptBelow(fs, base, d, q, x)
    ensures x in Collect(fs, order, base, d)
    decreases Height(order) - |d|
  {
    AncestorIsDir(fs, q, d);
    var kids := Listing(fs, order, d);
    var c := q[..|d| + 1];
    FirstBelow(fs, order, d, q);
    var j :| 0 <= j < |kids| && kids[j] == c;
    Child(order, base, d, c);
    if c != q {
      assert ScriptBelow(fs, base, c, q, x);
      CollectComplete(fs, order, base, c, q, x);
    }
    assert x in EntryModules(fs, order, base, kids[j]);
    CollectFromMembers(fs, order, base, d, kids, 0, x);
  }

  /** Exactly the scripts below `d` are listed, when the host lists every entry of a tree. */
  lemma CollectMembers(fs: Fs, order: seq<Path>, base: Path, d: Path, x: string)
    requires Tree(fs) && base <= d && forall q :: q in fs ==> q in order
    ensures x in Collect(fs, order, base, d) <==> exists q :: ScriptBelow(fs, base, d, q, x)
  {
    if x in Collect(fs, order, base, d) {
      CollectSound(fs, order, base, d, x);
    }
    if exists q :: ScriptBelow(fs, base, d, q, x) {
      var q :| ScriptBelow(fs, base, d, q, x);
      CollectComplete(fs, order, base, d, q, x);
    }
  }

  // ---- update_source_file ----

  /** One line of the `env` file: `source <home>/<module>`. */
  function SourceLine(home: Path, entry: string): string {
    "source " + PathString(Join(home, entry))
  }

  function SourceLines(home: Path, modules: seq<string>): (r: seq<string>)
    ensures |r| == |modules| && forall i :: 0 <= i < |modules| ==> r[i] == SourceLine(home, modules[i])
  {
    seq(|modules|, i requires 0 <= i < |modules| => SourceLine(home, modules[i]))
  }

  /** The text of the `env` file: one line per module, in listing order, joined by newlines. */
  function SourceText(home: Path, modules: seq<string>): string {
    JoinWith(SourceLines(home, modules), "\n")
  }

  /** No modules give an empty file; each further module adds a newline and its line, so
      the text never ends with a newline of its own. */
  lemma SourceTextShape(home: Path, modules: seq<string>, entry: string)
    ensures SourceText(home, []) == ""
    ensures SourceText(home, [entry]) == SourceLine(home, entry)
    ensures modules != [] ==>
      SourceText(home, modules + [entry]) == SourceText(home, modules) + "\n" + SourceLine(home, entry)
  {
    if modules != [] {
      assert SourceLines(home, modules + [entry]) == SourceLines(home, modules) + [SourceLine(home, entry)];
      JoinWithSnoc(SourceLines(home, modules), SourceLine(home, entry), "\n");
    }
  }

  /** A listed script is sourced by its own path. */
  lemma SourceLineOfListed(home: Path, q: Path)
    requires IsNamePath(q) && home <= q
    ensures SourceLine(home, Relative(home, q)) == "source " + PathString(q)
  {
    JoinRelative(home, q);
  }

  /** `update_source_file`: lists the installed modules, removes an existing `env` file (a
      failure panics) and writes the new one; whether that write succeeded is the result. */
  function UpdateSourceFile(env: Env, w: World): Run<bool> {
    var modules := Collect(w.fs, env.order, env.home, env.home);
    var envPath := env.home + ["env"];
    var (f, removed) := if Exists(w.fs, envPath) then RemoveFile(w.fs, envPath) else (w.fs, true);
    if !removed then Run(w, Stop(Panic("Cannot delete file")))
    else
      var (g, ok) := Write(f, envPath, Text(SourceText(env.home, modules)));
      Run(w.(fs := g), Next(ok))
  }

  method UpdateSourceFileMethod(m: Machine, env: Env) returns (r: Step<bool>)
    modifies m
    ensures Run(m.State(), r) == UpdateSourceFile(env, old(m.State()))
  {
    var modules := GetListOfInstalledModules(m, env, env.home, env.home);
    var envPath := env.home + ["env"];
    if Exists(m.fs, envPath) {
      var removed := m.RemoveFile(envPath);
      if !removed {
        return Stop(Panic("Cannot delete file"));
      }
    }
    var text := JoinWith(SourceLines(env.home, modules), "\n");
    var ok := m.Write(envPath, Text(text));
    return Next(ok);
  }

  /** The written file holds one `source` line per listed module. */
  lemma UpdateSourceFileWrites(env: Env, w: World)
    requires !Exists(w.fs, env.home + ["env"]) || IsFile(w.fs, env.home + ["env"])
    requires IsDir(w.fs, env.home)
    ensures var r := UpdateSourceFile(env, w);
      r.out == Next(true) &&
      r.w.fs == (w.fs - {env.home + ["env"]})[env.home + ["env"] :=
                  FileNode(Text(SourceText(env.home, Collect(w.fs, env.order, env.home, env.home))))]
  {
    var envPath := env.home + ["env"];
    assert Parent(envPath) == env.home;
  }

  // ---- remove ----

  /** `remove`: a module that is not installed exits with status 1; otherwise its directory
      is removed, and a failure panics. */
  function Remove(env: Env, name: string, w: World): Run<()> {
    var home := ModuleHome(env, name);
    if !Exists(w.fs, home) then Run(w, Stop(Exit(1)))
    else
      var (f, ok) := RemoveDirAll(w.fs, home);
      if !ok then Run(w, Stop(Panic("Could not remove directory"))) else Run(w.(fs := f), Next(()))
  }

  method RemoveMethod(m: Machine, env: Env, name: string) returns (r: Step<()>)
    modifies m
    ensures Run(m.State(), r) == Remove(env, name, old(m.State()))
  {
    var home := ModuleHome(env, name);
    if !Exists(m.fs, home) {
      return Stop(Exit(1));
    }
    var ok := m.RemoveDirAll(home);
    if !ok {
      return Stop(Panic("Could not remove directory"));
    }
    return Next(());
  }

  /** Removing a module that is not installed changes nothing and exits with 1; removing an
      installed one deletes exactly its subtree and keeps the file system a tree. */
  lemma RemoveEffect(env: Env, name: string, w: World)
    requires Tree(w.fs)
    ensures var home := ModuleHome(env, name); var r := Remove(env, name, w);
      (!Exists(w.fs, home) ==> r == Run(w, Stop(Exit(1)))) &&
      (home != [] && IsDir(w.fs, home) ==>
         r.out == Next(()) && r.w.input == w.input && r.w.cargo == w.cargo && Tree(r.w.fs) &&
         (forall q :: q in r.w.fs <==> q in w.fs && !(home <= q)) &&
         forall q :: q in r.w.fs ==> r.w.fs[q] == w.fs[q])
  {
    var home := ModuleHome(env, name);
    if home != [] && IsDir(w.fs, home) {
      RemoveDirAllSubtree(w.fs, home);
      RemoveDirAllTree(w.fs, home);
    }
  }
}
