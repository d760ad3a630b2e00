/** `install` (src/modules/install.rs) and `update` (src/modules/update.rs). The two call
    each other through a module's internal dependencies, so they are defined together; the
    recursion depth is the parameter `fuel`, and running out of it is the program's stack
    overflow. */
module Lifecycle {
  import opened Wrappers
  import opened IndexMaps
  import opened Models
  import opened Serde
  import opened FileSystem
  import opened Prompts
  import opened Context
  import opened Host
  import opened Modules
  import opened InstallSteps
  import opened Template

  /** The placeholders of a descriptor as they stand after a loop over them, the context
      built so far and the answers left. */
  datatype Collected = Collected(ph: seq<(string, EntryType)>, ctx: Ctx, rest: Input)

  /** A module's internal dependencies, in order. */
  function Deps(p: PluginInfo): seq<string> {
    p.pluginInfo.internalDependencies.GetOr([])
  }

  /** Replacing the value under the `i`th key in place keeps the keys. */
  lemma Replaced(ph: seq<(string, EntryType)>, i: nat, v: EntryType)
    requires i < |ph|
    ensures Keys(ph[i := (ph[i].0, v)]) == Keys(ph)
  {
    var q := ph[i := (ph[i].0, v)];
    assert |Keys(q)| == |Keys(ph)|;
    assert forall j :: 0 <= j < |ph| ==> Keys(q)[j] == Keys(ph)[j];
  }

  // ---- install ----

  /** What is left of `install`'s placeholder loop from entry `i` on: each placeholder is
      read under its own key, the result is published under that key and replaces the
      prototype in place. */
  function FillFrom(tilde: string -> string, ph: seq<(string, EntryType)>, i: nat, ctx: Ctx, inp: Input): (r: Step<Collected>)
    requires i <= |ph|
    ensures r.Next? ==> Keys(r.value.ph) == Keys(ph) && forall j :: 0 <= j < i ==> r.value.ph[j] == ph[j]
    decreases |ph| - i
  {
    if i == |ph| then Next(Collected(ph, ctx, inp))
    else
      var (k, e) := ph[i];
      var x := Read(tilde, k, e, ctx, inp);
      if x.Stop? then Stop(x.halt)
      else
        Replaced(ph, i, x.value.entry);
        FillFrom(tilde, ph[i := (k, x.value.entry)], i + 1, Context.Insert(x.value.ctx, k, x.value.entry), x.value.rest)
  }

  /** `install`'s placeholder loop, as the program runs it. */
  method FillPlaceholders(tilde: string -> string, placeholders: seq<(string, EntryType)>, ctx: Ctx, inp: Input)
    returns (r: Step<Collected>)
    ensures r == FillFrom(tilde, placeholders, 0, ctx, inp)
  {
    var ph, c, rest := placeholders, ctx, inp;
    for i := 0 to |ph|
      invariant |ph| == |placeholders|
      invariant FillFrom(tilde, ph, i, c, rest) == FillFrom(tilde, placeholders, 0, ctx, inp)
    {
      var x := Read(tilde, ph[i].0, ph[i].1, c, rest);
      if x.Stop? {
        return Stop(x.halt);
      }
      c := Context.Insert(x.value.ctx, ph[i].0, x.value.entry);
      rest := x.value.rest;
      ph := ph[i := (ph[i].0, x.value.entry)];
    }
    return Next(Collected(ph, c, rest));
  }

  /** `install`: a module with a home is updated instead (silently, without failing);
      otherwise the module must be in the repository with a template and a descriptor, its
      dependencies are installed first, and the rest is `InstallRest`. */
  function Install(env: Env, fuel: nat, name: string, w: World): Run<()>
    decreases fuel, 4
  {
    if fuel == 0 then Run(w, Stop(StackOverflow))
    else if Exists(w.fs, ModuleHome(env, name)) then Update(env, fuel, name, false, true, w)
    else
      var moduleDir := ModuleDir(env, name);
      if !Exists(w.fs, moduleDir) then Run(w, Stop(Exit(1)))
      else
        var template := ReadText(w.fs, moduleDir + ["template.sh"]);
        var toml := ReadConfig(w.fs, moduleDir + ["config.toml"], Library);
        if template.None? then Run(w, Stop(Panic("Could not parse mustache template")))
        else if toml.None? then Run(w, Stop(Panic("Cannot find TOML")))
        else InstallFound(env, fuel, name, template.value, toml.value, w)
  }

  /** `install` of a module found in the repository: its dependencies, then `InstallRest`. */
  function InstallFound(env: Env, fuel: nat, name: string, template: string, toml: PluginInfo, w: World): Run<()>
    requires fuel > 0
    decreases fuel, 2
  {
    var d := InstallDeps(env, fuel - 1, Deps(toml), 0, w);
    if d.out.Stop? then d else InstallRest(env, name, template, toml, d.w)
  }

  /** The dependency loop of `install` from dependency `i` on; `fuel` is what is left for
      the calls it makes. */
  function InstallDeps(env: Env, fuel: nat, deps: seq<string>, i: nat, w: World): Run<()>
    requires i <= |deps|
    decreases fuel + 1, 1, |deps| - i
  {
    if i == |deps| then Run(w, Next(()))
    else
      var r := Install(env, fuel, deps[i], w);
      if r.out.Stop? then r else InstallDeps(env, fuel, deps, i + 1, r.w)
  }

  /** `install` after its dependencies: the placeholders are filled, the home is created (a
      failure is ignored), and `InstallFinish` does the rest with the filled descriptor. */
  function InstallRest(env: Env, name: string, template: string, toml: PluginInfo, w: World): Run<()> {
    var f := FillFrom(env.tilde, toml.placeholders.GetOr([]), 0, Empty, w.input);
    if f.Stop? then Run(w, Stop(f.halt))
    else
      var rec := if toml.placeholders.Some? then toml.(placeholders := Some(f.value.ph)) else toml;
      var home := ModuleHome(env, name);
      InstallFinish(env, name, template, rec, f.value.ctx, w.(fs := CreateDirAll(w.fs, home).0, input := f.value.rest))
  }

  /** The last steps of `install`: the supporting files are copied into the home and
      published, a Rust package is built, and the rendered script and the record are written. */
  function InstallFinish(env: Env, name: string, template: string, rec: PluginInfo, ctx: Ctx, w: World): Run<()> {
    var moduleDir := ModuleDir(env, name);
    var a := if rec.supportingFiles.Some? then AddFilesAsVars(env, moduleDir, rec.supportingFiles.value, ctx, ModuleHome(env, name), true, w)
             else Run(w, Next(ctx));
    if a.out.Stop? then Run(a.w, Stop(a.out.halt))
    else
      var c := Cargo(moduleDir, rec.pluginInfo.pluginType, a.w);
      if c.out.Stop? then c
      else Run(WriteFile(env, name, rec, env.render(template, a.out.value), moduleDir, c.w), Next(()))
  }

  // ---- update ----

  /** The three descriptors `update` reads and the module's template. */
  datatype Loaded = Loaded(template: string, data: PluginInfo, oldConfig: PluginInfo, newConfig: PluginInfo)

  /** The reads at the start of `update`, each of which panics when it fails; `d` is the
      dialect the descriptors are decoded in. */
  function Load(env: Env, name: string, fs: Fs, d: Dialect): (r: Step<Loaded>)
    ensures r.Stop? ==> r.halt.Panic?
  {
    var home := ModuleHome(env, name);
    var moduleDir := ModuleDir(env, name);
    var template := ReadText(fs, moduleDir + ["template.sh"]);
    var data := ReadConfig(fs, home + ["data.toml"], d);
    var oldConfig := ReadConfig(fs, home + ["config.toml"], d);
    var newConfig := ReadConfig(fs, moduleDir + ["config.toml"], d);
    if template.None? then Stop(Panic("Could not parse mustache template"))
    else if data.None? then Stop(Panic("Cannot find TOML"))
    else if oldConfig.None? then Stop(Panic("Cannot find old config (maybe you did update terminal-magic)"))
    else if newConfig.None? then Stop(Panic("module config not found"))
    else Next(Loaded(template.value, data.value, oldConfig.value, newConfig.value))
  }

  /** What is left of the reconciling loop from schema entry `i` on: a key whose value is
      stored in the record keeps that value, any other key is read from its new prototype;
      `acc` is the new placeholder map built so far. */
  function MergeFrom(tilde: string -> string, stored: Option<seq<(string, EntryType)>>, schema: seq<(string, EntryType)>,
                     i: nat, acc: seq<(string, EntryType)>, ctx: Ctx, inp: Input): (r: Step<Collected>)
    requires i <= |schema|
    decreases |schema| - i
  {
    if i == |schema| then Next(Collected(acc, ctx, inp))
    else
      var (k, e) := schema[i];
      var v := if stored.Some? then Get(stored.value, k) else None;
      if v.Some? then MergeFrom(tilde, stored, schema, i + 1, IndexMaps.Insert(acc, k, v.value), ctx, inp)
      else
        var x := Read(tilde, k, e, ctx, inp);
        if x.Stop? then Stop(x.halt)
        else MergeFrom(tilde, stored, schema, i + 1, IndexMaps.Insert(acc, k, x.value.entry), x.value.ctx, x.value.rest)
  }

  /** The record `update` goes on with, the context and the answers left. */
  datatype Reconciled = Reconciled(info: PluginInfo, ctx: Ctx, rest: Input)

  /** `update`'s handling of a changed descriptor: when the placeholder schema changed too,
      the record's placeholders are rebuilt over the new schema (or dropped with it); the
      record always takes the repository's package section. */
  function Reconcile(tilde: string -> string, data: PluginInfo, oldConfig: PluginInfo, newConfig: PluginInfo, inp: Input): (r: Step<Reconciled>)
    ensures r.Next? ==> r.value.info.pluginInfo == newConfig.pluginInfo && r.value.info.supportingFiles == data.supportingFiles
  {
    if !InfoEq(oldConfig, newConfig) && !OptFieldsEq(oldConfig.placeholders, newConfig.placeholders) then
      if newConfig.placeholders.None? then
        Next(Reconciled(data.(placeholders := None, pluginInfo := newConfig.pluginInfo), Empty, inp))
      else
        var m := MergeFrom(tilde, data.placeholders, newConfig.placeholders.value, 0, [], Empty, inp);
        if m.Stop? then Stop(m.halt)
        else Next(Reconciled(data.(placeholders := Some(m.value.ph), pluginInfo := newConfig.pluginInfo), m.value.ctx, m.value.rest))
    else Next(Reconciled(data.(pluginInfo := newConfig.pluginInfo), Empty, inp))
  }

  /** The reconciling step, as the program runs it. */
  method ReconcileMethod(tilde: string -> string, data: PluginInfo, oldConfig: PluginInfo, newConfig: PluginInfo, inp: Input)
    returns (r: Step<Reconciled>)
    ensures r == Reconcile(tilde, data, oldConfig, newConfig, inp)
  {
    var toml := data;
    var c, rest := Empty, inp;
    if !InfoEq(oldConfig, newConfig) && !OptFieldsEq(oldConfig.placeholders, newConfig.placeholders) {
      if newConfig.placeholders.Some? {
        var schema := newConfig.placeholders.value;
        var updateMap: seq<(string, EntryType)> := [];
        for i := 0 to |schema|
          invariant MergeFrom(tilde, data.placeholders, schema, i, updateMap, c, rest) == MergeFrom(tilde, data.placeholders, schema, 0, [], Empty, inp)
        {
          var (k, e) := schema[i];
          var v := if data.placeholders.Some? then Get(data.placeholders.value, k) else None;
          if v.Some? {
            updateMap := IndexMaps.Insert(updateMap, k, v.value);
          } else {
            var x := Read(tilde, k, e, c, rest);
            if x.Stop? {
              return Stop(x.halt);
            }
            c, rest := x.value.ctx, x.value.rest;
            updateMap := IndexMaps.Insert(updateMap, k, x.value.entry);
          }
        }
        toml := toml.(placeholders := Some(updateMap));
      } else {
        toml := toml.(placeholders := None);
      }
    }
    toml := toml.(pluginInfo := newConfig.pluginInfo);
    return Next(Reconciled(toml, c, rest));
  }

  /** One placeholder of `update`'s growth loop. A list that the record already held may grow:
      unless silent, "Add new elements" is asked; on yes, and when the old schema has the key,
      new elements are read from the list's own first element and appended (the old schema
      must exist, the list must not be empty); with no growth its short names are published.
      Any other placeholder is left as it is. */
  function GrowEntry(tilde: string -> string, silent: bool, stored: Option<seq<(string, EntryType)>>,
                     oldSchema: Option<seq<(string, EntryType)>>, k: string, v: EntryType, ctx: Ctx, inp: Input): (r: Step<Resolved>)
    ensures r.Next? ==> r.value.entry.Array? == v.Array?
  {
    if !(stored.Some? && Get(stored.value, k).Some?) || !v.Array? then Next(Resolved(ctx, v, inp))
    else
      var b := if silent then Next((false, inp)) else BooleanPrompt(inp);
      if b.Stop? then Stop(b.halt)
      else if !b.value.0 then Next(Resolved(InsertStr(ctx, k + "_shortNames", ShortNames(v.items)), v, b.value.1))
      else if oldSchema.None? then Stop(Panic("called `Option::unwrap()` on a `None` value"))
      else if Get(oldSchema.value, k).None? then Next(Resolved(ctx, v, b.value.1))
      else if v.items == [] then Stop(Panic("index out of bounds"))
      else
        var x := ReadArrayLoop(tilde, k, v.items[0], ctx, b.value.1, []);
        if x.Stop? then Stop(x.halt)
        else if !x.value.entry.Array? then Stop(Panic("internal error: entered unreachable code: read_array MUST always return an EntryType::Array"))
        else Next(Resolved(x.value.ctx, Array(v.items + x.value.entry.items), x.value.rest))
  }

  /** What is left of the growth loop from entry `i` on: each entry is grown in place and then
      published under its key. */
  function GrowFrom(tilde: string -> string, silent: bool, stored: Option<seq<(string, EntryType)>>,
                    oldSchema: Option<seq<(string, EntryType)>>, ph: seq<(string, EntryType)>, i: nat, ctx: Ctx, inp: Input): (r: Step<Collected>)
    requires i <= |ph|
    ensures r.Next? ==> Keys(r.value.ph) == Keys(ph) && forall j :: 0 <= j < i ==> r.value.ph[j] == ph[j]
    decreases |ph| - i
  {
    if i == |ph| then Next(Collected(ph, ctx, inp))
    else
      var (k, v) := ph[i];
      var g := GrowEntry(tilde, silent, stored, oldSchema, k, v, ctx, inp);
      if g.Stop? then Stop(g.halt)
      else
        Replaced(ph, i, g.value.entry);
        GrowFrom(tilde, silent, stored, oldSchema, ph[i := (k, g.value.entry)], i + 1,
                 Context.Insert(g.value.ctx, k, g.value.entry), g.value.rest)
  }

  /** The growth loop, as the program runs it. */
  method Grow(tilde: string -> string, silent: bool, stored: Option<seq<(string, EntryType)>>,
              oldSchema: Option<seq<(string, EntryType)>>, placeholders: seq<(string, EntryType)>, ctx: Ctx, inp: Input)
    returns (r: Step<Collected>)
    ensures r == GrowFrom(tilde, silent, stored, oldSchema, placeholders, 0, ctx, inp)
  {
    var ph, c, rest := placeholders, ctx, inp;
    for i := 0 to |ph|
      invariant |ph| == |placeholders|
      invariant GrowFrom(tilde, silent, stored, oldSchema, ph, i, c, rest) == GrowFrom(tilde, silent, stored, oldSchema, placeholders, 0, ctx, inp)
    {
      var (k, v) := ph[i];
      var g := GrowEntry(tilde, silent, stored, oldSchema, k, v, c, rest);
      if g.Stop? {
        return Stop(g.halt);
      }
      ph := ph[i := (k, g.value.entry)];
      c := Context.Insert(g.value.ctx, k, g.value.entry);
      rest := g.value.rest;
    }
    return Next(Collected(ph, c, rest));
  }

  /** `update`: a module without a home or missing from the repository is skipped, or exits
      with status 1 when failures are fatal; otherwise the descriptors are loaded and
      reconciled, the dependencies brought up to date, and the rest is `UpdateRest`. */
  function Update(env: Env, fuel: nat, name: string, fail: bool, silent: bool, w: World): Run<()>
    decreases fuel, 3
  {
    if fuel == 0 then Run(w, Stop(StackOverflow))
    else if !Exists(w.fs, ModuleHome(env, name)) || !Exists(w.fs, ModuleDir(env, name)) then
      Run(w, if fail then Stop(Exit(1)) else Next(()))
    else
      var l := Load(env, name, w.fs, Library);
      if l.Stop? then Run(w, Stop(l.halt))
      else UpdateLoaded(env, fuel, name, silent, l.value, w)
  }

  /** `update` once its descriptors are loaded: the reconciling step, the dependencies, then
      `UpdateRest`. */
  function UpdateLoaded(env: Env, fuel: nat, name: string, silent: bool, l: Loaded, w: World): Run<()>
    requires fuel > 0
    decreases fuel, 2
  {
    var rc := Reconcile(env.tilde, l.data, l.oldConfig, l.newConfig, w.input);
    if rc.Stop? then Run(w, Stop(rc.halt))
    else
      var d := UpdateDeps(env, fuel - 1, Deps(rc.value.info), 0, w.(input := rc.value.rest));
      if d.out.Stop? then d else UpdateRest(env, name, silent, l, rc.value.info, rc.value.ctx, d.w)
  }

  /** The dependency loop of `update` from dependency `i` on: a dependency without a home is
      installed, one that needs an update is updated silently, one up to date is left alone. */
  function UpdateDeps(env: Env, fuel: nat, deps: seq<string>, i: nat, w: World): Run<()>
    requires i <= |deps|
    decreases fuel + 1, 1, |deps| - i
  {
    if i == |deps| then Run(w, Next(()))
    else
      var r := UpdateDep(env, fuel, deps[i], w);
      if r.out.Stop? then r else UpdateDeps(env, fuel, deps, i + 1, r.w)
  }

  /** One dependency of `update`, by its state. */
  function UpdateDep(env: Env, fuel: nat, dep: string, w: World): Run<()>
    decreases fuel + 1, 0
  {
    var s := CheckModuleState(env, w.fs, dep);
    if s.Stop? then Run(w, Stop(s.halt))
    else if s.value.NotInstalled? then Install(env, fuel, dep, w)
    else if s.value.UpToDate? then Run(w, Next(()))
    else Update(env, fuel, dep, false, true, w)
  }

  /** `update` after its dependencies: the placeholders grow, and `UpdateFinish` does the rest. */
  function UpdateRest(env: Env, name: string, silent: bool, l: Loaded, info: PluginInfo, ctx: Ctx, w: World): Run<()> {
    var g := GrowFrom(env.tilde, silent, l.data.placeholders, l.oldConfig.placeholders, info.placeholders.GetOr([]), 0, ctx, w.input);
    if g.Stop? then Run(w, Stop(g.halt))
    else
      var rec := if info.placeholders.Some? then info.(placeholders := Some(g.value.ph)) else info;
      UpdateFinish(env, name, l.template, rec, l.newConfig, g.value.ctx, w.(input := g.value.rest))
  }

  /** The last steps of `update`: "Update supporting files?" decides whether the repository's
      supporting files are copied while they are published; the script is rendered; the old
      script must exist; and only a yes to "Update?" builds a Rust package and writes the new
      script and record. */
  function UpdateFinish(env: Env, name: string, template: string, rec: PluginInfo, newConfig: PluginInfo, ctx: Ctx, w: World): Run<()> {
    var p := BooleanPrompt(w.input);
    if p.Stop? then Run(w, Stop(p.halt))
    else
      var w1 := w.(input := p.value.1);
      var a := if newConfig.supportingFiles.Some? then
                 AddFilesAsVars(env, ModuleDir(env, name), newConfig.supportingFiles.value, ctx, ModuleHome(env, name), p.value.0, w1)
               else Run(w1, Next(ctx));
      if a.out.Stop? then Run(a.w, Stop(a.out.halt))
      else Commit(env, name, rec, newConfig.pluginInfo.pluginType, env.render(template, a.out.value), a.w)
  }

  /** The confirmation at the end of `update`. */
  function Commit(env: Env, name: string, rec: PluginInfo, t: PluginType, script: string, w: World): Run<()> {
    if ReadText(w.fs, ModuleHome(env, name) + ["script.sh"]).None? then Run(w, Stop(Panic("Old script was not existent")))
    else
      var q := BooleanPrompt(w.input);
      if q.Stop? then Run(w, Stop(q.halt))
      else
        var w1 := w.(input := q.value.1);
        if !q.value.0 then Run(w1, Next(()))
        else
          var c := Cargo(ModuleDir(env, name), t, w1);
          if c.out.Stop? then c
          else Run(WriteFile(env, name, rec, script, ModuleDir(env, name), c.w), Next(()))
  }

  // ---- The program's run ----

  /** `install`, as the program runs it. */
  method InstallMethod(m: Machine, env: Env, fuel: nat, name: string) returns (r: Step<()>)
    modifies m
    ensures Run(m.State(), r) == Install(env, fuel, name, old(m.State()))
    decreases fuel, 4
  {
    if fuel == 0 {
      return Stop(StackOverflow);
    }
    if Exists(m.fs, ModuleHome(env, name)) {
      r := UpdateMethod(m, env, fuel, name, false, true);
      return;
    }
    var moduleDir := ModuleDir(env, name);
    if !Exists(m.fs, moduleDir) {
      return Stop(Exit(1));
    }
    var template := ReadText(m.fs, moduleDir + ["template.sh"]);
    if template.None? {
      return Stop(Panic("Could not parse mustache template"));
    }
    var toml := ReadConfig(m.fs, moduleDir + ["config.toml"], Library);
    if toml.None? {
      return Stop(Panic("Cannot find TOML"));
    }
    r := InstallFoundMethod(m, env, fuel, name, template.value, toml.value);
  }

  method InstallFoundMethod(m: Machine, env: Env, fuel: nat, name: string, template: string, toml: PluginInfo) returns (r: Step<()>)
    requires fuel > 0
    modifies m
    ensures Run(m.State(), r) == InstallFound(env, fuel, name, template, toml, old(m.State()))
    decreases fuel, 2
  {
    var depth :| depth + 1 == fuel;
    r := InstallDepsMethod(m, env, depth, Deps(toml));
    if r.Stop? {
      return;
    }
    r := InstallRestMethod(m, env, name, template, toml);
  }

  /** The dependency loop of `install`. */
  method InstallDepsMethod(m: Machine, env: Env, fuel: nat, deps: seq<string>) returns (r: Step<()>)
    modifies m
    ensures Run(m.State(), r) == InstallDeps(env, fuel, deps, 0, old(m.State()))
    decreases fuel + 1, 1
  {
    for i := 0 to |deps|
      invariant InstallDeps(env, fuel, deps, i, m.State()) == InstallDeps(env, fuel, deps, 0, old(m.State()))
    {
      var s := InstallMethod(m, env, fuel, deps[i]);
      if s.Stop? {
        return s;
      }
    }
    return Next(());
  }

  method InstallRestMethod(m: Machine, env: Env, name: string, template: string, toml: PluginInfo) returns (r: Step<()>)
    modifies m
    ensures Run(m.State(), r) == InstallRest(env, name, template, toml, old(m.State()))
  {
    var f := FillPlaceholders(env.tilde, toml.placeholders.GetOr([]), Empty, m.input);
    if f.Stop? {
      return Stop(f.halt);
    }
    m.Answered(f.value.rest);
    var rec := if toml.placeholders.Some? then toml.(placeholders := Some(f.value.ph)) else toml;
    var home := ModuleHome(env, name);
    var _ := m.CreateDirAll(home);
    var ctx := f.value.ctx;
    if rec.supportingFiles.Some? {
      var a := AddFilesAsVarsMethod(m, env, ModuleDir(env, name), rec.supportingFiles.value, ctx, home, true);
      if a.Stop? {
        return Stop(a.halt);
      }
      ctx := a.value;
    }
    var c := CargoMethod(m, ModuleDir(env, name), rec.pluginInfo.pluginType);
    if c.Stop? {
      return c;
    }
    WriteFileMethod(m, env, name, rec, env.render(template, ctx), ModuleDir(env, name));
    return Next(());
  }

  /** `update`, as the program runs it. */
  method UpdateMethod(m: Machine, env: Env, fuel: nat, name: string, fail: bool, silent: bool) returns (r: Step<()>)
    modifies m
    ensures Run(m.State(), r) == Update(env, fuel, name, fail, silent, old(m.State()))
    decreases fuel, 3
  {
    if fuel == 0 {
      return Stop(StackOverflow);
    }
    if !Exists(m.fs, ModuleHome(env, name)) || !Exists(m.fs, ModuleDir(env, name)) {
      return if fail then Stop(Exit(1)) else Next(());
    }
    var l := Load(env, name, m.fs, Library);
    if l.Stop? {
      return Stop(l.halt);
    }
    r := UpdateLoadedMethod(m, env, fuel, name, silent, l.value);
  }

  method UpdateLoadedMethod(m: Machine, env: Env, fuel: nat, name: string, silent: bool, l: Loaded) returns (r: Step<()>)
    requires fuel > 0
    modifies m
    ensures Run(m.State(), r) == UpdateLoaded(env, fuel, name, silent, l, old(m.State()))
    decreases fuel, 2
  {
    var rc := ReconcileMethod(env.tilde, l.data, l.oldConfig, l.newConfig, m.input);
    if rc.Stop? {
      return Stop(rc.halt);
    }
    m.Answered(rc.value.rest);
    var depth :| depth + 1 == fuel;
    r := UpdateDepsMethod(m, env, depth, Deps(rc.value.info));
    if r.Stop? {
      return;
    }
    r := UpdateRestMethod(m, env, name, silent, l, rc.value.info, rc.value.ctx);
  }

  /** The dependency loop of `update`. */
  method UpdateDepsMethod(m: Machine, env: Env, fuel: nat, deps: seq<string>) returns (r: Step<()>)
    modifies m
    ensures Run(m.State(), r) == UpdateDeps(env, fuel, deps, 0, old(m.State()))
    decreases fuel + 1, 1
  {
    for i := 0 to |deps|
      invariant UpdateDeps(env, fuel, deps, i, m.State()) == UpdateDeps(env, fuel, deps, 0, old(m.State()))
    {
      var s := UpdateDepMethod(m, env, fuel, deps[i]);
      if s.Stop? {
        return s;
      }
    }
    return Next(());
  }

  method UpdateDepMethod(m: Machine, env: Env, fuel: nat, dep: string) returns (r: Step<()>)
    modifies m
    ensures Run(m.State(), r) == UpdateDep(env, fuel, dep, old(m.State()))
    decreases fuel + 1, 0
  {
    var s := CheckModuleState(env, m.fs, dep);
    if s.Stop? {
      return Stop(s.halt);
    }
    if s.value.NotInstalled? {
      r := InstallMethod(m, env, fuel, dep);
    } else if s.value.UpToDate? {
      r := Next(());
    } else {
      r := UpdateMethod(m, env, fuel, dep, false, true);
    }
  }

  method UpdateRestMethod(m: Machine, env: Env, name: string, silent: bool, l: Loaded, info: PluginInfo, ctx: Ctx)
    returns (r: Step<()>)
    modifies m
    ensures Run(m.State(), r) == UpdateRest(env, name, silent, l, info, ctx, old(m.State()))
  {
    var g := Grow(env.tilde, silent, l.data.placeholders, l.oldConfig.placeholders, info.placeholders.GetOr([]), ctx, m.input);
    if g.Stop? {
      return Stop(g.halt);
    }
    m.Answered(g.value.rest);
    var rec := if info.placeholders.Some? then info.(placeholders := Some(g.value.ph)) else info;
    var p := BooleanPrompt(m.input);
    if p.Stop? {
      return Stop(p.halt);
    }
    m.Answered(p.value.1);
    var c := g.value.ctx;
    if l.newConfig.supportingFiles.Some? {
      var a := AddFilesAsVarsMethod(m, env, ModuleDir(env, name), l.newConfig.supportingFiles.value, c, ModuleHome(env, name), p.value.0);
      if a.Stop? {
        return Stop(a.halt);
      }
      c := a.value;
    }
    r := CommitMethod(m, env, name, rec, l.newConfig.pluginInfo.pluginType, env.render(l.template, c));
  }

  method CommitMethod(m: Machine, env: Env, name: string, rec: PluginInfo, t: PluginType, script: string) returns (r: Step<()>)
    modifies m
    ensures Run(m.State(), r) == Commit(env, name, rec, t, script, old(m.State()))
  {
    if ReadText(m.fs, ModuleHome(env, name) + ["script.sh"]).None? {
      return Stop(Panic("Old script was not existent"));
    }
    var q := BooleanPrompt(m.input);
    if q.Stop? {
      return Stop(q.halt);
    }
    m.Answered(q.value.1);
    if !q.value.0 {
      return Next(());
    }
    r := CargoMethod(m, ModuleDir(env, name), t);
    if r.Stop? {
      return;
    }
    WriteFileMethod(m, env, name, rec, script, ModuleDir(env, name));
  }

  // ---- Properties ----

  /** `install`'s placeholder loop resolves every placeholder to a value of its prototype's
      shape, keeping the keys in their order. */
  lemma {:induction false} FillConforms(tilde: string -> string, ph: seq<(string, EntryType)>, i: nat, ctx: Ctx, inp: Input)
    requires i <= |ph| && forall j :: i <= j < |ph| ==> WellFormed(ph[j].1)
    ensures var r := FillFrom(tilde, ph, i, ctx, inp);
      r.Next? ==> Keys(r.value.ph) == Keys(ph) && forall j :: i <= j < |ph| ==> Conforms(ph[j].1, r.value.ph[j].1)
    decreases |ph| - i
  {
    if i < |ph| {
      var (k, e) := ph[i];
      var x := Read(tilde, k, e, ctx, inp);
      ReadConforms(tilde, k, e, ctx, inp);
      if x.Next? {
        var q := ph[i := (k, x.value.entry)];
        FillConforms(tilde, q, i + 1, Context.Insert(x.value.ctx, k, x.value.entry), x.value.rest);
      }
    }
  }

  /** One dependency of `update`: one without a home is installed; an installed one is never
      installed again: it is left alone when up to date and otherwise updated silently with
      failures not fatal, and a missing installed descriptor panics. */
  lemma UpdateDepDispatch(env: Env, fuel: nat, dep: string, w: World)
    ensures var r := UpdateDep(env, fuel, dep, w);
      var s := CheckModuleState(env, w.fs, dep);
      (!Exists(w.fs, ModuleHome(env, dep)) ==> r == Install(env, fuel, dep, w)) &&
      (Exists(w.fs, ModuleHome(env, dep)) ==>
         (s == Next(UpToDate) ==> r == Run(w, Next(()))) &&
         (s.Next? && s.value.NeedsUpdate? ==> r == Update(env, fuel, dep, false, true, w)) &&
         (ReadConfig(w.fs, ModuleHome(env, dep) + ["config.toml"], Library).None? ==>
            r == Run(w, Stop(Panic("No config for module found")))))
  {
  }

  /** A module that is not installed and lists itself as its first dependency is installed
      again and again until the stack overflows, whatever the depth available. */
  lemma {:induction false} SelfDependency(env: Env, fuel: nat, name: string, w: World)
    requires !Exists(w.fs, ModuleHome(env, name)) && Exists(w.fs, ModuleDir(env, name))
    requires ReadText(w.fs, ModuleDir(env, name) + ["template.sh"]).Some?
    requires var t := ReadConfig(w.fs, ModuleDir(env, name) + ["config.toml"], Library);
      t.Some? && Deps(t.value) != [] && Deps(t.value)[0] == name
    ensures Install(env, fuel, name, w) == Run(w, Stop(StackOverflow))
    decreases fuel
  {
    if fuel > 0 {
      var depth :| depth + 1 == fuel;
      SelfDependency(env, depth, name, w);
      SelfDependencyStep(env, fuel, depth, name, w);
    }
  }

  lemma SelfDependencyStep(env: Env, fuel: nat, depth: nat, name: string, w: World)
    requires fuel == depth + 1
    requires !Exists(w.fs, ModuleHome(env, name)) && Exists(w.fs, ModuleDir(env, name))
    requires ReadText(w.fs, ModuleDir(env, name) + ["template.sh"]).Some?
    requires var t := ReadConfig(w.fs, ModuleDir(env, name) + ["config.toml"], Library);
      t.Some? && Deps(t.value) != [] && Deps(t.value)[0] == name
    requires Install(env, depth, name, w) == Run(w, Stop(StackOverflow))
    ensures Install(env, fuel, name, w) == Run(w, Stop(StackOverflow))
  {
    var template := ReadText(w.fs, ModuleDir(env, name) + ["template.sh"]).value;
    var t := ReadConfig(w.fs, ModuleDir(env, name) + ["config.toml"], Library).value;
    InstallOfFound(env, fuel, name, w);
    FirstDependencyHalts(env, depth, Deps(t), w);
    InstallFoundHalts(env, fuel, depth, name, template, t, w);
  }

  /** `InstallFound` whose dependency loop halts halts the same way. */
  lemma InstallFoundHalts(env: Env, fuel: nat, depth: nat, name: string, template: string, toml: PluginInfo, w: World)
    requires fuel == depth + 1 && InstallDeps(env, depth, Deps(toml), 0, w).out.Stop?
    ensures InstallFound(env, fuel, name, template, toml, w) == InstallDeps(env, depth, Deps(toml), 0, w)
  {
  }

  /** A dependency loop whose first dependency halts halts the same way. */
  lemma FirstDependencyHalts(env: Env, fuel: nat, deps: seq<string>, w: World)
    requires deps != [] && Install(env, fuel, deps[0], w).out.Stop?
    ensures InstallDeps(env, fuel, deps, 0, w) == Install(env, fuel, deps[0], w)
  {
  }

  /** `install` of a module found in the repository, with a template and a descriptor, and
      not yet installed, is `InstallFound`. */
  lemma InstallOfFound(env: Env, fuel: nat, name: string, w: World)
    requires fuel > 0
    requires !Exists(w.fs, ModuleHome(env, name)) && Exists(w.fs, ModuleDir(env, name))
    requires ReadText(w.fs, ModuleDir(env, name) + ["template.sh"]).Some?
    requires ReadConfig(w.fs, ModuleDir(env, name) + ["config.toml"], Library).Some?
    ensures Install(env, fuel, name, w)
            == InstallFound(env, fuel, name, ReadText(w.fs, ModuleDir(env, name) + ["template.sh"]).value,
                            ReadConfig(w.fs, ModuleDir(env, name) + ["config.toml"], Library).value, w)
  {
  }

  /** The record's placeholder `got` for schema entry `s`: same key, and the stored value when
      the record held one, else a freshly read value of the schema's shape. */
  predicate Merged(stored: Option<seq<(string, EntryType)>>, s: (string, EntryType), got: (string, EntryType)) {
    got.0 == s.0 &&
    var v := if stored.Some? then Get(stored.value, s.0) else None;
    if v.Some? then got.1 == v.value else Conforms(s.1, got.1)
  }

  lemma {:induction false} MergeSpec(tilde: string -> string, stored: Option<seq<(string, EntryType)>>, schema: seq<(string, EntryType)>,
                                     i: nat, acc: seq<(string, EntryType)>, ctx: Ctx, inp: Input)
    requires i <= |schema| && WellFormed(Object(schema))
    requires Keys(acc) == Keys(schema[..i]) && forall j :: 0 <= j < i ==> Merged(stored, schema[j], acc[j])
    ensures var r := MergeFrom(tilde, stored, schema, i, acc, ctx, inp);
      r.Next? ==> Keys(r.value.ph) == Keys(schema) && forall j :: 0 <= j < |schema| ==> Merged(stored, schema[j], r.value.ph[j])
    decreases |schema| - i
  {
    if i == |schema| {
      assert schema[..i] == schema;
    } else {
      var (k, e) := schema[i];
      var v := if stored.Some? then Get(stored.value, k) else None;
      if v.Some? {
        MergeStep(stored, schema, i, acc, v.value);
        assert MergeFrom(tilde, stored, schema, i, acc, ctx, inp) == MergeFrom(tilde, stored, schema, i + 1, acc + [(k, v.value)], ctx, inp);
        MergeSpec(tilde, stored, schema, i + 1, acc + [(k, v.value)], ctx, inp);
      } else {
        var x := Read(tilde, k, e, ctx, inp);
        ReadConforms(tilde, k, e, ctx, inp);
        if x.Next? {
          MergeStep(stored, schema, i, acc, x.value.entry);
          assert MergeFrom(tilde, stored, schema, i, acc, ctx, inp)
              == MergeFrom(tilde, stored, schema, i + 1, acc + [(k, x.value.entry)], x.value.ctx, x.value.rest);
          MergeSpec(tilde, stored, schema, i + 1, acc + [(k, x.value.entry)], x.value.ctx, x.value.rest);
        }
      }
    }
  }

  lemma MergeStep(stored: Option<seq<(string, EntryType)>>, schema: seq<(string, EntryType)>, i: nat,
                  acc: seq<(string, EntryType)>, e: EntryType)
    requires i < |schema| && WellFormed(Object(schema))
    requires Keys(acc) == Keys(schema[..i]) && forall j :: 0 <= j < i ==> Merged(stored, schema[j], acc[j])
    requires Merged(stored, schema[i], (schema[i].0, e))
    ensures IndexMaps.Insert(acc, schema[i].0, e) == acc + [(schema[i].0, e)]
    ensures Keys(acc + [(schema[i].0, e)]) == Keys(schema[..i + 1])
    ensures forall j :: 0 <= j < i + 1 ==> Merged(stored, schema[j], (acc + [(schema[i].0, e)])[j])
  {
    InsertNextField(schema, i, acc, e);
  }

  /** The reconciling step of `update`. An unchanged placeholder schema leaves the record's
      placeholders alone and asks nothing. A changed one rebuilds them over the new schema:
      exactly its keys in its order, a value the record held is kept, any other is read
      afresh in the shape of its new prototype; a schema removed removes them. */
  lemma ReconcileSpec(tilde: string -> string, data: PluginInfo, oldConfig: PluginInfo, newConfig: PluginInfo, inp: Input)
    requires newConfig.placeholders.Some? ==> WellFormed(Object(newConfig.placeholders.value))
    ensures var r := Reconcile(tilde, data, oldConfig, newConfig, inp);
      (OptFieldsEq(oldConfig.placeholders, newConfig.placeholders) ==>
         r == Next(Reconciled(data.(pluginInfo := newConfig.pluginInfo), Empty, inp))) &&
      (!OptFieldsEq(oldConfig.placeholders, newConfig.placeholders) && r.Next? ==>
         r.value.info.placeholders.Some? == newConfig.placeholders.Some? &&
         (newConfig.placeholders.Some? ==>
            var ph := r.value.info.placeholders.value;
            var schema := newConfig.placeholders.value;
            Keys(ph) == Keys(schema) && forall j :: 0 <= j < |schema| ==> Merged(data.placeholders, schema[j], ph[j])))
  {
    if !OptFieldsEq(oldConfig.placeholders, newConfig.placeholders) && newConfig.placeholders.Some? {
      var schema := newConfig.placeholders.value;
      assert schema[..0] == [];
      MergeSpec(tilde, data.placeholders, schema, 0, [], Empty, inp);
    }
  }

  /** A placeholder after the growth loop: a list keeps its elements as a prefix, anything
      else is unchanged. */
  predicate Grown(before: EntryType, after: EntryType) {
    if before.Array? then after.Array? && before.items <= after.items else after == before
  }

  /** Growth only appends: with a yes to "Add new elements" for a list the record and the
      old schema both hold, at least one element is appended. */
  lemma GrowEntrySpec(tilde: string -> string, silent: bool, stored: Option<seq<(string, EntryType)>>,
                      oldSchema: Option<seq<(string, EntryType)>>, k: string, v: EntryType, ctx: Ctx, inp: Input)
    ensures var r := GrowEntry(tilde, silent, stored, oldSchema, k, v, ctx, inp);
      (r.Next? ==> Grown(v, r.value.entry)) &&
      ((r.Next? && v.Array? && !silent && SaidYes(inp) && stored.Some? && Get(stored.value, k).Some? &&
        oldSchema.Some? && Get(oldSchema.value, k).Some?) ==> |r.value.entry.items| > |v.items|)
  {
    var r := GrowEntry(tilde, silent, stored, oldSchema, k, v, ctx, inp);
    if v.Array? && v.items != [] && stored.Some? && Get(stored.value, k).Some? && !silent && SaidYes(inp) {
      ArrayLoopExtends(tilde, k, v.items[0], ctx, inp[1..], []);
    }
  }

  /** Which list `<key>_shortNames` covers: for a list the record held, declining growth
      (or a silent update) publishes the short names of the whole existing list; a yes with
      the key in the old schema publishes those of the new elements only, appended after the
      old ones; a yes without it publishes nothing and keeps the list. */
  lemma GrowEntryShortNames(tilde: string -> string, silent: bool, stored: Option<seq<(string, EntryType)>>,
                            oldSchema: Option<seq<(string, EntryType)>>, k: string, v: EntryType, ctx: Ctx, inp: Input)
    requires stored.Some? && Get(stored.value, k).Some? && v.Array?
    ensures var r := GrowEntry(tilde, silent, stored, oldSchema, k, v, ctx, inp);
      ((silent || (inp != [] && inp[0] == Confirmed(false))) ==>
         r == Next(Resolved(InsertStr(ctx, k + "_shortNames", ShortNames(v.items)), v, if silent then inp else inp[1..]))) &&
      ((!silent && SaidYes(inp) && oldSchema.Some? && Get(oldSchema.value, k).None?) ==>
         r == Next(Resolved(ctx, v, inp[1..]))) &&
      ((!silent && SaidYes(inp) && oldSchema.Some? && Get(oldSchema.value, k).Some? && r.Next?) ==>
         r.value.entry.Array? && |r.value.entry.items| > |v.items| && r.value.entry.items[..|v.items|] == v.items &&
         k + "_shortNames" in r.value.ctx &&
         r.value.ctx[k + "_shortNames"] == Str(ShortNames(r.value.entry.items[|v.items|..])))
  {
    if !silent && SaidYes(inp) && oldSchema.Some? && Get(oldSchema.value, k).Some? && v.items != [] {
      ArrayLoopExtends(tilde, k, v.items[0], ctx, inp[1..], []);
      var x := ReadArrayLoop(tilde, k, v.items[0], ctx, inp[1..], []);
      if x.Next? && x.value.entry.Array? {
        assert (v.items + x.value.entry.items)[|v.items|..] == x.value.entry.items;
        assert (v.items + x.value.entry.items)[..|v.items|] == v.items;
      }
    }
  }

  /** Growing a list of scalars by `n` typed answers: the list gains exactly those `n`
      elements, tilde-expanded, so a list of length `m` ends with `m + n` elements. */
  lemma GrowScalars(tilde: string -> string, stored: Option<seq<(string, EntryType)>>, oldSchema: Option<seq<(string, EntryType)>>,
                    k: string, v: EntryType, default: string, texts: seq<string>, last: Answer, rest: Input, ctx: Ctx)
    requires stored.Some? && Get(stored.value, k).Some? && oldSchema.Some? && Get(oldSchema.value, k).Some?
    requires v.Array? && v.items != [] && v.items[0] == Value(default)
    requires texts != [] && last != Confirmed(true)
    ensures var r := GrowEntry(tilde, false, stored, oldSchema, k, v, ctx, [Confirmed(true)] + ListAnswers(texts, last) + rest);
      r == Next(Resolved(ctx[k + "_shortNames" := Str("")], Array(v.items + Expanded(tilde, default, texts)), rest)) &&
      |r.value.entry.items| == |v.items| + |texts|
  {
    var more := ListAnswers(texts, last) + rest;
    var items := Expanded(tilde, default, texts);
    assert ReadArrayLoop(tilde, k, v.items[0], ctx, more, [])
           == Next(Resolved(ctx[k + "_shortNames" := Str("")], Array(items), rest)) by {
      ListOfScalars(tilde, k, default, ctx, texts, last, rest, []);
      assert [] + items == items;
    }
    GrowConfirmed(tilde, stored, oldSchema, k, v, ctx, more);
    assert [Confirmed(true)] + ListAnswers(texts, last) + rest == [Confirmed(true)] + more;
  }

  /** A yes to "Add new elements": the list read from the list's first element is appended. */
  lemma GrowConfirmed(tilde: string -> string, stored: Option<seq<(string, EntryType)>>, oldSchema: Option<seq<(string, EntryType)>>,
                      k: string, v: EntryType, ctx: Ctx, more: Input)
    requires stored.Some? && Get(stored.value, k).Some? && oldSchema.Some? && Get(oldSchema.value, k).Some?
    requires v.Array? && v.items != []
    requires var x := ReadArrayLoop(tilde, k, v.items[0], ctx, more, []); x.Next? && x.value.entry.Array?
    ensures var x := ReadArrayLoop(tilde, k, v.items[0], ctx, more, []);
      GrowEntry(tilde, false, stored, oldSchema, k, v, ctx, [Confirmed(true)] + more)
      == Next(Resolved(x.value.ctx, Array(v.items + x.value.entry.items), x.value.rest))
  {
    assert ([Confirmed(true)] + more)[1..] == more;
  }

  lemma {:induction false} GrowFromSpec(tilde: string -> string, silent: bool, stored: Option<seq<(string, EntryType)>>,
                                        oldSchema: Option<seq<(string, EntryType)>>, ph: seq<(string, EntryType)>, i: nat, ctx: Ctx, inp: Input)
    requires i <= |ph|
    ensures var r := GrowFrom(tilde, silent, stored, oldSchema, ph, i, ctx, inp);
      r.Next? ==> forall j :: i <= j < |ph| ==> Grown(ph[j].1, r.value.ph[j].1)
    decreases |ph| - i
  {
    if i < |ph| {
      var (k, v) := ph[i];
      var g := GrowEntry(tilde, silent, stored, oldSchema, k, v, ctx, inp);
      GrowEntrySpec(tilde, silent, stored, oldSchema, k, v, ctx, inp);
      if g.Next? {
        GrowFromSpec(tilde, silent, stored, oldSchema, ph[i := (k, g.value.entry)], i + 1,
                     Context.Insert(g.value.ctx, k, g.value.entry), g.value.rest);
      }
    }
  }

  /** A silent update (as for a dependency) asks nothing in the growth loop and changes no
      placeholder. */
  lemma {:induction false} SilentGrowth(tilde: string -> string, stored: Option<seq<(string, EntryType)>>,
                                        oldSchema: Option<seq<(string, EntryType)>>, ph: seq<(string, EntryType)>, i: nat, ctx: Ctx, inp: Input)
    requires i <= |ph|
    ensures var r := GrowFrom(tilde, true, stored, oldSchema, ph, i, ctx, inp);
      r.Next? && r.value.ph == ph && r.value.rest == inp
    decreases |ph| - i
  {
    if i < |ph| {
      var (k, v) := ph[i];
      var g := GrowEntry(tilde, true, stored, oldSchema, k, v, ctx, inp);
      assert g.Next? && g.value.entry == v && g.value.rest == inp;
      assert ph[i := (k, v)] == ph;
      SilentGrowth(tilde, stored, oldSchema, ph, i + 1, Context.Insert(g.value.ctx, k, v), inp);
    }
  }

  /** The guards of `install` and `update`. An installed module is handed to a silent,
      non-failing `update`; a module missing from the repository stops `install` with
      status 1; `update` of a module without a home or missing from the repository exits
      with status 1 exactly when failures are fatal; and when one of `update`'s reads fails
      it panics. In each of these cases nothing has changed yet. */
  lemma Guards(env: Env, fuel: nat, name: string, fail: bool, silent: bool, w: World)
    requires fuel > 0
    ensures var home, moduleDir := ModuleHome(env, name), ModuleDir(env, name);
      (Exists(w.fs, home) ==> Install(env, fuel, name, w) == Update(env, fuel, name, false, true, w)) &&
      (!Exists(w.fs, home) && !Exists(w.fs, moduleDir) ==> Install(env, fuel, name, w) == Run(w, Stop(Exit(1)))) &&
      (!Exists(w.fs, home) || !Exists(w.fs, moduleDir) ==>
         Update(env, fuel, name, fail, silent, w) == Run(w, if fail then Stop(Exit(1)) else Next(()))) &&
      (Exists(w.fs, home) && Exists(w.fs, moduleDir) && Load(env, name, w.fs, Library).Stop? ==>
         Update(env, fuel, name, fail, silent, w).w == w && Update(env, fuel, name, fail, silent, w).out.Stop? &&
         Update(env, fuel, name, fail, silent, w).out.halt.Panic?)
  {
  }

  /** `install`'s placeholder loop publishes every placeholder under its own key before the
      script is rendered. */
  lemma {:induction false} FillPublishes(tilde: string -> string, ph: seq<(string, EntryType)>, i: nat, ctx: Ctx, inp: Input)
    requires i <= |ph|
    ensures var r := FillFrom(tilde, ph, i, ctx, inp);
      r.Next? ==> ctx.Keys <= r.value.ctx.Keys && forall j :: i <= j < |ph| ==> ph[j].0 in r.value.ctx
    decreases |ph| - i
  {
    if i < |ph| {
      var (k, e) := ph[i];
      var x := Read(tilde, k, e, ctx, inp);
      ReadKeepsNames(tilde, k, e, ctx, inp);
      if x.Next? {
        var ph' := ph[i := (k, x.value.entry)];
        FillPublishes(tilde, ph', i + 1, Context.Insert(x.value.ctx, k, x.value.entry), x.value.rest);
        assert forall j :: i < j < |ph| ==> ph'[j].0 == ph[j].0;
      }
    }
  }

  /** One placeholder of the growth loop only adds to the context. */
  lemma GrowEntryKeepsNames(tilde: string -> string, silent: bool, stored: Option<seq<(string, EntryType)>>,
                            oldSchema: Option<seq<(string, EntryType)>>, k: string, v: EntryType, ctx: Ctx, inp: Input)
    ensures var r := GrowEntry(tilde, silent, stored, oldSchema, k, v, ctx, inp);
      r.Next? ==> ctx.Keys <= r.value.ctx.Keys
  {
    if v.Array? && v.items != [] {
      var b := if silent then Next((false, inp)) else BooleanPrompt(inp);
      if b.Next? {
        ArrayLoopKeepsNames(tilde, k, v.items[0], ctx, b.value.1, []);
      }
    }
  }

  /** `update`'s growth loop publishes every placeholder under its own key before the
      script is rendered. */
  lemma {:induction false} GrowPublishes(tilde: string -> string, silent: bool, stored: Option<seq<(string, EntryType)>>,
                                         oldSchema: Option<seq<(string, EntryType)>>, ph: seq<(string, EntryType)>, i: nat, ctx: Ctx, inp: Input)
    requires i <= |ph|
    ensures var r := GrowFrom(tilde, silent, stored, oldSchema, ph, i, ctx, inp);
      r.Next? ==> ctx.Keys <= r.value.ctx.Keys && forall j :: i <= j < |ph| ==> ph[j].0 in r.value.ctx
    decreases |ph| - i
  {
    if i < |ph| {
      var (k, v) := ph[i];
      var g := GrowEntry(tilde, silent, stored, oldSchema, k, v, ctx, inp);
      GrowEntryKeepsNames(tilde, silent, stored, oldSchema, k, v, ctx, inp);
      if g.Next? {
        var ph' := ph[i := (k, g.value.entry)];
        GrowPublishes(tilde, silent, stored, oldSchema, ph', i + 1, Context.Insert(g.value.ctx, k, g.value.entry), g.value.rest);
        assert forall j :: i < j < |ph| ==> ph'[j].0 == ph[j].0;
      }
    }
  }

  /** Declining "Update?" consumes that answer and returns before the package is built and
      before anything is written. */
  lemma DeclineUpdate(env: Env, name: string, rec: PluginInfo, t: PluginType, script: string, w: World, rest: Input)
    requires w.input == [Confirmed(false)] + rest
    requires ReadText(w.fs, ModuleHome(env, name) + ["script.sh"]).Some?
    ensures Commit(env, name, rec, t, script, w) == Run(w.(input := rest), Next(()))
  {
    assert w.input[1..] == rest;
  }

  /** Declining both "Update supporting files?" and "Update?" leaves the file system and the
      spawned commands as they were: only the two answers are consumed. */
  lemma DeclineBoth(env: Env, name: string, template: string, rec: PluginInfo, newConfig: PluginInfo, ctx: Ctx, w: World, rest: Input)
    requires w.input == [Confirmed(false), Confirmed(false)] + rest
    requires ReadText(w.fs, ModuleHome(env, name) + ["script.sh"]).Some?
    ensures UpdateFinish(env, name, template, rec, newConfig, ctx, w) == Run(w.(input := rest), Next(()))
  {
    var w1 := w.(input := [Confirmed(false)] + rest);
    assert w.input[0] == Confirmed(false) && w.input[1..] == w1.input;
    assert w1.input[0] == Confirmed(false) && w1.input[1..] == rest;
    if newConfig.supportingFiles.Some? {
      NoOverwrite(env, ModuleDir(env, name), newConfig.supportingFiles.value, ctx, ModuleHome(env, name), w1);
    }
  }
}
