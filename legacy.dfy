/** The older copy of the module lifecycle that the binary (src/main.rs) still carries: a
    collector that resolves placeholders in place, list growth that re-inserts the old
    prototype, the legacy `install` and `update`, and "update all". Its descriptors are
    decoded in the binary's own dialect (`Binary`). */
module Legacy {
  import opened Wrappers
  import opened IndexMaps
  import opened Models
  import opened Serde
  import opened SemVer
  import opened Strings
  import opened FileSystem
  import opened Prompts
  import opened Context
  import opened Host
  import opened Modules
  import opened InstallSteps
  import opened Template
  import opened Lifecycle

  // ---- The in-place collector ----

  /** `after` is what the in-place collector can make of `before`: a scalar stays a scalar,
      a group keeps its keys in their order, a list loses its first element (the prototype)
      and gains at least one element after the others. */
  predicate Kept(before: EntryType, after: EntryType) {
    match before
    case Value(_) => after.Value?
    case Array(items) => items != [] && after.Array? && items[1..] < after.items
    case Object(fields) =>
      after.Object? && |after.fields| == |fields| && forall j :: 0 <= j < |fields| ==> after.fields[j].0 == fields[j].0
  }

  /** Legacy `read`: a scalar is overwritten by its prompt, a list by `read_array`, a group
      field by field. */
  function LegacyRead(tilde: string -> string, key: string, e: EntryType, ctx: Ctx, inp: Input): (r: Step<Resolved>)
    ensures r.Next? ==> |r.value.rest| <= |inp| && Kept(e, r.value.entry)
    decreases e, 1, 0
  {
    match e
    case Value(s) =>
      var v := ReadValue(tilde, s, inp);
      if v.Stop? then Stop(v.halt) else Next(Resolved(ctx, v.value.0, v.value.1))
    case Array(items) =>
      if items == [] then Stop(Panic("removal index (is 0) should be < len (is 0)"))
      else LegacyArrayLoop(tilde, key, items[0], ctx, inp, items[1..])
    case Object(_) =>
      LegacyFieldsFrom(tilde, e, 0, ctx, inp, [])
  }

  /** Legacy `read_array` on a whole list: the first element is removed and becomes the
      prototype; the loop starts from the elements after it. */
  function LegacyReadArray(tilde: string -> string, key: string, arr: seq<EntryType>, ctx: Ctx, inp: Input): (r: Step<Resolved>)
    ensures r.Next? ==> |r.value.rest| <= |inp| && Kept(Array(arr), r.value.entry)
  {
    LegacyRead(tilde, key, Array(arr), ctx, inp)
  }

  /** What is left of legacy `read_array`'s loop once the list holds `acc`: a copy of the
      prototype is resolved and pushed, while "Another one?" is answered yes; then the short
      names of the whole list are published. */
  function LegacyArrayLoop(tilde: string -> string, key: string, proto: EntryType, ctx: Ctx, inp: Input,
                           acc: seq<EntryType>): (r: Step<Resolved>)
    ensures r.Next? ==> |r.value.rest| <= |inp| && r.value.entry.Array? &&
                        |r.value.entry.items| > |acc| && r.value.entry.items[..|acc|] == acc
    decreases proto, 2, |inp|
  {
    var x := LegacyRead(tilde, key, proto, ctx, inp);
    if x.Stop? then Stop(x.halt)
    else
      var items := acc + [x.value.entry];
      var rest := Next1(x.value.rest);
      if SaidYes(x.value.rest) then
        var r := LegacyArrayLoop(tilde, key, proto, x.value.ctx, rest, items);
        assert r.Next? ==> r.value.entry.items[..|acc|] == r.value.entry.items[..|items|][..|acc|];
        r
      else Next(Resolved(InsertStr(x.value.ctx, key + "_shortNames", ShortNames(items)), Array(items), rest))
  }

  /** What is left of legacy `read_object`'s loop once the fields before `i` are resolved
      (`done`): each field is resolved in place under its own key; keys never change. */
  function LegacyFieldsFrom(tilde: string -> string, o: EntryType, i: nat, ctx: Ctx, inp: Input,
                            done: seq<(string, EntryType)>): (r: Step<Resolved>)
    requires o.Object? && i <= |o.fields| && |done| == i
    requires forall j :: 0 <= j < i ==> done[j].0 == o.fields[j].0
    ensures r.Next? ==> |r.value.rest| <= |inp| && r.value.entry.Object? && |r.value.entry.fields| == |o.fields| &&
                        forall j :: 0 <= j < |o.fields| ==> r.value.entry.fields[j].0 == o.fields[j].0
    decreases o, 0, |o.fields| - i
  {
    if i == |o.fields| then Next(Resolved(ctx, Object(done), inp))
    else
      var (k, e) := o.fields[i];
      var x := LegacyRead(tilde, k, e, ctx, inp);
      if x.Stop? then Stop(x.halt)
      else LegacyFieldsFrom(tilde, o, i + 1, x.value.ctx, x.value.rest, done + [(k, x.value.entry)])
  }

  /** Legacy `read`, as the program runs it. */
  method LegacyReadMethod(tilde: string -> string, key: string, e: EntryType, ctx: Ctx, inp: Input) returns (r: Step<Resolved>)
    ensures r == LegacyRead(tilde, key, e, ctx, inp)
  {
    match e
    case Value(s) =>
      var v := ReadValue(tilde, s, inp);
      r := if v.Stop? then Stop(v.halt) else Next(Resolved(ctx, v.value.0, v.value.1));
    case Array(items) =>
      r := LegacyReadArrayMethod(tilde, key, items, ctx, inp);
    case Object(fields) =>
      r := LegacyReadObject(tilde, fields, ctx, inp);
  }

  /** Legacy `read_array`, as the program runs it: `remove(0)`, then `push` in a loop. */
  method LegacyReadArrayMethod(tilde: string -> string, key: string, arr: seq<EntryType>, ctx: Ctx, inp: Input)
    returns (r: Step<Resolved>)
    ensures r == LegacyReadArray(tilde, key, arr, ctx, inp)
  {
    if arr == [] {
      return Stop(Panic("removal index (is 0) should be < len (is 0)"));
    }
    var protoType := arr[0];
    var list := arr[1..];
    var c, i := ctx, inp;
    while true
      invariant LegacyArrayLoop(tilde, key, protoType, c, i, list) == LegacyReadArray(tilde, key, arr, ctx, inp)
      decreases |i|
    {
      var x := LegacyRead(tilde, key, protoType, c, i);
      if x.Stop? {
        return Stop(x.halt);
      }
      list := list + [x.value.entry];
      c := x.value.ctx;
      var again := SaidYes(x.value.rest);
      i := Next1(x.value.rest);
      if !again {
        break;
      }
    }
    var name := GetShortNames(list);
    c := InsertStr(c, key + "_shortNames", name);
    return Next(Resolved(c, Array(list), i));
  }

  /** Legacy `read_object`, as the program runs it: every value is overwritten in place. */
  method LegacyReadObject(tilde: string -> string, fields: seq<(string, EntryType)>, ctx: Ctx, inp: Input)
    returns (r: Step<Resolved>)
    ensures r == LegacyFieldsFrom(tilde, Object(fields), 0, ctx, inp, [])
  {
    var obj, c, rest := fields, ctx, inp;
    for i := 0 to |obj|
      invariant |obj| == |fields| && obj[i..] == fields[i..]
      invariant forall j :: 0 <= j < i ==> obj[j].0 == fields[j].0
      invariant LegacyFieldsFrom(tilde, Object(fields), i, c, rest, obj[..i]) == LegacyFieldsFrom(tilde, Object(fields), 0, ctx, inp, [])
    {
      assert obj[i] == fields[i] by { assert obj[i..][0] == fields[i..][0]; }
      var x := LegacyRead(tilde, obj[i].0, obj[i].1, c, rest);
      if x.Stop? {
        return Stop(x.halt);
      }
      c, rest := x.value.ctx, x.value.rest;
      var before := obj;
      obj := obj[i := (obj[i].0, x.value.entry)];
      assert obj[..i + 1] == before[..i] + [(fields[i].0, x.value.entry)];
      assert obj[i + 1..] == before[i + 1..];
    }
    assert obj[..|obj|] == obj;
    return Next(Resolved(c, Object(obj), rest));
  }

  /** Legacy resolution of a scalar overwrites it from one answer and never touches the
      context; a list without elements panics at `remove(0)`. */
  lemma LegacyScalarAndEmpty(tilde: string -> string, key: string, e: EntryType, ctx: Ctx, inp: Input)
    ensures var r := LegacyRead(tilde, key, e, ctx, inp);
      (e.Value? && r.Next? ==> r.value.ctx == ctx && r.value.entry.Value? && r.value.rest == inp[1..]) &&
      (e == Array([]) ==> r.Stop? && r.halt.Panic?)
  {
  }

  // ---- The collector against the library's ----

  /** Every list in `e` holds exactly one element: its prototype. */
  predicate OnePrototype(e: EntryType) {
    match e
    case Value(_) => true
    case Array(items) => |items| == 1 && OnePrototype(items[0])
    case Object(fields) => forall j :: 0 <= j < |fields| ==> OnePrototype(fields[j].1)
  }

  /** On a tree whose lists are bare prototypes, the in-place collector and the library's
      collector (src/prompts.rs) ask the same questions and give the same result. */
  lemma {:induction false} ReadAgrees(tilde: string -> string, key: string, e: EntryType, ctx: Ctx, inp: Input)
    requires WellFormed(e) && OnePrototype(e)
    ensures LegacyRead(tilde, key, e, ctx, inp) == Read(tilde, key, e, ctx, inp)
    decreases e, 1, 0
  {
    match e
    case Value(_) =>
    case Array(items) =>
      assert items[1..] == [];
      ArrayLoopAgrees(tilde, key, items[0], ctx, inp, []);
    case Object(fields) =>
      FieldsAgree(tilde, e, 0, ctx, inp, []);
  }

  lemma {:induction false} ArrayLoopAgrees(tilde: string -> string, key: string, proto: EntryType, ctx: Ctx, inp: Input, acc: seq<EntryType>)
    requires WellFormed(proto) && OnePrototype(proto)
    ensures LegacyArrayLoop(tilde, key, proto, ctx, inp, acc) == ReadArrayLoop(tilde, key, proto, ctx, inp, acc)
    decreases proto, 2, |inp|
  {
    ReadAgrees(tilde, key, proto, ctx, inp);
    var x := Read(tilde, key, proto, ctx, inp);
    if x.Next? && SaidYes(x.value.rest) {
      ArrayLoopAgrees(tilde, key, proto, x.value.ctx, Next1(x.value.rest), acc + [x.value.entry]);
    }
  }

  lemma {:induction false} FieldsAgree(tilde: string -> string, o: EntryType, i: nat, ctx: Ctx, inp: Input, done: seq<(string, EntryType)>)
    requires o.Object? && i <= |o.fields| && WellFormed(o) && OnePrototype(o)
    requires Keys(done) == Keys(o.fields[..i])
    ensures |done| == i && forall j :: 0 <= j < i ==> done[j].0 == o.fields[j].0
    ensures LegacyFieldsFrom(tilde, o, i, ctx, inp, done) == ReadFieldsFrom(tilde, o, i, ctx, inp, done)
    decreases o, 0, |o.fields| - i
  {
    assert |Keys(done)| == |Keys(o.fields[..i])|;
    forall j | 0 <= j < i ensures done[j].0 == o.fields[j].0 {
      assert Keys(done)[j] == Keys(o.fields[..i])[j];
    }
    if i < |o.fields| {
      var (k, e) := o.fields[i];
      ReadAgrees(tilde, k, e, ctx, inp);
      var x := Read(tilde, k, e, ctx, inp);
      if x.Next? {
        InsertNextField(o.fields, i, done, x.value.entry);
        FieldsAgree(tilde, o, i + 1, x.value.ctx, x.value.rest, done + [(k, x.value.entry)]);
      }
    }
  }

  /** The library's list loop does not depend on the elements collected before: starting
      from `pre + acc` gives `pre` followed by what starting from `acc` gives, after the same
      questions; only the published short names cover `pre` too. */
  lemma {:induction false} ArrayLoopShift(tilde: string -> string, key: string, proto: EntryType, ctx: Ctx, inp: Input,
                                          pre: seq<EntryType>, acc: seq<EntryType>)
    ensures var a := ReadArrayLoop(tilde, key, proto, ctx, inp, pre + acc);
            var b := ReadArrayLoop(tilde, key, proto, ctx, inp, acc);
      a.Next? == b.Next? && (a.Stop? ==> a.halt == b.halt) &&
      (a.Next? ==> b.value.entry.Array? && a.value.entry == Array(pre + b.value.entry.items) && a.value.rest == b.value.rest &&
                   a.value.ctx == InsertStr(b.value.ctx, key + "_shortNames", ShortNames(pre + b.value.entry.items)))
    decreases |inp|
  {
    var x := Read(tilde, key, proto, ctx, inp);
    if x.Next? {
      var items := acc + [x.value.entry];
      assert (pre + acc) + [x.value.entry] == pre + items;
      if SaidYes(x.value.rest) {
        ArrayLoopShift(tilde, key, proto, x.value.ctx, Next1(x.value.rest), pre, items);
      }
    }
  }

  // ---- install ----

  /** What is left of legacy `install`'s placeholder loop from entry `i` on: each
      placeholder is resolved in place and then published under its key. */
  function LegacyFillFrom(tilde: string -> string, ph: seq<(string, EntryType)>, i: nat, ctx: Ctx, inp: Input): (r: Step<Collected>)
    requires i <= |ph|
    ensures r.Next? ==> Keys(r.value.ph) == Keys(ph) && forall j :: 0 <= j < i ==> r.value.ph[j] == ph[j]
    ensures r.Next? ==> forall j :: i <= j < |ph| ==> Kept(ph[j].1, r.value.ph[j].1)
    decreases |ph| - i
  {
    if i == |ph| then Next(Collected(ph, ctx, inp))
    else
      var (k, e) := ph[i];
      var x := LegacyRead(tilde, k, e, ctx, inp);
      if x.Stop? then Stop(x.halt)
      else
        Replaced(ph, i, x.value.entry);
        LegacyFillFrom(tilde, ph[i := (k, x.value.entry)], i + 1, Context.Insert(x.value.ctx, k, x.value.entry), x.value.rest)
  }

  /** Legacy `install`'s placeholder loop, as the program runs it. */
  method LegacyFillPlaceholders(tilde: string -> string, placeholders: seq<(string, EntryType)>, ctx: Ctx, inp: Input)
    returns (r: Step<Collected>)
    ensures r == LegacyFillFrom(tilde, placeholders, 0, ctx, inp)
  {
    var ph, c, rest := placeholders, ctx, inp;
    for i := 0 to |ph|
      invariant |ph| == |placeholders|
      invariant LegacyFillFrom(tilde, ph, i, c, rest) == LegacyFillFrom(tilde, placeholders, 0, ctx, inp)
    {
      var x := LegacyReadMethod(tilde, ph[i].0, ph[i].1, c, rest);
      if x.Stop? {
        return Stop(x.halt);
      }
      c := Context.Insert(x.value.ctx, ph[i].0, x.value.entry);
      rest := x.value.rest;
      ph := ph[i := (ph[i].0, x.value.entry)];
    }
    return Next(Collected(ph, c, rest));
  }

  /** Legacy `install`: an installed module is left alone; otherwise the module must be in
      the repository with a template and a descriptor, its dependencies are installed
      first, and the rest is `LegacyInstallRest`. */
  function LegacyInstall(env: Env, fuel: nat, name: string, w: World): (r: Run<()>)
    ensures fuel > 0 && Exists(w.fs, ModuleHome(env, name)) ==> r == Run(w, Next(()))
    decreases fuel, 2
  {
    if fuel == 0 then Run(w, Stop(StackOverflow))
    else if Exists(w.fs, ModuleHome(env, name)) then Run(w, Next(()))
    else
      var moduleDir := ModuleDir(env, name);
      if !Exists(w.fs, moduleDir) then Run(w, Stop(Exit(1)))
      else
        var template := ReadText(w.fs, moduleDir + ["template.sh"]);
        var toml := ReadConfig(w.fs, moduleDir + ["config.toml"], Binary);
        if template.None? then Run(w, Stop(Panic("Could not parse mustache template")))
        else if toml.None? then Run(w, Stop(Panic("Cannot find TOML")))
        else LegacyInstallFound(env, fuel, name, template.value, toml.value, w)
  }

  /** Legacy `install` of a module found in the repository: its dependencies, then the rest. */
  function LegacyInstallFound(env: Env, fuel: nat, name: string, template: string, toml: PluginInfo, w: World): Run<()>
    requires fuel > 0
    decreases fuel, 1
  {
    var d := LegacyInstallDeps(env, fuel - 1, Deps(toml), 0, w);
    if d.out.Stop? then d else LegacyInstallRest(env, name, template, toml, d.w)
  }

  /** The dependency loop of legacy `install` (and of legacy `update`) from dependency `i` on. */
  function LegacyInstallDeps(env: Env, fuel: nat, deps: seq<string>, i: nat, w: World): Run<()>
    requires i <= |deps|
    decreases fuel + 1, 0, |deps| - i
  {
    if i == |deps| then Run(w, Next(()))
    else
      var r := LegacyInstall(env, fuel, deps[i], w);
      if r.out.Stop? then r else LegacyInstallDeps(env, fuel, deps, i + 1, r.w)
  }

  /** Legacy `install` after its dependencies: the placeholders are resolved in place, the
      home is created (a failure is ignored), the supporting files are copied and published,
      and the rendered script and the record are written. No package is built. */
  function LegacyInstallRest(env: Env, name: string, template: string, toml: PluginInfo, w: World): Run<()> {
    var f := LegacyFillFrom(env.tilde, toml.placeholders.GetOr([]), 0, Empty, w.input);
    if f.Stop? then Run(w, Stop(f.halt))
    else
      var rec := if toml.placeholders.Some? then toml.(placeholders := Some(f.value.ph)) else toml;
      var home := ModuleHome(env, name);
      var moduleDir := ModuleDir(env, name);
      var w1 := w.(fs := CreateDirAll(w.fs, home).0, input := f.value.rest);
      var a := if rec.supportingFiles.Some? then AddFilesAsVars(env, moduleDir, rec.supportingFiles.value, f.value.ctx, home, true, w1)
               else Run(w1, Next(f.value.ctx));
      if a.out.Stop? then Run(a.w, Stop(a.out.halt))
      else Run(WriteFile(env, name, rec, env.render(template, a.out.value), moduleDir, a.w), Next(()))
  }

  // ---- update ----

  /** One placeholder of legacy `update`'s growth loop. For a list, "Add new elements" is
      asked; on yes the old schema's entry for the key must exist, and when it is a list its
      first element is inserted at the front and `read_array` runs on the result; on no the
      list's short names are published. Anything else is left as it is. */
  function LegacyGrowEntry(tilde: string -> string, oldSchema: Option<seq<(string, EntryType)>>, k: string, v: EntryType,
                           ctx: Ctx, inp: Input): (r: Step<Resolved>)
    ensures r.Next? ==> Grown(v, r.value.entry) && |r.value.rest| <= |inp|
  {
    if !v.Array? then Next(Resolved(ctx, v, inp))
    else
      var b := BooleanPrompt(inp);
      if b.Stop? then Stop(b.halt)
      else if !b.value.0 then Next(Resolved(InsertStr(ctx, k + "_shortNames", ShortNames(v.items)), v, b.value.1))
      else if oldSchema.None? || Get(oldSchema.value, k).None? then Stop(Panic("called `Option::unwrap()` on a `None` value"))
      else
        var o := Get(oldSchema.value, k).value;
        if !o.Array? then Next(Resolved(ctx, v, b.value.1))
        else if o.items == [] then Stop(Panic("called `Option::unwrap()` on a `None` value"))
        else
          var x := LegacyReadArray(tilde, k, [o.items[0]] + v.items, ctx, b.value.1);
          assert ([o.items[0]] + v.items)[1..] == v.items;
          x
  }

  /** What is left of legacy `update`'s growth loop from entry `i` on: each entry is grown
      in place and then published under its key. */
  function LegacyGrowFrom(tilde: string -> string, oldSchema: Option<seq<(string, EntryType)>>, ph: seq<(string, EntryType)>,
                          i: nat, ctx: Ctx, inp: Input): (r: Step<Collected>)
    requires i <= |ph|
    ensures r.Next? ==> Keys(r.value.ph) == Keys(ph) && forall j :: 0 <= j < i ==> r.value.ph[j] == ph[j]
    ensures r.Next? ==> forall j :: i <= j < |ph| ==> Grown(ph[j].1, r.value.ph[j].1)
    decreases |ph| - i
  {
    if i == |ph| then Next(Collected(ph, ctx, inp))
    else
      var (k, v) := ph[i];
      var g := LegacyGrowEntry(tilde, oldSchema, k, v, ctx, inp);
      if g.Stop? then Stop(g.halt)
      else
        Replaced(ph, i, g.value.entry);
        LegacyGrowFrom(tilde, oldSchema, ph[i := (k, g.value.entry)], i + 1, Context.Insert(g.value.ctx, k, g.value.entry), g.value.rest)
  }

  /** One placeholder of the growth loop, as the program runs it. */
  method LegacyGrowEntryMethod(tilde: string -> string, oldSchema: Option<seq<(string, EntryType)>>, k: string, v: EntryType,
                               ctx: Ctx, inp: Input) returns (r: Step<Resolved>)
    ensures r == LegacyGrowEntry(tilde, oldSchema, k, v, ctx, inp)
  {
    if !v.Array? {
      return Next(Resolved(ctx, v, inp));
    }
    var arr := v.items;
    var b := BooleanPrompt(inp);
    if b.Stop? {
      return Stop(b.halt);
    }
    if !b.value.0 {
      var name := GetShortNames(arr);
      return Next(Resolved(InsertStr(ctx, k + "_shortNames", name), v, b.value.1));
    }
    if oldSchema.None? || Get(oldSchema.value, k).None? {
      return Stop(Panic("called `Option::unwrap()` on a `None` value"));
    }
    var o := Get(oldSchema.value, k).value;
    if !o.Array? {
      return Next(Resolved(ctx, v, b.value.1));
    }
    if o.items == [] {
      return Stop(Panic("called `Option::unwrap()` on a `None` value"));
    }
    arr := [o.items[0]] + arr;
    r := LegacyReadArrayMethod(tilde, k, arr, ctx, b.value.1);
  }

  /** Legacy `update`'s growth loop, as the program runs it. */
  method LegacyGrow(tilde: string -> string, oldSchema: Option<seq<(string, EntryType)>>, placeholders: seq<(string, EntryType)>,
                    ctx: Ctx, inp: Input) returns (r: Step<Collected>)
    ensures r == LegacyGrowFrom(tilde, oldSchema, placeholders, 0, ctx, inp)
  {
    var ph, c, rest := placeholders, ctx, inp;
    for i := 0 to |ph|
      invariant |ph| == |placeholders|
      invariant LegacyGrowFrom(tilde, oldSchema, ph, i, c, rest) == LegacyGrowFrom(tilde, oldSchema, placeholders, 0, ctx, inp)
    {
      var (k, v) := ph[i];
      var g := LegacyGrowEntryMethod(tilde, oldSchema, k, v, c, rest);
      if g.Stop? {
        return Stop(g.halt);
      }
      ph := ph[i := (k, g.value.entry)];
      c := Context.Insert(g.value.ctx, k, g.value.entry);
      rest := g.value.rest;
    }
    return Next(Collected(ph, c, rest));
  }

  /** Legacy `update`: with `fail`, a module without a home or missing from the repository
      exits with status 1; without it the run goes on to the reads, which then panic. */
  function LegacyUpdate(env: Env, fuel: nat, name: string, fail: bool, w: World): Run<()> {
    if fuel == 0 then Run(w, Stop(StackOverflow))
    else if fail && (!Exists(w.fs, ModuleHome(env, name)) || !Exists(w.fs, ModuleDir(env, name))) then Run(w, Stop(Exit(1)))
    else
      var l := Load(env, name, w.fs, Binary);
      if l.Stop? then Run(w, Stop(l.halt))
      else LegacyUpdateLoaded(env, fuel, name, fail, l.value, w)
  }

  /** Legacy `update` once its descriptors are loaded: a changed placeholder schema aborts
      with status 1 when failures are fatal and is otherwise ignored; the record's
      dependencies are installed; the rest is `LegacyUpdateRest`. */
  function LegacyUpdateLoaded(env: Env, fuel: nat, name: string, fail: bool, l: Loaded, w: World): (r: Run<()>)
    requires fuel > 0
    ensures fail && !OptFieldsEq(l.oldConfig.placeholders, l.newConfig.placeholders) ==> r == Run(w, Stop(Exit(1)))
  {
    if fail && !InfoEq(l.oldConfig, l.newConfig) && !OptFieldsEq(l.oldConfig.placeholders, l.newConfig.placeholders) then
      Run(w, Stop(Exit(1)))
    else
      var d := LegacyInstallDeps(env, fuel - 1, Deps(l.data), 0, w);
      if d.out.Stop? then d else LegacyUpdateRest(env, name, l, d.w)
  }

  /** Legacy `update` after its dependencies: the record's placeholders grow, and
      `LegacyUpdateFinish` does the rest with the grown record. */
  function LegacyUpdateRest(env: Env, name: string, l: Loaded, w: World): Run<()> {
    var g := LegacyGrowFrom(env.tilde, l.oldConfig.placeholders, l.data.placeholders.GetOr([]), 0, Empty, w.input);
    if g.Stop? then Run(w, Stop(g.halt))
    else
      var rec := if l.data.placeholders.Some? then l.data.(placeholders := Some(g.value.ph)) else l.data;
      LegacyUpdateFinish(env, name, l.template, rec, l.newConfig, g.value.ctx, w.(input := g.value.rest))
  }

  /** The last steps of legacy `update`: "Update supporting files?" decides whether the
      supporting files are copied while they are published, the script is rendered, and
      `LegacyCommit` asks for confirmation. */
  function LegacyUpdateFinish(env: Env, name: string, template: string, rec: PluginInfo, newConfig: PluginInfo, ctx: Ctx, w: World): Run<()> {
    var p := BooleanPrompt(w.input);
    if p.Stop? then Run(w, Stop(p.halt))
    else
      var w1 := w.(input := p.value.1);
      var a := if newConfig.supportingFiles.Some? then
                 AddFilesAsVars(env, ModuleDir(env, name), newConfig.supportingFiles.value, ctx, ModuleHome(env, name), p.value.0, w1)
               else Run(w1, Next(ctx));
      if a.out.Stop? then Run(a.w, Stop(a.out.halt))
      else LegacyCommit(env, name, rec, env.render(template, a.out.value), a.w)
  }

  /** The end of legacy `update`: the old script must exist; declining "Update?" exits with
      status 1, a yes writes the new script and the record. */
  function LegacyCommit(env: Env, name: string, rec: PluginInfo, script: string, w: World): Run<()> {
    if ReadText(w.fs, ModuleHome(env, name) + ["script.sh"]).None? then Run(w, Stop(Panic("Old script was not existent")))
    else
      var q := BooleanPrompt(w.input);
      if q.Stop? then Run(w, Stop(q.halt))
      else
        var w1 := w.(input := q.value.1);
        if !q.value.0 then Run(w1, Stop(Exit(1)))
        else Run(WriteFile(env, name, rec, script, ModuleDir(env, name), w1), Next(()))
  }

  // ---- update all ----

  /** "update all" updates an installed module exactly when both versions parse, the
      repository's is greater, and the placeholder schemas are equal. */
  predicate Selected(config: PluginInfo, newConfig: PluginInfo) {
    Newer(Parse(config.pluginInfo.version), Parse(newConfig.pluginInfo.version)) &&
    OptFieldsEq(config.placeholders, newConfig.placeholders)
  }

  /** The module name of a listed script: its path with `/script.sh` removed. */
  function ListedName(listed: string): string {
    ReplaceAll(listed, "/script.sh", "")
  }

  /** One listed module of "update all": both descriptors must be readable; a selected
      module is updated without failing on errors, any other is skipped. */
  function UpdateListed(env: Env, fuel: nat, listed: string, w: World): (r: Run<()>)
    ensures Skipped(env, w.fs, listed) ==> r == Run(w, Next(()))
  {
    var name := ListedName(listed);
    var config := ReadConfig(w.fs, ModuleHome(env, name) + ["config.toml"], Binary);
    var newConfig := ReadConfig(w.fs, ModuleDir(env, name) + ["config.toml"], Binary);
    if config.None? then Run(w, Stop(Panic("No config for module found")))
    else if newConfig.None? then Run(w, Stop(Panic("Cannot find module")))
    else if Selected(config.value, newConfig.value) then LegacyUpdate(env, fuel, name, false, w)
    else Run(w, Next(()))
  }

  /** The listed module's descriptors both read, and "update all" does not select it. */
  predicate Skipped(env: Env, fs: Fs, listed: string) {
    var c := ReadConfig(fs, ModuleHome(env, ListedName(listed)) + ["config.toml"], Binary);
    var n := ReadConfig(fs, ModuleDir(env, ListedName(listed)) + ["config.toml"], Binary);
    c.Some? && n.Some? && !Selected(c.value, n.value)
  }

  /** What is left of "update all" from listed module `i` on; the first failure ends it. */
  function UpdateAllFrom(env: Env, fuel: nat, modules: seq<string>, i: nat, w: World): Run<()>
    requires i <= |modules|
    decreases |modules| - i
  {
    if i == |modules| then Run(w, Next(()))
    else
      var r := UpdateListed(env, fuel, modules[i], w);
      if r.out.Stop? then r else UpdateAllFrom(env, fuel, modules, i + 1, r.w)
  }

  /** "update all": over the installed modules as they are listed at the start. */
  function UpdateAll(env: Env, fuel: nat, w: World): Run<()> {
    UpdateAllFrom(env, fuel, Collect(w.fs, env.order, env.home, env.home), 0, w)
  }

  // ---- The program's run ----

  /** Legacy `install`, as the program runs it. */
  method LegacyInstallMethod(m: Machine, env: Env, fuel: nat, name: string) returns (r: Step<()>)
    modifies m
    ensures Run(m.State(), r) == LegacyInstall(env, fuel, name, old(m.State()))
    decreases fuel, 2
  {
    if fuel == 0 {
      return Stop(StackOverflow);
    }
    if Exists(m.fs, ModuleHome(env, name)) {
      return Next(());
    }
    var moduleDir := ModuleDir(env, name);
    if !Exists(m.fs, moduleDir) {
      return Stop(Exit(1));
    }
    var template := ReadText(m.fs, moduleDir + ["template.sh"]);
    if template.None? {
      return Stop(Panic("Could not parse mustache template"));
    }
    var toml := ReadConfig(m.fs, moduleDir + ["config.toml"], Binary);
    if toml.None? {
      return Stop(Panic("Cannot find TOML"));
    }
    r := LegacyInstallFoundMethod(m, env, fuel, name, template.value, toml.value);
  }

  method LegacyInstallFoundMethod(m: Machine, env: Env, fuel: nat, name: string, template: string, toml: PluginInfo)
    returns (r: Step<()>)
    requires fuel > 0
    modifies m
    ensures Run(m.State(), r) == LegacyInstallFound(env, fuel, name, template, toml, old(m.State()))
    decreases fuel, 1
  {
    var depth :| depth + 1 == fuel;
    r := LegacyInstallDepsMethod(m, env, depth, Deps(toml));
    if r.Stop? {
      return;
    }
    r := LegacyInstallRestMethod(m, env, name, template, toml);
  }

  /** The dependency loop of legacy `install` and `update`. */
  method LegacyInstallDepsMethod(m: Machine, env: Env, fuel: nat, deps: seq<string>) returns (r: Step<()>)
    modifies m
    ensures Run(m.State(), r) == LegacyInstallDeps(env, fuel, deps, 0, old(m.State()))
    decreases fuel + 1, 0
  {
    for i := 0 to |deps|
      invariant LegacyInstallDeps(env, fuel, deps, i, m.State()) == LegacyInstallDeps(env, fuel, deps, 0, old(m.State()))
    {
      var s := LegacyInstallMethod(m, env, fuel, deps[i]);
      if s.Stop? {
        return s;
      }
    }
    return Next(());
  }

  method LegacyInstallRestMethod(m: Machine, env: Env, name: string, template: string, toml: PluginInfo) returns (r: Step<()>)
    modifies m
    ensures Run(m.State(), r) == LegacyInstallRest(env, name, template, toml, old(m.State()))
  {
    var f := LegacyFillPlaceholders(env.tilde, toml.placeholders.GetOr([]), Empty, m.input);
    if f.Stop? {
      return Stop(f.halt);
    }
    m.Answered(f.value.rest);
    var rec := if toml.placeholders.Some? then toml.(placeholders := Some(f.value.ph)) else toml;
    var home := ModuleHome(env, name);
    var _ := m.CreateDirAll(home);
    var ctx := f.value.ctx;
    if rec.supportingFiles.Some? {
      var a := AddFilesAsVarsMethod(m, env, ModuleDir(env, name), rec.supportingFiles.value, ctx, home, true);
      if a.Stop? {
        return Stop(a.halt);
      }
      ctx := a.value;
    }
    WriteFileMethod(m, env, name, rec, env.render(template, ctx), ModuleDir(env, name));
    return Next(());
  }

  /** Legacy `update`, as the program runs it. */
  method LegacyUpdateMethod(m: Machine, env: Env, fuel: nat, name: string, fail: bool) returns (r: Step<()>)
    modifies m
    ensures Run(m.State(), r) == LegacyUpdate(env, fuel, name, fail, old(m.State()))
  {
    if fuel == 0 {
      return Stop(StackOverflow);
    }
    if fail && (!Exists(m.fs, ModuleHome(env, name)) || !Exists(m.fs, ModuleDir(env, name))) {
      return Stop(Exit(1));
    }
    var l := Load(env, name, m.fs, Binary);
    if l.Stop? {
      return Stop(l.halt);
    }
    r := LegacyUpdateLoadedMethod(m, env, fuel, name, fail, l.value);
  }

  method LegacyUpdateLoadedMethod(m: Machine, env: Env, fuel: nat, name: string, fail: bool, l: Loaded) returns (r: Step<()>)
    requires fuel > 0
    modifies m
    ensures Run(m.State(), r) == LegacyUpdateLoaded(env, fuel, name, fail, l, old(m.State()))
  {
    if fail && !InfoEq(l.oldConfig, l.newConfig) && !OptFieldsEq(l.oldConfig.placeholders, l.newConfig.placeholders) {
      return Stop(Exit(1));
    }
    var depth :| depth + 1 == fuel;
    r := LegacyInstallDepsMethod(m, env, depth, Deps(l.data));
    if r.Stop? {
      return;
    }
    r := LegacyUpdateRestMethod(m, env, name, l);
  }

  method LegacyUpdateRestMethod(m: Machine, env: Env, name: string, l: Loaded) returns (r: Step<()>)
    modifies m
    ensures Run(m.State(), r) == LegacyUpdateRest(env, name, l, old(m.State()))
  {
    var g := LegacyGrow(env.tilde, l.oldConfig.placeholders, l.data.placeholders.GetOr([]), Empty, m.input);
    if g.Stop? {
      return Stop(g.halt);
    }
    m.Answered(g.value.rest);
    var rec := if l.data.placeholders.Some? then l.data.(placeholders := Some(g.value.ph)) else l.data;
    var p := BooleanPrompt(m.input);
    if p.Stop? {
      return Stop(p.halt);
    }
    m.Answered(p.value.1);
    var c := g.value.ctx;
    if l.newConfig.supportingFiles.Some? {
      var a := AddFilesAsVarsMethod(m, env, ModuleDir(env, name), l.newConfig.supportingFiles.value, c, ModuleHome(env, name), p.value.0);
      if a.Stop? {
        return Stop(a.halt);
      }
      c := a.value;
    }
    r := LegacyCommitMethod(m, env, name, rec, env.render(l.template, c));
  }

  method LegacyCommitMethod(m: Machine, env: Env, name: string, rec: PluginInfo, script: string) returns (r: Step<()>)
    modifies m
    ensures Run(m.State(), r) == LegacyCommit(env, name, rec, script, old(m.State()))
  {
    if ReadText(m.fs, ModuleHome(env, name) + ["script.sh"]).None? {
      return Stop(Panic("Old script was not existent"));
    }
    var q := BooleanPrompt(m.input);
    if q.Stop? {
      return Stop(q.halt);
    }
    m.Answered(q.value.1);
    if !q.value.0 {
      return Stop(Exit(1));
    }
    WriteFileMethod(m, env, name, rec, script, ModuleDir(env, name));
    return Next(());
  }

  /** "update all", as the program runs it. */
  method UpdateAllMethod(m: Machine, env: Env, fuel: nat) returns (r: Step<()>)
    modifies m
    ensures Run(m.State(), r) == UpdateAll(env, fuel, old(m.State()))
  {
    var modules := GetListOfInstalledModules(m, env, env.home, env.home);
    for i := 0 to |modules|
      invariant UpdateAllFrom(env, fuel, modules, i, m.State()) == UpdateAll(env, fuel, old(m.State()))
    {
      var s := UpdateListedMethod(m, env, fuel, modules[i]);
      if s.Stop? {
        return s;
      }
    }
    return Next(());
  }

  method UpdateListedMethod(m: Machine, env: Env, fuel: nat, listed: string) returns (r: Step<()>)
    modifies m
    ensures Run(m.State(), r) == UpdateListed(env, fuel, listed, old(m.State()))
  {
    var name := ListedName(listed);
    var config := ReadConfig(m.fs, ModuleHome(env, name) + ["config.toml"], Binary);
    if config.None? {
      return Stop(Panic("No config for module found"));
    }
    var newConfig := ReadConfig(m.fs, ModuleDir(env, name) + ["config.toml"], Binary);
    if newConfig.None? {
      return Stop(Panic("Cannot find module"));
    }
    if Selected(config.value, newConfig.value) {
      r := LegacyUpdateMethod(m, env, fuel, name, false);
    } else {
      r := Next(());
    }
  }

  // ---- Properties ----

  /** Legacy list growth agrees with the library's append: when the record's list starts
      with the old schema's prototype (a tree whose own lists are bare prototypes), legacy
      growth asks the same questions and gives the same list as the library's growth; only
      the short names it publishes cover the whole list, not just the new elements. */
  lemma GrowthIsAppend(tilde: string -> string, stored: Option<seq<(string, EntryType)>>, oldSchema: Option<seq<(string, EntryType)>>,
                       k: string, v: EntryType, ctx: Ctx, inp: Input)
    requires v.Array? && v.items != [] && stored.Some? && Get(stored.value, k).Some?
    requires oldSchema.Some? && Get(oldSchema.value, k).Some?
    requires var o := Get(oldSchema.value, k).value; o.Array? && o.items != [] && o.items[0] == v.items[0]
    requires WellFormed(v.items[0]) && OnePrototype(v.items[0])
    ensures var l := LegacyGrowEntry(tilde, oldSchema, k, v, ctx, inp);
            var g := GrowEntry(tilde, false, stored, oldSchema, k, v, ctx, inp);
      l.Next? == g.Next? && (l.Stop? ==> l.halt == g.halt) &&
      (l.Next? ==> g.value.entry.Array? && l.value.entry == g.value.entry && l.value.rest == g.value.rest &&
                   l.value.ctx == InsertStr(g.value.ctx, k + "_shortNames", ShortNames(g.value.entry.items)))
  {
    var b := BooleanPrompt(inp);
    if b.Next? && b.value.0 {
      var p := v.items[0];
      assert ([p] + v.items)[1..] == v.items;
      assert v.items + [] == v.items;
      ArrayLoopAgrees(tilde, k, p, ctx, b.value.1, v.items);
      ArrayLoopShift(tilde, k, p, ctx, b.value.1, v.items, []);
    }
  }

  /** A yes to "Add new elements" for a list the old schema holds as a non-empty list keeps
      every element of the record's list, in order, and appends at least one. */
  lemma GrowthAppends(tilde: string -> string, oldSchema: Option<seq<(string, EntryType)>>, k: string, v: EntryType, ctx: Ctx, inp: Input)
    requires v.Array? && SaidYes(inp) && oldSchema.Some? && Get(oldSchema.value, k).Some?
    requires var o := Get(oldSchema.value, k).value; o.Array? && o.items != []
    ensures var r := LegacyGrowEntry(tilde, oldSchema, k, v, ctx, inp);
      r.Next? ==> r.value.entry.Array? && v.items < r.value.entry.items
  {
    var o := Get(oldSchema.value, k).value;
    var r := LegacyReadArray(tilde, k, [o.items[0]] + v.items, ctx, inp[1..]);
    assert ([o.items[0]] + v.items)[1..] == v.items;
    assert r.Next? ==> Kept(Array([o.items[0]] + v.items), r.value.entry);
  }

  /** Without `fail`, legacy `update` of a module that has no home does not stop at the
      check: it goes on and panics at the first read, before anything changes. */
  lemma NotInstalledPanics(env: Env, fuel: nat, name: string, w: World)
    requires Tree(w.fs) && fuel > 0 && !Exists(w.fs, ModuleHome(env, name))
    ensures var r := LegacyUpdate(env, fuel, name, false, w);
      r.w == w && r.out.Stop? && r.out.halt.Panic?
  {
    var home := ModuleHome(env, name);
    assert Parent(home + ["data.toml"]) == home;
    assert ReadConfig(w.fs, home + ["data.toml"], Binary).None?;
  }

  /** Declining both "Update supporting files?" and "Update?" exits with status 1 and leaves
      the file system as it was: only the two answers are consumed. */
  lemma LegacyDeclineBoth(env: Env, name: string, template: string, rec: PluginInfo, newConfig: PluginInfo, ctx: Ctx,
                          w: World, rest: Input)
    requires w.input == [Confirmed(false), Confirmed(false)] + rest
    requires ReadText(w.fs, ModuleHome(env, name) + ["script.sh"]).Some?
    ensures LegacyUpdateFinish(env, name, template, rec, newConfig, ctx, w) == Run(w.(input := rest), Stop(Exit(1)))
  {
    var w1 := w.(input := [Confirmed(false)] + rest);
    assert w.input[0] == Confirmed(false) && w.input[1..] == w1.input;
    assert w1.input[0] == Confirmed(false) && w1.input[1..] == rest;
    if newConfig.supportingFiles.Some? {
      NoOverwrite(env, ModuleDir(env, name), newConfig.supportingFiles.value, ctx, ModuleHome(env, name), w1);
    }
  }

  /** "update all" selects only modules that `check_module_state` would report as having
      a new version, and of those only the ones whose placeholder schema is unchanged. */
  lemma SelectedIsNewVersion(config: PluginInfo, newConfig: PluginInfo, script: bool, template: bool)
    ensures Selected(config, newConfig) <==>
      Classify(Parse(config.pluginInfo.version), Parse(newConfig.pluginInfo.version), InfoEq(config, newConfig), script, template)
        == NeedsUpdate(NewVersion) && OptFieldsEq(config.placeholders, newConfig.placeholders)
  {
    ClassifyCases(Parse(config.pluginInfo.version), Parse(newConfig.pluginInfo.version), InfoEq(config, newConfig), script, template);
  }

  /** When no listed module is selected, "update all" reads the descriptors and changes
      nothing. */
  lemma {:induction false} UpdateAllSkips(env: Env, fuel: nat, modules: seq<string>, i: nat, w: World)
    requires i <= |modules|
    requires forall j :: i <= j < |modules| ==> Skipped(env, w.fs, modules[j])
    ensures UpdateAllFrom(env, fuel, modules, i, w) == Run(w, Next(()))
    decreases |modules| - i
  {
    if i < |modules| {
      var r := UpdateListed(env, fuel, modules[i], w);
      assert r.w == w && r.out.Next?;
      UpdateAllSkips(env, fuel, modules, i + 1, w);
      assert UpdateAllFrom(env, fuel, modules, i, w) == UpdateAllFrom(env, fuel, modules, i + 1, r.w);
    }
  }
}
