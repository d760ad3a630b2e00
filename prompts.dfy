/** The value collector of src/prompts.rs. The terminal is a stream of answers, one per
    prompt; a prompt that finds the stream empty fails like a broken terminal does.
    `shellexpand::tilde` is the parameter `tilde`. */
module Prompts {
  import opened Wrappers
  import opened IndexMaps
  import opened Models
  import opened Context
  import opened Strings

  /** What the user does at one prompt: types a line, answers yes or no, or cancels. */
  datatype Answer = Typed(text: string) | Confirmed(yes: bool) | Cancelled

  type Input = seq<Answer>

  /** `rest` is what is left of `inp` after some prompts consumed its front. */
  predicate IsSuffix(rest: Input, inp: Input) {
    |rest| <= |inp| && rest == inp[|inp| - |rest|..]
  }

  lemma SuffixTransitive(a: Input, b: Input, c: Input)
    requires IsSuffix(a, b) && IsSuffix(b, c)
    ensures IsSuffix(a, c)
  {
    assert c[|c| - |b|..][|b| - |a|..] == c[|c| - |a|..];
  }

  /** The stream after one prompt. */
  function Next1(inp: Input): (rest: Input)
    ensures IsSuffix(rest, inp) && (inp != [] ==> |rest| == |inp| - 1)
  {
    if inp == [] then [] else inp[1..]
  }

  /** A `ConfirmPrompt` answered with yes. */
  predicate SaidYes(inp: Input) {
    inp != [] && inp[0] == Confirmed(true)
  }

  /** `boolean_prompt`: the yes/no answer; a cancel, or anything else, exits with status 1. */
  function BooleanPrompt(inp: Input): (r: Step<(bool, Input)>)
    ensures r.Next? <==> inp != [] && inp[0].Confirmed?
    ensures r.Next? ==> r.value == (inp[0].yes, inp[1..])
    ensures r.Stop? ==> r.halt == Exit(1)
  {
    if inp != [] && inp[0].Confirmed? then Next((inp[0].yes, inp[1..])) else Stop(Exit(1))
  }

  /** The outcome of resolving one prototype: the context, the resolved value, the answers left. */
  datatype Resolved = Resolved(ctx: Ctx, entry: EntryType, rest: Input)

  /** `read_value`: prompts with the default; an empty answer keeps the default, a non-empty
      one replaces it, and either is tilde-expanded; a cancelled or failed prompt exits with 1. */
  function ReadValue(tilde: string -> string, default: string, inp: Input): (r: Step<(EntryType, Input)>)
    ensures r.Stop? <==> inp == [] || !inp[0].Typed?
    ensures r.Stop? ==> r.halt == Exit(1)
    ensures r.Next? ==> r.value.1 == inp[1..] &&
                        r.value.0 == Value(tilde(if inp[0].text == "" then default else inp[0].text))
  {
    if inp != [] && inp[0].Typed? then
      var s := inp[0].text;
      Next((Value(if s != "" then tilde(s) else tilde(default)), inp[1..]))
    else Stop(Exit(1))
  }

  /** `read`: a scalar is prompted for, a list is collected from its first element, a group
      field by field. */
  function Read(tilde: string -> string, key: string, e: EntryType, ctx: Ctx, inp: Input): (r: Step<Resolved>)
    ensures r.Next? ==> |r.value.rest| <= |inp|
    decreases e, 1, 0
  {
    match e
    case Value(s) =>
      var v := ReadValue(tilde, s, inp);
      if v.Stop? then Stop(v.halt) else Next(Resolved(ctx, v.value.0, v.value.1))
    case Array(items) =>
      if items == [] then Stop(Panic("index out of bounds"))
      else ReadArrayLoop(tilde, key, items[0], ctx, inp, [])
    case Object(fields) =>
      ReadFieldsFrom(tilde, e, 0, ctx, inp, [])
  }

  /** What is left of `read_array`'s loop once `acc` has been collected: resolve a fresh copy
      of the prototype, append it, and continue while "Another one?" is answered yes; then
      publish `<key>_shortNames` of the collected elements. */
  function ReadArrayLoop(tilde: string -> string, key: string, proto: EntryType, ctx: Ctx, inp: Input, acc: seq<EntryType>): (r: Step<Resolved>)
    ensures r.Next? ==> |r.value.rest| <= |inp|
    decreases proto, 2, |inp|
  {
    var x := Read(tilde, key, proto, ctx, inp);
    if x.Stop? then Stop(x.halt)
    else
      var items := acc + [x.value.entry];
      var rest := Next1(x.value.rest);
      if SaidYes(x.value.rest) then ReadArrayLoop(tilde, key, proto, x.value.ctx, rest, items)
      else Next(Resolved(InsertStr(x.value.ctx, key + "_shortNames", ShortNames(items)), Array(items), rest))
  }

  /** What is left of `read_object`'s loop once the fields before `i` have been read into
      `acc`: each field is read in order under its own key, threading the context, and
      inserted into the new group. */
  function ReadFieldsFrom(tilde: string -> string, o: EntryType, i: nat, ctx: Ctx, inp: Input, acc: seq<(string, EntryType)>): (r: Step<Resolved>)
    requires o.Object? && i <= |o.fields|
    ensures r.Next? ==> |r.value.rest| <= |inp| && r.value.entry.Object?
    decreases o, 0, |o.fields| - i
  {
    if i == |o.fields| then Next(Resolved(ctx, Object(acc), inp))
    else
      var k := o.fields[i].0;
      var x := Read(tilde, k, o.fields[i].1, ctx, inp);
      if x.Stop? then x
      else ReadFieldsFrom(tilde, o, i + 1, x.value.ctx, x.value.rest, IndexMaps.Insert(acc, k, x.value.entry))
  }

  // ---- Short names ----

  /** The `shortName` of a list element, when it is a group holding a scalar under that key. */
  function ShortName(e: EntryType): (r: Option<string>)
    ensures r.Some? <==> e.Object? && Get(e.fields, "shortName").Some? && Get(e.fields, "shortName").value.Value?
    ensures r.Some? ==> Get(e.fields, "shortName") == Some(Value(r.value))
  {
    if e.Object? then
      var v := Get(e.fields, "shortName");
      if v.Some? && v.value.Value? then Some(v.value.text) else None
    else None
  }

  /** The short names of a list, in list order; other elements are skipped. */
  function ShortNameList(arr: seq<EntryType>): (r: seq<string>)
    ensures |r| <= |arr|
  {
    if arr == [] then []
    else
      var last := ShortName(arr[|arr| - 1]);
      ShortNameList(arr[..|arr| - 1]) + (if last.Some? then [last.value] else [])
  }

  /** `get_short_names`. */
  function ShortNames(arr: seq<EntryType>): string {
    JoinWith(ShortNameList(arr), " ")
  }

  lemma {:induction false} ShortNameListConcat(a: seq<EntryType>, b: seq<EntryType>)
    ensures ShortNameList(a + b) == ShortNameList(a) + ShortNameList(b)
    decreases |b|
  {
    if b == [] {
      assert a + b == a;
    } else {
      var ab := a + b;
      assert ab[..|ab| - 1] == a + b[..|b| - 1];
      assert ab[|ab| - 1] == b[|b| - 1];
      ShortNameListConcat(a, b[..|b| - 1]);
    }
  }

  /** Short names are the named group elements, in order: an element contributes exactly
      when it is a group with a scalar `shortName`. */
  lemma {:induction false} ShortNameListMembers(arr: seq<EntryType>, name: string)
    ensures name in ShortNameList(arr) <==> exists i :: 0 <= i < |arr| && ShortName(arr[i]) == Some(name)
  {
    if arr != [] {
      var init, last := arr[..|arr| - 1], ShortName(arr[|arr| - 1]);
      var tail := if last.Some? then [last.value] else [];
      assert ShortNameList(arr) == ShortNameList(init) + tail;
      ShortNameListMembers(init, name);
      if name in ShortNameList(arr) {
        if name in ShortNameList(init) {
          var i :| 0 <= i < |init| && ShortName(init[i]) == Some(name);
          assert arr[i] == init[i];
        } else {
          assert last == Some(name);
        }
      }
      if exists i :: 0 <= i < |arr| && ShortName(arr[i]) == Some(name) {
        var i :| 0 <= i < |arr| && ShortName(arr[i]) == Some(name);
        if i < |arr| - 1 {
          assert init[i] == arr[i];
        } else {
          assert name in tail;
        }
      }
    }
  }

  /** A list with no named groups, such as a list of scalars, has no short names. */
  lemma {:induction false} NoShortNames(arr: seq<EntryType>)
    requires forall i :: 0 <= i < |arr| ==> !arr[i].Object?
    ensures ShortNames(arr) == ""
  {
    if arr != [] {
      NoShortNames(arr[..|arr| - 1]);
    }
  }

  // ---- The loops ----

  /** `get_short_names`, as the loop the program runs. */
  method GetShortNames(arr: seq<EntryType>) returns (s: string)
    ensures s == ShortNames(arr)
  {
    var names: seq<string> := [];
    for i := 0 to |arr|
      invariant names == ShortNameList(arr[..i])
    {
      assert arr[..i + 1][..i] == arr[..i];
      var e := arr[i];
      if e.Object? {
        if "shortName" in Keys(e.fields) {
          var v := Get(e.fields, "shortName");
          if v.Some? && v.value.Value? {
            names := names + [v.value.text];
          }
        }
      }
    }
    assert arr[..|arr|] == arr;
    s := JoinWith(names, " ");
  }

  /** `read_array`, as the loop the program runs. */
  method ReadArray(tilde: string -> string, key: string, proto: EntryType, ctx: Ctx, inp: Input) returns (r: Step<Resolved>)
    ensures r == ReadArrayLoop(tilde, key, proto, ctx, inp, [])
  {
    var newArray: seq<EntryType> := [];
    var c, i := ctx, inp;
    while true
      invariant ReadArrayLoop(tilde, key, proto, c, i, newArray) == ReadArrayLoop(tilde, key, proto, ctx, inp, [])
      decreases |i|
    {
      var x := Read(tilde, key, proto, c, i);
      if x.Stop? {
        return Stop(x.halt);
      }
      newArray := newArray + [x.value.entry];
      c := x.value.ctx;
      var again := SaidYes(x.value.rest);
      i := Next1(x.value.rest);
      if !again {
        break;
      }
    }
    var name := GetShortNames(newArray);
    c := InsertStr(c, key + "_shortNames", name);
    return Next(Resolved(c, Array(newArray), i));
  }

  /** `read_object`, as the loop the program runs. */
  method ReadObject(tilde: string -> string, fields: seq<(string, EntryType)>, ctx: Ctx, inp: Input) returns (r: Step<Resolved>)
    ensures r == ReadFieldsFrom(tilde, Object(fields), 0, ctx, inp, [])
  {
    ghost var o := Object(fields);
    var newObj: seq<(string, EntryType)> := [];
    var c, rest := ctx, inp;
    for i := 0 to |fields|
      invariant ReadFieldsFrom(tilde, o, i, c, rest, newObj) == ReadFieldsFrom(tilde, o, 0, ctx, inp, [])
    {
      var x := Read(tilde, fields[i].0, fields[i].1, c, rest);
      if x.Stop? {
        return Stop(x.halt);
      }
      c, rest := x.value.ctx, x.value.rest;
      newObj := IndexMaps.Insert(newObj, fields[i].0, x.value.entry);
    }
    return Next(Resolved(c, Object(newObj), rest));
  }

  // ---- Shape of resolved values ----

  /** `e` has the shape of prototype `p`: same kind, a group keeps its keys in order, a list
      has at least one element and every element has the shape of the prototype's first. */
  predicate Conforms(p: EntryType, e: EntryType) {
    match p
    case Value(_) => e.Value?
    case Array(items) =>
      items != [] && e.Array? && e.items != [] && forall i :: 0 <= i < |e.items| ==> Conforms(items[0], e.items[i])
    case Object(fields) =>
      e.Object? && Keys(e.fields) == Keys(fields) &&
      forall i :: 0 <= i < |fields| ==> Conforms(fields[i].1, e.fields[i].1)
  }

  /** A resolved tree has the shape of its (well-formed) prototype. */
  lemma {:induction false} ReadConforms(tilde: string -> string, key: string, e: EntryType, ctx: Ctx, inp: Input)
    requires WellFormed(e)
    ensures var r := Read(tilde, key, e, ctx, inp); r.Next? ==> Conforms(e, r.value.entry)
    decreases e, 1, 0
  {
    match e
    case Value(_) =>
    case Array(items) =>
      if items != [] {
        ArrayConforms(tilde, key, items[0], ctx, inp, []);
        ArrayLoopExtends(tilde, key, items[0], ctx, inp, []);
        var r := Read(tilde, key, e, ctx, inp);
        if r.Next? {
          assert Conforms(e, r.value.entry);
        }
      }
    case Object(fields) =>
      FieldsConform(tilde, e, 0, ctx, inp, []);
  }

  /** Resolving a scalar leaves the context as it was and consumes one answer; a list
      without elements has no prototype to read and panics on the index. */
  lemma ReadScalarAndEmpty(tilde: string -> string, key: string, e: EntryType, ctx: Ctx, inp: Input)
    ensures var r := Read(tilde, key, e, ctx, inp);
      (e.Value? && r.Next? ==> r.value.ctx == ctx && r.value.entry.Value? && r.value.rest == inp[1..]) &&
      (e == Array([]) ==> r.Stop? && r.halt.Panic?)
  {
  }

  /** `read_array` keeps what it has collected and always adds at least one element. */
  lemma {:induction false} ArrayLoopExtends(tilde: string -> string, key: string, proto: EntryType, ctx: Ctx, inp: Input, acc: seq<EntryType>)
    ensures var r := ReadArrayLoop(tilde, key, proto, ctx, inp, acc);
      r.Next? ==> r.value.entry.Array? && |r.value.entry.items| > |acc| && r.value.entry.items[..|acc|] == acc &&
                  key + "_shortNames" in r.value.ctx && r.value.ctx[key + "_shortNames"] == Str(ShortNames(r.value.entry.items))
    decreases |inp|
  {
    var x := Read(tilde, key, proto, ctx, inp);
    if x.Next? && SaidYes(x.value.rest) {
      var items := acc + [x.value.entry];
      ArrayLoopExtends(tilde, key, proto, x.value.ctx, Next1(x.value.rest), items);
      var r := ReadArrayLoop(tilde, key, proto, x.value.ctx, Next1(x.value.rest), items);
      if r.Next? {
        assert r.value.entry.items[..|acc|] == r.value.entry.items[..|items|][..|acc|];
      }
    }
  }

  lemma {:induction false} ArrayConforms(tilde: string -> string, key: string, proto: EntryType, ctx: Ctx, inp: Input, acc: seq<EntryType>)
    requires WellFormed(proto) && forall i :: 0 <= i < |acc| ==> Conforms(proto, acc[i])
    ensures var r := ReadArrayLoop(tilde, key, proto, ctx, inp, acc);
      r.Next? ==> r.value.entry.Array? && forall i :: 0 <= i < |r.value.entry.items| ==> Conforms(proto, r.value.entry.items[i])
    decreases proto, 2, |inp|
  {
    var x := Read(tilde, key, proto, ctx, inp);
    if x.Next? {
      var items := acc + [x.value.entry];
      assert forall i :: 0 <= i < |items| ==> Conforms(proto, items[i]) by {
        ReadConforms(tilde, key, proto, ctx, inp);
      }
      if SaidYes(x.value.rest) {
        ArrayConforms(tilde, key, proto, x.value.ctx, Next1(x.value.rest), items);
      }
    }
  }

  /** The collector only adds to the context: every name published before stays published. */
  lemma {:induction false} ReadKeepsNames(tilde: string -> string, key: string, e: EntryType, ctx: Ctx, inp: Input)
    ensures var r := Read(tilde, key, e, ctx, inp); r.Next? ==> ctx.Keys <= r.value.ctx.Keys
    decreases e, 1, 0
  {
    match e
    case Value(_) =>
    case Array(items) =>
      if items != [] {
        ArrayLoopKeepsNames(tilde, key, items[0], ctx, inp, []);
      }
    case Object(_) =>
      FieldsKeepNames(tilde, e, 0, ctx, inp, []);
  }

  lemma {:induction false} ArrayLoopKeepsNames(tilde: string -> string, key: string, proto: EntryType, ctx: Ctx, inp: Input, acc: seq<EntryType>)
    ensures var r := ReadArrayLoop(tilde, key, proto, ctx, inp, acc); r.Next? ==> ctx.Keys <= r.value.ctx.Keys
    decreases proto, 2, |inp|
  {
    var x := Read(tilde, key, proto, ctx, inp);
    ReadKeepsNames(tilde, key, proto, ctx, inp);
    if x.Next? && SaidYes(x.value.rest) {
      ArrayLoopKeepsNames(tilde, key, proto, x.value.ctx, Next1(x.value.rest), acc + [x.value.entry]);
    }
  }

  lemma {:induction false} FieldsKeepNames(tilde: string -> string, o: EntryType, i: nat, ctx: Ctx, inp: Input, acc: seq<(string, EntryType)>)
    requires o.Object? && i <= |o.fields|
    ensures var r := ReadFieldsFrom(tilde, o, i, ctx, inp, acc); r.Next? ==> ctx.Keys <= r.value.ctx.Keys
    decreases o, 0, |o.fields| - i
  {
    if i < |o.fields| {
      var k := o.fields[i].0;
      var x := Read(tilde, k, o.fields[i].1, ctx, inp);
      ReadKeepsNames(tilde, k, o.fields[i].1, ctx, inp);
      if x.Next? {
        FieldsKeepNames(tilde, o, i + 1, x.value.ctx, x.value.rest, IndexMaps.Insert(acc, k, x.value.entry));
      }
    }
  }

  /** With unique keys, inserting the next field's key appends it. */
  lemma InsertNextField(fields: seq<(string, EntryType)>, i: nat, acc: seq<(string, EntryType)>, e: EntryType)
    requires i < |fields| && UniqueKeys(fields) && Keys(acc) == Keys(fields[..i])
    ensures IndexMaps.Insert(acc, fields[i].0, e) == acc + [(fields[i].0, e)]
    ensures Keys(acc + [(fields[i].0, e)]) == Keys(fields[..i + 1])
  {
    var k := fields[i].0;
    assert k !in Keys(acc) by {
      forall j | 0 <= j < |acc| ensures Keys(acc)[j] != k {
        assert Keys(acc)[j] == Keys(fields[..i])[j] == fields[j].0;
      }
    }
    assert Keys(fields[..i + 1]) == Keys(fields[..i]) + [k];
  }

  lemma {:induction false} FieldsConform(tilde: string -> string, o: EntryType, i: nat, ctx: Ctx, inp: Input, acc: seq<(string, EntryType)>)
    requires o.Object? && i <= |o.fields| && WellFormed(o)
    requires Keys(acc) == Keys(o.fields[..i]) && forall j :: 0 <= j < i ==> Conforms(o.fields[j].1, acc[j].1)
    ensures var r := ReadFieldsFrom(tilde, o, i, ctx, inp, acc);
      r.Next? ==> Keys(r.value.entry.fields) == Keys(o.fields) &&
                  forall j :: 0 <= j < |o.fields| ==> Conforms(o.fields[j].1, r.value.entry.fields[j].1)
    decreases o, 0, |o.fields| - i
  {
    if i == |o.fields| {
      assert o.fields[..i] == o.fields;
    } else {
      var k := o.fields[i].0;
      var x := Read(tilde, k, o.fields[i].1, ctx, inp);
      ReadConforms(tilde, k, o.fields[i].1, ctx, inp);
      if x.Next? {
        InsertNextField(o.fields, i, acc, x.value.entry);
        FieldsConform(tilde, o, i + 1, x.value.ctx, x.value.rest, IndexMaps.Insert(acc, k, x.value.entry));
      }
    }
  }

  // ---- Lists of scalars ----

  /** The answers that fill a list of scalars with `texts`: each text followed by yes to
      "Another one?", except the last, which is followed by `last` (anything but yes). */
  function ListAnswers(texts: seq<string>, last: Answer): Input
    requires texts != []
  {
    if |texts| == 1 then [Typed(texts[0]), last]
    else [Typed(texts[0]), Confirmed(true)] + ListAnswers(texts[1..], last)
  }

  lemma ListAnswersCons(texts: seq<string>, last: Answer, rest: Input)
    requires |texts| > 1
    ensures ListAnswers(texts, last) + rest == [Typed(texts[0]), Confirmed(true)] + (ListAnswers(texts[1..], last) + rest)
  {
  }

  /** The scalars those answers stand for, each defaulted and tilde-expanded. */
  function Expanded(tilde: string -> string, default: string, texts: seq<string>): (r: seq<EntryType>)
    ensures |r| == |texts|
  {
    if texts == [] then []
    else [Value(tilde(if texts[0] == "" then default else texts[0]))] + Expanded(tilde, default, texts[1..])
  }

  lemma ExpandedCons(tilde: string -> string, default: string, texts: seq<string>, acc: seq<EntryType>)
    requires texts != []
    ensures acc + [Value(tilde(if texts[0] == "" then default else texts[0]))] + Expanded(tilde, default, texts[1..])
            == acc + Expanded(tilde, default, texts)
  {
  }

  /** A scalar element followed by yes to "Another one?": the loop goes on. */
  lemma ScalarAgain(tilde: string -> string, key: string, default: string, ctx: Ctx, text: string, more: Input, acc: seq<EntryType>)
    ensures ReadArrayLoop(tilde, key, Value(default), ctx, [Typed(text), Confirmed(true)] + more, acc)
            == ReadArrayLoop(tilde, key, Value(default), ctx, more, acc + [Value(tilde(if text == "" then default else text))])
  {
    var inp := [Typed(text), Confirmed(true)] + more;
    assert inp[1..] == [Confirmed(true)] + more;
    assert inp[1..][1..] == more;
  }

  /** The last element of a list of scalars: anything but yes to "Another one?" ends it,
      including a stream with no answer left; the answer read for that prompt is consumed. */
  lemma LastScalar(tilde: string -> string, key: string, default: string, ctx: Ctx,
                   text: string, after: Input, acc: seq<EntryType>)
    requires !SaidYes(after)
    requires forall i :: 0 <= i < |acc| ==> acc[i].Value?
    ensures ReadArrayLoop(tilde, key, Value(default), ctx, [Typed(text)] + after, acc)
            == Next(Resolved(ctx[key + "_shortNames" := Str("")], Array(acc + [Value(tilde(if text == "" then default else text))]), Next1(after)))
  {
    var inp := [Typed(text)] + after;
    assert inp[1..] == after;
    NoShortNames(acc + [Value(tilde(if text == "" then default else text))]);
  }

  /** Collecting a list of scalars yields one element per answer typed: their number is the
      number of yes answers to "Another one?" plus one, and a no, a cancel or anything else
      ends the list without exiting. */
  lemma {:induction false} ListOfScalars(tilde: string -> string, key: string, default: string, ctx: Ctx,
                                         texts: seq<string>, last: Answer, rest: Input, acc: seq<EntryType>)
    requires texts != [] && last != Confirmed(true)
    requires forall i :: 0 <= i < |acc| ==> acc[i].Value?
    ensures ReadArrayLoop(tilde, key, Value(default), ctx, ListAnswers(texts, last) + rest, acc)
            == Next(Resolved(ctx[key + "_shortNames" := Str("")], Array(acc + Expanded(tilde, default, texts)), rest))
    decreases |texts|
  {
    var e := Value(tilde(if texts[0] == "" then default else texts[0]));
    if |texts| == 1 {
      assert ListAnswers(texts, last) + rest == [Typed(texts[0])] + ([last] + rest);
      LastScalar(tilde, key, default, ctx, texts[0], [last] + rest, acc);
      assert Next1([last] + rest) == rest;
      assert Expanded(tilde, default, texts) == [e] + Expanded(tilde, default, []);
      assert Expanded(tilde, default, texts) == [e];
    } else {
      var more := ListAnswers(texts[1..], last) + rest;
      var result := Next(Resolved(ctx[key + "_shortNames" := Str("")], Array(acc + Expanded(tilde, default, texts)), rest));
      assert ListAnswers(texts, last) + rest == [Typed(texts[0]), Confirmed(true)] + more by {
        ListAnswersCons(texts, last, rest);
      }
      assert ReadArrayLoop(tilde, key, Value(default), ctx, [Typed(texts[0]), Confirmed(true)] + more, acc)
             == ReadArrayLoop(tilde, key, Value(default), ctx, more, acc + [e]) by {
        ScalarAgain(tilde, key, default, ctx, texts[0], more, acc);
      }
      assert ReadArrayLoop(tilde, key, Value(default), ctx, more, acc + [e]) == result by {
        ListOfScalars(tilde, key, default, ctx, texts[1..], last, rest, acc + [e]);
        ExpandedCons(tilde, default, texts, acc);
      }
    }
  }
}
