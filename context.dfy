/** The rendering context (the `mustache::MapBuilder` threaded through collection and
    materialisation): names mapped to template data; a later insert under a name replaces
    an earlier one. */
module Context {
  import opened IndexMaps
  import opened Models

  /** `mustache::Data` as produced by serialising placeholder values and strings. */
  datatype Data = Str(s: string) | Vec(items: seq<Data>) | Map(entries: map<string, Data>)

  type Ctx = map<string, Data>

  /** `MapBuilder::new()`. */
  const Empty: Ctx := map[]

  /** The data a placeholder value serialises to: a scalar becomes a string, a list a
      vector, a group a map of its fields. */
  function FromEntry(e: EntryType): (d: Data)
    ensures e.Value? <==> d.Str?
    ensures e.Array? <==> d.Vec?
    ensures e.Array? ==> |d.items| == |e.items|
    ensures e.Object? ==> d.entries.Keys == set k | k in Keys(e.fields)
    decreases e, 1
  {
    match e
    case Value(s) => Str(s)
    case Array(xs) => Vec(seq(|xs|, i requires 0 <= i < |xs| => FromEntry(xs[i])))
    case Object(fields) => Map(FieldsData(e, |fields|))
  }

  /** The map built from the first `n` fields of a group; a later field under the same name wins. */
  function FieldsData(o: EntryType, n: nat): (m: map<string, Data>)
    requires o.Object? && n <= |o.fields|
    ensures m.Keys == set k | k in Keys(o.fields[..n])
    decreases o, 0, n
  {
    if n == 0 then map[]
    else
      var prev := FieldsData(o, n - 1);
      assert Keys(o.fields[..n]) == Keys(o.fields[..n - 1]) + [o.fields[n - 1].0];
      prev[o.fields[n - 1].0 := FromEntry(o.fields[n - 1].1)]
  }

  /** `MapBuilder::insert(key, &value)`. */
  function Insert(ctx: Ctx, key: string, e: EntryType): (r: Ctx)
    ensures r.Keys == ctx.Keys + {key} && r[key] == FromEntry(e)
    ensures forall k :: k in ctx && k != key ==> r[k] == ctx[k]
  {
    ctx[key := FromEntry(e)]
  }

  /** `MapBuilder::insert_str(key, value)`. */
  function InsertStr(ctx: Ctx, key: string, s: string): (r: Ctx)
    ensures r.Keys == ctx.Keys + {key} && r[key] == Str(s)
    ensures forall k :: k in ctx && k != key ==> r[k] == ctx[k]
  {
    ctx[key := Str(s)]
  }
}
