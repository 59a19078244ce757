/** The colors document (client/src/services/color.js): one stored object whose
    `colors` array is read, changed and written back whole. The read (`getDoc`) is a
    parameter and the write (`setDoc`) is the returned list. */
module ColorService {
  import opened Wrappers
  import opened Text
  import opened Seqs

  /** An `examples` value as found: an array of words, or anything else. */
  datatype Examples = Words(words: seq<string>) | NotAnArray

  /** A stored color; `None` is an absent field. */
  datatype Color = Color(id: Option<string>, name: Option<string>, hexCode: Option<string>, examples: Examples)

  /** The `colors` field of a stored document, or the argument of `replaceColors`. */
  datatype ColorsField = ColorArray(items: seq<Color>) | NotAList

  /** `snap.data()`: an object, or some other JSON value. */
  datatype ColorDoc = NonObject | Object(colors: ColorsField)

  /** `ensureShape(data).colors`: the stored array, or `[]` when the document is not an
      object or its `colors` is not an array. */
  function EnsureShape(data: ColorDoc): (colors: seq<Color>)
    ensures data.Object? && data.colors.ColorArray? ==> colors == data.colors.items
    ensures !(data.Object? && data.colors.ColorArray?) ==> colors == []
  {
    match data
    case Object(ColorArray(items)) => items
    case _ => []
  }

  /** `listColors()`: the colors of the document, `[]` when it does not exist. */
  function ListColors(snap: Option<ColorDoc>): (colors: seq<Color>)
    ensures snap.None? ==> colors == []
  {
    EnsureShape(if snap.Some? then snap.value else Object(ColorArray([])))
  }

  /** The argument object of `addColor`. */
  datatype NewColor = NewColor(id: Option<string>, name: Option<string>, hexCode: Option<string>, examples: Examples)

  /** `newColor` of `addColor`, built at time `now` (milliseconds). */
  function ShapeNewColor(arg: NewColor, now: nat): (c: Color)
    requires Truthy(arg.name)
    ensures c.id.Some? && c.name.Some? && c.hexCode.Some? && c.examples.Words?
    ensures c.id.value == (if Truthy(arg.id) then arg.id.value else "c" + DecimalString(now))
    ensures c.name.value == Trim(arg.name.value)
    ensures c.hexCode.value == (if arg.hexCode.Some? then Trim(arg.hexCode.value) else "")
    ensures c.examples == (if arg.examples.Words? then arg.examples else Words([]))
  {
    Color(
      Some(if Truthy(arg.id) then arg.id.value else "c" + DecimalString(now)),
      Some(Trim(arg.name.value)),
      // `hexCode = ''` by default, then `hexCode?.trim?.() || ''`
      Some(if arg.hexCode.Some? then Trim(arg.hexCode.value) else ""),
      if arg.examples.Words? then arg.examples else Words([]))
  }

  /** `addColor(arg)`: the new color and the list written back. */
  function AddColor(arg: NewColor, now: nat, snap: Option<ColorDoc>): (r: Result<(Color, seq<Color>)>)
    ensures r.Err? <==> !Truthy(arg.name)
    ensures r.Ok? ==> r.value.0 == ShapeNewColor(arg, now)
    ensures r.Ok? ==>
      && |r.value.1| == |ListColors(snap)| + 1
      && r.value.1[..|ListColors(snap)|] == ListColors(snap)
      && r.value.1[|ListColors(snap)|] == r.value.0
  {
    if !Truthy(arg.name) then Err("name is required")
    else
      var c := ShapeNewColor(arg, now);
      Ok((c, ListColors(snap) + [c]))
  }

  /** `replaceColors(colors)`: throws on a non-array, otherwise writes it unchanged. */
  function ReplaceColors(colors: ColorsField): (r: Result<seq<Color>>)
    ensures r.Err? <==> colors.NotAList?
  {
    match colors
    case NotAList => Err("colors must be an array")
    case ColorArray(items) => Ok(items)
  }

  /** After `replaceColors` the document lists exactly the given colors. */
  lemma ReplaceThenList(items: seq<Color>)
    ensures ReplaceColors(ColorArray(items)) == Ok(items)
    ensures ListColors(Some(Object(ColorArray(ReplaceColors(ColorArray(items)).value)))) == items
  {
  }

  /** The argument `updates` of `updateColor`: `None` is a key it does not have. */
  datatype Patch = Patch(id: Option<string>, name: Option<string>, hexCode: Option<string>, examples: Option<Examples>)

  /** `{ ...c, ...updates }`: every key of `updates` overrides. */
  function Merge(c: Color, updates: Patch): (m: Color)
    ensures updates.id.Some? ==> m.id == updates.id
    ensures updates.id.None? ==> m.id == c.id
    ensures updates.name.Some? ==> m.name == updates.name
    ensures updates.name.None? ==> m.name == c.name
    ensures updates.hexCode.Some? ==> m.hexCode == updates.hexCode
    ensures updates.hexCode.None? ==> m.hexCode == c.hexCode
    ensures m.examples == if updates.examples.Some? then updates.examples.value else c.examples
  {
    Color(
      if updates.id.Some? then updates.id else c.id,
      if updates.name.Some? then updates.name else c.name,
      if updates.hexCode.Some? then updates.hexCode else c.hexCode,
      if updates.examples.Some? then updates.examples.value else c.examples)
  }

  /** Spreading the same updates twice is spreading them once, and an empty `updates`
      object changes nothing. */
  lemma MergeIdempotent(c: Color, updates: Patch)
    ensures Merge(Merge(c, updates), updates) == Merge(c, updates)
    ensures updates == Patch(None, None, None, None) ==> Merge(c, updates) == c
  {
  }

  function HasId(id: string): Color -> bool
  {
    (c: Color) => c.id == Some(id)
  }

  function LacksId(id: string): Color -> bool
  {
    (c: Color) => c.id != Some(id)
  }

  function MergeIfId(id: string, updates: Patch): Color -> Color
  {
    (c: Color) => if c.id == Some(id) then Merge(c, updates) else c
  }

  /** `updateColor(id, updates)`: the first color carrying `id` after the update (or
      `undefined`), and the list written back. */
  function UpdateColor(id: string, updates: Patch, snap: Option<ColorDoc>): (r: Result<(Option<Color>, seq<Color>)>)
    ensures r.Err? <==> id == ""
    ensures r.Ok? ==>
      var before := ListColors(snap);
      var next := r.value.1;
      && |next| == |before|
      && (forall i :: 0 <= i < |before| && before[i].id != Some(id) ==> next[i] == before[i])
      && (forall i :: 0 <= i < |before| && before[i].id == Some(id) ==> next[i] == Merge(before[i], updates))
      && r.value.0 == Find(next, HasId(id))
  {
    if id == "" then Err("id is required")
    else
      var next := Map(ListColors(snap), MergeIfId(id, updates));
      Ok((Find(next, HasId(id)), next))
  }

  /** When the updates leave the id alone, `updateColor` returns the first matching color
      merged with the updates, and `undefined` exactly when no color had the id. */
  lemma UpdateReturnsMergedFirst(id: string, updates: Patch, snap: Option<ColorDoc>)
    requires id != ""
    requires updates.id.None? || updates.id == Some(id)
    ensures var before := ListColors(snap);
      var found := UpdateColor(id, updates, snap).value.0;
      && (found.None? <==> forall i :: 0 <= i < |before| ==> before[i].id != Some(id))
      && (found.Some? ==> exists i :: (0 <= i < |before| && before[i].id == Some(id)
            && found.value == Merge(before[i], updates)
            && forall j :: 0 <= j < i ==> before[j].id != Some(id)))
  {
    var r := UpdateColor(id, updates, snap);
    var before := ListColors(snap);
    var next := r.value.1;
    UpdateKeepsIds(id, updates, snap);
    if r.value.0.Some? {
      var i :| 0 <= i < |next| && next[i] == r.value.0.value && HasId(id)(next[i])
        && forall j :: 0 <= j < i ==> !HasId(id)(next[j]);
      assert before[i].id == Some(id);
    }
  }

  /** When the updates leave the id alone, the written list carries the id exactly where
      the stored one did. */
  lemma UpdateKeepsIds(id: string, updates: Patch, snap: Option<ColorDoc>)
    requires id != ""
    requires updates.id.None? || updates.id == Some(id)
    ensures |UpdateColor(id, updates, snap).value.1| == |ListColors(snap)|
    ensures forall i :: 0 <= i < |ListColors(snap)| ==>
      (HasId(id)(UpdateColor(id, updates, snap).value.1[i]) <==> ListColors(snap)[i].id == Some(id))
  {
    var before := ListColors(snap);
    var next := UpdateColor(id, updates, snap).value.1;
    forall i | 0 <= i < |before| ensures HasId(id)(next[i]) <==> before[i].id == Some(id) {
      if before[i].id == Some(id) {
        assert next[i] == Merge(before[i], updates);
      }
    }
  }

  /** `deleteColor(id)`: the list written back, without every color carrying `id`. */
  function DeleteColor(id: string, snap: Option<ColorDoc>): (r: Result<seq<Color>>)
    ensures r.Err? <==> id == ""
    ensures r.Ok? ==>
      && |r.value| <= |ListColors(snap)|
      && (forall i :: 0 <= i < |r.value| ==> r.value[i].id != Some(id) && r.value[i] in ListColors(snap))
      && (forall i :: 0 <= i < |ListColors(snap)| && ListColors(snap)[i].id != Some(id) ==> ListColors(snap)[i] in r.value)
  {
    if id == "" then Err("id is required") else Ok(Filter(ListColors(snap), LacksId(id)))
  }

  /** Deleting keeps the other colors in their order (deletion distributes over any split
      of the list) and deleting the same id again writes the same list. */
  lemma DeleteKeepsOrderAndIsIdempotent(id: string, a: seq<Color>, b: seq<Color>)
    requires id != ""
    ensures DeleteColor(id, Some(Object(ColorArray(a + b)))).value
      == DeleteColor(id, Some(Object(ColorArray(a)))).value + DeleteColor(id, Some(Object(ColorArray(b)))).value
    ensures var once := DeleteColor(id, Some(Object(ColorArray(a)))).value;
      DeleteColor(id, Some(Object(ColorArray(once)))) == Ok(once)
  {
    var once := Filter(a, LacksId(id));
    DeleteFromArray(id, a + b);
    DeleteFromArray(id, a);
    DeleteFromArray(id, b);
    DeleteFromArray(id, once);
    FilterConcat(a, b, LacksId(id));
    FilterIdempotent(a, LacksId(id));
  }

  /** Deleting from a stored array filters that array. */
  lemma DeleteFromArray(id: string, xs: seq<Color>)
    requires id != ""
    ensures DeleteColor(id, Some(Object(ColorArray(xs)))) == Ok(Filter(xs, LacksId(id)))
  {
    assert ListColors(Some(Object(ColorArray(xs)))) == xs;
  }

  /** Deleting an id from a list that carries it only in its appended last element. */
  lemma DeleteAppended(before: seq<Color>, c: Color, id: string)
    requires c.id == Some(id)
    requires forall i :: 0 <= i < |before| ==> before[i].id != Some(id)
    ensures Filter(before + [c], LacksId(id)) == before
  {
    var p := LacksId(id);
    FilterConcat(before, [c], p);
    FilterAll(before, p);
    assert [c][1..] == [];
  }

  /** Adding a color under a fresh id and then deleting that id gives back the list as
      it was. */
  lemma AddThenDelete(arg: NewColor, now: nat, snap: Option<ColorDoc>)
    requires Truthy(arg.name)
    requires forall i :: 0 <= i < |ListColors(snap)| ==> ListColors(snap)[i].id != ShapeNewColor(arg, now).id
    ensures var added := AddColor(arg, now, snap).value;
      DeleteColor(added.0.id.value, Some(Object(ColorArray(added.1)))) == Ok(ListColors(snap))
  {
    var c := ShapeNewColor(arg, now);
    DeleteAppended(ListColors(snap), c, c.id.value);
  }
}
