/** The colour page (client/src/pages/ColorFrom.jsx): the add/edit form, the
    normalisation of the listed colours, and the searched, paged table. */
module ColorPage {
  import opened Wrappers
  import opened Text
  import opened Seqs
  import opened Validators
  import opened FormRules
  import ColorService
  import Paging

  const NameRequiredMsg: string := "Color name is required"
  const HexFormatMsg: string := "Use #RRGGBB format"

  /** A row of the table: every field present. */
  datatype ColorRow = ColorRow(id: string, name: string, hexCode: string, examples: seq<string>)

  /** A string field as a template literal renders it: `undefined` when absent. */
  function Interpolated(s: Option<string>): string
  {
    if s.Some? then s.value else "undefined"
  }

  /** The normalisation of one listed colour: an id made from name and hex when it has
      none, `''` for a missing name or hex, and `[]` for non-array examples. */
  function NormalizeColor(c: ColorService.Color): (row: ColorRow)
    ensures Truthy(c.id) ==> row.id == c.id.value
    ensures !Truthy(c.id) ==> row.id == Interpolated(c.name) + "-" + Interpolated(c.hexCode)
    ensures row.name == (if Truthy(c.name) then c.name.value else "")
    ensures row.hexCode == (if Truthy(c.hexCode) then c.hexCode.value else "")
    ensures row.examples == (if c.examples.Words? then c.examples.words else [])
  {
    ColorRow(
      if Truthy(c.id) then c.id.value else Interpolated(c.name) + "-" + Interpolated(c.hexCode),
      if Truthy(c.name) then c.name.value else "",
      if Truthy(c.hexCode) then c.hexCode.value else "",
      if c.examples.Words? then c.examples.words else [])
  }

  /** `fetchColors`: `[]` for a non-array list, otherwise each colour normalised, in order. */
  function NormalizeColors(list: ColorService.ColorsField): (rows: seq<ColorRow>)
    ensures list.NotAList? ==> rows == []
    ensures list.ColorArray? ==>
      && |rows| == |list.items|
      && forall k :: 0 <= k < |rows| ==> rows[k] == NormalizeColor(list.items[k])
  {
    match list
    case NotAList => []
    case ColorArray(items) => Map(items, NormalizeColor)
  }

  /** The search test: the lowered name or hex contains the lowered search text. */
  predicate MatchesSearch(row: ColorRow, search: string)
  {
    Includes(ToLower(row.name), ToLower(search)) || Includes(ToLower(row.hexCode), ToLower(search))
  }

  function SearchTest(search: string): ColorRow -> bool
  {
    (row: ColorRow) => MatchesSearch(row, search)
  }

  /** `filtered`: exactly the rows that match the search, in table order. */
  function Filtered(rows: seq<ColorRow>, search: string): (r: seq<ColorRow>)
    ensures forall k :: 0 <= k < |r| ==> r[k] in rows && MatchesSearch(r[k], search)
    ensures forall k :: 0 <= k < |rows| && MatchesSearch(rows[k], search) ==> rows[k] in r
  {
    Filter(rows, SearchTest(search))
  }

  /** An empty search shows every row. */
  lemma EmptySearchShowsAll(rows: seq<ColorRow>)
    ensures Filtered(rows, "") == rows
  {
    forall k | 0 <= k < |rows| ensures SearchTest("")(rows[k]) {
      IncludesEmpty(ToLower(rows[k].name));
    }
    FilterAll(rows, SearchTest(""));
  }

  /** The search ignores case: lowering the search text changes nothing. */
  lemma SearchIgnoresCase(rows: seq<ColorRow>, search: string)
    ensures Filtered(rows, ToLower(search)) == Filtered(rows, search)
  {
    ToLowerIdempotent(search);
    FilterCongruent(rows, SearchTest(ToLower(search)), SearchTest(search));
  }

  /** What `addColor` / `updateColor` receive from the form. */
  datatype ColorPayload = ColorPayload(name: string, hexCode: string, examples: seq<string>)

  /** The values sent: name and hex trimmed, and the trimmed example word as a one-word
      list, or no words when it is blank. */
  function ShapePayload(colorName: string, hexCode: string, exampleWord: string): (p: ColorPayload)
    ensures p.name == Trim(colorName) && p.hexCode == Trim(hexCode)
    ensures Trim(exampleWord) != "" ==> p.examples == [Trim(exampleWord)]
    ensures Trim(exampleWord) == "" ==> p.examples == []
  {
    var word := Trim(exampleWord);
    ColorPayload(Trim(colorName), Trim(hexCode), if word != "" then [word] else [])
  }

  /** The save the form makes: a create, or an update of the colour being edited. */
  datatype SaveRequest = CreateColor(payload: ColorPayload) | UpdateColor(id: string, payload: ColorPayload)

  /** The form's checks pass: a name after trimming, and a hex code that is empty or
      `#RRGGBB` after trimming. */
  predicate FormValid(colorName: string, hexCode: string)
  {
    Trim(colorName) != "" && (Trim(hexCode) == "" || IsHexColor(Trim(hexCode)))
  }

  /** The field errors `onSubmit` records: the name is required after trimming, and a
      hex code given must be `#RRGGBB` after trimming. No error is recorded exactly
      when the form is valid. */
  function FormErrors(colorName: string, hexCode: string): (e: Errors)
    ensures e.Keys <= {NameKey, HexKey}
    ensures NameKey in e <==> Trim(colorName) == ""
    ensures HexKey in e <==> Trim(hexCode) != "" && !IsHexColor(Trim(hexCode))
    ensures NameKey in e ==> e[NameKey] == NameRequiredMsg
    ensures HexKey in e ==> e[HexKey] == HexFormatMsg
    ensures e == map[] <==> FormValid(colorName, hexCode)
  {
    var name, hex := Trim(colorName), Trim(hexCode);
    var e1: Errors := if name == "" then map[NameKey := NameRequiredMsg] else map[];
    var e2 := if hex != "" && !IsHexColor(hex) then e1[HexKey := HexFormatMsg] else e1;
    assert name == "" ==> NameKey in e2;
    e2
  }

  /** A colour the form creates is accepted by the service and comes back in the
      table under the trimmed name and hex code, with the example word if one was
      given, and an id made from the creation time. */
  lemma CreatedColorIsListed(colorName: string, hexCode: string, exampleWord: string, now: nat, snap: Option<ColorService.ColorDoc>)
    requires FormValid(colorName, hexCode)
    ensures var p := ShapePayload(colorName, hexCode, exampleWord);
      var r := ColorService.AddColor(ColorService.NewColor(None, Some(p.name), Some(p.hexCode), ColorService.Words(p.examples)), now, snap);
      && r.Ok?
      && NormalizeColor(r.value.1[|r.value.1| - 1]) == ColorRow("c" + DecimalString(now), p.name, p.hexCode, p.examples)
  {
    TrimIdempotent(colorName);
    TrimIdempotent(hexCode);
  }

  class ColorForm {
    var colorName: string
    var hexCode: string
    var exampleWord: string
    var errors: Errors
    /** The id of `editingColor`, `None` when adding. */
    var editingId: Option<string>
    var showModal: bool

    constructor ()
      ensures colorName == "" && hexCode == "" && exampleWord == ""
      ensures errors == map[] && editingId.None? && !showModal
    {
      colorName, hexCode, exampleWord := "", "", "";
      errors := map[];
      editingId := None;
      showModal := false;
    }

    /** `onSubmit`: validate, then create or update with the trimmed values. `saved` is
        whether the service call returned. After a save the form clears and closes;
        after a failed one it stays as it was. */
    method OnSubmit(saved: bool) returns (request: Option<SaveRequest>)
      modifies this
      ensures errors == (if request.Some? && saved then map[] else FormErrors(old(colorName), old(hexCode)))
      ensures request.Some? <==> FormValid(old(colorName), old(hexCode))
      ensures request.Some? ==>
        var payload := ShapePayload(old(colorName), old(hexCode), old(exampleWord));
        request.value == (if old(editingId).Some? then UpdateColor(old(editingId).value, payload) else CreateColor(payload))
      ensures request.Some? && saved ==>
        colorName == "" && hexCode == "" && exampleWord == "" && editingId.None? && !showModal
      ensures !(request.Some? && saved) ==>
        && colorName == old(colorName) && hexCode == old(hexCode) && exampleWord == old(exampleWord)
        && editingId == old(editingId) && showModal == old(showModal)
    {
      var next := FormErrors(colorName, hexCode);
      errors := next;
      if next != map[] {
        return None;
      }
      var payload := ShapePayload(colorName, hexCode, exampleWord);
      request := Some(if editingId.Some? then UpdateColor(editingId.value, payload) else CreateColor(payload));
      if saved {
        ResetAfterSave();
      }
    }

    /** The reset after a save: empty inputs and errors, the modal closed, nothing
        being edited. */
    method ResetAfterSave()
      modifies this
      ensures colorName == "" && hexCode == "" && exampleWord == "" && errors == map[]
      ensures editingId.None? && !showModal
    {
      colorName, hexCode, exampleWord := "", "", "";
      errors, showModal, editingId := map[], false, None;
    }
  }

  /** The table: the rows of the current page of the filtered list. */
  function PageRows(rows: seq<ColorRow>, search: string, currentPage: int): (r: seq<ColorRow>)
    ensures |r| <= Paging.PageSize
  {
    Paging.PageItems(Filtered(rows, search), currentPage)
  }
}
