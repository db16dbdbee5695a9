/** Per-column header decisions: the required flag, the input-cell format,
    the column width and the sheet's tab colour. */
module Fields {
  import opened Base
  import opened Seqs
  import opened Strings
  import opened Config

  /** A row of the schema's mapping sheet, as looked up by metadata path. */
  datatype Field = Field(
    title: string,
    description: string,
    /** Cardinality such as `1..1` or `0..n`. */
    range: string,
    dataType: string,
    /** A format name (`date`), an inline enumeration (`Enum: a, b`), or empty. */
    values: string,
    /** The codelist file name, or empty when the field has none. */
    codelist: string)

  const RequiredMark: string := "Required"

  /** The "required" header cell: `Required` when the range starts with `1`,
      empty otherwise. An empty range has no first character, which aborts
      the build; that case is `None`. */
  function RequiredCell(range: string): (cell: Option<string>)
    ensures cell.Some? <==> |range| > 0
    ensures cell.Some? ==> (cell.value == RequiredMark <==> range[0] == '1')
    ensures cell.Some? ==> (cell.value == "" <==> range[0] != '1')
  {
    if |range| == 0 then None
    else if range[0] == '1' then Some(RequiredMark)
    else Some("")
  }

  /** Only a minimum cardinality of exactly `1` reads as required. */
  lemma RequiredExamples()
    ensures RequiredCell("1..1") == Some(RequiredMark)
    ensures RequiredCell("1..n") == Some(RequiredMark)
    ensures RequiredCell("0..1") == Some("")
    ensures RequiredCell("0..n") == Some("")
    ensures RequiredCell("2..n") == Some("")
    ensures RequiredCell("") == None
  {
  }

  /** The number format applied to a column's input cells. */
  datatype InputFormat = DateInput | NumberInput | TextInput | PlainInput

  /** The text-like data types, formatted as text (`@`). */
  const TextTypes: seq<string> := ["string", "array", "object"]

  /** The input format: a `date` value wins over the data type; then
      `number`; then the text-like types; anything else stays plain. */
  function FormatFor(values: string, dataType: string): (f: InputFormat)
    ensures f == DateInput <==> values == DateValues
    ensures f == NumberInput <==> values != DateValues && dataType == "number"
    ensures f == TextInput <==> values != DateValues && dataType in TextTypes
    ensures f == PlainInput <==> values != DateValues && dataType != "number" && dataType !in TextTypes
  {
    if values == DateValues then DateInput
    else if dataType == "number" then NumberInput
    else if dataType in TextTypes then TextInput
    else PlainInput
  }

  /** The column width: the path's length, but at least `MinColumnWidth`. */
  function ColumnWidth(path: string): (w: nat)
    ensures w >= MinColumnWidth && w >= |path|
    ensures w == MinColumnWidth || w == |path|
  {
    if |path| > MinColumnWidth then |path| else MinColumnWidth
  }

  /** Among the palette entries, entry `i` is the last whose key truncates
      to the same text. */
  predicate LastWithKey(palette: seq<(string, string)>, n: nat, i: nat)
    requires i < |palette|
  {
    forall j :: i < j < |palette| ==> Take(palette[j].0, n) != Take(palette[i].0, n)
  }

  /** The palette re-keyed by its keys truncated to `n` characters, built in
      declaration order, so a later entry overrides an earlier one with the
      same truncated key. */
  function TruncatedPalette(palette: seq<(string, string)>, n: nat): (colours: map<string, string>)
    ensures forall k :: k in colours <==> exists i :: 0 <= i < |palette| && Take(palette[i].0, n) == k
    ensures forall i :: 0 <= i < |palette| && LastWithKey(palette, n, i) ==>
      colours[Take(palette[i].0, n)] == palette[i].1
    decreases |palette|
  {
    if |palette| == 0 then map[]
    else
      var init := palette[..|palette| - 1];
      var last := Last(palette);
      assert palette == init + [last];
      TruncatedPalette(init, n)[Take(last.0, n) := last.1]
  }

  /** The family of a sheet: its name up to the first `_`, or the whole name
      when it has none. */
  function Family(sheetName: string): (family: string)
    ensures family <= sheetName
    ensures '_' !in family
    ensures family == sheetName || (|family| < |sheetName| && sheetName[|family|] == '_')
  {
    SplitFirstPiece(sheetName, '_');
    Split(sheetName, ['_'])[0]
  }

  /** The tab colour of a sheet: the palette colour of its family, looked up
      by truncated key, else the default. Of several entries whose keys
      truncate to the family, the last one gives the colour. */
  function TabColour(palette: seq<(string, string)>, sheetName: string): (colour: string)
    ensures (forall i :: 0 <= i < |palette| ==> Take(palette[i].0, TruncationLength) != Family(sheetName)) ==>
      colour == DefaultTabColour
    ensures forall i ::
      (0 <= i < |palette| && Take(palette[i].0, TruncationLength) == Family(sheetName)
       && LastWithKey(palette, TruncationLength, i)) ==> colour == palette[i].1
  {
    var colours := TruncatedPalette(palette, TruncationLength);
    var family := Family(sheetName);
    if family in colours then colours[family] else DefaultTabColour
  }

  /** The truncated palette keys are distinct, so each entry keeps its colour. */
  lemma PaletteKeysDistinct()
    ensures forall i :: 0 <= i < |Palette| ==> LastWithKey(Palette, TruncationLength, i)
  {
    assert Take(Palette[0].0, TruncationLength) == "resources";
    assert Take(Palette[1].0, TruncationLength) == "hazard";
    assert Take(Palette[2].0, TruncationLength) == "exposure";
    assert Take(Palette[3].0, TruncationLength) == "vulnerabil";
    assert Take(Palette[4].0, TruncationLength) == "loss";
  }

  /** The truncated palette keys are `resources`, `hazard`, `exposure`,
      `vulnerabil` and `loss`; any other family has no palette entry. */
  lemma NotAPaletteFamily(family: string)
    requires family !in ["resources", "hazard", "exposure", "vulnerabil", "loss"]
    ensures forall i :: 0 <= i < |Palette| ==> Take(Palette[i].0, TruncationLength) != family
  {
    var keys := ["resources", "hazard", "exposure", "vulnerabil", "loss"];
    forall i | 0 <= i < |Palette| ensures Take(Palette[i].0, TruncationLength) == keys[i] {
      assert Take(Palette[0].0, TruncationLength) == "resources";
      assert Take(Palette[1].0, TruncationLength) == "hazard";
      assert Take(Palette[2].0, TruncationLength) == "exposure";
      assert Take(Palette[3].0, TruncationLength) == "vulnerabil";
      assert Take(Palette[4].0, TruncationLength) == "loss";
    }
  }

  /** A sheet whose family equals the truncated key of palette entry `i` gets
      that entry's colour. */
  lemma TabColourFromPalette(sheetName: string, i: nat)
    requires i < |Palette|
    requires Family(sheetName) == Take(Palette[i].0, TruncationLength)
    ensures TabColour(Palette, sheetName) == Palette[i].1
  {
    PaletteKeysDistinct();
  }

  /** A sheet whose family matches no truncated key gets the default colour. */
  lemma TabColourDefault(sheetName: string)
    requires forall i :: 0 <= i < |Palette| ==> Family(sheetName) != Take(Palette[i].0, TruncationLength)
    ensures TabColour(Palette, sheetName) == DefaultTabColour
  {
  }

  /** The family of `head_rest` is `head` when `head` has no `_`. */
  lemma FamilyOf(head: string, rest: string)
    requires '_' !in head
    ensures Family(head + "_" + rest) == head
  {
    SplitHead(head, '_', rest);
  }

  /** The vulnerability sheets are named with the truncated `vulnerabil`; the
      truncated palette key gives them the vulnerability colour. */
  lemma VulnerabilityTabColour()
    ensures TabColour(Palette, "vulnerabil_cost") == "#f9d6ff"
  {
    FamilyOf("vulnerabil", "cost");
    assert "vulnerabil" + "_" + "cost" == "vulnerabil_cost";
    assert Take(Palette[3].0, TruncationLength) == "vulnerabil";
    TabColourFromPalette("vulnerabil_cost", 3);
  }

  lemma HazardTabColour()
    ensures TabColour(Palette, "hazard_event_sets") == "#1a6eff"
  {
    FamilyOf("hazard", "event_sets");
    assert "hazard" + "_" + "event_sets" == "hazard_event_sets";
    assert Take(Palette[1].0, TruncationLength) == "hazard";
    TabColourFromPalette("hazard_event_sets", 1);
  }

  /** `datasets` belongs to no palette family. */
  lemma DatasetsTabColour()
    ensures TabColour(Palette, "datasets") == DefaultTabColour
  {
    assert '_' !in "datasets";
    assert Family("datasets") == "datasets";
    NotAPaletteFamily("datasets");
    TabColourDefault("datasets");
  }
}
