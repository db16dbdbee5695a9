/** A small template worked through end to end: a `datasets` sheet with an
    `id` column, and a `resources` sheet that repeats the dataset `id` and
    has an inline enumeration `format`. */
module Walkthrough {
  import opened Base
  import opened Seqs
  import opened Paths
  import opened Sheets
  import opened Fields
  import opened CrossRefs
  import opened Codelists
  import opened Plan
  import Config

  function IdField(): Field {
    Field("Identifier", "", "1..1", "string", "", "")
  }

  function FormatField(): Field {
    Field("Format", "", "0..1", "string", "Enum: a, b", "format")
  }

  function Example(palette: seq<(string, string)>, schemaUrl: string, fetched: map<string, seq<string>>): Inputs {
    Inputs(
      [Sheet("datasets", ["id"]), Sheet("resources", ["id", "format"])],
      palette,
      map["id" := IdField(), "format" := FormatField()],
      schemaUrl,
      fetched)
  }

  lemma ExampleKeys()
    ensures Normalize("id") == "id" && Normalize("format") == "format"
  {
    NormalizeSegment("id");
    NormalizeSegment("format");
  }

  lemma ExampleCodes()
    ensures EnumCodes("Enum: a, b") == ["a", "b"]
  {
    var text := "a, b";
    assert Drop("Enum: a, b", EnumPrefixLength) == "Enum: a, b"[6..] == text;
    SplitAfterOneChar(text);
    assert text[..1] == "a" && text[3..] == "b";
    SplitOneChar("b");
  }

  /** The resource's `id` finds the dataset `id` in column 1 of the first
      sheet. */
  lemma ExampleCrossRef()
    ensures FindCrossRef([Sheet("datasets", ["id"]), Sheet("resources", ["id", "format"])], "resources", "id")
      == Some(CrossRef("datasets", 1, 8, 1000))
  {
    assert FirstIndex(["id"], "id") == 0;
  }

  /** The inline enumeration needs no fetch. */
  lemma ExampleFormatCodes(schemaUrl: string, fetched: map<string, seq<string>>)
    ensures ResolveCodes(FormatField(), schemaUrl, fetched) == Ok(["a", "b"])
  {
    assert IsEnum(FormatField().values) by {
      assert Take("Enum: a, b", 4) == "Enum: a, b"[..4] == "Enum";
    }
    ExampleCodes();
  }

  /** Neither column path fails: both have metadata with a non-empty range,
      and the enumeration is inline, so nothing is fetched. */
  lemma ExampleColumnsSucceed(palette: seq<(string, string)>, schemaUrl: string, fetched: map<string, seq<string>>)
    ensures var inp := Example(palette, schemaUrl, fetched);
      !Fails(inp, "id") && !Fails(inp, "format")
  {
    var inp := Example(palette, schemaUrl, fetched);
    ExampleKeys();
    assert IsEnum(FormatField().values) by {
      assert Take("Enum: a, b", 4) == "Enum: a, b"[..4] == "Enum";
    }
    InlineOrNoCodelist(inp, "id");
    InlineOrNoCodelist(inp, "format");
  }

  /** A column with metadata, a non-empty range, and either no codelist or
      an inline enumeration never fails. */
  lemma InlineOrNoCodelist(inp: Inputs, path: string)
    requires Normalize(path) in inp.metadata
    requires var f := inp.metadata[Normalize(path)];
      |f.range| > 0 && (f.codelist == "" || IsEnum(f.values))
    ensures !Fails(inp, path)
  {
  }

  lemma ExampleBuilds(palette: seq<(string, string)>, schemaUrl: string, fetched: map<string, seq<string>>)
    ensures BuildPlan(Example(palette, schemaUrl, fetched)).Ok?
  {
    var inp := Example(palette, schemaUrl, fetched);
    ExampleColumnsSucceed(palette, schemaUrl, fetched);
    assert |inp.sheets| == 2 && inp.sheets[0].columns == ["id"] && inp.sheets[1].columns == ["id", "format"];
    assert forall i, j :: 0 <= i < |inp.sheets| && 0 <= j < |inp.sheets[i].columns| ==>
      inp.sheets[i].columns[j] == "id" || inp.sheets[i].columns[j] == "format" by {
      forall i, j | 0 <= i < |inp.sheets| && 0 <= j < |inp.sheets[i].columns|
        ensures inp.sheets[i].columns[j] == "id" || inp.sheets[i].columns[j] == "format"
      {
        if i == 1 && j == 1 { assert inp.sheets[i].columns[j] == "format"; }
      }
    }
    NoFailingColumnBuilds(inp, "id", "format");
  }

  /** A plan over sheets whose columns are all `a` or `b` builds when
      neither `a` nor `b` fails. */
  lemma NoFailingColumnBuilds(inp: Inputs, a: string, b: string)
    requires forall i, j :: 0 <= i < |inp.sheets| && 0 <= j < |inp.sheets[i].columns| ==>
      inp.sheets[i].columns[j] == a || inp.sheets[i].columns[j] == b
    requires !Fails(inp, a) && !Fails(inp, b)
    ensures BuildPlan(inp).Ok?
  {
    forall i | 0 <= i < |inp.sheets| ensures !AnyFails(inp, inp.sheets[i].columns) {
    }
  }

  /** The dataset `id` is required, formatted as text, and has no dropdown:
      no sheet comes before `datasets`. */
  lemma ExampleDatasetId(palette: seq<(string, string)>, schemaUrl: string, fetched: map<string, seq<string>>)
    ensures var inp := Example(palette, schemaUrl, fetched);
      && BuildPlan(inp).Ok?
      && var plan := BuildPlan(inp).value;
      && |plan.sheets| == 2 && |plan.sheets[0].columns| == 1
      && plan.sheets[0].columns[0].header.required == RequiredMark
      && plan.sheets[0].columns[0].format == TextInput
      && plan.sheets[0].columns[0].validation == NoValidation
  {
    var inp := Example(palette, schemaUrl, fetched);
    ExampleBuilds(palette, schemaUrl, fetched);
    ExampleKeys();
    PlannedColumnAt(inp, 0, 0);
    FirstSheetHasNoCrossRef(inp.sheets, "id");
  }

  /** The resource's `id` offers the dataset ids: column B of `datasets`,
      rows 8 to 1000. */
  lemma ExampleResourceId(palette: seq<(string, string)>, schemaUrl: string, fetched: map<string, seq<string>>)
    ensures var inp := Example(palette, schemaUrl, fetched);
      && BuildPlan(inp).Ok?
      && var plan := BuildPlan(inp).value;
      && |plan.sheets| == 2 && |plan.sheets[1].columns| == 2
      && plan.sheets[1].columns[0].validation == SheetList(CrossRef("datasets", 1, 8, 1000))
  {
    ExampleBuilds(palette, schemaUrl, fetched);
    ExampleResourceIdShape(palette, schemaUrl, fetched);
    IdColumn(Example(palette, schemaUrl, fetched));
  }

  /** The facts about the example's inputs that fix the resource `id` column. */
  lemma ExampleResourceIdShape(palette: seq<(string, string)>, schemaUrl: string, fetched: map<string, seq<string>>)
    ensures var inp := Example(palette, schemaUrl, fetched);
      && |inp.sheets| == 2 && inp.sheets[1] == Sheet("resources", ["id", "format"])
      && Normalize("id") == "id" && "id" in inp.metadata
      && inp.metadata["id"].codelist == "" && inp.metadata["id"].values != Config.DateValues
      && FindCrossRef(inp.sheets, "resources", "id") == Some(CrossRef("datasets", 1, 8, 1000))
  {
    ExampleKeys();
    ExampleCrossRef();
  }

  lemma IdColumn(inp: Inputs)
    requires BuildPlan(inp).Ok? && |inp.sheets| == 2 && inp.sheets[1] == Sheet("resources", ["id", "format"])
    requires Normalize("id") == "id" && "id" in inp.metadata
    requires inp.metadata["id"].codelist == "" && inp.metadata["id"].values != Config.DateValues
    requires FindCrossRef(inp.sheets, "resources", "id") == Some(CrossRef("datasets", 1, 8, 1000))
    ensures var plan := BuildPlan(inp).value;
      && |plan.sheets| == 2 && |plan.sheets[1].columns| == 2
      && plan.sheets[1].columns[0].validation == SheetList(CrossRef("datasets", 1, 8, 1000))
  {
    PlannedColumnAt(inp, 1, 0);
  }

  /** `format` is optional and takes an enumeration column whose codes sit
      in rows 2 and 3. */
  lemma ExampleFormat(palette: seq<(string, string)>, schemaUrl: string, fetched: map<string, seq<string>>)
    ensures var inp := Example(palette, schemaUrl, fetched);
      && BuildPlan(inp).Ok?
      && var plan := BuildPlan(inp).value;
      && |plan.sheets| == 2 && |plan.sheets[1].columns| == 2
      && plan.sheets[1].columns[1].header.required == ""
      && plan.sheets[1].columns[1].validation.EnumList?
      && plan.sheets[1].columns[1].validation.firstRow == 2
      && plan.sheets[1].columns[1].validation.lastRow == 3
      && plan.sheets[1].columns[1].validation.slot < |plan.enumColumns|
      && plan.enumColumns[plan.sheets[1].columns[1].validation.slot] == ["format", "a", "b"]
  {
    var inp := Example(palette, schemaUrl, fetched);
    ExampleBuilds(palette, schemaUrl, fetched);
    ExampleKeys();
    ExampleFormatCodes(schemaUrl, fetched);
    FormatColumn(inp);
  }

  lemma FormatColumn(inp: Inputs)
    requires BuildPlan(inp).Ok? && |inp.sheets| == 2 && inp.sheets[1].columns == ["id", "format"]
    requires Normalize("format") == "format" && "format" in inp.metadata && inp.metadata["format"] == FormatField()
    requires ResolveCodes(FormatField(), inp.schemaUrl, inp.fetched) == Ok(["a", "b"])
    ensures var plan := BuildPlan(inp).value;
      && |plan.sheets| == 2 && |plan.sheets[1].columns| == 2
      && plan.sheets[1].columns[1].header.required == ""
      && plan.sheets[1].columns[1].validation.EnumList?
      && plan.sheets[1].columns[1].validation.firstRow == 2
      && plan.sheets[1].columns[1].validation.lastRow == 3
      && plan.sheets[1].columns[1].validation.slot < |plan.enumColumns|
      && plan.enumColumns[plan.sheets[1].columns[1].validation.slot] == ["format", "a", "b"]
  {
    FormatOptional(inp);
    FormatDropdown(inp);
  }

  /** The codes `a` and `b` fill rows 2 and 3 of `format`'s enumeration
      column, below the path. */
  lemma FormatDropdown(inp: Inputs)
    requires BuildPlan(inp).Ok? && |inp.sheets| == 2 && |inp.sheets[1].columns| == 2
    requires var path := inp.sheets[1].columns[1];
      && Normalize(path) in inp.metadata && inp.metadata[Normalize(path)].codelist != ""
      && ResolveCodes(inp.metadata[Normalize(path)], inp.schemaUrl, inp.fetched) == Ok(["a", "b"])
    ensures var plan := BuildPlan(inp).value;
      && |plan.sheets| == 2 && |plan.sheets[1].columns| == 2
      && plan.sheets[1].columns[1].validation.EnumList?
      && plan.sheets[1].columns[1].validation.firstRow == 2
      && plan.sheets[1].columns[1].validation.lastRow == 3
      && plan.sheets[1].columns[1].validation.slot < |plan.enumColumns|
      && plan.enumColumns[plan.sheets[1].columns[1].validation.slot] == [inp.sheets[1].columns[1], "a", "b"]
  {
    EnumDropdownContents(inp, 1, 1);
    var plan := BuildPlan(inp).value;
    var v := plan.sheets[1].columns[1].validation;
    TwoCodes(plan.enumColumns[v.slot], inp.sheets[1].columns[1], ["a", "b"]);
  }

  lemma TwoCodes(column: seq<string>, path: string, codes: seq<string>)
    requires codes == ["a", "b"] && column == [path] + codes
    ensures column == [path, "a", "b"] && |codes| + 1 == 3
  {
  }

  /** A column whose range starts with `0` gets an empty required cell. */
  lemma FormatOptional(inp: Inputs)
    requires BuildPlan(inp).Ok? && |inp.sheets| == 2 && inp.sheets[1].columns == ["id", "format"]
    requires Normalize("format") == "format" && "format" in inp.metadata && inp.metadata["format"] == FormatField()
    ensures var plan := BuildPlan(inp).value;
      && |plan.sheets| == 2 && |plan.sheets[1].columns| == 2
      && plan.sheets[1].columns[1].header.required == ""
  {
    RequiredCellAt(inp, 1, 1);
  }

  /** `format` is the only codelist-bound column, so the enumeration sheet
      has exactly one column and `format` has slot 0. */
  lemma ExampleEnumColumns(palette: seq<(string, string)>, schemaUrl: string, fetched: map<string, seq<string>>)
    ensures var inp := Example(palette, schemaUrl, fetched);
      && BuildPlan(inp).Ok?
      && var plan := BuildPlan(inp).value;
      && |plan.sheets| == 2 && |plan.sheets[1].columns| == 2
      && plan.sheets[1].columns[1].validation == EnumList(0, 2, 3)
      && plan.enumColumns == [["format", "a", "b"]]
  {
    ExampleIdsNotEnumerated(palette, schemaUrl, fetched);
    ExampleFormat(palette, schemaUrl, fetched);
    SingleEnumSlot(Example(palette, schemaUrl, fetched));
  }

  /** Neither `id` column takes an enumeration column. */
  lemma ExampleIdsNotEnumerated(palette: seq<(string, string)>, schemaUrl: string, fetched: map<string, seq<string>>)
    ensures var inp := Example(palette, schemaUrl, fetched);
      && BuildPlan(inp).Ok?
      && var plan := BuildPlan(inp).value;
      && |plan.sheets| == 2 && |plan.sheets[0].columns| == 1 && |plan.sheets[1].columns| == 2
      && !plan.sheets[0].columns[0].validation.EnumList?
      && !plan.sheets[1].columns[0].validation.EnumList?
  {
    ExampleDatasetId(palette, schemaUrl, fetched);
    ExampleResourceId(palette, schemaUrl, fetched);
  }

  /** In a plan of two sheets whose only enumeration-backed column is the
      second column of the second sheet, that column takes slot 0 and the
      enumeration sheet has exactly one column. */
  lemma SingleEnumSlot(inp: Inputs)
    requires BuildPlan(inp).Ok?
    requires var plan := BuildPlan(inp).value;
      && |plan.sheets| == 2 && |plan.sheets[0].columns| == 1 && |plan.sheets[1].columns| == 2
      && !plan.sheets[0].columns[0].validation.EnumList?
      && !plan.sheets[1].columns[0].validation.EnumList?
      && plan.sheets[1].columns[1].validation.EnumList?
    ensures var plan := BuildPlan(inp).value;
      && plan.sheets[1].columns[1].validation.slot == 0
      && |plan.enumColumns| == 1
  {
    EnumSlotsInOrder(inp);
    OneSlot(BuildPlan(inp).value.sheets);
  }

  lemma OneSlot(sheets: seq<SheetPlan>)
    requires && |sheets| == 2 && |sheets[0].columns| == 1 && |sheets[1].columns| == 2
             && !sheets[0].columns[0].validation.EnumList?
             && !sheets[1].columns[0].validation.EnumList?
             && sheets[1].columns[1].validation.EnumList?
    ensures SheetSlots(sheets) == [sheets[1].columns[1].validation.slot]
  {
    var c0, c1 := sheets[0].columns, sheets[1].columns;
    assert c0[1..] == [] && c1[1..][1..] == [];
    assert Slots(c0) == [];
    assert Slots(c1[1..]) == [c1[1].validation.slot];
    assert Slots(c1) == [c1[1].validation.slot];
    assert sheets[1..][1..] == [];
    assert SheetSlots(sheets[1..]) == Slots(c1);
  }
}
