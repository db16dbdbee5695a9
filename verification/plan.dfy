/** The column plan: for every sheet and column, the header cells, the input
    format, the width and the data validation, with the enumeration sheet's
    columns assigned in order. */
module Plan {
  import opened Base
  import opened Seqs
  import opened Config
  import opened Paths
  import opened Sheets
  import opened Fields
  import opened CrossRefs
  import opened Codelists

  /** The data validation on a column's input rows. */
  datatype Validation =
    | NoValidation
    /** A dropdown of the values entered in an earlier sheet's column. */
    | SheetList(ref: CrossRef)
    /** A dropdown of the codes in column `slot` of the enumeration sheet,
        rows `firstRow..lastRow` (1-based). */
    | EnumList(slot: nat, firstRow: nat, lastRow: nat)
    /** A date on or after the given day. */
    | DateOnOrAfter(year: nat, month: nat, day: nat)

  const EarliestDate: Validation := DateOnOrAfter(1, 1, 1)

  /** Row 1 of an enumeration column holds the path; the codes start below. */
  const FirstCodeRow: nat := 2

  /** The header cells of a column, one per header row. */
  datatype HeaderCells = HeaderCells(
    path: string, title: string, description: string, required: string,
    dataType: string, values: string, codelist: string)

  datatype ColumnPlan = ColumnPlan(header: HeaderCells, format: InputFormat, width: nat, validation: Validation)

  datatype SheetPlan = SheetPlan(name: string, tabColour: string, columns: seq<ColumnPlan>)

  /** The whole template: the entity sheets in order, and the columns of the
      enumeration sheet, column `k` holding a path followed by its codes. */
  datatype TemplatePlan = TemplatePlan(sheets: seq<SheetPlan>, enumColumns: seq<seq<string>>)

  /** What the plan is computed from: the ordered sheets, the tab-colour
      palette, the field metadata by normalised path, the schema URL, and the
      `Code` column of every open codelist that can be fetched, by URL. */
  datatype Inputs = Inputs(
    sheets: seq<Sheet>,
    palette: seq<(string, string)>,
    metadata: map<string, Field>,
    schemaUrl: string,
    fetched: map<string, seq<string>>)

  /** The validation precedence: a codelist overrides everything; without
      one, a `date` value gives the date rule; otherwise the cross-sheet
      reference stays, if there is one. */
  function Decide(crossRef: Option<CrossRef>, codes: Option<seq<string>>, slot: nat, values: string): (v: Validation)
    ensures v.EnumList? <==> codes.Some?
    ensures codes.Some? ==> v == EnumList(slot, FirstCodeRow, |codes.value| + 1)
    ensures v.DateOnOrAfter? <==> codes.None? && values == DateValues
    ensures v.DateOnOrAfter? ==> v == EarliestDate
    ensures v.SheetList? <==> codes.None? && values != DateValues && crossRef.Some?
    ensures v.SheetList? ==> v.ref == crossRef.value
    ensures v.NoValidation? <==> codes.None? && values != DateValues && crossRef.None?
  {
    if codes.Some? then EnumList(slot, FirstCodeRow, |codes.value| + 1)
    else if values == DateValues then EarliestDate
    else if crossRef.Some? then SheetList(crossRef.value)
    else NoValidation
  }

  /** Building the column for `path` aborts: its metadata is missing, its
      range is empty, or its codelist cannot be fetched. */
  predicate Fails(inp: Inputs, path: string) {
    var key := Normalize(path);
    || key !in inp.metadata
    || |inp.metadata[key].range| == 0
    || (inp.metadata[key].codelist != "" && ResolveCodes(inp.metadata[key], inp.schemaUrl, inp.fetched).Err?)
  }

  /** The error the script raises for a failing column: the metadata lookup
      comes first, then the first character of the range, then the codelist. */
  function ColumnError(inp: Inputs, path: string): Error
    requires Fails(inp, path)
  {
    var key := Normalize(path);
    if key !in inp.metadata then MissingMetadata(key)
    else if |inp.metadata[key].range| == 0 then EmptyRange(key)
    else CodelistUnavailable(CodelistUrl(inp.schemaUrl, inp.metadata[key].codelist))
  }

  /** Column `i` of `paths` is the first one that fails. */
  predicate FirstFailure(inp: Inputs, paths: seq<string>, i: int) {
    && 0 <= i < |paths|
    && Fails(inp, paths[i])
    && forall j :: 0 <= j < i ==> !Fails(inp, paths[j])
  }

  /** `e` is the error of the first failing column of `paths`. */
  predicate FirstColumnError(inp: Inputs, paths: seq<string>, e: Error) {
    exists i :: 0 <= i < |paths| && FirstFailure(inp, paths, i) && e == ColumnError(inp, paths[i])
  }

  /** `e` is the error of the first failing column of the first sheet of
      `todo` that has a failing column. */
  predicate FirstSheetError(inp: Inputs, todo: seq<Sheet>, e: Error) {
    exists s :: && 0 <= s < |todo|
                && (forall t :: 0 <= t < s ==> !AnyFails(inp, todo[t].columns))
                && FirstColumnError(inp, todo[s].columns, e)
  }

  /** Column `c` of sheet `sheetName` is planned from its field metadata:
      header cells, format, width, and a validation chosen by precedence. */
  predicate Decided(inp: Inputs, sheetName: string, c: ColumnPlan) {
    var path := c.header.path;
    var key := Normalize(path);
    && key in inp.metadata
    && var f := inp.metadata[key];
    && var crossRef := FindCrossRef(inp.sheets, sheetName, path);
    && RequiredCell(f.range) == Some(c.header.required)
    && c.header == HeaderCells(path, f.title, f.description, c.header.required, f.dataType, f.values, f.codelist)
    && c.format == FormatFor(f.values, f.dataType)
    && c.width == ColumnWidth(path)
    && (c.validation.EnumList? <==> f.codelist != "")
    && (c.validation.DateOnOrAfter? <==> f.codelist == "" && f.values == DateValues)
    && (c.validation.DateOnOrAfter? ==> c.validation == EarliestDate)
    && (c.validation.SheetList? <==> f.codelist == "" && f.values != DateValues && crossRef.Some?)
    && (c.validation.SheetList? ==> c.validation.ref == crossRef.value)
  }

  /** An enumeration dropdown of `c` points at the enumeration column that
      holds its path in row 1 and its codes in rows 2 to the end. */
  predicate Backed(inp: Inputs, c: ColumnPlan, enums: seq<seq<string>>) {
    c.validation.EnumList? ==>
      var key := Normalize(c.header.path);
      && key in inp.metadata
      && var codes := ResolveCodes(inp.metadata[key], inp.schemaUrl, inp.fetched);
      && codes.Ok?
      && c.validation.slot < |enums|
      && enums[c.validation.slot] == [c.header.path] + codes.value
      && c.validation.firstRow == FirstCodeRow
      && c.validation.lastRow == |enums[c.validation.slot]|
  }

  lemma BackedExtend(inp: Inputs, c: ColumnPlan, enums: seq<seq<string>>, more: seq<seq<string>>)
    requires Backed(inp, c, enums) && enums <= more
    ensures Backed(inp, c, more)
  {
  }

  /** The enumeration slots of a sequence of columns, in column order. */
  function Slots(columns: seq<ColumnPlan>): seq<nat> {
    if |columns| == 0 then []
    else
      (if columns[0].validation.EnumList? then [columns[0].validation.slot] else [])
        + Slots(columns[1..])
  }

  /** The enumeration slots of a sequence of sheets: sheets in order, then
      columns in order. */
  function SheetSlots(sheets: seq<SheetPlan>): seq<nat> {
    if |sheets| == 0 then [] else Slots(sheets[0].columns) + SheetSlots(sheets[1..])
  }

  /** The plan for one column, given the enumeration columns written so far;
      a codelist-bound column takes the next enumeration column. */
  function PlanColumn(inp: Inputs, sheetName: string, path: string, enums: seq<seq<string>>)
    : (r: Result<(ColumnPlan, seq<seq<string>>)>)
    ensures r.Err? <==> Fails(inp, path)
    ensures r.Err? ==> r.error == ColumnError(inp, path)
    ensures r.Ok? ==> r.value.0.header.path == path
    ensures r.Ok? ==> Decided(inp, sheetName, r.value.0)
    ensures r.Ok? ==> enums <= r.value.1 && Backed(inp, r.value.0, r.value.1)
    ensures r.Ok? ==> Slots([r.value.0]) == Range(|enums|, |r.value.1|)
  {
    var key := Normalize(path);
    if key !in inp.metadata then Err(MissingMetadata(key))
    else
      var f := inp.metadata[key];
      match RequiredCell(f.range)
      case None => Err(EmptyRange(key))
      case Some(required) =>
        var header := HeaderCells(path, f.title, f.description, required, f.dataType, f.values, f.codelist);
        var crossRef := FindCrossRef(inp.sheets, sheetName, path);
        var format := FormatFor(f.values, f.dataType);
        if f.codelist != "" then
          match ResolveCodes(f, inp.schemaUrl, inp.fetched)
          case Err(e) => Err(e)
          case Ok(codes) =>
            var column := ColumnPlan(header, format, ColumnWidth(path), Decide(crossRef, Some(codes), |enums|, f.values));
            assert Slots([column]) == [|enums|] + Slots([]);
            Ok((column, enums + [[path] + codes]))
        else
          var column := ColumnPlan(header, format, ColumnWidth(path), Decide(crossRef, None, |enums|, f.values));
          assert Slots([column]) == [] + Slots([]);
          Ok((column, enums))
  }

  /** Which error a failing column raises: missing metadata first, then an
      empty range, then an unavailable codelist. */
  lemma PlanColumnErrors(inp: Inputs, sheetName: string, path: string, enums: seq<seq<string>>)
    ensures var r := PlanColumn(inp, sheetName, path, enums);
      Normalize(path) !in inp.metadata ==> r == Err(MissingMetadata(Normalize(path)))
    ensures var r := PlanColumn(inp, sheetName, path, enums);
      Normalize(path) in inp.metadata && |inp.metadata[Normalize(path)].range| == 0 ==>
        r == Err(EmptyRange(Normalize(path)))
    ensures var r := PlanColumn(inp, sheetName, path, enums);
      Normalize(path) in inp.metadata && |inp.metadata[Normalize(path)].range| > 0 && r.Err? ==>
        r.error == CodelistUnavailable(CodelistUrl(inp.schemaUrl, inp.metadata[Normalize(path)].codelist))
  {
  }

  /** A planned head column followed by planned tail columns plans all of
      `paths`. */
  lemma PlannedCons(inp: Inputs, sheetName: string, paths: seq<string>, column: ColumnPlan,
                    columns: seq<ColumnPlan>, enums: seq<seq<string>>)
    requires |paths| > 0 && ColumnPlanned(inp, sheetName, paths[0], column, enums)
    requires |columns| == |paths| - 1
    requires forall i :: 0 <= i < |paths[1..]| ==> ColumnPlanned(inp, sheetName, paths[1..][i], columns[i], enums)
    ensures forall i :: 0 <= i < |paths| ==> ColumnPlanned(inp, sheetName, paths[i], ([column] + columns)[i], enums)
  {
    assert paths == [paths[0]] + paths[1..];
    PairwiseCons((p, c) => ColumnPlanned(inp, sheetName, p, c, enums), paths[0], column, paths[1..], columns);
  }

  lemma SlotsCons(c: ColumnPlan, rest: seq<ColumnPlan>)
    ensures Slots([c] + rest) == Slots([c]) + Slots(rest)
  {
    assert ([c] + rest)[1..] == rest;
    assert [c][1..] == [];
  }

  /** Some column of `paths` aborts the build. */
  predicate AnyFails(inp: Inputs, paths: seq<string>) {
    exists i :: 0 <= i < |paths| && Fails(inp, paths[i])
  }

  /** `c` is the plan for column `path` of sheet `sheetName`, backed by the
      enumeration columns `enums`. */
  predicate ColumnPlanned(inp: Inputs, sheetName: string, path: string, c: ColumnPlan, enums: seq<seq<string>>) {
    && c.header.path == path
    && Decided(inp, sheetName, c)
    && Backed(inp, c, enums)
  }

  /** `plan` is the plan for `sheet`: same name, its family's tab colour, and
      one planned column per column path, in order. */
  predicate SheetPlanned(inp: Inputs, sheet: Sheet, plan: SheetPlan, enums: seq<seq<string>>) {
    && plan.name == sheet.name
    && plan.tabColour == TabColour(inp.palette, sheet.name)
    && |plan.columns| == |sheet.columns|
    && forall j :: 0 <= j < |sheet.columns| ==> ColumnPlanned(inp, sheet.name, sheet.columns[j], plan.columns[j], enums)
  }

  lemma SheetPlannedExtend(inp: Inputs, sheet: Sheet, plan: SheetPlan, enums: seq<seq<string>>, more: seq<seq<string>>)
    requires SheetPlanned(inp, sheet, plan, enums) && enums <= more
    ensures SheetPlanned(inp, sheet, plan, more)
  {
    forall j | 0 <= j < |sheet.columns|
      ensures ColumnPlanned(inp, sheet.name, sheet.columns[j], plan.columns[j], more)
    {
      BackedExtend(inp, plan.columns[j], enums, more);
    }
  }

  /** The plans for the columns `paths` of sheet `sheetName`, in order, with
      the enumeration columns threaded through. */
  function PlanColumns(inp: Inputs, sheetName: string, paths: seq<string>, enums: seq<seq<string>>)
    : (r: Result<(seq<ColumnPlan>, seq<seq<string>>)>)
    ensures r.Err? <==> AnyFails(inp, paths)
    ensures r.Err? ==> FirstColumnError(inp, paths, r.error)
    ensures r.Ok? ==> |r.value.0| == |paths|
    ensures r.Ok? ==> enums <= r.value.1
    ensures r.Ok? ==> forall i :: 0 <= i < |paths| ==> ColumnPlanned(inp, sheetName, paths[i], r.value.0[i], r.value.1)
    ensures r.Ok? ==> Slots(r.value.0) == Range(|enums|, |r.value.1|)
    decreases |paths|
  {
    if |paths| == 0 then Ok(([], enums))
    else
      AnyFailsCons(inp, paths);
      match PlanColumn(inp, sheetName, paths[0], enums)
      case Err(e) =>
        FirstColumnErrorCons(inp, paths, e);
        Err(e)
      case Ok((column, enums1)) =>
        match PlanColumns(inp, sheetName, paths[1..], enums1)
        case Err(e) =>
          FirstColumnErrorCons(inp, paths, e);
          Err(e)
        case Ok((columns, enums2)) =>
          BackedExtend(inp, column, enums1, enums2);
          PlannedCons(inp, sheetName, paths, column, columns, enums2);
          SlotsCons(column, columns);
          RangeAppend(|enums|, |enums1|, |enums2|);
          Ok(([column] + columns, enums2))
  }

  lemma AnyFailsCons(inp: Inputs, paths: seq<string>)
    requires |paths| > 0
    ensures AnyFails(inp, paths) <==> Fails(inp, paths[0]) || AnyFails(inp, paths[1..])
  {
    assert forall i :: 1 <= i < |paths| ==> paths[i] == paths[1..][i - 1];
  }

  /** The first failing column of `paths` is the head when the head fails,
      and otherwise the first failing column of the tail. */
  lemma FirstColumnErrorCons(inp: Inputs, paths: seq<string>, e: Error)
    requires |paths| > 0
    requires || (Fails(inp, paths[0]) && e == ColumnError(inp, paths[0]))
             || (!Fails(inp, paths[0]) && FirstColumnError(inp, paths[1..], e))
    ensures FirstColumnError(inp, paths, e)
  {
    if Fails(inp, paths[0]) {
      assert FirstFailure(inp, paths, 0);
    } else {
      var i :| 0 <= i < |paths[1..]| && FirstFailure(inp, paths[1..], i) && e == ColumnError(inp, paths[1..][i]);
      assert forall j :: 1 <= j < |paths| ==> paths[j] == paths[1..][j - 1];
      assert FirstFailure(inp, paths, i + 1);
    }
  }


  lemma SomeSheetFailsCons(inp: Inputs, todo: seq<Sheet>)
    requires |todo| > 0
    ensures (exists i :: 0 <= i < |todo| && AnyFails(inp, todo[i].columns))
      <==> AnyFails(inp, todo[0].columns) || exists i :: 0 <= i < |todo[1..]| && AnyFails(inp, todo[1..][i].columns)
  {
    assert forall i :: 1 <= i < |todo| ==> todo[i] == todo[1..][i - 1];
  }

  /** The first sheet with a failing column is the head when the head has
      one, and otherwise the first such sheet of the tail. */
  lemma FirstSheetErrorCons(inp: Inputs, todo: seq<Sheet>, e: Error)
    requires |todo| > 0
    requires || (AnyFails(inp, todo[0].columns) && FirstColumnError(inp, todo[0].columns, e))
             || (!AnyFails(inp, todo[0].columns) && FirstSheetError(inp, todo[1..], e))
    ensures FirstSheetError(inp, todo, e)
  {
    FirstStopCons((sheet: Sheet) => AnyFails(inp, sheet.columns), (sheet: Sheet) => FirstColumnError(inp, sheet.columns, e), todo);
  }

  /** `plans` are the plans for `todo`, sheet by sheet. */
  predicate AllPlanned(inp: Inputs, todo: seq<Sheet>, plans: seq<SheetPlan>, enums: seq<seq<string>>) {
    Pairwise((sheet: Sheet, plan: SheetPlan) => SheetPlanned(inp, sheet, plan, enums), todo, plans)
  }

  /** The plan of the first sheet in front of the plans of the others plans
      all of `todo`. */
  lemma AllPlannedCons(inp: Inputs, todo: seq<Sheet>, plan: SheetPlan, plans: seq<SheetPlan>, enums: seq<seq<string>>)
    requires |todo| > 0 && SheetPlanned(inp, todo[0], plan, enums)
    requires AllPlanned(inp, todo[1..], plans, enums)
    ensures AllPlanned(inp, todo, [plan] + plans, enums)
  {
    PairwiseHeadTail((sheet: Sheet, plan: SheetPlan) => SheetPlanned(inp, sheet, plan, enums), todo, plan, plans);
  }

  lemma SheetSlotsCons(plan: SheetPlan, plans: seq<SheetPlan>)
    ensures SheetSlots([plan] + plans) == Slots(plan.columns) + SheetSlots(plans)
  {
    assert ([plan] + plans)[1..] == plans;
  }

  /** The plans for the sheets `todo`, in order, with the enumeration
      columns threaded through. */
  function PlanSheets(inp: Inputs, todo: seq<Sheet>, enums: seq<seq<string>>)
    : (r: Result<(seq<SheetPlan>, seq<seq<string>>)>)
    ensures r.Err? <==> exists i :: 0 <= i < |todo| && AnyFails(inp, todo[i].columns)
    ensures r.Err? ==> FirstSheetError(inp, todo, r.error)
    ensures r.Ok? ==> |r.value.0| == |todo|
    ensures r.Ok? ==> enums <= r.value.1
    ensures r.Ok? ==> AllPlanned(inp, todo, r.value.0, r.value.1)
    ensures r.Ok? ==> SheetSlots(r.value.0) == Range(|enums|, |r.value.1|)
    decreases |todo|
  {
    if |todo| == 0 then Ok(([], enums))
    else
      SomeSheetFailsCons(inp, todo);
      var sheet := todo[0];
      match PlanColumns(inp, sheet.name, sheet.columns, enums)
      case Err(e) =>
        FirstSheetErrorCons(inp, todo, e);
        Err(e)
      case Ok((columns, enums1)) =>
        var plan := SheetPlan(sheet.name, TabColour(inp.palette, sheet.name), columns);
        match PlanSheets(inp, todo[1..], enums1)
        case Err(e) =>
          FirstSheetErrorCons(inp, todo, e);
          Err(e)
        case Ok((plans, enums2)) =>
          SheetPlannedExtend(inp, sheet, plan, enums1, enums2);
          AllPlannedCons(inp, todo, plan, plans, enums2);
          SheetSlotsCons(plan, plans);
          assert ([plan] + plans)[1..] == plans;
          RangeAppend(|enums|, |enums1|, |enums2|);
          Ok(([plan] + plans, enums2))
  }

  /** The plan for the whole template. Building it aborts exactly when some
      column fails; otherwise every sheet is planned in order and the
      enumeration slots met along the way are 0, 1, 2, ... */
  function BuildPlan(inp: Inputs): (r: Result<TemplatePlan>)
    ensures r.Err? <==> exists i :: 0 <= i < |inp.sheets| && AnyFails(inp, inp.sheets[i].columns)
    ensures r.Err? ==> FirstSheetError(inp, inp.sheets, r.error)
    ensures r.Ok? ==> |r.value.sheets| == |inp.sheets|
    ensures r.Ok? ==> AllPlanned(inp, inp.sheets, r.value.sheets, r.value.enumColumns)
    ensures r.Ok? ==> SheetSlots(r.value.sheets) == Range(0, |r.value.enumColumns|)
  {
    match PlanSheets(inp, inp.sheets, [])
    case Err(e) => Err(e)
    case Ok((plans, enums)) => Ok(TemplatePlan(plans, enums))
  }

  /** Sheet `i` of a successful plan is the plan of input sheet `i`. */
  lemma PlannedSheetAt(inp: Inputs, i: nat)
    requires BuildPlan(inp).Ok? && i < |inp.sheets|
    ensures var plan := BuildPlan(inp).value;
      && i < |plan.sheets|
      && SheetPlanned(inp, inp.sheets[i], plan.sheets[i], plan.enumColumns)
  {
  }

  /** A successful plan has one sheet per input sheet, under the same name. */
  lemma PlannedSheetNames(inp: Inputs)
    requires BuildPlan(inp).Ok?
    ensures var plan := BuildPlan(inp).value;
      && |plan.sheets| == |inp.sheets|
      && forall k :: 0 <= k < |inp.sheets| ==> plan.sheets[k].name == inp.sheets[k].name
  {
    forall k | 0 <= k < |inp.sheets| ensures BuildPlan(inp).value.sheets[k].name == inp.sheets[k].name {
      PlannedSheetAt(inp, k);
    }
  }

  /** Column `j` of sheet `i` of a successful plan: its header carries the
      path and the field metadata, and its validation follows the
      precedence codelist, then date, then cross-sheet reference. */
  lemma PlannedColumnAt(inp: Inputs, i: nat, j: nat)
    requires BuildPlan(inp).Ok? && i < |inp.sheets| && j < |inp.sheets[i].columns|
    ensures var plan := BuildPlan(inp).value;
      && i < |plan.sheets|
      && plan.sheets[i].name == inp.sheets[i].name
      && plan.sheets[i].tabColour == TabColour(inp.palette, inp.sheets[i].name)
      && j < |plan.sheets[i].columns|
      && ColumnPlanned(inp, inp.sheets[i].name, inp.sheets[i].columns[j], plan.sheets[i].columns[j], plan.enumColumns)
  {
    PlannedSheetAt(inp, i);
  }

  /** The required cell of column `j` of sheet `i` of a successful plan is
      read off the first character of its field's range. */
  lemma RequiredCellAt(inp: Inputs, i: nat, j: nat)
    requires BuildPlan(inp).Ok? && i < |inp.sheets| && j < |inp.sheets[i].columns|
    ensures var plan := BuildPlan(inp).value;
      var key := Normalize(inp.sheets[i].columns[j]);
      && key in inp.metadata
      && i < |plan.sheets| && j < |plan.sheets[i].columns|
      && RequiredCell(inp.metadata[key].range) == Some(plan.sheets[i].columns[j].header.required)
  {
    PlannedColumnAt(inp, i, j);
  }

  /** The enumeration columns are handed out in the order the codelist-bound
      columns are met, sheet by sheet and column by column: the slots are
      0, 1, 2, ..., none is shared and none is skipped. */
  lemma EnumSlotsInOrder(inp: Inputs)
    requires BuildPlan(inp).Ok?
    ensures var plan := BuildPlan(inp).value;
      var slots := SheetSlots(plan.sheets);
      && StrictlyIncreasing(slots)
      && Distinct(slots)
      && |slots| == |plan.enumColumns|
      && forall k :: 0 <= k < |plan.enumColumns| ==> slots[k] == k
  {
    var plan := BuildPlan(inp).value;
    RangeIncreasing(0, |plan.enumColumns|);
  }

  /** A codelist-bound column's dropdown lists exactly its codes: the
      enumeration column it points at holds its path in row 1 and the codes
      in rows 2 to `|codes| + 1`. */
  lemma EnumDropdownContents(inp: Inputs, i: nat, j: nat)
    requires BuildPlan(inp).Ok? && i < |inp.sheets| && j < |inp.sheets[i].columns|
    requires var f := inp.metadata[Normalize(inp.sheets[i].columns[j])];
      Normalize(inp.sheets[i].columns[j]) in inp.metadata && f.codelist != ""
    ensures var plan := BuildPlan(inp).value;
      var path := inp.sheets[i].columns[j];
      var f := inp.metadata[Normalize(path)];
      var codes := ResolveCodes(f, inp.schemaUrl, inp.fetched);
      && i < |plan.sheets| && j < |plan.sheets[i].columns|
      && var v := plan.sheets[i].columns[j].validation;
      && codes.Ok?
      && v.EnumList?
      && v.slot < |plan.enumColumns|
      && plan.enumColumns[v.slot] == [path] + codes.value
      && v.firstRow == 2
      && v.lastRow == |codes.value| + 1
  {
    PlannedColumnAt(inp, i, j);
  }

  /** An identifier column with neither a codelist nor a date value, whose
      exact path first appears as a column of an earlier sheet `k`, gets a
      dropdown of the values entered in that column of sheet `k`. */
  lemma IdentifierDropdown(inp: Inputs, i: nat, j: nat, k: nat)
    requires BuildPlan(inp).Ok? && UniqueNames(inp.sheets)
    requires i < |inp.sheets| && j < |inp.sheets[i].columns| && k < i
    requires var path := inp.sheets[i].columns[j];
      && path in inp.sheets[k].columns
      && (forall m :: 0 <= m < k ==> path !in inp.sheets[m].columns)
    requires var f := inp.metadata[Normalize(inp.sheets[i].columns[j])];
      Normalize(inp.sheets[i].columns[j]) in inp.metadata && f.codelist == "" && f.values != DateValues
    ensures var plan := BuildPlan(inp).value;
      var path := inp.sheets[i].columns[j];
      && i < |plan.sheets| && j < |plan.sheets[i].columns|
      && plan.sheets[i].columns[j].validation == SheetList(ReferTo(inp.sheets[k], path))
  {
    PlannedColumnAt(inp, i, j);
    FirstMatchWins(inp.sheets, i, k, inp.sheets[i].columns[j]);
  }

  /** A column whose path is in no earlier sheet, with neither a codelist nor
      a date value, has no validation at all. */
  lemma NoDropdownWithoutSource(inp: Inputs, i: nat, j: nat)
    requires BuildPlan(inp).Ok? && UniqueNames(inp.sheets)
    requires i < |inp.sheets| && j < |inp.sheets[i].columns|
    requires forall m :: 0 <= m < i ==> inp.sheets[i].columns[j] !in inp.sheets[m].columns
    requires var f := inp.metadata[Normalize(inp.sheets[i].columns[j])];
      Normalize(inp.sheets[i].columns[j]) in inp.metadata && f.codelist == "" && f.values != DateValues
    ensures var plan := BuildPlan(inp).value;
      && i < |plan.sheets| && j < |plan.sheets[i].columns|
      && plan.sheets[i].columns[j].validation == NoValidation
  {
    PlannedColumnAt(inp, i, j);
    NoEarlierNoCrossRef(inp.sheets, i, inp.sheets[i].columns[j]);
  }
}
