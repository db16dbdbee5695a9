/** Cross-sheet identifier references: a column whose exact path is already a
    column of an earlier sheet gets a dropdown of the values entered there. */
module CrossRefs {
  import opened Base
  import opened Seqs
  import opened Config
  import opened Sheets

  /** The range a dropdown offers: rows `firstRow..lastRow` (1-based) of
      column `column` (0-based; column 0 is the header column) of `sheet`. */
  datatype CrossRef = CrossRef(sheet: string, column: nat, firstRow: nat, lastRow: nat)

  /** The sheets strictly before the first sheet named `current` (all of
      them when no sheet has that name). */
  function Earlier(sheets: seq<Sheet>, current: string): (before: seq<Sheet>)
    ensures before <= sheets
    ensures forall k :: 0 <= k < |before| ==> before[k].name != current
    ensures |before| == |sheets| || sheets[|before|].name == current
  {
    if |sheets| == 0 || sheets[0].name == current then []
    else [sheets[0]] + Earlier(sheets[1..], current)
  }

  /** The reference to column `path` of `sheet`, over the input rows. */
  function ReferTo(sheet: Sheet, path: string): (ref: CrossRef)
    requires path in sheet.columns
    ensures ref.sheet == sheet.name
    ensures 1 <= ref.column <= |sheet.columns| && sheet.columns[ref.column - 1] == path
    ensures forall j :: 0 <= j < ref.column - 1 ==> sheet.columns[j] != path
    ensures ref.firstRow == 8 && ref.lastRow == 1000
  {
    CrossRef(sheet.name, FirstIndex(sheet.columns, path) + 1, |HeaderRowNames| + 1, LastReferencedRow)
  }

  /** Scan the sheets in order, stopping at the current one; the first sheet
      whose columns contain `path` wins. */
  function FindCrossRef(sheets: seq<Sheet>, current: string, path: string): (r: Option<CrossRef>)
    ensures var before := Earlier(sheets, current);
      r.None? <==> forall k :: 0 <= k < |before| ==> path !in before[k].columns
    ensures var before := Earlier(sheets, current);
      r.Some? ==> (exists k :: 0 <= k < |before| && path in before[k].columns
                    && (forall j :: 0 <= j < k ==> path !in before[j].columns)
                    && r.value == ReferTo(before[k], path))
  {
    if |sheets| == 0 || sheets[0].name == current then None
    else
      assert Earlier(sheets, current) == [sheets[0]] + Earlier(sheets[1..], current);
      if path in sheets[0].columns then
        HeadHolds(Earlier(sheets, current), sheets[0], Earlier(sheets[1..], current), path);
        Some(ReferTo(sheets[0], path))
      else
        ShiftEarlier(Earlier(sheets, current), sheets[0], Earlier(sheets[1..], current), path,
                     FindCrossRef(sheets[1..], current, path));
        FindCrossRef(sheets[1..], current, path)
  }

  /** A path found in the first scanned sheet is referred to there. */
  lemma HeadHolds(before: seq<Sheet>, first: Sheet, rest: seq<Sheet>, path: string)
    requires before == [first] + rest
    requires path in first.columns
    ensures 0 < |before| && path in before[0].columns
    ensures exists k :: 0 <= k < |before| && path in before[k].columns
              && (forall j :: 0 <= j < k ==> path !in before[j].columns)
              && ReferTo(first, path) == ReferTo(before[k], path)
  {
    assert before[0] == first;
  }

  /** A path missing from the first scanned sheet is found, if at all, in the
      rest, at the same sheet one position further on. */
  lemma ShiftEarlier(before: seq<Sheet>, first: Sheet, rest: seq<Sheet>, path: string, r: Option<CrossRef>)
    requires before == [first] + rest
    requires path !in first.columns
    requires r.None? <==> forall k :: 0 <= k < |rest| ==> path !in rest[k].columns
    requires r.Some? ==> exists k :: 0 <= k < |rest| && path in rest[k].columns
                           && (forall j :: 0 <= j < k ==> path !in rest[j].columns)
                           && r.value == ReferTo(rest[k], path)
    ensures r.None? <==> forall k :: 0 <= k < |before| ==> path !in before[k].columns
    ensures r.Some? ==> exists k :: 0 <= k < |before| && path in before[k].columns
                          && (forall j :: 0 <= j < k ==> path !in before[j].columns)
                          && r.value == ReferTo(before[k], path)
  {
    assert forall k :: 1 <= k < |before| ==> before[k] == rest[k - 1];
    if r.Some? {
      var k :| 0 <= k < |rest| && path in rest[k].columns
        && (forall j :: 0 <= j < k ==> path !in rest[j].columns)
        && r.value == ReferTo(rest[k], path);
      assert before[k + 1] == rest[k];
    }
  }

  /** The referenced cell column holds exactly the path, and the range starts
      right below the header block and ends at row 1000. */
  lemma CrossRefTarget(sheets: seq<Sheet>, current: string, path: string)
    requires FindCrossRef(sheets, current, path).Some?
    ensures FindCrossRef(sheets, current, path).value.firstRow == 8
    ensures FindCrossRef(sheets, current, path).value.lastRow == 1000
    ensures var ref := FindCrossRef(sheets, current, path).value;
      && ref.column >= 1
      && (exists k :: 0 <= k < |sheets| && sheets[k].name == ref.sheet
            && ref.column - 1 < |sheets[k].columns| && sheets[k].columns[ref.column - 1] == path)
  {
    ReferenceInto(sheets, Earlier(sheets, current), path, FindCrossRef(sheets, current, path).value);
  }

  /** A reference to a path in one of the scanned sheets points at that
      sheet's column holding the path. */
  lemma ReferenceInto(sheets: seq<Sheet>, before: seq<Sheet>, path: string, ref: CrossRef)
    requires before <= sheets
    requires exists k :: 0 <= k < |before| && path in before[k].columns && ref == ReferTo(before[k], path)
    ensures ref.firstRow == 8 && ref.lastRow == 1000 && ref.column >= 1
    ensures exists k :: 0 <= k < |sheets| && sheets[k].name == ref.sheet
              && ref.column - 1 < |sheets[k].columns| && sheets[k].columns[ref.column - 1] == path
  {
    var k :| 0 <= k < |before| && path in before[k].columns && ref == ReferTo(before[k], path);
    assert before[k] == sheets[k];
  }

  /** With distinct sheet names, the sheets scanned for sheet number `c` are
      exactly the ones before it. */
  lemma EarlierIsPrefix(sheets: seq<Sheet>, c: nat)
    requires c < |sheets|
    requires UniqueNames(sheets)
    ensures Earlier(sheets, sheets[c].name) == sheets[..c]
  {
    var before := Earlier(sheets, sheets[c].name);
    var b := |before|;
    assert b == c;
  }

  /** The first sheet never gets a cross-sheet reference. */
  lemma FirstSheetHasNoCrossRef(sheets: seq<Sheet>, path: string)
    requires |sheets| > 0
    ensures FindCrossRef(sheets, sheets[0].name, path) == None
  {
  }

  /** A reference for a column of sheet `c` always points to a sheet before
      sheet `c`. */
  lemma CrossRefPointsBackwards(sheets: seq<Sheet>, c: nat, path: string)
    requires c < |sheets| && UniqueNames(sheets)
    requires FindCrossRef(sheets, sheets[c].name, path).Some?
    ensures exists k :: 0 <= k < c && sheets[k].name == FindCrossRef(sheets, sheets[c].name, path).value.sheet
  {
    EarlierIsPrefix(sheets, c);
  }

  /** First match wins: if sheet `k` before sheet `c` holds `path` and no
      sheet before `k` does, the reference is to sheet `k`, even when later
      sheets before `c` hold it too. */
  lemma {:induction false} FirstMatchWins(sheets: seq<Sheet>, c: nat, k: nat, path: string)
    requires k < c < |sheets| && UniqueNames(sheets)
    requires path in sheets[k].columns
    requires forall j :: 0 <= j < k ==> path !in sheets[j].columns
    ensures FindCrossRef(sheets, sheets[c].name, path) == Some(ReferTo(sheets[k], path))
    decreases k
  {
    assert sheets[0].name != sheets[c].name;
    if k > 0 {
      var rest := sheets[1..];
      assert rest[c - 1] == sheets[c] && rest[k - 1] == sheets[k];
      assert forall j :: 0 <= j < k - 1 ==> rest[j] == sheets[j + 1];
      FirstMatchWins(rest, c - 1, k - 1, path);
    }
  }

  /** No sheet before sheet `c` holds the path: no reference. */
  lemma {:induction false} NoEarlierNoCrossRef(sheets: seq<Sheet>, c: nat, path: string)
    requires c < |sheets| && UniqueNames(sheets)
    requires forall j :: 0 <= j < c ==> path !in sheets[j].columns
    ensures FindCrossRef(sheets, sheets[c].name, path) == None
    decreases c
  {
    if c > 0 {
      var rest := sheets[1..];
      assert sheets[0].name != sheets[c].name;
      assert rest[c - 1] == sheets[c];
      assert forall j :: 0 <= j < c - 1 ==> rest[j] == sheets[j + 1];
      NoEarlierNoCrossRef(rest, c - 1, path);
    }
  }
}
