/** Sheet discovery and ordering: which sheets the template has, in which
    order, and which columns each one holds. */
module Sheets {
  import opened Base
  import opened Seqs
  import opened Strings

  /** An entity sheet: its name and its column paths (the CSV header row). */
  datatype Sheet = Sheet(name: string, columns: seq<string>)

  const ExtensionSeparator: char := '.'
  const CsvExtension: string := "csv"

  /** The text after the last `.` of a file name is `csv`: the name ends in
      `.csv`, or is `csv` outright (a name without any `.`). */
  function IsCsvFile(file: string): (b: bool)
    ensures b <==> file == CsvExtension || (|file| >= 4 && file[|file| - 4..] == ".csv")
  {
    LastPieceSuffix(file, ExtensionSeparator);
    ExtensionSuffix(file, Last(Split(file, [ExtensionSeparator])));
    Last(Split(file, [ExtensionSeparator])) == CsvExtension
  }

  /** The sheet name of a file: the text before its first `.`, or the whole
      name when it has none. */
  function SheetNameOf(file: string): (name: string)
    ensures name <= file
    ensures ExtensionSeparator !in name
    ensures name == file || (|name| < |file| && file[|name|] == ExtensionSeparator)
  {
    SplitFirstPiece(file, ExtensionSeparator);
    Split(file, [ExtensionSeparator])[0]
  }

  /** The text after the last `.` is `csv` exactly when the name is `csv` or
      ends in `.csv`. */
  lemma ExtensionSuffix(file: string, last: string)
    requires |last| <= |file| && file[|file| - |last|..] == last
    requires ExtensionSeparator !in last
    requires |last| == |file| || file[|file| - |last| - 1] == ExtensionSeparator
    ensures last == CsvExtension <==> file == CsvExtension || (|file| >= 4 && file[|file| - 4..] == ".csv")
  {
    var endsCsv := |file| >= 4 && file[|file| - 4..] == ".csv";
    if last == CsvExtension {
      assert |last| == |file| ==> file == CsvExtension;
      assert |last| < |file| ==> file[|file| - 4..] == [ExtensionSeparator] + last;
    }
    if endsCsv {
      assert file[|file| - 4] == '.';
      assert file[|file| - 3..] == CsvExtension;
    }
  }

  /** The sheet names of the `.csv` files of a directory listing, in listing
      order. */
  function SheetNames(listing: seq<string>): (names: seq<string>)
    ensures forall n :: n in names <==> exists f :: f in listing && IsCsvFile(f) && SheetNameOf(f) == n
    ensures |names| <= |listing|
  {
    if |listing| == 0 then []
    else
      var rest := SheetNames(listing[1..]);
      assert listing == [listing[0]] + listing[1..];
      if IsCsvFile(listing[0]) then [SheetNameOf(listing[0])] + rest else rest
  }

  /** Sheet names follow the listing: the names of two listings one after
      the other are the names of the first, then those of the second. */
  lemma {:induction false} SheetNamesAppend(a: seq<string>, b: seq<string>)
    ensures SheetNames(a + b) == SheetNames(a) + SheetNames(b)
    decreases |a|
  {
    if |a| == 0 {
      assert a + b == b;
    } else {
      assert (a + b)[0] == a[0];
      assert (a + b)[1..] == a[1..] + b;
      SheetNamesAppend(a[1..], b);
    }
  }

  /** A single file gives its sheet name when it is a CSV file, and nothing
      otherwise. */
  lemma SheetNamesSingle(file: string)
    ensures SheetNames([file]) == if IsCsvFile(file) then [SheetNameOf(file)] else []
  {
    assert [file][1..] == [];
  }

  /** The priority entries that have a sheet, in priority order (the sheets
      deleted from the priority table are the others). */
  function KeepListed(priority: seq<string>, discovered: seq<string>): (kept: seq<string>)
    ensures forall n :: n in kept <==> n in priority && n in discovered
    ensures Distinct(priority) ==> Distinct(kept)
    ensures Distinct(priority) ==>
      forall i, j :: 0 <= i < j < |kept| ==> FirstIndex(priority, kept[i]) < FirstIndex(priority, kept[j])
    decreases |priority|
  {
    if |priority| == 0 then []
    else
      var earlier := priority[..|priority| - 1];
      var p := Last(priority);
      assert priority == earlier + [p];
      var prev := KeepListed(earlier, discovered);
      forall n | n in prev ensures FirstIndex(priority, n) == FirstIndex(earlier, n) {
        FirstIndexSnoc(earlier, p, n);
      }
      LastOfDistinct(earlier, p);
      if p in discovered then prev + [p] else prev
  }

  /** In a sequence without duplicates, the last element occurs nowhere
      before and its first index is the last position. */
  lemma LastOfDistinct(earlier: seq<string>, p: string)
    ensures Distinct(earlier + [p]) ==> Distinct(earlier) && p !in earlier
    ensures Distinct(earlier + [p]) ==> FirstIndex(earlier + [p], p) == |earlier|
  {
    var xs := earlier + [p];
    if Distinct(xs) {
      assert forall j :: 0 <= j < |earlier| ==> xs[j] == earlier[j];
      FirstIndexUnique(xs, p, |earlier|);
    }
  }

  /** The discovered names missing from the priority table, each once, in the
      order of their first discovery. */
  function NewNames(discovered: seq<string>, known: seq<string>): (added: seq<string>)
    ensures forall n :: n in added <==> n in discovered && n !in known
    ensures Distinct(added)
    ensures forall i, j :: 0 <= i < j < |added| ==> FirstIndex(discovered, added[i]) < FirstIndex(discovered, added[j])
    decreases |discovered|
  {
    if |discovered| == 0 then []
    else
      var earlier := discovered[..|discovered| - 1];
      var d := Last(discovered);
      assert discovered == earlier + [d];
      var prev := NewNames(earlier, known);
      forall n | n in prev ensures FirstIndex(discovered, n) == FirstIndex(earlier, n) {
        FirstIndexSnoc(earlier, d, n);
      }
      if d in known || d in prev then prev
      else
        FirstIndexUnique(discovered, d, |earlier|);
        prev + [d]
  }

  /** The final sheet order: surviving priority entries first, then new
      sheets in discovery order. */
  function SheetOrder(priority: seq<string>, discovered: seq<string>): (order: seq<string>)
    ensures forall n :: n in order <==> n in discovered
    ensures Distinct(priority) ==> Distinct(order)
  {
    var kept := KeepListed(priority, discovered);
    var added := NewNames(discovered, priority);
    var order := kept + added;
    assert forall i :: 0 <= i < |kept| ==> order[i] == kept[i];
    assert forall i :: |kept| <= i < |order| ==> order[i] == added[i - |kept|];
    assert forall i, j :: 0 <= i < |kept| <= j < |order| ==> order[i] in priority && order[j] !in priority;
    order
  }

  /** The file a sheet's header row is read from. */
  function HeaderFile(name: string): string {
    name + "." + CsvExtension
  }

  /** For a name without `.`, the header file is a CSV file whose sheet name
      is that name again. */
  lemma HeaderFileRoundTrip(name: string)
    requires ExtensionSeparator !in name
    ensures IsCsvFile(HeaderFile(name)) && SheetNameOf(HeaderFile(name)) == name
  {
    assert Join([name, CsvExtension], [ExtensionSeparator]) == HeaderFile(name);
    SplitJoin([name, CsvExtension], ExtensionSeparator);
  }

  /** The first sheet, in discovery order, whose header row cannot be read. */
  function FirstMissingHeader(names: seq<string>, headers: map<string, seq<string>>): (r: Option<string>)
    ensures r.None? <==> forall n :: n in names ==> HeaderFile(n) in headers
    ensures r.Some? ==> r.value in names && HeaderFile(r.value) !in headers
    ensures r.Some? ==> forall j :: 0 <= j < FirstIndex(names, r.value) ==> HeaderFile(names[j]) in headers
  {
    if |names| == 0 then None
    else if HeaderFile(names[0]) !in headers then Some(names[0])
    else
      var r := FirstMissingHeader(names[1..], headers);
      assert names == [names[0]] + names[1..];
      r
  }

  lemma FirstMissingAt(names: seq<string>, headers: map<string, seq<string>>, i: nat)
    requires i < |names| && HeaderFile(names[i]) !in headers
    requires forall j :: 0 <= j < i ==> HeaderFile(names[j]) in headers
    ensures FirstMissingHeader(names, headers) == Some(names[i])
  {
    var r := FirstMissingHeader(names, headers);
    assert r.Some?;
    var k := FirstIndex(names, r.value);
    assert k <= i;
  }

  /** The sheets of the template, as the script leaves its sheet table after
      reading the flattening tool's output. `listing` is the output directory
      listing and `headers` maps a file name to its first CSV row (absent when
      the file is missing or empty). */
  function SheetsFromListing(priority: seq<string>, listing: seq<string>,
                             headers: map<string, seq<string>>): (r: Result<seq<Sheet>>)
    ensures r.Err? <==> exists f :: f in listing && IsCsvFile(f) && HeaderFile(SheetNameOf(f)) !in headers
    ensures r.Ok? ==> forall k :: 0 <= k < |r.value| ==>
      HeaderFile(r.value[k].name) in headers && r.value[k].columns == headers[HeaderFile(r.value[k].name)]
  {
    SheetsFromNames(priority, SheetNames(listing), headers)
  }

  /** The sheet table for the discovered sheet names `names`: it fails at the
      first name whose header row is missing, and otherwise holds one sheet
      per name of `SheetOrder` with that sheet's header row. */
  function SheetsFromNames(priority: seq<string>, names: seq<string>,
                           headers: map<string, seq<string>>): (r: Result<seq<Sheet>>)
    ensures r.Err? <==> exists n :: n in names && HeaderFile(n) !in headers
    ensures r.Err? ==>
      exists i :: 0 <= i < |names| && HeaderFile(names[i]) !in headers
        && (forall j :: 0 <= j < i ==> HeaderFile(names[j]) in headers)
        && r.error == MissingHeaderRow(names[i])
    ensures r.Ok? ==> forall k :: 0 <= k < |r.value| ==>
      HeaderFile(r.value[k].name) in headers && r.value[k].columns == headers[HeaderFile(r.value[k].name)]
  {
    match FirstMissingHeader(names, headers)
    case Some(n) =>
      assert names[FirstIndex(names, n)] == n;
      Err(MissingHeaderRow(n))
    case None =>
      var order := SheetOrder(priority, names);
      Ok(seq(|order|, i requires 0 <= i < |order| => Sheet(order[i], headers[HeaderFile(order[i])])))
  }

  /** The sheet table's names after the script has walked the first `i`
      discovered names. */
  function TableAfter(priority: seq<string>, names: seq<string>, i: nat): seq<string>
    requires i <= |names|
  {
    KeepListed(priority, names) + NewNames(names[..i], priority)
  }

  /** Adding a name to the table appends it unless it is already there. */
  function Admit(table: seq<string>, name: string): (r: seq<string>)
  {
    if name in table then table else table + [name]
  }

  /** One step of the script's walk over the discovered names. */
  lemma OrderStep(priority: seq<string>, names: seq<string>, i: nat)
    requires i < |names|
    ensures TableAfter(priority, names, i + 1) == Admit(TableAfter(priority, names, i), names[i])
  {
    var name := names[i];
    assert names[..i + 1][..i] == names[..i];
    assert name in names;
    var kept := KeepListed(priority, names);
    var prev := NewNames(names[..i], priority);
    assert name in kept + prev <==> name in priority || name in prev;
  }

  /** After the walk the table holds the final sheet order. */
  lemma TableAfterAll(priority: seq<string>, names: seq<string>)
    ensures TableAfter(priority, names, |names|) == SheetOrder(priority, names)
  {
    assert names[..|names|] == names;
  }

  /** Storing the header row of name `i` keeps every stored row equal to its
      file's row and extends the stored names to the first `i + 1`. */
  lemma StoreStep(names: seq<string>, headers: map<string, seq<string>>,
                  columns: map<string, seq<string>>, i: nat)
    requires i < |names| && HeaderFile(names[i]) in headers
    requires forall j :: 0 <= j < i ==> names[j] in columns
    requires forall n :: n in columns ==> HeaderFile(n) in headers && columns[n] == headers[HeaderFile(n)]
    ensures var stored := columns[names[i] := headers[HeaderFile(names[i])]];
      && (forall j :: 0 <= j < i + 1 ==> names[j] in stored)
      && (forall n :: n in stored ==> HeaderFile(n) in headers && stored[n] == headers[HeaderFile(n)])
  {
  }

  /** The script's walk over the discovered sheet names `names`: delete the
      priority entries without a file, then append every name not in the
      table yet and store its header row. It stops at the first sheet whose
      header row cannot be read. */
  method WalkSheetNames(priority: seq<string>, names: seq<string>, headers: map<string, seq<string>>)
    returns (r: Result<(seq<string>, map<string, seq<string>>)>)
    ensures r.Err? <==> FirstMissingHeader(names, headers).Some?
    ensures r.Err? ==> r.error == MissingHeaderRow(FirstMissingHeader(names, headers).value)
    ensures r.Ok? ==> r.value.0 == SheetOrder(priority, names)
    ensures r.Ok? ==> forall n :: n in r.value.0 ==> n in r.value.1 && r.value.1[n] == headers[HeaderFile(n)]
  {
    var order := KeepListed(priority, names);
    var columns: map<string, seq<string>> := map[];
    var i := 0;
    while i < |names|
      invariant 0 <= i <= |names|
      invariant order == TableAfter(priority, names, i)
      invariant forall j :: 0 <= j < i ==> HeaderFile(names[j]) in headers
      invariant forall j :: 0 <= j < i ==> names[j] in columns
      invariant forall n :: n in columns ==> HeaderFile(n) in headers && columns[n] == headers[HeaderFile(n)]
    {
      var name := names[i];
      OrderStep(priority, names, i);
      order := Admit(order, name);
      if HeaderFile(name) !in headers {
        FirstMissingAt(names, headers, i);
        return Err(MissingHeaderRow(name));
      }
      StoreStep(names, headers, columns, i);
      columns := columns[name := headers[HeaderFile(name)]];
      i := i + 1;
    }
    TableAfterAll(priority, names);
    assert forall n :: n in order ==> n in columns by {
      forall n | n in order ensures n in columns {
        var j := FirstIndex(names, n);
      }
    }
    r := Ok((order, columns));
  }

  /** The script's procedure for the sheet table: the walk above, then one
      sheet per table entry holding its stored header row. It yields the
      sheets described by `SheetsFromNames`. */
  method OrderSheets(priority: seq<string>, names: seq<string>,
                     headers: map<string, seq<string>>) returns (r: Result<seq<Sheet>>)
    ensures r == SheetsFromNames(priority, names, headers)
  {
    var walked := WalkSheetNames(priority, names, headers);
    if walked.Err? {
      return Err(walked.error);
    }
    var (order, columns) := walked.value;
    var sheets: seq<Sheet> := [];
    var k := 0;
    while k < |order|
      invariant 0 <= k <= |order|
      invariant |sheets| == k
      invariant forall j :: 0 <= j < k ==> sheets[j] == Sheet(order[j], headers[HeaderFile(order[j])])
    {
      sheets := sheets + [Sheet(order[k], columns[order[k]])];
      k := k + 1;
    }
    assert sheets == seq(|order|, i requires 0 <= i < |order| => Sheet(order[i], headers[HeaderFile(order[i])]));
    r := Ok(sheets);
  }

  /** No two sheets share a name, as for the keys of a dictionary. */
  predicate UniqueNames(sheets: seq<Sheet>) {
    forall i, j :: 0 <= i < j < |sheets| ==> sheets[i].name != sheets[j].name
  }

  function Names(sheets: seq<Sheet>): (names: seq<string>)
    ensures |names| == |sheets|
    ensures forall k :: 0 <= k < |sheets| ==> names[k] == sheets[k].name
  {
    if |sheets| == 0 then [] else [sheets[0].name] + Names(sheets[1..])
  }

  /** A successful read yields one sheet per name of `SheetOrder`, holding
      that sheet's CSV header row. */
  lemma SheetsFromListingShape(priority: seq<string>, listing: seq<string>, headers: map<string, seq<string>>)
    requires SheetsFromListing(priority, listing, headers).Ok?
    ensures var sheets := SheetsFromListing(priority, listing, headers).value;
      && Names(sheets) == SheetOrder(priority, SheetNames(listing))
      && forall k :: 0 <= k < |sheets| ==> HeaderFile(sheets[k].name) in headers && sheets[k].columns == headers[HeaderFile(sheets[k].name)]
  {
    var sheets := SheetsFromListing(priority, listing, headers).value;
    var order := SheetOrder(priority, SheetNames(listing));
    assert |Names(sheets)| == |order|;
    forall k | 0 <= k < |order| ensures Names(sheets)[k] == order[k] {
      assert sheets[k].name == order[k];
    }
  }

  /** The order of `SheetOrder`: every discovered name once, the surviving
      priority entries first and in priority order, then the new names in
      discovery order. */
  lemma SheetOrderProperties(priority: seq<string>, discovered: seq<string>)
    requires Distinct(priority)
    ensures var order := SheetOrder(priority, discovered);
      var m := |KeepListed(priority, discovered)|;
      && (forall n :: n in order <==> n in discovered)
      && Distinct(order)
      && m <= |order|
      && (forall k :: 0 <= k < m ==> order[k] in priority)
      && (forall k :: m <= k < |order| ==> order[k] !in priority)
      && (forall i, j :: 0 <= i < j < m ==> FirstIndex(priority, order[i]) < FirstIndex(priority, order[j]))
      && (forall i, j :: m <= i < j < |order| ==> FirstIndex(discovered, order[i]) < FirstIndex(discovered, order[j]))
  {
    var kept := KeepListed(priority, discovered);
    var added := NewNames(discovered, priority);
    var order := SheetOrder(priority, discovered);
    var m := |kept|;
    assert order == kept + added;
    assert forall k :: 0 <= k < m ==> order[k] == kept[k];
    assert forall k :: m <= k < |order| ==> order[k] == added[k - m];
  }

  /** What the sheet table promises once reading succeeds: the sheets are
      exactly the discovered ones, each once; the surviving priority entries
      come first in priority order; the new sheets follow in discovery order;
      and every sheet's columns are its CSV header row. */
  lemma OrderedSheetsProperties(priority: seq<string>, listing: seq<string>, headers: map<string, seq<string>>)
    requires Distinct(priority)
    requires SheetsFromListing(priority, listing, headers).Ok?
    ensures var sheets := SheetsFromListing(priority, listing, headers).value;
      var discovered := SheetNames(listing);
      var names := Names(sheets);
      var m := |KeepListed(priority, discovered)|;
      && (forall n :: n in names <==> n in discovered)
      && UniqueNames(sheets)
      && (forall k :: 0 <= k < |sheets| ==> HeaderFile(sheets[k].name) in headers && sheets[k].columns == headers[HeaderFile(sheets[k].name)])
      && m <= |names|
      && (forall k :: 0 <= k < m ==> names[k] in priority)
      && (forall k :: m <= k < |names| ==> names[k] !in priority)
      && (forall i, j :: 0 <= i < j < m ==> FirstIndex(priority, names[i]) < FirstIndex(priority, names[j]))
      && (forall i, j :: m <= i < j < |names| ==> FirstIndex(discovered, names[i]) < FirstIndex(discovered, names[j]))
  {
    var sheets := SheetsFromListing(priority, listing, headers).value;
    var discovered := SheetNames(listing);
    SheetOrderProperties(priority, discovered);
    assert Names(sheets) == SheetOrder(priority, discovered);
    assert UniqueNames(sheets) by {
      assert forall i :: 0 <= i < |sheets| ==> Names(sheets)[i] == sheets[i].name;
    }
  }
}
