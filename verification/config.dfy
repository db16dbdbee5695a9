/** The fixed configuration tables at the top of manage.py. */
module Config {
  import opened Seqs

  /** The four top-level schema components a template can be restricted to. */
  const Components: seq<string> := ["hazard", "exposure", "vulnerability", "loss"]

  /** The preferred sheet order (the keys of `SHEETS`). Sheet names are the
      flattening tool's: in a nested name every ancestor segment is cut to
      `TruncationLength` characters, the last segment is kept whole, and the
      longest names stop at 31 characters. */
  const PrioritySheets: seq<string> := [
    "datasets",
    "attributions",
    "sources",
    "referenced_by",
    "spatial_gazetteerEntries",
    "resources",
    "hazard_event_sets",
    "hazard_event_sets_hazards",
    "hazard_event_sets_spatial_gazet",
    "hazard_event_sets_events",
    "hazard_event_sets_events_footpr",
    "exposure_cost",
    "vulnerabil_cost",
    "vulnerabil_spatial_gazetteerEnt",
    "loss_cost",
    "links"
  ]

  /** Tab colours for families of related sheets, in declaration order. */
  const Palette: seq<(string, string)> := [
    ("resources", "#0b3860"),
    ("hazard", "#1a6eff"),
    ("exposure", "#989bff"),
    ("vulnerability", "#f9d6ff"),
    ("loss", "#c57082")
  ]

  /** The tab colour of a sheet whose family has no palette entry. */
  const DefaultTabColour: string := "#efefef"

  /** Configuration properties for the flattening tool's unflatten step. */
  const MetaConfig: seq<string> := ["#", "HeaderRows 7", "hashComments"]

  /** The flattening tool's sheet-name truncation length. */
  const TruncationLength: nat := 10

  /** The header rows above the input rows of every entity sheet, in order. */
  const HeaderRowNames: seq<string> :=
    ["path", "title", "description", "required", "type", "values", "codelist"]

  /** Number of blank input cells written below the header block of a column. */
  const InputRowCount: nat := 1000

  /** The last row (1-based) of the range a cross-sheet reference offers. */
  const LastReferencedRow: nat := 1000

  /** Columns are never narrower than this. */
  const MinColumnWidth: nat := 16

  /** Values marker selecting the date format and the date validation. */
  const DateValues: string := "date"

  /** The schema URL used when none is given on the command line. */
  const DefaultSchemaUrl: string := "https://rdl-standard.readthedocs.io/en/dev/rdls_schema.json"

  /** The file name the schema URL ends with; codelists sit beside it. */
  const SchemaFileMarker: string := "/rdls_schema.json"

  /** Directory of open codelists below the schema's base URL. */
  const OpenCodelistDir: string := "/codelists/open/"

  /** The input cells of a column end at row 1007, below the header block;
      a cross-sheet range stops seven rows before that. */
  lemma UnreferencedInputRows()
    ensures |HeaderRowNames| + InputRowCount == 1007
    ensures LastReferencedRow + 7 == |HeaderRowNames| + InputRowCount
  {
  }

  /** The sheet order lists every sheet once, as the keys of a dictionary must. */
  lemma PrioritySheetsDistinct()
    ensures Distinct(PrioritySheets)
  {
  }

  /** The unflatten configuration declares as many header rows as are written. */
  lemma HeaderRowsAgreeWithMeta()
    ensures MetaConfig[1] == "HeaderRows " + [('0' as int + |HeaderRowNames|) as char]
  {
  }
}
