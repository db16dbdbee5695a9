# RDLS spreadsheet template: the column plan

`manage.py create_template` builds the Risk Data Library Standard (RDLS)
spreadsheet template. When a component is given, it restricts the schema to
it; otherwise the schema stays whole. It runs the
flattening tool to get one CSV header row per sheet, reads the schema's mapping
sheet for field metadata, and writes an XLSX workbook. Inside that I/O-heavy
function sits a pure decision procedure. For every sheet it picks a position
and a tab colour. For every column it picks:

- the header cells;
- the input-cell format;
- the column width;
- a data validation.

This project models that procedure in Dafny as pure functions over sequences
and maps, and proves what the procedure promises.

Modules, following the structure of the script:

- `Base`: `Option`, `Result`, and the ways the script aborts: a header row
  that cannot be read, a metadata path that is missing, an empty cardinality
  range, a codelist that cannot be fetched, and a component that is missing.
- `Seqs`, `Strings`: Python list search, slicing, `str.split` and
  `str.join`, with the round trips between split and join.
- `Config`: the tables at the top of the script (`COMPONENTS`, `SHEETS`,
  `PALETTE`, `META_CONFIG`, `TRUNCATION_LENGTH`) and the literal constants
  of the template layout.
- `Components`: deleting the components other than the chosen one from the
  schema's `properties`.
- `Sheets`: which `.csv` files become sheets, the final sheet order, and
  each sheet's columns. The order is the priority table with the absent
  sheets deleted, followed by the new sheets. Both a functional definition and
  the script's loop as a method are given, proved equal.
- `Paths`: turning a column path into a metadata key by dropping the `0`
  array-index segments.
- `Fields`: the `Required` cell, the input format, the column width and
  the tab colour looked up through the truncated palette keys.
- `CrossRefs`: the dropdown that offers identifiers entered in an earlier
  sheet's column.
- `Codelists`: inline `Enum:` codes, the URL of an open codelist, and
  resolving a field's codes.
- `Plan`: the validation precedence and the fold over sheets, then columns,
  that hands out the columns of the `# Enums` sheet.
- `Template`: the two stages composed.
- `Walkthrough`: a two-sheet template planned end to end, proved from the
  general lemmas.

Inputs the script obtains by I/O are parameters:

- the output directory listing;
- a map from file name to first CSV row;
- the mapping-sheet rows, keyed by path;
- a map from codelist URL to its `Code` column.

A file missing from the header map, or a URL missing from the codelist map,
is the case where the script raises.

Points of the code's behaviour worth stating plainly:

- Only the literal segment `0` is dropped from a path. `a/1/b` is its own
  metadata key, not a synonym of `a/0/b`.
- A field is required when its range starts with the character `1`, not
  whenever the minimum cardinality is non-zero. A range `2..n` gives an
  empty cell.
- Inline enumeration codes are not de-duplicated.
- The code sets no error style, so every validation uses xlsxwriter's
  default (stop); severity is not modelled.

The cross-sheet dropdown range ends at the literal row 1000. Input cells are
written to rows 8 to 1007, so the last seven rows of the referenced column are
not offered. The model keeps the code's 1000 (`Config.UnreferencedInputRows`).

## Model

| member | source | states |
|---|---|---|
| Config.PrioritySheetsDistinct | manage.py:22-39 | The preferred sheet order names every sheet once, as the keys of a dictionary must. |
| Config.UnreferencedInputRows | manage.py:295-311 | The input cells end at row 1007, the header rows plus the 1000 input rows, while a cross-sheet range stops at row 1000, seven rows earlier. |
| Config.HeaderRowsAgreeWithMeta | manage.py:52-56 | The unflatten configuration declares seven header rows, matching the seven header rows written to every sheet. |
| Components.RemoveOtherComponents | manage.py:123-125 | Without a component the properties are unchanged. With one, the result keeps exactly the keys that are not another component, with their values. It fails exactly when another component is missing, and reports the first missing one in declaration order. |
| Components.OtherComponents | manage.py:124 | The components deleted are exactly the three others, each once. |
| Components.DeleteKeys | manage.py:124-125 | Deleting keys one after the other keeps every other entry unchanged and removes exactly those keys. For distinct keys it fails exactly when one is absent, and names the first absent one. |
| Components.DeleteAllBut | manage.py:123-125 | Deleting every key of a duplicate-free list but one fails exactly when one of those keys is missing. Otherwise it keeps exactly the keys outside the list, plus the one spared, with unchanged values. |
| Components.OtherComponentsInOrder | manage.py:124 | The components deleted are those before the chosen one, then those after it, in declaration order. |
| Components.DeleteTwiceFails | manage.py:125 | Deleting a key a second time raises for that key. |
| Sheets.IsCsvFile | manage.py:220 | A file is taken for a sheet exactly when its name ends in `.csv` or is `csv`, which is when the text after its last `.` is `csv`. |
| Sheets.SheetNameOf | manage.py:220 | A sheet name is the file name up to its first `.`, or the whole name when it has none. |
| Strings.LastPieceSuffix | manage.py:220 | The last piece of a split is a separator-free suffix, and is either the whole name or preceded by the separator. |
| Sheets.SheetNames | manage.py:220 | The discovered names are exactly the names of the listed `.csv` files. |
| Sheets.SheetNamesAppend | manage.py:219-220 | Names follow the listing order: the names of two listings in turn are the names of the first, then those of the second. |
| Sheets.SheetNamesSingle | manage.py:219-220 | One listed file gives its sheet name when it is a CSV file, and nothing otherwise. |
| Sheets.KeepListed | manage.py:222-224 | The priority entries kept are exactly those that have a sheet, without repeats, in priority order. |
| Sheets.NewNames | manage.py:226-232 | The appended sheets are exactly the discovered names not in the priority table, each once, in order of first discovery. |
| Sheets.SheetOrder | manage.py:222-232 | The final order holds every discovered name and nothing else, each once. |
| Sheets.FirstMissingHeader | manage.py:226-240 | Reports the first discovered sheet, in discovery order, whose header file is missing, or none when all are readable. |
| Sheets.HeaderFileRoundTrip | manage.py:235 | The file a sheet's header row is read from is a CSV file whose sheet name is that sheet's name again. |
| Sheets.SheetsFromNames | manage.py:222-240 | Reading fails exactly when some discovered sheet has no header row, and reports the first such sheet. Each sheet read holds its header row. |
| Sheets.SheetsFromListing | manage.py:219-240 | Reading the output directory fails exactly when some listed `.csv` file has no readable header file. Each sheet read holds its header row. |
| Sheets.WalkSheetNames | manage.py:222-240 | The script's loop fails exactly at the first sheet whose header row cannot be read. Otherwise it leaves the sheet order of `SheetOrder`, with each sheet's stored header row. |
| Sheets.OrderSheets | manage.py:222-240 | The script's procedure yields exactly the sheet sequence of the functional definition. |
| Sheets.SheetOrderProperties | manage.py:222-232 | The final order holds the discovered names once each. The surviving priority entries come first, in priority order, then the new names in discovery order. |
| Sheets.OrderedSheetsProperties | manage.py:219-240 | After a successful read the sheet names equal the discovered names, each once. Priority sheets come first, in priority order, then the new sheets in discovery order. Each sheet's columns are its CSV header row. |
| Sheets.SheetsFromListingShape | manage.py:219-240 | A successful read holds one sheet per name of `SheetOrder`, in that order, each with its header row. |
| Strings.Split | manage.py:265 | Python `str.split`: at least one piece, no piece contains the separator, and joining the pieces gives back the string. |
| Strings.IndexOf | manage.py:265 | The position found is the leftmost occurrence of the separator, or there is none at all. |
| Strings.JoinShape | manage.py:265 | A joined string starts with the first part, has the separator right after it when there are more parts, and ends with the last part. |
| Strings.SplitFirstPiece | manage.py:246 | The first piece of a split runs up to the first separator, or is the whole string when there is none. |
| Strings.SplitJoin | manage.py:265-266 | For a one-character separator, splitting a join of separator-free pieces gives back the pieces. |
| Paths.DropArrayIndices | manage.py:265-266 | No `0` segment survives, every other segment keeps its count, and a path without `0` is unchanged. |
| Paths.DropArrayIndicesAppend | manage.py:265-266 | Dropping distributes over concatenation, so the kept segments stay in order. |
| Paths.Normalize | manage.py:265-266 | The segments of a metadata key are exactly the path's segments without the `0`s, in order; the key is empty when every segment was `0`. |
| Paths.NormalizeIdempotent | manage.py:265-266 | Normalising a metadata key again changes nothing. |
| Paths.NormalizeWithoutIndex | manage.py:265-266 | A path without a `0` segment is its own metadata key. |
| Paths.ArrayIndexStripped | manage.py:265-266 | For any segments `a` and `b` without `/` and other than `0`, `a/0/b` has the metadata key `a/b`. |
| Paths.OtherNumeralsKept | manage.py:265-266 | For any segments without `/` and other than `0`, `a/n/b` is its own metadata key: a middle segment such as `1` is kept, since only the literal `0` is an array index. |
| Paths.NormalizeThree | manage.py:265-266 | For segments without `/`, the key of a three-segment path is the join of its segments with the `0`s dropped. |
| Fields.RequiredCell | manage.py:277 | The cell reads `Required` exactly when the range's first character is `1`, and is empty otherwise. An empty range has no first character and aborts. |
| Fields.RequiredExamples | manage.py:277 | `1..1` and `1..n` are required. `0..1`, `0..n` and `2..n` are not. An empty range aborts. |
| Fields.FormatFor | manage.py:286-293 | The format is date exactly for `date` values. Otherwise it is number for type `number`, text for `string`, `array` or `object`, and plain for anything else. |
| Fields.ColumnWidth | manage.py:299 | The width is at least 16 and at least the path's length, and equals one of them. |
| Fields.TruncatedPalette | manage.py:202 | The keys are exactly the palette keys truncated to the given length. Each key maps to the colour of the last entry that truncates to it. |
| Fields.Family | manage.py:246 | A sheet's family is its name up to the first `_`, or the whole name when it has none. |
| Fields.TabColour | manage.py:245-246 | A sheet whose family matches no truncated palette key gets `#efefef`. Otherwise it gets the colour of the last palette entry whose key truncates to the family. |
| Fields.TabColourFromPalette | manage.py:245-246 | A sheet whose name up to the first `_` equals a truncated palette key gets that entry's colour. |
| Fields.TabColourDefault | manage.py:245-246 | A sheet whose family matches no truncated key gets `#efefef`. |
| Fields.VulnerabilityTabColour | manage.py:42-48 | `vulnerabil_cost` gets the vulnerability colour, through the truncated key `vulnerabil`. |
| Fields.HazardTabColour | manage.py:42-48 | `hazard_event_sets` gets the hazard colour. |
| Fields.DatasetsTabColour | manage.py:245-246 | `datasets` belongs to no palette family and gets `#efefef`. |
| Fields.NotAPaletteFamily | manage.py:245-246 | A family other than the five truncated palette keys matches no entry of the script's palette. |
| Fields.FamilyOf | manage.py:246 | The family of `head_rest` is `head` when `head` has no `_`. |
| CrossRefs.Earlier | manage.py:304-306 | The sheets scanned are a prefix of the sequence that stops at the first sheet with the current name. |
| CrossRefs.ReferTo | manage.py:308-311 | A reference names the sheet, the first column holding the path (counting the header column), and rows 8 to 1000. |
| Seqs.FirstIndex | manage.py:308 | `paths.index(path)`: the position holds the path and no earlier position does. |
| CrossRefs.FindCrossRef | manage.py:304-313 | There is no reference exactly when no earlier sheet has the exact path. Otherwise the reference is to the first earlier sheet that has it, at its first column with that path plus one, over rows 8 to 1000. |
| CrossRefs.CrossRefTarget | manage.py:307-311 | A reference names a column holding exactly the path, and spans rows 8 to 1000. |
| CrossRefs.ReferenceInto | manage.py:304-311 | A reference to an earlier sheet that holds the path names a sheet of the template, at a column holding the path, over rows 8 to 1000. |
| CrossRefs.FirstSheetHasNoCrossRef | manage.py:304-306 | The first sheet never gets a cross-sheet reference. |
| CrossRefs.CrossRefPointsBackwards | manage.py:304-313 | A reference from sheet `c` always names a sheet before `c`. |
| CrossRefs.FirstMatchWins | manage.py:307-313 | Of several earlier sheets holding the path, the first one wins. |
| CrossRefs.NoEarlierNoCrossRef | manage.py:304-313 | When no earlier sheet holds the path there is no reference. |
| Codelists.EnumCodes | manage.py:317-318 | There is at least one code, none contains `, `, and joining the codes with `, ` gives back `values[6:]`. |
| Codelists.IsEnum | manage.py:317 | Values are an inline enumeration exactly when they start with `Enum`. |
| Codelists.EnumCodesExample | manage.py:317-318 | `Enum: a, b, c` yields `a`, `b`, `c` in order. |
| Codelists.EnumCodesKeepDuplicates | manage.py:317-318 | Repeated codes are kept: `Enum: a, a` yields `a` twice. |
| Codelists.SchemaBase | manage.py:321 | The base is a prefix of the schema URL, free of `/rdls_schema.json`, and is either the whole URL or followed by the marker. |
| Codelists.SchemaBaseOf | manage.py:321 | A URL made of a marker-free base, the marker and anything after has exactly that base. |
| Codelists.CodelistUrl | manage.py:320-321 | The codelist URL is a marker-free prefix of the schema URL, ending where `/rdls_schema.json` first occurs or at the end, followed by `/codelists/open/` and the codelist name. |
| Codelists.CodelistUrlBesideSchema | manage.py:320-321 | The codelists of a schema at `base/rdls_schema.json` are fetched from `base/codelists/open/`. |
| Codelists.DefaultCodelistUrl | manage.py:108 | With the default schema URL, codelists come from the documentation site's `codelists/open` directory. |
| Codelists.ResolveCodes | manage.py:316-324 | `Enum` values give their inline codes without any fetch. Otherwise the codes are the fetched `Code` column of the codelist's URL, and an unavailable URL is the error. |
| Plan.Decide | manage.py:301-340 | A codelist gives the enumeration list over rows 2 to the number of codes plus 1. Without one, `date` gives the on-or-after 0001-01-01 rule. Otherwise the cross-sheet reference is kept if there is one, else there is no validation. |
| Plan.PlanColumn | manage.py:263-343 | A column fails exactly when its metadata is missing, its range is empty, or its codelist is unavailable, and the error is `ColumnError`, the one the script raises first. A successful column is planned from its metadata, and a codelist-bound column takes exactly the next enumeration column. |
| Plan.PlanColumnErrors | manage.py:265-324 | The error of a failing column is the one the script raises first: the missing metadata key, else the empty range, else the unavailable codelist URL. |
| Plan.PlanColumns | manage.py:262-345 | Over a sheet's columns, the build fails exactly when a column fails, and then reports the error of the first failing column. Every column is planned in order, and the slots handed out are consecutive from the current count. |
| Plan.PlanSheets | manage.py:243-345 | Over the sheets, the build fails exactly when a column of some sheet fails, and then reports the error of the first failing column of the first sheet that has one. Every sheet is planned in order, with its tab colour, and the slots are consecutive. |
| Plan.BuildPlan | manage.py:243-345 | The template fails exactly when some column fails, with the error the script raises first: the first failing column of the first sheet that has one. Otherwise every sheet is planned, and the slots met, sheets in order then columns in order, are 0, 1, 2 and so on. |
| Plan.PlannedSheetAt | manage.py:243-246 | Sheet `i` of a successful plan has the input sheet's name, its family's tab colour, and one planned column per column path. |
| Plan.PlannedSheetNames | manage.py:243 | A successful plan has one sheet per input sheet, in order, under the same name. |
| Plan.PlannedColumnAt | manage.py:263-343 | Column `j` of sheet `i` carries its path, the metadata's header cells, its format and width, and a validation chosen by precedence. |
| Plan.RequiredCellAt | manage.py:268-277 | Column `j` of sheet `i` of a successful plan has metadata with a non-empty range, and its required cell is read off that range's first character. |
| Plan.EnumSlotsInOrder | manage.py:325-331 | The enumeration slots are strictly increasing and distinct. There is one per enumeration column, and the `k`-th codelist-bound column gets column `k`. |
| Plan.EnumDropdownContents | manage.py:316-331 | A codelist-bound column's dropdown points at an enumeration column holding its path in row 1 and its codes below, over rows 2 to the number of codes plus 1. |
| Plan.IdentifierDropdown | manage.py:304-343 | A column without a codelist or date value, whose path first appears in earlier sheet `k`, offers that sheet's column. |
| Plan.NoDropdownWithoutSource | manage.py:301-343 | A column without a codelist, date value or earlier sheet holding its path has no validation. |
| Template.CreateTemplatePlan | manage.py:219-345 | A header row that cannot be read aborts before any column is planned. Once the sheets are read, the result is the plan built from them, so it fails exactly when some column fails. A successful plan has one tab per sheet of `SheetOrder`, in that order. |
| Template.TemplateSheetOrder | manage.py:219-245 | The tabs of a successful template are exactly the discovered sheets, in `SheetOrder`, and each appears once when the priority table has no repeats. |
| Template.ScriptTabsDistinct | manage.py:22-39 | With the script's own sheet table no two tabs share a name. |
| Walkthrough.ExampleDatasetId | manage.py:277-313 | In the worked example the dataset `id` is required, formatted as text, and has no dropdown. |
| Walkthrough.ExampleResourceId | manage.py:304-313 | In the worked example the resource's `id` offers column B of `datasets`, over rows 8 to 1000. |
| Walkthrough.ExampleBuilds | manage.py:263-331 | The worked example yields a plan: no column of it aborts the build. |
| Walkthrough.ExampleFormat | manage.py:316-331 | In the worked example `format` is optional, and its dropdown covers the codes `a` and `b` in rows 2 and 3 of its enumeration column. |
| Walkthrough.ExampleEnumColumns | manage.py:316-331 | In the worked example `format` takes enumeration column 0, which lists `format`, `a` and `b`, with the dropdown over rows 2 to 3. |

## Left out

- HTTP (`get`, the schema download and the codelist download) is left out. The fetched codelist `Code` columns are the parameter `fetched`, keyed by URL. CSV decoding of a codelist is not modelled.
- Filesystem access is left out: the temporary directory, `os.listdir`, opening and CSV-parsing the header files, `json_dump` and `delete_directory_contents`. The listing and the first row of each file are parameters. A file that is missing or empty is absent from `headers`. The deletion helper also calls `shutil`, which the script never imports.
- The `flatten-tool` subprocess and `ocdskit`'s `mapping_sheet` are foreign tools whose algorithms are not visible. The sheets they produce and the mapping-sheet rows, keyed by path, are inputs.
- The `Classification` codelist override written into the schema before flattening only changes the mapping-sheet input.
- xlsxwriter rendering is left out: cell formats, row heights, frozen panes, the header column, the hidden `Meta` sheet, the cell ranges that formats and validations are written to, and closing the workbook. The plan keeps only the decided values.
- `xl_col_to_name` is left out. Column references stay 0-based integer indices: column 0 of an entity sheet is the header column, and enumeration slot `k` is column `k` of `# Enums`.
- The click command line is left out: option parsing, the default output file name and `warnings.warn` for a new sheet. The component's restriction to the four names becomes the precondition of `Components.RemoveOtherComponents`.
- Validation severity is left out: the code sets no error style, so every validation uses xlsxwriter's default (stop); severity is not modelled. Code de-duplication is left out because the code has none.
- Fields.TabColourFromPalette: the tab-colour lemmas are proved for the script's own palette. `TabColour` itself takes any palette.
- Strings.SplitJoin: splitting undoes joining only for one-character separators. Path segments use `/`, so this is the only case the model needs. The `, ` separator of enumeration codes is covered in the joining direction only, by `Codelists.EnumCodes`.
