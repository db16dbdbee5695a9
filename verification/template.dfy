/** The whole pure part of template creation: order the sheets found in the
    flattening tool's output, then plan their columns. */
module Template {
  import opened Base
  import opened Seqs
  import opened Config
  import opened Sheets
  import opened Fields
  import opened Plan

  /** The template plan from the preferred sheet order, the tab-colour
      palette, the flattening tool's directory listing and header rows, the
      field metadata, the schema URL and the fetched codelists. The program
      passes `PrioritySheets` and `Palette`. A missing header row aborts
      before any column is planned. */
  function CreateTemplatePlan(priority: seq<string>, palette: seq<(string, string)>,
                              listing: seq<string>, headers: map<string, seq<string>>,
                              metadata: map<string, Field>, schemaUrl: string,
                              fetched: map<string, seq<string>>)
    : (r: Result<TemplatePlan>)
    ensures SheetsFromListing(priority, listing, headers).Err? ==>
      r == Err(SheetsFromListing(priority, listing, headers).error)
    ensures r.Ok? ==> SheetsFromListing(priority, listing, headers).Ok?
    ensures SheetsFromListing(priority, listing, headers).Ok? ==>
      r == BuildPlan(Inputs(SheetsFromListing(priority, listing, headers).value, palette, metadata, schemaUrl, fetched))
    ensures r.Ok? ==> |r.value.sheets| == |SheetOrder(priority, SheetNames(listing))|
    ensures r.Ok? ==> Names(SheetsFromListing(priority, listing, headers).value) == SheetOrder(priority, SheetNames(listing))
    ensures r.Ok? ==> forall k :: 0 <= k < |r.value.sheets| ==>
      r.value.sheets[k].name == SheetsFromListing(priority, listing, headers).value[k].name
  {
    match SheetsFromListing(priority, listing, headers)
    case Err(e) => Err(e)
    case Ok(sheets) =>
      var inp := Inputs(sheets, palette, metadata, schemaUrl, fetched);
      match BuildPlan(inp)
      case Err(e) => Err(e)
      case Ok(plan) =>
        PlannedSheetNames(inp);
        SheetsFromListingShape(priority, listing, headers);
        Ok(plan)
  }

  /** The tabs of a successful template: exactly the sheets found, each once
      when the preferred order has no duplicates, in the order `SheetOrder`
      gives. */
  lemma TemplateSheetOrder(priority: seq<string>, palette: seq<(string, string)>,
                           listing: seq<string>, headers: map<string, seq<string>>,
                           metadata: map<string, Field>, schemaUrl: string,
                           fetched: map<string, seq<string>>)
    requires CreateTemplatePlan(priority, palette, listing, headers, metadata, schemaUrl, fetched).Ok?
    ensures var tabs := CreateTemplatePlan(priority, palette, listing, headers, metadata, schemaUrl, fetched).value.sheets;
      var order := SheetOrder(priority, SheetNames(listing));
      && |tabs| == |order|
      && (forall k :: 0 <= k < |order| ==> tabs[k].name == order[k])
      && (forall n :: n in SheetNames(listing) <==> exists k :: 0 <= k < |tabs| && tabs[k].name == n)
      && (Distinct(priority) ==> forall k, m :: 0 <= k < m < |tabs| ==> tabs[k].name != tabs[m].name)
  {
    var tabs := CreateTemplatePlan(priority, palette, listing, headers, metadata, schemaUrl, fetched).value.sheets;
    var order := SheetOrder(priority, SheetNames(listing));
    var sheets := SheetsFromListing(priority, listing, headers).value;
    assert forall k :: 0 <= k < |order| ==> tabs[k].name == Names(sheets)[k];
    TabsNamed(tabs, order);
  }

  /** Tabs named after `order`, position by position, carry exactly its
      names, and distinct names when `order` has no duplicates. */
  lemma TabsNamed(tabs: seq<SheetPlan>, order: seq<string>)
    requires |tabs| == |order| && forall k :: 0 <= k < |order| ==> tabs[k].name == order[k]
    ensures forall n :: n in order <==> exists k :: 0 <= k < |tabs| && tabs[k].name == n
    ensures Distinct(order) ==> forall k, m :: 0 <= k < m < |tabs| ==> tabs[k].name != tabs[m].name
  {
    forall n | n in order ensures exists k :: 0 <= k < |tabs| && tabs[k].name == n {
      var k := FirstIndex(order, n);
      assert tabs[k].name == n;
    }
  }

  /** With the script's own sheet table, which lists every sheet once, no
      two tabs of a template share a name. */
  lemma ScriptTabsDistinct(palette: seq<(string, string)>,
                           listing: seq<string>, headers: map<string, seq<string>>,
                           metadata: map<string, Field>, schemaUrl: string,
                           fetched: map<string, seq<string>>)
    requires CreateTemplatePlan(PrioritySheets, palette, listing, headers, metadata, schemaUrl, fetched).Ok?
    ensures var tabs := CreateTemplatePlan(PrioritySheets, palette, listing, headers, metadata, schemaUrl, fetched).value.sheets;
      forall k, m :: 0 <= k < m < |tabs| ==> tabs[k].name != tabs[m].name
  {
    PrioritySheetsDistinct();
    TemplateSheetOrder(PrioritySheets, palette, listing, headers, metadata, schemaUrl, fetched);
  }
}
