/**
 * The asset detail page: the route id selects the asset's warranties and
 * depreciations on the client with `parseInt`, its maintenances on the
 * server with `int()`; the panels list all warranties, five maintenances
 * and three depreciations.
 */
module AssetDetailPage {
  import opened Wrappers
  import opened Strings
  import opened JsValues
  import opened Lists
  import opened Models
  import Views
  import AssetsPage

  /** The effect runs only when the route supplies an id. */
  predicate Fetches(id: string) {
    id != ""
  }

  /** `row.asset === parseInt(id)` */
  function AssetIs(id: string): Record -> bool {
    row => EqualsParsedInt(Get(row, "asset"), id)
  }

  /** The client-side `.filter` on the fetched warranties and depreciations. */
  function ForAsset(rows: seq<Record>, id: string): (r: seq<Record>)
    ensures forall row :: row in r <==> row in rows && EqualsParsedInt(Get(row, "asset"), id)
    ensures forall row :: multiset(r)[row] == if EqualsParsedInt(Get(row, "asset"), id) then multiset(rows)[row] else 0
  {
    var r := Keep(rows, AssetIs(id));
    KeepMultiplicity(rows, AssetIs(id));
    assert forall row | row in r :: EqualsParsedInt(Get(row, "asset"), id) by {
      forall row | row in r ensures EqualsParsedInt(Get(row, "asset"), id) { assert AssetIs(id)(row); }
    }
    assert forall row | row in rows && EqualsParsedInt(Get(row, "asset"), id) :: row in r by {
      forall row | row in rows && EqualsParsedInt(Get(row, "asset"), id) ensures row in r { assert AssetIs(id)(row); }
    }
    r
  }

  /** The fetched order is kept: filtering a concatenation filters each part in turn. */
  lemma ForAssetOrder(a: seq<Record>, b: seq<Record>, id: string)
    ensures ForAsset(a + b, id) == ForAsset(a, id) + ForAsset(b, id)
  {
    KeepAppend(a, b, AssetIs(id));
  }

  /** For the numeral of an id, the filter keeps exactly the rows whose `asset` is that number. */
  lemma ForAssetNumeral(rows: seq<Record>, n: nat)
    ensures forall row :: row in ForAsset(rows, NatToString(n)) <==> row in rows && Get(row, "asset") == Num(n as real)
  {
    ParseIntNatToString(n);
  }

  /** An id that does not start with digits matches nothing. */
  lemma ForAssetNotANumber(rows: seq<Record>, id: string)
    requires ParseInt(id).None?
    ensures ForAsset(rows, id) == []
  {
    assert forall row | row in rows :: !AssetIs(id)(row);
    KeepNone(rows, AssetIs(id));
  }

  /**
   * A numeral followed by other characters: `parseInt` reads the number,
   * while the server's `int()` rejects the text. The `by_asset` request
   * fails, so `Promise.all` rejects, nothing is stored, and the page says
   * the asset was not found whatever the other three answers were.
   */
  lemma TrailingTextSplitsClientAndServer(n: nat, maintenances: seq<Maintenance>,
                                          asset: Option<Record>, warranties: Option<seq<Record>>, depreciations: Option<seq<Record>>)
    ensures ParseInt(NatToString(n) + "x") == Some(n)
    ensures Views.ByAsset(maintenances, map["asset_id" := NatToString(n) + "x"]) == Views.ServerError
    ensures LoadDetail(NatToString(n) + "x", asset, warranties, None, depreciations) == NotFound
  {
    ParseIntStopsAtLetter(n);
    PyIntRejectsLetter(n);
    var params := map["asset_id" := NatToString(n) + "x"];
    AssetIdKey();
    assert Views.Param(params, "asset" + "_id", "") == NatToString(n) + "x";
    assert Views.ByAsset(maintenances, params).ServerError?;
    FailedAnswerNotFound(NatToString(n) + "x", asset, warranties, depreciations);
  }

  /** Once the effect runs, a failed maintenance request leaves the page at "Asset not found". */
  lemma FailedAnswerNotFound(id: string, asset: Option<Record>, warranties: Option<seq<Record>>, depreciations: Option<seq<Record>>)
    requires Fetches(id)
    ensures LoadDetail(id, asset, warranties, None, depreciations) == NotFound
  {
  }

  lemma AssetIdKey()
    ensures "asset" + "_id" == "asset_id"
  {
    assert ("asset" + "_id")[5] == '_';
  }

  /** `parseInt` reads the digits before the first letter. */
  lemma ParseIntStopsAtLetter(n: nat)
    ensures ParseInt(NatToString(n) + "x") == Some(n)
  {
    var d := NatToString(n);
    var s := d + "x";
    assert IsDigit(s[0]) && !IsSpace(s[0]);
    assert TrimStart(s) == s;
    DigitPrefixStops(d, 'x');
    assert s[..|d|] == d;
  }

  /** The digit run of a numeral followed by a non-digit is the numeral. */
  lemma {:induction false} DigitPrefixStops(d: string, c: char)
    requires AllDigits(d) && !IsDigit(c)
    ensures DigitPrefix(d + [c]) == |d|
  {
    if d != [] {
      assert (d + [c])[1..] == d[1..] + [c];
      DigitPrefixStops(d[1..], c);
    }
  }

  /** Python's `int()` refuses a numeral followed by a letter. */
  lemma PyIntRejectsLetter(n: nat)
    ensures Views.PyInt(NatToString(n) + "x") == None
  {
    var d := NatToString(n);
    var s := d + "x";
    assert IsDigit(s[0]);
    Views.DigitNotSpace(s[0]);
    assert !Views.PySpace('x');
    StripUnchanged(s, Views.PySpace);
    assert !AllDigits(s) by {
      assert !IsDigit(s[|s| - 1]);
    }
  }

  /** `type.charAt(0).toUpperCase() + type.slice(1)` */
  function Capitalize(s: string): (r: string)
    ensures |r| == |s|
    ensures |s| > 0 ==> r[0] == UpperChar(s[0]) && r[1..] == s[1..]
  {
    if s == "" then "" else [UpperChar(s[0])] + s[1..]
  }

  /** Capitalizing changes the case of the first letter only. */
  lemma CapitalizeKeepsLetters(s: string)
    ensures ToLower(Capitalize(s)) == ToLower(s)
  {
    if s != "" {
      assert LowerChar(UpperChar(s[0])) == LowerChar(s[0]);
      assert forall i | 0 <= i < |s| :: ToLower(Capitalize(s))[i] == ToLower(s)[i];
    }
  }

  /** The maintenance types as the panel shows them. */
  lemma CapitalizedTypes()
    ensures Capitalize(MaintenanceTypes[0]) == "Preventive"
    ensures Capitalize(MaintenanceTypes[1]) == "Corrective"
    ensures Capitalize(MaintenanceTypes[2]) == "Emergency"
    ensures Capitalize(MaintenanceTypes[3]) == "Upgrade"
  {
    assert Capitalize("preventive") == [UpperChar('p')] + "reventive";
    assert Capitalize("corrective") == [UpperChar('c')] + "orrective";
    assert Capitalize("emergency") == [UpperChar('e')] + "mergency";
    assert Capitalize("upgrade") == [UpperChar('u')] + "pgrade";
  }

  datatype Panels = Panels(warranties: seq<Record>, maintenances: seq<Record>, depreciations: seq<Record>)

  const MaintenanceRows := 5
  const DepreciationRows := 3

  /** The three panels: every warranty of the asset, its first five maintenances and first three depreciations. */
  function ShowPanels(warranties: seq<Record>, maintenances: seq<Record>, depreciations: seq<Record>, id: string): (p: Panels)
    ensures forall row :: row in p.warranties <==> row in warranties && EqualsParsedInt(Get(row, "asset"), id)
    ensures |p.maintenances| == if |maintenances| < MaintenanceRows then |maintenances| else MaintenanceRows
    ensures forall i | 0 <= i < |p.maintenances| :: p.maintenances[i] == maintenances[i]
    ensures var mine := ForAsset(depreciations, id);
      && |p.depreciations| == (if |mine| < DepreciationRows then |mine| else DepreciationRows)
      && forall i | 0 <= i < |p.depreciations| :: p.depreciations[i] == mine[i]
    ensures forall row | row in p.depreciations :: row in depreciations && EqualsParsedInt(Get(row, "asset"), id)
  {
    Panels(ForAsset(warranties, id), Take(maintenances, MaintenanceRows), Take(ForAsset(depreciations, id), DepreciationRows))
  }

  /** With at most five maintenances and three depreciations of the asset, nothing is cut off. */
  lemma PanelsComplete(warranties: seq<Record>, maintenances: seq<Record>, depreciations: seq<Record>, id: string)
    ensures |maintenances| <= MaintenanceRows ==> ShowPanels(warranties, maintenances, depreciations, id).maintenances == maintenances
    ensures |ForAsset(depreciations, id)| <= DepreciationRows ==>
      forall row :: row in ShowPanels(warranties, maintenances, depreciations, id).depreciations <==>
        row in depreciations && EqualsParsedInt(Get(row, "asset"), id)
    ensures |ForAsset(depreciations, id)| <= DepreciationRows ==>
      ShowPanels(warranties, maintenances, depreciations, id).depreciations == ForAsset(depreciations, id)
  {
    var p := ShowPanels(warranties, maintenances, depreciations, id);
    var mine := ForAsset(depreciations, id);
    if |mine| <= DepreciationRows {
      assert p.depreciations == mine;
    }
  }

  /** What the page renders once the effect has settled. */
  datatype Page = Spinner | NotFound | Detail(asset: Record, panels: Panels)

  /**
   * `fetchAssetDetails`: the four answers (`None` for a failed request) of
   * `Promise.all`. Without an id the effect never runs and the spinner
   * stays; one failure rejects them all, the catch stores nothing, and
   * with `asset` still null the page says the asset was not found.
   */
  function LoadDetail(id: string, asset: Option<Record>, warranties: Option<seq<Record>>,
                      maintenances: Option<seq<Record>>, depreciations: Option<seq<Record>>): (p: Page)
    ensures !Fetches(id) <==> p.Spinner?
    ensures Fetches(id) ==> (p.Detail? <==> asset.Some? && warranties.Some? && maintenances.Some? && depreciations.Some?)
    ensures p.Detail? ==> p.asset == asset.value
    ensures p.Detail? ==> forall row :: row in p.panels.warranties <==> row in warranties.value && EqualsParsedInt(Get(row, "asset"), id)
    ensures p.Detail? ==> |p.panels.maintenances| <= MaintenanceRows && |p.panels.depreciations| <= DepreciationRows
    ensures p.Detail? ==> p.panels == ShowPanels(warranties.value, maintenances.value, depreciations.value, id)
  {
    if !Fetches(id) then Spinner
    else if asset.Some? && warranties.Some? && maintenances.Some? && depreciations.Some? then
      Detail(asset.value, ShowPanels(warranties.value, maintenances.value, depreciations.value, id))
    else NotFound
  }

  datatype Tone = Green | Yellow | Gray | Red | Unstyled

  /**
   * The detail page's `getStatusBadge` colour: `statusColors[status]`, or
   * gray when the lookup is falsy. A status the table answers from
   * `Object.prototype` ("toString", "__proto__", ...) gets a truthy
   * function or object, whose text goes into the class list in place of a
   * colour, so the badge is left unstyled.
   */
  function StatusTone(status: string): (t: Tone)
    ensures t == Green <==> status == "Active"
    ensures t == Yellow <==> status == "Under Repair"
    ensures t == Red <==> status == "Scrapped"
    ensures t == Unstyled <==> FromPrototype(status)
    ensures t == Gray <==> status != "Active" && status != "Under Repair" && status != "Scrapped" && !FromPrototype(status)
  {
    if status == "Active" then Green
    else if status == "Under Repair" then Yellow
    else if status == "Retired" then Gray
    else if status == "Scrapped" then Red
    else if FromPrototype(status) then Unstyled
    else Gray
  }

  /** The detail page and the list page style every status name alike. */
  lemma BadgesAgree(status: string)
    ensures StatusTone(status) == Green <==> AssetsPage.StatusVariant(status) == AssetsPage.Default
    ensures StatusTone(status) == Yellow <==> AssetsPage.StatusVariant(status) == AssetsPage.Secondary
    ensures StatusTone(status) == Gray <==> AssetsPage.StatusVariant(status) == AssetsPage.Outline
    ensures StatusTone(status) == Red <==> AssetsPage.StatusVariant(status) == AssetsPage.Destructive
    ensures StatusTone(status) == Unstyled <==> AssetsPage.StatusVariant(status) == AssetsPage.Unstyled
  {
  }

  /** A status named after an `Object.prototype` member gets neither a colour nor a known variant. */
  lemma PrototypeStatusesUnstyled()
    ensures StatusTone("toString") == Unstyled && AssetsPage.StatusVariant("toString") == AssetsPage.Unstyled
    ensures StatusTone("__proto__") == Unstyled && AssetsPage.StatusVariant("__proto__") == AssetsPage.Unstyled
    ensures StatusTone("Retired") == Gray && AssetsPage.StatusVariant("Retired") == AssetsPage.Outline
  {
  }
}
