/**
 * The dashboard: counts over the asset list rows, the total cost, the five
 * most recent assets and up to five expiring warranties, from the asset
 * list and the server's 30-day `expiring_soon` answer.
 */
module DashboardPage {
  import opened Wrappers
  import opened Strings
  import opened JsValues
  import opened Lists
  import opened Models
  import Ordering
  import Views

  datatype Stats = Stats(totalAssets: nat, activeAssets: nat, underMaintenance: nat,
                         expiringWarranties: nat, totalCost: real)

  /** The rows whose `status_name` is `name`. */
  function HasStatus(name: string): Record -> bool {
    row => Get(row, "status_name") == Str(name)
  }

  /** `parseFloat(asset.cost) || 0`: the cost, or zero when it does not read as a number. */
  function CostOf(row: Record): real {
    match Get(row, "cost")
    case Str(s) => (match ToNumber(s) case Some(x) => x case None => 0.0)
    case Num(n) => n
    case _ => 0.0
  }

  /** `assets.reduce((sum, asset) => sum + cost, 0)` */
  function TotalCost(rows: seq<Record>): real
    decreases |rows|
  {
    if rows == [] then 0.0 else TotalCost(rows[..|rows| - 1]) + CostOf(rows[|rows| - 1])
  }

  /** The total is additive over any split of the list. */
  lemma {:induction false} TotalCostAppend(a: seq<Record>, b: seq<Record>)
    ensures TotalCost(a + b) == TotalCost(a) + TotalCost(b)
    decreases |b|
  {
    if b == [] {
      assert a + b == a;
    } else {
      var b' := b[..|b| - 1];
      assert (a + b)[..|a + b| - 1] == a + b';
      assert (a + b)[|a + b| - 1] == b[|b| - 1];
      TotalCostAppend(a, b');
    }
  }

  /** Rows whose costs are never negative add up to a non-negative total. */
  lemma {:induction false} TotalCostNonNegative(rows: seq<Record>)
    requires forall row | row in rows :: CostOf(row) >= 0.0
    ensures TotalCost(rows) >= 0.0
    decreases |rows|
  {
    if rows != [] {
      assert forall row | row in rows[..|rows| - 1] :: row in rows;
      TotalCostNonNegative(rows[..|rows| - 1]);
    }
  }

  /** The stats block of `fetchDashboardData`. */
  function ComputeStats(assets: seq<Record>, warranties: seq<Record>): (s: Stats)
    ensures s.totalAssets == |assets| && s.expiringWarranties == |warranties|
    ensures s.activeAssets + s.underMaintenance <= s.totalAssets
    ensures s.activeAssets == |Keep(assets, HasStatus("Active"))|
    ensures s.underMaintenance == |Keep(assets, HasStatus("Under Repair"))|
    ensures s.totalCost == TotalCost(assets)
  {
    CountIsKeepLength(assets, HasStatus("Active"));
    CountIsKeepLength(assets, HasStatus("Under Repair"));
    CountDisjoint(assets, HasStatus("Active"), HasStatus("Under Repair"));
    Stats(|assets|, Count(assets, HasStatus("Active")), Count(assets, HasStatus("Under Repair")),
          |warranties|, TotalCost(assets))
  }

  datatype View = View(stats: Stats, recent: seq<Record>, expiring: seq<Record>)

  /** The number of rows each panel lists. */
  const PanelSize := 5

  /** The page before any answer: zero counts, zero cost and empty panels. */
  const Initial := View(Stats(0, 0, 0, 0, 0.0), [], [])

  /**
   * `fetchDashboardData`: the asset list, then the 30-day expiring list,
   * each `None` when its request fails. Both answers give the stats and the
   * first five rows of each list; a failure of either is caught and logged,
   * and the page keeps its initial state.
   */
  function Load(assets: Option<seq<Record>>, warranties: Option<seq<Record>>): (v: View)
    ensures assets.None? || warranties.None? ==> v == Initial
    ensures |v.recent| <= PanelSize && |v.expiring| <= PanelSize
    ensures assets.Some? && warranties.Some? ==>
      && v.stats == ComputeStats(assets.value, warranties.value)
      && |v.recent| <= |assets.value| && |v.expiring| <= |warranties.value|
      && (forall i | 0 <= i < |v.recent| :: v.recent[i] == assets.value[i])
      && (forall i | 0 <= i < |v.expiring| :: v.expiring[i] == warranties.value[i])
    ensures |v.expiring| == if v.stats.expiringWarranties < PanelSize then v.stats.expiringWarranties else PanelSize
    ensures assets.Some? && warranties.Some? ==>
      |v.recent| == if |assets.value| < PanelSize then |assets.value| else PanelSize
    ensures v == Initial <==>
      assets.None? || warranties.None? || (assets.value == [] && warranties.value == [])
  {
    if assets.Some? && warranties.Some? then
      var v := View(ComputeStats(assets.value, warranties.value), Take(assets.value, PanelSize), Take(warranties.value, PanelSize));
      assert assets.value == [] && warranties.value == [] ==> TotalCost(assets.value) == 0.0;
      v
    else Initial
  }

  /** The count card reports every expiring warranty even when the panel lists only five. */
  lemma ExpiringCountIsComplete(assets: seq<Record>, warranties: seq<Record>)
    requires |warranties| > PanelSize
    ensures var v := Load(Some(assets), Some(warranties));
      v.stats.expiringWarranties > |v.expiring|
  {
  }

  /** With the list in its default newest-first order, the recent panel holds the newest assets. */
  lemma RecentAreNewest(assets: seq<Asset>)
    ensures var ordered := Ordering.AssetOrder(assets);
      forall i, j | 0 <= i < |Take(ordered, PanelSize)| <= j < |ordered| ::
        Take(ordered, PanelSize)[i].createdAt >= ordered[j].createdAt
  {
    var ordered := Ordering.AssetOrder(assets);
    Ordering.TakeIsLargest(ordered, Ordering.AssetCreated, PanelSize);
    forall i, j | 0 <= i < |Take(ordered, PanelSize)| <= j < |ordered|
      ensures Take(ordered, PanelSize)[i].createdAt >= ordered[j].createdAt
    {
      assert Ordering.AssetCreated(Take(ordered, PanelSize)[i]) >= Ordering.AssetCreated(ordered[j]);
    }
  }

  /** `getExpiringSoon(30)` asks the server for exactly its default window. */
  lemma ThirtyIsTheDefault(warranties: seq<Warranty>, today: int)
    ensures Views.ExpiringSoon(warranties, map["days" := "30"], today) == Views.ExpiringSoon(warranties, map[], today)
  {
    var params := map["days" := "30"];
    assert "days" in params && params["days"] == "30";
    ReadsThirty();
    DefaultWhenParsed(warranties, params, today);
  }

  /** Python's `int` reads "30" as the default horizon. */
  lemma ReadsThirty()
    ensures Views.PyInt("30") == Some(Views.DefaultDays)
  {
    var thirty := "30";
    assert AllDigits(thirty);
    Views.PyIntDigits(thirty);
    assert DigitsValue(thirty) == 30 by {
      assert thirty[..1] == "3";
    }
  }

  /** A `days` parameter that reads as the default horizon gives the default answer. */
  lemma DefaultWhenParsed(warranties: seq<Warranty>, params: Views.Params, today: int)
    requires "days" in params && Views.PyInt(params["days"]) == Some(Views.DefaultDays)
    ensures Views.ExpiringSoon(warranties, params, today) == Views.ExpiringSoon(warranties, map[], today)
  {
  }


}
