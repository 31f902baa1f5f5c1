/**
 * The assets page: which request the Search, Filter and Clear buttons send,
 * the client-side location and vendor filters applied to the answer, the
 * select boxes' "all" entry and the status badge.
 */
module AssetsPage {
  import opened Wrappers
  import opened Strings
  import opened JsValues
  import opened Lists
  import opened Models
  import Views
  import Serializers
  import Seed
  import QueryString

  /** The four filter values; an empty string means no filter. */
  datatype Filters = Filters(category: string, location: string, vendor: string, status: string)

  const Cleared := Filters("", "", "", "")

  /** The asset endpoints the page calls. */
  datatype Request = AllAssets | SearchAssets(q: string) | AssetsByStatus(statusId: string) | AssetsByCategory(categoryId: string)

  /** `handleSearch`: a blank query fetches every asset, any other is put into the URL as typed, unencoded. */
  function SearchRequest(query: string): (r: Request)
    ensures r == AllAssets <==> Trim(query) == ""
    ensures r != AllAssets ==> r == SearchAssets(query)
  {
    if Trim(query) == "" then AllAssets else SearchAssets(query)
  }

  /** `handleFilter`'s request: a status filter wins over a category filter. */
  function FilterRequest(f: Filters): (r: Request)
    ensures f.status != "" ==> r == AssetsByStatus(f.status)
    ensures f.status == "" && f.category != "" ==> r == AssetsByCategory(f.category)
    ensures f.status == "" && f.category == "" ==> r == AllAssets
  {
    if f.status != "" then AssetsByStatus(f.status)
    else if f.category != "" then AssetsByCategory(f.category)
    else AllAssets
  }

  /** With a status chosen, the category filter is ignored. */
  lemma StatusBeatsCategory(f: Filters, category: string)
    requires f.status != ""
    ensures FilterRequest(f.(category := category)) == FilterRequest(f)
  {
  }

  /**
   * The server's answer to each request, the asset table being in its
   * default order. A search's text reaches the view as the URL and the
   * query-string parsing leave it.
   */
  function Serve(req: Request, assets: seq<Asset>): (r: Views.Response<Asset>)
    ensures req == AllAssets ==> r == Views.Rows(assets)
  {
    match req
    case AllAssets => Views.Rows(assets)
    case SearchAssets(q) => Views.Rows(Views.Search(assets, map["q" := QueryString.ReceivedQ(q)]))
    case AssetsByStatus(id) => Views.ByStatus(assets, map["status_id" := id])
    case AssetsByCategory(id) => Views.ByCategory(assets, map["category_id" := id])
  }

  /**
   * What a search shows: everything for a blank query; otherwise the assets
   * some field of which contains the text the view receives, and everything
   * again when that text is empty.
   */
  lemma SearchShows(assets: seq<Asset>, query: string)
    ensures Serve(SearchRequest(query), assets).Rows?
    ensures Trim(query) == "" ==> Serve(SearchRequest(query), assets).rows == assets
    ensures Trim(query) != "" && QueryString.ReceivedQ(query) == "" ==> Serve(SearchRequest(query), assets).rows == assets
    ensures Trim(query) != "" && QueryString.ReceivedQ(query) != "" ==> forall a ::
      a in Serve(SearchRequest(query), assets).rows <==> a in assets && Views.MatchesQuery(a, QueryString.ReceivedQ(query))
  {
    if Trim(query) != "" {
      var q := QueryString.ReceivedQ(query);
      assert Views.Param(map["q" := q], "q", "") == q;
    }
  }

  /** A query free of '#', '&', '+', '%', tabs and line breaks, and not ending in a space or control, is searched as typed. */
  lemma PlainSearchShows(assets: seq<Asset>, query: string)
    requires Trim(query) != "" && QueryString.Plain(query)
    ensures forall a ::
      a in Serve(SearchRequest(query), assets).rows <==> a in assets && Views.MatchesQuery(a, query)
  {
    QueryString.PlainArrives(query);
    SearchShows(assets, query);
    assert query != "";
  }

  /** Searching "#1" shows every asset, as a blank search does. */
  lemma HashSearchShowsAll(assets: seq<Asset>)
    ensures Serve(SearchRequest("#1"), assets).rows == assets
  {
    QueryString.HashExample();
    assert Trim("#1") != "" by {
      TrimUnchanged("#1");
    }
    SearchShows(assets, "#1");
  }

  /** Filtering by the numeral of a status id shows exactly the assets with that status. */
  lemma StatusFilterShows(assets: seq<Asset>, f: Filters, id: nat)
    requires f.status == NatToString(id)
    ensures Serve(FilterRequest(f), assets).Rows?
    ensures forall a | a in Serve(FilterRequest(f), assets).rows :: a in assets && a.status == id
    ensures forall a | a in assets && a.status == id :: a in Serve(FilterRequest(f), assets).rows
  {
    assert Serve(FilterRequest(f), assets) == Views.ByStatus(assets, map["status_id" := NatToString(id)]);
    Views.ByStatusRoundTrip(assets, id);
  }

  /** `asset.location === parseInt(filters.location)` and the same for the vendor, each only when set. */
  predicate PassesIds(row: Record, f: Filters) {
    && (f.location != "" ==> EqualsParsedInt(Get(row, "location"), f.location))
    && (f.vendor != "" ==> EqualsParsedInt(Get(row, "vendor"), f.vendor))
  }

  function IdFilter(f: Filters): Record -> bool {
    row => PassesIds(row, f)
  }

  /** The client-side location and vendor filters of `handleFilter`, keeping the server's order. */
  function PostFilter(rows: seq<Record>, f: Filters): (r: seq<Record>)
    ensures forall row :: row in r <==> row in rows && PassesIds(row, f)
    ensures forall row :: multiset(r)[row] == if PassesIds(row, f) then multiset(rows)[row] else 0
  {
    var r := Keep(rows, IdFilter(f));
    KeepMultiplicity(rows, IdFilter(f));
    assert forall row | row in r :: PassesIds(row, f) by {
      forall row | row in r ensures PassesIds(row, f) { assert IdFilter(f)(row); }
    }
    assert forall row | row in rows && PassesIds(row, f) :: row in r by {
      forall row | row in rows && PassesIds(row, f) ensures row in r { assert IdFilter(f)(row); }
    }
    r
  }

  /** The server's order is kept: filtering a concatenation filters each part in turn. */
  lemma PostFilterOrder(a: seq<Record>, b: seq<Record>, f: Filters)
    ensures PostFilter(a + b, f) == PostFilter(a, f) + PostFilter(b, f)
  {
    KeepAppend(a, b, IdFilter(f));
  }

  /** Without a location or vendor filter the answer is shown as it came. */
  lemma NoIdFilterKeepsAll(rows: seq<Record>, f: Filters)
    requires f.location == "" && f.vendor == ""
    ensures PostFilter(rows, f) == rows
  {
    assert forall row | row in rows :: IdFilter(f)(row);
    KeepAll(rows, IdFilter(f));
  }

  /**
   * List rows carry `location_name` but no `location` id, so a location
   * filter rejects every one of them.
   */
  lemma LocationFilterEmptiesListRows(assets: seq<Record>, f: Filters)
    requires f.location != ""
    ensures PostFilter(seq(|assets|, i requires 0 <= i < |assets| => Serializers.ListRow(assets[i])), f) == []
  {
    var rows := seq(|assets|, i requires 0 <= i < |assets| => Serializers.ListRow(assets[i]));
    forall row | row in rows
      ensures !IdFilter(f)(row)
    {
      var i :| 0 <= i < |rows| && rows[i] == row;
      Serializers.ListRowHidesFiles(assets[i]);
      assert "location" !in row;
    }
    KeepNone(rows, IdFilter(f));
  }

  /** `handleFilter`: an answer replaces the list after the client-side filters; a failed request leaves the list as it was. */
  function HandleFilter(current: seq<Record>, answer: Views.Response<Record>, f: Filters): (r: seq<Record>)
    ensures answer.Rows? ==> forall row :: row in r <==> row in answer.rows && PassesIds(row, f)
    ensures answer.Rows? ==> r == PostFilter(answer.rows, f)
    ensures !answer.Rows? ==> r == current
  {
    match answer
    case Rows(rows) => PostFilter(rows, f)
    case _ => current
  }

  /** `clearFilters`: every filter and the query emptied, then the full list fetched. */
  function ClearFilters(): (r: (Filters, string, Request))
    ensures r.2 == FilterRequest(r.0)
    ensures r.2 == SearchRequest(r.1)
  {
    TrimEmptyIffAllSpace("");
    assert FilterRequest(Cleared) == AllAssets;
    (Cleared, "", AllAssets)
  }

  /** Clearing empties all four filters and the query. */
  lemma ClearFiltersClears()
    ensures ClearFilters().0 == Cleared && ClearFilters().1 == ""
    ensures ClearFilters().2 == AllAssets
  {
  }

  /** After clearing, filtering again shows the full answer unchanged. */
  lemma ClearedShowsAll(rows: seq<Record>)
    ensures FilterRequest(Cleared) == AllAssets
    ensures HandleFilter([], Views.Rows(rows), Cleared) == rows
  {
    NoIdFilterKeepsAll(rows, Cleared);
  }

  /** A select's `onValueChange`: the "all" entry clears the filter. */
  function Selected(value: string): (r: string)
    ensures r == "" <==> value == "all" || value == ""
  {
    if value == "all" then "" else value
  }

  /** A select's `value={filter || "all"}`. */
  function Shown(filter: string): (r: string)
    ensures r != ""
  {
    if filter == "" then "all" else filter
  }

  /** Choosing an entry and reading the select back gives the entry again. */
  lemma SelectRoundTrip(value: string, filter: string)
    ensures value != "" ==> Shown(Selected(value)) == value
    ensures filter != "all" ==> Selected(Shown(filter)) == filter
  {
  }

  datatype Variant = Default | Secondary | Outline | Destructive | Unstyled

  /**
   * `getStatusBadge`: `statusVariants[status] || 'outline'`. A status the
   * table answers from `Object.prototype` gets a truthy function or object,
   * which names no variant, so the badge is left unstyled.
   */
  function StatusVariant(status: string): (v: Variant)
    ensures v == Default <==> status == "Active"
    ensures v == Secondary <==> status == "Under Repair"
    ensures v == Destructive <==> status == "Scrapped"
    ensures v == Unstyled <==> FromPrototype(status)
    ensures v == Outline <==> status != "Active" && status != "Under Repair" && status != "Scrapped" && !FromPrototype(status)
  {
    if status == "Active" then Default
    else if status == "Under Repair" then Secondary
    else if status == "Retired" then Outline
    else if status == "Scrapped" then Destructive
    else if FromPrototype(status) then Unstyled
    else Outline
  }

  /** No seeded status gets the destructive badge: "Scrapped" is not among them. */
  lemma SeededStatusesNeverDestructive()
    ensures forall i | 0 <= i < |Seed.StatusNames| :: StatusVariant(Seed.StatusNames[i]) != Destructive
  {
  }
}
