/**
 * The REST endpoints' own logic: the asset search, the by-id filters that
 * answer 400 without their parameter, the warranty expiry window, active
 * vendors and the choice of serializer per action. Query parameters are a
 * map from name to text; the rows come in the table's default order and
 * every filter keeps that order.
 */
module Views {
  import opened Wrappers
  import opened Strings
  import opened Lists
  import opened Models
  import Ordering

  type Params = map<string, string>

  /** An endpoint's answer: rows, a 400 with an error message, or a 500 from an uncaught conversion error. */
  datatype Response<T> = Rows(rows: seq<T>) | BadRequest(error: string) | ServerError

  /** `request.query_params.get(name, default)` */
  function Param(params: Params, name: string, default: string): string {
    if name in params then params[name] else default
  }

  /**
   * The white space Python's `int()` skips around a numeral: the characters
   * `str.isspace` accepts, which include the separators U+001C to U+001F and
   * U+0085 but not the byte order mark U+FEFF.
   */
  predicate PySpace(c: char) {
    || ('\t' <= c <= '\r') || ('\U{001C}' <= c <= ' ') || c == '\U{0085}' || c == '\U{00A0}' || c == '\U{1680}'
    || ('\U{2000}' <= c <= '\U{200A}') || c == '\U{2028}' || c == '\U{2029}' || c == '\U{202F}'
    || c == '\U{205F}' || c == '\U{3000}'
  }

  /** Python and JavaScript disagree on what white space is: each skips a character the other keeps. */
  lemma SpacesDiffer()
    ensures IsSpace('\U{FEFF}') && !PySpace('\U{FEFF}')
    ensures PySpace('\U{0085}') && !IsSpace('\U{0085}')
    ensures PySpace('\U{001F}') && !IsSpace('\U{001F}')
    ensures forall c | '0' <= c <= '9' :: !PySpace(c) && !IsSpace(c)
  {
  }

  /** Python's `int(text)` on a decimal numeral: surrounding white space and one sign allowed. */
  function PyInt(s: string): (r: Option<int>)
    ensures r.Some? ==> Strip(s, PySpace) != ""
  {
    SignedNumeral(Strip(s, PySpace))
  }

  /** An optional sign followed by at least one decimal digit, and nothing else. */
  function SignedNumeral(t: string): (r: Option<int>)
    ensures r.Some? ==> t != ""
  {
    if |t| > 0 && (t[0] == '-' || t[0] == '+') then
      var digits := t[1..];
      if |digits| > 0 && AllDigits(digits) then
        Some(if t[0] == '-' then -(DigitsValue(digits) as int) else DigitsValue(digits) as int)
      else None
    else if |t| > 0 && AllDigits(t) then Some(DigitsValue(t) as int)
    else None
  }

  /** A plain run of digits reads as its value. */
  lemma PyIntDigits(s: string)
    requires |s| > 0 && AllDigits(s)
    ensures PyInt(s) == Some(DigitsValue(s) as int)
  {
    DigitNotSpace(s[0]);
    DigitNotSpace(s[|s| - 1]);
    StripUnchanged(s, PySpace);
  }

  lemma DigitNotSpace(c: char)
    requires IsDigit(c)
    ensures !PySpace(c)
  {
  }

  /** A minus sign before a run of digits negates its value. */
  lemma PyIntNegative(digits: string)
    requires |digits| > 0 && AllDigits(digits)
    ensures PyInt("-" + digits) == Some(-(DigitsValue(digits) as int))
  {
    var s := "-" + digits;
    NegativeUnstripped(digits);
    assert s[1..] == digits;
  }

  lemma NegativeUnstripped(digits: string)
    requires |digits| > 0 && AllDigits(digits)
    ensures Strip("-" + digits, PySpace) == "-" + digits
  {
    var s := "-" + digits;
    assert s[0] == '-' && !PySpace('-');
    assert s[|s| - 1] == digits[|digits| - 1];
    DigitNotSpace(digits[|digits| - 1]);
    StripUnchanged(s, PySpace);
  }

  /** Python reads back the numeral of every natural number. */
  lemma PyIntNatToString(n: nat)
    ensures PyInt(NatToString(n)) == Some(n)
  {
    PyIntDigits(NatToString(n));
  }

  // ------------------------------------------------------------------ search

  /** `field__icontains=q` on a nullable column: SQL NULL never matches. */
  predicate NullableContains(field: Option<string>, q: string) {
    field.Some? && ContainsIgnoreCase(field.value, q)
  }

  /** The five-way OR of `AssetViewSet.search`. */
  predicate MatchesQuery(a: Asset, q: string) {
    || ContainsIgnoreCase(a.name, q) || ContainsIgnoreCase(a.code, q)
    || NullableContains(a.serial, q) || NullableContains(a.modelNumber, q) || NullableContains(a.brand, q)
  }

  function Matcher(q: string): Asset -> bool {
    a => MatchesQuery(a, q)
  }

  /** `search`: every asset for an empty or missing `q`, else the assets some field of which contains it. */
  function Search(assets: seq<Asset>, params: Params): (r: seq<Asset>)
    ensures Param(params, "q", "") == "" ==> r == assets
    ensures Param(params, "q", "") != "" ==>
      forall a :: a in r <==> a in assets && MatchesQuery(a, Param(params, "q", ""))
    ensures Param(params, "q", "") != "" ==>
      forall a :: multiset(r)[a] == if MatchesQuery(a, Param(params, "q", "")) then multiset(assets)[a] else 0
  {
    var q := Param(params, "q", "");
    if q != "" then
      var r := Keep(assets, Matcher(q));
      KeepMultiplicity(assets, Matcher(q));
      assert forall a | a in r :: MatchesQuery(a, q) by {
        forall a | a in r ensures MatchesQuery(a, q) { assert Matcher(q)(a); }
      }
      assert forall a | a in assets && MatchesQuery(a, q) :: a in r by {
        forall a | a in assets && MatchesQuery(a, q) ensures a in r { assert Matcher(q)(a); }
      }
      r
    else assets
  }

  /** The answer keeps the table's order: searching a concatenation searches each part in turn. */
  lemma SearchOrder(a: seq<Asset>, b: seq<Asset>, params: Params)
    ensures Search(a + b, params) == Search(a, params) + Search(b, params)
  {
    var q := Param(params, "q", "");
    if q != "" {
      KeepAppend(a, b, Matcher(q));
    }
  }

  /** Case does not matter: searching for `q` and for its lower-case form finds the same assets. */
  lemma SearchIgnoresCase(assets: seq<Asset>, q: string)
    requires q != ""
    ensures Search(assets, map["q" := q]) == Search(assets, map["q" := ToLower(q)])
  {
    ToLowerIdempotent(q);
    assert ToLower(q) != "";
    forall a | a in assets
      ensures Matcher(q)(a) == Matcher(ToLower(q))(a)
    {
    }
    KeepAgree(assets, Matcher(q), Matcher(ToLower(q)));
  }

  /** An asset without serial, model number or brand is found only through its name or code. */
  lemma NullFieldsNeverMatch(a: Asset, q: string)
    requires a.serial.None? && a.modelNumber.None? && a.brand.None?
    ensures MatchesQuery(a, q) <==> ContainsIgnoreCase(a.name, q) || ContainsIgnoreCase(a.code, q)
  {
  }

  // ---------------------------------------------------------- by-id filters

  function HasRef<T>(fk: T -> int, id: int): T -> bool {
    x => fk(x) == id
  }

  /**
   * `by_status`, `by_category`, `by_asset`: a missing or empty `<name>_id`
   * answers 400; otherwise the rows whose key equals the number given.
   */
  function ByRef<T>(rows: seq<T>, params: Params, name: string, fk: T -> int): (r: Response<T>)
    ensures r.BadRequest? <==> Param(params, name + "_id", "") == ""
    ensures r.BadRequest? ==> r.error == name + "_id parameter required"
    ensures r.ServerError? <==> Param(params, name + "_id", "") != "" && PyInt(Param(params, name + "_id", "")).None?
    ensures r.Rows? ==> forall x | x in r.rows :: x in rows && fk(x) == PyInt(Param(params, name + "_id", "")).value
    ensures r.Rows? ==> forall x | x in rows && fk(x) == PyInt(Param(params, name + "_id", "")).value :: x in r.rows
    ensures r.Rows? ==> forall x | x in rows ::
      multiset(r.rows)[x] == if fk(x) == PyInt(Param(params, name + "_id", "")).value then multiset(rows)[x] else 0
  {
    var text := Param(params, name + "_id", "");
    if text == "" then BadRequest(name + "_id parameter required")
    else
      match PyInt(text)
      case None => ServerError
      case Some(id) =>
        var kept := Keep(rows, HasRef(fk, id));
        KeepMultiplicity(rows, HasRef(fk, id));
        assert forall x | x in kept :: fk(x) == id by {
          forall x | x in kept ensures fk(x) == id { assert HasRef(fk, id)(x); }
        }
        assert forall x | x in rows && fk(x) == id :: x in kept by {
          forall x | x in rows && fk(x) == id ensures x in kept { assert HasRef(fk, id)(x); }
        }
        Rows(kept)
  }

  /** The answer keeps the table's order: filtering a concatenation filters each part in turn. */
  lemma ByRefOrder<T>(a: seq<T>, b: seq<T>, params: Params, name: string, fk: T -> int)
    ensures var ra := ByRef(a, params, name, fk);
      ByRef(a + b, params, name, fk) == if ra.Rows? then Rows(ra.rows + ByRef(b, params, name, fk).rows) else ra
  {
    var text := Param(params, name + "_id", "");
    if text != "" && PyInt(text).Some? {
      KeepAppend(a, b, HasRef(fk, PyInt(text).value));
    }
  }

  /** `AssetViewSet.by_status` */
  function ByStatus(assets: seq<Asset>, params: Params): Response<Asset> {
    ByRef(assets, params, "status", AssetStatus)
  }

  /** `AssetViewSet.by_category` */
  function ByCategory(assets: seq<Asset>, params: Params): Response<Asset> {
    ByRef(assets, params, "category", AssetCategory)
  }

  /** `MaintenanceViewSet.by_asset` */
  function ByAsset(records: seq<Maintenance>, params: Params): Response<Maintenance> {
    ByRef(records, params, "asset", MaintenanceAsset)
  }

  /**
   * `AssetViewSet.by_department`: the asset table has no department column,
   * so any non-empty id makes the query raise instead of returning rows.
   */
  function ByDepartment(params: Params): (r: Response<Asset>)
    ensures r.BadRequest? <==> Param(params, "department_id", "") == ""
    ensures r.BadRequest? ==> r.error == "department_id parameter required"
    ensures !r.Rows?
  {
    if Param(params, "department_id", "") == "" then BadRequest("department_id parameter required")
    else ServerError
  }

  /** Asking by the numeral of an id returns exactly the rows with that id; without it the answer names the parameter. */
  lemma ByStatusRoundTrip(assets: seq<Asset>, id: nat)
    ensures ByStatus(assets, map["status_id" := NatToString(id)]).Rows?
    ensures forall a | a in ByStatus(assets, map["status_id" := NatToString(id)]).rows :: a in assets && a.status == id
    ensures forall a | a in assets && a.status == id :: a in ByStatus(assets, map["status_id" := NatToString(id)]).rows
  {
    assert "status" + "_id" == "status_id";
    PyIntNatToString(id);
  }

  /** Without its parameter the filter answers 400 and names the parameter. */
  lemma ByStatusMissing(assets: seq<Asset>)
    ensures ByStatus(assets, map[]) == BadRequest("status_id parameter required")
  {
    var r := ByStatus(assets, map[]);
    assert Param(map[], "status" + "_id", "") == "";
    assert r.BadRequest? && r.error == "status" + "_id parameter required";
    assert "status" + "_id parameter required" == "status_id parameter required";
  }

  // ------------------------------------------------------------ warranties

  const DefaultDays := 30

  predicate InWindow(w: Warranty, today: int, days: int) {
    today <= w.endDate <= today + days
  }

  function Window(today: int, days: int): Warranty -> bool {
    w => InWindow(w, today, days)
  }

  /** Python's `date.min` (0001-01-01) and `date.max` (9999-12-31) as day numbers counted from 1970-01-01. */
  const MinDay := -719162
  const MaxDay := 2932896

  /** The largest number of days a `timedelta` holds. */
  const MaxDeltaDays := 999999999

  predicate DateInRange(day: int) {
    MinDay <= day <= MaxDay
  }

  /** `date.today() + timedelta(days=d)` succeeds: the delta fits a `timedelta` and the sum a `date`; otherwise `OverflowError`. */
  predicate HorizonOk(today: int, d: int) {
    -MaxDeltaDays <= d <= MaxDeltaDays && DateInRange(today + d)
  }

  /** `int(request.query_params.get('days', 30))` */
  function Horizon(params: Params): Option<int> {
    if "days" in params then PyInt(params["days"]) else Some(DefaultDays)
  }

  /**
   * `expiring_soon`: the warranties ending between today and `days` days
   * ahead, both ends included; a `days` that is not a numeral, or whose
   * horizon leaves the calendar, ends in an uncaught error.
   */
  function ExpiringSoon(warranties: seq<Warranty>, params: Params, today: int): (r: Response<Warranty>)
    ensures !r.BadRequest?
    ensures "days" !in params ==> (r.Rows? <==> DateInRange(today + DefaultDays))
    ensures "days" in params ==>
      (r.ServerError? <==> PyInt(params["days"]).None? || !HorizonOk(today, PyInt(params["days"]).value))
    ensures r.Rows? ==> Horizon(params).Some?
    ensures r.Rows? ==> forall w :: w in r.rows <==> w in warranties && InWindow(w, today, Horizon(params).value)
    ensures r.Rows? ==> forall w ::
      multiset(r.rows)[w] == if InWindow(w, today, Horizon(params).value) then multiset(warranties)[w] else 0
  {
    match Horizon(params)
    case None => ServerError
    case Some(d) =>
      if !HorizonOk(today, d) then ServerError
      else
        var kept := Keep(warranties, Window(today, d));
        KeepMultiplicity(warranties, Window(today, d));
        assert forall w | w in kept :: InWindow(w, today, d) by {
          forall w | w in kept ensures InWindow(w, today, d) { assert Window(today, d)(w); }
        }
        assert forall w | w in warranties && InWindow(w, today, d) :: w in kept by {
          forall w | w in warranties && InWindow(w, today, d) ensures w in kept { assert Window(today, d)(w); }
        }
        Rows(kept)
  }

  /** The answer keeps the table's order: a concatenation's answer is the parts' answers in turn. */
  lemma ExpiringSoonOrder(a: seq<Warranty>, b: seq<Warranty>, params: Params, today: int)
    ensures var ra := ExpiringSoon(a, params, today);
      ExpiringSoon(a + b, params, today) == if ra.Rows? then Rows(ra.rows + ExpiringSoon(b, params, today).rows) else ra
  {
    var d := Horizon(params);
    if d.Some? && HorizonOk(today, d.value) {
      KeepAppend(a, b, Window(today, d.value));
    }
  }

  /**
   * Read in the table's default order (`-end_date`), the answer lists the
   * warranties ending latest first, so a prefix of it holds the latest ones.
   */
  lemma ExpiringLatestFirst(table: seq<Warranty>, params: Params, today: int)
    ensures var r := ExpiringSoon(Ordering.WarrantyOrder(table), params, today);
      r.Rows? ==> Ordering.SortedDesc(r.rows, Ordering.WarrantyEnd)
  {
    var d := Horizon(params);
    if d.Some? && HorizonOk(today, d.value) {
      Ordering.KeepSorted(Ordering.WarrantyOrder(table), Window(today, d.value), Ordering.WarrantyEnd);
    }
  }

  /**
   * A negative horizon selects nothing, since no date lies between today and
   * a day before it, unless the horizon reaches past the calendar's start.
   */
  lemma NegativeDaysEmpty(warranties: seq<Warranty>, today: int, n: nat)
    requires n > 0
    ensures ExpiringSoon(warranties, map["days" := "-" + NatToString(n)], today) ==
      if n <= MaxDeltaDays && DateInRange(today - n) then Rows([]) else ServerError
  {
    PyIntNegative(NatToString(n));
    var params := map["days" := "-" + NatToString(n)];
    assert Horizon(params) == Some(-(n as int));
    KeepNone(warranties, Window(today, -(n as int)));
  }

  /** A horizon past 9999-12-31 is an error whatever the warranties, even though every date would lie inside it. */
  lemma FarHorizonFails(warranties: seq<Warranty>, today: int, n: nat)
    requires today + n > MaxDay
    ensures ExpiringSoon(warranties, map["days" := NatToString(n)], today) == ServerError
  {
    PyIntNatToString(n);
    var params := map["days" := NatToString(n)];
    assert Horizon(params) == Some(n);
  }

  // ---------------------------------------------------------------- vendors

  function IsActive(v: Vendor): bool { v.isActive }

  /** `VendorViewSet.active`: the active vendors, in order. */
  function ActiveVendors(vendors: seq<Vendor>): (r: seq<Vendor>)
    ensures forall v :: v in r <==> v in vendors && v.isActive
  {
    Keep(vendors, IsActive)
  }

  /** Filtering by activity keeps the default order: it distributes over any split of the list. */
  lemma ActiveVendorsOrder(a: seq<Vendor>, b: seq<Vendor>)
    ensures ActiveVendors(a + b) == ActiveVendors(a) + ActiveVendors(b)
  {
    KeepAppend(a, b, IsActive);
  }

  // ------------------------------------------------------------- serializer

  datatype AssetSerializerChoice = ListSerializer | FullSerializer

  /** `get_serializer_class`: the list action gets the list serializer, every other action the full one. */
  function SerializerFor(action: string): (r: AssetSerializerChoice)
    ensures r == ListSerializer <==> action == "list"
  {
    if action == "list" then ListSerializer else FullSerializer
  }
}
