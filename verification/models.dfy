/**
 * The back end's tables as immutable rows: ids are integers, dates are day
 * numbers, decimals are exact reals and nullable columns are options. A
 * database is one sequence of rows per table, and `Valid` collects the
 * constraints the schema declares: primary and unique keys, foreign keys,
 * decimal bounds, length limits and choice sets.
 */
module Models {
  import opened Wrappers
  import opened JsValues
  import opened Lists

  datatype Category = Category(id: int, name: string)
  datatype Status = Status(id: int, name: string)
  datatype Location = Location(id: int, name: string, address: string, country: Option<string>)
  datatype Vendor = Vendor(id: int, name: string, isActive: bool)
  datatype Asset = Asset(
    id: int, code: string, name: string,
    category: int, location: int, vendor: int, status: int,
    purchaseDate: int, cost: real, endOfLife: Option<int>,
    serial: Option<string>, modelNumber: Option<string>, brand: Option<string>,
    createdAt: int)
  datatype Invoice = Invoice(id: int, number: string, vendor: int, invoiceDate: int, totalAmount: real, currency: string)
  datatype Mapping = Mapping(id: int, asset: int, invoice: int)
  datatype Warranty = Warranty(id: int, asset: int, startDate: int, endDate: int)
  datatype Method = Method(id: int, name: string)
  datatype Depreciation = Depreciation(id: int, asset: int, methodId: int, rate: real, bookValue: real, calculatedOn: int)
  datatype Maintenance = Maintenance(id: int, asset: int, maintenanceType: string, performedOn: int, cost: real)
  datatype EndOfLife = EndOfLife(id: int, asset: int, eolDate: int, disposalMethod: string, finalValue: real)

  datatype Db = Db(
    categories: seq<Category>, statuses: seq<Status>, locations: seq<Location>, vendors: seq<Vendor>,
    assets: seq<Asset>, invoices: seq<Invoice>, mappings: seq<Mapping>, warranties: seq<Warranty>,
    methods: seq<Method>, depreciations: seq<Depreciation>, maintenances: seq<Maintenance>, eols: seq<EndOfLife>)

  // ---------------------------------------------------------------- decimals

  /** `x` has at most `places` digits after the point. */
  predicate HasPlaces(x: real, places: nat) {
    (x * Pow10(places) as real).Floor as real == x * Pow10(places) as real
  }

  /** A `DecimalField(max_digits, decimal_places)` value: at most `places` decimals and `maxDigits` digits in all. */
  predicate FitsDecimal(x: real, maxDigits: nat, places: nat) {
    HasPlaces(x, places) && -(Pow10(maxDigits) as real) < x * Pow10(places) as real < Pow10(maxDigits) as real
  }

  /** `Asset.cost` and `Invoice.total_amount`: 12 digits, 2 decimals, at least 0.01. */
  predicate AmountOk(x: real) {
    FitsDecimal(x, 12, 2) && x >= 0.01
  }

  /** `Depreciation.book_value`: 12 digits, 2 decimals, at least 0.00. */
  predicate BookValueOk(x: real) {
    FitsDecimal(x, 12, 2) && x >= 0.0
  }

  /** `Maintenance.cost` and `EndOfLife.final_value`: 10 digits, 2 decimals, at least 0.00. */
  predicate SmallAmountOk(x: real) {
    FitsDecimal(x, 10, 2) && x >= 0.0
  }

  /** `Depreciation.rate`: 5 digits, 2 decimals, and no range validator. */
  predicate RateOk(x: real) {
    FitsDecimal(x, 5, 2)
  }

  /** A cost of zero is rejected, one cent is the least accepted, and sub-cent or 13-digit values do not fit. */
  lemma AmountBounds()
    ensures !AmountOk(0.0) && AmountOk(0.01) && !AmountOk(0.005)
    ensures AmountOk(9999999999.99) && !AmountOk(10000000000.00)
  {
    assert Pow10(2) == 100;
    Pow10Twelve();
  }

  /** Book values, maintenance costs and final values may be zero; a negative amount is rejected. */
  lemma ZeroAllowed()
    ensures BookValueOk(0.0) && SmallAmountOk(0.0)
    ensures !BookValueOk(-0.01) && !SmallAmountOk(-0.01)
  {
  }

  /** A rate may be negative or above 100: only its digits are limited (at most 999.99 in size). */
  lemma RateUnbounded()
    ensures RateOk(-5.0) && RateOk(150.0) && RateOk(999.99) && !RateOk(1000.0)
  {
    assert Pow10(2) == 100;
    assert Pow10(5) == 100000;
  }

  /** With two decimals, fitting `maxDigits` digits is the closed range of plus or minus `10^maxDigits - 1` hundredths. */
  lemma FitsTwoPlaces(x: real, maxDigits: nat)
    ensures FitsDecimal(x, maxDigits, 2) <==>
      HasPlaces(x, 2) && -((Pow10(maxDigits) - 1) as real) / 100.0 <= x <= ((Pow10(maxDigits) - 1) as real) / 100.0
  {
    assert Pow10(2) == 100;
    var p := Pow10(maxDigits);
    if HasPlaces(x, 2) {
      var k := (x * 100.0).Floor;
      assert k as real == x * 100.0;
      assert x * 100.0 < p as real <==> k <= p - 1;
      assert -(p as real) < x * 100.0 <==> -(p - 1) <= k;
    }
  }

  lemma Pow10Twelve()
    ensures Pow10(12) == 1000000000000
  {
    assert Pow10(4) == 10000;
    assert Pow10(8) == 100000000 by { Pow10Add(4, 4); }
    Pow10Add(8, 4);
  }

  /** Every accepted cost or invoice total is a whole number of cents from 0.01 to 9999999999.99, and each such value is accepted. */
  lemma AmountRange(x: real)
    ensures AmountOk(x) <==> HasPlaces(x, 2) && 0.01 <= x <= 9999999999.99
  {
    FitsTwoPlaces(x, 12);
    Pow10Twelve();
  }

  /** Every accepted book value is a whole number of cents from 0.00 to 9999999999.99, and each such value is accepted. */
  lemma BookValueRange(x: real)
    ensures BookValueOk(x) <==> HasPlaces(x, 2) && 0.0 <= x <= 9999999999.99
  {
    FitsTwoPlaces(x, 12);
    Pow10Twelve();
  }

  /** Every accepted maintenance cost or final value is a whole number of cents from 0.00 to 99999999.99, and each such value is accepted. */
  lemma SmallAmountRange(x: real)
    ensures SmallAmountOk(x) <==> HasPlaces(x, 2) && 0.0 <= x <= 99999999.99
  {
    FitsTwoPlaces(x, 10);
    assert Pow10(10) == 10000000000 by {
      assert Pow10(5) == 100000;
      Pow10Add(5, 5);
    }
  }

  /** Every accepted rate, negative ones included, is a whole number of hundredths from -999.99 to 999.99, and each such value is accepted. */
  lemma RateRange(x: real)
    ensures RateOk(x) <==> HasPlaces(x, 2) && -999.99 <= x <= 999.99
  {
    FitsTwoPlaces(x, 5);
    assert Pow10(5) == 100000;
  }

  lemma {:induction false} Pow10Add(a: nat, b: nat)
    ensures Pow10(a + b) == Pow10(a) * Pow10(b)
    decreases a
  {
    if a > 0 {
      Pow10Add(a - 1, b);
    }
  }

  // ----------------------------------------------------------------- choices

  /** `Maintenance.MAINTENANCE_TYPES` */
  const MaintenanceTypes: seq<string> := ["preventive", "corrective", "emergency", "upgrade"]

  /** `EndOfLife.DISPOSAL_METHODS` */
  const DisposalMethods: seq<string> := ["resold", "scrapped", "recycled", "donated", "returned"]

  // ------------------------------------------------------------- row checks

  /** A nullable `CharField(max_length=n)`: null, or at most `n` characters. */
  predicate FitsOptional(s: Option<string>, n: nat) {
    s.None? || |s.value| <= n
  }

  predicate AssetOk(a: Asset) {
    && |a.code| <= 50 && |a.name| <= 200 && AmountOk(a.cost)
    && FitsOptional(a.serial, 100) && FitsOptional(a.modelNumber, 100) && FitsOptional(a.brand, 100)
  }

  predicate InvoiceOk(i: Invoice) {
    |i.number| <= 100 && AmountOk(i.totalAmount) && |i.currency| <= 3
  }

  predicate DepreciationOk(d: Depreciation) {
    RateOk(d.rate) && BookValueOk(d.bookValue)
  }

  predicate MaintenanceOk(m: Maintenance) {
    m.maintenanceType in MaintenanceTypes && SmallAmountOk(m.cost)
  }

  predicate EndOfLifeOk(e: EndOfLife) {
    e.disposalMethod in DisposalMethods && SmallAmountOk(e.finalValue)
  }

  predicate CategoryOk(c: Category) { |c.name| <= 100 }
  predicate StatusOk(s: Status) { |s.name| <= 50 }
  predicate LocationOk(l: Location) { |l.name| <= 100 && FitsOptional(l.country, 100) }
  predicate VendorOk(v: Vendor) { |v.name| <= 200 }
  predicate MethodOk(m: Method) { |m.name| <= 100 }

  predicate RowsOk(db: Db) {
    && AllOk(db.categories, CategoryOk) && AllOk(db.statuses, StatusOk)
    && AllOk(db.locations, LocationOk) && AllOk(db.vendors, VendorOk) && AllOk(db.methods, MethodOk)
    && AllOk(db.assets, AssetOk) && AllOk(db.invoices, InvoiceOk)
    && AllOk(db.depreciations, DepreciationOk) && AllOk(db.maintenances, MaintenanceOk)
    && AllOk(db.eols, EndOfLifeOk)
  }

  // ------------------------------------------------------------------- keys

  function CategoryId(c: Category): int { c.id }
  function CategoryName(c: Category): string { c.name }
  function StatusId(s: Status): int { s.id }
  function StatusName(s: Status): string { s.name }
  function LocationId(l: Location): int { l.id }
  function LocationName(l: Location): string { l.name }
  function VendorId(v: Vendor): int { v.id }
  function VendorName(v: Vendor): string { v.name }
  function AssetId(a: Asset): int { a.id }
  function AssetCode(a: Asset): string { a.code }
  function InvoiceId(i: Invoice): int { i.id }
  function InvoiceNumber(i: Invoice): string { i.number }
  function MappingId(m: Mapping): int { m.id }
  function MappingAsset(m: Mapping): int { m.asset }
  function MappingInvoice(m: Mapping): int { m.invoice }
  function MappingPair(m: Mapping): (int, int) { (m.asset, m.invoice) }
  function WarrantyId(w: Warranty): int { w.id }
  function WarrantyAsset(w: Warranty): int { w.asset }
  function MethodId(m: Method): int { m.id }
  function MethodName(m: Method): string { m.name }
  function DepreciationId(d: Depreciation): int { d.id }
  function DepreciationAsset(d: Depreciation): int { d.asset }
  function MaintenanceId(m: Maintenance): int { m.id }
  function MaintenanceAsset(m: Maintenance): int { m.asset }
  function EndOfLifeId(e: EndOfLife): int { e.id }
  function EndOfLifeAsset(e: EndOfLife): int { e.asset }

  /** Primary keys, the declared `unique=True` columns, `unique_together` and the one-to-one link. */
  predicate KeysUnique(db: Db) {
    && UniqueBy(db.categories, CategoryId) && UniqueBy(db.categories, CategoryName)
    && UniqueBy(db.statuses, StatusId) && UniqueBy(db.statuses, StatusName)
    && UniqueBy(db.locations, LocationId)
    && UniqueBy(db.vendors, VendorId)
    && UniqueBy(db.assets, AssetId) && UniqueBy(db.assets, AssetCode)
    && UniqueBy(db.invoices, InvoiceId) && UniqueBy(db.invoices, InvoiceNumber)
    && UniqueBy(db.mappings, MappingId) && UniqueBy(db.mappings, MappingPair)
    && UniqueBy(db.warranties, WarrantyId)
    && UniqueBy(db.methods, MethodId) && UniqueBy(db.methods, MethodName)
    && UniqueBy(db.depreciations, DepreciationId)
    && UniqueBy(db.maintenances, MaintenanceId)
    && UniqueBy(db.eols, EndOfLifeId) && UniqueBy(db.eols, EndOfLifeAsset)
  }

  function CategoryIds(db: Db): set<int> { KeysOf(db.categories, CategoryId) }
  function StatusIds(db: Db): set<int> { KeysOf(db.statuses, StatusId) }
  function LocationIds(db: Db): set<int> { KeysOf(db.locations, LocationId) }
  function VendorIds(db: Db): set<int> { KeysOf(db.vendors, VendorId) }
  function AssetIds(db: Db): set<int> { KeysOf(db.assets, AssetId) }
  function InvoiceIds(db: Db): set<int> { KeysOf(db.invoices, InvoiceId) }
  function MethodIds(db: Db): set<int> { KeysOf(db.methods, MethodId) }

  function AssetCategory(a: Asset): int { a.category }
  function AssetLocation(a: Asset): int { a.location }
  function AssetVendor(a: Asset): int { a.vendor }
  function AssetStatus(a: Asset): int { a.status }
  function InvoiceVendor(i: Invoice): int { i.vendor }
  function DepreciationMethod(d: Depreciation): int { d.methodId }

  /** Every asset names an existing category, location, vendor and status. */
  predicate AssetsLinked(db: Db) {
    && RefsIn(db.assets, AssetCategory, CategoryIds(db)) && RefsIn(db.assets, AssetLocation, LocationIds(db))
    && RefsIn(db.assets, AssetVendor, VendorIds(db)) && RefsIn(db.assets, AssetStatus, StatusIds(db))
  }

  /** Every invoice names an existing vendor. */
  predicate InvoicesLinked(db: Db) {
    RefsIn(db.invoices, InvoiceVendor, VendorIds(db))
  }

  /** Every row that hangs off an asset names an existing asset (and invoice or method). */
  predicate ChildrenLinked(db: Db) {
    && RefsIn(db.mappings, MappingAsset, AssetIds(db)) && RefsIn(db.mappings, MappingInvoice, InvoiceIds(db))
    && RefsIn(db.warranties, WarrantyAsset, AssetIds(db))
    && RefsIn(db.depreciations, DepreciationAsset, AssetIds(db)) && RefsIn(db.depreciations, DepreciationMethod, MethodIds(db))
    && RefsIn(db.maintenances, MaintenanceAsset, AssetIds(db))
    && RefsIn(db.eols, EndOfLifeAsset, AssetIds(db))
  }

  /** Every foreign key names an existing row. */
  predicate Linked(db: Db) {
    AssetsLinked(db) && InvoicesLinked(db) && ChildrenLinked(db)
  }

  predicate Valid(db: Db) {
    RowsOk(db) && KeysUnique(db) && Linked(db)
  }

  const EmptyDb := Db([], [], [], [], [], [], [], [], [], [], [], [])

  /** An empty database meets every constraint. */
  lemma EmptyValid()
    ensures Valid(EmptyDb)
  {
  }

  /** Under the one-to-one link an asset has at most one end-of-life record. */
  lemma OneEndOfLife(db: Db, e1: EndOfLife, e2: EndOfLife)
    requires Valid(db) && e1 in db.eols && e2 in db.eols && e1.asset == e2.asset
    ensures e1 == e2
  {
    var i :| 0 <= i < |db.eols| && db.eols[i] == e1;
    var j :| 0 <= j < |db.eols| && db.eols[j] == e2;
    assert !(i < j) && !(j < i) by {
      assert UniqueBy(db.eols, EndOfLifeAsset);
    }
  }

  /** An asset is linked to an invoice at most once. */
  lemma OneMappingPerPair(db: Db, m1: Mapping, m2: Mapping)
    requires Valid(db) && m1 in db.mappings && m2 in db.mappings
    requires m1.asset == m2.asset && m1.invoice == m2.invoice
    ensures m1 == m2
  {
    var i :| 0 <= i < |db.mappings| && db.mappings[i] == m1;
    var j :| 0 <= j < |db.mappings| && db.mappings[j] == m2;
    assert !(i < j) && !(j < i) by {
      assert UniqueBy(db.mappings, MappingPair);
    }
  }
}
