/**
 * The `seed_data` management command: for each lookup table it walks a
 * fixed list of names and calls `get_or_create` on the name, so a name
 * already present is left alone, a missing one is created with the
 * command's defaults, and a name present twice (possible for locations and
 * vendors, whose names are not unique) aborts the run.
 */
module Seed {
  import opened Wrappers
  import opened Lists
  import opened Models
  import FormConfigs

  // ------------------------------------------------------ get_or_create

  /** The rows whose name is `name`. */
  function Named<T>(nameOf: T -> string, name: string): T -> bool {
    x => nameOf(x) == name
  }

  /** The id the database hands out next: one past every id in use. */
  function NextId<T>(rows: seq<T>, idOf: T -> int): (r: int)
    ensures r >= 1
    ensures forall x | x in rows :: idOf(x) < r
    decreases |rows|
  {
    if rows == [] then 1
    else
      var front := NextId(rows[..|rows| - 1], idOf);
      var last := idOf(rows[|rows| - 1]);
      assert forall x | x in rows :: x in rows[..|rows| - 1] || x == rows[|rows| - 1];
      if last + 1 > front then last + 1 else front
  }

  const MultipleObjectsReturned := "MultipleObjectsReturned"

  /**
   * `Model.objects.get_or_create(name=…, defaults=…)`: one match is kept as
   * it is, no match appends a row built by `make` under a fresh id, more
   * than one match raises.
   */
  function GetOrCreate<T>(rows: seq<T>, name: string, nameOf: T -> string, idOf: T -> int,
                          make: (int, string) -> T): (r: Result<seq<T>, string>)
    ensures r.Err? <==> Count(rows, Named(nameOf, name)) > 1
    ensures r.Err? ==> r.error == MultipleObjectsReturned
    ensures Count(rows, Named(nameOf, name)) == 1 ==> r == Ok(rows)
    ensures Count(rows, Named(nameOf, name)) == 0 ==>
      r.Ok? && |r.value| == |rows| + 1 && r.value[..|rows|] == rows
      && r.value[|rows|] == make(NextId(rows, idOf), name)
  {
    var n := Count(rows, Named(nameOf, name));
    if n == 0 then
      var r := rows + [make(NextId(rows, idOf), name)];
      assert r[..|rows|] == rows;
      Ok(r)
    else if n == 1 then Ok(rows)
    else Err(MultipleObjectsReturned)
  }

  /** `after` keeps every row of `before`, in place, and may add rows at the end. */
  ghost predicate Extends<T>(before: seq<T>, after: seq<T>) {
    |before| <= |after| && after[..|before|] == before
  }

  /** One `for … in …: get_or_create(…)` loop over a list of names. */
  function SeedTable<T>(rows: seq<T>, names: seq<string>, nameOf: T -> string, idOf: T -> int,
                        make: (int, string) -> T): (r: Result<seq<T>, string>)
    ensures r.Ok? ==> Extends(rows, r.value)
    ensures r.Err? ==> r.error == MultipleObjectsReturned
    decreases |names|
  {
    if names == [] then Ok(rows)
    else
      var mid :- SeedTable(rows, names[..|names| - 1], nameOf, idOf, make);
      var r := GetOrCreate(mid, names[|names| - 1], nameOf, idOf, make);
      assert r.Ok? ==> r.value[..|rows|] == mid[..|mid|][..|rows|];
      r
  }

  // ----------------------------------------------------------- counting

  /** Appending a row adds one to the count of its own condition only. */
  lemma CountSnoc<T>(xs: seq<T>, x: T, p: T -> bool)
    ensures Count(xs + [x], p) == Count(xs, p) + (if p(x) then 1 else 0)
  {
    assert (xs + [x])[..|xs|] == xs;
  }

  /** Counts add up over concatenation. */
  lemma {:induction false} CountConcat<T>(xs: seq<T>, ys: seq<T>, p: T -> bool)
    ensures Count(xs + ys, p) == Count(xs, p) + Count(ys, p)
    decreases |ys|
  {
    if ys == [] {
      assert xs + ys == xs;
    } else {
      var ys' := ys[..|ys| - 1];
      assert xs + ys == (xs + ys') + [ys[|ys| - 1]];
      CountConcat(xs, ys', p);
      CountSnoc(xs + ys', ys[|ys| - 1], p);
      CountSnoc(ys', ys[|ys| - 1], p);
      assert ys == ys' + [ys[|ys| - 1]];
    }
  }

  /** Extending a list never lowers a count. */
  lemma CountGrows<T>(xs: seq<T>, ys: seq<T>, p: T -> bool)
    requires |xs| <= |ys| && ys[..|xs|] == xs
    ensures Count(xs, p) <= Count(ys, p)
  {
    assert ys == xs + ys[|xs|..];
    CountConcat(xs, ys[|xs|..], p);
  }

  /** A count of zero means no element qualifies. */
  lemma CountZero<T>(xs: seq<T>, p: T -> bool)
    ensures Count(xs, p) == 0 <==> forall x | x in xs :: !p(x)
  {
    CountIsKeepLength(xs, p);
    if Count(xs, p) != 0 {
      assert Keep(xs, p)[0] in Keep(xs, p);
    }
  }

  /** In a table whose names are unique a name occurs at most once. */
  lemma {:induction false} CountUnique<T>(xs: seq<T>, nameOf: T -> string, name: string)
    requires UniqueBy(xs, nameOf)
    ensures Count(xs, Named(nameOf, name)) <= 1
    decreases |xs|
  {
    if xs != [] {
      var front, last := xs[..|xs| - 1], xs[|xs| - 1];
      CountUnique(front, nameOf, name);
      if nameOf(last) == name {
        forall x | x in front
          ensures !Named(nameOf, name)(x)
        {
          var i :| 0 <= i < |front| && front[i] == x;
          assert xs[i] == x;
        }
        CountZero(front, Named(nameOf, name));
      }
    }
  }

  // ------------------------------------------------------ one table's run

  /** Every name of the list ends up in exactly one row. */
  lemma {:induction false} SeedTableProvides<T>(rows: seq<T>, names: seq<string>, nameOf: T -> string,
                                               idOf: T -> int, make: (int, string) -> T)
    requires forall i, n :: nameOf(make(i, n)) == n
    requires SeedTable(rows, names, nameOf, idOf, make).Ok?
    ensures forall n | n in names :: Count(SeedTable(rows, names, nameOf, idOf, make).value, Named(nameOf, n)) == 1
    decreases |names|
  {
    if names != [] {
      var front, last := names[..|names| - 1], names[|names| - 1];
      SeedTableProvides(rows, front, nameOf, idOf, make);
      var mid := SeedTable(rows, front, nameOf, idOf, make).value;
      var r := SeedTable(rows, names, nameOf, idOf, make).value;
      if Count(mid, Named(nameOf, last)) == 0 {
        var x := make(NextId(mid, idOf), last);
        assert r == mid + [x];
        forall n | n in names
          ensures Count(r, Named(nameOf, n)) == 1
        {
          CountSnoc(mid, x, Named(nameOf, n));
          assert n != last ==> n in front;
        }
      } else {
        assert forall n | n in names :: n in front || n == last;
      }
    }
  }

  /** With every name already present exactly once, the run changes nothing. */
  lemma {:induction false} SeedTableNoop<T>(rows: seq<T>, names: seq<string>, nameOf: T -> string,
                                           idOf: T -> int, make: (int, string) -> T)
    requires forall n | n in names :: Count(rows, Named(nameOf, n)) == 1
    ensures SeedTable(rows, names, nameOf, idOf, make) == Ok(rows)
    decreases |names|
  {
    if names != [] {
      assert forall n | n in names[..|names| - 1] :: n in names;
      SeedTableNoop(rows, names[..|names| - 1], nameOf, idOf, make);
    }
  }

  /** Running the loop a second time creates nothing. */
  lemma SeedTableTwice<T>(rows: seq<T>, names: seq<string>, nameOf: T -> string,
                          idOf: T -> int, make: (int, string) -> T)
    requires forall i, n :: nameOf(make(i, n)) == n
    requires SeedTable(rows, names, nameOf, idOf, make).Ok?
    ensures var r := SeedTable(rows, names, nameOf, idOf, make).value;
      SeedTable(r, names, nameOf, idOf, make) == Ok(r)
  {
    SeedTableProvides(rows, names, nameOf, idOf, make);
    SeedTableNoop(SeedTable(rows, names, nameOf, idOf, make).value, names, nameOf, idOf, make);
  }

  /** New rows get fresh ids, so ids stay unique. */
  lemma {:induction false} SeedTableIdsUnique<T>(rows: seq<T>, names: seq<string>, nameOf: T -> string,
                                                idOf: T -> int, make: (int, string) -> T)
    requires forall i, n :: idOf(make(i, n)) == i
    requires UniqueBy(rows, idOf)
    requires SeedTable(rows, names, nameOf, idOf, make).Ok?
    ensures UniqueBy(SeedTable(rows, names, nameOf, idOf, make).value, idOf)
    decreases |names|
  {
    if names != [] {
      var front, last := names[..|names| - 1], names[|names| - 1];
      SeedTableIdsUnique(rows, front, nameOf, idOf, make);
      var mid := SeedTable(rows, front, nameOf, idOf, make).value;
      if Count(mid, Named(nameOf, last)) == 0 {
        var x := make(NextId(mid, idOf), last);
        assert forall i | 0 <= i < |mid| :: mid[i] in mid;
        assert SeedTable(rows, names, nameOf, idOf, make).value == mid + [x];
      }
    }
  }

  /** A name is created only when absent, so names that were unique stay unique and the run cannot fail. */
  lemma {:induction false} SeedTableNamesUnique<T>(rows: seq<T>, names: seq<string>, nameOf: T -> string,
                                                  idOf: T -> int, make: (int, string) -> T)
    requires forall i, n :: nameOf(make(i, n)) == n
    requires UniqueBy(rows, nameOf)
    ensures SeedTable(rows, names, nameOf, idOf, make).Ok?
    ensures UniqueBy(SeedTable(rows, names, nameOf, idOf, make).value, nameOf)
    decreases |names|
  {
    if names != [] {
      var front, last := names[..|names| - 1], names[|names| - 1];
      SeedTableNamesUnique(rows, front, nameOf, idOf, make);
      var mid := SeedTable(rows, front, nameOf, idOf, make).value;
      CountUnique(mid, nameOf, last);
      if Count(mid, Named(nameOf, last)) == 0 {
        CountZero(mid, Named(nameOf, last));
        assert forall i | 0 <= i < |mid| :: mid[i] in mid;
        assert SeedTable(rows, names, nameOf, idOf, make).value == mid + [make(NextId(mid, idOf), last)];
      }
    }
  }

  /** A listed name that already occurs twice makes `get_or_create` raise, so the run fails. */
  lemma {:induction false} SeedTableDuplicateFails<T>(rows: seq<T>, names: seq<string>, nameOf: T -> string,
                                                     idOf: T -> int, make: (int, string) -> T, n: string)
    requires n in names && Count(rows, Named(nameOf, n)) > 1
    ensures SeedTable(rows, names, nameOf, idOf, make).Err?
    decreases |names|
  {
    var front, last := names[..|names| - 1], names[|names| - 1];
    if n in front {
      SeedTableDuplicateFails(rows, front, nameOf, idOf, make, n);
    } else {
      assert n == last;
      var prior := SeedTable(rows, front, nameOf, idOf, make);
      if prior.Ok? {
        CountGrows(rows, prior.value, Named(nameOf, n));
      }
    }
  }

  /** Rows built by `make` pass `ok` for every listed name, so the run keeps every row passing. */
  lemma {:induction false} SeedTableAllOk<T>(rows: seq<T>, names: seq<string>, nameOf: T -> string,
                                            idOf: T -> int, make: (int, string) -> T, ok: T -> bool)
    requires forall i, n | n in names :: ok(make(i, n))
    requires forall x | x in rows :: ok(x)
    requires SeedTable(rows, names, nameOf, idOf, make).Ok?
    ensures forall x | x in SeedTable(rows, names, nameOf, idOf, make).value :: ok(x)
    decreases |names|
  {
    if names != [] {
      var front := names[..|names| - 1];
      assert forall n | n in front :: n in names;
      SeedTableAllOk(rows, front, nameOf, idOf, make, ok);
    }
  }

  /** The ids in use only grow. */
  lemma SeedTableKeysGrow<T>(rows: seq<T>, names: seq<string>, nameOf: T -> string,
                             idOf: T -> int, make: (int, string) -> T)
    requires SeedTable(rows, names, nameOf, idOf, make).Ok?
    ensures KeysOf(rows, idOf) <= KeysOf(SeedTable(rows, names, nameOf, idOf, make).value, idOf)
  {
    var r := SeedTable(rows, names, nameOf, idOf, make).value;
    forall x | x in rows
      ensures x in r
    {
      var i :| 0 <= i < |rows| && rows[i] == x;
      assert r[i] == x;
    }
  }

  // --------------------------------------------------------- the command

  const CategoryNames: seq<string> := [
    "Electronics", "Appliances", "Furniture", "Vehicles", "Home & Garden", "Luggage & Travel",
    "Kitchen & Dining", "Office Equipment", "Sports & Fitness", "Other"
  ]
  const StatusNames: seq<string> := ["Active", "In Storage", "Under Repair", "Retired", "Sold", "Lost/Stolen"]
  const LocationNames: seq<string> := ["Main House", "Garage", "Storage Unit", "Office Space"]
  const VendorNames: seq<string> := [
    "Amazon", "Best Buy", "IKEA", "Home Depot", "Apple Store", "Samsung", "Dell", "Costco",
    "Target", "Walmart", "Local Electronics Store", "Furniture Store"
  ]
  const MethodNames: seq<string> := [
    "Straight Line", "Declining Balance", "Sum of Years Digits", "Units of Production", "No Depreciation"
  ]

  /** The address a seeded location is created with. */
  function LocationAddress(name: string): string {
    if name == "Main House" || name == "Garage" then "123 Main Street, City, State"
    else if name == "Storage Unit" then "456 Storage Ave, City, State"
    else "789 Business Blvd, City, State"
  }

  function NewCategory(id: int, name: string): Category { Category(id, name) }
  function NewStatus(id: int, name: string): Status { Status(id, name) }
  /** Locations are created in the USA. */
  function NewLocation(id: int, name: string): Location { Location(id, name, LocationAddress(name), Some("USA")) }
  /** Vendors are created active. */
  function NewVendor(id: int, name: string): Vendor { Vendor(id, name, true) }
  function NewMethod(id: int, name: string): Method { Method(id, name) }

  /** `Command.handle`: the five loops in order; the first raise ends the run. */
  function SeedDb(db: Db): (r: Result<Db, string>)
    ensures r.Ok? ==> (
      && r.value.assets == db.assets && r.value.invoices == db.invoices
      && r.value.mappings == db.mappings && r.value.warranties == db.warranties
      && r.value.depreciations == db.depreciations && r.value.maintenances == db.maintenances
      && r.value.eols == db.eols)
    ensures r.Ok? ==> (
      && Extends(db.categories, r.value.categories) && Extends(db.statuses, r.value.statuses)
      && Extends(db.locations, r.value.locations) && Extends(db.vendors, r.value.vendors)
      && Extends(db.methods, r.value.methods))
    ensures r.Err? ==> r.error == MultipleObjectsReturned
  {
    var categories :- SeedTable(db.categories, CategoryNames, CategoryName, CategoryId, NewCategory);
    var statuses :- SeedTable(db.statuses, StatusNames, StatusName, StatusId, NewStatus);
    var locations :- SeedTable(db.locations, LocationNames, LocationName, LocationId, NewLocation);
    var vendors :- SeedTable(db.vendors, VendorNames, VendorName, VendorId, NewVendor);
    var methods :- SeedTable(db.methods, MethodNames, MethodName, MethodId, NewMethod);
    Ok(db.(categories := categories, statuses := statuses, locations := locations,
           vendors := vendors, methods := methods))
  }

  /** After a successful run every listed name is present exactly once in its table. */
  lemma SeedDbProvides(db: Db)
    requires SeedDb(db).Ok?
    ensures var d := SeedDb(db).value;
      && (forall n | n in CategoryNames :: Count(d.categories, Named(CategoryName, n)) == 1)
      && (forall n | n in StatusNames :: Count(d.statuses, Named(StatusName, n)) == 1)
      && (forall n | n in LocationNames :: Count(d.locations, Named(LocationName, n)) == 1)
      && (forall n | n in VendorNames :: Count(d.vendors, Named(VendorName, n)) == 1)
      && (forall n | n in MethodNames :: Count(d.methods, Named(MethodName, n)) == 1)
  {
    SeedTableProvides(db.categories, CategoryNames, CategoryName, CategoryId, NewCategory);
    SeedTableProvides(db.statuses, StatusNames, StatusName, StatusId, NewStatus);
    SeedTableProvides(db.locations, LocationNames, LocationName, LocationId, NewLocation);
    SeedTableProvides(db.vendors, VendorNames, VendorName, VendorId, NewVendor);
    SeedTableProvides(db.methods, MethodNames, MethodName, MethodId, NewMethod);
  }

  /** The command is idempotent: a second run finds every name and creates nothing. */
  lemma SeedDbTwice(db: Db)
    requires SeedDb(db).Ok?
    ensures SeedDb(SeedDb(db).value) == SeedDb(db)
  {
    SeedTableTwice(db.categories, CategoryNames, CategoryName, CategoryId, NewCategory);
    SeedTableTwice(db.statuses, StatusNames, StatusName, StatusId, NewStatus);
    SeedTableTwice(db.locations, LocationNames, LocationName, LocationId, NewLocation);
    SeedTableTwice(db.vendors, VendorNames, VendorName, VendorId, NewVendor);
    SeedTableTwice(db.methods, MethodNames, MethodName, MethodId, NewMethod);
  }

  /** With unique keys and unique location and vendor names the run cannot raise. */
  lemma SeedDbSucceeds(db: Db)
    requires KeysUnique(db)
    requires UniqueBy(db.locations, LocationName) && UniqueBy(db.vendors, VendorName)
    ensures SeedDb(db).Ok?
  {
    SeedTableNamesUnique(db.categories, CategoryNames, CategoryName, CategoryId, NewCategory);
    SeedTableNamesUnique(db.statuses, StatusNames, StatusName, StatusId, NewStatus);
    SeedTableNamesUnique(db.locations, LocationNames, LocationName, LocationId, NewLocation);
    SeedTableNamesUnique(db.vendors, VendorNames, VendorName, VendorId, NewVendor);
    SeedTableNamesUnique(db.methods, MethodNames, MethodName, MethodId, NewMethod);
  }

  /** Two locations sharing a seeded name make the location loop raise `MultipleObjectsReturned`. */
  lemma SeedDbDuplicateLocation(db: Db, name: string)
    requires KeysUnique(db)
    requires name in LocationNames && Count(db.locations, Named(LocationName, name)) > 1
    ensures SeedDb(db) == Err(MultipleObjectsReturned)
  {
    SeedTableNamesUnique(db.categories, CategoryNames, CategoryName, CategoryId, NewCategory);
    SeedTableNamesUnique(db.statuses, StatusNames, StatusName, StatusId, NewStatus);
    SeedTableDuplicateFails(db.locations, LocationNames, LocationName, LocationId, NewLocation, name);
  }

  /** The seeded rows pass the column checks. */
  lemma SeedDbRowsOk(db: Db)
    requires RowsOk(db) && SeedDb(db).Ok?
    ensures RowsOk(SeedDb(db).value)
  {
    SeededRowsOk();
    SeedTableAllOk(db.categories, CategoryNames, CategoryName, CategoryId, NewCategory, CategoryOk);
    SeedTableAllOk(db.statuses, StatusNames, StatusName, StatusId, NewStatus, StatusOk);
    SeedTableAllOk(db.locations, LocationNames, LocationName, LocationId, NewLocation, LocationOk);
    SeedTableAllOk(db.vendors, VendorNames, VendorName, VendorId, NewVendor, VendorOk);
    SeedTableAllOk(db.methods, MethodNames, MethodName, MethodId, NewMethod, MethodOk);
    var d := SeedDb(db).value;
    assert AllOk(d.categories, CategoryOk) && AllOk(d.statuses, StatusOk);
    assert AllOk(d.locations, LocationOk) && AllOk(d.vendors, VendorOk) && AllOk(d.methods, MethodOk);
  }

  /** Every seeded name fits its column. */
  lemma SeededRowsOk()
    ensures forall i, n | n in CategoryNames :: CategoryOk(NewCategory(i, n))
    ensures forall i, n | n in StatusNames :: StatusOk(NewStatus(i, n))
    ensures forall i, n | n in LocationNames :: LocationOk(NewLocation(i, n))
    ensures forall i, n | n in VendorNames :: VendorOk(NewVendor(i, n))
    ensures forall i, n | n in MethodNames :: MethodOk(NewMethod(i, n))
  {
    CategoryNamesFit();
    StatusNamesFit();
    LocationNamesFit();
    VendorNamesFit();
    MethodNamesFit();
  }

  lemma CategoryNamesFit()
    ensures forall n | n in CategoryNames :: |n| <= 100
  {
    forall n | n in CategoryNames ensures |n| <= 100 {
      var k :| 0 <= k < |CategoryNames| && CategoryNames[k] == n;
    }
  }

  lemma StatusNamesFit()
    ensures forall n | n in StatusNames :: |n| <= 50
  {
    forall n | n in StatusNames ensures |n| <= 50 {
      var k :| 0 <= k < |StatusNames| && StatusNames[k] == n;
    }
  }

  lemma LocationNamesFit()
    ensures forall n | n in LocationNames :: |n| <= 100
  {
    forall n | n in LocationNames ensures |n| <= 100 {
      var k :| 0 <= k < |LocationNames| && LocationNames[k] == n;
    }
  }

  lemma VendorNamesFit()
    ensures forall n | n in VendorNames :: |n| <= 200
  {
    forall n | n in VendorNames ensures |n| <= 200 {
      var k :| 0 <= k < |VendorNames| && VendorNames[k] == n;
    }
  }

  lemma MethodNamesFit()
    ensures forall n | n in MethodNames :: |n| <= 100
  {
    forall n | n in MethodNames ensures |n| <= 100 {
      var k :| 0 <= k < |MethodNames| && MethodNames[k] == n;
    }
  }

  /** Fresh ids and get-before-create keep every key unique. */
  lemma SeedDbKeys(db: Db)
    requires KeysUnique(db) && SeedDb(db).Ok?
    ensures KeysUnique(SeedDb(db).value)
  {
    SeedTableIdsUnique(db.categories, CategoryNames, CategoryName, CategoryId, NewCategory);
    SeedTableNamesUnique(db.categories, CategoryNames, CategoryName, CategoryId, NewCategory);
    SeedTableIdsUnique(db.statuses, StatusNames, StatusName, StatusId, NewStatus);
    SeedTableNamesUnique(db.statuses, StatusNames, StatusName, StatusId, NewStatus);
    SeedTableIdsUnique(db.locations, LocationNames, LocationName, LocationId, NewLocation);
    SeedTableIdsUnique(db.vendors, VendorNames, VendorName, VendorId, NewVendor);
    SeedTableIdsUnique(db.methods, MethodNames, MethodName, MethodId, NewMethod);
    SeedTableNamesUnique(db.methods, MethodNames, MethodName, MethodId, NewMethod);
  }

  /** Seeding only adds rows, so every reference still resolves. */
  lemma SeedDbLinked(db: Db)
    requires Linked(db) && SeedDb(db).Ok?
    ensures Linked(SeedDb(db).value)
  {
    SeedTableKeysGrow(db.categories, CategoryNames, CategoryName, CategoryId, NewCategory);
    SeedTableKeysGrow(db.statuses, StatusNames, StatusName, StatusId, NewStatus);
    SeedTableKeysGrow(db.locations, LocationNames, LocationName, LocationId, NewLocation);
    SeedTableKeysGrow(db.vendors, VendorNames, VendorName, VendorId, NewVendor);
    SeedTableKeysGrow(db.methods, MethodNames, MethodName, MethodId, NewMethod);
  }

  /** Seeding a valid database leaves it valid. */
  lemma SeedDbValid(db: Db)
    requires Valid(db) && SeedDb(db).Ok?
    ensures Valid(SeedDb(db).value)
  {
    SeedDbRowsOk(db);
    SeedDbKeys(db);
    SeedDbLinked(db);
  }

  /** Of the seeded categories, exactly the first four get extension fields on the asset form. */
  lemma SeededCategoryExtensions()
    ensures forall c | c in FormConfigs.ExtendedCategories :: c in CategoryNames[..4]
    ensures forall i | 0 <= i < |CategoryNames| :: FormConfigs.CategoryFields(CategoryNames[i]) != [] <==> i < 4
  {
    assert CategoryNames[..4] == ["Electronics", "Appliances", "Furniture", "Vehicles"];
    assert FormConfigs.ExtendedCategories == {"Electronics", "Vehicles", "Furniture", "Appliances"};
  }
}
