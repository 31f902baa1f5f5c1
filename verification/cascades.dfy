/**
 * Deletion with `on_delete=CASCADE`: removing a category, location, vendor
 * or status removes its assets, removing a vendor also removes its invoices,
 * and removing an asset removes its invoice links, warranties,
 * depreciations, maintenance records and end-of-life record. Every delete
 * keeps the database valid and leaves no row pointing at a removed one.
 */
module Cascades {
  import opened Lists
  import opened Models

  /** The assets whose ids are in `gone`, with every row that hangs off them. */
  function RemoveAssets(db: Db, gone: set<int>): Db {
    db.(assets := Keep(db.assets, Outside(AssetId, gone)),
        mappings := Keep(db.mappings, Outside(MappingAsset, gone)),
        warranties := Keep(db.warranties, Outside(WarrantyAsset, gone)),
        depreciations := Keep(db.depreciations, Outside(DepreciationAsset, gone)),
        maintenances := Keep(db.maintenances, Outside(MaintenanceAsset, gone)),
        eols := Keep(db.eols, Outside(EndOfLifeAsset, gone)))
  }

  lemma RemoveAssetsRows(db: Db, gone: set<int>)
    requires RowsOk(db)
    ensures RowsOk(RemoveAssets(db, gone))
  {
    KeepAllOk(db.assets, Outside(AssetId, gone), AssetOk);
    KeepAllOk(db.depreciations, Outside(DepreciationAsset, gone), DepreciationOk);
    KeepAllOk(db.maintenances, Outside(MaintenanceAsset, gone), MaintenanceOk);
    KeepAllOk(db.eols, Outside(EndOfLifeAsset, gone), EndOfLifeOk);
  }

  lemma RemoveAssetsKeys(db: Db, gone: set<int>)
    requires KeysUnique(db)
    ensures KeysUnique(RemoveAssets(db, gone))
  {
    KeepUnique(db.assets, Outside(AssetId, gone), AssetId);
    KeepUnique(db.assets, Outside(AssetId, gone), AssetCode);
    KeepUnique(db.mappings, Outside(MappingAsset, gone), MappingId);
    KeepUnique(db.mappings, Outside(MappingAsset, gone), MappingPair);
    KeepUnique(db.warranties, Outside(WarrantyAsset, gone), WarrantyId);
    KeepUnique(db.depreciations, Outside(DepreciationAsset, gone), DepreciationId);
    KeepUnique(db.maintenances, Outside(MaintenanceAsset, gone), MaintenanceId);
    KeepUnique(db.eols, Outside(EndOfLifeAsset, gone), EndOfLifeId);
    KeepUnique(db.eols, Outside(EndOfLifeAsset, gone), EndOfLifeAsset);
  }

  /** The removed ids are exactly `gone`, and nothing left refers to them. */
  lemma RemoveAssetsLinks(db: Db, gone: set<int>)
    requires ChildrenLinked(db)
    ensures AssetIds(RemoveAssets(db, gone)) == AssetIds(db) - gone
    ensures ChildrenLinked(RemoveAssets(db, gone))
  {
    var r := RemoveAssets(db, gone);
    KeepOutsideKeys(db.assets, AssetId, gone);
    KeepOutsideRefs(db.mappings, MappingAsset, AssetIds(db), gone);
    KeepRefs(db.mappings, Outside(MappingAsset, gone), MappingInvoice, InvoiceIds(db), InvoiceIds(r));
    KeepOutsideRefs(db.warranties, WarrantyAsset, AssetIds(db), gone);
    KeepOutsideRefs(db.depreciations, DepreciationAsset, AssetIds(db), gone);
    KeepRefs(db.depreciations, Outside(DepreciationAsset, gone), DepreciationMethod, MethodIds(db), MethodIds(r));
    KeepOutsideRefs(db.maintenances, MaintenanceAsset, AssetIds(db), gone);
    KeepOutsideRefs(db.eols, EndOfLifeAsset, AssetIds(db), gone);
  }

  /** Removing assets keeps rows, keys and the links below assets intact, and removes exactly those ids. */
  lemma RemoveAssetsSound(db: Db, gone: set<int>)
    requires RowsOk(db) && KeysUnique(db) && ChildrenLinked(db)
    ensures RowsOk(RemoveAssets(db, gone)) && KeysUnique(RemoveAssets(db, gone)) && ChildrenLinked(RemoveAssets(db, gone))
    ensures AssetIds(RemoveAssets(db, gone)) == AssetIds(db) - gone
  {
    RemoveAssetsRows(db, gone);
    RemoveAssetsKeys(db, gone);
    RemoveAssetsLinks(db, gone);
  }

  /** The ids of the assets whose parent key `fk` is `id`. */
  function Dependents(assets: seq<Asset>, fk: Asset -> int, id: int): (gone: set<int>)
    ensures forall a | a in assets && fk(a) == id :: a.id in gone
  {
    set a | a in assets && fk(a) == id :: a.id
  }

  /** No surviving asset has the deleted parent. */
  lemma Detached(assets: seq<Asset>, fk: Asset -> int, id: int)
    ensures forall a | a in Keep(assets, Outside(AssetId, Dependents(assets, fk, id))) :: fk(a) != id
  {
    var gone := Dependents(assets, fk, id);
    forall a | a in Keep(assets, Outside(AssetId, gone))
      ensures fk(a) != id
    {
      assert a in assets && Outside(AssetId, gone)(a);
    }
  }

  /** References that avoid `id` stay valid once `id` is gone. */
  lemma RefsWithout<T>(xs: seq<T>, fk: T -> int, ids: set<int>, id: int)
    requires RefsIn(xs, fk, ids) && forall x | x in xs :: fk(x) != id
    ensures RefsIn(xs, fk, ids - {id})
  {
  }

  /** References into a table left unchanged stay valid for the rows that remain. */
  lemma KeptAssetsLinked(db: Db, r: Db, gone: set<int>)
    requires r.assets == Keep(db.assets, Outside(AssetId, gone))
    requires RefsIn(db.assets, AssetCategory, CategoryIds(db)) && CategoryIds(db) <= CategoryIds(r)
    requires RefsIn(db.assets, AssetLocation, LocationIds(db)) && LocationIds(db) <= LocationIds(r)
    requires RefsIn(db.assets, AssetVendor, VendorIds(db)) && VendorIds(db) <= VendorIds(r)
    requires RefsIn(db.assets, AssetStatus, StatusIds(db)) && StatusIds(db) <= StatusIds(r)
    ensures AssetsLinked(r)
  {
    KeepRefs(db.assets, Outside(AssetId, gone), AssetCategory, CategoryIds(db), CategoryIds(r));
    KeepRefs(db.assets, Outside(AssetId, gone), AssetLocation, LocationIds(db), LocationIds(r));
    KeepRefs(db.assets, Outside(AssetId, gone), AssetVendor, VendorIds(db), VendorIds(r));
    KeepRefs(db.assets, Outside(AssetId, gone), AssetStatus, StatusIds(db), StatusIds(r));
  }

  /** Asset ids identify assets. */
  lemma SameIdSameAsset(assets: seq<Asset>, a: Asset, b: Asset)
    requires UniqueBy(assets, AssetId) && a in assets && b in assets
    ensures a.id == b.id ==> a == b
  {
    var i :| 0 <= i < |assets| && assets[i] == a;
    var j :| 0 <= j < |assets| && assets[j] == b;
    assert i < j || j < i || i == j;
  }

  /** With unique asset ids, exactly the assets with another parent survive. */
  lemma OthersSurvive(assets: seq<Asset>, fk: Asset -> int, id: int)
    requires UniqueBy(assets, AssetId)
    ensures forall a | a in assets && fk(a) != id :: a in Keep(assets, Outside(AssetId, Dependents(assets, fk, id)))
  {
    var gone := Dependents(assets, fk, id);
    forall a | a in assets && fk(a) != id
      ensures a.id !in gone
    {
      forall b | b in assets && fk(b) == id
        ensures b.id != a.id
      {
        SameIdSameAsset(assets, a, b);
      }
    }
  }

  /** Deleting an asset leaves every other table as it was. */
  function DeleteAsset(db: Db, id: int): (r: Db)
    ensures r.categories == db.categories && r.statuses == db.statuses && r.locations == db.locations
    ensures r.vendors == db.vendors && r.invoices == db.invoices && r.methods == db.methods
  {
    RemoveAssets(db, {id})
  }

  /** Deleting an asset keeps the database valid and removes exactly its id. */
  lemma DeleteAssetValid(db: Db, id: int)
    requires Valid(db)
    ensures Valid(DeleteAsset(db, id))
    ensures AssetIds(DeleteAsset(db, id)) == AssetIds(db) - {id}
  {
    RemoveAssetsSound(db, {id});
    KeptAssetsLinked(db, DeleteAsset(db, id), {id});
  }

  /** An asset's warranties and maintenance records go with it; all others stay. */
  lemma DeleteAssetCascades(db: Db, id: int)
    ensures forall w | w in db.warranties :: w in DeleteAsset(db, id).warranties <==> w.asset != id
    ensures forall m | m in db.maintenances :: m in DeleteAsset(db, id).maintenances <==> m.asset != id
  {
    var r := DeleteAsset(db, id);
    forall w | w in db.warranties
      ensures w in r.warranties <==> w.asset != id
    {
      assert Outside(WarrantyAsset, {id})(w) <==> w.asset != id;
    }
    forall m | m in db.maintenances
      ensures m in r.maintenances <==> m.asset != id
    {
      assert Outside(MaintenanceAsset, {id})(m) <==> m.asset != id;
    }
  }

  /** Deleting a category together with its assets. */
  function DeleteCategory(db: Db, id: int): Db {
    RemoveAssets(db.(categories := Keep(db.categories, Outside(CategoryId, {id}))), Dependents(db.assets, AssetCategory, id))
  }

  lemma DeleteCategoryValid(db: Db, id: int)
    requires Valid(db)
    ensures Valid(DeleteCategory(db, id))
    ensures CategoryIds(DeleteCategory(db, id)) == CategoryIds(db) - {id}
    ensures forall a | a in DeleteCategory(db, id).assets :: a.category != id
    ensures forall a | a in db.assets && a.category != id :: a in DeleteCategory(db, id).assets
  {
    var db1 := db.(categories := Keep(db.categories, Outside(CategoryId, {id})));
    var gone := Dependents(db.assets, AssetCategory, id);
    var r := RemoveAssets(db1, gone);
    KeepAllOk(db.categories, Outside(CategoryId, {id}), CategoryOk);
    KeepUnique(db.categories, Outside(CategoryId, {id}), CategoryId);
    KeepUnique(db.categories, Outside(CategoryId, {id}), CategoryName);
    KeepOutsideKeys(db.categories, CategoryId, {id});
    RemoveAssetsSound(db1, gone);
    Detached(db.assets, AssetCategory, id);
    KeepRefs(db.assets, Outside(AssetId, gone), AssetCategory, CategoryIds(db), CategoryIds(db));
    RefsWithout(r.assets, AssetCategory, CategoryIds(db), id);
    KeepRefs(db.assets, Outside(AssetId, gone), AssetLocation, LocationIds(db), LocationIds(r));
    KeepRefs(db.assets, Outside(AssetId, gone), AssetVendor, VendorIds(db), VendorIds(r));
    KeepRefs(db.assets, Outside(AssetId, gone), AssetStatus, StatusIds(db), StatusIds(r));
    OthersSurvive(db.assets, AssetCategory, id);
  }

  /** Deleting a location together with its assets. */
  function DeleteLocation(db: Db, id: int): Db {
    RemoveAssets(db.(locations := Keep(db.locations, Outside(LocationId, {id}))), Dependents(db.assets, AssetLocation, id))
  }

  lemma DeleteLocationValid(db: Db, id: int)
    requires Valid(db)
    ensures Valid(DeleteLocation(db, id))
    ensures LocationIds(DeleteLocation(db, id)) == LocationIds(db) - {id}
    ensures forall a | a in DeleteLocation(db, id).assets :: a.location != id
    ensures forall a | a in db.assets && a.location != id :: a in DeleteLocation(db, id).assets
  {
    var db1 := db.(locations := Keep(db.locations, Outside(LocationId, {id})));
    var gone := Dependents(db.assets, AssetLocation, id);
    var r := RemoveAssets(db1, gone);
    KeepAllOk(db.locations, Outside(LocationId, {id}), LocationOk);
    KeepUnique(db.locations, Outside(LocationId, {id}), LocationId);
    KeepOutsideKeys(db.locations, LocationId, {id});
    RemoveAssetsSound(db1, gone);
    Detached(db.assets, AssetLocation, id);
    KeepRefs(db.assets, Outside(AssetId, gone), AssetLocation, LocationIds(db), LocationIds(db));
    RefsWithout(r.assets, AssetLocation, LocationIds(db), id);
    KeepRefs(db.assets, Outside(AssetId, gone), AssetCategory, CategoryIds(db), CategoryIds(r));
    KeepRefs(db.assets, Outside(AssetId, gone), AssetVendor, VendorIds(db), VendorIds(r));
    KeepRefs(db.assets, Outside(AssetId, gone), AssetStatus, StatusIds(db), StatusIds(r));
    OthersSurvive(db.assets, AssetLocation, id);
  }

  /** Deleting a status together with its assets. */
  function DeleteStatus(db: Db, id: int): Db {
    RemoveAssets(db.(statuses := Keep(db.statuses, Outside(StatusId, {id}))), Dependents(db.assets, AssetStatus, id))
  }

  lemma DeleteStatusValid(db: Db, id: int)
    requires Valid(db)
    ensures Valid(DeleteStatus(db, id))
    ensures StatusIds(DeleteStatus(db, id)) == StatusIds(db) - {id}
    ensures forall a | a in DeleteStatus(db, id).assets :: a.status != id
    ensures forall a | a in db.assets && a.status != id :: a in DeleteStatus(db, id).assets
  {
    var db1 := db.(statuses := Keep(db.statuses, Outside(StatusId, {id})));
    var gone := Dependents(db.assets, AssetStatus, id);
    var r := RemoveAssets(db1, gone);
    KeepAllOk(db.statuses, Outside(StatusId, {id}), StatusOk);
    KeepUnique(db.statuses, Outside(StatusId, {id}), StatusId);
    KeepUnique(db.statuses, Outside(StatusId, {id}), StatusName);
    KeepOutsideKeys(db.statuses, StatusId, {id});
    RemoveAssetsSound(db1, gone);
    Detached(db.assets, AssetStatus, id);
    KeepRefs(db.assets, Outside(AssetId, gone), AssetStatus, StatusIds(db), StatusIds(db));
    RefsWithout(r.assets, AssetStatus, StatusIds(db), id);
    KeepRefs(db.assets, Outside(AssetId, gone), AssetCategory, CategoryIds(db), CategoryIds(r));
    KeepRefs(db.assets, Outside(AssetId, gone), AssetLocation, LocationIds(db), LocationIds(r));
    KeepRefs(db.assets, Outside(AssetId, gone), AssetVendor, VendorIds(db), VendorIds(r));
    OthersSurvive(db.assets, AssetStatus, id);
  }

  /** The ids of a vendor's invoices. */
  function VendorInvoices(invoices: seq<Invoice>, id: int): (gone: set<int>)
    ensures forall i | i in invoices && i.vendor == id :: i.id in gone
  {
    set i | i in invoices && i.vendor == id :: i.id
  }

  /** The vendor's row, invoices and invoice links gone; its assets not yet. */
  function DropVendorInvoices(db: Db, id: int): Db {
    var invoicesGone := VendorInvoices(db.invoices, id);
    db.(vendors := Keep(db.vendors, Outside(VendorId, {id})),
        invoices := Keep(db.invoices, Outside(InvoiceId, invoicesGone)),
        mappings := Keep(db.mappings, Outside(MappingInvoice, invoicesGone)))
  }

  /** Deleting a vendor together with its invoices (and their links) and its assets. */
  function DeleteVendor(db: Db, id: int): Db {
    RemoveAssets(DropVendorInvoices(db, id), Dependents(db.assets, AssetVendor, id))
  }

  lemma DropVendorInvoicesSound(db: Db, id: int)
    requires Valid(db)
    ensures RowsOk(DropVendorInvoices(db, id)) && KeysUnique(DropVendorInvoices(db, id)) && ChildrenLinked(DropVendorInvoices(db, id))
    ensures VendorIds(DropVendorInvoices(db, id)) == VendorIds(db) - {id}
    ensures InvoicesLinked(DropVendorInvoices(db, id))
    ensures forall i | i in DropVendorInvoices(db, id).invoices :: i.vendor != id
  {
    var invoicesGone := VendorInvoices(db.invoices, id);
    var db1 := DropVendorInvoices(db, id);
    KeepAllOk(db.invoices, Outside(InvoiceId, invoicesGone), InvoiceOk);
    KeepAllOk(db.vendors, Outside(VendorId, {id}), VendorOk);
    KeepOutsideKeys(db.vendors, VendorId, {id});
    KeepOutsideKeys(db.invoices, InvoiceId, invoicesGone);
    KeepUnique(db.vendors, Outside(VendorId, {id}), VendorId);
    KeepUnique(db.invoices, Outside(InvoiceId, invoicesGone), InvoiceId);
    KeepUnique(db.invoices, Outside(InvoiceId, invoicesGone), InvoiceNumber);
    KeepUnique(db.mappings, Outside(MappingInvoice, invoicesGone), MappingId);
    KeepUnique(db.mappings, Outside(MappingInvoice, invoicesGone), MappingPair);
    KeepRefs(db.mappings, Outside(MappingInvoice, invoicesGone), MappingAsset, AssetIds(db), AssetIds(db1));
    KeepOutsideRefs(db.mappings, MappingInvoice, InvoiceIds(db), invoicesGone);
    forall i | i in db1.invoices
      ensures i.vendor != id
    {
      assert Outside(InvoiceId, invoicesGone)(i);
    }
    KeepRefs(db.invoices, Outside(InvoiceId, invoicesGone), InvoiceVendor, VendorIds(db), VendorIds(db));
    RefsWithout(db1.invoices, InvoiceVendor, VendorIds(db), id);
  }

  lemma DeleteVendorValid(db: Db, id: int)
    requires Valid(db)
    ensures Valid(DeleteVendor(db, id))
    ensures VendorIds(DeleteVendor(db, id)) == VendorIds(db) - {id}
    ensures forall a | a in DeleteVendor(db, id).assets :: a.vendor != id
    ensures forall i | i in DeleteVendor(db, id).invoices :: i.vendor != id
    ensures forall a | a in db.assets && a.vendor != id :: a in DeleteVendor(db, id).assets
  {
    var db1 := DropVendorInvoices(db, id);
    var gone := Dependents(db.assets, AssetVendor, id);
    var r := RemoveAssets(db1, gone);
    DropVendorInvoicesSound(db, id);
    RemoveAssetsSound(db1, gone);
    Detached(db.assets, AssetVendor, id);
    KeepRefs(db.assets, Outside(AssetId, gone), AssetVendor, VendorIds(db), VendorIds(db));
    RefsWithout(r.assets, AssetVendor, VendorIds(db), id);
    KeepRefs(db.assets, Outside(AssetId, gone), AssetCategory, CategoryIds(db), CategoryIds(r));
    KeepRefs(db.assets, Outside(AssetId, gone), AssetLocation, LocationIds(db), LocationIds(r));
    KeepRefs(db.assets, Outside(AssetId, gone), AssetStatus, StatusIds(db), StatusIds(r));
    OthersSurvive(db.assets, AssetVendor, id);
  }
}
