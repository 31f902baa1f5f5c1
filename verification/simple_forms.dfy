/**
 * The hand-written forms for assets, warranties, invoices, maintenance and
 * depreciation records. Each keeps a fixed value map, fills it from the
 * record being edited, rewrites one key per edit, adds the attachment
 * entries of its own file slots and picks a banner text on failure. The
 * asset form also validates its values before anything is sent.
 */
module SimpleForms {
  import opened Wrappers
  import opened Strings
  import opened JsValues
  import opened FormConfigs
  import opened FileUpload
  import opened Submission
  import opened DynamicForm

  // ---------------------------------------------------------------------
  // Value maps: the blank state and the edit-mode fill
  // ---------------------------------------------------------------------

  /** The value a key starts with: its listed default, else ''. */
  function Default(defaults: map<string, Value>, k: string): Value {
    if k in defaults then defaults[k] else Empty
  }

  /** `useState({...})`: every listed key at its default. */
  function BlankState(keys: set<string>, defaults: map<string, Value>): (r: Record)
    ensures r.Keys == keys
    ensures forall k | k in r :: r[k] == Default(defaults, k)
  {
    map k | k in keys :: Default(defaults, k)
  }

  /**
   * The edit-mode fill `{k: initialData.k || initialData.k_id || default, ...}`:
   * the `_id` fallback applies to the keys in `withId` only.
   */
  function EditFill(keys: set<string>, withId: set<string>, defaults: map<string, Value>, initial: Record): (r: Record)
    ensures r.Keys == keys
    ensures forall k | k in r && Truthy(Get(initial, k)) :: r[k] == initial[k]
    ensures forall k | k in r && !Truthy(Get(initial, k)) && k in withId && Truthy(Get(initial, k + "_id")) ::
      r[k] == initial[k + "_id"]
    ensures forall k | k in r && !Truthy(Get(initial, k)) && (k !in withId || !Truthy(Get(initial, k + "_id"))) ::
      r[k] == Default(defaults, k)
  {
    map k | k in keys ::
      Or(Get(initial, k), if k in withId then Or(Get(initial, k + "_id"), Default(defaults, k)) else Default(defaults, k))
  }

  /** The fill at one listed key, with and without the `_id` fallback. */
  lemma FillAt(keys: set<string>, withId: set<string>, defaults: map<string, Value>, initial: Record, k: string, id: string)
    requires k in keys && id == k + "_id"
    ensures k in withId ==> EditFill(keys, withId, defaults, initial)[k] == Or(Get(initial, k), Or(Get(initial, id), Default(defaults, k)))
    ensures k !in withId ==> EditFill(keys, withId, defaults, initial)[k] == Or(Get(initial, k), Default(defaults, k))
  {
  }

  /** The form's state after the edit effect: the fill when both `isEdit` and `initialData` are set, else the blank state. */
  function Start(blank: Record, keys: set<string>, withId: set<string>, defaults: map<string, Value>,
                 isEdit: bool, initialData: Option<Record>): (r: Record)
    ensures isEdit && initialData.Some? ==> r.Keys == keys
    ensures isEdit && initialData.Some? ==> forall k | k in keys ::
      r[k] == Or(Get(initialData.value, k),
                 if k in withId then Or(Get(initialData.value, k + "_id"), Default(defaults, k)) else Default(defaults, k))
    ensures !(isEdit && initialData.Some?) ==> r == blank
  {
    if isEdit && initialData.Some? then
      var r := EditFill(keys, withId, defaults, initialData.value);
      assert forall k | k in keys ::
        r[k] == Or(Get(initialData.value, k),
                   if k in withId then Or(Get(initialData.value, k + "_id"), Default(defaults, k)) else Default(defaults, k)) by {
        forall k | k in keys
          ensures r[k] == Or(Get(initialData.value, k),
                             if k in withId then Or(Get(initialData.value, k + "_id"), Default(defaults, k)) else Default(defaults, k))
        {
          FillAt(keys, withId, defaults, initialData.value, k, k + "_id");
        }
      }
      r
    else blank
  }

  /** No string occurs twice. */
  predicate NoRepeats(ms: seq<string>) {
    forall i, j | 0 <= i < j < |ms| :: ms[i] != ms[j]
  }

  /** The keys of a value-map literal, in the order the literal lists them. */
  function KeySet(keys: seq<string>): set<string> {
    set k | k in keys
  }

  /** A key list without repeats names as many keys as it is long. */
  lemma {:induction false} KeySetSize(keys: seq<string>)
    requires NoRepeats(keys)
    ensures |KeySet(keys)| == |keys|
    decreases |keys|
  {
    if keys != [] {
      var rest := keys[1..];
      assert NoRepeats(rest);
      KeySetSize(rest);
      assert KeySet(keys) == {keys[0]} + KeySet(rest);
      assert keys[0] !in KeySet(rest);
    }
  }

  const AssetKeyList: seq<string> := [
    "asset_code", "asset_name", "category", "location", "vendor", "status", "purchase_date",
    "cost", "end_of_life_date", "description", "serial_number", "model_number", "brand"]
  const AssetKeys: set<string> := KeySet(AssetKeyList)
  const AssetEditKeys: set<string> := AssetKeys + {"notes"}
  const AssetIdKeys: set<string> := {"category", "location", "vendor", "status"}

  const WarrantyKeyList: seq<string> := [
    "asset", "start_date", "end_date", "coverage_details", "warranty_provider", "contact_info"]
  const WarrantyKeys: set<string> := KeySet(WarrantyKeyList)
  const WarrantyEditKeys: set<string> := WarrantyKeys

  const InvoiceKeyList: seq<string> := [
    "invoice_number", "vendor", "invoice_date", "total_amount", "currency", "description"]
  const InvoiceKeys: set<string> := KeySet(InvoiceKeyList)
  const InvoiceDefaults: map<string, Value> := map["currency" := Str("USD")]

  const MaintenanceKeyList: seq<string> := [
    "asset", "maintenance_type", "performed_on", "performed_by", "cost", "remarks", "next_maintenance_date"]
  const MaintenanceKeys: set<string> := KeySet(MaintenanceKeyList)
  const MaintenanceDefaults: map<string, Value> := map["maintenance_type" := Str("preventive")]
  /** The maintenance edit fill as written: it lists `description`, a key the form never uses, in place of `remarks`. */
  const MaintenanceEditKeysAsWritten: set<string> := MaintenanceKeys - {"remarks"} + {"description"}
  /** The corrected maintenance edit fill: the blank state's keys. */
  const MaintenanceEditKeys: set<string> := MaintenanceKeys

  const DepreciationKeyList: seq<string> := ["asset", "method", "rate", "book_value", "calculated_on", "notes"]
  const DepreciationKeys: set<string> := KeySet(DepreciationKeyList)
  /** The depreciation edit fill as written: `description` in place of `notes`. */
  const DepreciationEditKeysAsWritten: set<string> := DepreciationKeys - {"notes"} + {"description"}
  /** The corrected depreciation edit fill: the blank state's keys. */
  const DepreciationEditKeys: set<string> := DepreciationKeys

  /** The asset form starts with thirteen keys, all blank. */
  lemma AssetBlankShape()
    ensures |BlankState(AssetKeys, map[])| == 13
    ensures forall k | k in BlankState(AssetKeys, map[]) :: BlankState(AssetKeys, map[])[k] == Empty
  {
    assert NoRepeats(AssetKeyList);
    KeySetSize(AssetKeyList);
  }

  /** The asset edit fill writes the blank keys plus `notes`; category and the like fall back to their `_id` field. */
  lemma AssetEditShape(initial: Record)
    ensures EditFill(AssetEditKeys, AssetIdKeys, map[], initial).Keys == BlankState(AssetKeys, map[]).Keys + {"notes"}
    ensures Get(EditFill(AssetEditKeys, AssetIdKeys, map[], initial), "category")
      == Or(Get(initial, "category"), Or(Get(initial, "category_id"), Empty))
    ensures Get(EditFill(AssetEditKeys, AssetIdKeys, map[], initial), "brand") == Or(Get(initial, "brand"), Empty)
  {
    assert AssetKeyList[2] == "category";
    assert "category" in AssetKeys;
    assert AssetKeyList[12] == "brand";
    assert "brand" in AssetKeys;
    assert "brand" !in AssetIdKeys;
    assert "category" + "_id" == "category_id";
    assert "brand" + "_id" == "brand_id";
    FillAt(AssetEditKeys, AssetIdKeys, map[], initial, "category", "category_id");
    FillAt(AssetEditKeys, AssetIdKeys, map[], initial, "brand", "brand_id");
  }

  /** The warranty form starts with six blank keys, and the edit fill writes the same six, the asset falling back to `asset_id`. */
  lemma WarrantyShape(initial: Record)
    ensures |BlankState(WarrantyKeys, map[])| == 6
    ensures EditFill(WarrantyEditKeys, {"asset"}, map[], initial).Keys == BlankState(WarrantyKeys, map[]).Keys
    ensures EditFill(WarrantyEditKeys, {"asset"}, map[], initial)["asset"]
      == Or(Get(initial, "asset"), Or(Get(initial, "asset_id"), Empty))
  {
    assert NoRepeats(WarrantyKeyList);
    KeySetSize(WarrantyKeyList);
    assert "asset" in WarrantyKeys by { assert WarrantyKeyList[0] == "asset"; }
    FillAt(WarrantyEditKeys, {"asset"}, map[], initial, "asset", "asset_id");
  }

  /** The invoice form starts with six keys: currency 'USD', the rest blank. */
  lemma InvoiceShape()
    ensures |BlankState(InvoiceKeys, InvoiceDefaults)| == 6
    ensures BlankState(InvoiceKeys, InvoiceDefaults)["currency"] == Str("USD")
    ensures forall k | k in InvoiceKeys && k != "currency" :: BlankState(InvoiceKeys, InvoiceDefaults)[k] == Empty
  {
    assert NoRepeats(InvoiceKeyList);
    KeySetSize(InvoiceKeyList);
    assert "currency" in InvoiceKeys by { assert InvoiceKeyList[4] == "currency"; }
  }

  /** The maintenance form starts with seven keys, the type 'preventive'; the edit fill defaults the type the same way. */
  lemma MaintenanceShape(initial: Record)
    ensures |BlankState(MaintenanceKeys, MaintenanceDefaults)| == 7
    ensures BlankState(MaintenanceKeys, MaintenanceDefaults)["maintenance_type"] == Str("preventive")
    ensures EditFill(MaintenanceEditKeys, {"asset"}, MaintenanceDefaults, initial)["maintenance_type"]
      == Or(Get(initial, "maintenance_type"), Str("preventive"))
    ensures EditFill(MaintenanceEditKeys, {"asset"}, MaintenanceDefaults, initial)["asset"]
      == Or(Get(initial, "asset"), Or(Get(initial, "asset_id"), Empty))
  {
    assert NoRepeats(MaintenanceKeyList);
    KeySetSize(MaintenanceKeyList);
    assert "maintenance_type" in MaintenanceKeys && "asset" in MaintenanceKeys by {
      assert MaintenanceKeyList[0] == "asset" && MaintenanceKeyList[1] == "maintenance_type";
    }
    assert "maintenance_type" != "asset";
    FillAt(MaintenanceEditKeys, {"asset"}, MaintenanceDefaults, initial, "asset", "asset_id");
    FillAt(MaintenanceEditKeys, {"asset"}, MaintenanceDefaults, initial, "maintenance_type", "maintenance_type_id");
  }

  /** The depreciation form starts with six blank keys; the edit fill falls back from the method to `method_id`. */
  lemma DepreciationShape(initial: Record)
    ensures |BlankState(DepreciationKeys, map[])| == 6
    ensures EditFill(DepreciationEditKeys, {"asset", "method"}, map[], initial)["method"]
      == Or(Get(initial, "method"), Or(Get(initial, "method_id"), Empty))
  {
    assert NoRepeats(DepreciationKeyList);
    KeySetSize(DepreciationKeyList);
    assert "method" in DepreciationKeys by { assert DepreciationKeyList[1] == "method"; }
    FillAt(DepreciationEditKeys, {"asset", "method"}, map[], initial, "method", "method_id");
  }

  /**
   * As written, editing a maintenance record drops its remarks: the fill has
   * no `remarks` key, so the remarks box shows '' and the payload carries no
   * remarks, whatever the record held.
   */
  lemma MaintenanceEditDropsRemarks(initial: Record)
    ensures var d := EditFill(MaintenanceEditKeysAsWritten, {"asset"}, MaintenanceDefaults, initial);
      "remarks" !in d && "description" in d && d.Keys != MaintenanceKeys
  {
  }

  /** Corrected: the edit fill writes exactly the blank state's keys and carries the record's remarks. */
  lemma MaintenanceEditKeepsRemarks(initial: Record)
    ensures var d := EditFill(MaintenanceEditKeys, {"asset"}, MaintenanceDefaults, initial);
      d.Keys == BlankState(MaintenanceKeys, MaintenanceDefaults).Keys && d["remarks"] == Or(Get(initial, "remarks"), Empty)
  {
  }

  /** As written, editing a depreciation record drops its notes. */
  lemma DepreciationEditDropsNotes(initial: Record)
    ensures var d := EditFill(DepreciationEditKeysAsWritten, {"asset", "method"}, map[], initial);
      "notes" !in d && "description" in d && d.Keys != DepreciationKeys
  {
  }

  /** Corrected: the edit fill writes exactly the blank state's keys and carries the record's notes. */
  lemma DepreciationEditKeepsNotes(initial: Record)
    ensures var d := EditFill(DepreciationEditKeys, {"asset", "method"}, map[], initial);
      d.Keys == BlankState(DepreciationKeys, map[]).Keys && d["notes"] == Or(Get(initial, "notes"), Empty)
  {
  }

  /** `handleChange`: `{...prev, [name]: value}`. */
  function SetField(d: Record, name: string, value: Value): (r: Record)
    ensures r.Keys == d.Keys + {name} && r[name] == value
    ensures forall k | k in d && k != name :: r[k] == d[k]
  {
    d[name := value]
  }

  // ---------------------------------------------------------------------
  // Payloads
  // ---------------------------------------------------------------------

  /** `if (file) { submitData.<slot>_data = ...; ... }` */
  function WithFile(p: Record, slot: string, file: Option<File>): Record {
    match file
    case None => p
    case Some(f) => AddFile(p, slot, f)
  }

  /** A one-slot attachment list builds the same payload as the generic form. */
  lemma OneSlot(formData: Record, a: FileField, fileData: map<string, Option<File>>)
    ensures Payload(formData, [a], fileData) == WithFile(formData, a.name, Chosen(fileData, a.name))
  {
    assert [a][..0] == [];
  }

  /** A two-slot attachment list builds the same payload as the generic form. */
  lemma TwoSlots(formData: Record, a: FileField, b: FileField, fileData: map<string, Option<File>>)
    ensures Payload(formData, [a, b], fileData)
      == WithFile(WithFile(formData, a.name, Chosen(fileData, a.name)), b.name, Chosen(fileData, b.name))
  {
    assert [a, b][..1] == [a];
    OneSlot(formData, a, fileData);
  }

  function AssetFiles(receipt: Option<File>, manual: Option<File>): map<string, Option<File>> {
    map["purchase_receipt" := receipt, "manual_document" := manual]
  }

  /**
   * The asset form's payload: the values, then the receipt's four entries,
   * then the manual's, each only when that file is chosen. It is the payload
   * the generic form builds for the asset template's two file slots.
   */
  function AssetPayload(formData: Record, receipt: Option<File>, manual: Option<File>): (r: Record)
    ensures r == Payload(formData, AssetConfig.fileFields, AssetFiles(receipt, manual))
    ensures PayloadSpec(r, formData, AssetConfig.fileFields, AssetFiles(receipt, manual))
  {
    var files := AssetFiles(receipt, manual);
    TwoSlots(formData, AssetConfig.fileFields[0], AssetConfig.fileFields[1], files);
    assert AssetConfig.fileFields == [AssetConfig.fileFields[0], AssetConfig.fileFields[1]];
    FileCeilings();
    assert Chosen(files, "purchase_receipt") == receipt && Chosen(files, "manual_document") == manual;
    PayloadMeetsSpec(formData, AssetConfig.fileFields, files);
    WithFile(WithFile(formData, "purchase_receipt", receipt), "manual_document", manual)
  }

  /** The warranty form's payload: the values plus the document's entries when one is chosen. */
  function WarrantyPayload(formData: Record, document: Option<File>): (r: Record)
    ensures r == Payload(formData, WarrantyConfig.fileFields, map["warranty_document" := document])
    ensures PayloadSpec(r, formData, WarrantyConfig.fileFields, map["warranty_document" := document])
  {
    var files := map["warranty_document" := document];
    FileCeilings();
    OneSlot(formData, WarrantyConfig.fileFields[0], files);
    PayloadMeetsSpec(formData, WarrantyConfig.fileFields, files);
    WithFile(formData, "warranty_document", document)
  }

  /** The invoice form's payload: the values plus the invoice file's entries when one is chosen. */
  function InvoicePayload(formData: Record, file: Option<File>): (r: Record)
    ensures r == Payload(formData, InvoiceConfig.fileFields, map["invoice_file" := file])
    ensures PayloadSpec(r, formData, InvoiceConfig.fileFields, map["invoice_file" := file])
  {
    var files := map["invoice_file" := file];
    FileCeilings();
    OneSlot(formData, InvoiceConfig.fileFields[0], files);
    PayloadMeetsSpec(formData, InvoiceConfig.fileFields, files);
    WithFile(formData, "invoice_file", file)
  }

  /** Without a chosen document the warranty payload is the value map itself; with one it gains exactly four keys. */
  lemma WarrantyDocumentKeys(formData: Record, document: Option<File>)
    ensures document.None? ==> WarrantyPayload(formData, document) == formData
    ensures document.Some? ==> WarrantyPayload(formData, document).Keys == formData.Keys + OwnKeys("warranty_document")
  {
    if document.Some? {
      AddFileHasEntries(formData, "warranty_document", document.value);
    }
  }

  // ---------------------------------------------------------------------
  // Submission of the four record forms
  // ---------------------------------------------------------------------

  /** What a submit does: the request sent, if any, and the banner text afterwards. */
  datatype Attempt = Attempt(request: Option<Request>, error: Value)

  /**
   * The shared `handleSubmit` shape of the warranty, maintenance and
   * depreciation forms: update by the record's id when both `isEdit` and
   * `initialData` are set, else create; on failure the banner is the
   * server's detail, else "Failed to update|create <noun>", the verb following
   * `isEdit` alone.
   */
  function SubmitRecord(payload: Record, isEdit: bool, initialData: Option<Record>, idKey: string, noun: string, outcome: Outcome): (a: Attempt)
    ensures a.request.Some? && a.request.value.payload == payload
    ensures a.request.value.Update? <==> isEdit && initialData.Some?
    ensures a.request.value.Update? ==> a.request.value.id == Get(initialData.value, idKey)
    ensures outcome.Succeeded? ==> a.error == Empty
    ensures outcome.Failed? ==> Truthy(a.error)
    ensures outcome.Failed? && Truthy(outcome.detail) ==> a.error == outcome.detail
  {
    var editing := if isEdit then initialData else None;
    var request := ChooseRequest(editing, idKey, payload);
    match outcome
    case Succeeded => Attempt(Some(request), Empty)
    case Failed(detail) => Attempt(Some(request), ErrorText(detail, "Failed to " + Verb(isEdit) + " " + noun))
  }

  /** The warranty form's failure texts without a server detail. */
  lemma WarrantyFallbacks(payload: Record, initialData: Option<Record>)
    ensures SubmitRecord(payload, true, initialData, "warranty_id", "warranty", Failed(Null)).error == Str("Failed to update warranty")
    ensures SubmitRecord(payload, false, initialData, "warranty_id", "warranty", Failed(Null)).error == Str("Failed to create warranty")
  {
    var updating := SubmitRecord(payload, true, initialData, "warranty_id", "warranty", Failed(Null));
    var creating := SubmitRecord(payload, false, initialData, "warranty_id", "warranty", Failed(Null));
    assert updating.error == Str("Failed to " + Verb(true) + " " + "warranty");
    assert creating.error == Str("Failed to " + Verb(false) + " " + "warranty");
    assert "Failed to " + Verb(true) + " " + "warranty" == "Failed to update warranty";
    assert "Failed to " + Verb(false) + " " + "warranty" == "Failed to create warranty";
  }

  /** The maintenance form's failure text when editing without a server detail. */
  lemma MaintenanceFallback(payload: Record, initialData: Option<Record>)
    ensures SubmitRecord(payload, true, initialData, "maintenance_id", "maintenance record", Failed(Null)).error
      == Str("Failed to update maintenance record")
  {
    var a := SubmitRecord(payload, true, initialData, "maintenance_id", "maintenance record", Failed(Null));
    var fallback := "Failed to " + Verb(true) + " " + "maintenance record";
    assert a.error == Str(fallback);
    assert fallback == "Failed to update maintenance record";
  }

  /** The depreciation form's failure text when creating without a server detail. */
  lemma DepreciationFallback(payload: Record, initialData: Option<Record>)
    ensures SubmitRecord(payload, false, initialData, "depreciation_id", "depreciation record", Failed(Null)).error
      == Str("Failed to create depreciation record")
  {
    var a := SubmitRecord(payload, false, initialData, "depreciation_id", "depreciation record", Failed(Null));
    var fallback := "Failed to " + Verb(false) + " " + "depreciation record";
    assert a.error == Str(fallback);
    assert fallback == "Failed to create depreciation record";
  }

  /** The invoice form always creates; its fallback is 'Failed to create invoice'. */
  function SubmitInvoice(formData: Record, file: Option<File>, outcome: Outcome): (a: Attempt)
    ensures a.request == Some(Create(InvoicePayload(formData, file)))
    ensures outcome.Failed? ==> a.error == (if Truthy(outcome.detail) then outcome.detail else Str("Failed to create invoice"))
    ensures outcome.Succeeded? ==> a.error == Empty
  {
    SubmitRecord(InvoicePayload(formData, file), false, None, "invoice_id", "invoice", outcome)
  }

  // ---------------------------------------------------------------------
  // The asset form: validation and submission
  // ---------------------------------------------------------------------

  const CodeRequired := "Asset Code is required"
  const NameRequired := "Asset Name is required"
  const CategoryRequired := "Category is required"
  const LocationRequired := "Location is required"
  const VendorRequired := "Vendor is required"
  const StatusRequired := "Status is required"
  const PurchaseDateRequired := "Purchase Date is required"
  const CostNotPositive := "Cost must be greater than 0"
  const EndBeforePurchase := "End of Life Date must be after Purchase Date"
  const CostInvalid := "Cost must be a valid positive number"

  /** The messages of `validateForm`, in the order it checks them. */
  const Messages: seq<string> := [
    CodeRequired, NameRequired, CategoryRequired, LocationRequired, VendorRequired,
    StatusRequired, PurchaseDateRequired, CostNotPositive, EndBeforePurchase, CostInvalid]

  /** `!v?.trim()`: missing, or a string of white space only. */
  predicate BlankText(v: Value) {
    match v
    case Str(s) => Trim(s) == ""
    case _ => !Truthy(v)
  }

  /**
   * The outcome of each check of `validateForm`, in its order: `true` when the
   * check fails. Dates are read through `day`, `None` standing for an invalid
   * date, which compares false with everything.
   */
  function Checks(d: Record, day: Value -> Option<int>): (f: seq<bool>)
    ensures |f| == |Messages|
  {
    var cost := Get(d, "cost");
    var purchase := Get(d, "purchase_date");
    var end := Get(d, "end_of_life_date");
    [ BlankText(Get(d, "asset_code")),
      BlankText(Get(d, "asset_name")),
      !Truthy(Get(d, "category")),
      !Truthy(Get(d, "location")),
      !Truthy(Get(d, "vendor")),
      !Truthy(Get(d, "status")),
      !Truthy(purchase),
      !Truthy(cost) || (NumberOf(cost).Some? && NumberOf(cost).value <= 0.0),
      Truthy(purchase) && Truthy(end) && day(end).Some? && day(purchase).Some? && day(end).value <= day(purchase).value,
      Truthy(cost) && (NumberOf(cost).None? || NumberOf(cost).value < 0.0) ]
  }

  /** The ten messages are pairwise different. */
  lemma MessagesDistinct()
    ensures NoRepeats(Messages)
  {
  }

  /** The first index of `m` in `ms`, or `|ms|`. */
  function Position(ms: seq<string>, m: string): (k: nat)
    ensures k <= |ms| && (k < |ms| ==> ms[k] == m)
    ensures forall j | 0 <= j < k :: ms[j] != m
  {
    if ms == [] then 0 else if ms[0] == m then 0 else 1 + Position(ms[1..], m)
  }

  /** In a list without repeats, each element's position is its index. */
  lemma PositionOf(ms: seq<string>, i: int)
    requires NoRepeats(ms) && 0 <= i < |ms|
    ensures Position(ms, ms[i]) == i
  {
  }

  /** The messages of the failing checks from `k` on, pushed in check order. */
  function Collect(ms: seq<string>, failing: seq<bool>, k: nat): (r: seq<string>)
    requires |failing| == |ms| && k <= |ms|
    ensures |r| <= |ms| - k
    decreases |ms| - k
  {
    if k == |ms| then [] else (if failing[k] then [ms[k]] else []) + Collect(ms, failing, k + 1)
  }

  /** Every message of `r` is the message of a failing check at or after `k`. */
  predicate FromFailing(ms: seq<string>, failing: seq<bool>, k: nat, r: seq<string>)
    requires |failing| == |ms|
  {
    forall n | 0 <= n < |r| ::
      && k <= Position(ms, r[n]) < |ms|
      && r[n] == ms[Position(ms, r[n])]
      && failing[Position(ms, r[n])]
  }

  /** The messages of `r` appear in the order of their checks. */
  predicate InCheckOrder(ms: seq<string>, r: seq<string>) {
    forall a, b | 0 <= a < b < |r| :: Position(ms, r[a]) < Position(ms, r[b])
  }

  /** Every collected message comes from a failing check at or after `k`. */
  lemma {:induction false} CollectSound(ms: seq<string>, failing: seq<bool>, k: nat)
    requires |failing| == |ms| && NoRepeats(ms) && k <= |ms|
    ensures FromFailing(ms, failing, k, Collect(ms, failing, k))
    decreases |ms| - k
  {
    if k < |ms| {
      CollectSound(ms, failing, k + 1);
      PositionOf(ms, k);
      var rest := Collect(ms, failing, k + 1);
      if failing[k] {
        var r := [ms[k]] + rest;
        assert Collect(ms, failing, k) == r;
        forall n | 0 <= n < |r|
          ensures k <= Position(ms, r[n]) < |ms| && r[n] == ms[Position(ms, r[n])] && failing[Position(ms, r[n])]
        {
          if n > 0 {
            assert r[n] == rest[n - 1];
          }
        }
      } else {
        assert Collect(ms, failing, k) == rest;
      }
    }
  }

  /** A message placed before messages of later checks keeps the check order. */
  lemma ConsInCheckOrder(ms: seq<string>, m: string, rest: seq<string>, k: nat)
    requires Position(ms, m) == k && InCheckOrder(ms, rest)
    requires forall n | 0 <= n < |rest| :: k < Position(ms, rest[n])
    ensures InCheckOrder(ms, [m] + rest)
  {
    var r := [m] + rest;
    forall a, b | 0 <= a < b < |r|
      ensures Position(ms, r[a]) < Position(ms, r[b])
    {
      assert r[b] == rest[b - 1];
      if a > 0 {
        assert r[a] == rest[a - 1];
      }
    }
  }

  /** Every failing check at or after `k` contributes its message. */
  lemma {:induction false} CollectComplete(ms: seq<string>, failing: seq<bool>, k: nat)
    requires |failing| == |ms| && k <= |ms|
    ensures forall i | k <= i < |ms| && failing[i] :: ms[i] in Collect(ms, failing, k)
    decreases |ms| - k
  {
    if k < |ms| {
      CollectComplete(ms, failing, k + 1);
    }
  }

  /** The collected messages keep the order of their checks. */
  lemma {:induction false} CollectOrdered(ms: seq<string>, failing: seq<bool>, k: nat)
    requires |failing| == |ms| && NoRepeats(ms) && k <= |ms|
    ensures InCheckOrder(ms, Collect(ms, failing, k))
    decreases |ms| - k
  {
    if k < |ms| {
      CollectOrdered(ms, failing, k + 1);
      CollectSound(ms, failing, k + 1);
      PositionOf(ms, k);
      var rest := Collect(ms, failing, k + 1);
      if failing[k] {
        assert Collect(ms, failing, k) == [ms[k]] + rest;
        assert forall n | 0 <= n < |rest| :: k < Position(ms, rest[n]);
        ConsInCheckOrder(ms, ms[k], rest, k);
      } else {
        assert Collect(ms, failing, k) == rest;
      }
    }
  }

  /**
   * `validateForm`: a message appears exactly when its check fails, and the
   * messages keep the order of the checks.
   */
  function ValidateAsset(d: Record, day: Value -> Option<int>): (r: seq<string>)
    ensures forall i | 0 <= i < |Messages| :: Messages[i] in r <==> Checks(d, day)[i]
    ensures forall m | m in r :: m in Messages
    ensures forall a, b | 0 <= a < b < |r| :: Position(Messages, r[a]) < Position(Messages, r[b])
  {
    MessagesDistinct();
    var r := Collect(Messages, Checks(d, day), 0);
    CollectSound(Messages, Checks(d, day), 0);
    CollectComplete(Messages, Checks(d, day), 0);
    CollectOrdered(Messages, Checks(d, day), 0);
    forall i | 0 <= i < |Messages| && Messages[i] in r
      ensures Checks(d, day)[i]
    {
      var n :| 0 <= n < |r| && r[n] == Messages[i];
      PositionOf(Messages, i);
    }
    r
  }

  /** A non-numeric cost draws only the second cost message. */
  lemma NonNumericCost(d: Record, day: Value -> Option<int>)
    requires Truthy(Get(d, "cost")) && NumberOf(Get(d, "cost")).None?
    ensures CostInvalid in ValidateAsset(d, day) && CostNotPositive !in ValidateAsset(d, day)
  {
    assert Messages[7] == CostNotPositive && Messages[9] == CostInvalid;
  }

  /** `Number('')` is 0, so a blank cost is never negative. */
  lemma BlankIsZero()
    ensures NumberOf(Empty) == Some(0.0)
  {
    assert Trim("") == "";
  }

  /** A value that reads as a negative number is truthy. */
  lemma NegativeIsTruthy(v: Value)
    requires NumberOf(v).Some? && NumberOf(v).value < 0.0
    ensures Truthy(v)
  {
    if v == Empty {
      BlankIsZero();
    }
  }

  /** A negative cost draws both cost messages. */
  lemma NegativeCost(d: Record, day: Value -> Option<int>)
    requires NumberOf(Get(d, "cost")).Some? && NumberOf(Get(d, "cost")).value < 0.0
    ensures CostInvalid in ValidateAsset(d, day) && CostNotPositive in ValidateAsset(d, day)
  {
    assert Messages[7] == CostNotPositive && Messages[9] == CostInvalid;
    NegativeIsTruthy(Get(d, "cost"));
  }

  /** The end-of-life rule is checked only when both dates are present. */
  lemma EndOfLifeNeedsBothDates(d: Record, day: Value -> Option<int>)
    requires !Truthy(Get(d, "purchase_date")) || !Truthy(Get(d, "end_of_life_date"))
    ensures EndBeforePurchase !in ValidateAsset(d, day)
  {
    assert Messages[8] == EndBeforePurchase;
  }

  /** `'Please fix the following errors:\n• ' + errors.join('\n• ')` */
  function Banner(errors: seq<string>): string {
    "Please fix the following errors:\n\U{2022} " + Join(errors, "\n\U{2022} ")
  }

  /** How the asset request ended; the three texts are '' when absent. */
  datatype AssetOutcome = AssetSaved | AssetFailed(detail: string, message: string, errorMessage: string)

  /** The asset form's failure text: detail, else message, else the exception's own message, else the generic sentence. */
  function AssetFailureText(isEdit: bool, detail: string, message: string, errorMessage: string): (r: string)
    ensures detail != "" ==> r == "Failed to " + Verb(isEdit) + " asset: " + detail
    ensures detail == "" && message != "" ==> r == "Failed to " + Verb(isEdit) + " asset: " + message
    ensures detail == "" && message == "" && errorMessage != "" ==> r == "Failed to " + Verb(isEdit) + " asset: " + errorMessage
    ensures detail == message == errorMessage == "" ==>
      r == "Failed to " + Verb(isEdit) + " asset. Please check all required fields and try again."
  {
    var text := if detail != "" then detail else if message != "" then message else errorMessage;
    if text != "" then "Failed to " + Verb(isEdit) + " asset: " + text
    else "Failed to " + Verb(isEdit) + " asset. Please check all required fields and try again."
  }

  /**
   * The asset form's `handleSubmit`: any validation message blocks the
   * request and shows the bulleted banner; otherwise the payload with both
   * attachment slots is created or updated by `asset_id`.
   */
  function SubmitAsset(d: Record, day: Value -> Option<int>, isEdit: bool, initialData: Option<Record>,
                       receipt: Option<File>, manual: Option<File>, outcome: AssetOutcome): (a: Attempt)
    ensures ValidateAsset(d, day) != [] ==> a.request.None? && a.error == Str(Banner(ValidateAsset(d, day)))
    ensures ValidateAsset(d, day) == [] ==> a.request.Some? && a.request.value.payload == AssetPayload(d, receipt, manual)
    ensures a.request.Some? ==> (a.request.value.Update? <==> isEdit && initialData.Some?)
    ensures a.request.Some? && a.request.value.Update? ==> a.request.value.id == Get(initialData.value, "asset_id")
    ensures a.request.Some? && outcome.AssetSaved? ==> a.error == Empty
    ensures a.request.Some? && outcome.AssetFailed? ==> Truthy(a.error)
    ensures a.request.Some? && outcome.AssetFailed? ==>
      a.error == Str(AssetFailureText(isEdit, outcome.detail, outcome.message, outcome.errorMessage))
  {
    var errors := ValidateAsset(d, day);
    if errors != [] then Attempt(None, Str(Banner(errors)))
    else
      var editing := if isEdit then initialData else None;
      var request := ChooseRequest(editing, "asset_id", AssetPayload(d, receipt, manual));
      match outcome
      case AssetSaved => Attempt(Some(request), Empty)
      case AssetFailed(detail, message, errorMessage) =>
        Attempt(Some(request), Str(AssetFailureText(isEdit, detail, message, errorMessage)))
  }

  /**
   * The request is an update only when a record was given, while the failure
   * text follows `isEdit` alone: an edit without a record sends a create and
   * reports that the update failed.
   */
  lemma EditWithoutRecordCreates(d: Record, day: Value -> Option<int>, receipt: Option<File>, manual: Option<File>,
                                 detail: string)
    requires ValidateAsset(d, day) == [] && detail != ""
    ensures var a := SubmitAsset(d, day, true, None, receipt, manual, AssetFailed(detail, "", ""));
      && a.request.Some? && a.request.value.Create?
      && a.error == Str("Failed to update asset: " + detail)
  {
    var a := SubmitAsset(d, day, true, None, receipt, manual, AssetFailed(detail, "", ""));
    assert a.request.value == ChooseRequest(None, "asset_id", AssetPayload(d, receipt, manual));
    UpdateFailureText(detail);
  }

  /** The failure text of an edit whose answer carries a `detail`. */
  lemma UpdateFailureText(detail: string)
    requires detail != ""
    ensures AssetFailureText(true, detail, "", "") == "Failed to update asset: " + detail
  {
    var prefix := "Failed to " + Verb(true) + " asset: ";
    assert prefix == "Failed to update asset: ";
  }

  /** A blank asset code never reaches the server: the banner lists the code message. */
  lemma BlankCodeBlocks(d: Record, day: Value -> Option<int>, isEdit: bool, initialData: Option<Record>,
                        receipt: Option<File>, manual: Option<File>, outcome: AssetOutcome)
    requires BlankText(Get(d, "asset_code"))
    ensures CodeRequired in ValidateAsset(d, day)
    ensures SubmitAsset(d, day, isEdit, initialData, receipt, manual, outcome).request.None?
  {
    assert Checks(d, day)[0];
    assert Messages[0] == CodeRequired;
  }

  /** The blank asset form is such a form: its code and purchase date are blank. */
  lemma BlankAssetForm()
    ensures BlankText(Get(BlankState(AssetKeys, map[]), "asset_code"))
    ensures !Truthy(Get(BlankState(AssetKeys, map[]), "purchase_date"))
  {
    assert "asset_code" in AssetKeys && "purchase_date" in AssetKeys by {
      assert AssetKeyList[0] == "asset_code" && AssetKeyList[6] == "purchase_date";
    }
  }
}
