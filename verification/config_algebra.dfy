/**
 * How the asset, warranty, maintenance, depreciation and invoice forms derive
 * their effective configuration from the static templates: select options
 * are filled from fetched master lists, and the smart asset form splices in
 * the extension fields of the selected category just before 'description'.
 * Every derivation starts from the untouched template.
 */
module ConfigAlgebra {
  import opened Wrappers
  import opened JsValues
  import opened FormConfigs
  import opened Submission
  import opened Strings

  /** A fetched master row, reduced to its numeric id and display name. */
  datatype Named = Named(id: int, name: string)

  /** A fetched asset row as the option builders see it. */
  datatype AssetRef = AssetRef(assetId: int, assetName: string, assetCode: string)

  /** `rows.map(x => ({ value: x.<id>, label: x.<name> }))` */
  function NamedOptions(rows: seq<Named>): (r: seq<SelectOption>)
    ensures |r| == |rows|
    ensures forall i | 0 <= i < |rows| :: r[i] == SelectOption(Num(rows[i].id as real), rows[i].name)
  {
    seq(|rows|, i requires 0 <= i < |rows| => SelectOption(Num(rows[i].id as real), rows[i].name))
  }

  /** `assets.map(a => ({ value: a.asset_id, label: `${a.asset_name} (${a.asset_code})` }))` */
  function AssetOptions(assets: seq<AssetRef>): (r: seq<SelectOption>)
    ensures |r| == |assets|
    ensures forall i | 0 <= i < |assets| ::
      r[i] == SelectOption(Num(assets[i].assetId as real), assets[i].assetName + " (" + assets[i].assetCode + ")")
  {
    seq(|assets|, i requires 0 <= i < |assets| =>
      SelectOption(Num(assets[i].assetId as real), assets[i].assetName + " (" + assets[i].assetCode + ")"))
  }

  /** One step of the `fields.map(...)`: a field named in `subst` gets those options, any other passes through. */
  function SubstituteOne(f: Field, subst: map<string, seq<SelectOption>>): Field {
    if f.name in subst then f.(options := Some(subst[f.name])) else f
  }

  /**
   * `fields.map(field => field.name === x ? { ...field, options } : field)`:
   * a new sequence of the same length and order, in which only the named
   * fields differ from the template, and only in their options.
   */
  function Substitute(fields: seq<Field>, subst: map<string, seq<SelectOption>>): (r: seq<Field>)
    ensures |r| == |fields|
    ensures forall i | 0 <= i < |fields| && fields[i].name !in subst :: r[i] == fields[i]
    ensures forall i | 0 <= i < |fields| && fields[i].name in subst ::
      r[i] == fields[i].(options := Some(subst[fields[i].name]))
    ensures Names(r) == Names(fields)
  {
    seq(|fields|, i requires 0 <= i < |fields| => SubstituteOne(fields[i], subst))
  }

  /** Filling options twice with the same lists is the same as filling them once. */
  lemma SubstituteIdempotent(fields: seq<Field>, subst: map<string, seq<SelectOption>>)
    ensures Substitute(Substitute(fields, subst), subst) == Substitute(fields, subst)
  {
  }

  /** `fields.findIndex(field => field.name === name)` */
  function FindIndex(fields: seq<Field>, name: string): (r: int)
    ensures -1 <= r < |fields|
    ensures r == -1 <==> name !in Names(fields)
    ensures r != -1 ==> fields[r].name == name
    ensures forall j | 0 <= j < r || (r == -1 && 0 <= j < |fields|) :: fields[j].name != name
  {
    if |fields| == 0 then -1
    else if fields[0].name == name then 0
    else
      var k := FindIndex(fields[1..], name);
      if k == -1 then -1 else k + 1
  }

  /**
   * `splice(findIndex('description'), 0, ...ext)`, or `push(...ext)` when
   * there is no description: the extension is inserted, contiguously and in
   * order, immediately before the first 'description' field, or at the end.
   */
  function SpliceBeforeDescription(fields: seq<Field>, ext: seq<Field>): (r: seq<Field>)
    ensures |r| == |fields| + |ext|
    ensures exists k | 0 <= k <= |fields| ::
      && r == fields[..k] + ext + fields[k..]
      && (forall j | 0 <= j < k :: fields[j].name != "description")
      && (k < |fields| <==> "description" in Names(fields))
  {
    var k := FindIndex(fields, "description");
    if k == -1 then
      assert fields[..|fields|] + ext + fields[|fields|..] == fields + ext;
      fields + ext
    else
      fields[..k] + ext + fields[k..]
  }

  /** The substitution the asset forms apply: category, location, vendor and status. */
  function AssetSubstitution(categories: seq<Named>, locations: seq<Named>, vendors: seq<Named>, statuses: seq<Named>): map<string, seq<SelectOption>> {
    map["category" := NamedOptions(categories), "location" := NamedOptions(locations),
        "vendor" := NamedOptions(vendors), "status" := NamedOptions(statuses)]
  }

  /**
   * The `TypeError` a label naming an inherited method raises when the
   * method is spread into `splice` or `push`; its message depends on the
   * JavaScript engine, so only the error's type is kept.
   */
  const NotIterable := "TypeError"

  /**
   * The smart asset form's `dynamicConfig` fields: fetched options on the four
   * select fields, then the extension fields of the selected category label.
   * A label that names an inherited method with a positive `length` makes
   * the spread throw during rendering.
   */
  function SmartAssetFields(categories: seq<Named>, locations: seq<Named>, vendors: seq<Named>, statuses: seq<Named>, selected: string): (r: Result<seq<Field>, string>)
    ensures r.Err? <==> selected != "" && SpreadThrows(selected)
    ensures r.Err? ==> r.error == NotIterable
    ensures r.Ok? ==> |r.value| == |AssetConfig.fields| + |CategoryFields(selected)|
  {
    var fields := Substitute(AssetConfig.fields, AssetSubstitution(categories, locations, vendors, statuses));
    if selected == "" then Ok(fields)
    else
      match CategoryLookup(selected)
      case Own(ext) => Ok(SpliceBeforeDescription(fields, ext))
      case Inherited(arity) => if arity > 0 then Err(NotIterable) else Ok(fields)
      case Prototype => Ok(fields)
      case Missing => Ok(fields)
  }

  /** `AddAssetForm.getDynamicConfig`: the same four substitutions and no extension fields. */
  function AddAssetConfig(categories: seq<Named>, locations: seq<Named>, vendors: seq<Named>, statuses: seq<Named>): (r: Config)
    ensures r.title == AssetConfig.title && r.fileFields == AssetConfig.fileFields
    ensures |r.fields| == |AssetConfig.fields| && Names(r.fields) == Names(AssetConfig.fields)
    ensures forall j | 0 <= j < |r.fields| :: r.fields[j].name == AssetConfig.fields[j].name
  {
    AssetConfig.(fields := Substitute(AssetConfig.fields, AssetSubstitution(categories, locations, vendors, statuses)))
  }

  /**
   * Without a selected category, or with a label that has no extension, the
   * smart form shows exactly the add form's fields, unless the label names
   * an inherited method whose spread throws.
   */
  lemma SmartWithoutCategory(categories: seq<Named>, locations: seq<Named>, vendors: seq<Named>, statuses: seq<Named>, selected: string)
    requires selected !in ExtendedCategories
    ensures SmartAssetFields(categories, locations, vendors, statuses, selected) ==
      if SpreadThrows(selected) then Err(NotIterable) else Ok(AddAssetConfig(categories, locations, vendors, statuses).fields)
  {
  }

  /**
   * Labels that name `Object.prototype` members: "constructor" (length 1)
   * makes the spread throw and the form fail to render, while "toString"
   * (length 0) and "__proto__" (no length) fail the length test and show
   * the plain fields. Any category name can be chosen: see `ChoosingCategoryById`.
   */
  lemma PrototypeLabels(categories: seq<Named>, locations: seq<Named>, vendors: seq<Named>, statuses: seq<Named>)
    ensures SmartAssetFields(categories, locations, vendors, statuses, "constructor") == Err(NotIterable)
    ensures SmartAssetFields(categories, locations, vendors, statuses, "toString") == Ok(AddAssetConfig(categories, locations, vendors, statuses).fields)
    ensures SmartAssetFields(categories, locations, vendors, statuses, "__proto__") == Ok(AddAssetConfig(categories, locations, vendors, statuses).fields)
  {
    PrototypeNames();
    SmartWithoutCategory(categories, locations, vendors, statuses, "constructor");
    SmartWithoutCategory(categories, locations, vendors, statuses, "toString");
    SmartWithoutCategory(categories, locations, vendors, statuses, "__proto__");
  }

  /**
   * With a known category the result is the add form's fields with the
   * extension inserted immediately before the last one, 'description'.
   */
  lemma SmartWithCategory(categories: seq<Named>, locations: seq<Named>, vendors: seq<Named>, statuses: seq<Named>, selected: string)
    requires selected in ExtendedCategories
    ensures var base := AddAssetConfig(categories, locations, vendors, statuses).fields;
      SmartAssetFields(categories, locations, vendors, statuses, selected)
        == Ok(base[..|base| - 1] + CategoryFields(selected) + [base[|base| - 1]])
  {
    var base := AddAssetConfig(categories, locations, vendors, statuses).fields;
    var k := |base| - 1;
    DescriptionIsLast();
    SpliceBeforeLast(base, CategoryFields(selected));
  }

  /** When the only 'description' is the last field, the extension goes immediately before it. */
  lemma SpliceBeforeLast(fields: seq<Field>, ext: seq<Field>)
    requires |fields| > 0 && fields[|fields| - 1].name == "description"
    requires forall j | 0 <= j < |fields| - 1 :: fields[j].name != "description"
    ensures SpliceBeforeDescription(fields, ext) == fields[..|fields| - 1] + ext + [fields[|fields| - 1]]
  {
    var k := |fields| - 1;
    assert "description" in Names(fields) by {
      assert Names(fields)[k] == fields[k].name;
    }
    assert FindIndex(fields, "description") == k;
    assert fields[k..] == [fields[k]];
  }

  /** A field sequence with the asset template's names carries no Vehicles extension name. */
  lemma AssetNamesNotVehicles(base: seq<Field>)
    requires Names(base) == Names(AssetConfig.fields)
    ensures forall i | 0 <= i < |base| :: base[i].name !in Names(VehiclesFields)
  {
    ExtensionsDisjointFromAsset("Vehicles");
    forall i | 0 <= i < |base|
      ensures base[i].name !in Names(VehiclesFields)
    {
      assert base[i].name == Names(AssetConfig.fields)[i];
    }
  }

  /** Names absent from every part of a concatenation are absent from the whole. */
  lemma ConcatAvoids(a: seq<Field>, e: seq<Field>, b: seq<Field>, avoid: seq<string>)
    requires forall i | 0 <= i < |a| :: a[i].name !in avoid
    requires forall i | 0 <= i < |e| :: e[i].name !in avoid
    requires forall i | 0 <= i < |b| :: b[i].name !in avoid
    ensures forall i | 0 <= i < |a + e + b| :: (a + e + b)[i].name !in avoid
  {
  }

  /**
   * The derivation depends on the current selection alone: after choosing
   * Vehicles and then Electronics, no Vehicles field remains and the
   * Electronics fields appear once.
   */
  lemma SwitchingCategoryReplaces(categories: seq<Named>, locations: seq<Named>, vendors: seq<Named>, statuses: seq<Named>)
    ensures SmartAssetFields(categories, locations, vendors, statuses, "Electronics").Ok?
    ensures var r := SmartAssetFields(categories, locations, vendors, statuses, "Electronics").value;
      && (forall i | 0 <= i < |r| :: r[i].name !in Names(VehiclesFields))
      && |r| == |AssetConfig.fields| + 2
  {
    var base := AddAssetConfig(categories, locations, vendors, statuses).fields;
    var n := |base|;
    SmartWithCategory(categories, locations, vendors, statuses, "Electronics");
    AssetNamesNotVehicles(base);
    ElectronicsAvoidsVehicles();
    ConcatAvoids(base[..n - 1], CategoryFields("Electronics"), [base[n - 1]], Names(VehiclesFields));
  }

  /** The Electronics extension has two fields, neither named like a Vehicles field. */
  lemma ElectronicsAvoidsVehicles()
    ensures |CategoryFields("Electronics")| == 2
    ensures forall i | 0 <= i < |CategoryFields("Electronics")| :: CategoryFields("Electronics")[i].name !in Names(VehiclesFields)
  {
    var avoid := Names(VehiclesFields);
    assert avoid == ["license_plate", "mileage", "fuel_type"];
    assert forall i | 0 <= i < |ElectronicsFields| :: ElectronicsFields[i].name !in avoid;
  }

  /** The option lists of the smart and add asset forms follow the fetched lists, in order. */
  lemma AssetOptionsFollowFetched(categories: seq<Named>, locations: seq<Named>, vendors: seq<Named>, statuses: seq<Named>)
    ensures var c := AddAssetConfig(categories, locations, vendors, statuses);
      && c.fields[2].options == Some(NamedOptions(categories))
      && c.fields[3].options == Some(NamedOptions(locations))
      && c.fields[4].options == Some(NamedOptions(vendors))
      && c.fields[7].options == Some(NamedOptions(statuses))
  {
  }

  /** `handleCategoryChange`: the name of the first category whose id loosely equals the chosen value, else ''. */
  function SelectedCategory(categories: seq<Named>, value: Value): (r: string)
    ensures (forall i | 0 <= i < |categories| :: !LooseEquals(Num(categories[i].id as real), value)) ==> r == ""
    ensures (exists i | 0 <= i < |categories| :: LooseEquals(Num(categories[i].id as real), value)) ==>
      exists i | 0 <= i < |categories| ::
        && LooseEquals(Num(categories[i].id as real), value)
        && (forall j | 0 <= j < i :: !LooseEquals(Num(categories[j].id as real), value))
        && r == categories[i].name
  {
    if |categories| == 0 then ""
    else if LooseEquals(Num(categories[0].id as real), value) then categories[0].name
    else
      var r := SelectedCategory(categories[1..], value);
      assert forall i | 1 <= i < |categories| :: categories[i] == categories[1..][i - 1];
      r
  }

  /** A category id chosen in the select, arriving as its decimal text, selects that category's name. */
  lemma ChoosingCategoryById(categories: seq<Named>, i: nat)
    requires i < |categories| && categories[i].id >= 0
    requires forall j | 0 <= j < |categories| && j != i :: categories[j].id != categories[i].id
    ensures SelectedCategory(categories, Str(NatToString(categories[i].id))) == categories[i].name
  {
    var v := Str(NatToString(categories[i].id));
    ToNumberNatToString(categories[i].id);
    assert LooseEquals(Num(categories[i].id as real), v);
    forall j | 0 <= j < |categories| && j != i
      ensures !LooseEquals(Num(categories[j].id as real), v)
    {
      assert categories[j].id as real != categories[i].id as real;
    }
  }

  /** The `onFieldChange` hook of the smart form: only the 'category' field re-selects. */
  function CategoryHook(selected: string, categories: seq<Named>, fieldName: string, value: Value): (r: string)
    ensures fieldName != "category" ==> r == selected
    ensures fieldName == "category" ==> r == SelectedCategory(categories, value)
  {
    if fieldName == "category" then SelectedCategory(categories, value) else selected
  }

  /** `AddWarrantyForm.getDynamicConfig`: only 'asset' receives options. */
  function AddWarrantyConfig(assets: seq<AssetRef>): (r: Config)
    ensures r.title == WarrantyConfig.title && r.fileFields == WarrantyConfig.fileFields
    ensures |r.fields| == |WarrantyConfig.fields|
    ensures r.fields[0] == WarrantyConfig.fields[0].(options := Some(AssetOptions(assets)))
    ensures forall i | 1 <= i < |r.fields| :: r.fields[i] == WarrantyConfig.fields[i]
  {
    WarrantyConfig.(fields := Substitute(WarrantyConfig.fields, map["asset" := AssetOptions(assets)]))
  }

  /** `AddMaintenanceForm.getDynamicConfig`: only 'asset' receives options; maintenance_type keeps its static six. */
  function AddMaintenanceConfig(assets: seq<AssetRef>): (r: Config)
    ensures r.title == MaintenanceConfig.title && r.fileFields == MaintenanceConfig.fileFields
    ensures |r.fields| == |MaintenanceConfig.fields|
    ensures r.fields[0] == MaintenanceConfig.fields[0].(options := Some(AssetOptions(assets)))
    ensures forall i | 1 <= i < |r.fields| :: r.fields[i] == MaintenanceConfig.fields[i]
    ensures r.fields[1].options == Some(MaintenanceTypeOptions)
  {
    MaintenanceConfig.(fields := Substitute(MaintenanceConfig.fields, map["asset" := AssetOptions(assets)]))
  }

  /** `AddDepreciationForm.getDynamicConfig`: 'asset' and 'method' receive options. */
  function AddDepreciationConfig(assets: seq<AssetRef>, methods: seq<Named>): (r: Config)
    ensures r.title == DepreciationConfig.title && r.fileFields == DepreciationConfig.fileFields
    ensures |r.fields| == |DepreciationConfig.fields|
    ensures r.fields[0] == DepreciationConfig.fields[0].(options := Some(AssetOptions(assets)))
    ensures r.fields[1] == DepreciationConfig.fields[1].(options := Some(NamedOptions(methods)))
    ensures forall i | 2 <= i < |r.fields| :: r.fields[i] == DepreciationConfig.fields[i]
  {
    DepreciationConfig.(fields := Substitute(DepreciationConfig.fields, map["asset" := AssetOptions(assets), "method" := NamedOptions(methods)]))
  }

  /** `AddInvoiceForm.getDynamicConfig`: only 'vendor' receives options; currency keeps its static six. */
  function AddInvoiceConfig(vendors: seq<Named>): (r: Config)
    ensures r.title == InvoiceConfig.title && r.fileFields == InvoiceConfig.fileFields
    ensures |r.fields| == |InvoiceConfig.fields|
    ensures r.fields[1] == InvoiceConfig.fields[1].(options := Some(NamedOptions(vendors)))
    ensures forall i | 0 <= i < |r.fields| && i != 1 :: r.fields[i] == InvoiceConfig.fields[i]
    ensures r.fields[4].options == Some(CurrencyOptions)
  {
    InvoiceConfig.(fields := Substitute(InvoiceConfig.fields, map["vendor" := NamedOptions(vendors)]))
  }

  /**
   * The wrapper forms' `handleSubmit` on a failed create: the local error
   * (never rendered) is the detail or the wrapper's fallback, and the error is
   * rethrown so that the generic form shows its own banner.
   */
  datatype CreateResult = Created | Rethrown(localError: Value)

  function WrapperCreate(outcome: Outcome, fallback: string): (r: CreateResult)
    requires fallback != ""
    ensures r.Created? <==> outcome.Succeeded?
    ensures r.Rethrown? ==> Truthy(r.localError)
    ensures r.Rethrown? && Truthy(outcome.detail) ==> r.localError == outcome.detail
  {
    match outcome
    case Succeeded => Created
    case Failed(detail) => Rethrown(ErrorText(detail, fallback))
  }

  const AssetCreateFallback := "Failed to create asset"
  const WarrantyCreateFallback := "Failed to create warranty"
  const MaintenanceCreateFallback := "Failed to create maintenance record"
  const DepreciationCreateFallback := "Failed to create depreciation record"
  const InvoiceCreateFallback := "Failed to create invoice"
}
