/**
 * The static form descriptions of the front end: the five form templates
 * (asset, warranty, maintenance, depreciation, invoice) and the extra fields
 * offered for four category labels.
 */
module FormConfigs {
  import opened Wrappers
  import opened JsValues

  /** The `type` of a field descriptor. */
  datatype FieldKind = Text | Select | Date | Number | Textarea | Email | Tel | Url

  /** One `{ value, label }` entry of a select field. */
  datatype SelectOption = SelectOption(value: Value, caption: string)

  /**
   * A field descriptor. Absent keys are `None`; display-only keys (icon,
   * helpText, rows, autoComplete) are not modelled.
   */
  datatype Field = Field(
    name: string,
    caption: string,
    kind: FieldKind,
    required: bool,
    placeholder: Option<string>,
    suggestions: Option<seq<string>>,
    options: Option<seq<SelectOption>>,
    min: Option<real>,
    max: Option<real>,
    step: Option<real>,
    minLength: Option<nat>,
    maxLength: Option<nat>)

  /** An attachment slot: accepted types and the size ceiling in bytes. */
  datatype FileField = FileField(name: string, caption: string, accept: string, maxSize: nat)

  datatype Config = Config(title: string, fields: seq<Field>, fileFields: seq<FileField>)

  const MiB: nat := 1024 * 1024

  /** A descriptor with only the keys every field of the templates carries. */
  function Plain(name: string, caption: string, kind: FieldKind, required: bool, placeholder: Option<string>): Field {
    Field(name, caption, kind, required, placeholder, None, None, None, None, None, None, None)
  }

  /** A money field: `min: 0, step: 0.01`. */
  function Money(name: string, caption: string, required: bool): Field {
    Plain(name, caption, Number, required, Some("0.00")).(min := Some(0.0), step := Some(0.01))
  }

  function Options(pairs: seq<(string, string)>): seq<SelectOption> {
    seq(|pairs|, i requires 0 <= i < |pairs| => SelectOption(Str(pairs[i].0), pairs[i].1))
  }

  const AssetConfig: Config := Config(
    "Add New Asset",
    [
      Plain("asset_code", "Asset Code", Text, true, Some("e.g., LAPTOP-001, TV-001"))
        .(suggestions := Some(["LAPTOP-", "TV-", "PHONE-", "FURNITURE-", "APPLIANCE-"])),
      Plain("asset_name", "Asset Name", Text, true, Some("e.g., MacBook Pro 16\", Samsung 55\" TV"))
        .(suggestions := Some(["MacBook Pro 16\"", "Samsung 55\" Smart TV", "iPhone 15 Pro", "Dell XPS 13",
                               "IKEA Hemnes Bed", "KitchenAid Mixer", "Dyson Vacuum", "Sony WH-1000XM4"])),
      Plain("category", "Category", Select, true, Some("Select category")),
      Plain("location", "Physical Location", Select, true, Some("Select location")),
      Plain("vendor", "Vendor/Store", Select, true, Some("Select vendor")),
      Plain("purchase_date", "Purchase Date", Date, true, None),
      Money("cost", "Purchase Cost", true),
      Plain("status", "Status", Select, true, Some("Select status")),
      Plain("brand", "Brand", Text, false, Some("e.g., Apple, Samsung, Dell"))
        .(suggestions := Some(["Apple", "Samsung", "Dell", "HP", "Lenovo", "Sony", "LG", "Panasonic",
                               "IKEA", "West Elm", "Crate & Barrel", "KitchenAid", "Dyson", "Dyson",
                               "Toyota", "Honda", "BMW", "Mercedes", "Nike", "Adidas"])),
      Plain("model_number", "Model Number", Text, false, Some("e.g., MBP16-2023, QN55Q80A")),
      Plain("serial_number", "Serial Number", Text, false, Some("e.g., ABC123456789")),
      Plain("end_of_life_date", "Expected End of Life", Date, false, None),
      Plain("description", "Description", Textarea, false, Some("Additional details about this asset..."))
    ],
    [
      FileField("purchase_receipt", "Purchase Receipt", "image/*,.pdf", 5 * MiB),
      FileField("manual_document", "User Manual/Documentation", ".pdf,.doc,.docx,image/*", 10 * MiB)
    ])

  const WarrantyConfig: Config := Config(
    "Add New Warranty",
    [
      Plain("asset", "Asset", Select, true, Some("Select asset")),
      Plain("warranty_provider", "Warranty Provider", Text, false, Some("e.g., Apple, Samsung, Dell"))
        .(suggestions := Some(["Apple", "Samsung", "Dell", "HP", "Lenovo", "Sony", "LG", "Panasonic",
                               "KitchenAid", "Dyson", "Bosch", "Whirlpool", "GE", "Maytag",
                               "Toyota", "Honda", "BMW", "Mercedes", "Nike", "Adidas"])),
      Plain("start_date", "Warranty Start Date", Date, true, None),
      Plain("end_date", "Warranty End Date", Date, true, None),
      Plain("coverage_details", "Coverage Details", Textarea, false, Some("Describe what is covered under this warranty...")),
      Plain("contact_info", "Contact Information", Textarea, false, Some("Warranty provider contact details..."))
    ],
    [FileField("warranty_document", "Warranty Document", "image/*,.pdf", 5 * MiB)])

  const MaintenanceTypeOptions: seq<SelectOption> := Options([
    ("preventive", "Preventive"), ("corrective", "Corrective"), ("emergency", "Emergency"),
    ("upgrade", "Upgrade"), ("cleaning", "Cleaning"), ("inspection", "Inspection")])

  const MaintenanceConfig: Config := Config(
    "Add New Maintenance Record",
    [
      Plain("asset", "Asset", Select, true, Some("Select asset")),
      Plain("maintenance_type", "Maintenance Type", Select, true, Some("Select type"))
        .(options := Some(MaintenanceTypeOptions)),
      Plain("performed_on", "Performed On", Date, true, None),
      Plain("performed_by", "Performed By", Text, true, Some("e.g., John Smith or ABC Maintenance Co."))
        .(suggestions := Some(["Self", "Professional Service", "Authorized Dealer",
                               "Local Repair Shop", "Friend/Family", "Online Service"])),
      Money("cost", "Cost", false),
      Plain("next_maintenance_date", "Next Maintenance Date", Date, false, None),
      Plain("remarks", "Remarks", Textarea, false, Some("Describe the maintenance work performed..."))
    ],
    [])

  const DepreciationConfig: Config := Config(
    "Add New Depreciation Record",
    [
      Plain("asset", "Asset", Select, true, Some("Select asset")),
      Plain("method", "Depreciation Method", Select, true, Some("Select method")),
      Plain("rate", "Depreciation Rate (%)", Number, true, Some("e.g., 10.00"))
        .(min := Some(0.0), max := Some(100.0), step := Some(0.01)),
      Money("book_value", "Book Value", true),
      Plain("calculated_on", "Calculated On", Date, true, None),
      Plain("notes", "Notes", Textarea, false, Some("Additional notes about the depreciation calculation..."))
    ],
    [])

  const CurrencyOptions: seq<SelectOption> := Options([
    ("USD", "USD - US Dollar"), ("EUR", "EUR - Euro"), ("GBP", "GBP - British Pound"),
    ("CAD", "CAD - Canadian Dollar"), ("AUD", "AUD - Australian Dollar"), ("INR", "INR - Indian Rupee")])

  const InvoiceConfig: Config := Config(
    "Add New Invoice",
    [
      Plain("invoice_number", "Invoice Number", Text, true, Some("e.g., INV-2024-001"))
        .(suggestions := Some(["INV-", "RECEIPT-", "ORDER-"])),
      Plain("vendor", "Vendor/Store", Select, true, Some("Select vendor")),
      Plain("invoice_date", "Invoice Date", Date, true, None),
      Money("total_amount", "Total Amount", true),
      Plain("currency", "Currency", Select, true, Some("Select currency"))
        .(options := Some(CurrencyOptions)),
      Plain("description", "Description", Textarea, false, Some("What was purchased..."))
    ],
    [FileField("invoice_file", "Invoice File", "image/*,.pdf", 5 * MiB)])

  const ElectronicsFields: seq<Field> := [
    Plain("warranty_period", "Warranty Period (months)", Number, false, Some("12")).(min := Some(0.0), max := Some(120.0)),
    Plain("power_consumption", "Power Consumption (W)", Number, false, Some("100")).(min := Some(0.0))
  ]

  const VehiclesFields: seq<Field> := [
    Plain("license_plate", "License Plate", Text, false, Some("ABC-1234")),
    Plain("mileage", "Mileage", Number, false, Some("50000")).(min := Some(0.0)),
    Plain("fuel_type", "Fuel Type", Select, false, Some("Select fuel type"))
      .(options := Some(Options([("gasoline", "Gasoline"), ("diesel", "Diesel"), ("electric", "Electric"),
                                 ("hybrid", "Hybrid"), ("lpg", "LPG")])))
  ]

  const FurnitureFields: seq<Field> := [
    Plain("material", "Material", Text, false, Some("e.g., Wood, Metal, Plastic"))
      .(suggestions := Some(["Wood", "Metal", "Plastic", "Glass", "Fabric", "Leather"])),
    Plain("dimensions", "Dimensions (L x W x H)", Text, false, Some("e.g., 200cm x 80cm x 75cm"))
  ]

  const AppliancesFields: seq<Field> := [
    Plain("energy_rating", "Energy Rating", Select, false, Some("Select rating"))
      .(options := Some(Options([("A+++", "A+++"), ("A++", "A++"), ("A+", "A+"), ("A", "A"),
                                 ("B", "B"), ("C", "C"), ("D", "D")]))),
    Plain("capacity", "Capacity", Text, false, Some("e.g., 25L, 7kg, 500W"))
  ]

  /** The category labels that have extension fields (matched case-sensitively). */
  const ExtendedCategories: set<string> := {"Electronics", "Vehicles", "Furniture", "Appliances"}

  function Names(fields: seq<Field>): (r: seq<string>)
    ensures |r| == |fields|
    ensures forall i | 0 <= i < |fields| :: r[i] == fields[i].name
  {
    seq(|fields|, i requires 0 <= i < |fields| => fields[i].name)
  }

  predicate UniqueNames(fields: seq<Field>) {
    forall i, j | 0 <= i < j < |fields| :: fields[i].name != fields[j].name
  }

  /** The extension fields the object literal of `getCategorySpecificFields` holds under a label, else none. */
  function CategoryFields(category: string): (r: seq<Field>)
    ensures r != [] <==> category in ExtendedCategories
    ensures forall i | 0 <= i < |r| :: !r[i].required
    ensures UniqueNames(r)
  {
    if category == "Electronics" then ElectronicsFields
    else if category == "Vehicles" then VehiclesFields
    else if category == "Furniture" then FurnitureFields
    else if category == "Appliances" then AppliancesFields
    else []
  }

  /** What `categoryFields[label] || []` yields. */
  datatype Lookup =
    | Own(fields: seq<Field>)     // the label's own array
    | Inherited(arity: nat)       // a function inherited from `Object.prototype`
    | Prototype                   // `__proto__`: `Object.prototype` itself, which has no `length`
    | Missing                     // undefined, so `[]`

  /** `getCategorySpecificFields(label)`: property lookup on an ordinary object literal, prototype chain included. */
  function CategoryLookup(category: string): (r: Lookup)
    ensures r.Own? <==> category in ExtendedCategories
    ensures r.Own? ==> r.fields == CategoryFields(category) && r.fields != []
    ensures r.Inherited? <==> category in InheritedArity
    ensures r.Inherited? ==> r.arity == InheritedArity[category]
    ensures r.Missing? ==> CategoryFields(category) == []
    ensures r.Missing? <==> category !in ExtendedCategories && !FromPrototype(category)
  {
    if category in ExtendedCategories then Own(CategoryFields(category))
    else if category in InheritedArity then Inherited(InheritedArity[category])
    else if category == "__proto__" then Prototype
    else Missing
  }

  /** No extended label is also an inherited name, so the own entries are always found first. */
  lemma OwnAndInheritedDisjoint()
    ensures ExtendedCategories * InheritedArity.Keys == {}
  {
  }

  /**
   * Spreading the looked-up value into `splice` throws a `TypeError`
   * (a function is not iterable) exactly when it is an inherited method
   * whose `length` passes the `> 0` test.
   */
  predicate SpreadThrows(category: string) {
    category in InheritedArity && InheritedArity[category] > 0
  }

  /** "constructor" throws when spread, "toString" reports length 0 and "__proto__" is not a method. */
  lemma PrototypeNames()
    ensures "constructor" !in ExtendedCategories && SpreadThrows("constructor")
    ensures "toString" !in ExtendedCategories && "toString" in InheritedArity && !SpreadThrows("toString")
    ensures "__proto__" !in ExtendedCategories && "__proto__" !in InheritedArity
  {
    assert InheritedArity["constructor"] == 1;
    assert InheritedArity["toString"] == 0;
  }

  /** The fixed order of every extension. */
  lemma CategoryFieldOrder()
    ensures Names(CategoryFields("Electronics")) == ["warranty_period", "power_consumption"]
    ensures Names(CategoryFields("Vehicles")) == ["license_plate", "mileage", "fuel_type"]
    ensures Names(CategoryFields("Furniture")) == ["material", "dimensions"]
    ensures Names(CategoryFields("Appliances")) == ["energy_rating", "capacity"]
  {
  }

  /** Within every template the field names are distinct. */
  lemma AssetNamesUnique()
    ensures UniqueNames(AssetConfig.fields)
  {
  }

  lemma WarrantyNamesUnique()
    ensures UniqueNames(WarrantyConfig.fields)
  {
  }

  lemma MaintenanceNamesUnique()
    ensures UniqueNames(MaintenanceConfig.fields)
  {
  }

  lemma DepreciationNamesUnique()
    ensures UniqueNames(DepreciationConfig.fields)
  {
  }

  lemma InvoiceNamesUnique()
    ensures UniqueNames(InvoiceConfig.fields)
  {
  }

  /** No extension field shares a name with a field of the asset template. */
  lemma ExtensionsDisjointFromAsset(category: string)
    ensures forall i | 0 <= i < |CategoryFields(category)| :: CategoryFields(category)[i].name !in Names(AssetConfig.fields)
  {
  }

  /** 'description' is the last asset field and occurs nowhere else. */
  lemma DescriptionIsLast()
    ensures AssetConfig.fields[|AssetConfig.fields| - 1].name == "description"
    ensures forall i | 0 <= i < |AssetConfig.fields| - 1 :: AssetConfig.fields[i].name != "description"
  {
  }

  /** Static select options: six distinct values each for maintenance_type and currency. */
  lemma StaticOptionsDistinct()
    ensures |MaintenanceTypeOptions| == 6 && |CurrencyOptions| == 6
    ensures forall i, j | 0 <= i < j < 6 :: MaintenanceTypeOptions[i].value != MaintenanceTypeOptions[j].value
    ensures forall i, j | 0 <= i < j < 6 :: CurrencyOptions[i].value != CurrencyOptions[j].value
  {
  }

  /** Attachment ceilings: 5 MiB for receipts, warranty documents and invoices, 10 MiB for manuals; no attachments elsewhere. */
  lemma FileCeilings()
    ensures AssetConfig.fileFields[0].name == "purchase_receipt" && AssetConfig.fileFields[0].maxSize == 5 * MiB
    ensures AssetConfig.fileFields[1].name == "manual_document" && AssetConfig.fileFields[1].maxSize == 10 * MiB
    ensures WarrantyConfig.fileFields == [FileField("warranty_document", "Warranty Document", "image/*,.pdf", 5 * MiB)]
    ensures InvoiceConfig.fileFields == [FileField("invoice_file", "Invoice File", "image/*,.pdf", 5 * MiB)]
    ensures MaintenanceConfig.fileFields == [] && DepreciationConfig.fileFields == []
  {
  }
}
