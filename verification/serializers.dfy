/**
 * The server side of attachments and the asset list row. Stored file bytes
 * are exposed as base64 text (section 4 of RFC 4648) under `<field>_read`;
 * incoming `<field>` text is decoded only when it is present, non-empty and
 * a string. The list serializer projects an asset onto eleven fields.
 */
module Serializers {
  import opened Wrappers
  import opened JsValues
  import Base64
  import opened SimpleForms

  /** The serializers that carry file data, with their write-only data fields. */
  datatype FileSerializer = AssetSerializer | InvoiceSerializer | WarrantySerializer

  function DataKeys(s: FileSerializer): (r: seq<string>)
    ensures NoRepeats(r) && |r| > 0
  {
    match s
    case AssetSerializer => ["purchase_receipt_data", "manual_document_data"]
    case InvoiceSerializer => ["invoice_file_data"]
    case WarrantySerializer => ["warranty_document_data"]
  }

  /**
   * `get_<field>_read`: the base64 text of the stored bytes, or None when
   * nothing or an empty byte string is stored.
   */
  function DataRead(stored: Option<seq<Base64.byte>>): (r: Option<string>)
    ensures r.None? <==> stored.None? || stored.value == []
    ensures r.Some? ==> r.value != "" && Base64.Decode(r.value) == stored
  {
    if stored.Some? && stored.value != [] then
      Base64.DecodeEncode(stored.value);
      Base64.EncodeEmptyIff(stored.value);
      Some(Base64.Encode(stored.value))
    else None
  }

  /** The bytes a model field holds: a byte string, or nothing for null or a missing field. */
  function StoredBytes(obj: Record, key: string): Option<seq<Base64.byte>> {
    match Get(obj, key)
    case Bytes(b) => Some(b)
    case _ => None
  }

  /** The value `<key>_read` takes in a serialized row: the text, or JSON null. */
  function ReadField(obj: Record, key: string): (r: Value)
    ensures r == Null || (r.Str? && Base64.Decode(r.s) == StoredBytes(obj, key) && r.s != "")
  {
    match DataRead(StoredBytes(obj, key))
    case Some(t) => Str(t)
    case None => Null
  }

  /** The guard in `create`/`update`: the key is present, its value truthy and a string. */
  predicate WillDecode(r: Record, k: string) {
    k in r && Truthy(r[k]) && r[k].Str?
  }

  /** A value after the write-side conversion, when its text decodes. */
  function Decoded(v: Value): Value {
    if Truthy(v) && v.Str? && Base64.Decode(v.s).Some? then Bytes(Base64.Decode(v.s).value) else v
  }

  /** Text that `b64decode` rejects makes the write fail. */
  predicate Decodable(r: Record, k: string) {
    WillDecode(r, k) ==> Base64.Decode(r[k].s).Some?
  }

  const InvalidBase64 := "Invalid base64-encoded string"

  /** One `if key in validated_data and validated_data[key]: if isinstance(..., str): ...` block. */
  function DecodeField(r: Record, k: string): (res: Result<Record, string>)
    ensures res.Err? <==> !Decodable(r, k)
    ensures res.Ok? ==> res.value.Keys == r.Keys
    ensures res.Ok? ==> forall j | j in r && j != k :: res.value[j] == r[j]
    ensures res.Ok? && WillDecode(r, k) ==> res.value[k] == Bytes(Base64.Decode(r[k].s).value)
    ensures res.Ok? && !WillDecode(r, k) ==> res.value == r
  {
    if WillDecode(r, k) then
      match Base64.Decode(r[k].s)
      case Some(b) => Ok(r[k := Bytes(b)])
      case None => Err(InvalidBase64)
    else Ok(r)
  }

  /** The blocks of one serializer run in field order; the first undecodable text stops the write. */
  function {:induction false} DecodeAll(r: Record, keys: seq<string>): (res: Result<Record, string>)
    ensures res.Ok? <==> forall k | k in keys :: Decodable(r, k)
    ensures res.Ok? ==> res.value.Keys == r.Keys
    ensures res.Ok? ==> forall j | j in r :: res.value[j] == if j in keys then Decoded(r[j]) else r[j]
    decreases |keys|
  {
    if keys == [] then Ok(r)
    else
      match DecodeField(r, keys[0])
      case Err(e) => Err(e)
      case Ok(r1) =>
        assert forall j | j in r :: r1[j] == if j == keys[0] then Decoded(r[j]) else r[j];
        assert forall k | k in keys[1..] :: Decodable(r1, k) == Decodable(r, k);
        DecodeAll(r1, keys[1..])
  }

  /** `create` and `update` convert the incoming data fields the same way before saving. */
  function PrepareWrite(s: FileSerializer, validated: Record): (res: Result<Record, string>)
    ensures res.Ok? <==> forall k | k in DataKeys(s) :: Decodable(validated, k)
    ensures res.Ok? ==> res.value.Keys == validated.Keys
    ensures res.Ok? ==> forall j | j in validated && j !in DataKeys(s) :: res.value[j] == validated[j]
  {
    DecodeAll(validated, DataKeys(s))
  }

  /**
   * The blank upload the field allows (`allow_blank=True`) is never decoded:
   * preparing the write succeeds and keeps the empty text. What the save
   * then does with it is not part of this model.
   */
  lemma BlankUploadKept(s: FileSerializer, validated: Record, k: string)
    requires k in DataKeys(s) && k in validated && validated[k] == Str("")
    requires forall j | j in DataKeys(s) :: Decodable(validated, j)
    ensures PrepareWrite(s, validated).Ok? && PrepareWrite(s, validated).value[k] == Str("")
  {
  }

  /**
   * The `isinstance(value, str)` test is defensive: the data fields are
   * `CharField`s, whose validation turns numbers into text and rejects
   * other values, so no request reaches it with a non-string. Were one to,
   * it would pass through the write unchanged.
   */
  lemma NonStringKept(s: FileSerializer, validated: Record, k: string)
    requires k in DataKeys(s) && k in validated && !validated[k].Str?
    requires forall j | j in DataKeys(s) :: Decodable(validated, j)
    ensures PrepareWrite(s, validated).value[k] == validated[k]
  {
  }

  /**
   * Writing the canonical encoding of non-empty bytes stores those bytes,
   * and reading the record back yields the very text that was written.
   */
  lemma WriteThenRead(s: FileSerializer, validated: Record, k: string, b: seq<Base64.byte>)
    requires k in DataKeys(s) && b != []
    requires k in validated && validated[k] == Str(Base64.Encode(b))
    requires forall j | j in DataKeys(s) :: Decodable(validated, j)
    ensures PrepareWrite(s, validated).Ok?
    ensures PrepareWrite(s, validated).value[k] == Bytes(b)
    ensures ReadField(PrepareWrite(s, validated).value, k) == Str(Base64.Encode(b))
  {
    Base64.DecodeEncode(b);
    Base64.EncodeEmptyIff(b);
  }

  /** Writing an empty byte string's encoding stores nothing decodable, and the read side reports null. */
  lemma EmptyWriteReadsNull(s: FileSerializer, validated: Record, k: string)
    requires k in DataKeys(s) && k in validated && validated[k] == Str(Base64.Encode([]))
    requires forall j | j in DataKeys(s) :: Decodable(validated, j)
    ensures ReadField(PrepareWrite(s, validated).value, k) == Null
  {
    Base64.EncodeEmptyIff([]);
  }

  /** `AssetListSerializer.Meta.fields` */
  const ListFieldNames: seq<string> := [
    "asset_id", "asset_code", "asset_name", "category_name", "status_name",
    "location_name", "vendor_name", "purchase_date",
    "cost", "end_of_life_date", "created_at"
  ]

  /** A list row: the listed fields of the asset (the related names already resolved into it). */
  function ListRow(asset: Record): (r: Record)
    ensures r.Keys == asset.Keys * KeySet(ListFieldNames)
    ensures forall k | k in r :: r[k] == asset[k]
  {
    map k | k in asset.Keys * KeySet(ListFieldNames) :: asset[k]
  }

  /** The list exposes eleven distinct fields. */
  lemma ListFieldCount()
    ensures |KeySet(ListFieldNames)| == 11
  {
    KeySetSize(ListFieldNames);
  }

  /** The asset's file fields in both directions and its raw foreign keys. */
  const HiddenFromList: set<string> := {
    "purchase_receipt_data", "manual_document_data",
    "purchase_receipt_data_read", "manual_document_data_read",
    "category", "location", "vendor", "status"
  }

  /** No list row carries file data, its read form, or the raw category, location, vendor or status ids. */
  lemma ListRowHidesFiles(asset: Record)
    ensures ListRow(asset).Keys !! HiddenFromList
  {
  }
}
