/**
 * The generic configuration-driven form: its value map is built once from
 * the field names, edits rewrite one key, and submission sends the values
 * plus four synthesised keys per chosen attachment, the attachment's bytes
 * travelling as the base64 part of a data URL (section 3 of RFC 2397).
 */
module DynamicForm {
  import opened Wrappers
  import opened Strings
  import opened JsValues
  import Base64
  import opened FormConfigs
  import opened FileUpload
  import opened Submission
  import opened ConfigAlgebra

  /** The form's state: values by field name, chosen files by file-field name, and the banner text. */
  datatype FormState = FormState(formData: Record, fileData: map<string, Option<File>>, error: Value)

  /** The names of a field list, as a set. */
  function NameSet(fields: seq<Field>): set<string> {
    set i | 0 <= i < |fields| :: fields[i].name
  }

  /**
   * The mount effect: `fields.forEach(f => data[f.name] = initialData[f.name] || '')`.
   * Every field name gets a key and nothing else does.
   */
  function InitValues(fields: seq<Field>, initial: Record): (r: Record)
    ensures r.Keys == NameSet(fields)
    ensures forall i | 0 <= i < |fields| :: r[fields[i].name] == Or(Get(initial, fields[i].name), Empty)
    decreases |fields|
  {
    if fields == [] then map[]
    else
      var front := fields[..|fields| - 1];
      var last := fields[|fields| - 1].name;
      var r := InitValues(front, initial)[last := Or(Get(initial, last), Empty)];
      NameSetSnoc(fields);
      assert forall i | 0 <= i < |fields| - 1 :: fields[i] == front[i];
      r
  }

  /** Dropping the last field removes its name unless an earlier field has it too. */
  lemma NameSetSnoc(fields: seq<Field>)
    requires fields != []
    ensures NameSet(fields) == NameSet(fields[..|fields| - 1]) + {fields[|fields| - 1].name}
  {
    var front := fields[..|fields| - 1];
    assert forall i | 0 <= i < |front| :: front[i] == fields[i];
  }

  /** The state right after mounting with the configuration current at that moment. */
  function Mount(fields: seq<Field>, initial: Record): (st: FormState)
    ensures st.formData.Keys == NameSet(fields) && st.fileData == map[] && st.error == Empty
    ensures forall i | 0 <= i < |fields| :: st.formData[fields[i].name] == Or(Get(initial, fields[i].name), Empty)
  {
    FormState(InitValues(fields, initial), map[], Empty)
  }

  /**
   * The smart asset form mounts before any category is chosen, so the fields
   * a category adds later have no key until they are edited.
   */
  lemma ExtensionFieldsStartUnset(categories: seq<Named>, locations: seq<Named>, vendors: seq<Named>, statuses: seq<Named>, initial: Record, category: string)
    ensures SmartAssetFields(categories, locations, vendors, statuses, "").Ok?
    ensures var st := Mount(SmartAssetFields(categories, locations, vendors, statuses, "").value, initial);
      forall i | 0 <= i < |CategoryFields(category)| :: CategoryFields(category)[i].name !in st.formData
  {
    var fields := SmartAssetFields(categories, locations, vendors, statuses, "").value;
    SmartWithoutCategory(categories, locations, vendors, statuses, "");
    ExtensionsDisjointFromAsset(category);
    assert Names(fields) == Names(AssetConfig.fields);
    forall n | n in NameSet(fields)
      ensures n in Names(AssetConfig.fields)
    {
      var i :| 0 <= i < |fields| && fields[i].name == n;
      assert Names(fields)[i] == n;
    }
  }

  /** A field edit and the optional `onFieldChange(name, value)` notification it triggers. */
  datatype Changed = Changed(state: FormState, notified: Option<(string, Value)>)

  /** `handleFieldChange`: only `formData[name]` changes; the hook, if present, receives the same pair. */
  function FieldChange(st: FormState, name: string, value: Value, hasHook: bool): (c: Changed)
    ensures c.state.formData.Keys == st.formData.Keys + {name}
    ensures c.state.formData[name] == value
    ensures forall k | k in st.formData && k != name :: c.state.formData[k] == st.formData[k]
    ensures c.state.fileData == st.fileData && c.state.error == st.error
    ensures c.notified == (if hasHook then Some((name, value)) else None)
  {
    Changed(st.(formData := st.formData[name := value]), if hasHook then Some((name, value)) else None)
  }

  /** `handleFileChange`: only the file slot `name` is set (to a file) or cleared (to null). */
  function FileChange(st: FormState, name: string, file: Option<File>): (r: FormState)
    ensures r.fileData.Keys == st.fileData.Keys + {name} && r.fileData[name] == file
    ensures forall k | k in st.fileData && k != name :: r.fileData[k] == st.fileData[k]
    ensures r.formData == st.formData && r.error == st.error
  {
    st.(fileData := st.fileData[name := file])
  }

  /** `reader.readAsDataURL(file)`: the data URL of section 3 of RFC 2397 with base64 content. */
  function DataUrl(mimeType: string, content: seq<Base64.byte>): string {
    "data:" + mimeType + ";base64," + Base64.Encode(content)
  }

  /** `url.split(',')[1]`: the piece after the first comma, undefined when there is none. */
  function AfterFirstComma(url: string): (r: Value)
    ensures r.Null? <==> ',' !in url
  {
    var parts := Split(url, ',');
    if |parts| >= 2 then Str(parts[1]) else Null
  }

  /**
   * `convertFileToBase64`: for a MIME type without a comma, the extracted text
   * is exactly the base64 encoding of the content, and it decodes back to it.
   */
  lemma ExtractDataUrl(mimeType: string, content: seq<Base64.byte>)
    requires ',' !in mimeType
    ensures AfterFirstComma(DataUrl(mimeType, content)) == Str(Base64.Encode(content))
    ensures Base64.Decode(AfterFirstComma(DataUrl(mimeType, content)).s) == Some(content)
  {
    var head := "data:" + mimeType + ";base64";
    var body := Base64.Encode(content);
    Base64.EncodeAlphabet(content);
    Base64.DecodeEncode(content);
    assert ',' !in head by {
      assert head == "data:" + mimeType + ";base64";
      assert forall i | 0 <= i < |head| :: head[i] != ',' by {
        assert forall i | 5 <= i < 5 + |mimeType| :: head[i] == mimeType[i - 5];
      }
    }
    assert DataUrl(mimeType, content) == head + [','] + body;
    SplitCons(head, body, ',');
  }

  /** The chosen file of a slot: an unset slot and a cleared slot are both falsy. */
  function Chosen(fileData: map<string, Option<File>>, name: string): Option<File> {
    if name in fileData then fileData[name] else None
  }

  /** The four synthesised keys of an attachment slot. */
  function OwnKeys(name: string): set<string> {
    {name + "_data", name + "_name", name + "_type", name + "_size"}
  }

  /** The four synthesised entries of one attachment, written after everything before them. */
  function AddFile(p: Record, name: string, f: File): Record {
    p[name + "_data" := AfterFirstComma(DataUrl(f.mimeType, f.content))]
     [name + "_name" := Str(f.name)]
     [name + "_type" := Str(f.mimeType)]
     [name + "_size" := Num(f.size as real)]
  }

  /** `p` carries the four entries of file `f` in slot `name`. */
  predicate HasEntries(p: Record, name: string, f: File) {
    && OwnKeys(name) <= p.Keys
    && p[name + "_data"] == AfterFirstComma(DataUrl(f.mimeType, f.content))
    && p[name + "_name"] == Str(f.name)
    && p[name + "_type"] == Str(f.mimeType)
    && p[name + "_size"] == Num(f.size as real)
  }

  /** The keys the attachments add: four per file field with a chosen file. */
  function SynthKeys(fileFields: seq<FileField>, fileData: map<string, Option<File>>): set<string>
    decreases |fileFields|
  {
    if fileFields == [] then {}
    else
      var name := fileFields[|fileFields| - 1].name;
      SynthKeys(fileFields[..|fileFields| - 1], fileData)
        + (if Chosen(fileData, name).Some? then OwnKeys(name) else {})
  }

  /** The submitted payload: a copy of the values, then the attachments in file-field order. */
  function Payload(formData: Record, fileFields: seq<FileField>, fileData: map<string, Option<File>>): Record
    decreases |fileFields|
  {
    if fileFields == [] then formData
    else
      var p := Payload(formData, fileFields[..|fileFields| - 1], fileData);
      var name := fileFields[|fileFields| - 1].name;
      match Chosen(fileData, name)
      case None => p
      case Some(f) => AddFile(p, name, f)
  }

  /** Appending suffixes of equal length: equal results exactly for equal parts. */
  lemma SuffixInjective(a: string, s: string, b: string, t: string)
    requires |s| == |t|
    ensures a + s == b + t <==> a == b && s == t
  {
    if a + s == b + t {
      assert |a| == |b|;
      assert a == (a + s)[..|a|] && b == (b + t)[..|b|];
      assert s == (a + s)[|a|..] && t == (b + t)[|b|..];
    }
  }

  /** Every synthesised key of a slot is the slot name plus a five-character suffix. */
  lemma OwnKeysShape(name: string)
    ensures forall y | y in OwnKeys(name) :: |y| == |name| + 5 && y[..|name|] == name
  {
    assert (name + "_data")[..|name|] == name;
    assert (name + "_name")[..|name|] == name;
    assert (name + "_type")[..|name|] == name;
    assert (name + "_size")[..|name|] == name;
  }

  /** Distinct slots synthesise disjoint keys. */
  lemma OwnKeysDisjoint(a: string, b: string)
    requires a != b
    ensures OwnKeys(a) !! OwnKeys(b)
  {
    OwnKeysShape(a);
    OwnKeysShape(b);
  }

  /** The four own keys of a slot are four different keys, so each keeps its entry. */
  lemma AddFileHasEntries(p: Record, name: string, f: File)
    ensures HasEntries(AddFile(p, name, f), name, f)
    ensures AddFile(p, name, f).Keys == p.Keys + OwnKeys(name)
    ensures forall k | k in p && k !in OwnKeys(name) :: AddFile(p, name, f)[k] == p[k]
  {
    SuffixInjective(name, "_data", name, "_name");
    SuffixInjective(name, "_data", name, "_type");
    SuffixInjective(name, "_data", name, "_size");
    SuffixInjective(name, "_name", name, "_type");
    SuffixInjective(name, "_name", name, "_size");
    SuffixInjective(name, "_type", name, "_size");
  }

  /** What the payload holds: the values, overridden by the attachment entries. */
  predicate PayloadSpec(p: Record, formData: Record, fileFields: seq<FileField>, fileData: map<string, Option<File>>) {
    && p.Keys == formData.Keys + SynthKeys(fileFields, fileData)
    && (forall k | k in formData && k !in SynthKeys(fileFields, fileData) :: p[k] == formData[k])
    && (forall i | 0 <= i < |fileFields| && Chosen(fileData, fileFields[i].name).Some? ::
          HasEntries(p, fileFields[i].name, Chosen(fileData, fileFields[i].name).value))
  }

  /** Entries of other slots survive the next attachment. */
  lemma HasEntriesKept(p: Record, name: string, f: File, other: string, g: File)
    requires HasEntries(p, other, g) && other != name
    ensures HasEntries(AddFile(p, name, f), other, g)
  {
    OwnKeysDisjoint(other, name);
    AddFileHasEntries(p, name, f);
  }

  /** The keys of a longer file-field list: those of its front plus the last slot's, when chosen. */
  lemma SynthKeysSnoc(front: seq<FileField>, ff: FileField, fileData: map<string, Option<File>>)
    ensures SynthKeys(front + [ff], fileData)
      == SynthKeys(front, fileData) + (if Chosen(fileData, ff.name).Some? then OwnKeys(ff.name) else {})
  {
    assert (front + [ff])[..|front|] == front;
  }

  /** An unchosen last slot adds nothing to the payload's description. */
  lemma SpecSnocNone(p: Record, formData: Record, front: seq<FileField>, ff: FileField, fileData: map<string, Option<File>>)
    requires Chosen(fileData, ff.name).None?
    requires PayloadSpec(p, formData, front, fileData)
    ensures PayloadSpec(p, formData, front + [ff], fileData)
  {
    SynthKeysSnoc(front, ff, fileData);
    var fields := front + [ff];
    forall i | 0 <= i < |fields| && Chosen(fileData, fields[i].name).Some?
      ensures HasEntries(p, fields[i].name, Chosen(fileData, fields[i].name).value)
    {
      assert i < |front| && fields[i] == front[i];
    }
  }

  /** A chosen last slot adds its four entries and keeps the rest of the description. */
  lemma SpecSnocSome(p: Record, formData: Record, front: seq<FileField>, ff: FileField, f: File, fileData: map<string, Option<File>>)
    requires Chosen(fileData, ff.name) == Some(f)
    requires PayloadSpec(p, formData, front, fileData)
    ensures PayloadSpec(AddFile(p, ff.name, f), formData, front + [ff], fileData)
  {
    SynthKeysSnoc(front, ff, fileData);
    var q := AddFile(p, ff.name, f);
    var fields := front + [ff];
    AddFileHasEntries(p, ff.name, f);
    forall i | 0 <= i < |fields| && Chosen(fileData, fields[i].name).Some?
      ensures HasEntries(q, fields[i].name, Chosen(fileData, fields[i].name).value)
    {
      if fields[i].name != ff.name {
        assert i < |front| && fields[i] == front[i];
        HasEntriesKept(p, ff.name, f, fields[i].name, Chosen(fileData, fields[i].name).value);
      }
    }
  }

  /** The payload meets its description for every value map, file-field list and file choice. */
  lemma {:induction false} PayloadMeetsSpec(formData: Record, fileFields: seq<FileField>, fileData: map<string, Option<File>>)
    ensures PayloadSpec(Payload(formData, fileFields, fileData), formData, fileFields, fileData)
    decreases |fileFields|
  {
    if fileFields != [] {
      var n := |fileFields| - 1;
      var front := fileFields[..n];
      var ff := fileFields[n];
      assert fileFields == front + [ff];
      PayloadMeetsSpec(formData, front, fileData);
      var p := Payload(formData, front, fileData);
      match Chosen(fileData, ff.name)
      case None =>
        SpecSnocNone(p, formData, front, ff, fileData);
      case Some(f) =>
        SpecSnocSome(p, formData, front, ff, f, fileData);
    }
  }

  /** With no file chosen, the attachments add no key. */
  lemma {:induction false} NoSynthKeys(fileFields: seq<FileField>)
    ensures SynthKeys(fileFields, map[]) == {}
    decreases |fileFields|
  {
    if fileFields != [] {
      NoSynthKeys(fileFields[..|fileFields| - 1]);
    }
  }

  /** With no chosen file the payload is exactly the value map. */
  lemma NoFilesPayload(formData: Record, fileFields: seq<FileField>)
    ensures Payload(formData, fileFields, map[]) == formData
  {
    PayloadMeetsSpec(formData, fileFields, map[]);
    NoSynthKeys(fileFields);
  }

  const SubmitFallback := "Failed to submit form"

  /** The result of `handleSubmit`: the next state and the payload handed to `onSubmit`. */
  datatype Submitted = Submitted(state: FormState, sent: Record)

  /**
   * `handleSubmit`: the payload goes to `onSubmit`; on failure the banner is
   * the server's detail or the fallback. The values and files are kept either way.
   */
  function Submit(st: FormState, config: Config, outcome: Outcome): (r: Submitted)
    ensures PayloadSpec(r.sent, st.formData, config.fileFields, st.fileData)
    ensures r.state.formData == st.formData && r.state.fileData == st.fileData
    ensures outcome.Succeeded? <==> r.state.error == Empty
  {
    PayloadMeetsSpec(st.formData, config.fileFields, st.fileData);
    var sent := Payload(st.formData, config.fileFields, st.fileData);
    match outcome
    case Succeeded => Submitted(st.(error := Empty), sent)
    case Failed(detail) => Submitted(st.(error := ErrorText(detail, SubmitFallback)), sent)
  }

  /** A failure from a wrapper form reaches the banner as the detail, or the generic fallback. */
  lemma FailureBanner(st: FormState, config: Config, detail: Value)
    ensures Submit(st, config, Failed(detail)).state.error == (if Truthy(detail) then detail else Str(SubmitFallback))
  {
  }
}
