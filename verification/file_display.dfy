/**
 * The attachment card: shown only for a stored file with a name, it picks an
 * icon, builds an inline preview URL for images (a data URL as in section 3
 * of RFC 2397) and turns the base64 text (section 4 of RFC 4648) back into
 * the file's bytes for download and preview.
 */
module FileDisplay {
  import opened Wrappers
  import opened Strings
  import opened JsValues
  import Base64
  import opened DynamicForm

  /** Nothing is rendered unless both the base64 text and the file name are non-empty. */
  predicate Renders(fileData: string, fileName: string) {
    fileData != "" && fileName != ""
  }

  datatype Icon = ImageIcon | PdfIcon | GenericIcon

  /** `getFileIcon`: an image type first, then a name ending in ".pdf" in any case, else the generic icon. */
  function FileIcon(fileType: Option<string>, fileName: string): (r: Icon)
    ensures r == ImageIcon <==> fileType.Some? && StartsWith(fileType.value, "image/")
    ensures r == PdfIcon <==> !(fileType.Some? && StartsWith(fileType.value, "image/")) && EndsWith(ToLower(fileName), ".pdf")
  {
    if fileType.Some? && StartsWith(fileType.value, "image/") then ImageIcon
    else if EndsWith(ToLower(fileName), ".pdf") then PdfIcon
    else GenericIcon
  }

  /** An image wins over its file name: a picture named scan.PDF still shows the image icon. */
  lemma ImageBeatsPdfName(t: string, name: string)
    requires StartsWith(t, "image/")
    ensures FileIcon(Some(t), name) == ImageIcon
  {
  }

  /** `getPreviewUrl`: the data URL of an image, else none. */
  function PreviewUrl(fileType: Option<string>, fileData: string): (r: Option<string>)
    ensures r.Some? <==> fileType.Some? && StartsWith(fileType.value, "image/")
    ensures r.Some? ==> r.value == "data:" + fileType.value + ";base64," + fileData
  {
    if fileType.Some? && StartsWith(fileType.value, "image/") then Some("data:" + fileType.value + ";base64," + fileData)
    else None
  }

  /**
   * The preview of an uploaded image is the very data URL the form read, so
   * taking the text after its first comma gives back the stored base64 text,
   * and decoding that gives back the bytes.
   */
  lemma PreviewRoundTrip(mimeType: string, content: seq<Base64.byte>)
    requires StartsWith(mimeType, "image/") && ',' !in mimeType
    ensures PreviewUrl(Some(mimeType), Base64.Encode(content)) == Some(DataUrl(mimeType, content))
    ensures AfterFirstComma(PreviewUrl(Some(mimeType), Base64.Encode(content)).value) == Str(Base64.Encode(content))
    ensures Base64.Decode(AfterFirstComma(PreviewUrl(Some(mimeType), Base64.Encode(content)).value).s) == Some(content)
  {
    ExtractDataUrl(mimeType, content);
  }

  /** `fileType || 'application/octet-stream'` */
  function BlobType(fileType: Option<string>): (r: string)
    ensures fileType.Some? && fileType.value != "" ==> r == fileType.value
    ensures fileType.None? || fileType.value == "" ==> r == "application/octet-stream"
  {
    if fileType.Some? && fileType.value != "" then fileType.value else "application/octet-stream"
  }

  /** The blob always gets a type, and a stored non-empty type is kept as it is; a second fallback changes nothing. */
  lemma BlobTypeNeverBlank(fileType: Option<string>)
    ensures BlobType(fileType) != ""
    ensures BlobType(Some(BlobType(fileType))) == BlobType(fileType)
    ensures forall t: string | t != "" :: BlobType(Some(t)) == t
  {
  }

  /** The "binary string" `atob` returns: one character per byte, its code the byte's value. */
  function BinaryString(bytes: seq<Base64.byte>): (s: string)
    ensures |s| == |bytes|
    ensures forall i | 0 <= i < |bytes| :: s[i] as int == bytes[i]
  {
    seq(|bytes|, i requires 0 <= i < |bytes| => bytes[i] as char)
  }

  /**
   * The copy loop: `byteNumbers[i] = chars.charCodeAt(i)` for every index,
   * then `new Uint8Array(byteNumbers)`, which keeps each code modulo 256.
   */
  method CharCodesToBytes(chars: string) returns (bytes: seq<Base64.byte>)
    ensures |bytes| == |chars|
    ensures forall i | 0 <= i < |chars| :: bytes[i] == chars[i] as int % 256
  {
    bytes := [];
    var i := 0;
    while i < |chars|
      invariant 0 <= i <= |chars| && |bytes| == i
      invariant forall j | 0 <= j < i :: bytes[j] == chars[j] as int % 256
    {
      bytes := bytes + [chars[i] as int % 256];
      i := i + 1;
    }
  }

  /** A blob handed to the browser: its bytes and its MIME type. */
  datatype Blob = Blob(bytes: seq<Base64.byte>, mimeType: string)

  /**
   * `downloadFile` and `openPreview`: decode the base64 text, copy the
   * character codes into bytes and wrap them with the type or the
   * octet-stream fallback. Text that does not decode yields no blob (the
   * error is only logged).
   */
  method MakeBlob(fileData: string, fileType: Option<string>) returns (r: Option<Blob>)
    ensures r.Some? <==> Base64.ForgivingDecode(fileData).Some?
    ensures r.Some? ==> r.value.bytes == Base64.ForgivingDecode(fileData).value && r.value.mimeType == BlobType(fileType)
  {
    var decoded := Base64.ForgivingDecode(fileData);
    if decoded.None? {
      return None;
    }
    var chars := BinaryString(decoded.value);
    var bytes := CharCodesToBytes(chars);
    CopyKeepsBytes(decoded.value, bytes);
    r := Some(Blob(bytes, BlobType(fileType)));
  }

  /** Copying the codes of a binary string modulo 256 gives back its bytes. */
  lemma CopyKeepsBytes(data: seq<Base64.byte>, bytes: seq<Base64.byte>)
    requires |bytes| == |BinaryString(data)|
    requires forall i | 0 <= i < |bytes| :: bytes[i] == BinaryString(data)[i] as int % 256
    ensures bytes == data
  {
  }

  /** The blob of a file the server sent back as its canonical base64 text holds exactly the stored bytes. */
  method StoredFileBlob(content: seq<Base64.byte>, fileType: Option<string>) returns (r: Option<Blob>)
    ensures r == Some(Blob(content, BlobType(fileType)))
  {
    Base64.ForgivingRoundTrip(content);
    r := MakeBlob(Base64.Encode(content), fileType);
  }
}
