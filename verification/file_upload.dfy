/**
 * The attachment picker: a chosen or dropped file is checked against a size
 * ceiling and then against the accept list (filename extensions, MIME
 * wildcards such as "any image", or exact MIME types). Only an accepted file is
 * handed to the parent form.
 */
module FileUpload {
  import opened Wrappers
  import opened Strings
  import Base64

  /** A browser `File`: its name, MIME type, size in bytes and content. */
  datatype File = File(name: string, mimeType: string, size: nat, content: seq<Base64.byte>)

  /** The picker's own state; the chosen file itself lives in the parent form. */
  datatype UploadState = UploadState(error: string, preview: bool)

  /** The new state and the `onChange` notifications sent to the parent, in order (`None` is `onChange(null)`). */
  datatype Handled = Handled(state: UploadState, notified: seq<Option<File>>)

  const MiB: nat := 1024 * 1024
  const DefaultAccept := "image/*,.pdf,.doc,.docx"
  const DefaultMaxSize: nat := 10 * MiB
  const InvalidTypeMessage := "Invalid file type. Please select a valid file."

  /** `Math.round(maxSize / (1024 * 1024))`: the ceiling in whole MiB, halves rounded up. */
  function RoundMiB(maxSize: nat): (r: nat)
    ensures r * MiB <= maxSize + MiB / 2 < (r + 1) * MiB
  {
    (maxSize + MiB / 2) / MiB
  }

  lemma RoundWholeMiB(n: nat)
    ensures RoundMiB(n * MiB) == n
  {
    assert n * MiB + MiB / 2 == n * 1048576 + 524288;
  }

  function SizeMessage(maxSize: nat): string {
    "File size must be less than " + NatToString(RoundMiB(maxSize)) + "MB"
  }

  /** `accept.split(',').map(type => type.trim())` */
  function AcceptEntries(accept: string): (r: seq<string>)
    ensures |r| == |Split(accept, ',')| && |r| >= 1
    ensures forall i | 0 <= i < |r| :: r[i] == Trim(Split(accept, ',')[i])
  {
    var parts := Split(accept, ',');
    seq(|parts|, i requires 0 <= i < |parts| => Trim(parts[i]))
  }

  /** One accept entry against a file: an extension, a MIME wildcard, or an exact MIME type. */
  predicate EntryMatches(entry: string, f: File) {
    if StartsWith(entry, ".") then EndsWith(ToLower(f.name), entry)
    else if Contains(entry, "/*") then StartsWith(f.mimeType, ReplaceFirst(entry, "/*", "/"))
    else f.mimeType == entry
  }

  /** The file matches some entry of the accept list. */
  predicate Accepts(accept: string, f: File) {
    var entries := AcceptEntries(accept);
    exists i | 0 <= i < |entries| :: EntryMatches(entries[i], f)
  }

  /** `isValidType`: some trimmed entry of the accept list matches the file. */
  method IsValidType(accept: string, f: File) returns (ok: bool)
    ensures ok <==> Accepts(accept, f)
  {
    ok := AnyEntryMatches(AcceptEntries(accept), f);
  }

  /** `allowedTypes.some(...)`, scanning the entries in order and stopping at the first match. */
  method AnyEntryMatches(entries: seq<string>, f: File) returns (ok: bool)
    ensures ok <==> exists j | 0 <= j < |entries| :: EntryMatches(entries[j], f)
  {
    ok := false;
    var i := 0;
    while i < |entries| && !ok
      invariant 0 <= i <= |entries|
      invariant ok <==> exists j | 0 <= j < i :: EntryMatches(entries[j], f)
    {
      ok := EntryMatches(entries[i], f);
      i := i + 1;
    }
  }

  /**
   * `handleFiles`: only the first file counts. An oversized file or one that
   * matches no accept entry sets an error and leaves the parent's value alone;
   * an accepted file clears the error and is handed to the parent once.
   */
  function HandleFiles(st: UploadState, files: seq<File>, accept: string, maxSize: nat): (h: Handled)
    ensures files == [] ==> h == Handled(st, [])
    ensures files != [] && files[0].size > maxSize ==> h == Handled(st.(error := SizeMessage(maxSize)), [])
    ensures files != [] && files[0].size <= maxSize && !Accepts(accept, files[0]) ==>
      h == Handled(st.(error := InvalidTypeMessage), [])
    ensures h.notified != [] <==> files != [] && files[0].size <= maxSize && Accepts(accept, files[0])
    ensures h.notified != [] ==> h.notified == [Some(files[0])] && h.state.error == ""
    ensures h.notified != [] ==> (h.state.preview <==> StartsWith(files[0].mimeType, "image/"))
  {
    if files == [] then Handled(st, [])
    else
      var f := files[0];
      if f.size > maxSize then Handled(st.(error := SizeMessage(maxSize)), [])
      else if !Accepts(accept, f) then Handled(st.(error := InvalidTypeMessage), [])
      else Handled(UploadState("", StartsWith(f.mimeType, "image/")), [Some(f)])
  }

  /** Only the first file of a selection matters. */
  lemma OnlyFirstFile(st: UploadState, f: File, rest: seq<File>, accept: string, maxSize: nat)
    ensures HandleFiles(st, [f] + rest, accept, maxSize) == HandleFiles(st, [f], accept, maxSize)
  {
  }

  /** `handleDrop` and `handleChange` forward a selection only when it has a first file. */
  function HandleSelection(st: UploadState, files: seq<File>, accept: string, maxSize: nat): (h: Handled)
    ensures h == HandleFiles(st, files, accept, maxSize)
  {
    if |files| > 0 then HandleFiles(st, files, accept, maxSize) else Handled(st, [])
  }

  /** `removeFile`: the parent's value becomes null, the error and the preview are cleared. */
  function RemoveFile(st: UploadState): (h: Handled)
    ensures h.notified == [None] && h.state.error == "" && !h.state.preview
  {
    Handled(UploadState("", false), [None])
  }

  /** The size rule comes first: an oversized file of a refused type reports the size. */
  lemma SizeCheckedFirst(st: UploadState, f: File, accept: string, maxSize: nat)
    requires f.size > maxSize && !Accepts(accept, f)
    ensures HandleFiles(st, [f], accept, maxSize).state.error == SizeMessage(maxSize)
  {
  }

  /** A file exactly at the ceiling passes the size rule. */
  lemma CeilingInclusive(st: UploadState, f: File, accept: string)
    requires Accepts(accept, f)
    ensures HandleFiles(st, [f], accept, f.size).notified == [Some(f)]
  {
  }

  /** The ceilings of the templates read back as "5MB" and "10MB". */
  lemma CeilingMessages()
    ensures SizeMessage(5 * MiB) == "File size must be less than 5MB"
    ensures SizeMessage(10 * MiB) == "File size must be less than 10MB"
  {
    RoundWholeMiB(5);
    RoundWholeMiB(10);
  }

  /** An accept list of two untrimmed-safe entries reads back as those entries. */
  lemma TwoEntries(a: string, b: string)
    requires ',' !in a && ',' !in b && Trim(a) == a && Trim(b) == b
    ensures AcceptEntries(a + [','] + b) == [a, b]
  {
    SplitCons(a, b, ',');
    var r := AcceptEntries(a + [','] + b);
    assert |r| == 2 && r[0] == a && r[1] == b;
  }

  lemma ImagePdfEntries()
    ensures AcceptEntries("image/*,.pdf") == ["image/*", ".pdf"]
  {
    var image, pdf := "image/*", ".pdf";
    assert Trim(image) == image by {
      assert image[0] == 'i' && image[|image| - 1] == '*';
      TrimUnchanged(image);
    }
    assert Trim(pdf) == pdf by {
      assert pdf[0] == '.' && pdf[|pdf| - 1] == 'f';
      TrimUnchanged(pdf);
    }
    assert ',' !in image && ',' !in pdf;
    assert image + [','] + pdf == "image/*,.pdf";
    TwoEntries(image, pdf);
  }

  /** The wildcard entry "image/" plus a star matches exactly the image MIME types. */
  lemma ImageWildcard(f: File)
    ensures EntryMatches("image/*", f) <==> StartsWith(f.mimeType, "image/")
  {
    assert "image/*"[0] == 'i';
    assert !StartsWith("image/*", ".");
    assert OccursAt("image/*", "/*", 5);
    assert Contains("image/*", "/*");
    forall j | 0 <= j < 5
      ensures !OccursAt("image/*", "/*", j)
    {
      assert "image/*"[j] != '/';
    }
    assert IndexOf("image/*", "/*") == 5;
    assert ReplaceFirst("image/*", "/*", "/") == "image/";
  }

  /** A file that is neither an image by MIME type nor named ".pdf" is refused by the receipt accept list. */
  lemma NeitherImageNorPdfRefused(f: File)
    requires !StartsWith(f.mimeType, "image/") && !EndsWith(ToLower(f.name), ".pdf")
    ensures !Accepts("image/*,.pdf", f)
  {
    ImagePdfEntries();
    ImageWildcard(f);
    PdfEntry(f);
    NeitherEntryMatches(AcceptEntries("image/*,.pdf"), f);
  }

  /** A two-entry list neither entry of which matches accepts nothing. */
  lemma NeitherEntryMatches(entries: seq<string>, f: File)
    requires |entries| == 2 && !EntryMatches(entries[0], f) && !EntryMatches(entries[1], f)
    ensures !exists i | 0 <= i < |entries| :: EntryMatches(entries[i], f)
  {
  }

  /** The ".pdf" entry matches exactly the names ending in ".pdf", ignoring case. */
  lemma PdfEntry(f: File)
    ensures EntryMatches(".pdf", f) <==> EndsWith(ToLower(f.name), ".pdf")
  {
    assert StartsWith(".pdf", ".");
  }

  /** A zip archive is refused by the receipt accept list (any image, or .pdf). */
  lemma ZipRefused(name: string, size: nat, content: seq<Base64.byte>)
    requires !EndsWith(ToLower(name), ".pdf")
    ensures !Accepts("image/*,.pdf", File(name, "application/zip", size, content))
  {
    var f := File(name, "application/zip", size, content);
    assert !StartsWith(f.mimeType, "image/") by {
      assert f.mimeType[0] != "image/"[0];
    }
    NeitherImageNorPdfRefused(f);
  }

  /** Any file whose name ends in ".pdf", ignoring case, is accepted by the receipt accept list. */
  lemma PdfNameAccepted(f: File)
    requires EndsWith(ToLower(f.name), ".pdf")
    ensures Accepts("image/*,.pdf", f)
  {
    assert EntryMatches(".pdf", f);
    ImagePdfEntries();
    assert EntryMatches(AcceptEntries("image/*,.pdf")[1], f);
  }

  /** A file named receipt.pdf is accepted by the receipt accept list, whatever MIME type the browser reports. */
  lemma ReceiptPdfAccepted(mimeType: string, size: nat, content: seq<Base64.byte>)
    ensures Accepts("image/*,.pdf", File("receipt.pdf", mimeType, size, content))
  {
    var f := File("receipt.pdf", mimeType, size, content);
    assert f.name[7..] == ".pdf";
    LowerKeepsSuffix(f.name, ".pdf");
    PdfNameAccepted(f);
  }

  /** Lower-casing keeps a suffix that has no upper-case letters. */
  lemma LowerKeepsSuffix(name: string, suffix: string)
    requires EndsWith(name, suffix) && forall j | 0 <= j < |suffix| :: LowerChar(suffix[j]) == suffix[j]
    ensures EndsWith(ToLower(name), suffix)
  {
    var k := |name| - |suffix|;
    forall j | 0 <= j < |suffix|
      ensures ToLower(name)[k..][j] == suffix[j]
    {
      assert name[k..][j] == suffix[j];
    }
  }
}
