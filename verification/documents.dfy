/**
  The documents page (`pages/Documents.tsx`): the list of uploaded documents,
  uploading (append) and removing by id, and the required-documents
  checklist with its completion totals.
 */
module Documents {
  import opened Optional
  import opened Text
  import opened Lists

  datatype DocStatus = Uploaded | Verified | Rejected

  /** A listed document. `size` and `uploadDate` are display text. */
  datatype Document = Document(
    id: string,
    name: string,
    docType: string,
    size: string,
    status: DocStatus,
    uploadDate: string,
    category: string)

  const InitialDocs: seq<Document> := [
    Document("1", "aadhaar_card.pdf", "PDF", "2.3 MB", Verified, "2024-01-15", "Identity Proof"),
    Document("2", "land_records.jpg", "JPG", "1.8 MB", Uploaded, "2024-01-14", "Land Documents")
  ]

  /** A file handed to the page by the browser. `sizeText` is the file size
      already rendered as megabytes (the `toFixed(1)` formatting is not modelled). */
  datatype FileInfo = FileInfo(name: string, mimeType: string, sizeText: string)

  const Unknown := "UNKNOWN"
  const GeneralCategory := "General"

  /** `file.type.split('/')[1]?.toUpperCase() || 'UNKNOWN'`: the upper-cased
      part after the first slash and before the next one, or "UNKNOWN" when
      there is no slash or nothing follows it. */
  function DocType(mimeType: string): (t: string)
    ensures t != ""
  {
    var parts := Split(mimeType, '/');
    if |parts| >= 2 && parts[1] != "" then Upper(parts[1]) else Unknown
  }

  /** A MIME type "major/minor" gives the upper-cased minor type. */
  lemma DocTypeOfMimeType(major: string, minor: string)
    requires '/' !in major && '/' !in minor && minor != ""
    ensures DocType(major + "/" + minor) == Upper(minor)
  {
    SplitAtSeparator(major, '/', minor);
    SplitNoSeparator(minor, '/');
  }

  /** A type without a slash, the empty type included, is "UNKNOWN". */
  lemma DocTypeWithoutSlash(mimeType: string)
    requires '/' !in mimeType
    ensures DocType(mimeType) == Unknown
  {
    SplitNoSeparator(mimeType, '/');
  }

  /** A slash-free part followed by nothing or by a slash is the first piece. */
  lemma SplitFirstPiece(minor: string, rest: string)
    requires '/' !in minor
    requires rest == [] || rest[0] == '/'
    ensures Split(minor + rest, '/')[0] == minor
  {
    if rest == [] {
      assert minor + rest == minor;
      SplitNoSeparator(minor, '/');
    } else {
      assert minor + rest == minor + ['/'] + rest[1..];
      SplitAtSeparator(minor, '/', rest[1..]);
    }
  }

  /** The pieces of "major/minor..." split at slashes start with major and minor. */
  lemma SplitSubtype(major: string, minor: string, rest: string)
    requires '/' !in major && '/' !in minor
    requires rest == [] || rest[0] == '/'
    ensures |Split(major + "/" + minor + rest, '/')| >= 2
    ensures Split(major + "/" + minor + rest, '/')[1] == minor
  {
    var tail := minor + rest;
    SplitFirstPiece(minor, rest);
    SplitAtSeparator(major, '/', tail);
    assert major + "/" + minor + rest == major + ['/'] + tail;
  }

  /** The general case: the type is decided by the part between the first
      and the second slash alone; an empty part gives "UNKNOWN". */
  lemma DocTypeSubtype(major: string, minor: string, rest: string)
    requires '/' !in major && '/' !in minor
    requires rest == [] || rest[0] == '/'
    ensures DocType(major + "/" + minor + rest) == if minor == "" then Unknown else Upper(minor)
  {
    SplitSubtype(major, minor, rest);
  }

  /** A type with nothing after its slash, such as "image/", is "UNKNOWN". */
  lemma DocTypeEmptySubtype(major: string)
    requires '/' !in major
    ensures DocType(major + "/") == Unknown
  {
    SplitAtSeparator(major, '/', "");
    assert major + "/" == major + ['/'] + "";
  }

  lemma PdfType()
    ensures DocType("application/pdf") == "PDF"
  {
    DocTypeOfMimeType("application", "pdf");
    assert "application" + "/" + "pdf" == "application/pdf";
  }

  /** The document `handleFiles` creates for one file; the id (taken from the
      clock in the page) and the upload date are supplied by the caller. */
  function NewDocument(file: FileInfo, id: string, today: string): (d: Document)
    ensures d.id == id && d.name == file.name && d.status == Uploaded && d.category == GeneralCategory
    ensures d.docType == DocType(file.mimeType)
  {
    Document(id, file.name, DocType(file.mimeType), file.sizeText, Uploaded, today, GeneralCategory)
  }

  /** The documents created for a list of files, in order. */
  function NewDocuments(files: seq<FileInfo>, ids: seq<string>, today: string): (r: seq<Document>)
    requires |ids| == |files|
    ensures |r| == |files|
    ensures forall i :: 0 <= i < |files| ==> r[i] == NewDocument(files[i], ids[i], today)
  {
    if files == [] then [] else [NewDocument(files[0], ids[0], today)] + NewDocuments(files[1..], ids[1..], today)
  }

  /** `handleFiles`: each file, in order, appended at the end of the list
      (`setUploadedDocs(prev => [...prev, newDoc])` once per file). */
  function HandleFiles(docs: seq<Document>, files: seq<FileInfo>, ids: seq<string>, today: string): (r: seq<Document>)
    requires |ids| == |files|
    ensures |r| == |docs| + |files|
    ensures r[..|docs|] == docs
    ensures forall i :: 0 <= i < |files| ==> r[|docs| + i] == NewDocument(files[i], ids[i], today)
  {
    docs + NewDocuments(files, ids, today)
  }

  /** `removeDocument(id)`: every document with that id goes, and every
      other document stays, each occurrence of it, in order. */
  function RemoveDocument(docs: seq<Document>, id: string): (r: seq<Document>)
    ensures forall d :: d in r <==> d in docs && d.id != id
    ensures forall d :: multiset(r)[d] == if d.id != id then multiset(docs)[d] else 0
  {
    FilterMultiset(docs, (d: Document) => d.id != id);
    Filter(docs, (d: Document) => d.id != id)
  }

  /** Removal keeps the order of the remaining documents. */
  lemma RemoveKeepsOrder(docs: seq<Document>, id: string)
    ensures IsSubsequence(RemoveDocument(docs, id), docs)
    ensures |RemoveDocument(docs, id)| <= |docs|
  {
    FilterIsSubsequence(docs, (d: Document) => d.id != id);
  }

  /** Removing an id that no document carries changes nothing. */
  lemma RemoveAbsentId(docs: seq<Document>, id: string)
    requires forall i :: 0 <= i < |docs| ==> docs[i].id != id
    ensures RemoveDocument(docs, id) == docs
  {
    FilterKeepsAll(docs, (d: Document) => d.id != id);
  }

  /** Uploading one file under a fresh id and then removing that id gives
      back the list as it was. */
  lemma UploadThenRemove(docs: seq<Document>, file: FileInfo, id: string, today: string)
    requires forall i :: 0 <= i < |docs| ==> docs[i].id != id
    ensures RemoveDocument(HandleFiles(docs, [file], [id], today), id) == docs
  {
    var d := NewDocument(file, id, today);
    var p := (x: Document) => x.id != id;
    assert HandleFiles(docs, [file], [id], today) == docs + [d];
    FilterAppend(docs, [d], p);
    FilterKeepsAll(docs, p);
    assert Filter([d], p) == [];
    assert docs + [] == docs;
  }

  /** Two uploads that received the same clock id are removed together. */
  lemma SameIdRemovedTogether(docs: seq<Document>, f1: FileInfo, f2: FileInfo, id: string, today: string)
    ensures var r := RemoveDocument(HandleFiles(docs, [f1, f2], [id, id], today), id);
      NewDocument(f1, id, today) !in r && NewDocument(f2, id, today) !in r
  {
  }

  /** A checklist row: a document category, the accepted documents, and how
      many are uploaded and required. */
  datatype RequiredCategory = RequiredCategory(category: string, documents: seq<string>, uploaded: nat, required: nat)

  const RequiredDocuments: seq<RequiredCategory> := [
    RequiredCategory("Identity Proof", ["Aadhaar Card", "Pan Card", "Voter ID"], 1, 1),
    RequiredCategory("Land Documents", ["Land Records", "Khasra Number", "Survey Settlement", "Mutation Certificate"], 1, 2),
    RequiredCategory("Bank Documents", ["Bank Passbook", "Cancelled Cheque", "Account Statement"], 0, 1),
    RequiredCategory("Income Proof", ["Income Certificate", "Tax Returns", "Agricultural Income Statement"], 0, 1)
  ]

  function Min(a: nat, b: nat): nat { if a <= b then a else b }

  /** The row's badge is green exactly when enough documents are uploaded. */
  predicate IsComplete(c: RequiredCategory)
  {
    c.uploaded >= c.required
  }

  function TotalRequired(cats: seq<RequiredCategory>): nat
  {
    Sum(cats, (c: RequiredCategory) => c.required)
  }

  /** Uploads beyond a category's requirement do not count. */
  function TotalUploaded(cats: seq<RequiredCategory>): nat
  {
    Sum(cats, (c: RequiredCategory) => Min(c.uploaded, c.required))
  }

  /** The uploaded total never exceeds the required total, and reaches it
      exactly when every category's badge is complete. */
  lemma TotalsBounded(cats: seq<RequiredCategory>)
    ensures TotalUploaded(cats) <= TotalRequired(cats)
    ensures TotalUploaded(cats) == TotalRequired(cats) <==> forall i :: 0 <= i < |cats| ==> IsComplete(cats[i])
  {
    SumLe(cats, (c: RequiredCategory) => Min(c.uploaded, c.required), (c: RequiredCategory) => c.required);
  }

  /** A part of a positive whole, as a percentage, lies in 0..100 and is
      100 exactly when the part is the whole. */
  lemma PercentBounds(part: nat, whole: nat)
    requires 0 < whole && part <= whole
    ensures 0.0 <= part as real / whole as real * 100.0 <= 100.0
    ensures part as real / whole as real * 100.0 == 100.0 <==> part == whole
  {
    var q := part as real / whole as real;
    assert q * whole as real == part as real;
    assert q <= 1.0;
    if q == 1.0 {
      assert part as real == whole as real;
    }
  }

  /** `completionPercentage`; `None` stands for the `NaN` of a checklist that requires nothing. */
  function CompletionPercentage(cats: seq<RequiredCategory>): (p: Option<real>)
    ensures p == None <==> TotalRequired(cats) == 0
    ensures p.Some? ==> 0.0 <= p.value <= 100.0
    ensures p.Some? ==> (p.value == 100.0 <==> forall i :: 0 <= i < |cats| ==> IsComplete(cats[i]))
  {
    TotalsBounded(cats);
    if TotalRequired(cats) == 0 then None
    else
      PercentBounds(TotalUploaded(cats), TotalRequired(cats));
      Some(TotalUploaded(cats) as real / TotalRequired(cats) as real * 100.0)
  }

  /** The page's checklist: two of five required documents, 40 per cent. */
  lemma ChecklistTotals()
    ensures TotalRequired(RequiredDocuments) == 5 && TotalUploaded(RequiredDocuments) == 2
    ensures CompletionPercentage(RequiredDocuments) == Some(40.0)
  {
  }
}
