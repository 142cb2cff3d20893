/**
 The document upload panel (src/components/DocumentUpload.tsx): the file
 extension, the record inserted for an upload, the document prepended to the
 list, and the status update after analysis. Storage, the database and the
 analysis function are represented by their outcomes, which are inputs.
 */
module DocumentUpload {
  import opened Common
  import opened Strings

  /** A document in the panel's list. */
  datatype Document = Document(id: string, name: string, status: string, confidence: real,
                               uploadedAt: string, docType: string)

  /** The panel's state: the list and the two busy flags. */
  datatype Panel = Panel(documents: seq<Document>, uploading: bool, processing: bool)

  /** `file.name.split(".").pop()`: the text after the last dot, or the whole name when it has none. */
  function FileExtension(name: string): (ext: string)
    ensures '.' !in ext
    ensures |ext| <= |name| && name[|name| - |ext|..] == ext
    ensures '.' !in name ==> ext == name
    ensures '.' in name ==> |ext| < |name| && name[|name| - |ext| - 1] == '.'
  {
    SplitLast(name, '.');
    if '.' in name then
      SplitLastAfterSeparator(name, '.');
      LastPiece(name, '.')
    else
      LastPiece(name, '.')
  }

  /** `fileExt || 'unknown'`. */
  function DocumentType(ext: string): (t: string)
    ensures t != ""
    ensures ext != "" ==> t == ext
    ensures ext == "" ==> t == "unknown"
  {
    if ext == "" then "unknown" else ext
  }

  /** A name ending in a dot has an empty extension, so its document type is `unknown`. */
  lemma TrailingDotIsUnknown(stem: string)
    ensures FileExtension(stem + ".") == "" && DocumentType(FileExtension(stem + ".")) == "unknown"
  {
    var name := stem + ".";
    var ext := FileExtension(name);
    assert name[|name| - 1] == '.';
  }

  /** The extension of `stem.ext` is `ext` whenever `ext` has no dot, whatever dots the stem holds. */
  lemma ExtensionAfterLastDot(stem: string, ext: string)
    requires '.' !in ext
    ensures FileExtension(stem + "." + ext) == ext
  {
    var name := stem + "." + ext;
    var e := FileExtension(name);
    assert name[|name| - |ext| - 1] == '.';
    assert name[|name| - |ext|..] == ext;
    assert forall j | 0 <= j < |e| :: e[j] == name[|name| - |e| + j];
    assert forall j | 0 <= j < |ext| :: ext[j] == name[|name| - |ext| + j];
  }

  /** The `processed_documents` row inserted for an upload. */
  datatype DocumentRow = DocumentRow(userId: string, originalFilename: string, storagePath: string,
                                     processingStatus: string, documentType: string)

  /** The row for a file; `random` stands for `Math.random()` in the storage name. */
  function DocumentRowFor(userId: string, fileName: string, random: string): (row: DocumentRow)
    ensures row.originalFilename == fileName && row.processingStatus == "uploaded"
    ensures row.storagePath == random + "." + FileExtension(fileName)
    ensures row.documentType == FileExtension(fileName)
  {
    DocumentRow(userId, fileName, random + "." + FileExtension(fileName), "uploaded", FileExtension(fileName))
  }

  /** `newDoc`: uploaded, confidence 0, typed by its extension. */
  function NewDocument(id: string, fileName: string, now: string): (d: Document)
    ensures d.id == id && d.name == fileName && d.status == "Uploaded" && d.confidence == 0.0
    ensures d.docType == DocumentType(FileExtension(fileName))
  {
    Document(id, fileName, "Uploaded", 0.0, now, DocumentType(FileExtension(fileName)))
  }

  /** What the analysis function answered: an error, or data with a possibly missing `confidence_score`. */
  datatype Analysis = AnalysisFailed(message: string) | AnalysisSucceeded(confidenceScore: Option<real>)

  /** `data?.confidence_score || 95`: a missing or zero score shows as 95. */
  function ShownConfidence(score: Option<real>): (c: real)
    ensures score.Some? && score.value != 0.0 ==> c == score.value
    ensures score.None? || score.value == 0.0 ==> c == 95.0
  {
    if score.Some? && score.value != 0.0 then score.value else 95.0
  }

  /** The list after a successful analysis: the documents with the id are marked analyzed. */
  function MarkAnalyzed(documents: seq<Document>, documentId: string, score: Option<real>): (r: seq<Document>)
    ensures |r| == |documents|
    ensures forall i | 0 <= i < |documents| && documents[i].id != documentId :: r[i] == documents[i]
    ensures forall i | 0 <= i < |documents| && documents[i].id == documentId ::
              r[i] == documents[i].(status := "Analyzed", confidence := ShownConfidence(score))
  {
    seq(|documents|, i requires 0 <= i < |documents| =>
      if documents[i].id == documentId
      then documents[i].(status := "Analyzed", confidence := ShownConfidence(score))
      else documents[i])
  }

  /** `analyzeDocument`: on success mark the document; on error keep the list; either way processing ends. */
  function AnalyzeDocument(panel: Panel, documentId: string, analysis: Analysis): (p: Panel)
    ensures !p.processing && p.uploading == panel.uploading
    ensures analysis.AnalysisFailed? ==> p.documents == panel.documents
    ensures analysis.AnalysisSucceeded? ==> p.documents == MarkAnalyzed(panel.documents, documentId, analysis.confidenceScore)
  {
    match analysis
    case AnalysisFailed(_) => panel.(processing := false)
    case AnalysisSucceeded(score) => panel.(documents := MarkAnalyzed(panel.documents, documentId, score), processing := false)
  }

  /** Analysing the same document twice with the same answer changes nothing the second time. */
  lemma AnalyzeTwiceIsAnalyzeOnce(panel: Panel, documentId: string, analysis: Analysis)
    ensures var once := AnalyzeDocument(panel, documentId, analysis);
            AnalyzeDocument(once, documentId, analysis) == once
  {
  }

  /** A zero confidence score from the analysis shows as 95. */
  lemma ZeroScoreShowsAsNinetyFive(panel: Panel, documentId: string, k: nat)
    requires k < |panel.documents| && panel.documents[k].id == documentId
    ensures AnalyzeDocument(panel, documentId, AnalysisSucceeded(Some(0.0))).documents[k].confidence == 95.0
  {
  }

  /** The file chosen in the input, if any. */
  datatype Chosen = NoFile | File(name: string)

  /** What the insert into `processed_documents` answered. */
  datatype Insert = InsertFailed(message: string) | Inserted(id: string)

  /** The panel after an upload attempt, and the row inserted, if any. */
  datatype Upload = Upload(panel: Panel, row: Option<DocumentRow>)

  /**
   `handleFileUpload`. With no file nothing happens. A storage or insert error
   leaves the list as it was. Otherwise the new document is prepended and then
   analysed. Whatever happens, uploading ends.
   */
  function HandleFileUpload(panel: Panel, file: Chosen, userId: string, random: string,
                            uploadError: Option<string>, insert: Insert, analysis: Analysis, now: string): (u: Upload)
    ensures !u.panel.uploading
    ensures file.NoFile? ==> u == Upload(panel.(uploading := false), None)
    ensures file.File? && uploadError.Some? ==> u == Upload(panel.(uploading := false), None)
    ensures file.File? && uploadError.None? ==> u.row == Some(DocumentRowFor(userId, file.name, random))
    ensures file.File? && uploadError.None? && insert.InsertFailed? ==> u.panel.documents == panel.documents
    ensures file.File? && uploadError.None? && insert.Inserted? ==>
              |u.panel.documents| == |panel.documents| + 1 && !u.panel.processing
              && u.panel.documents[0].id == insert.id && u.panel.documents[0].name == file.name
  {
    match file
    case NoFile => Upload(panel.(uploading := false), None)
    case File(name) =>
      if uploadError.Some? then Upload(panel.(uploading := false), None)
      else
        var row := DocumentRowFor(userId, name, random);
        match insert
        case InsertFailed(_) => Upload(panel.(uploading := false), Some(row))
        case Inserted(id) =>
          var added := panel.(documents := [NewDocument(id, name, now)] + panel.documents, uploading := true);
          Upload(AnalyzeDocument(added, id, analysis).(uploading := false), Some(row))
  }

  /**
   A successful upload under a new id: the rest of the list is untouched, and the
   new document ends analysed when the analysis succeeds, uploaded when it fails.
   */
  lemma UploadOnlyTouchesNewDocument(panel: Panel, name: string, userId: string, random: string,
                                     id: string, analysis: Analysis, now: string)
    requires forall i | 0 <= i < |panel.documents| :: panel.documents[i].id != id
    ensures var docs := HandleFileUpload(panel, File(name), userId, random, None, Inserted(id), analysis, now).panel.documents;
            docs[1..] == panel.documents
            && docs[0].status == (if analysis.AnalysisSucceeded? then "Analyzed" else "Uploaded")
            && docs[0].docType == DocumentType(FileExtension(name))
  {
    var newDoc := NewDocument(id, name, now);
    var added := [newDoc] + panel.documents;
    var analysed := AnalyzeDocument(Panel(added, true, panel.processing), id, analysis).documents;
    assert HandleFileUpload(panel, File(name), userId, random, None, Inserted(id), analysis, now).panel.documents == analysed;
    assert added[1..] == panel.documents;
    match analysis
    case AnalysisFailed(_) =>
    case AnalysisSucceeded(score) =>
      MarkOnlyFirst(newDoc, panel.documents, id, score);
  }

  /** Marking a list whose only document with the id is its head marks the head alone. */
  lemma MarkOnlyFirst(first: Document, rest: seq<Document>, id: string, score: Option<real>)
    requires first.id == id
    requires forall i | 0 <= i < |rest| :: rest[i].id != id
    ensures MarkAnalyzed([first] + rest, id, score)[1..] == rest
    ensures MarkAnalyzed([first] + rest, id, score)[0] == first.(status := "Analyzed", confidence := ShownConfidence(score))
  {
    var all := [first] + rest;
    var marked := MarkAnalyzed(all, id, score);
    forall i | 0 <= i < |rest| ensures marked[1..][i] == rest[i] {
      assert all[i + 1] == rest[i];
    }
  }
}
