/**
 * `FolderConnector`: the configured folder and batch size, the PDF password
 * taken from the credentials, and the two-phase run (scan and upload, then
 * read, extract and batch).
 */
module Connector {
  import opened Wrappers
  import opened Paths
  import opened Scanner
  import opened Uploader
  import opened Emitter

  /** The credentials entry holding the PDF password. */
  const PdfPasswordKey: string := "pdf_password"

  /**
   * One round of the loop in `load_from_state`: fetch the file's record (or
   * skip the file), tag its metadata in the shared map, extract its documents
   * and yield the accumulator once it holds at least `batchSize` documents.
   */
  method ProcessFile(batches: seq<seq<Document>>, documents: seq<Document>, metadata: map<string, FileMeta>,
                     fileId: FileId, parser: Parser, pdfPass: Option<string>, batchSize: int)
    returns (batches': seq<seq<Document>>, documents': seq<Document>, metadata': map<string, FileMeta>)
    ensures EmitState(batches', documents', metadata') == Step(EmitState(batches, documents, metadata), fileId, parser, pdfPass, batchSize)
  {
    batches', documents', metadata' := batches, documents, metadata;
    var fileRecord := parser.record(fileId);
    if fileRecord.None? {
      return;
    }
    var displayName := fileRecord.value.displayName;
    var fileMetadata := if displayName in metadata then metadata[displayName] else map[];
    if ConnectorTypeKey !in fileMetadata {
      fileMetadata := fileMetadata[ConnectorTypeKey := FolderSource];
      if displayName in metadata {
        // the dictionary tagged is the one held in the shared metadata
        metadata' := metadata[displayName := fileMetadata];
      }
    }
    assert fileMetadata == Tagged(Get(metadata, displayName));
    var newDocs := parser.extract(fileId, displayName, fileMetadata, pdfPass, fileRecord.value.fileType);
    documents' := documents + newDocs;
    if |documents'| >= batchSize {
      batches' := batches + [documents'];
      documents' := [];
    }
  }

  class FolderConnector {
    var folderPath: Path
    var batchSize: int
    var pdfPass: Option<string>

    /** `__init__`: keep the folder and the batch size; no password yet. */
    constructor (folderPath: Path, batchSize: int)
      ensures this.folderPath == folderPath && this.batchSize == batchSize && pdfPass == None
    {
      this.folderPath := folderPath;
      this.batchSize := batchSize;
      pdfPass := None;
    }

    /**
     * `load_credentials`: the password is the `pdf_password` entry, or none
     * when the credentials have no such entry; the folder and the batch size
     * do not change.
     */
    method LoadCredentials(credentials: map<string, string>)
      modifies this
      ensures pdfPass == (if PdfPasswordKey in credentials then Some(credentials[PdfPasswordKey]) else None)
      ensures folderPath == old(folderPath) && batchSize == old(batchSize)
    {
      pdfPass := if PdfPasswordKey in credentials then Some(credentials[PdfPasswordKey]) else None;
    }

    /**
     * `load_from_state`: scan and upload the folder, then for each uploaded
     * file fetch its record (skipping files without one), tag its metadata,
     * extract its documents and yield the accumulator whenever it holds at
     * least `batchSize` documents; a non-empty remainder is yielded last.
     */
    method LoadFromState(root: Root, accepted: Segment -> bool, store: Store, parser: Parser)
      returns (batches: seq<seq<Document>>)
      ensures var u := Upload(store, Scan(folderPath, root, accepted));
        batches == Emit(u.fileIds, u.fileNames, u.metadata, parser, pdfPass, batchSize)
    {
      var fileLocations, fileNames, metadata := UploadFilesFromFolder(folderPath, root, accepted, store);
      batches := [];
      if fileLocations == [] {
        return;
      }
      var documents: seq<Document> := [];
      ghost var uploaded := metadata;
      var pairs := if |fileLocations| <= |fileNames| then |fileLocations| else |fileNames|;
      for i := 0 to pairs
        invariant EmitState(batches, documents, metadata) == States(fileLocations, i, uploaded, parser, pdfPass, batchSize)
      {
        batches, documents, metadata := ProcessFile(batches, documents, metadata, fileLocations[i], parser, pdfPass, batchSize);
      }
      if documents != [] {
        batches := batches + [documents];
      }
    }
  }
}
