# Folder connector ingestion pipeline, modelled in Dafny

This project models the folder connector of Onyx
(`backend/onyx/connectors/folder/connector.py`). The connector ingests a local
directory tree in two phases. First it scans the tree and uploads every
eligible file to the file store. Then it reads each stored file back, extracts
documents from it and yields them in batches.

- `paths.dfy` (module `Paths`): paths as sequences of normalised segments, and
  the hidden-path filter `_should_process_file`.
- `scanner.dfy` (module `Scanner`): the directory tree as a recursive datatype.
  `_scan_folder_recursively` is a loop over the walk's own stack of pending
  directories. Hidden subdirectories are pruned before the walk descends. An
  inner loop over each directory's file names applies the hidden-name test,
  the path filter and the extension test. Its specification `Scan` is a
  recursive function. The lemmas `ScanSound` and `ScanComplete` relate `Scan`
  to an independent definition of "a file of the tree" (`FileIn`).
- `uploader.dfy` (module `Uploader`): `_upload_files_from_folder`. Every
  scanned file is saved. A file whose open or save fails is skipped. The ids
  and display names are recorded in parallel, and the metadata is keyed by
  display name, so the last write wins.
- `emitter.dfy` (module `Emitter`): the batching of `load_from_state` as a
  state machine over the uploaded file ids. The lemmas cover order, sizes, file
  boundaries and the metadata tagging.
- `connector.dfy` (module `Connector`): the class `FolderConnector`, with its
  fields `folderPath`, `batchSize` and `pdfPass`, its constructor,
  `LoadCredentials`, and `LoadFromState` written as the source's loop, whose body is `ProcessFile`.
- `wrappers.dfy` (module `Wrappers`): `Option`, which stands for Python's
  `None` and for calls that may fail.

The parts outside the core are parameters:

- the file system (a `Root` value);
- the extension test (`accepted`);
- the MIME table and the file store's save (`Store`);
- the store's records and the extractor (`Parser`).

The batch size is not restricted. The lemmas about non-empty batches assume
`batchSize >= 1`, and `NonPositiveBatchSize` states what the code does
otherwise.

Two details of `connector.py` matter for the batching and filtering contracts:

- The docstring of `_should_process_file` says "Skip directories", but the
  code has no directory test (lines 21-27). It only checks path segments, and
  `ShouldProcessFile` models that.
- The threshold is checked only after a whole file's documents have been
  appended (lines 196-198). So every batch but the last holds at least
  `batch_size` documents, a batch can hold more, and every batch ends on a
  file boundary. `EmitFileBoundaries` states this for all inputs: each batch
  is a run of whole files that would hold fewer than `batch_size` documents
  without its last file. `BatchCanExceedBatchSize` shows one file of three
  documents yielded as a single batch when the batch size is 2.

## Model

| member | source | states |
|---|---|---|
| `Paths.ShouldProcessFile` | backend/onyx/connectors/folder/connector.py:20-27 | a path is processed exactly when none of its normalised segments starts with a dot (so `.secret`, `.` and `..` segments reject it) |
| `Scanner.ScanFolderRecursively` | backend/onyx/connectors/folder/connector.py:30-79 | a missing root or a root that is not a directory gives the empty list; otherwise the result is the walk `Scan` of the tree |
| `Scanner.WalkFolder` | backend/onyx/connectors/folder/connector.py:52-76 | the walk loop, with hidden directories pruned before descent, appends exactly the entries `ScanStack` assigns to the pending directories, in walk order |
| `Scanner.AppendDirectoryFiles` | backend/onyx/connectors/folder/connector.py:56-76 | the inner loop only appends, and appends exactly the files of one directory that pass the hidden-name, path-filter and extension tests, in listing order |
| `Scanner.ScanSound` | backend/onyx/connectors/folder/connector.py:54-76 | every scanned entry names a file of the tree, its full path is the folder followed by its relative path, no directory on its path and not its name is hidden, the filter admits it and its extension is accepted |
| `Scanner.ScanComplete` | backend/onyx/connectors/folder/connector.py:52-76 | every file of the tree whose relative path the filter admits and whose extension is accepted is scanned, so pruning loses no eligible file |
| `Uploader.MimeType` | backend/onyx/connectors/folder/connector.py:106-108 | the content type is the MIME guess for the full path, or `application/octet-stream` when there is none |
| `Uploader.UploadEntries` | backend/onyx/connectors/folder/connector.py:101-131 | the upload loop returns ids and names of equal length, and ids, names and metadata are those of `Upload` on the scanned entries |
| `Uploader.UploadFilesFromFolder` | backend/onyx/connectors/folder/connector.py:86-131 | the upload phase returns `Upload` applied to the scan of the folder, with ids and names of equal length |
| `Uploader.UploadPairing` | backend/onyx/connectors/folder/connector.py:110-118 | the i-th id is what the store returned for the save whose display name is the i-th name, and that name is the base name of the uploaded file's relative path |
| `Uploader.UploadLogSound` | backend/onyx/connectors/folder/connector.py:101-118 | uploads are recorded in strictly increasing scan order, each for the scanned file at its position, with the id its own save returned: the names are an order-preserving subsequence of the scanned base names |
| `Uploader.UploadLogComplete` | backend/onyx/connectors/folder/connector.py:101-129 | the scan positions uploaded are exactly those whose own open-and-save succeeded: a failure at one position skips only that file and does not stop later files |
| `Uploader.MetaMapKeys` | backend/onyx/connectors/folder/connector.py:117-123 | the metadata keys are exactly the returned display names |
| `Uploader.MetaMapLastWins` | backend/onyx/connectors/folder/connector.py:120-123 | a display name maps to the relative and full path of the last uploaded file with that name |
| `Emitter.Tagged` | backend/onyx/connectors/folder/connector.py:184-186 | the metadata passed to extraction contains `connector_type`; a value already present is kept, otherwise it is the folder source, and no other entry changes |
| `Emitter.StatesMetadata` | backend/onyx/connectors/folder/connector.py:184-186 | tagging the shared metadata entry in place keeps its keys, and the tagged entry seen by later files equals the tagged uploader entry |
| `Emitter.StatesFlatten` | backend/onyx/connectors/folder/connector.py:175-200 | the batches yielded so far followed by the accumulator are, in order, the documents of the files that have a record; a file without a record contributes nothing |
| `Emitter.StatesSizes` | backend/onyx/connectors/folder/connector.py:196-200 | with a positive batch size, every batch yielded in the loop has at least `batch_size` documents and the accumulator has fewer |
| `Emitter.EmitBatches` | backend/onyx/connectors/folder/connector.py:169-203 | with a positive batch size, the concatenated batches are the extracted documents in order, every batch but the last has at least `batch_size` documents, and no batch is empty (so no file ids give no batches) |
| `Emitter.StatesCuts` | backend/onyx/connectors/folder/connector.py:177-200 | with a positive batch size, every batch yielded in the loop is the run of documents of a span of whole consecutive files, the spans start at the first file and follow one another, each batch without its last file's documents holds fewer than `batch_size`, and the accumulator is the run of the files after the last span |
| `Emitter.EmitFileBoundaries` | backend/onyx/connectors/folder/connector.py:177-203 | with a positive batch size, every yielded batch, the remainder included, is the documents of a span of whole consecutive files, so no file's documents are split; each batch would hold fewer than `batch_size` documents without its last file; no file after the last batch gave any document |
| `Emitter.NonPositiveBatchSize` | backend/onyx/connectors/folder/connector.py:196-200 | with a batch size of zero or less, the batches are, in order, one per file that has a record, each holding exactly that file's documents (empty if it gave none), and nothing is left in the accumulator |
| `Emitter.BatchCanExceedBatchSize` | backend/onyx/connectors/folder/connector.py:196-200 | one file of three documents with batch size 2 is yielded as a single batch of three |
| `Connector.FolderConnector.constructor` | backend/onyx/connectors/folder/connector.py:143-150 | the connector keeps the folder path and the batch size and has no PDF password |
| `Connector.FolderConnector.LoadCredentials` | backend/onyx/connectors/folder/connector.py:157-159 | the PDF password becomes the `pdf_password` entry, or none when it is absent; the folder path and the batch size do not change |
| `Connector.ProcessFile` | backend/onyx/connectors/folder/connector.py:178-200 | one round of the loop leaves batches, accumulator and shared metadata exactly as the specification step `Step` does: a file without a record changes nothing, otherwise its entry is tagged in place, its documents are appended, and a full accumulator is yielded and reset |
| `Connector.FolderConnector.LoadFromState` | backend/onyx/connectors/folder/connector.py:161-203 | the batches yielded are `Emit` applied to the upload of the scanned folder, the connector's password and its batch size |

## Left out

- The real file system: `os.path.exists`, `os.path.isdir`, `os.walk` and `open` are replaced by a `Root` value holding an abstract tree. Listing order is the order of the tree's sequences. Symbolic links are not modelled.
- Scanner.ScanFolderRecursively: traversal errors (the `except` that logs and re-raises) are not modelled, because the abstract tree cannot fail to be listed.
- The string semantics of `os.path.normpath`, `relpath`, `join` and `basename`: paths are sequences of already-normalised segments, and `..` collapsing is the host library's job. Metadata paths are rendered by joining segments with `/`.
- `mimetypes.guess_type` is an oracle on the full path (`Store.guess`). Only the octet-stream default is the connector's own.
- The file store (`get_default_file_store`, `save_file`, `read_file_record`, `read_file`) is injected. Opening a file and saving it is one oracle, indexed by the file's position in the scan, so each file may fail on its own. Reading the stored bytes is folded into the extractor. `_upload_folder_files` only fetches the global store, so it is the store parameter.
- `_process_file`, `get_file_ext` and `is_accepted_file_ext` are not part of this model. They are parameters, and `Document` is an opaque type. An exception from extraction would abort the run; the model's extractor always returns.
- `INDEX_BATCH_SIZE` (the default batch size) and `DocumentSource.FOLDER` are defined outside this file. The constructor takes the batch size explicitly, and the folder source is modelled as the string `"folder"`.
- Credentials hold arbitrary values in the source. Here they are strings.
- Logging, and the generator's lazy suspend and resume: `LoadFromState` returns the whole sequence of batches that the generator would yield.
- Scanning the same folder twice gives the same result because `Scan` is a function. No separate lemma states this.
