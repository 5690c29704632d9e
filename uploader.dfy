/**
 * The uploader `_upload_files_from_folder`: every scanned file is saved to the
 * file store; a file whose opening or saving fails is skipped and the others
 * go on. The store, the file system and the MIME table are parameters.
 */
module Uploader {
  import opened Wrappers
  import opened Paths
  import opened Scanner

  /** Identifiers the file store assigns to saved files. */
  type FileId = string

  /** The content type used when the MIME table knows nothing of a file. */
  const OctetStream: string := "application/octet-stream"

  /** The origin tag of saved files; this connector passes `FileOrigin.CONNECTOR`. */
  datatype FileOrigin = Connector

  /** The arguments of one `save_file` call (the open file handle stands for its content). */
  datatype SaveRequest = SaveRequest(fullPath: Path, displayName: string, origin: FileOrigin, fileType: string)

  /** The metadata dictionary stored for one display name. */
  type FileMeta = map<string, string>

  const RelativePathKey: string := "relative_path"
  const FullPathKey: string := "full_path"

  /** One successful upload: the position of the file in the scan, the id the store gave it and the file. */
  datatype Uploaded = Uploaded(index: nat, fileId: FileId, entry: ScanEntry)

  /** What the uploader returns: ids and display names in parallel, and metadata by display name. */
  datatype UploadResult = UploadResult(fileIds: seq<FileId>, fileNames: seq<string>, metadata: map<string, FileMeta>)

  /**
   * The oracles the uploader consults. `guess` is `mimetypes.guess_type` on the
   * full path; `save(k, request)` is the outcome of opening the `k`-th scanned
   * file and saving it with `request`: `None` when the open or the save raises.
   */
  datatype Store = Store(save: (nat, SaveRequest) -> Option<FileId>, guess: Path -> Option<string>)

  /** The content type of a file: the guess, or the octet-stream default. */
  function MimeType(store: Store, fullPath: Path): (r: string)
    ensures store.guess(fullPath).Some? ==> r == store.guess(fullPath).value
    ensures store.guess(fullPath).None? ==> r == OctetStream
  {
    match store.guess(fullPath)
    case Some(t) => t
    case None => OctetStream
  }

  /** The display name of a file: the base name of its relative path. */
  function DisplayName(e: ScanEntry): string {
    Basename(e.relativePath)
  }

  /** The save call made for one scanned file. */
  function Request(store: Store, e: ScanEntry): SaveRequest {
    SaveRequest(e.fullPath, DisplayName(e), Connector, MimeType(store, e.fullPath))
  }

  /** The metadata recorded for an uploaded file. */
  function MetaOf(e: ScanEntry): FileMeta {
    map[RelativePathKey := PathText(e.relativePath), FullPathKey := PathText(e.fullPath)]
  }

  /** One round of the upload loop, with the exception turned into `None`. */
  function UploadOne(store: Store, k: nat, e: ScanEntry): Option<Uploaded> {
    match store.save(k, Request(store, e))
    case Some(id) => Some(Uploaded(k, id, e))
    case None => None
  }

  /** The successful uploads among the first `n` scanned files, in scan order. */
  function UploadLog(store: Store, entries: seq<ScanEntry>, n: nat): seq<Uploaded>
    requires n <= |entries|
  {
    if n == 0 then []
    else UploadLog(store, entries, n - 1) + AsSeq(UploadOne(store, n - 1, entries[n - 1]))
  }

  function Ids(log: seq<Uploaded>): seq<FileId> {
    seq(|log|, i requires 0 <= i < |log| => log[i].fileId)
  }

  function Names(log: seq<Uploaded>): seq<string> {
    seq(|log|, i requires 0 <= i < |log| => DisplayName(log[i].entry))
  }

  /** The metadata dictionary after the writes of `log`, in order. */
  function MetaMap(log: seq<Uploaded>): map<string, FileMeta> {
    if log == [] then map[]
    else
      var last := log[|log| - 1];
      MetaMap(log[..|log| - 1])[DisplayName(last.entry) := MetaOf(last.entry)]
  }

  /** The specification of the uploader over the scanned files `entries`. */
  function Upload(store: Store, entries: seq<ScanEntry>): UploadResult {
    var log := UploadLog(store, entries, |entries|);
    UploadResult(Ids(log), Names(log), MetaMap(log))
  }

  /**
   * Uploader order and provenance: the log lists files of the scan in strictly
   * increasing scan position, and each was saved with its own request, the
   * store answering with the id the log records.
   */
  lemma {:induction false} UploadLogSound(store: Store, entries: seq<ScanEntry>, n: nat)
    requires n <= |entries|
    ensures forall i :: 0 <= i < |UploadLog(store, entries, n)| ==>
      var u := UploadLog(store, entries, n)[i];
      u.index < n && u.entry == entries[u.index] && store.save(u.index, Request(store, u.entry)) == Some(u.fileId)
    ensures forall i, j :: 0 <= i < j < |UploadLog(store, entries, n)| ==>
      UploadLog(store, entries, n)[i].index < UploadLog(store, entries, n)[j].index
  {
    if n > 0 {
      UploadLogSound(store, entries, n - 1);
    }
  }

  /**
   * Uploader parallel lists: the ids and the names have one entry per
   * successful upload; the `i`-th id is what the store answered to the save
   * whose display name is the `i`-th name, the base name of that file's
   * relative path.
   */
  lemma UploadPairing(store: Store, entries: seq<ScanEntry>)
    ensures var r, log := Upload(store, entries), UploadLog(store, entries, |entries|);
      |r.fileIds| == |r.fileNames| == |log| &&
      forall i :: 0 <= i < |log| ==>
        log[i].index < |entries| &&
        store.save(log[i].index, Request(store, entries[log[i].index])) == Some(r.fileIds[i]) &&
        Request(store, entries[log[i].index]).displayName == r.fileNames[i] &&
        r.fileNames[i] == Basename(entries[log[i].index].relativePath)
  {
    UploadLogSound(store, entries, |entries|);
  }

  /** The scan positions of the files in a log. */
  function Positions(log: seq<Uploaded>): set<nat> {
    set i | 0 <= i < |log| :: log[i].index
  }

  lemma PositionsAppend(prev: seq<Uploaded>, step: seq<Uploaded>)
    ensures Positions(prev + step) == Positions(prev) + Positions(step)
  {
    forall x | x in Positions(prev + step) ensures x in Positions(prev) + Positions(step) {
      var i :| 0 <= i < |prev + step| && (prev + step)[i].index == x;
      if i >= |prev| { assert step[i - |prev|].index == x; }
    }
    forall x | x in Positions(prev) ensures x in Positions(prev + step) {
      var i :| 0 <= i < |prev| && prev[i].index == x;
      assert (prev + step)[i] == prev[i];
    }
    forall x | x in Positions(step) ensures x in Positions(prev + step) {
      var i :| 0 <= i < |step| && step[i].index == x;
      assert (prev + step)[|prev| + i] == step[i];
    }
  }

  /** The scan positions, below `n`, whose save succeeds. */
  function Succeeded(store: Store, entries: seq<ScanEntry>, n: nat): set<nat>
    requires n <= |entries|
  {
    set k | 0 <= k < n && store.save(k, Request(store, entries[k])).Some?
  }

  /**
   * Uploader failure isolation: the scan positions uploaded are exactly those
   * whose own save succeeded; a failure skips that file only.
   */
  lemma {:induction false} UploadLogComplete(store: Store, entries: seq<ScanEntry>, n: nat)
    requires n <= |entries|
    ensures Positions(UploadLog(store, entries, n)) == Succeeded(store, entries, n)
  {
    if n > 0 {
      UploadLogComplete(store, entries, n - 1);
      var step := AsSeq(UploadOne(store, n - 1, entries[n - 1]));
      PositionsAppend(UploadLog(store, entries, n - 1), step);
      var ok := store.save(n - 1, Request(store, entries[n - 1])).Some?;
      if ok {
        assert step == [Uploaded(n - 1, store.save(n - 1, Request(store, entries[n - 1])).value, entries[n - 1])];
        assert step[0].index == n - 1;
        assert Positions(step) == {n - 1};
      } else {
        assert Positions(step) == {};
      }
      assert Succeeded(store, entries, n) == Succeeded(store, entries, n - 1) + (if ok then {n - 1} else {});
    }
  }

  /** The metadata keys are exactly the display names returned. */
  lemma {:induction false} MetaMapKeys(log: seq<Uploaded>)
    ensures MetaMap(log).Keys == set x | x in Names(log)
  {
    if log != [] {
      var init := log[..|log| - 1];
      MetaMapKeys(init);
      assert Names(log) == Names(init) + [DisplayName(log[|log| - 1].entry)];
    }
  }

  /**
   * Last write wins: a display name holds the paths of the last uploaded file
   * that carries it.
   */
  lemma {:induction false} MetaMapLastWins(log: seq<Uploaded>, i: nat)
    requires i < |log|
    requires forall j :: i < j < |log| ==> DisplayName(log[j].entry) != DisplayName(log[i].entry)
    ensures DisplayName(log[i].entry) in MetaMap(log)
    ensures MetaMap(log)[DisplayName(log[i].entry)] == MetaOf(log[i].entry)
  {
    if i < |log| - 1 {
      var init := log[..|log| - 1];
      assert init[i] == log[i];
      MetaMapLastWins(init, i);
    }
  }

  /** One round of the upload loop, seen through the three results. */
  lemma UploadStep(store: Store, entries: seq<ScanEntry>, n: nat)
    requires n < |entries|
    ensures store.save(n, Request(store, entries[n])).None? ==>
      UploadLog(store, entries, n + 1) == UploadLog(store, entries, n)
    ensures store.save(n, Request(store, entries[n])).Some? ==>
      var log, e := UploadLog(store, entries, n), entries[n];
      Ids(UploadLog(store, entries, n + 1)) == Ids(log) + [store.save(n, Request(store, e)).value] &&
      Names(UploadLog(store, entries, n + 1)) == Names(log) + [DisplayName(e)] &&
      MetaMap(UploadLog(store, entries, n + 1)) == MetaMap(log)[DisplayName(e) := MetaOf(e)]
  {
    var outcome := store.save(n, Request(store, entries[n]));
    if outcome.Some? {
      ProjectionsAppend(UploadLog(store, entries, n), Uploaded(n, outcome.value, entries[n]));
    }
  }

  lemma ProjectionsAppend(log: seq<Uploaded>, u: Uploaded)
    ensures Ids(log + [u]) == Ids(log) + [u.fileId]
    ensures Names(log + [u]) == Names(log) + [DisplayName(u.entry)]
    ensures MetaMap(log + [u]) == MetaMap(log)[DisplayName(u.entry) := MetaOf(u.entry)]
  {
    assert (log + [u])[..|log|] == log;
  }

  /**
   * `_upload_files_from_folder` over the scanned files: for each entry the
   * content type is guessed, the file is saved under its base name, and on
   * success the id, the name and the metadata are recorded; on failure the
   * entry is skipped.
   */
  method UploadEntries(store: Store, files: seq<ScanEntry>)
    returns (fileIds: seq<FileId>, fileNames: seq<string>, metadata: map<string, FileMeta>)
    ensures |fileIds| == |fileNames|
    ensures UploadResult(fileIds, fileNames, metadata) == Upload(store, files)
  {
    fileIds, fileNames, metadata := [], [], map[];
    for k := 0 to |files|
      invariant fileIds == Ids(UploadLog(store, files, k))
      invariant fileNames == Names(UploadLog(store, files, k))
      invariant metadata == MetaMap(UploadLog(store, files, k))
    {
      var fullPath, relativePath := files[k].fullPath, files[k].relativePath;
      var mimeType := store.guess(fullPath);
      if mimeType.None? {
        mimeType := Some(OctetStream);
      }
      var outcome := store.save(k, SaveRequest(fullPath, Basename(relativePath), Connector, mimeType.value));
      assert SaveRequest(fullPath, Basename(relativePath), Connector, mimeType.value) == Request(store, files[k]);
      UploadStep(store, files, k);
      if outcome.None? {
        continue;
      }
      assert map[RelativePathKey := PathText(relativePath), FullPathKey := PathText(fullPath)] == MetaOf(files[k]);
      fileIds := fileIds + [outcome.value];
      fileNames := fileNames + [Basename(relativePath)];
      metadata := metadata[Basename(relativePath) := map[RelativePathKey := PathText(relativePath), FullPathKey := PathText(fullPath)]];
    }
  }

  /** `_upload_files_from_folder`: scan the folder, then upload what was found. */
  method UploadFilesFromFolder(folder: Path, root: Root, accepted: Segment -> bool, store: Store)
    returns (fileIds: seq<FileId>, fileNames: seq<string>, metadata: map<string, FileMeta>)
    ensures |fileIds| == |fileNames|
    ensures UploadResult(fileIds, fileNames, metadata) == Upload(store, Scan(folder, root, accepted))
  {
    var filesToUpload := ScanFolderRecursively(folder, root, accepted);
    fileIds, fileNames, metadata := UploadEntries(store, filesToUpload);
  }
}
