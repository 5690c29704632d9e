/**
 * The batch emitter of `FolderConnector.load_from_state`: for each uploaded
 * file, fetch its record, tag its metadata, extract its documents and add them
 * to an accumulator that is handed out as a batch once it holds at least
 * `batch_size` documents. The generator is modelled by the whole sequence of
 * batches it yields.
 */
module Emitter {
  import opened Wrappers
  import opened Uploader

  /** A document produced by extraction; its structure is not part of this model. */
  type Document(==)

  /** The key of the metadata entry naming the connector. */
  const ConnectorTypeKey: string := "connector_type"

  /** `DocumentSource.FOLDER.value`. */
  const FolderSource: string := "folder"

  /** What `read_file_record` returns for a stored file. */
  datatype FileRecord = FileRecord(displayName: string, fileType: string)

  /**
   * The file store's records and the extraction step `_process_file`;
   * `extract(id, name, metadata, pdfPass, fileType)` stands for reading the
   * stored bytes of `id` and extracting documents from them.
   */
  datatype Parser = Parser(
    record: FileId -> Option<FileRecord>,
    extract: (FileId, string, FileMeta, Option<string>, string) -> seq<Document>)

  /**
   * The metadata passed to extraction always names the connector: the value
   * already present is kept, otherwise it is the folder source; nothing else
   * changes.
   */
  function Tagged(m: FileMeta): (r: FileMeta)
    ensures ConnectorTypeKey in r
    ensures r.Keys == m.Keys + {ConnectorTypeKey}
    ensures forall k :: k in m ==> r[k] == m[k]
    ensures ConnectorTypeKey !in m ==> r[ConnectorTypeKey] == FolderSource
  {
    if ConnectorTypeKey in m then m else m[ConnectorTypeKey := FolderSource]
  }

  /** The metadata entry for `name`, or an empty map when there is none. */
  function Get(metadata: map<string, FileMeta>, name: string): FileMeta {
    if name in metadata then metadata[name] else map[]
  }

  /** The state of the generator between files: batches yielded so far, the accumulator, the shared metadata. */
  datatype EmitState = EmitState(batches: seq<seq<Document>>, documents: seq<Document>, metadata: map<string, FileMeta>)

  /**
   * One round of the loop over `(file_id, file_name)`: a file without a record
   * is skipped; otherwise its metadata entry is tagged in place (a missing
   * entry is a fresh dictionary that is not stored), its documents are
   * appended, and the accumulator is yielded once it is long enough.
   */
  function Step(s: EmitState, fileId: FileId, parser: Parser, pdfPass: Option<string>, batchSize: int): EmitState {
    match parser.record(fileId)
    case None => s
    case Some(rec) =>
      var tagged := Tagged(Get(s.metadata, rec.displayName));
      var metadata := if rec.displayName in s.metadata then s.metadata[rec.displayName := tagged] else s.metadata;
      var documents := s.documents + parser.extract(fileId, rec.displayName, tagged, pdfPass, rec.fileType);
      if |documents| >= batchSize then EmitState(s.batches + [documents], [], metadata)
      else EmitState(s.batches, documents, metadata)
  }

  /** The state after the first `n` file ids. */
  function States(fileIds: seq<FileId>, n: nat, metadata: map<string, FileMeta>, parser: Parser,
                  pdfPass: Option<string>, batchSize: int): EmitState
    requires n <= |fileIds|
  {
    if n == 0 then EmitState([], [], metadata)
    else Step(States(fileIds, n - 1, metadata, parser, pdfPass, batchSize), fileIds[n - 1], parser, pdfPass, batchSize)
  }

  /** The number of pairs the loop visits: `zip` stops at the shorter list. */
  function Pairs(fileIds: seq<FileId>, fileNames: seq<string>): nat {
    if |fileIds| <= |fileNames| then |fileIds| else |fileNames|
  }

  /** Everything the generator yields: no batch without file ids, else the full batches and a non-empty remainder. */
  function Emit(fileIds: seq<FileId>, fileNames: seq<string>, metadata: map<string, FileMeta>, parser: Parser,
                pdfPass: Option<string>, batchSize: int): seq<seq<Document>>
  {
    if fileIds == [] then []
    else
      var s := States(fileIds, Pairs(fileIds, fileNames), metadata, parser, pdfPass, batchSize);
      s.batches + (if s.documents != [] then [s.documents] else [])
  }

  /** The concatenation of a sequence of batches. */
  function Concat(bs: seq<seq<Document>>): seq<Document> {
    if bs == [] then [] else Concat(bs[..|bs| - 1]) + bs[|bs| - 1]
  }

  /**
   * The reference definition: the documents extracted from each file that has
   * a record, in order, each with the tagged metadata of its display name as
   * the uploader left it.
   */
  function FileDocs(fileId: FileId, metadata: map<string, FileMeta>, parser: Parser, pdfPass: Option<string>): seq<Document> {
    match parser.record(fileId)
    case None => []
    case Some(rec) => parser.extract(fileId, rec.displayName, Tagged(Get(metadata, rec.displayName)), pdfPass, rec.fileType)
  }

  /** The documents of the files `fileIds[lo..hi]` that have a record, in order. */
  function FileRun(fileIds: seq<FileId>, lo: nat, hi: nat, metadata: map<string, FileMeta>, parser: Parser,
                   pdfPass: Option<string>): seq<Document>
    requires lo <= hi <= |fileIds|
    decreases hi - lo
  {
    if lo == hi then []
    else FileRun(fileIds, lo, hi - 1, metadata, parser, pdfPass) + FileDocs(fileIds[hi - 1], metadata, parser, pdfPass)
  }

  /** The documents of the first `n` files. */
  function ExtractedDocs(fileIds: seq<FileId>, n: nat, metadata: map<string, FileMeta>, parser: Parser, pdfPass: Option<string>): seq<Document>
    requires n <= |fileIds|
  {
    FileRun(fileIds, 0, n, metadata, parser, pdfPass)
  }

  /** One batch per file of the first `n` that has a record, holding that file's documents. */
  function PerFile(fileIds: seq<FileId>, n: nat, metadata: map<string, FileMeta>, parser: Parser,
                   pdfPass: Option<string>): seq<seq<Document>>
    requires n <= |fileIds|
  {
    if n == 0 then []
    else
      PerFile(fileIds, n - 1, metadata, parser, pdfPass) +
      (if parser.record(fileIds[n - 1]).Some? then [FileDocs(fileIds[n - 1], metadata, parser, pdfPass)] else [])
  }

  /** The first file of the `j`-th run cut at `bounds`. */
  function Start(bounds: seq<nat>, j: nat): nat
    requires j + 1 < |bounds|
  {
    bounds[j]
  }

  /** The file after the last of the `j`-th run cut at `bounds`. */
  function End(bounds: seq<nat>, j: nat): nat
    requires j + 1 < |bounds|
  {
    bounds[j + 1]
  }

  /**
   * `batches` are runs of whole files among the first `n`: the bounds start
   * at 0 and increase, and the `j`-th batch is the run of files from
   * `bounds[j]` up to `bounds[j + 1]`.
   */
  ghost predicate CutAt(fileIds: seq<FileId>, n: nat, metadata: map<string, FileMeta>, parser: Parser,
                        pdfPass: Option<string>, batches: seq<seq<Document>>, bounds: seq<nat>)
    requires n <= |fileIds|
  {
    |bounds| == |batches| + 1 && bounds[0] == 0 && bounds[|batches|] <= n &&
    forall j :: 0 <= j < |batches| ==>
      Start(bounds, j) < End(bounds, j) <= n &&
      batches[j] == FileRun(fileIds, Start(bounds, j), End(bounds, j), metadata, parser, pdfPass)
  }

  /** Each batch cut at `bounds` holds fewer than `batchSize` documents without those of its last file. */
  ghost predicate Greedy(fileIds: seq<FileId>, n: nat, metadata: map<string, FileMeta>, parser: Parser,
                         pdfPass: Option<string>, batchSize: int, batches: seq<seq<Document>>, bounds: seq<nat>)
    requires n <= |fileIds| && CutAt(fileIds, n, metadata, parser, pdfPass, batches, bounds)
  {
    forall j :: 0 <= j < |batches| ==>
      |batches[j]| - |FileDocs(fileIds[End(bounds, j) - 1], metadata, parser, pdfPass)| < batchSize
  }

  /** Tagging twice is tagging once. */
  lemma TaggedIdempotent(m: FileMeta)
    ensures Tagged(Tagged(m)) == Tagged(m)
  {
  }

  /** One round keeps the metadata keys and, up to tagging, the metadata entries. */
  lemma StepMetadata(s: EmitState, fileId: FileId, parser: Parser, pdfPass: Option<string>, batchSize: int)
    ensures Step(s, fileId, parser, pdfPass, batchSize).metadata.Keys == s.metadata.Keys
    ensures forall name :: name in s.metadata ==>
      Tagged(Step(s, fileId, parser, pdfPass, batchSize).metadata[name]) == Tagged(s.metadata[name])
  {
    var t := Step(s, fileId, parser, pdfPass, batchSize);
    if parser.record(fileId).Some? {
      var name := parser.record(fileId).value.displayName;
      if name in s.metadata {
        assert t.metadata == s.metadata[name := Tagged(s.metadata[name])];
        TaggedIdempotent(s.metadata[name]);
      } else {
        assert t.metadata == s.metadata;
      }
    } else {
      assert t == s;
    }
  }

  /**
   * The in-place tagging is invisible to extraction: the shared metadata keeps
   * its keys, and each entry, once tagged, is what the uploader's entry gives
   * once tagged.
   */
  lemma {:induction false} StatesMetadata(fileIds: seq<FileId>, n: nat, metadata: map<string, FileMeta>, parser: Parser,
                                          pdfPass: Option<string>, batchSize: int)
    requires n <= |fileIds|
    ensures States(fileIds, n, metadata, parser, pdfPass, batchSize).metadata.Keys == metadata.Keys
    ensures forall name :: name in metadata ==>
      Tagged(States(fileIds, n, metadata, parser, pdfPass, batchSize).metadata[name]) == Tagged(metadata[name])
  {
    if n > 0 {
      StatesMetadata(fileIds, n - 1, metadata, parser, pdfPass, batchSize);
      StepMetadata(States(fileIds, n - 1, metadata, parser, pdfPass, batchSize), fileIds[n - 1], parser, pdfPass, batchSize);
    }
  }

  /** Extraction sees the same metadata through any map that agrees with the uploader's up to tagging. */
  lemma FileDocsUpToTagging(fileId: FileId, current: map<string, FileMeta>, metadata: map<string, FileMeta>,
                            parser: Parser, pdfPass: Option<string>)
    requires current.Keys == metadata.Keys
    requires forall name :: name in metadata ==> Tagged(current[name]) == Tagged(metadata[name])
    ensures FileDocs(fileId, current, parser, pdfPass) == FileDocs(fileId, metadata, parser, pdfPass)
  {
    if parser.record(fileId).Some? {
      var name := parser.record(fileId).value.displayName;
      assert Tagged(Get(current, name)) == Tagged(Get(metadata, name));
    }
  }

  lemma ConcatAppend(bs: seq<seq<Document>>, b: seq<Document>)
    ensures Concat(bs + [b]) == Concat(bs) + b
  {
    assert (bs + [b])[..|bs|] == bs;
  }

  /** The documents one round adds, whether they stay in the accumulator or go out in a batch. */
  lemma StepFlatten(s: EmitState, fileId: FileId, parser: Parser, pdfPass: Option<string>, batchSize: int)
    ensures var t := Step(s, fileId, parser, pdfPass, batchSize);
      Concat(t.batches) + t.documents == Concat(s.batches) + s.documents + FileDocs(fileId, s.metadata, parser, pdfPass)
  {
    var t := Step(s, fileId, parser, pdfPass, batchSize);
    var added := FileDocs(fileId, s.metadata, parser, pdfPass);
    if parser.record(fileId).None? {
      assert t == s && added == [];
    } else {
      var documents := s.documents + added;
      if |documents| >= batchSize {
        assert t.batches == s.batches + [documents] && t.documents == [];
        ConcatAppend(s.batches, documents);
      } else {
        assert t.batches == s.batches && t.documents == documents;
      }
    }
  }

  /** One round of the loop adds exactly the documents of its file, read through the uploader's metadata. */
  lemma FlattenStep(prev: EmitState, fileId: FileId, metadata: map<string, FileMeta>, parser: Parser,
                    pdfPass: Option<string>, batchSize: int, before: seq<Document>)
    requires Concat(prev.batches) + prev.documents == before
    requires prev.metadata.Keys == metadata.Keys
    requires forall name :: name in metadata ==> Tagged(prev.metadata[name]) == Tagged(metadata[name])
    ensures var t := Step(prev, fileId, parser, pdfPass, batchSize);
      Concat(t.batches) + t.documents == before + FileDocs(fileId, metadata, parser, pdfPass)
  {
    StepFlatten(prev, fileId, parser, pdfPass, batchSize);
    FileDocsUpToTagging(fileId, prev.metadata, metadata, parser, pdfPass);
  }

  /**
   * Nothing is lost or reordered: the batches yielded so far followed by the
   * accumulator are the documents of the files that have a record, in order.
   */
  lemma {:induction false} StatesFlatten(fileIds: seq<FileId>, n: nat, metadata: map<string, FileMeta>, parser: Parser,
                                         pdfPass: Option<string>, batchSize: int)
    requires n <= |fileIds|
    ensures var s := States(fileIds, n, metadata, parser, pdfPass, batchSize);
      Concat(s.batches) + s.documents == ExtractedDocs(fileIds, n, metadata, parser, pdfPass)
  {
    if n > 0 {
      StatesFlatten(fileIds, n - 1, metadata, parser, pdfPass, batchSize);
      StatesMetadata(fileIds, n - 1, metadata, parser, pdfPass, batchSize);
      FlattenStep(States(fileIds, n - 1, metadata, parser, pdfPass, batchSize), fileIds[n - 1], metadata, parser, pdfPass, batchSize,
                  ExtractedDocs(fileIds, n - 1, metadata, parser, pdfPass));
    }
  }

  /**
   * With a positive batch size, every batch yielded inside the loop holds at
   * least `batchSize` documents and the accumulator holds fewer.
   */
  lemma {:induction false} StatesSizes(fileIds: seq<FileId>, n: nat, metadata: map<string, FileMeta>, parser: Parser,
                                       pdfPass: Option<string>, batchSize: int)
    requires n <= |fileIds| && batchSize >= 1
    ensures var s := States(fileIds, n, metadata, parser, pdfPass, batchSize);
      (forall j :: 0 <= j < |s.batches| ==> |s.batches[j]| >= batchSize) && |s.documents| < batchSize
  {
    if n > 0 {
      StatesSizes(fileIds, n - 1, metadata, parser, pdfPass, batchSize);
    }
  }

  /**
   * Batch emitter output, for a positive batch size: concatenating the
   * batches gives the documents of the files that have a record, in order;
   * every batch but the last holds at least `batchSize` documents; no batch
   * is empty.
   */
  lemma EmitBatches(fileIds: seq<FileId>, fileNames: seq<string>, metadata: map<string, FileMeta>, parser: Parser,
                    pdfPass: Option<string>, batchSize: int)
    requires batchSize >= 1
    ensures var bs := Emit(fileIds, fileNames, metadata, parser, pdfPass, batchSize);
      Concat(bs) == ExtractedDocs(fileIds, Pairs(fileIds, fileNames), metadata, parser, pdfPass) &&
      (forall j :: 0 <= j < |bs| - 1 ==> |bs[j]| >= batchSize) &&
      (forall j :: 0 <= j < |bs| ==> bs[j] != [])
  {
    var n := Pairs(fileIds, fileNames);
    var bs := Emit(fileIds, fileNames, metadata, parser, pdfPass, batchSize);
    if fileIds != [] {
      var s := States(fileIds, n, metadata, parser, pdfPass, batchSize);
      StatesFlatten(fileIds, n, metadata, parser, pdfPass, batchSize);
      StatesSizes(fileIds, n, metadata, parser, pdfPass, batchSize);
      if s.documents != [] {
        assert bs[..|bs| - 1] == s.batches;
      } else {
        assert bs == s.batches;
      }
    } else {
      assert ExtractedDocs(fileIds, n, metadata, parser, pdfPass) == [];
    }
  }

  /**
   * With a batch size of zero or less, every file that has a record yields
   * exactly one batch holding its own documents (empty when it gave none),
   * and nothing is left in the accumulator.
   */
  lemma {:induction false} NonPositiveBatchSize(fileIds: seq<FileId>, n: nat, metadata: map<string, FileMeta>, parser: Parser,
                                                pdfPass: Option<string>, batchSize: int)
    requires n <= |fileIds| && batchSize <= 0
    ensures var s := States(fileIds, n, metadata, parser, pdfPass, batchSize);
      s.documents == [] && s.batches == PerFile(fileIds, n, metadata, parser, pdfPass)
  {
    if n > 0 {
      NonPositiveBatchSize(fileIds, n - 1, metadata, parser, pdfPass, batchSize);
      StatesMetadata(fileIds, n - 1, metadata, parser, pdfPass, batchSize);
      var prev := States(fileIds, n - 1, metadata, parser, pdfPass, batchSize);
      var fileId := fileIds[n - 1];
      FileDocsUpToTagging(fileId, prev.metadata, metadata, parser, pdfPass);
      assert States(fileIds, n, metadata, parser, pdfPass, batchSize) == Step(prev, fileId, parser, pdfPass, batchSize);
      if parser.record(fileId).Some? {
        assert prev.documents + FileDocs(fileId, prev.metadata, parser, pdfPass) == FileDocs(fileId, metadata, parser, pdfPass);
      }
    }
  }

  /**
   * Yielding the run of files after the last bound, up to `n`, keeps the
   * batches cut on file boundaries, and greedily so when that run held fewer
   * than `batchSize` documents before its last file.
   */
  lemma CutAdd(fileIds: seq<FileId>, n: nat, metadata: map<string, FileMeta>, parser: Parser,
               pdfPass: Option<string>, batchSize: int, batches: seq<seq<Document>>, bounds: seq<nat>,
               batches': seq<seq<Document>>, bounds': seq<nat>)
    requires n <= |fileIds|
    requires CutAt(fileIds, n, metadata, parser, pdfPass, batches, bounds)
    requires Greedy(fileIds, n, metadata, parser, pdfPass, batchSize, batches, bounds)
    requires bounds[|batches|] < n
    requires |FileRun(fileIds, bounds[|batches|], n - 1, metadata, parser, pdfPass)| < batchSize
    requires batches' == batches + [FileRun(fileIds, bounds[|batches|], n, metadata, parser, pdfPass)]
    requires bounds' == bounds + [n]
    ensures CutAt(fileIds, n, metadata, parser, pdfPass, batches', bounds')
    ensures Greedy(fileIds, n, metadata, parser, pdfPass, batchSize, batches', bounds')
  {
    forall j | 0 <= j < |batches'|
      ensures Start(bounds', j) < End(bounds', j) <= n
      ensures batches'[j] == FileRun(fileIds, Start(bounds', j), End(bounds', j), metadata, parser, pdfPass)
      ensures |batches'[j]| - |FileDocs(fileIds[End(bounds', j) - 1], metadata, parser, pdfPass)| < batchSize
    {
      if j < |batches| {
        assert batches'[j] == batches[j] && Start(bounds', j) == Start(bounds, j) && End(bounds', j) == End(bounds, j);
      } else {
        var lo := bounds[|batches|];
        assert Start(bounds', j) == lo && End(bounds', j) == n;
        assert batches'[j] == FileRun(fileIds, lo, n - 1, metadata, parser, pdfPass) + FileDocs(fileIds[n - 1], metadata, parser, pdfPass);
      }
    }
  }

  /** Cuts among the first `n` files are cuts among the first `n + 1`. */
  lemma CutWiden(fileIds: seq<FileId>, n: nat, metadata: map<string, FileMeta>, parser: Parser,
                 pdfPass: Option<string>, batchSize: int, batches: seq<seq<Document>>, bounds: seq<nat>)
    requires n < |fileIds|
    requires CutAt(fileIds, n, metadata, parser, pdfPass, batches, bounds)
    requires Greedy(fileIds, n, metadata, parser, pdfPass, batchSize, batches, bounds)
    ensures CutAt(fileIds, n + 1, metadata, parser, pdfPass, batches, bounds)
    ensures Greedy(fileIds, n + 1, metadata, parser, pdfPass, batchSize, batches, bounds)
  {
  }

  /** One round of the loop keeps the batches cut greedily on file boundaries. */
  lemma CutStep(fileIds: seq<FileId>, n: nat, metadata: map<string, FileMeta>, parser: Parser,
                pdfPass: Option<string>, batchSize: int, prev: EmitState, prevBounds: seq<nat>) returns (bounds: seq<nat>)
    requires 0 < n <= |fileIds| && batchSize >= 1
    requires CutAt(fileIds, n - 1, metadata, parser, pdfPass, prev.batches, prevBounds)
    requires Greedy(fileIds, n - 1, metadata, parser, pdfPass, batchSize, prev.batches, prevBounds)
    requires prev.documents == FileRun(fileIds, prevBounds[|prev.batches|], n - 1, metadata, parser, pdfPass)
    requires |prev.documents| < batchSize
    requires prev.metadata.Keys == metadata.Keys
    requires forall name :: name in metadata ==> Tagged(prev.metadata[name]) == Tagged(metadata[name])
    ensures var s := Step(prev, fileIds[n - 1], parser, pdfPass, batchSize);
      CutAt(fileIds, n, metadata, parser, pdfPass, s.batches, bounds) &&
      Greedy(fileIds, n, metadata, parser, pdfPass, batchSize, s.batches, bounds) &&
      s.documents == FileRun(fileIds, bounds[|s.batches|], n, metadata, parser, pdfPass)
  {
    var fileId := fileIds[n - 1];
    FileDocsUpToTagging(fileId, prev.metadata, metadata, parser, pdfPass);
    CutWiden(fileIds, n - 1, metadata, parser, pdfPass, batchSize, prev.batches, prevBounds);
    var lo := prevBounds[|prev.batches|];
    var run := FileRun(fileIds, lo, n, metadata, parser, pdfPass);
    assert run == prev.documents + FileDocs(fileId, metadata, parser, pdfPass);
    var s := Step(prev, fileId, parser, pdfPass, batchSize);
    if parser.record(fileId).Some? && |run| >= batchSize {
      bounds := prevBounds + [n];
      assert s.batches == prev.batches + [run] && s.documents == [];
      CutAdd(fileIds, n, metadata, parser, pdfPass, batchSize, prev.batches, prevBounds, s.batches, bounds);
    } else {
      bounds := prevBounds;
      assert s.batches == prev.batches && s.documents == run;
    }
  }

  /**
   * With a positive batch size, the loop batches greedily on file boundaries:
   * every batch yielded so far is a run of whole files that would hold fewer
   * than `batchSize` documents without its last file, and the accumulator is
   * the run of files after the last batch.
   */
  lemma {:induction false} StatesCuts(fileIds: seq<FileId>, n: nat, metadata: map<string, FileMeta>, parser: Parser,
                                      pdfPass: Option<string>, batchSize: int) returns (bounds: seq<nat>)
    requires n <= |fileIds| && batchSize >= 1
    ensures var s := States(fileIds, n, metadata, parser, pdfPass, batchSize);
      CutAt(fileIds, n, metadata, parser, pdfPass, s.batches, bounds) &&
      Greedy(fileIds, n, metadata, parser, pdfPass, batchSize, s.batches, bounds) &&
      s.documents == FileRun(fileIds, bounds[|s.batches|], n, metadata, parser, pdfPass)
  {
    if n == 0 {
      bounds := [0];
    } else {
      var prevBounds := StatesCuts(fileIds, n - 1, metadata, parser, pdfPass, batchSize);
      StatesMetadata(fileIds, n - 1, metadata, parser, pdfPass, batchSize);
      StatesSizes(fileIds, n - 1, metadata, parser, pdfPass, batchSize);
      bounds := CutStep(fileIds, n, metadata, parser, pdfPass, batchSize,
                        States(fileIds, n - 1, metadata, parser, pdfPass, batchSize), prevBounds);
    }
  }

  /** Yielding a non-empty accumulator after the loop keeps the batches cut greedily, with no document left over. */
  lemma CloseRemainder(fileIds: seq<FileId>, n: nat, metadata: map<string, FileMeta>, parser: Parser,
                       pdfPass: Option<string>, batchSize: int, s: EmitState, loopBounds: seq<nat>) returns (bounds: seq<nat>)
    requires n <= |fileIds|
    requires CutAt(fileIds, n, metadata, parser, pdfPass, s.batches, loopBounds)
    requires Greedy(fileIds, n, metadata, parser, pdfPass, batchSize, s.batches, loopBounds)
    requires s.documents == FileRun(fileIds, loopBounds[|s.batches|], n, metadata, parser, pdfPass)
    requires |s.documents| < batchSize
    ensures var bs := s.batches + (if s.documents != [] then [s.documents] else []);
      CutAt(fileIds, n, metadata, parser, pdfPass, bs, bounds) &&
      Greedy(fileIds, n, metadata, parser, pdfPass, batchSize, bs, bounds) &&
      FileRun(fileIds, bounds[|bs|], n, metadata, parser, pdfPass) == []
  {
    var lo := loopBounds[|s.batches|];
    if s.documents != [] {
      bounds := loopBounds + [n];
      var bs := s.batches + [s.documents];
      assert FileRun(fileIds, lo, n, metadata, parser, pdfPass) ==
        FileRun(fileIds, lo, n - 1, metadata, parser, pdfPass) + FileDocs(fileIds[n - 1], metadata, parser, pdfPass);
      CutAdd(fileIds, n, metadata, parser, pdfPass, batchSize, s.batches, loopBounds, bs, bounds);
      assert bounds[|bs|] == n;
    } else {
      bounds := loopBounds;
      assert s.batches + [] == s.batches;
    }
  }

  /**
   * Batch emitter output, for a positive batch size: each batch is a run of
   * whole files, so no batch splits a file; each would hold fewer than
   * `batchSize` documents without its last file; and no file after the last
   * batch gave any document.
   */
  lemma EmitFileBoundaries(fileIds: seq<FileId>, fileNames: seq<string>, metadata: map<string, FileMeta>, parser: Parser,
                           pdfPass: Option<string>, batchSize: int) returns (bounds: seq<nat>)
    requires batchSize >= 1
    ensures var bs := Emit(fileIds, fileNames, metadata, parser, pdfPass, batchSize);
      var n := Pairs(fileIds, fileNames);
      n <= |fileIds| &&
      CutAt(fileIds, n, metadata, parser, pdfPass, bs, bounds) &&
      Greedy(fileIds, n, metadata, parser, pdfPass, batchSize, bs, bounds) &&
      FileRun(fileIds, bounds[|bs|], n, metadata, parser, pdfPass) == []
  {
    var n := Pairs(fileIds, fileNames);
    if fileIds == [] {
      bounds := [0];
    } else {
      var loopBounds := StatesCuts(fileIds, n, metadata, parser, pdfPass, batchSize);
      StatesSizes(fileIds, n, metadata, parser, pdfPass, batchSize);
      bounds := CloseRemainder(fileIds, n, metadata, parser, pdfPass, batchSize,
                               States(fileIds, n, metadata, parser, pdfPass, batchSize), loopBounds);
    }
  }

  /** A store holding one file, whose extraction gives three copies of `d`. */
  function ThreeDocsParser(d: Document): Parser {
    Parser(id => Some(FileRecord("notes.txt", "text/plain")), (id, name, meta, pass, fileType) => [d, d, d])
  }

  /**
   * Batch boundaries fall on file boundaries: with a batch size of 2, a single
   * file giving three documents is yielded as one batch of three, not as
   * batches of 2 and 1.
   */
  lemma BatchCanExceedBatchSize(d: Document)
    ensures Emit(["id-1"], ["notes.txt"], map[], ThreeDocsParser(d), None, 2) == [[d, d, d]]
  {
    var p := ThreeDocsParser(d);
    var s0 := States(["id-1"], 0, map[], p, None, 2);
    assert s0 == EmitState([], [], map[]);
    assert p.record("id-1") == Some(FileRecord("notes.txt", "text/plain"));
    var tagged := Tagged(Get(s0.metadata, "notes.txt"));
    assert p.extract("id-1", "notes.txt", tagged, None, "text/plain") == [d, d, d];
    assert s0.documents + [d, d, d] == [d, d, d];
    assert s0.batches + [[d, d, d]] == [[d, d, d]];
    assert Step(s0, "id-1", p, None, 2) == EmitState([[d, d, d]], [], map[]);
  }
}
