/**
 * The recursive scanner `_scan_folder_recursively`.
 *
 * The directory tree is an abstract value. The walk is `os.walk` from the top
 * down: a directory's files are visited before its subdirectories, and the
 * subdirectories in listing order, as the walk's own stack of pending
 * directories produces them. Pruning hidden subdirectories happens where the
 * source prunes `dirs`, before the walk descends.
 */
module Scanner {
  import opened Wrappers
  import opened Paths

  /**
   * A directory as the walk lists it: its own name, the names of its
   * non-directory entries and its subdirectories, both in listing order.
   */
  datatype Dir = Dir(name: Segment, files: seq<Segment>, subdirs: seq<Dir>)

  /** What the configured folder path names on the host. */
  datatype Root = Missing | NotADirectory | Directory(tree: Dir)

  /** One eligible file: its full path and its path relative to the scanned folder. */
  datatype ScanEntry = ScanEntry(fullPath: Path, relativePath: Path)

  /** A directory on the walk's stack, with its path relative to the scanned folder. */
  datatype Pending = Pending(dir: Dir, at: Path)

  /**
   * The tests the inner loop applies to one file name found in the directory
   * at relative path `at`: hidden name, hidden path segment, extension.
   * `accepted` stands for `is_accepted_file_ext(get_file_ext(name), All)`.
   */
  function Admit(folder: Path, at: Path, filename: Segment, accepted: Segment -> bool): Option<ScanEntry>
  {
    var rel := at + [filename];
    if IsHidden(filename) then None
    else if !ShouldProcessFile(rel) then None
    else if !accepted(filename) then None
    else Some(ScanEntry(folder + rel, rel))
  }

  function AsSeq<T>(o: Option<T>): seq<T> {
    if o.Some? then [o.value] else []
  }

  /** The entries the inner loop appends for the first `j` file names `fs` of one directory. */
  function FileEntries(folder: Path, at: Path, fs: seq<Segment>, j: nat, accepted: Segment -> bool): seq<ScanEntry>
    requires j <= |fs|
  {
    if j == 0 then []
    else FileEntries(folder, at, fs, j - 1, accepted) + AsSeq(Admit(folder, at, fs[j - 1], accepted))
  }

  /** The subdirectories of `d` from the `i`-th on that survive hidden-name pruning, in the order the walk will visit them. */
  function Children(d: Dir, i: nat, at: Path): seq<Pending>
    decreases |d.subdirs| - i
  {
    if i >= |d.subdirs| then []
    else
      (if IsHidden(d.subdirs[i].name) then [] else [Pending(d.subdirs[i], at + [d.subdirs[i].name])])
      + Children(d, i + 1, at)
  }

  /** Number of directories in a tree; it bounds the remaining work of the walk. */
  function Size(d: Dir): nat
    decreases d, 1
  {
    1 + SizeFrom(d, 0)
  }

  function SizeFrom(d: Dir, i: nat): nat
    decreases d, 0, |d.subdirs| - i
  {
    if i >= |d.subdirs| then 0 else Size(d.subdirs[i]) + SizeFrom(d, i + 1)
  }

  function StackSize(stack: seq<Pending>): nat
  {
    if stack == [] then 0 else Size(stack[0].dir) + StackSize(stack[1..])
  }

  /** Pushing the pruned children of `d` adds no more weight than the subtrees of `d` have. */
  lemma {:induction false} StackSizeChildren(d: Dir, i: nat, at: Path, rest: seq<Pending>)
    ensures StackSize(Children(d, i, at) + rest) <= SizeFrom(d, i) + StackSize(rest)
    decreases |d.subdirs| - i
  {
    if i >= |d.subdirs| {
      assert Children(d, i, at) + rest == rest;
    } else {
      StackSizeChildren(d, i + 1, at, rest);
      var sub := d.subdirs[i];
      var tail := Children(d, i + 1, at) + rest;
      if IsHidden(sub.name) {
        assert Children(d, i, at) + rest == tail;
      } else {
        var p := Pending(sub, at + [sub.name]);
        assert Children(d, i, at) + rest == [p] + tail;
        assert ([p] + tail)[1..] == tail;
      }
    }
  }

  /**
   * The walk from a stack of pending directories, top first: the files of the
   * top directory, then the walk of the stack with its unpruned children
   * pushed on top, so that each directory's subtree is finished before its
   * next sibling is started.
   */
  function ScanStack(folder: Path, stack: seq<Pending>, accepted: Segment -> bool): seq<ScanEntry>
    decreases StackSize(stack)
  {
    if stack == [] then []
    else
      var top := stack[0];
      StackSizeChildren(top.dir, 0, top.at, stack[1..]);
      FileEntries(folder, top.at, top.dir.files, |top.dir.files|, accepted)
      + ScanStack(folder, Children(top.dir, 0, top.at) + stack[1..], accepted)
  }

  /** One step of the walk: the top directory's files, then the stack with its pruned children on top. */
  lemma ScanStackPop(folder: Path, stack: seq<Pending>, accepted: Segment -> bool)
    requires stack != []
    ensures StackSize(Children(stack[0].dir, 0, stack[0].at) + stack[1..]) < StackSize(stack)
    ensures ScanStack(folder, stack, accepted)
         == FileEntries(folder, stack[0].at, stack[0].dir.files, |stack[0].dir.files|, accepted)
            + ScanStack(folder, Children(stack[0].dir, 0, stack[0].at) + stack[1..], accepted)
  {
    StackSizeChildren(stack[0].dir, 0, stack[0].at, stack[1..]);
  }

  /** The specification of the scanner: nothing for a missing root or a plain file, the walk otherwise. */
  function Scan(folder: Path, root: Root, accepted: Segment -> bool): seq<ScanEntry>
  {
    match root
    case Missing => []
    case NotADirectory => []
    case Directory(d) => ScanStack(folder, [Pending(d, [])], accepted)
  }

  /** A file of the tree `d`, named by its path relative to `d`. */
  ghost predicate FileIn(d: Dir, r: Path)
    decreases d, 1
  {
    (|r| == 1 && r[0] in d.files) || (|r| > 1 && FileInChildren(d, 0, r))
  }

  ghost predicate FileInChildren(d: Dir, i: nat, r: Path)
    requires |r| > 1
    decreases d, 0, |d.subdirs| - i
  {
    i < |d.subdirs| &&
    ((d.subdirs[i].name == r[0] && FileIn(d.subdirs[i], r[1..])) || FileInChildren(d, i + 1, r))
  }

  /** What every scanned entry satisfies: the tests of the inner loop, read off its paths. */
  ghost predicate Eligible(folder: Path, e: ScanEntry, accepted: Segment -> bool)
  {
    var rel := e.relativePath;
    |rel| > 0 &&
    e.fullPath == folder + rel &&
    (forall i :: 0 <= i < |rel| - 1 ==> !IsHidden(rel[i])) &&
    !IsHidden(Basename(rel)) &&
    ShouldProcessFile(rel) &&
    accepted(Basename(rel))
  }

  /** Within(d, p): every file under the pending directory `p` is a file of `d` at `p.at` and below. */
  ghost predicate Within(d: Dir, p: Pending)
  {
    forall r :: FileIn(p.dir, r) ==> FileIn(d, p.at + r)
  }

  lemma {:induction false} FileEntriesSound(folder: Path, at: Path, fs: seq<Segment>, j: nat, accepted: Segment -> bool, e: ScanEntry)
    returns (k: nat)
    requires j <= |fs|
    requires e in FileEntries(folder, at, fs, j, accepted)
    ensures k < j && Admit(folder, at, fs[k], accepted) == Some(e)
  {
    if e in AsSeq(Admit(folder, at, fs[j - 1], accepted)) {
      k := j - 1;
    } else {
      k := FileEntriesSound(folder, at, fs, j - 1, accepted, e);
    }
  }

  lemma {:induction false} FileEntriesComplete(folder: Path, at: Path, fs: seq<Segment>, j: nat, k: nat, accepted: Segment -> bool)
    requires k < j <= |fs|
    requires Admit(folder, at, fs[k], accepted).Some?
    ensures Admit(folder, at, fs[k], accepted).value in FileEntries(folder, at, fs, j, accepted)
  {
    if k < j - 1 {
      FileEntriesComplete(folder, at, fs, j - 1, k, accepted);
    }
  }

  lemma {:induction false} ChildrenSound(d: Dir, i: nat, at: Path, p: Pending) returns (c: nat)
    requires p in Children(d, i, at)
    ensures i <= c < |d.subdirs| && !IsHidden(d.subdirs[c].name)
    ensures p == Pending(d.subdirs[c], at + [d.subdirs[c].name])
    decreases |d.subdirs| - i
  {
    if !IsHidden(d.subdirs[i].name) && p == Pending(d.subdirs[i], at + [d.subdirs[i].name]) {
      c := i;
    } else {
      c := ChildrenSound(d, i + 1, at, p);
    }
  }

  lemma {:induction false} ChildrenComplete(d: Dir, i: nat, c: nat, at: Path)
    requires i <= c < |d.subdirs| && !IsHidden(d.subdirs[c].name)
    ensures Pending(d.subdirs[c], at + [d.subdirs[c].name]) in Children(d, i, at)
    decreases |d.subdirs| - i
  {
    if i < c {
      ChildrenComplete(d, i + 1, c, at);
    }
  }

  lemma {:induction false} FileInChildrenSound(d: Dir, i: nat, r: Path) returns (c: nat)
    requires |r| > 1 && FileInChildren(d, i, r)
    ensures i <= c < |d.subdirs| && d.subdirs[c].name == r[0] && FileIn(d.subdirs[c], r[1..])
    decreases |d.subdirs| - i
  {
    if d.subdirs[i].name == r[0] && FileIn(d.subdirs[i], r[1..]) {
      c := i;
    } else {
      c := FileInChildrenSound(d, i + 1, r);
    }
  }

  lemma {:induction false} FileInChildrenComplete(d: Dir, i: nat, c: nat, r: Path)
    requires |r| > 1 && i <= c < |d.subdirs|
    requires d.subdirs[c].name == r[0] && FileIn(d.subdirs[c], r[1..])
    ensures FileInChildren(d, i, r)
    decreases |d.subdirs| - i
  {
    if i < c {
      FileInChildrenComplete(d, i + 1, c, r);
    }
  }

  /** The pruned children of a directory inside `d` are inside `d` too. */
  lemma ChildrenWithin(d: Dir, top: Pending, p: Pending)
    requires Within(d, top)
    requires p in Children(top.dir, 0, top.at)
    ensures Within(d, p)
  {
    var c := ChildrenSound(top.dir, 0, top.at, p);
    var sub := top.dir.subdirs[c];
    forall r | FileIn(p.dir, r) ensures FileIn(d, p.at + r) {
      var r' := [sub.name] + r;
      assert r'[1..] == r;
      FileInChildrenComplete(top.dir, 0, c, r');
      assert FileIn(top.dir, r');
      assert top.at + r' == p.at + r;
    }
  }

  /** Every entry the walk of a stack of directories inside `d` finds is eligible and is a file of `d`. */
  lemma {:induction false} ScanStackSound(folder: Path, d: Dir, stack: seq<Pending>, accepted: Segment -> bool, e: ScanEntry)
    requires forall k :: 0 <= k < |stack| ==> Within(d, stack[k])
    requires e in ScanStack(folder, stack, accepted)
    ensures Eligible(folder, e, accepted) && FileIn(d, e.relativePath)
    decreases StackSize(stack)
  {
    var top := stack[0];
    var next := Children(top.dir, 0, top.at) + stack[1..];
    ScanStackPop(folder, stack, accepted);
    if e in FileEntries(folder, top.at, top.dir.files, |top.dir.files|, accepted) {
      var k := FileEntriesSound(folder, top.at, top.dir.files, |top.dir.files|, accepted, e);
      var f := top.dir.files[k];
      assert e.relativePath == top.at + [f];
      assert FileIn(top.dir, [f]);
      assert Within(d, top);
    } else {
      forall k | 0 <= k < |next| ensures Within(d, next[k]) {
        if k < |Children(top.dir, 0, top.at)| {
          ChildrenWithin(d, top, next[k]);
        } else {
          assert next[k] == stack[k - |Children(top.dir, 0, top.at)| + 1];
        }
      }
      ScanStackSound(folder, d, next, accepted, e);
    }
  }

  /** A file directly in the top directory whose path passes the tests is among the top directory's entries. */
  lemma TopFileFound(folder: Path, top: Pending, name: Segment, accepted: Segment -> bool)
    requires name in top.dir.files
    requires ShouldProcessFile(top.at + [name]) && accepted(name)
    ensures ScanEntry(folder + (top.at + [name]), top.at + [name])
         in FileEntries(folder, top.at, top.dir.files, |top.dir.files|, accepted)
  {
    var c :| 0 <= c < |top.dir.files| && top.dir.files[c] == name;
    assert (top.at + [name])[|top.at|] == name;
    FileEntriesComplete(folder, top.at, top.dir.files, |top.dir.files|, c, accepted);
  }

  /**
   * Every file under a pending directory whose path the filter admits and
   * whose extension is accepted is found by the walk of the stack.
   */
  lemma {:induction false} ScanStackComplete(folder: Path, stack: seq<Pending>, k: nat, r: Path, accepted: Segment -> bool)
    requires k < |stack| && FileIn(stack[k].dir, r)
    requires ShouldProcessFile(stack[k].at + r) && accepted(Basename(r))
    ensures ScanEntry(folder + (stack[k].at + r), stack[k].at + r) in ScanStack(folder, stack, accepted)
    decreases StackSize(stack), |r|
  {
    var top := stack[0];
    var children := Children(top.dir, 0, top.at);
    var next := children + stack[1..];
    ScanStackPop(folder, stack, accepted);
    if k > 0 {
      assert next[|children| + k - 1] == stack[k];
      ScanStackComplete(folder, next, |children| + k - 1, r, accepted);
    } else if |r| == 1 {
      assert r == [r[0]];
      TopFileFound(folder, top, r[0], accepted);
    } else {
      var m := ChildOnStack(top, r);
      assert next[m] == children[m];
      ScanStackComplete(folder, next, m, r[1..], accepted);
    }
  }

  /** The subdirectory that holds a nested file is pushed on the stack, unless the filter rejects the file's path. */
  lemma ChildOnStack(top: Pending, r: Path) returns (m: nat)
    requires |r| > 1 && FileIn(top.dir, r) && ShouldProcessFile(top.at + r)
    ensures m < |Children(top.dir, 0, top.at)|
    ensures Children(top.dir, 0, top.at)[m].at + r[1..] == top.at + r
    ensures FileIn(Children(top.dir, 0, top.at)[m].dir, r[1..])
  {
    var children := Children(top.dir, 0, top.at);
    var c := FileInChildrenSound(top.dir, 0, r);
    var sub := top.dir.subdirs[c];
    assert (top.at + r)[|top.at|] == r[0];
    ChildrenComplete(top.dir, 0, c, top.at);
    m :| 0 <= m < |children| && children[m] == Pending(sub, top.at + [sub.name]);
    assert (top.at + [sub.name]) + r[1..] == top.at + r;
  }

  /**
   * Scanner output: every entry the scanner returns names a file of the tree,
   * its full path is the folder followed by its relative path, no directory
   * on the way and not the file name itself is hidden, the filter admits the
   * relative path and the extension is accepted.
   */
  lemma ScanSound(folder: Path, d: Dir, accepted: Segment -> bool, e: ScanEntry)
    requires e in Scan(folder, Directory(d), accepted)
    ensures Eligible(folder, e, accepted) && FileIn(d, e.relativePath)
  {
    forall r | FileIn(d, r) ensures FileIn(d, [] + r) { assert [] + r == r; }
    ScanStackSound(folder, d, [Pending(d, [])], accepted, e);
  }

  /**
   * Scanner completeness: every file of the tree whose relative path the
   * filter admits and whose extension is accepted is returned, with the
   * folder prepended as its full path; pruning loses nothing eligible.
   */
  lemma ScanComplete(folder: Path, d: Dir, r: Path, accepted: Segment -> bool)
    requires FileIn(d, r) && ShouldProcessFile(r) && accepted(Basename(r))
    ensures ScanEntry(folder + r, r) in Scan(folder, Directory(d), accepted)
  {
    assert [] + r == r;
    ScanStackComplete(folder, [Pending(d, [])], 0, r, accepted);
  }

  /**
   * The inner loop of `_scan_folder_recursively` over the file names of one
   * directory at relative path `at`: hidden names are skipped, then paths the
   * filter rejects, then names whose extension is not accepted; every other
   * file is appended to `files`.
   */
  method AppendDirectoryFiles(folder: Path, at: Path, filenames: seq<Segment>, accepted: Segment -> bool, files: seq<ScanEntry>)
    returns (out: seq<ScanEntry>)
    ensures out == files + FileEntries(folder, at, filenames, |filenames|, accepted)
  {
    out := files;
    for j := 0 to |filenames|
      invariant out == files + FileEntries(folder, at, filenames, j, accepted)
    {
      var filename := filenames[j];
      if IsHidden(filename) {
        continue;
      }
      var relativePath := at + [filename];
      var fullPath := folder + relativePath;
      if !ShouldProcessFile(relativePath) {
        continue;
      }
      if !accepted(filename) {
        continue;
      }
      out := out + [ScanEntry(fullPath, relativePath)];
    }
  }

  /**
   * The loop `for root, dirs, filenames in os.walk(folder_path)` with the
   * walk's own stack of pending directories made explicit: each round takes
   * the top directory, prunes its hidden subdirectories, runs the inner loop
   * over its file names and pushes the remaining subdirectories in listing
   * order, first on top.
   */
  method WalkFolder(folder: Path, start: seq<Pending>, accepted: Segment -> bool, files: seq<ScanEntry>)
    returns (out: seq<ScanEntry>)
    ensures out == files + ScanStack(folder, start, accepted)
  {
    out := files;
    var stack := start;
    while stack != []
      invariant out + ScanStack(folder, stack, accepted) == files + ScanStack(folder, start, accepted)
      decreases StackSize(stack)
    {
      var top := stack[0];
      var visible := Children(top.dir, 0, top.at);
      ScanStackPop(folder, stack, accepted);
      ghost var here := FileEntries(folder, top.at, top.dir.files, |top.dir.files|, accepted);
      ghost var later := ScanStack(folder, visible + stack[1..], accepted);
      assert out + here + later == files + ScanStack(folder, start, accepted);
      out := AppendDirectoryFiles(folder, top.at, top.dir.files, accepted, out);
      stack := visible + stack[1..];
    }
  }

  /**
   * `_scan_folder_recursively`: an empty list when the folder is missing or is
   * not a directory; otherwise the eligible files in walk order, each found by
   * the nested loop and appended once.
   */
  method ScanFolderRecursively(folder: Path, root: Root, accepted: Segment -> bool) returns (files: seq<ScanEntry>)
    ensures !root.Directory? ==> files == []
    ensures files == Scan(folder, root, accepted)
  {
    files := [];
    if root.Missing? {
      return;
    }
    if root.NotADirectory? {
      return;
    }
    files := WalkFolder(folder, [Pending(root.tree, [])], accepted, files);
  }
}
