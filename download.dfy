/**
 * drive_download.py: a breadth-first walk of a Drive folder hierarchy that
 * mirrors it under the local directory `root`.  A FIFO queue holds
 * (folder id, local path) pairs; each dequeued folder's children are listed,
 * sub-folders get a local directory and are enqueued, every other file is
 * "copied", which only touches a local file.
 *
 * The filesystem is the value `Fs`, threaded through; the remote hierarchy is a
 * map from folder id to the responses of its paginated listing.
 */
module Download {
  import opened Wrappers
  import opened Paging

  const FolderMimeType: string := "application/vnd.google-apps.folder"
  /** The start id used when the user gives none, and the local root directory. */
  const DefaultStartId: string := "root"
  const RootPath: string := "root"

  /** One entry of `directory_queue`. */
  datatype Item = Item(folderId: string, localPath: string)

  /** The local filesystem: the directories, and the files with their bytes. */
  datatype Fs = Fs(dirs: set<string>, files: map<string, seq<bv8>>)

  /** How a run of the walk ends. */
  datatype Outcome =
    | Finished             // the queue ran empty
    | OutOfFuel            // the bound on expanded folders was reached first
    | Aborted(path: string)  // an uncaught filesystem error at `path` ended the script

  /** The listing responses of each folder id the server knows. */
  type Remote = map<string, seq<Page>>

  predicate ListingsEnd(remote: Remote) {
    forall id :: id in remote ==> Ends(remote[id])
  }

  /** An id with no entry has no children: its one response is empty. */
  function ListingOf(remote: Remote, id: string): (pages: seq<Page>)
    requires ListingsEnd(remote)
    ensures Ends(pages)
  {
    if id in remote then remote[id]
    else
      var pages := [Page(None, None)];
      assert !HasNext(pages[0]);
      pages
  }

  function Children(remote: Remote, id: string): seq<File>
    requires ListingsEnd(remote)
  {
    Listed(ListingOf(remote, id))
  }

  // ---------------------------------------------------------------------------
  // Names and paths

  /** The folder to start from: an empty answer means the Drive root. */
  function StartId(answer: string): (id: string)
    ensures id != ""
    ensures answer != "" ==> id == answer
    ensures answer == "" ==> id == DefaultStartId
  {
    if answer == "" then DefaultStartId else answer
  }

  /** The seed of the queue: the start folder, mirrored at `root`. */
  function Seed(answer: string): Item {
    Item(StartId(answer), RootPath)
  }

  /** `name.replace('/', '.')`. */
  function Sanitize(name: string): (r: string)
    ensures |r| == |name|
    ensures forall i :: 0 <= i < |name| ==> r[i] == if name[i] == '/' then '.' else name[i]
    ensures '/' !in r
  {
    if name == [] then []
    else
      var c := name[|name| - 1];
      Sanitize(name[..|name| - 1]) + [if c == '/' then '.' else c]
  }

  /** `os.path.join` of a parent and a name that holds no separator. */
  function Join(parent: string, name: string): string {
    parent + "/" + name
  }

  function SlashCount(s: string): nat {
    if s == [] then 0 else SlashCount(s[..|s| - 1]) + (if s[|s| - 1] == '/' then 1 else 0)
  }

  lemma {:induction false} SlashCountAppend(a: string, b: string)
    ensures SlashCount(a + b) == SlashCount(a) + SlashCount(b)
    decreases |b|
  {
    if b != [] {
      var init := b[..|b| - 1];
      assert (a + b)[..|a + b| - 1] == a + init;
      assert (a + b)[|a + b| - 1] == b[|b| - 1];
      SlashCountAppend(a, init);
      assert SlashCount(a + b) == SlashCount(a + init) + (if b[|b| - 1] == '/' then 1 else 0);
      assert SlashCount(b) == SlashCount(init) + (if b[|b| - 1] == '/' then 1 else 0);
    } else {
      assert a + b == a;
    }
  }

  lemma {:induction false} SlashFree(s: string)
    requires '/' !in s
    ensures SlashCount(s) == 0
    decreases |s|
  {
    if s != [] {
      SlashFree(s[..|s| - 1]);
    }
  }

  /** The depth of a mirrored folder: the number of separators in its local path. */
  function Depth(x: Item): nat {
    SlashCount(x.localPath)
  }

  /** A child's local path lies exactly one level below its parent's. */
  lemma ChildPathDepth(parent: string, name: string)
    ensures SlashCount(Join(parent, Sanitize(name))) == SlashCount(parent) + 1
  {
    SlashFree(Sanitize(name));
    SlashCountAppend(parent, "/");
    SlashCountAppend(parent + "/", Sanitize(name));
    assert SlashCount("/") == 1 by { assert "/"[..0] == []; }
  }

  // ---------------------------------------------------------------------------
  // The children of one folder

  predicate IsFolder(f: File) {
    f.mimeType == FolderMimeType
  }

  function ChildPath(parent: Item, f: File): string {
    Join(parent.localPath, Sanitize(f.name))
  }

  function ChildItem(parent: Item, f: File): Item {
    Item(f.id, ChildPath(parent, f))
  }

  /** `copy_file(f['id'], item_path)` touches `item_path + drive_id`, with no separator. */
  function TouchPath(parent: Item, f: File): string {
    ChildPath(parent, f) + f.id
  }

  /** The queue entries a folder's children add, in listing order. */
  function Subfolders(parent: Item, cs: seq<File>): seq<Item> {
    if cs == [] then []
    else
      var c := cs[|cs| - 1];
      Subfolders(parent, cs[..|cs| - 1]) + (if IsFolder(c) then [ChildItem(parent, c)] else [])
  }

  /** The local files a folder's children touch, in listing order. */
  function Targets(parent: Item, cs: seq<File>): seq<string> {
    if cs == [] then []
    else
      var c := cs[|cs| - 1];
      Targets(parent, cs[..|cs| - 1]) + (if IsFolder(c) then [] else [TouchPath(parent, c)])
  }

  /**
   * Every child takes exactly one of the two routes: a folder becomes a queue
   * entry and is never touched, any other file is touched and never enqueued.
   */
  lemma {:induction false} ChildRouting(parent: Item, cs: seq<File>)
    ensures |Subfolders(parent, cs)| + |Targets(parent, cs)| == |cs|
    ensures forall x :: x in Subfolders(parent, cs) <==>
              exists c :: c in cs && IsFolder(c) && x == ChildItem(parent, c)
    ensures forall t :: t in Targets(parent, cs) <==>
              exists c :: c in cs && !IsFolder(c) && t == TouchPath(parent, c)
    decreases |cs|
  {
    if cs != [] {
      var init, c := cs[..|cs| - 1], cs[|cs| - 1];
      ChildRouting(parent, init);
      assert cs == init + [c];
      forall x ensures x in Subfolders(parent, cs) <==>
                exists c' :: c' in cs && IsFolder(c') && x == ChildItem(parent, c') {
        if x in Subfolders(parent, init) {
          var c' :| c' in init && IsFolder(c') && x == ChildItem(parent, c');
          assert c' in cs;
        }
      }
      forall t ensures t in Targets(parent, cs) <==>
                exists c' :: c' in cs && !IsFolder(c') && t == TouchPath(parent, c') {
        if t in Targets(parent, init) {
          var c' :| c' in init && !IsFolder(c') && t == TouchPath(parent, c');
          assert c' in cs;
        }
      }
    }
  }

  /** Every queue entry a folder adds lies one level below it. */
  lemma {:induction false} SubfoldersDepth(parent: Item, cs: seq<File>)
    ensures forall x :: x in Subfolders(parent, cs) ==> Depth(x) == Depth(parent) + 1
    decreases |cs|
  {
    if cs != [] {
      SubfoldersDepth(parent, cs[..|cs| - 1]);
      ChildPathDepth(parent.localPath, cs[|cs| - 1].name);
    }
  }

  // ---------------------------------------------------------------------------
  // The whole walk, as functions of the folders expanded so far

  /** The sub-folders found under the given folders, in expansion order. */
  function Discovered(remote: Remote, items: seq<Item>): seq<Item>
    requires ListingsEnd(remote)
  {
    if items == [] then []
    else
      var x := items[|items| - 1];
      Discovered(remote, items[..|items| - 1]) + Subfolders(x, Children(remote, x.folderId))
  }

  /** The local files touched while expanding the given folders, in order. */
  function Touched(remote: Remote, items: seq<Item>): seq<string>
    requires ListingsEnd(remote)
  {
    if items == [] then []
    else
      var x := items[|items| - 1];
      Touched(remote, items[..|items| - 1]) + Targets(x, Children(remote, x.folderId))
  }

  /** Everything ever put in the queue: the seed, then what each expansion found. */
  function Enqueued(answer: string, remote: Remote, expanded: seq<Item>): seq<Item>
    requires ListingsEnd(remote)
  {
    [Seed(answer)] + Discovered(remote, expanded)
  }

  // ---------------------------------------------------------------------------
  // The filesystem

  /** `os.mkdir`: fails when anything already occupies the path. */
  function Mkdir(fs: Fs, path: string): (r: Option<Fs>)
    ensures r.Some? <==> path !in fs.dirs && path !in fs.files
    ensures r.Some? ==> r.value.dirs == fs.dirs + {path} && r.value.files == fs.files
  {
    if path in fs.dirs || path in fs.files then None
    else Some(fs.(dirs := fs.dirs + {path}))
  }

  /** Old files keep their bytes, and every new file is empty. */
  predicate Preserved(before: map<string, seq<bv8>>, after: map<string, seq<bv8>>) {
    && before.Keys <= after.Keys
    && forall p :: p in after ==> after[p] == if p in before then before[p] else []
  }

  lemma PreservedTrans(a: map<string, seq<bv8>>, b: map<string, seq<bv8>>, c: map<string, seq<bv8>>)
    requires Preserved(a, b) && Preserved(b, c)
    ensures Preserved(a, c)
  {
  }

  /**
   * `open(path, 'a').close()`: fails on a directory; creates an empty file,
   * and never truncates an existing one.
   */
  function Touch(fs: Fs, path: string): (r: Option<Fs>)
    ensures r.Some? <==> path !in fs.dirs
    ensures r.Some? ==> r.value.dirs == fs.dirs && r.value.files.Keys == fs.files.Keys + {path}
    ensures r.Some? ==> Preserved(fs.files, r.value.files)
  {
    if path in fs.dirs then None
    else if path in fs.files then Some(fs)
    else Some(fs.(files := fs.files[path := []]))
  }

  function PathSet(items: seq<Item>): set<string> {
    set x | x in items :: x.localPath
  }

  function Elems(s: seq<string>): set<string> {
    set p | p in s
  }

  predicate DistinctPaths(items: seq<Item>) {
    forall i, j :: 0 <= i < j < |items| ==> items[i].localPath != items[j].localPath
  }

  /** Shallower folders come first. */
  predicate DepthOrdered(items: seq<Item>) {
    forall i, j :: 0 <= i < j < |items| ==> Depth(items[i]) <= Depth(items[j])
  }

  /** What a successful expansion of `parent` did to the filesystem and the queue. */
  ghost predicate ExpansionEffect(parent: Item, children: seq<File>, fs: Fs, queue: seq<Item>, fs': Fs, queue': seq<Item>)
  {
    var subs, targets := Subfolders(parent, children), Targets(parent, children);
    && queue' == queue + subs
    && fs'.dirs == fs.dirs + PathSet(subs)
    && fs'.files.Keys == fs.files.Keys + Elems(targets)
    && Preserved(fs.files, fs'.files)
    && DistinctPaths(subs)
    && PathSet(subs) !! fs.dirs
    && PathSet(subs) !! fs'.files.Keys
    && Elems(targets) !! fs'.dirs
  }

  lemma FolderStep(parent: Item, cs: seq<File>, c: File, fs: Fs, queue: seq<Item>, fs1: Fs, queue1: seq<Item>)
    requires ExpansionEffect(parent, cs, fs, queue, fs1, queue1)
    requires IsFolder(c) && Mkdir(fs1, ChildPath(parent, c)).Some?
    requires fs.dirs <= fs1.dirs
    ensures ExpansionEffect(parent, cs + [c], fs, queue, Mkdir(fs1, ChildPath(parent, c)).value, queue1 + [ChildItem(parent, c)])
  {
    assert (cs + [c])[..|cs|] == cs;
    var subs, x := Subfolders(parent, cs), ChildItem(parent, c);
    assert Subfolders(parent, cs + [c]) == subs + [x];
    assert Targets(parent, cs + [c]) == Targets(parent, cs);
    assert PathSet(subs + [x]) == PathSet(subs) + {x.localPath};
    assert x.localPath !in PathSet(subs);
  }

  lemma FileStep(parent: Item, cs: seq<File>, c: File, fs: Fs, queue: seq<Item>, fs1: Fs, queue1: seq<Item>)
    requires ExpansionEffect(parent, cs, fs, queue, fs1, queue1)
    requires !IsFolder(c) && Touch(fs1, TouchPath(parent, c)).Some?
    ensures ExpansionEffect(parent, cs + [c], fs, queue, Touch(fs1, TouchPath(parent, c)).value, queue1)
  {
    assert (cs + [c])[..|cs|] == cs;
    var targets, t := Targets(parent, cs), TouchPath(parent, c);
    assert Subfolders(parent, cs + [c]) == Subfolders(parent, cs);
    assert Targets(parent, cs + [c]) == targets + [t];
    assert Elems(targets + [t]) == Elems(targets) + {t};
  }

  /**
   * Whether child `c` can be created once the children `done` before it have
   * been, starting from the directories `dirs` and the files `files`: a folder
   * needs its path free of both, any other file only needs its path not to be
   * a directory (touching an existing file is harmless).
   */
  predicate ChildFits(parent: Item, done: seq<File>, c: File, dirs: set<string>, files: set<string>) {
    var dirs', files' := dirs + PathSet(Subfolders(parent, done)), files + Elems(Targets(parent, done));
    if IsFolder(c) then ChildPath(parent, c) !in dirs' && ChildPath(parent, c) !in files'
    else TouchPath(parent, c) !in dirs'
  }

  /** Every child fits in its turn. */
  predicate Fits(parent: Item, cs: seq<File>, dirs: set<string>, files: set<string>) {
    forall j :: 0 <= j < |cs| ==> ChildFits(parent, cs[..j], cs[j], dirs, files)
  }

  /** Child `j` is the first that does not fit. */
  predicate FailsAt(parent: Item, cs: seq<File>, j: nat, dirs: set<string>, files: set<string>) {
    j < |cs| && Fits(parent, cs[..j], dirs, files) && !ChildFits(parent, cs[..j], cs[j], dirs, files)
  }

  /** The path whose creation fails for child `c`: its directory, or the file it touches. */
  function FailPath(parent: Item, c: File): string {
    if IsFolder(c) then ChildPath(parent, c) else TouchPath(parent, c)
  }

  /**
   * The same condition on the whole listing at once: the sub-folder paths are
   * distinct and clash with no existing directory or file and no touched
   * path, and no touched path is an existing directory.
   */
  predicate Fresh(parent: Item, cs: seq<File>, dirs: set<string>, files: set<string>) {
    var subs, targets := PathSet(Subfolders(parent, cs)), Elems(Targets(parent, cs));
    && DistinctPaths(Subfolders(parent, cs))
    && subs !! dirs && subs !! files && subs !! targets
    && targets !! dirs
  }

  lemma FitsSnoc(parent: Item, cs: seq<File>, c: File, dirs: set<string>, files: set<string>)
    ensures Fits(parent, cs + [c], dirs, files) <==> Fits(parent, cs, dirs, files) && ChildFits(parent, cs, c, dirs, files)
  {
    var all := cs + [c];
    assert all[..|cs|] == cs && all[|cs|] == c;
    forall j | 0 <= j < |cs| ensures all[..j] == cs[..j] && all[j] == cs[j] {}
  }

  lemma DistinctSnoc(items: seq<Item>, x: Item)
    ensures DistinctPaths(items + [x]) <==> DistinctPaths(items) && x.localPath !in PathSet(items)
  {
    var all := items + [x];
    if DistinctPaths(all) {
      forall i, j | 0 <= i < j < |items| ensures items[i].localPath != items[j].localPath {
        assert all[i] == items[i] && all[j] == items[j];
      }
      forall y | y in items ensures y.localPath != x.localPath {
        var i :| 0 <= i < |items| && items[i] == y;
        assert all[i] == y && all[|items|] == x;
      }
    }
    if DistinctPaths(items) && x.localPath !in PathSet(items) {
      forall i, j | 0 <= i < j < |all| ensures all[i].localPath != all[j].localPath {
        if j == |items| {
          assert all[i] in items;
        } else {
          assert all[i] == items[i] && all[j] == items[j];
        }
      }
    }
  }

  /** A listing with a child that does not fit does not fit as a whole. */
  lemma FailsAtNotFits(parent: Item, cs: seq<File>, j: nat, dirs: set<string>, files: set<string>)
    requires FailsAt(parent, cs, j, dirs, files)
    ensures !Fits(parent, cs, dirs, files)
  {
  }

  lemma FreshSnoc(parent: Item, cs: seq<File>, c: File, dirs: set<string>, files: set<string>)
    ensures Fresh(parent, cs + [c], dirs, files) <==> Fresh(parent, cs, dirs, files) && ChildFits(parent, cs, c, dirs, files)
  {
    var all := cs + [c];
    assert all[..|cs|] == cs && all[|cs|] == c;
    var subs, targets := Subfolders(parent, cs), Targets(parent, cs);
    if IsFolder(c) {
      var x := ChildItem(parent, c);
      assert Subfolders(parent, all) == subs + [x];
      assert Targets(parent, all) == targets;
      PathSetAppend(subs, [x]);
      assert PathSet([x]) == {x.localPath};
      DistinctSnoc(subs, x);
    } else {
      var t := TouchPath(parent, c);
      assert Subfolders(parent, all) == subs;
      assert Targets(parent, all) == targets + [t];
      ElemsAppend(targets, [t]);
    }
  }

  /** Fitting child by child is the same as the whole listing being clash-free. */
  lemma {:induction false} FitsIffFresh(parent: Item, cs: seq<File>, dirs: set<string>, files: set<string>)
    ensures Fits(parent, cs, dirs, files) <==> Fresh(parent, cs, dirs, files)
    decreases |cs|
  {
    if cs == [] {
      assert PathSet(Subfolders(parent, cs)) == {};
    } else {
      var init, c := cs[..|cs| - 1], cs[|cs| - 1];
      assert cs == init + [c];
      FitsIffFresh(parent, init, dirs, files);
      FitsSnoc(parent, init, c, dirs, files);
      FreshSnoc(parent, init, c, dirs, files);
    }
  }

  /** After the children `cs`, the next child fits exactly when its `mkdir` or touch succeeds. */
  lemma FitsNow(parent: Item, cs: seq<File>, c: File, fs: Fs, queue: seq<Item>, fs1: Fs, queue1: seq<Item>)
    requires ExpansionEffect(parent, cs, fs, queue, fs1, queue1)
    ensures ChildFits(parent, cs, c, fs.dirs, fs.files.Keys) <==>
              if IsFolder(c) then Mkdir(fs1, ChildPath(parent, c)).Some? else Touch(fs1, TouchPath(parent, c)).Some?
  {
  }

  /** What creating the children `cs` of `parent`, in order, made of the filesystem `fs`. */
  ghost predicate Made(parent: Item, cs: seq<File>, fs: Fs, fs': Fs) {
    && fs'.dirs == fs.dirs + PathSet(Subfolders(parent, cs))
    && fs'.files.Keys == fs.files.Keys + Elems(Targets(parent, cs))
    && Preserved(fs.files, fs'.files)
  }

  /**
   * One child of the dequeued folder: a folder is appended to the queue and
   * its directory created, any other file is touched.  `done` are the
   * children handled before it.
   */
  method Place(parent: Item, ghost done: seq<File>, f: File, ghost fs: Fs, ghost queue: seq<Item>,
               fs1: Fs, queue1: seq<Item>)
    returns (failed: Option<string>, fs2: Fs, queue2: seq<Item>)
    requires ExpansionEffect(parent, done, fs, queue, fs1, queue1) && Fits(parent, done, fs.dirs, fs.files.Keys)
    requires fs.dirs <= fs1.dirs && Preserved(fs.files, fs1.files)
    ensures fs.dirs <= fs2.dirs && Preserved(fs.files, fs2.files)
    ensures failed.Some? <==> !ChildFits(parent, done, f, fs.dirs, fs.files.Keys)
    ensures failed.Some? ==> failed.value == FailPath(parent, f) && (failed.value in fs2.dirs || failed.value in fs2.files)
    ensures failed.Some? ==> fs2 == fs1
    ensures failed.None? ==> ExpansionEffect(parent, done + [f], fs, queue, fs2, queue2)
    ensures failed.None? ==> Fits(parent, done + [f], fs.dirs, fs.files.Keys)
  {
    FitsNow(parent, done, f, fs, queue, fs1, queue1);
    FitsSnoc(parent, done, f, fs.dirs, fs.files.Keys);
    var itemPath := ChildPath(parent, f);
    if IsFolder(f) {
      queue2 := queue1 + [ChildItem(parent, f)];
      var made := Mkdir(fs1, itemPath);
      if made.None? {
        return Some(itemPath), fs1, queue2;
      }
      FolderStep(parent, done, f, fs, queue, fs1, queue1);
      failed, fs2 := None, made.value;
    } else {
      var touched := Touch(fs1, TouchPath(parent, f));
      if touched.None? {
        return Some(TouchPath(parent, f)), fs1, queue1;
      }
      FileStep(parent, done, f, fs, queue, fs1, queue1);
      failed, fs2, queue2 := None, touched.value, queue1;
    }
  }

  /**
   * The body of the `while` loop for one dequeued folder: each child in turn;
   * a folder is appended to the queue and its directory created, any other file
   * is touched.  The first filesystem error stops everything.
   */
  method Expand(parent: Item, children: seq<File>, fs: Fs, queue: seq<Item>)
    returns (failed: Option<string>, fs': Fs, queue': seq<Item>)
    ensures fs.dirs <= fs'.dirs && Preserved(fs.files, fs'.files)
    ensures failed.Some? ==> failed.value in fs'.dirs || failed.value in fs'.files
    ensures failed.None? ==> ExpansionEffect(parent, children, fs, queue, fs', queue')
    ensures failed.None? <==> Fits(parent, children, fs.dirs, fs.files.Keys)
    ensures failed.Some? ==>
              exists j: nat :: && FailsAt(parent, children, j, fs.dirs, fs.files.Keys)
                               && failed.value == FailPath(parent, children[j])
                               && Made(parent, children[..j], fs, fs')
  {
    fs', queue' := fs, queue;
    var j := 0;
    while j < |children|
      invariant 0 <= j <= |children|
      invariant fs.dirs <= fs'.dirs && Preserved(fs.files, fs'.files)
      invariant ExpansionEffect(parent, children[..j], fs, queue, fs', queue')
      invariant Fits(parent, children[..j], fs.dirs, fs.files.Keys)
    {
      assert children[..j + 1] == children[..j] + [children[j]];
      var here;
      here, fs', queue' := Place(parent, children[..j], children[j], fs, queue, fs', queue');
      if here.Some? {
        assert FailsAt(parent, children, j, fs.dirs, fs.files.Keys);
        assert Made(parent, children[..j], fs, fs');
        FailsAtNotFits(parent, children, j, fs.dirs, fs.files.Keys);
        return here, fs', queue';
      }
      j := j + 1;
    }
    assert children[..j] == children;
    failed := None;
  }

  // ---------------------------------------------------------------------------
  // The breadth-first loop

  /** The filesystem holds what the enqueued folders and touched files account for, and no more. */
  ghost predicate FsAccounts(fs0: Fs, known: seq<Item>, touched: seq<string>, fs: Fs) {
    && fs.dirs == fs0.dirs + PathSet(known)
    && fs.files.Keys == fs0.files.Keys + Elems(touched)
    && Preserved(fs0.files, fs.files)
    && DistinctPaths(known)
    && PathSet(known) !! fs0.dirs
    && PathSet(known) !! fs.files.Keys
    && Elems(touched) !! fs.dirs
  }

  /** Breadth-first order: depths never decrease, and nothing is deeper than one below the head. */
  ghost predicate Layered(known: seq<Item>, queue: seq<Item>) {
    && DepthOrdered(known)
    && (queue != [] ==> forall i :: 0 <= i < |known| ==> Depth(known[i]) <= Depth(queue[0]) + 1)
  }

  /** What holds of the walk before each dequeue, given the folders expanded so far. */
  ghost predicate WalkInvariant(answer: string, remote: Remote, fs0: Fs, expanded: seq<Item>, queue: seq<Item>, fs: Fs)
    requires ListingsEnd(remote)
  {
    var known := Enqueued(answer, remote, expanded);
    && known == expanded + queue
    && FsAccounts(fs0, known, Touched(remote, expanded), fs)
    && Layered(known, queue)
  }

  lemma FsStep(fs0: Fs, known: seq<Item>, touched: seq<string>, fs: Fs,
               parent: Item, children: seq<File>, queue: seq<Item>, fs': Fs, queue': seq<Item>)
    requires FsAccounts(fs0, known, touched, fs)
    requires ExpansionEffect(parent, children, fs, queue, fs', queue')
    ensures FsAccounts(fs0, known + Subfolders(parent, children), touched + Targets(parent, children), fs')
  {
    var subs, targets := Subfolders(parent, children), Targets(parent, children);
    PathSetAppend(known, subs);
    ElemsAppend(touched, targets);
    DistinctStep(known, subs, fs.dirs);
  }

  lemma PathSetAppend(a: seq<Item>, b: seq<Item>)
    ensures PathSet(a + b) == PathSet(a) + PathSet(b)
  {
    forall p | p in PathSet(a + b) ensures p in PathSet(a) + PathSet(b) {
      var x :| x in a + b && x.localPath == p;
    }
  }

  lemma ElemsAppend(a: seq<string>, b: seq<string>)
    ensures Elems(a + b) == Elems(a) + Elems(b)
  {
  }

  lemma DiscoveredSnoc(remote: Remote, expanded: seq<Item>, x: Item)
    requires ListingsEnd(remote)
    ensures Discovered(remote, expanded + [x])
         == Discovered(remote, expanded) + Subfolders(x, Children(remote, x.folderId))
    ensures Touched(remote, expanded + [x])
         == Touched(remote, expanded) + Targets(x, Children(remote, x.folderId))
  {
    var e := expanded + [x];
    assert e[..|e| - 1] == expanded;
    assert e[|e| - 1] == x;
  }

  lemma EnqueuedSnoc(answer: string, remote: Remote, expanded: seq<Item>, x: Item)
    requires ListingsEnd(remote)
    ensures Enqueued(answer, remote, expanded + [x])
         == Enqueued(answer, remote, expanded) + Subfolders(x, Children(remote, x.folderId))
    ensures Touched(remote, expanded + [x])
         == Touched(remote, expanded) + Targets(x, Children(remote, x.folderId))
  {
    DiscoveredSnoc(remote, expanded, x);
  }

  /** Dequeuing the head and appending its sub-folders keeps the queue a suffix of what was enqueued. */
  lemma QueueStep(known: seq<Item>, expanded: seq<Item>, queue: seq<Item>, subs: seq<Item>, queue': seq<Item>)
    requires known == expanded + queue && queue != []
    requires queue' == queue[1..] + subs
    ensures known + subs == (expanded + [queue[0]]) + queue'
  {
    assert queue == [queue[0]] + queue[1..];
  }

  /** The depth part of the invariant survives one expansion. */
  lemma DepthStep(known: seq<Item>, expanded: seq<Item>, queue: seq<Item>, subs: seq<Item>)
    requires known == expanded + queue && queue != []
    requires Layered(known, queue)
    requires forall x :: x in subs ==> Depth(x) == Depth(queue[0]) + 1
    ensures Layered(known + subs, queue[1..] + subs)
  {
    var all := known + subs;
    var d := Depth(queue[0]);
    forall i, j | 0 <= i < j < |all| ensures Depth(all[i]) <= Depth(all[j]) {
      if j >= |known| {
        assert all[j] in subs;
        if i >= |known| { assert all[i] in subs; }
      }
    }
    if queue[1..] != [] {
      assert known[|expanded|] == queue[0] && known[|expanded| + 1] == queue[1];
      forall i | 0 <= i < |all| ensures Depth(all[i]) <= Depth((queue[1..] + subs)[0]) + 1 {
        if i >= |known| { assert all[i] in subs; }
      }
    } else if subs != [] {
      assert (queue[1..] + subs)[0] == subs[0];
      forall i | 0 <= i < |all| ensures Depth(all[i]) <= Depth(subs[0]) + 1 {
        if i >= |known| { assert all[i] in subs; }
      }
    }
  }

  lemma DistinctStep(known: seq<Item>, subs: seq<Item>, dirs: set<string>)
    requires DistinctPaths(known) && DistinctPaths(subs)
    requires PathSet(known) <= dirs && PathSet(subs) !! dirs
    ensures DistinctPaths(known + subs)
  {
    var all := known + subs;
    forall i, j | 0 <= i < j < |all| ensures all[i].localPath != all[j].localPath {
      if i < |known| && j >= |known| {
        assert all[i].localPath in PathSet(known);
        assert all[j] == subs[j - |known|];
        assert all[j].localPath in PathSet(subs);
      } else if i >= |known| {
        assert all[i] == subs[i - |known|] && all[j] == subs[j - |known|];
      }
    }
  }

  /** One dequeue-and-expand step keeps the walk invariant. */
  lemma ExpandKeepsInvariant(answer: string, remote: Remote, fs0: Fs, expanded: seq<Item>, queue: seq<Item>, fs: Fs,
                             fs': Fs, queue': seq<Item>)
    requires ListingsEnd(remote)
    requires WalkInvariant(answer, remote, fs0, expanded, queue, fs)
    requires queue != []
    requires ExpansionEffect(queue[0], Children(remote, queue[0].folderId), fs, queue[1..], fs', queue')
    ensures WalkInvariant(answer, remote, fs0, expanded + [queue[0]], queue', fs')
  {
    var x := queue[0];
    var children := Children(remote, x.folderId);
    var subs := Subfolders(x, children);
    var known := Enqueued(answer, remote, expanded);
    EnqueuedSnoc(answer, remote, expanded, x);
    QueueStep(known, expanded, queue, subs, queue');
    FsStep(fs0, known, Touched(remote, expanded), fs, x, children, queue[1..], fs', queue');
    SubfoldersDepth(x, children);
    DepthStep(known, expanded, queue, subs);
  }

  /** The queue holds only the seed once `root` exists. */
  lemma WalkStarts(answer: string, remote: Remote, fs0: Fs, fs: Fs)
    requires ListingsEnd(remote)
    requires Mkdir(fs0, RootPath).Some? && fs == Mkdir(fs0, RootPath).value
    ensures WalkInvariant(answer, remote, fs0, [], [Seed(answer)], fs)
  {
    assert PathSet([Seed(answer)]) == {RootPath};
    assert Enqueued(answer, remote, []) == [Seed(answer)];
  }

  /**
   * When the loop stops: every folder still queued has its directory, the
   * expanded folders come shallowest first, and with an empty queue every
   * enqueued folder was expanded, each under its own path.
   */
  lemma WalkEnds(answer: string, remote: Remote, fs0: Fs, expanded: seq<Item>, pending: seq<Item>, fs: Fs)
    requires ListingsEnd(remote)
    requires WalkInvariant(answer, remote, fs0, expanded, pending, fs)
    ensures forall x :: x in pending ==> x.localPath in fs.dirs
    ensures DepthOrdered(expanded)
    ensures pending == [] ==> expanded == Enqueued(answer, remote, expanded) && DistinctPaths(expanded)
    ensures pending != [] ==> |Enqueued(answer, remote, expanded)| > |expanded|
  {
    var known := Enqueued(answer, remote, expanded);
    forall x | x in pending ensures x.localPath in fs.dirs {
      assert x in known;
    }
    assert expanded <= known;
    if pending == [] {
      assert known == expanded;
    }
  }

  /** The directories the walk has made once the folders `expanded` are done. */
  ghost function DirsAfter(answer: string, remote: Remote, fs0: Fs, expanded: seq<Item>): set<string>
    requires ListingsEnd(remote)
  {
    fs0.dirs + PathSet(Enqueued(answer, remote, expanded))
  }

  /** The files that exist once the folders `expanded` are done. */
  ghost function FilesAfter(remote: Remote, fs0: Fs, expanded: seq<Item>): set<string>
    requires ListingsEnd(remote)
  {
    fs0.files.Keys + Elems(Touched(remote, expanded))
  }

  /** Folder `x`'s children fit into what the folders `done` have made. */
  ghost predicate FitsAfter(answer: string, remote: Remote, fs0: Fs, done: seq<Item>, x: Item)
    requires ListingsEnd(remote)
  {
    Fits(x, Children(remote, x.folderId), DirsAfter(answer, remote, fs0, done), FilesAfter(remote, fs0, done))
  }

  /** Each expanded folder's children fitted into what the folders before it had made. */
  ghost predicate AllFit(answer: string, remote: Remote, fs0: Fs, expanded: seq<Item>)
    requires ListingsEnd(remote)
  {
    expanded == [] ||
    var n := |expanded| - 1;
    AllFit(answer, remote, fs0, expanded[..n]) && FitsAfter(answer, remote, fs0, expanded[..n], expanded[n])
  }

  /**
   * An abort inside the walk: the last dequeued folder is the next one in
   * breadth-first order, every folder before it fitted, and `path` belongs to
   * the first of its children that does not.  The filesystem `fs` left behind
   * holds what the earlier folders made and the children before that one.
   */
  ghost predicate AbortedAt(answer: string, remote: Remote, fs0: Fs, expanded: seq<Item>, path: string, fs: Fs)
    requires ListingsEnd(remote)
  {
    && expanded != []
    && var done, last := expanded[..|expanded| - 1], expanded[|expanded| - 1];
       var cs := Children(remote, last.folderId);
       var dirs, files := DirsAfter(answer, remote, fs0, done), FilesAfter(remote, fs0, done);
       && AllFit(answer, remote, fs0, done)
       && expanded <= Enqueued(answer, remote, done)
       && exists j: nat ::
            && FailsAt(last, cs, j, dirs, files)
            && path == FailPath(last, cs[j])
            && fs.dirs == dirs + PathSet(Subfolders(last, cs[..j]))
            && fs.files.Keys == files + Elems(Targets(last, cs[..j]))
  }

  /** The walk invariant in terms of the sets above. */
  lemma WalkSets(answer: string, remote: Remote, fs0: Fs, expanded: seq<Item>, queue: seq<Item>, fs: Fs)
    requires ListingsEnd(remote)
    requires WalkInvariant(answer, remote, fs0, expanded, queue, fs)
    ensures fs.dirs == DirsAfter(answer, remote, fs0, expanded)
    ensures fs.files.Keys == FilesAfter(remote, fs0, expanded)
    ensures expanded + queue == Enqueued(answer, remote, expanded)
  {
  }

  lemma FitStep(answer: string, remote: Remote, fs0: Fs, expanded: seq<Item>, x: Item, fs: Fs)
    requires ListingsEnd(remote)
    requires AllFit(answer, remote, fs0, expanded)
    requires fs.dirs == DirsAfter(answer, remote, fs0, expanded) && fs.files.Keys == FilesAfter(remote, fs0, expanded)
    requires Fits(x, Children(remote, x.folderId), fs.dirs, fs.files.Keys)
    ensures AllFit(answer, remote, fs0, expanded + [x])
  {
    var e := expanded + [x];
    assert e[..|expanded|] == expanded && e[|expanded|] == x;
  }

  lemma AbortStep(answer: string, remote: Remote, fs0: Fs, expanded: seq<Item>, queue: seq<Item>, fs: Fs,
                  x: Item, children: seq<File>, j: nat, path: string, fs': Fs)
    requires ListingsEnd(remote)
    requires expanded + queue == Enqueued(answer, remote, expanded) && queue != [] && x == queue[0]
    requires AllFit(answer, remote, fs0, expanded)
    requires fs.dirs == DirsAfter(answer, remote, fs0, expanded) && fs.files.Keys == FilesAfter(remote, fs0, expanded)
    requires children == Children(remote, x.folderId)
    requires FailsAt(x, children, j, fs.dirs, fs.files.Keys) && path == FailPath(x, children[j])
    requires Made(x, children[..j], fs, fs')
    ensures AbortedAt(answer, remote, fs0, expanded + [x], path, fs')
  {
    var e := expanded + [x];
    assert e[..|e| - 1] == expanded && e[|e| - 1] == x;
    HeadPrefix(expanded, queue, Enqueued(answer, remote, expanded));
  }

  /** Moving the head of the queue to the expanded folders keeps them a prefix. */
  lemma HeadPrefix<T>(done: seq<T>, queue: seq<T>, known: seq<T>)
    requires done + queue == known && queue != []
    ensures done + [queue[0]] <= known
  {
    assert known[..|done| + 1] == done + [queue[0]];
  }

  // ---------------------------------------------------------------------------
  // A hierarchy without clashes

  /** `root` itself, or a path below it. */
  predicate Rooted(path: string) {
    path == RootPath || RootPath + "/" <= path
  }

  predicate AllRooted(items: seq<Item>) {
    forall y :: y in items ==> Rooted(y.localPath)
  }

  /** Nothing in the filesystem lies at `root` or below it. */
  ghost predicate OutsideRoot(fs: Fs) {
    forall p :: p in fs.dirs || p in fs.files ==> !Rooted(p)
  }

  /**
   * The children of one folder do not clash among themselves: no two folders
   * sanitise to the same name, no folder's sanitised name is a file's
   * sanitised name followed by its id, and no id holds a separator.
   */
  predicate SiblingsApart(cs: seq<File>) {
    && (forall i, j :: 0 <= i < j < |cs| && IsFolder(cs[i]) && IsFolder(cs[j]) ==>
          Sanitize(cs[i].name) != Sanitize(cs[j].name))
    && (forall i, j :: 0 <= i < |cs| && 0 <= j < |cs| && IsFolder(cs[i]) && !IsFolder(cs[j]) ==>
          Sanitize(cs[i].name) != Sanitize(cs[j].name) + cs[j].id)
    && (forall i :: 0 <= i < |cs| ==> '/' !in cs[i].id)
  }

  /** Every folder's own listing is free of clashes. */
  ghost predicate ClashFree(remote: Remote)
    requires ListingsEnd(remote)
  {
    forall id :: id in remote ==> SiblingsApart(Children(remote, id))
  }

  /** `path` names an entry directly inside the directory `dir`. */
  predicate Below(path: string, dir: string) {
    |dir| < |path| && path[..|dir| + 1] == dir + "/" && '/' !in path[|dir| + 1..]
  }

  /** The index of the last separator in `p`, or -1 when it has none. */
  function LastSlash(p: string): (k: int)
    ensures -1 <= k < |p|
    ensures k >= 0 ==> p[k] == '/'
  {
    if p == [] then -1
    else if p[|p| - 1] == '/' then |p| - 1
    else LastSlash(p[..|p| - 1])
  }

  /** The directory a path lies directly inside: everything before its last separator. */
  function Parent(p: string): string {
    if LastSlash(p) < 0 then "" else p[..LastSlash(p)]
  }

  lemma {:induction false} LastSlashAt(p: string, k: nat)
    requires k < |p| && p[k] == '/' && '/' !in p[k + 1..]
    ensures LastSlash(p) == k
    decreases |p|
  {
    if k < |p| - 1 {
      var init := p[..|p| - 1];
      assert p[|p| - 1] == p[k + 1..][|p| - 2 - k];
      assert init[k + 1..] == p[k + 1..][..|p| - 2 - k];
      LastSlashAt(init, k);
    }
  }

  /** An entry directly inside `dir` has `dir` as its parent. */
  lemma BelowParent(p: string, dir: string)
    requires Below(p, dir)
    ensures Parent(p) == dir
  {
    assert p[|dir|] == p[..|dir| + 1][|dir|];
    LastSlashAt(p, |dir|);
    assert dir == p[..|dir| + 1][..|dir|];
  }

  lemma JoinBelow(dir: string, name: string)
    requires '/' !in name
    ensures Below(dir + "/" + name, dir)
  {
    var p := dir + "/" + name;
    assert p[..|dir| + 1] == dir + "/";
    assert p[|dir| + 1..] == name;
  }

  /** An entry directly inside a path under `root` is itself under `root`, and is not `root`. */
  lemma BelowRooted(p: string, dir: string)
    requires Rooted(dir) && Below(p, dir)
    ensures Rooted(p) && p != RootPath
  {
    var pre := RootPath + "/";
    if dir == RootPath {
      assert p[..|pre|] == pre;
    } else {
      assert p[..|dir|] == p[..|dir| + 1][..|dir|] == dir;
      assert p[..|pre|] == dir[..|pre|] == pre;
    }
  }

  /** A child path differs from a sibling's exactly when the sanitised names differ. */
  lemma JoinApart(dir: string, n1: string, n2: string)
    requires n1 != n2
    ensures dir + "/" + n1 != dir + "/" + n2
  {
    assert (dir + "/" + n1)[|dir| + 1..] == n1;
    assert (dir + "/" + n2)[|dir| + 1..] == n2;
  }

  /** The sub-folders a folder adds lie directly inside it. */
  lemma SubfoldersBelow(parent: Item, cs: seq<File>)
    ensures forall y :: y in Subfolders(parent, cs) ==> Below(y.localPath, parent.localPath)
  {
    ChildRouting(parent, cs);
    forall y | y in Subfolders(parent, cs) ensures Below(y.localPath, parent.localPath) {
      var c :| c in cs && IsFolder(c) && y == ChildItem(parent, c);
      JoinBelow(parent.localPath, Sanitize(c.name));
    }
  }

  /** The path a file is touched at is its parent's path joined with its sanitised name and its id. */
  lemma TouchJoin(parent: Item, c: File)
    ensures TouchPath(parent, c) == Join(parent.localPath, Sanitize(c.name) + c.id)
  {
  }

  lemma TouchBelow(parent: Item, c: File)
    requires '/' !in c.id
    ensures Below(TouchPath(parent, c), parent.localPath)
  {
    var n := Sanitize(c.name) + c.id;
    assert '/' !in n;
    TouchJoin(parent, c);
    JoinBelow(parent.localPath, n);
  }

  /** The files a folder touches lie directly inside it when no id holds a separator. */
  lemma {:induction false} TargetsBelow(parent: Item, cs: seq<File>)
    requires forall i :: 0 <= i < |cs| ==> '/' !in cs[i].id
    ensures forall t :: t in Targets(parent, cs) ==> Below(t, parent.localPath)
    decreases |cs|
  {
    if cs != [] {
      var init, c := cs[..|cs| - 1], cs[|cs| - 1];
      assert forall i :: 0 <= i < |init| ==> init[i] == cs[i];
      TargetsBelow(parent, init);
      if !IsFolder(c) {
        TouchBelow(parent, c);
      }
    }
  }

  /** No sub-folder has the path a sibling named `name` would get. */
  lemma {:induction false} SubsApart(parent: Item, cs: seq<File>, name: string)
    requires forall c :: c in cs && IsFolder(c) ==> Sanitize(c.name) != name
    ensures Join(parent.localPath, name) !in PathSet(Subfolders(parent, cs))
    decreases |cs|
  {
    if cs != [] {
      var init, c := cs[..|cs| - 1], cs[|cs| - 1];
      assert forall c' :: c' in init ==> c' in cs;
      SubsApart(parent, init, name);
      var subs := Subfolders(parent, init);
      if IsFolder(c) {
        JoinApart(parent.localPath, Sanitize(c.name), name);
        PathSetAppend(subs, [ChildItem(parent, c)]);
        assert PathSet([ChildItem(parent, c)]) == {ChildPath(parent, c)};
      } else {
        assert Subfolders(parent, cs) == subs;
      }
    }
  }

  /** No touched file has the path a sibling named `name` would get. */
  lemma {:induction false} TargetsApart(parent: Item, cs: seq<File>, name: string)
    requires forall c :: c in cs && !IsFolder(c) ==> Sanitize(c.name) + c.id != name
    ensures Join(parent.localPath, name) !in Targets(parent, cs)
    decreases |cs|
  {
    if cs != [] {
      var init, c := cs[..|cs| - 1], cs[|cs| - 1];
      assert forall c' :: c' in init ==> c' in cs;
      TargetsApart(parent, init, name);
      if !IsFolder(c) {
        TouchJoin(parent, c);
        JoinApart(parent.localPath, Sanitize(c.name) + c.id, name);
      }
    }
  }

  /** The last child, a folder, fits after its siblings when none clashes with it. */
  lemma FolderApart(parent: Item, cs: seq<File>)
    requires SiblingsApart(cs) && cs != [] && IsFolder(cs[|cs| - 1])
    ensures ChildFits(parent, cs[..|cs| - 1], cs[|cs| - 1], {}, {})
  {
    var init, last := cs[..|cs| - 1], |cs| - 1;
    var name := Sanitize(cs[last].name);
    forall c' | c' in init && IsFolder(c') ensures Sanitize(c'.name) != name {
      var i :| 0 <= i < |init| && init[i] == c';
      assert IsFolder(cs[i]) && IsFolder(cs[last]);
    }
    forall c' | c' in init && !IsFolder(c') ensures Sanitize(c'.name) + c'.id != name {
      var i :| 0 <= i < |init| && init[i] == c';
      assert IsFolder(cs[last]) && !IsFolder(cs[i]);
    }
    SubsApart(parent, init, name);
    TargetsApart(parent, init, name);
  }

  /** The last child, a file, fits after its siblings when no folder among them clashes with it. */
  lemma FileApart(parent: Item, cs: seq<File>)
    requires SiblingsApart(cs) && cs != [] && !IsFolder(cs[|cs| - 1])
    ensures ChildFits(parent, cs[..|cs| - 1], cs[|cs| - 1], {}, {})
  {
    var init, last := cs[..|cs| - 1], |cs| - 1;
    var name := Sanitize(cs[last].name) + cs[last].id;
    forall c' | c' in init && IsFolder(c') ensures Sanitize(c'.name) != name {
      var i :| 0 <= i < |init| && init[i] == c';
      assert IsFolder(cs[i]) && !IsFolder(cs[last]);
    }
    SubsApart(parent, init, name);
    TouchJoin(parent, cs[last]);
  }

  /** A listing without clashes among siblings is clash-free on an empty filesystem. */
  lemma {:induction false} ApartFresh(parent: Item, cs: seq<File>)
    requires SiblingsApart(cs)
    ensures Fresh(parent, cs, {}, {})
    decreases |cs|
  {
    if cs == [] {
      assert PathSet(Subfolders(parent, cs)) == {};
    } else {
      var init, c := cs[..|cs| - 1], cs[|cs| - 1];
      assert cs == init + [c];
      assert forall i :: 0 <= i < |init| ==> init[i] == cs[i];
      ApartFresh(parent, init);
      if IsFolder(c) {
        FolderApart(parent, cs);
      } else {
        FileApart(parent, cs);
      }
      FreshSnoc(parent, init, c, {}, {});
    }
  }

  /** In a clash-free hierarchy every folder's listing is clash-free, listed or not. */
  lemma ClashFreeChildren(remote: Remote, id: string)
    requires ListingsEnd(remote) && ClashFree(remote)
    ensures SiblingsApart(Children(remote, id))
  {
    if id !in remote {
      ListedUnfold(ListingOf(remote, id));
    }
  }

  /** The folders found under the given ones lie directly inside one of them. */
  lemma {:induction false} DiscoveredBelow(remote: Remote, items: seq<Item>)
    requires ListingsEnd(remote)
    ensures forall y :: y in Discovered(remote, items) ==> exists z :: z in items && Below(y.localPath, z.localPath)
    decreases |items|
  {
    if items != [] {
      var init, x := items[..|items| - 1], items[|items| - 1];
      DiscoveredBelow(remote, init);
      SubfoldersBelow(x, Children(remote, x.folderId));
      forall y | y in Discovered(remote, items) ensures exists z :: z in items && Below(y.localPath, z.localPath) {
        if y in Discovered(remote, init) {
          var z :| z in init && Below(y.localPath, z.localPath);
          assert z in items;
        } else {
          assert x in items;
        }
      }
    }
  }

  /** In a clash-free hierarchy, the files touched under the given folders lie directly inside one of them. */
  lemma {:induction false} TouchedBelow(remote: Remote, items: seq<Item>)
    requires ListingsEnd(remote) && ClashFree(remote)
    ensures forall t :: t in Touched(remote, items) ==> exists z :: z in items && Below(t, z.localPath)
    decreases |items|
  {
    if items != [] {
      var init, x := items[..|items| - 1], items[|items| - 1];
      TouchedBelow(remote, init);
      ClashFreeChildren(remote, x.folderId);
      TargetsBelow(x, Children(remote, x.folderId));
      forall t | t in Touched(remote, items) ensures exists z :: z in items && Below(t, z.localPath) {
        if t in Touched(remote, init) {
          var z :| z in init && Below(t, z.localPath);
          assert z in items;
        } else {
          assert x in items;
        }
      }
    }
  }

  /** Everything enqueued lies under `root` once the expanded folders do. */
  lemma EnqueuedRooted(answer: string, remote: Remote, expanded: seq<Item>)
    requires ListingsEnd(remote) && AllRooted(expanded)
    ensures AllRooted(Enqueued(answer, remote, expanded))
  {
    DiscoveredBelow(remote, expanded);
    forall y | y in Enqueued(answer, remote, expanded) ensures Rooted(y.localPath) {
      if y in Discovered(remote, expanded) {
        var z :| z in expanded && Below(y.localPath, z.localPath);
        BelowRooted(y.localPath, z.localPath);
      }
    }
  }

  /** The head of the queue lies under `root`, like the folders expanded before it. */
  lemma RootedStep(answer: string, remote: Remote, expanded: seq<Item>, queue: seq<Item>)
    requires ListingsEnd(remote) && AllRooted(expanded)
    requires expanded + queue == Enqueued(answer, remote, expanded) && queue != []
    ensures AllRooted(expanded + [queue[0]])
  {
    EnqueuedRooted(answer, remote, expanded);
    assert queue[0] in Enqueued(answer, remote, expanded);
  }

  /** A folder already expanded has a different path from the head of the queue. */
  lemma ExpandedApart(known: seq<Item>, expanded: seq<Item>, queue: seq<Item>, z: Item)
    requires known == expanded + queue && queue != [] && DistinctPaths(known)
    requires z in expanded
    ensures z.localPath != queue[0].localPath
  {
    var k :| 0 <= k < |expanded| && expanded[k] == z;
    assert known[k] == z && known[|expanded|] == queue[0];
  }

  /**
   * A path directly inside the head of the queue is neither a directory nor
   * a file yet: the walk has only made `root` and entries directly inside
   * other folders, and nothing else lies under `root`.
   */
  lemma NewPathFree(answer: string, remote: Remote, fs0: Fs, expanded: seq<Item>, queue: seq<Item>, fs: Fs)
    requires ListingsEnd(remote) && ClashFree(remote) && OutsideRoot(fs0) && AllRooted(expanded)
    requires WalkInvariant(answer, remote, fs0, expanded, queue, fs) && queue != []
    ensures forall p :: Below(p, queue[0].localPath) ==> p !in fs.dirs && p !in fs.files
  {
    var x, known := queue[0], Enqueued(answer, remote, expanded);
    EnqueuedRooted(answer, remote, expanded);
    assert x in known;
    DiscoveredBelow(remote, expanded);
    TouchedBelow(remote, expanded);
    forall p | Below(p, x.localPath) ensures p !in fs.dirs && p !in fs.files {
      BelowRooted(p, x.localPath);
      BelowParent(p, x.localPath);
      forall y | y in known ensures y.localPath != p {
        if y in Discovered(remote, expanded) {
          var z :| z in expanded && Below(y.localPath, z.localPath);
          BelowParent(y.localPath, z.localPath);
          ExpandedApart(known, expanded, queue, z);
        }
      }
      forall t | t in Touched(remote, expanded) ensures t != p {
        var z :| z in expanded && Below(t, z.localPath);
        BelowParent(t, z.localPath);
        ExpandedApart(known, expanded, queue, z);
      }
    }
  }

  /** A listing clash-free among itself stays clash-free among directories and files that hold nothing directly inside the parent. */
  lemma FreshAmong(parent: Item, cs: seq<File>, dirs: set<string>, files: set<string>)
    requires Fresh(parent, cs, {}, {})
    requires forall y :: y in Subfolders(parent, cs) ==> Below(y.localPath, parent.localPath)
    requires forall t :: t in Targets(parent, cs) ==> Below(t, parent.localPath)
    requires forall p :: Below(p, parent.localPath) ==> p !in dirs && p !in files
    ensures Fresh(parent, cs, dirs, files)
  {
  }

  /** In a clash-free hierarchy, with nothing under `root` beforehand, the head's children always fit. */
  lemma ClashFreeFits(answer: string, remote: Remote, fs0: Fs, expanded: seq<Item>, queue: seq<Item>, fs: Fs)
    requires ListingsEnd(remote) && ClashFree(remote) && OutsideRoot(fs0) && AllRooted(expanded)
    requires WalkInvariant(answer, remote, fs0, expanded, queue, fs) && queue != []
    ensures Fits(queue[0], Children(remote, queue[0].folderId), fs.dirs, fs.files.Keys)
  {
    var x := queue[0];
    var cs := Children(remote, x.folderId);
    ClashFreeChildren(remote, x.folderId);
    ApartFresh(x, cs);
    SubfoldersBelow(x, cs);
    TargetsBelow(x, cs);
    NewPathFree(answer, remote, fs0, expanded, queue, fs);
    FreshAmong(x, cs, fs.dirs, fs.files.Keys);
    FitsIffFresh(x, cs, fs.dirs, fs.files.Keys);
  }

  /**
   * One pass of the `while` loop: dequeue the head, list its children and
   * expand it.  On success the walk invariant holds one folder further on; a
   * failure is the first child of the head that does not fit.
   */
  method Visit(answer: string, remote: Remote, fs0: Fs, ghost expanded: seq<Item>, queue: seq<Item>, fs: Fs)
    returns (failed: Option<string>, fs': Fs, queue': seq<Item>)
    requires ListingsEnd(remote)
    requires WalkInvariant(answer, remote, fs0, expanded, queue, fs) && queue != []
    requires AllFit(answer, remote, fs0, expanded)
    ensures fs.dirs <= fs'.dirs && Preserved(fs.files, fs'.files)
    ensures failed.Some? ==> failed.value in fs'.dirs || failed.value in fs'.files
    ensures failed.Some? ==> AbortedAt(answer, remote, fs0, expanded + [queue[0]], failed.value, fs')
    ensures failed.None? ==> WalkInvariant(answer, remote, fs0, expanded + [queue[0]], queue', fs')
    ensures failed.None? ==> AllFit(answer, remote, fs0, expanded + [queue[0]])
    ensures AllRooted(expanded) ==> AllRooted(expanded + [queue[0]])
    ensures ClashFree(remote) && OutsideRoot(fs0) && AllRooted(expanded) ==> failed.None?
  {
    var directory := queue[0];
    WalkSets(answer, remote, fs0, expanded, queue, fs);
    if AllRooted(expanded) {
      RootedStep(answer, remote, expanded, queue);
      if ClashFree(remote) && OutsideRoot(fs0) {
        ClashFreeFits(answer, remote, fs0, expanded, queue, fs);
      }
    }
    var children, _ := FetchAll(ListingOf(remote, directory.folderId));
    assert children == Children(remote, directory.folderId);
    failed, fs', queue' := Expand(directory, children, fs, queue[1..]);
    if failed.Some? {
      ghost var j: nat :| && FailsAt(directory, children, j, fs.dirs, fs.files.Keys)
                          && failed.value == FailPath(directory, children[j])
                          && Made(directory, children[..j], fs, fs');
      AbortStep(answer, remote, fs0, expanded, queue, fs, directory, children, j, failed.value, fs');
    } else {
      FitStep(answer, remote, fs0, expanded, directory, fs);
      ExpandKeepsInvariant(answer, remote, fs0, expanded, queue, fs, fs', queue');
    }
  }

  /**
   * The breadth-first `while` loop from the queue holding only the seed.
   * `fuel` bounds the number of folders expanded, because around a cycle in
   * the remote hierarchy the local paths keep growing until `os.mkdir` fails on
   * the path length, a filesystem error the model leaves out; a finite
   * hierarchy with more folders than `fuel` runs out too.  `expanded` lists the dequeued folders
   * in order and `pending` what is left in the queue.
   */
  method Walk(answer: string, remote: Remote, fs0: Fs, start: Fs, fuel: nat)
    returns (outcome: Outcome, fs: Fs, ghost expanded: seq<Item>, ghost pending: seq<Item>)
    requires ListingsEnd(remote)
    requires WalkInvariant(answer, remote, fs0, [], [Seed(answer)], start)
    ensures start.dirs <= fs.dirs && Preserved(start.files, fs.files)
    ensures outcome.Aborted? ==> outcome.path in fs.dirs || outcome.path in fs.files
    ensures outcome.Aborted? ==> AbortedAt(answer, remote, fs0, expanded, outcome.path, fs) && |expanded| <= fuel
    ensures outcome.Finished? ==> pending == []
    ensures outcome.OutOfFuel? ==> pending != [] && |expanded| == fuel
    ensures !outcome.Aborted? ==> |expanded| <= fuel && WalkInvariant(answer, remote, fs0, expanded, pending, fs)
    ensures !outcome.Aborted? ==> AllFit(answer, remote, fs0, expanded)
    ensures ClashFree(remote) && OutsideRoot(fs0) ==> !outcome.Aborted?
  {
    fs := start;
    var queue := [Seed(answer)];
    expanded := [];
    var steps := 0;
    while queue != [] && steps < fuel
      invariant steps == |expanded| <= fuel
      invariant start.dirs <= fs.dirs && Preserved(start.files, fs.files)
      invariant WalkInvariant(answer, remote, fs0, expanded, queue, fs)
      invariant AllFit(answer, remote, fs0, expanded)
      invariant AllRooted(expanded)
      decreases fuel - steps
    {
      var directory := queue[0];
      ghost var fsBefore := fs;
      var failed;
      failed, fs, queue := Visit(answer, remote, fs0, expanded, queue, fs);
      PreservedTrans(start.files, fsBefore.files, fs.files);
      if failed.Some? {
        return Aborted(failed.value), fs, expanded + [directory], queue;
      }
      expanded := expanded + [directory];
      steps := steps + 1;
    }
    pending := queue;
    outcome := if queue == [] then Finished else OutOfFuel;
  }

  /** The script after authentication: default the start id, create `root`, then run the loop. */
  method Mirror(answer: string, remote: Remote, fs0: Fs, fuel: nat)
    returns (outcome: Outcome, fs: Fs, ghost expanded: seq<Item>, ghost pending: seq<Item>)
    requires ListingsEnd(remote)
    ensures fs0.dirs <= fs.dirs && Preserved(fs0.files, fs.files)
    ensures (RootPath in fs0.dirs || RootPath in fs0.files) <==> (outcome == Aborted(RootPath) && expanded == [])
    ensures outcome.Aborted? ==> outcome.path in fs.dirs || outcome.path in fs.files
    ensures outcome.Aborted? && expanded == [] ==> fs == fs0
    ensures outcome.Aborted? && expanded != [] ==> AbortedAt(answer, remote, fs0, expanded, outcome.path, fs)
    ensures outcome.Aborted? ==> |expanded| <= fuel
    ensures outcome.Finished? ==> pending == []
    ensures outcome.OutOfFuel? ==> pending != [] && |expanded| == fuel
    ensures !outcome.Aborted? ==> |expanded| <= fuel && WalkInvariant(answer, remote, fs0, expanded, pending, fs)
    ensures !outcome.Aborted? ==> AllFit(answer, remote, fs0, expanded)
    ensures !outcome.Aborted? ==> forall x :: x in pending ==> x.localPath in fs.dirs
    ensures !outcome.Aborted? ==> DepthOrdered(expanded)
    ensures outcome.Finished? ==> expanded == Enqueued(answer, remote, expanded) && DistinctPaths(expanded)
    ensures outcome.OutOfFuel? ==> |Enqueued(answer, remote, expanded)| > fuel
    ensures ClashFree(remote) && OutsideRoot(fs0) ==> !outcome.Aborted?
  {
    var made := Mkdir(fs0, RootPath);
    if made.None? {
      return Aborted(RootPath), fs0, [], [];
    }
    WalkStarts(answer, remote, fs0, made.value);
    outcome, fs, expanded, pending := Walk(answer, remote, fs0, made.value, fuel);
    PreservedTrans(fs0.files, made.value.files, fs.files);
    if !outcome.Aborted? {
      WalkEnds(answer, remote, fs0, expanded, pending, fs);
    }
  }

  // ---------------------------------------------------------------------------
  // Name clashes

  lemma {:induction false} SubfoldersPrefix(parent: Item, cs: seq<File>, m: nat)
    requires m <= |cs|
    ensures Subfolders(parent, cs[..m]) <= Subfolders(parent, cs)
    decreases |cs| - m
  {
    if m < |cs| {
      var init := cs[..|cs| - 1];
      assert init[..m] == cs[..m];
      SubfoldersPrefix(parent, init, m);
    } else {
      assert cs[..m] == cs;
    }
  }

  lemma {:induction false} DiscoveredPrefix(remote: Remote, items: seq<Item>, m: nat)
    requires ListingsEnd(remote)
    requires m <= |items|
    ensures Discovered(remote, items[..m]) <= Discovered(remote, items)
    decreases |items| - m
  {
    if m < |items| {
      var init := items[..|items| - 1];
      assert init[..m] == items[..m];
      DiscoveredPrefix(remote, init, m);
    } else {
      assert items[..m] == items;
    }
  }

  lemma EnqueuedPrefix(answer: string, remote: Remote, items: seq<Item>, m: nat)
    requires ListingsEnd(remote)
    requires m <= |items|
    ensures Enqueued(answer, remote, items[..m]) <= Enqueued(answer, remote, items)
  {
    DiscoveredPrefix(remote, items, m);
  }

  /** A repeated path anywhere in a prefix, which ends with the tail `pre`, breaks distinctness. */
  lemma PrefixNotDistinct(s: seq<Item>, pre': seq<Item>, pre: seq<Item>, a: nat)
    requires pre' <= s && |pre'| >= |pre| && pre'[|pre'| - |pre|..] == pre
    requires a < |pre| - 1 && pre[a].localPath == pre[|pre| - 1].localPath
    ensures !DistinctPaths(s)
  {
    var off := |pre'| - |pre|;
    assert pre'[off + a] == pre[a] && pre'[|pre'| - 1] == pre[|pre| - 1];
    assert s[off + a] == pre'[off + a] && s[|pre'| - 1] == pre'[|pre'| - 1];
  }

  lemma PrefixThrough<T>(e: seq<T>, pre: seq<T>, subs: seq<T>, whole: seq<T>)
    requires pre <= subs && e + subs <= whole
    ensures e + pre <= whole
    ensures (e + pre)[|e + pre| - |pre|..] == pre
  {
    assert e + pre <= e + subs;
  }

  /** Within one folder's sub-folders, the second of two same-name folders repeats the first's path. */
  lemma ClashInSubfolders(parent: Item, cs: seq<File>, i: nat, j: nat) returns (pre: seq<Item>, a: nat)
    requires i < j < |cs| && IsFolder(cs[i]) && IsFolder(cs[j])
    requires Sanitize(cs[i].name) == Sanitize(cs[j].name)
    ensures pre <= Subfolders(parent, cs) && a < |pre| - 1
    ensures pre[a].localPath == pre[|pre| - 1].localPath
  {
    var first, second := ChildItem(parent, cs[i]), ChildItem(parent, cs[j]);
    var upto := Subfolders(parent, cs[..j]);
    assert cs[..j + 1][..j] == cs[..j];
    assert Subfolders(parent, cs[..j + 1]) == upto + [second];
    ChildRouting(parent, cs[..j]);
    assert cs[i] in cs[..j];
    assert first in upto;
    a :| 0 <= a < |upto| && upto[a] == first;
    SubfoldersPrefix(parent, cs, j + 1);
    pre := upto + [second];
  }

  lemma EnqueuedAt(answer: string, remote: Remote, expanded: seq<Item>, k: nat)
    requires ListingsEnd(remote)
    requires k < |expanded|
    ensures Enqueued(answer, remote, expanded[..k + 1])
         == Enqueued(answer, remote, expanded[..k]) + Subfolders(expanded[k], Children(remote, expanded[k].folderId))
  {
    assert expanded[..k] + [expanded[k]] == expanded[..k + 1];
    EnqueuedSnoc(answer, remote, expanded[..k], expanded[k]);
  }

  /** A prefix of the sub-folders of the k-th expanded folder extends to a prefix of everything enqueued. */
  lemma LiftPrefix(answer: string, remote: Remote, expanded: seq<Item>, k: nat, pre: seq<Item>)
    returns (pre': seq<Item>)
    requires ListingsEnd(remote)
    requires k < |expanded|
    requires pre <= Subfolders(expanded[k], Children(remote, expanded[k].folderId))
    ensures pre' <= Enqueued(answer, remote, expanded)
    ensures |pre'| >= |pre| && pre'[|pre'| - |pre|..] == pre
  {
    var subs := Subfolders(expanded[k], Children(remote, expanded[k].folderId));
    var earlier := Enqueued(answer, remote, expanded[..k]);
    EnqueuedAt(answer, remote, expanded, k);
    EnqueuedPrefix(answer, remote, expanded, k + 1);
    PrefixThrough(earlier, pre, subs, Enqueued(answer, remote, expanded));
    pre' := earlier + pre;
  }

  /**
   * Two sub-folders of one expanded folder whose names sanitise alike map to
   * the same local path, so the enqueued paths are not distinct: the second
   * `os.mkdir` fails, and with `Mirror`'s postcondition the run is Aborted.
   */
  lemma SameNameFoldersClash(answer: string, remote: Remote, expanded: seq<Item>, k: nat, i: nat, j: nat)
    requires ListingsEnd(remote)
    requires k < |expanded|
    requires i < j < |Children(remote, expanded[k].folderId)|
    requires IsFolder(Children(remote, expanded[k].folderId)[i])
    requires IsFolder(Children(remote, expanded[k].folderId)[j])
    requires Sanitize(Children(remote, expanded[k].folderId)[i].name)
          == Sanitize(Children(remote, expanded[k].folderId)[j].name)
    ensures !DistinctPaths(Enqueued(answer, remote, expanded))
  {
    var cs := Children(remote, expanded[k].folderId);
    var pre, a := ClashInSubfolders(expanded[k], cs, i, j);
    var pre' := LiftPrefix(answer, remote, expanded, k, pre);
    PrefixNotDistinct(Enqueued(answer, remote, expanded), pre', pre, a);
  }
}
