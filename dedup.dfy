/**
 * drive_dedup.py: one pass over the paginated listing of every file, grouping
 * the files that carry an MD5 checksum by that checksum (`files_by_hash`),
 * counting them (`files_with_md5`) and all files seen (`total_files_seen`),
 * and printing a conflict line whenever a checksum repeats.
 */
module Dedup {
  import opened Wrappers
  import opened Paging

  /**
   * `files_by_hash`: a Python dict from checksum to the files carrying it;
   * `order` keeps the keys in insertion order, as the dict (and its JSON dump) does.
   */
  datatype HashIndex = HashIndex(order: seq<string>, lists: map<string, seq<File>>)

  /** The printed line "<id> conflicts with <first id>, both with a MD5 hash of <md5>." */
  datatype Conflict = Conflict(fileId: string, firstId: string, md5: string)

  predicate DistinctKeys(order: seq<string>) {
    forall i, j :: 0 <= i < j < |order| ==> order[i] != order[j]
  }

  /** Keys listed once each, exactly the map's keys, and no empty list. */
  predicate WellFormed(ix: HashIndex) {
    && DistinctKeys(ix.order)
    && (forall h :: h in ix.order ==> h in ix.lists)
    && (forall h :: h in ix.lists ==> h in ix.order)
    && (forall h :: h in ix.lists ==> ix.lists[h] != [])
  }

  /** The loop body for one file: append it to its checksum's list, or start that list. */
  function Insert(ix: HashIndex, f: File): HashIndex {
    match f.md5Checksum
    case None => ix
    case Some(h) =>
      if h in ix.lists then ix.(lists := ix.lists[h := ix.lists[h] + [f]])
      else HashIndex(ix.order + [h], ix.lists[h := [f]])
  }

  /** `files_by_hash` after the given files, in order. */
  function Group(files: seq<File>): (ix: HashIndex)
    ensures WellFormed(ix)
  {
    if files == [] then HashIndex([], map[])
    else
      var prev := Group(files[..|files| - 1]);
      var f := files[|files| - 1];
      assert f.md5Checksum.Some? && f.md5Checksum.value !in prev.lists ==>
        DistinctKeys(prev.order + [f.md5Checksum.value]);
      Insert(prev, f)
  }

  /** The conflict lines printed for the given files, in order. */
  function Conflicts(files: seq<File>): seq<Conflict> {
    if files == [] then []
    else
      var init, f := files[..|files| - 1], files[|files| - 1];
      var prev := Group(init);
      Conflicts(init) +
        if f.md5Checksum.Some? && f.md5Checksum.value in prev.lists
        then [Conflict(f.id, prev.lists[f.md5Checksum.value][0].id, f.md5Checksum.value)]
        else []
  }

  /** How many of the files carry a checksum. */
  function CountWithMd5(files: seq<File>): (n: nat)
    ensures n <= |files|
  {
    if files == [] then 0
    else CountWithMd5(files[..|files| - 1]) + if files[|files| - 1].md5Checksum.Some? then 1 else 0
  }

  /** Reference definition: the files carrying checksum `h`, in encounter order. */
  function WithHash(files: seq<File>, h: string): seq<File> {
    if files == [] then []
    else (if files[0].md5Checksum == Some(h) then [files[0]] else []) + WithHash(files[1..], h)
  }

  /** The sum of the list lengths, over the keys in `order`. */
  function SumLengths(order: seq<string>, lists: map<string, seq<File>>): nat
    requires forall h :: h in order ==> h in lists
  {
    if order == [] then 0
    else SumLengths(order[..|order| - 1], lists) + |lists[order[|order| - 1]]|
  }

  /** Each function above grows by one file at a time. */
  lemma Snoc(before: seq<File>, f: File)
    ensures Group(before + [f]) == Insert(Group(before), f)
    ensures CountWithMd5(before + [f]) == CountWithMd5(before) + if f.md5Checksum.Some? then 1 else 0
    ensures Conflicts(before + [f]) == Conflicts(before) +
      if f.md5Checksum.Some? && f.md5Checksum.value in Group(before).lists
      then [Conflict(f.id, Group(before).lists[f.md5Checksum.value][0].id, f.md5Checksum.value)]
      else []
  {
    assert (before + [f])[..|before|] == before;
  }

  lemma PageStep(pages: seq<Page>, n: nat)
    requires 1 <= n <= |pages|
    ensures Concat(pages[..n]) == Concat(pages[..n - 1]) + FilesOf(pages[n - 1])
  {
    assert pages[..n] == pages[..n - 1] + [pages[n - 1]];
    ConcatSnoc(pages[..n - 1], pages[n - 1]);
  }

  // ---------------------------------------------------------------------------
  // What the grouping means

  lemma {:induction false} WithHashSnoc(files: seq<File>, f: File, h: string)
    ensures WithHash(files + [f], h) == WithHash(files, h) + if f.md5Checksum == Some(h) then [f] else []
    decreases |files|
  {
    var tail := if f.md5Checksum == Some(h) then [f] else [];
    if files == [] {
      assert files + [f] == [f];
      assert [f][1..] == [];
    } else {
      var head := if files[0].md5Checksum == Some(h) then [files[0]] else [];
      assert (files + [f])[0] == files[0];
      assert (files + [f])[1..] == files[1..] + [f];
      WithHashSnoc(files[1..], f, h);
      assert WithHash(files + [f], h) == head + (WithHash(files[1..], h) + tail);
      assert WithHash(files, h) == head + WithHash(files[1..], h);
    }
  }

  lemma {:induction false} WithHashMembers(files: seq<File>, h: string)
    ensures forall f :: f in WithHash(files, h) <==> f in files && f.md5Checksum == Some(h)
    decreases |files|
  {
    if files != [] {
      WithHashMembers(files[1..], h);
      assert files == [files[0]] + files[1..];
    }
  }

  /** The first file carrying `h` heads the filtered list. */
  lemma {:induction false} WithHashFirst(files: seq<File>, h: string) returns (i: nat)
    requires WithHash(files, h) != []
    ensures i < |files| && files[i] == WithHash(files, h)[0] && files[i].md5Checksum == Some(h)
    ensures forall j :: 0 <= j < i ==> files[j].md5Checksum != Some(h)
    decreases |files|
  {
    if files[0].md5Checksum == Some(h) {
      i := 0;
    } else {
      var k := WithHashFirst(files[1..], h);
      i := k + 1;
    }
  }

  /**
   * `files_by_hash` agrees with the reference filter: a checksum is a key
   * exactly when some file carries it, and its list holds exactly the files
   * carrying it, in encounter order.
   */
  lemma {:induction false} GroupIsFilter(files: seq<File>)
    ensures forall h :: h in Group(files).lists ==> Group(files).lists[h] == WithHash(files, h)
    ensures forall h :: h !in Group(files).lists ==> WithHash(files, h) == []
    decreases |files|
  {
    if files != [] {
      var init, f := files[..|files| - 1], files[|files| - 1];
      assert files == init + [f];
      GroupIsFilter(init);
      Snoc(init, f);
      forall h ensures WithHash(files, h) == WithHash(init, h) + if f.md5Checksum == Some(h) then [f] else [] {
        WithHashSnoc(init, f, h);
      }
    }
  }

  /**
   * Every file with a checksum sits in the list keyed by that checksum, and a
   * list holds only files carrying its key (so files without one are in none).
   */
  lemma GroupMembership(files: seq<File>)
    ensures forall f :: f in files && f.md5Checksum.Some? ==>
              f.md5Checksum.value in Group(files).lists && f in Group(files).lists[f.md5Checksum.value]
    ensures forall h, f :: h in Group(files).lists && f in Group(files).lists[h] ==>
              f in files && f.md5Checksum == Some(h)
  {
    GroupIsFilter(files);
    forall h ensures forall f :: f in WithHash(files, h) <==> f in files && f.md5Checksum == Some(h) {
      WithHashMembers(files, h);
    }
    forall f | f in files && f.md5Checksum.Some?
      ensures f.md5Checksum.value in Group(files).lists
    {
      assert f in WithHash(files, f.md5Checksum.value);
    }
  }

  /** Element 0 of each list is the first file seen with that checksum. */
  lemma GroupFirst(files: seq<File>, h: string) returns (i: nat)
    requires h in Group(files).lists
    ensures i < |files| && files[i] == Group(files).lists[h][0] && files[i].md5Checksum == Some(h)
    ensures forall j :: 0 <= j < i ==> files[j].md5Checksum != Some(h)
  {
    GroupIsFilter(files);
    i := WithHashFirst(files, h);
  }

  lemma {:induction false} SumLengthsFrame(order: seq<string>, lists: map<string, seq<File>>, h: string, l: seq<File>)
    requires forall k :: k in order ==> k in lists
    requires h !in order
    ensures SumLengths(order, lists[h := l]) == SumLengths(order, lists)
    decreases |order|
  {
    if order != [] {
      SumLengthsFrame(order[..|order| - 1], lists, h, l);
    }
  }

  lemma {:induction false} SumLengthsUpdate(order: seq<string>, lists: map<string, seq<File>>, h: string, l: seq<File>)
    requires forall k :: k in order ==> k in lists
    requires DistinctKeys(order) && h in order
    ensures SumLengths(order, lists[h := l]) + |lists[h]| == SumLengths(order, lists) + |l|
    decreases |order|
  {
    var init, last := order[..|order| - 1], order[|order| - 1];
    if last == h {
      SumLengthsFrame(init, lists, h, l);
    } else {
      assert h in init;
      SumLengthsUpdate(init, lists, h, l);
    }
  }

  /** Filing one more file adds one to the sum of the list lengths exactly when it has a checksum. */
  lemma InsertSum(ix: HashIndex, f: File)
    requires WellFormed(ix)
    ensures forall h :: h in Insert(ix, f).order ==> h in Insert(ix, f).lists
    ensures SumLengths(Insert(ix, f).order, Insert(ix, f).lists)
         == SumLengths(ix.order, ix.lists) + if f.md5Checksum.Some? then 1 else 0
  {
    if f.md5Checksum.Some? {
      var h := f.md5Checksum.value;
      if h in ix.lists {
        SumLengthsUpdate(ix.order, ix.lists, h, ix.lists[h] + [f]);
      } else {
        var order' := ix.order + [h];
        assert order'[..|order'| - 1] == ix.order;
        SumLengthsFrame(ix.order, ix.lists, h, [f]);
      }
    }
  }

  /** `files_with_md5` is the sum of the list lengths. */
  lemma {:induction false} GroupSum(files: seq<File>)
    ensures SumLengths(Group(files).order, Group(files).lists) == CountWithMd5(files)
    decreases |files|
  {
    if files != [] {
      var init, f := files[..|files| - 1], files[|files| - 1];
      assert files == init + [f];
      GroupSum(init);
      Snoc(init, f);
      InsertSum(Group(init), f);
    }
  }

  /** One conflict line per checksummed file except the first of each checksum. */
  lemma {:induction false} ConflictCount(files: seq<File>)
    ensures |Conflicts(files)| + |Group(files).order| == CountWithMd5(files)
    decreases |files|
  {
    if files != [] {
      var init, f := files[..|files| - 1], files[|files| - 1];
      assert files == init + [f];
      ConflictCount(init);
      Snoc(init, f);
    }
  }

  /** Every conflict line names the first file seen with its checksum. */
  lemma {:induction false} ConflictsNameFirst(files: seq<File>)
    ensures forall c :: c in Conflicts(files) ==>
              c.md5 in Group(files).lists && c.firstId == Group(files).lists[c.md5][0].id
    decreases |files|
  {
    if files != [] {
      var init, f := files[..|files| - 1], files[|files| - 1];
      assert files == init + [f];
      ConflictsNameFirst(init);
      Snoc(init, f);
    }
  }

  /**
   * Reference definition of the conflict lines, by the filter alone: in file
   * order, one line for each file that some earlier file shares its checksum
   * with, naming the first of those earlier files.
   */
  function Repeats(files: seq<File>): seq<Conflict> {
    if files == [] then []
    else
      var n := |files| - 1;
      var f := files[n];
      Repeats(files[..n]) +
        if f.md5Checksum.Some? && WithHash(files[..n], f.md5Checksum.value) != []
        then [Conflict(f.id, WithHash(files[..n], f.md5Checksum.value)[0].id, f.md5Checksum.value)]
        else []
  }

  /**
   * The test and the name in `Repeats`, in terms of positions: file `n` gets a
   * line exactly when an earlier file has its checksum, and the line names
   * the earliest such file.
   */
  lemma RepeatsAt(files: seq<File>, n: nat)
    requires n < |files| && files[n].md5Checksum.Some?
    ensures var h := files[n].md5Checksum.value;
      WithHash(files[..n], h) != [] <==> exists j :: 0 <= j < n && files[j].md5Checksum == Some(h)
    ensures var h := files[n].md5Checksum.value;
      WithHash(files[..n], h) != [] ==>
        exists j :: 0 <= j < n && files[j] == WithHash(files[..n], h)[0] && files[j].md5Checksum == Some(h)
          && forall k :: 0 <= k < j ==> files[k].md5Checksum != Some(h)
  {
    var h := files[n].md5Checksum.value;
    WithHashMembers(files[..n], h);
    if exists j :: 0 <= j < n && files[j].md5Checksum == Some(h) {
      var j :| 0 <= j < n && files[j].md5Checksum == Some(h);
      assert files[..n][j] == files[j];
    }
    if WithHash(files[..n], h) != [] {
      var j := WithHashFirst(files[..n], h);
      assert files[..n][j] == files[j];
      forall k | 0 <= k < j ensures files[k].md5Checksum != Some(h) {
        assert files[..n][k] == files[k];
      }
    }
  }

  /** The script prints exactly the reference conflict lines, in the same order. */
  lemma {:induction false} ConflictsAreRepeats(files: seq<File>)
    ensures Conflicts(files) == Repeats(files)
    decreases |files|
  {
    if files != [] {
      var init, f := files[..|files| - 1], files[|files| - 1];
      ConflictsAreRepeats(init);
      GroupIsFilter(init);
    }
  }

  // ---------------------------------------------------------------------------
  // The loops

  /** Appending the total after page `n + 1` keeps `analyzed` the list of running totals. */
  lemma AnalyzedStep(pages: seq<Page>, analyzed: seq<nat>, n: nat)
    requires n < |pages| && |analyzed| == n
    requires forall k :: 0 <= k < n ==> analyzed[k] == |Concat(pages[..k + 1])|
    ensures var analyzed' := analyzed + [|Concat(pages[..n + 1])|];
      forall k :: 0 <= k < n + 1 ==> analyzed'[k] == |Concat(pages[..k + 1])|
  {
  }

  /** The three running results of the script, after the files `seen`. */
  ghost predicate Tallies(seen: seq<File>, filesByHash: HashIndex, filesWithMd5: nat, conflicts: seq<Conflict>) {
    && filesByHash == Group(seen)
    && filesWithMd5 == CountWithMd5(seen)
    && conflicts == Conflicts(seen)
  }

  /**
   * The `for f in files` loop over one page: file every checksummed file under
   * its checksum, printing a conflict when the checksum is already a key.
   */
  method AnalyzePage(files: seq<File>, ghost seen: seq<File>,
                     filesByHash: HashIndex, filesWithMd5: nat, conflicts: seq<Conflict>)
    returns (filesByHash': HashIndex, filesWithMd5': nat, conflicts': seq<Conflict>)
    requires Tallies(seen, filesByHash, filesWithMd5, conflicts)
    ensures Tallies(seen + files, filesByHash', filesWithMd5', conflicts')
  {
    filesByHash', filesWithMd5', conflicts' := filesByHash, filesWithMd5, conflicts;
    ghost var done := seen;
    for j := 0 to |files|
      invariant done == seen + files[..j]
      invariant Tallies(done, filesByHash', filesWithMd5', conflicts')
    {
      var f := files[j];
      Snoc(done, f);
      if f.md5Checksum.Some? {
        var h := f.md5Checksum.value;
        if h in filesByHash'.lists {
          filesByHash' := filesByHash'.(lists := filesByHash'.lists[h := filesByHash'.lists[h] + [f]]);
          conflicts' := conflicts' + [Conflict(f.id, filesByHash'.lists[h][0].id, h)];
        } else {
          filesByHash' := HashIndex(filesByHash'.order + [h], filesByHash'.lists[h := [f]]);
        }
        filesWithMd5' := filesWithMd5' + 1;
      }
      assert files[..j + 1] == files[..j] + [f];
      done := done + [f];
    }
    assert files[..|files|] == files;
  }

  /**
   * The script's pagination loop.  Returns `files_by_hash`, `files_with_md5`,
   * `total_files_seen`, the conflict lines and the running totals printed
   * after each page ("%d files analyzed.").
   */
  method Deduplicate(pages: seq<Page>)
    returns (filesByHash: HashIndex, filesWithMd5: nat, totalFilesSeen: nat,
             conflicts: seq<Conflict>, analyzed: seq<nat>)
    requires Ends(pages)
    ensures totalFilesSeen == |Listed(pages)|
    ensures filesWithMd5 == CountWithMd5(Listed(pages))
    ensures filesByHash == Group(Listed(pages))
    ensures conflicts == Conflicts(Listed(pages))
    ensures |analyzed| == FetchCount(pages)
    ensures forall k :: 0 <= k < |analyzed| ==> analyzed[k] == |Concat(pages[..k + 1])|
  {
    var hasNext := true;
    filesByHash, filesWithMd5, totalFilesSeen := HashIndex([], map[]), 0, 0;
    conflicts, analyzed := [], [];
    var response := pages[0];
    var requests := 1;
    ghost var seen: seq<File> := [];
    while hasNext
      invariant 1 <= requests <= FetchCount(pages)
      invariant response == pages[requests - 1]
      invariant hasNext ==> |analyzed| == requests - 1 && seen == Concat(pages[..requests - 1])
      invariant !hasNext ==> |analyzed| == requests == FetchCount(pages) && seen == Concat(pages[..requests])
      invariant forall k :: 0 <= k < |analyzed| ==> analyzed[k] == |Concat(pages[..k + 1])|
      invariant totalFilesSeen == |seen|
      invariant Tallies(seen, filesByHash, filesWithMd5, conflicts)
      decreases FetchCount(pages) - requests, hasNext
    {
      var files := FilesOf(response);
      filesByHash, filesWithMd5, conflicts := AnalyzePage(files, seen, filesByHash, filesWithMd5, conflicts);
      totalFilesSeen := totalFilesSeen + |files|;
      PageStep(pages, requests);
      AnalyzedStep(pages, analyzed, requests - 1);
      seen := seen + files;
      analyzed := analyzed + [totalFilesSeen];
      if HasNext(response) {
        response := pages[requests];
        requests := requests + 1;
      } else {
        hasNext := false;
      }
    }
  }
}
