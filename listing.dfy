/**
 * drive_list.py: read a query and an optional maximum, list the matching
 * files page by page until the maximum is reached, print one line per file
 * and the count, then delete every listed file when the user answers "yes"
 * and then "Y".
 */
module Listing {
  import opened Wrappers
  import opened Paging

  // ---------------------------------------------------------------------------
  // Reading the maximum: `int()` on the non-empty answer

  /**
   * The ASCII characters `int()` ignores around the digits: those for which
   * `str.isspace()` holds, the separators U+001C to U+001F included.
   */
  predicate IsSpace(c: char) {
    c == ' ' || c == '\t' || c == '\n' || c == '\r' || c == '\U{000B}' || c == '\U{000C}'
    || '\U{001C}' <= c <= '\U{001F}'
  }

  predicate IsDigit(c: char) {
    '0' <= c <= '9'
  }

  predicate AllDigits(s: string) {
    forall i :: 0 <= i < |s| ==> IsDigit(s[i])
  }

  function DigitsValue(s: string): nat
    requires AllDigits(s)
  {
    if s == [] then 0 else DigitsValue(s[..|s| - 1]) * 10 + (s[|s| - 1] as int - '0' as int)
  }

  function TrimStart(s: string): string {
    if s != [] && IsSpace(s[0]) then TrimStart(s[1..]) else s
  }

  function TrimEnd(s: string): string {
    if s != [] && IsSpace(s[|s| - 1]) then TrimEnd(s[..|s| - 1]) else s
  }

  /** `int(s)` for decimal input: optional sign, at least one digit, whitespace around; None is a ValueError. */
  function ParseInt(s: string): Option<int> {
    var t := TrimEnd(TrimStart(s));
    if t == [] then None
    else if t[0] == '-' || t[0] == '+' then
      var ds := t[1..];
      if ds != [] && AllDigits(ds) then Some(if t[0] == '-' then -(DigitsValue(ds) as int) else DigitsValue(ds) as int)
      else None
    else if AllDigits(t) then Some(DigitsValue(t))
    else None
  }

  function Digit(d: nat): char
    requires d < 10
  {
    ('0' as int + d) as char
  }

  /** Decimal notation of a natural number, most significant digit first. */
  function NatToString(n: nat): (s: string)
    ensures s != [] && AllDigits(s)
  {
    if n < 10 then [Digit(n)] else NatToString(n / 10) + [Digit(n % 10)]
  }

  /** `str(n)`. */
  function IntToString(n: int): string {
    if n < 0 then "-" + NatToString(-n) else NatToString(n)
  }

  lemma {:induction false} NatDigitsRoundTrip(n: nat)
    ensures DigitsValue(NatToString(n)) == n
  {
    if n >= 10 {
      var s := NatToString(n);
      assert s[..|s| - 1] == NatToString(n / 10);
      NatDigitsRoundTrip(n / 10);
    }
  }

  /** `int(str(n)) == n`. */
  lemma ParseIntRoundTrip(n: int)
    ensures ParseInt(IntToString(n)) == Some(n)
  {
    var s := IntToString(n);
    var digits := NatToString(if n < 0 then -n else n);
    NatDigitsRoundTrip(if n < 0 then -n else n);
    assert !IsSpace(s[0]) && !IsSpace(s[|s| - 1]);
    assert TrimEnd(TrimStart(s)) == s;
    if n < 0 {
      assert s[1..] == digits;
    } else {
      assert s == digits;
    }
  }

  /** The answer to "Maximum number of results?". */
  datatype Limit =
    | NoLimit             // empty answer: `None`
    | AtMost(n: int)      // the parsed integer
    | NotANumber          // `int()` raises ValueError, which ends the script

  function ParseLimit(answer: string): Limit {
    if answer == "" then NoLimit
    else match ParseInt(answer)
      case Some(n) => AtMost(n)
      case None => NotANumber
  }

  /** An empty answer gives no limit, and any printed integer reads back as itself. */
  lemma ParseLimitCases(n: int)
    ensures ParseLimit("") == NoLimit
    ensures ParseLimit(IntToString(n)) == AtMost(n)
  {
    ParseIntRoundTrip(n);
  }

  // ---------------------------------------------------------------------------
  // The capped listing

  /** `max_results and ...`: only a non-zero maximum ever stops the listing. */
  predicate Capped(limit: Option<int>) {
    limit.Some? && limit.value != 0
  }

  /**
   * How many files a capped listing keeps: `len(files_found) >= max_results`
   * first holds at that length (a negative maximum already holds at 1).
   */
  function Bound(limit: Option<int>): (b: nat)
    requires Capped(limit)
    ensures b >= 1 && b >= limit.value
    ensures limit.value > 0 ==> b == limit.value
    ensures limit.value < 0 ==> b == 1
  {
    if limit.value > 0 then limit.value else 1
  }

  function Min(a: nat, b: nat): nat {
    if a <= b then a else b
  }

  /** What `print` writes for its arguments: each one, separated by a single space. */
  function JoinWords(words: seq<string>): (line: string)
    ensures words != [] ==> words[0] <= line
  {
    if words == [] then ""
    else if |words| == 1 then words[0]
    else words[0] + " " + JoinWords(words[1..])
  }

  /** The fields the script prints for a file: size and checksum only when both are present. */
  function Fields(f: File): seq<string> {
    if f.size.Some? && f.md5Checksum.Some? then [f.name, f.mimeType, f.size.value, f.id, f.md5Checksum.value]
    else [f.name, f.mimeType, f.id]
  }

  /** `print(name, mimeType, size, id, md5Checksum)`, or without size and checksum. */
  function FormatLine(f: File): (line: string)
    ensures line == JoinWords(Fields(f))
    ensures |line| == |f.name| + |f.mimeType| + |f.id| + 2 +
      if f.size.Some? && f.md5Checksum.Some? then |f.size.value| + |f.md5Checksum.value| + 2 else 0
    ensures line[..|f.name| + 1] == f.name + " "
  {
    var ws := Fields(f);
    assert JoinWords(ws[|ws| - 1..]) == ws[|ws| - 1];
    if f.size.Some? && f.md5Checksum.Some? then
      assert JoinWords(ws[3..]) == f.id + " " + f.md5Checksum.value;
      assert JoinWords(ws[2..]) == f.size.value + " " + f.id + " " + f.md5Checksum.value;
      f.name + " " + f.mimeType + " " + f.size.value + " " + f.id + " " + f.md5Checksum.value
    else
      assert JoinWords(ws[1..]) == f.mimeType + " " + f.id;
      f.name + " " + f.mimeType + " " + f.id
  }

  lemma ConcatPrefix(pages: seq<Page>, m: nat, n: nat)
    requires m <= n <= |pages|
    ensures Concat(pages[..m]) <= Concat(pages[..n])
    decreases n - m
  {
    if m < n {
      ConcatPrefix(pages, m, n - 1);
      assert pages[..n] == pages[..n - 1] + [pages[n - 1]];
      ConcatSnoc(pages[..n - 1], pages[n - 1]);
    }
  }

  /** Each printed line is the formatted file at the same position. */
  predicate Printed(lines: seq<string>, files: seq<File>) {
    |lines| == |files| && forall i :: 0 <= i < |lines| ==> lines[i] == FormatLine(files[i])
  }

  /** Printing one more file keeps the lines in step with the files. */
  lemma PrintedSnoc(lines: seq<string>, files: seq<File>, f: File)
    requires Printed(lines, files)
    ensures Printed(lines + [FormatLine(f)], files + [f])
  {
    var lines', files' := lines + [FormatLine(f)], files + [f];
    assert forall i :: 0 <= i < |lines| ==> lines'[i] == lines[i] && files'[i] == files[i];
  }

  /**
   * The inner `for file in files` loop over one page: print and keep each file
   * and stop as soon as the maximum is reached.
   */
  method TakeFromPage(files: seq<File>, maxResults: Option<int>, filesFound: seq<File>, lines: seq<string>)
    returns (filesFound': seq<File>, lines': seq<string>, reached: bool)
    requires Printed(lines, filesFound)
    requires Capped(maxResults) ==> |filesFound| < Bound(maxResults)
    ensures Printed(lines', filesFound')
    ensures reached == (Capped(maxResults) && |filesFound'| >= Bound(maxResults))
    ensures !reached ==> filesFound' == filesFound + files
    ensures reached ==>
              && |filesFound'| == Bound(maxResults)
              && filesFound <= filesFound' <= filesFound + files
              && |filesFound| < |filesFound'|
  {
    filesFound', lines', reached := filesFound, lines, false;
    var j := 0;
    while j < |files|
      invariant 0 <= j <= |files|
      invariant Capped(maxResults) ==> |filesFound'| < Bound(maxResults)
      invariant filesFound' == filesFound + files[..j]
      invariant Printed(lines', filesFound')
    {
      var f := files[j];
      PrintedSnoc(lines', filesFound', f);
      lines' := lines' + [FormatLine(f)];
      filesFound' := filesFound' + [f];
      assert files[..j + 1] == files[..j] + [f];
      if maxResults.Some? && maxResults.value != 0 && |filesFound'| >= maxResults.value {
        reached := true;
        assert filesFound' <= filesFound + files;
        return;
      }
      j := j + 1;
    }
    assert files[..j] == files;
  }

  /** The maximum is reached: `max_results and len(files_found) >= max_results`. */
  predicate Reached(maxResults: Option<int>, filesFound: seq<File>) {
    Capped(maxResults) && |filesFound| >= Bound(maxResults)
  }

  /**
   * The state of the pagination loop after `requests` responses: while pages
   * remain, the files of all earlier pages; once the maximum is reached (with
   * the files of the page `fullAt`), at most one more response is requested.
   */
  ghost predicate Collecting(pages: seq<Page>, maxResults: Option<int>, requests: nat, hasNext: bool,
                             fullAt: nat, filesFound: seq<File>)
    requires Ends(pages)
  {
    && 1 <= requests <= FetchCount(pages)
    && (hasNext ==> !Reached(maxResults, filesFound) && filesFound == Concat(pages[..requests - 1]))
    && (!hasNext && !Reached(maxResults, filesFound) ==>
          requests == FetchCount(pages) && filesFound == Concat(pages[..requests]))
    && (Reached(maxResults, filesFound) ==>
          && !hasNext && 1 <= fullAt <= requests && |filesFound| == Bound(maxResults)
          && |Concat(pages[..fullAt - 1])| < |filesFound|
          && filesFound <= Concat(pages[..fullAt])
          && requests == fullAt + if HasNext(pages[fullAt - 1]) then 1 else 0)
    && (Capped(maxResults) && requests >= 2 ==> |Concat(pages[..requests - 2])| < Bound(maxResults))
  }

  /** One pass of the page loop: take from the current page, then request the next one if there is one. */
  lemma CollectStep(pages: seq<Page>, maxResults: Option<int>, requests: nat,
                    before: seq<File>, after: seq<File>, reached: bool)
    requires Ends(pages)
    requires Collecting(pages, maxResults, requests, true, 0, before)
    requires var files := FilesOf(pages[requests - 1]);
      && reached == Reached(maxResults, after)
      && (!reached ==> after == before + files)
      && (reached ==> |after| == Bound(maxResults) && before <= after <= before + files && |before| < |after|)
    ensures var more := HasNext(pages[requests - 1]);
      Collecting(pages, maxResults, if more then requests + 1 else requests, !reached && more,
                 if reached then requests else 0, after)
  {
    assert pages[..requests] == pages[..requests - 1] + [pages[requests - 1]];
    ConcatSnoc(pages[..requests - 1], pages[requests - 1]);
  }

  /** What the loop leaves when it ends. */
  lemma CollectEnd(pages: seq<Page>, maxResults: Option<int>, requests: nat, fullAt: nat, filesFound: seq<File>)
    requires Ends(pages)
    requires Collecting(pages, maxResults, requests, false, fullAt, filesFound)
    ensures filesFound <= Listed(pages)
    ensures |filesFound| == if Capped(maxResults) then Min(Bound(maxResults), |Listed(pages)|) else |Listed(pages)|
    ensures requests < FetchCount(pages) ==>
              && Capped(maxResults) && |filesFound| == Bound(maxResults)
              && requests >= 2
              && |filesFound| <= |Concat(pages[..requests - 1])|
              && |Concat(pages[..requests - 2])| < |filesFound|
    ensures Capped(maxResults) && requests >= 2 ==> |Concat(pages[..requests - 2])| < Bound(maxResults)
  {
    if Reached(maxResults, filesFound) {
      ConcatPrefix(pages, fullAt, FetchCount(pages));
    }
  }

  /**
   * The script's pagination loop: every file of every page is printed and
   * appended to `files_found` until the maximum is reached; then the page loop
   * ends after at most one more request.  `requests` counts the responses
   * requested.
   */
  method CollectFiles(pages: seq<Page>, maxResults: Option<int>)
    returns (filesFound: seq<File>, lines: seq<string>, requests: nat)
    requires Ends(pages)
    ensures filesFound <= Listed(pages)
    ensures |filesFound| == if Capped(maxResults) then Min(Bound(maxResults), |Listed(pages)|) else |Listed(pages)|
    ensures Printed(lines, filesFound)
    ensures 1 <= requests <= FetchCount(pages)
    ensures requests < FetchCount(pages) ==>
              && Capped(maxResults) && |filesFound| == Bound(maxResults)
              && requests >= 2
              && |filesFound| <= |Concat(pages[..requests - 1])|
              && |Concat(pages[..requests - 2])| < |filesFound|
    ensures Capped(maxResults) && requests >= 2 ==> |Concat(pages[..requests - 2])| < Bound(maxResults)
  {
    var hasNext := true;
    filesFound, lines := [], [];
    var response := pages[0];
    requests := 1;
    ghost var fullAt := 0;
    while hasNext
      invariant Collecting(pages, maxResults, requests, hasNext, fullAt, filesFound)
      invariant response == pages[requests - 1]
      invariant Printed(lines, filesFound)
      decreases FetchCount(pages) - requests, hasNext
    {
      ghost var before := filesFound;
      var reached;
      filesFound, lines, reached := TakeFromPage(FilesOf(response), maxResults, filesFound, lines);
      CollectStep(pages, maxResults, requests, before, filesFound, reached);
      if reached {
        hasNext := false;
        fullAt := requests;
      }
      if HasNext(response) {
        response := pages[requests];
        requests := requests + 1;
      } else {
        hasNext := false;
      }
    }
    CollectEnd(pages, maxResults, requests, fullAt, filesFound);
  }

  // ---------------------------------------------------------------------------
  // The optional deletion

  /** `delete == 'yes' and sure == 'Y'`: nothing else starts the deletion. */
  predicate Confirmed(delete: string, sure: string) {
    delete == "yes" && sure == "Y"
  }

  /** What the script prints for one delete request. */
  datatype DeleteReport =
    | Deleted(id: string)     // "Successfully deleted <id>"
    | Refused(id: string)     // the HttpError, printed and passed over

  /** The ids of some files. */
  function Ids(files: seq<File>): (ids: set<string>)
    ensures forall i :: 0 <= i < |files| ==> files[i].id in ids
    ensures forall id :: id in ids ==> exists i :: 0 <= i < |files| && files[i].id == id
  {
    if files == [] then {}
    else
      var init := files[..|files| - 1];
      var ids := Ids(init) + {files[|files| - 1].id};
      assert forall i :: 0 <= i < |init| ==> init[i] == files[i];
      ids
  }

  /**
   * For each folder id, the descendants the user owns: `files().delete` on a
   * folder removes them with it.  An id without an entry has none.
   */
  type Owned = map<string, set<string>>

  function Descendants(owned: Owned, id: string): set<string> {
    if id in owned then owned[id] else {}
  }

  /**
   * The ids that still exist after the deletes of `files`, in order.  The
   * server refuses a delete with an HttpError when the id no longer exists or
   * is in `protected`; otherwise it removes the file and its owned descendants.
   */
  function Remaining(store: set<string>, protected: set<string>, owned: Owned, files: seq<File>): set<string> {
    if files == [] then store
    else
      var before, id := Remaining(store, protected, owned, files[..|files| - 1]), files[|files| - 1].id;
      if id in before && id !in protected then before - ({id} + Descendants(owned, id)) else before
  }

  /** Deletes only ever remove ids: what is left after more deletes is left after fewer. */
  lemma {:induction false} RemainingShrinks(store: set<string>, protected: set<string>, owned: Owned, files: seq<File>, m: nat)
    requires m <= |files|
    ensures Remaining(store, protected, owned, files) <= Remaining(store, protected, owned, files[..m])
    ensures Remaining(store, protected, owned, files) <= store
    decreases |files|
  {
    if files == [] {
    } else if m == |files| {
      assert files[..m] == files;
      RemainingShrinks(store, protected, owned, files[..|files| - 1], 0);
    } else {
      var init := files[..|files| - 1];
      assert init[..m] == files[..m];
      RemainingShrinks(store, protected, owned, init, m);
    }
  }

  /**
   * Without owned descendants among the listed ids' folders, a delete removes
   * only its own id: a listed file is left exactly when it did not exist or
   * was protected, and a delete succeeds exactly when the id exists, is not
   * protected and was not deleted earlier in the run.
   */
  lemma {:induction false} FlatDeletes(store: set<string>, protected: set<string>, owned: Owned, files: seq<File>)
    requires forall i :: 0 <= i < |files| ==> Descendants(owned, files[i].id) == {}
    ensures Remaining(store, protected, owned, files) == store - (Ids(files) - protected)
    decreases |files|
  {
    if files != [] {
      var init, id := files[..|files| - 1], files[|files| - 1].id;
      assert forall i :: 0 <= i < |init| ==> init[i] == files[i];
      FlatDeletes(store, protected, owned, init);
      assert Ids(files) == Ids(init) + {id};
    }
  }

  /** Without owned descendants, the delete of a listed file succeeds exactly when it exists, is not protected and was not deleted earlier. */
  lemma FlatReports(store: set<string>, protected: set<string>, owned: Owned, files: seq<File>, i: nat)
    requires i < |files|
    requires forall k :: 0 <= k < |files| ==> Descendants(owned, files[k].id) == {}
    ensures files[i].id in Remaining(store, protected, owned, files[..i]) - protected
        <==> files[i].id in store - protected && files[i].id !in Ids(files[..i])
  {
    assert forall k :: 0 <= k < i ==> files[..i][k] == files[k];
    FlatDeletes(store, protected, owned, files[..i]);
  }

  /**
   * The cascade: once a folder's delete has succeeded, a later listed file
   * among its owned descendants no longer exists, so its own delete is refused.
   */
  lemma CascadeRefuses(store: set<string>, protected: set<string>, owned: Owned, files: seq<File>, i: nat, k: nat)
    requires i < k < |files|
    requires files[i].id in Remaining(store, protected, owned, files[..i]) - protected
    requires files[k].id in Descendants(owned, files[i].id)
    ensures files[k].id !in Remaining(store, protected, owned, files[..k])
  {
    var upto := files[..k];
    assert upto[..i + 1][..i] == files[..i] && upto[..i + 1][i] == files[i];
    assert upto[..i + 1] == files[..i + 1];
    RemainingShrinks(store, protected, owned, upto, i + 1);
  }

  /** One report per attempted delete, in order, each the server's answer in the state the earlier deletes left. */
  ghost predicate Reported(found: seq<File>, store: set<string>, protected: set<string>, owned: Owned,
                           reports: seq<DeleteReport>) {
    && |reports| <= |found|
    && forall i :: 0 <= i < |reports| ==>
         && reports[i].id == found[i].id
         && (reports[i].Deleted? <==> found[i].id in Remaining(store, protected, owned, found[..i]) - protected)
  }

  /** One more delete request keeps the reports and the store in step with the files handled so far. */
  lemma DeleteStep(found: seq<File>, store: set<string>, protected: set<string>, owned: Owned,
                   reports: seq<DeleteReport>, current: set<string>, j: nat)
    requires j < |found| && |reports| == j
    requires Reported(found, store, protected, owned, reports)
    requires current == Remaining(store, protected, owned, found[..j])
    ensures var id := found[j].id;
      var ok := id in current && id !in protected;
      && Reported(found, store, protected, owned, reports + [if ok then Deleted(id) else Refused(id)])
      && (if ok then current - ({id} + Descendants(owned, id)) else current)
           == Remaining(store, protected, owned, found[..j + 1])
  {
    var id := found[j].id;
    var ok := id in current && id !in protected;
    var reports' := reports + [if ok then Deleted(id) else Refused(id)];
    RemainingStep(store, protected, owned, found, j);
    forall i | 0 <= i < |reports'|
      ensures reports'[i].id == found[i].id
      ensures reports'[i].Deleted? <==> found[i].id in Remaining(store, protected, owned, found[..i]) - protected
    {
      if i < j {
        assert reports'[i] == reports[i];
      }
    }
  }

  /** The deletes of the first `j + 1` files are those of the first `j`, then one more. */
  lemma RemainingStep(store: set<string>, protected: set<string>, owned: Owned, found: seq<File>, j: nat)
    requires j < |found|
    ensures var before, id := Remaining(store, protected, owned, found[..j]), found[j].id;
      Remaining(store, protected, owned, found[..j + 1])
        == if id in before && id !in protected then before - ({id} + Descendants(owned, id)) else before
  {
    assert found[..j + 1][..j] == found[..j] && found[..j + 1][j] == found[j];
  }

  /**
   * The deletion loop.  A delete of an id that does not exist (any more) or is
   * in `protected` comes back as an HttpError, which is printed, and the loop
   * goes on; a successful one removes the file and its owned descendants.
   */
  method DeleteFound(found: seq<File>, delete: string, sure: string,
                     store: set<string>, protected: set<string>, owned: Owned)
    returns (store': set<string>, reports: seq<DeleteReport>)
    ensures !Confirmed(delete, sure) ==> store' == store && reports == []
    ensures Confirmed(delete, sure) ==> store' == Remaining(store, protected, owned, found)
    ensures Confirmed(delete, sure) ==> |reports| == |found|
    ensures Confirmed(delete, sure) ==>
              forall i :: 0 <= i < |reports| ==>
                && reports[i].id == found[i].id
                && (reports[i].Deleted? <==> found[i].id in Remaining(store, protected, owned, found[..i]) - protected)
    ensures store' <= store
    ensures forall i :: 0 <= i < |reports| && reports[i].Deleted? ==> found[i].id !in store'
  {
    store', reports := store, [];
    if !Confirmed(delete, sure) {
      return;
    }
    for j := 0 to |found|
      invariant store' == Remaining(store, protected, owned, found[..j])
      invariant |reports| == j
      invariant Reported(found, store, protected, owned, reports)
    {
      var id := found[j].id;
      DeleteStep(found, store, protected, owned, reports, store', j);
      if id in store' && id !in protected {
        store' := store' - ({id} + Descendants(owned, id));
        reports := reports + [Deleted(id)];
      } else {
        reports := reports + [Refused(id)];
      }
    }
    assert found[..|found|] == found;
    DeletedGone(found, store, protected, owned, reports);
  }

  /** A file whose delete succeeded no longer exists at the end of the run. */
  lemma DeletedGone(found: seq<File>, store: set<string>, protected: set<string>, owned: Owned,
                    reports: seq<DeleteReport>)
    requires Reported(found, store, protected, owned, reports)
    ensures Remaining(store, protected, owned, found) <= store
    ensures forall i :: 0 <= i < |reports| && reports[i].Deleted? ==>
              found[i].id !in Remaining(store, protected, owned, found)
  {
    RemainingShrinks(store, protected, owned, found, 0);
    forall i | 0 <= i < |reports| && reports[i].Deleted?
      ensures found[i].id !in Remaining(store, protected, owned, found)
    {
      assert found[..i + 1][..i] == found[..i] && found[..i + 1][i] == found[i];
      RemainingShrinks(store, protected, owned, found, i + 1);
    }
  }

  // ---------------------------------------------------------------------------
  // The whole script

  /** What one run prints and leaves behind. */
  datatype Session = Session(
    filesFound: seq<File>,      // `files_found`; the script prints its length
    lines: seq<string>,         // one line per found file
    requests: nat,              // list requests sent
    reports: seq<DeleteReport>, // one per attempted delete
    store: set<string>)         // the ids that exist afterwards

  /**
   * The script from the two answers on: None when the maximum is not a
   * number (the ValueError ends it before any request).  The query itself is
   * part of the server's answer `pages`.
   */
  method ListAndDelete(pages: seq<Page>, maxAnswer: string, delete: string, sure: string,
                       store: set<string>, protected: set<string>, owned: Owned)
    returns (r: Option<Session>)
    requires Ends(pages)
    ensures r.None? <==> ParseLimit(maxAnswer).NotANumber?
    ensures r.Some? ==>
              var limit := if ParseLimit(maxAnswer).AtMost? then Some(ParseLimit(maxAnswer).n) else None;
              && r.value.filesFound <= Listed(pages)
              && |r.value.filesFound| == (if Capped(limit) then Min(Bound(limit), |Listed(pages)|) else |Listed(pages)|)
              && Printed(r.value.lines, r.value.filesFound)
              && 1 <= r.value.requests <= FetchCount(pages)
              && r.value.store == (if Confirmed(delete, sure) then Remaining(store, protected, owned, r.value.filesFound) else store)
              && |r.value.reports| == (if Confirmed(delete, sure) then |r.value.filesFound| else 0)
    ensures r.Some? ==>
              var limit := if ParseLimit(maxAnswer).AtMost? then Some(ParseLimit(maxAnswer).n) else None;
              var requests, found := r.value.requests, r.value.filesFound;
              && (requests < FetchCount(pages) ==>
                    && Capped(limit) && |found| == Bound(limit) && requests >= 2
                    && |found| <= |Concat(pages[..requests - 1])|
                    && |Concat(pages[..requests - 2])| < |found|)
              && (Capped(limit) && requests >= 2 ==> |Concat(pages[..requests - 2])| < Bound(limit))
    ensures r.Some? && Confirmed(delete, sure) ==>
              var found, reports := r.value.filesFound, r.value.reports;
              && (forall i :: 0 <= i < |reports| ==>
                    && reports[i].id == found[i].id
                    && (reports[i].Deleted? <==> found[i].id in Remaining(store, protected, owned, found[..i]) - protected))
              && (forall i :: 0 <= i < |reports| && reports[i].Deleted? ==> found[i].id !in r.value.store)
    ensures r.Some? ==> r.value.store <= store
  {
    var limit := ParseLimit(maxAnswer);
    if limit.NotANumber? {
      return None;
    }
    var maxResults := if limit.AtMost? then Some(limit.n) else None;
    var filesFound, lines, requests := CollectFiles(pages, maxResults);
    var store', reports := DeleteFound(filesFound, delete, sure, store, protected, owned);
    r := Some(Session(filesFound, lines, requests, reports, store'));
  }
}
