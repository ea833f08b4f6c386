/**
 * Drive file resources and the paginated `files().list` / `list_next` protocol
 * shared by the three scripts that list files (`drive_copy.py` reads single
 * files only).  A listing is the sequence of responses the
 * server gives to successive requests; the client asks for the next response
 * only while the current one carries a non-empty `nextPageToken`.
 */
module Paging {
  import opened Wrappers

  /** A file resource, restricted to the fields the scripts read. */
  datatype File = File(
    id: string,
    name: string,
    mimeType: string,
    size: Option<string>,
    md5Checksum: Option<string>)

  /** One response of a list request: `files` and `nextPageToken` may be absent. */
  datatype Page = Page(files: Option<seq<File>>, nextPageToken: Option<string>)

  /** `response.get('nextPageToken')` is truthy: present and not the empty string. */
  predicate HasNext(p: Page) {
    p.nextPageToken.Some? && p.nextPageToken.value != ""
  }

  /** `response.get('files', [])`. */
  function FilesOf(p: Page): seq<File> {
    p.files.GetOr([])
  }

  /** The server eventually answers with a response that has no next-page token. */
  predicate Ends(pages: seq<Page>) {
    exists k :: 0 <= k < |pages| && !HasNext(pages[k])
  }

  /** How many responses the client requests: up to and including the first final one. */
  function FetchCount(pages: seq<Page>): (n: nat)
    requires Ends(pages)
    ensures 1 <= n <= |pages|
    ensures !HasNext(pages[n - 1])
    ensures forall k :: 0 <= k < n - 1 ==> HasNext(pages[k])
    decreases |pages|
  {
    if !HasNext(pages[0]) then 1
    else
      assert Ends(pages[1..]) by {
        var k :| 0 <= k < |pages| && !HasNext(pages[k]);
        assert k != 0 && !HasNext(pages[1..][k - 1]);
      }
      1 + FetchCount(pages[1..])
  }

  /** The files of all given responses, page after page. */
  function Concat(pages: seq<Page>): seq<File> {
    if pages == [] then [] else Concat(pages[..|pages| - 1]) + FilesOf(pages[|pages| - 1])
  }

  /** The files a client that follows the tokens sees. */
  function Listed(pages: seq<Page>): seq<File>
    requires Ends(pages)
  {
    Concat(pages[..FetchCount(pages)])
  }

  lemma ConcatSnoc(pages: seq<Page>, p: Page)
    ensures Concat(pages + [p]) == Concat(pages) + FilesOf(p)
  {
    assert (pages + [p])[..|pages|] == pages;
  }

  /** Concatenation read from the front: the first page's files come first. */
  lemma {:induction false} ConcatCons(p: Page, pages: seq<Page>)
    ensures Concat([p] + pages) == FilesOf(p) + Concat(pages)
    decreases |pages|
  {
    if pages == [] {
      assert [p] + pages == [] + [p];
      ConcatSnoc([], p);
    } else {
      var init, last := pages[..|pages| - 1], pages[|pages| - 1];
      assert [p] + pages == ([p] + init) + [last];
      ConcatSnoc([p] + init, last);
      ConcatCons(p, init);
      ConcatSnoc(init, last);
      assert pages == init + [last];
    }
  }

  /**
   * The listing, read from the front: the first response's files, followed by
   * the rest of the listing only when the first response carries a token.
   */
  lemma ListedUnfold(pages: seq<Page>)
    requires Ends(pages)
    ensures !HasNext(pages[0]) ==> Listed(pages) == FilesOf(pages[0])
    ensures HasNext(pages[0]) ==>
              Ends(pages[1..]) && Listed(pages) == FilesOf(pages[0]) + Listed(pages[1..])
  {
    var n := FetchCount(pages);
    if !HasNext(pages[0]) {
      assert pages[..n] == [] + [pages[0]];
      ConcatSnoc([], pages[0]);
    } else {
      assert pages[..n] == [pages[0]] + pages[1..][..n - 1];
      ConcatCons(pages[0], pages[1..][..n - 1]);
    }
  }

  /** Responses after the first final one never influence what is listed. */
  lemma ListedIgnoresLaterPages(pages: seq<Page>, rest: seq<Page>)
    requires Ends(pages)
    ensures Ends(pages[..FetchCount(pages)] + rest)
    ensures FetchCount(pages[..FetchCount(pages)] + rest) == FetchCount(pages)
    ensures Listed(pages[..FetchCount(pages)] + rest) == Listed(pages)
  {
    var n := FetchCount(pages);
    var q := pages[..n] + rest;
    assert !HasNext(q[n - 1]);
    FetchCountIsFirstFinal(q, n);
    assert q[..n] == pages[..n];
  }

  /** FetchCount is determined by where the first final response sits. */
  lemma {:induction false} FetchCountIsFirstFinal(pages: seq<Page>, n: nat)
    requires 1 <= n <= |pages| && !HasNext(pages[n - 1])
    requires forall k :: 0 <= k < n - 1 ==> HasNext(pages[k])
    ensures Ends(pages) && FetchCount(pages) == n
    decreases n
  {
    assert !HasNext(pages[n - 1]);
    if n > 1 {
      FetchCountIsFirstFinal(pages[1..], n - 1);
    }
  }

  /** A file is listed exactly when it is on one of the requested pages. */
  lemma {:induction false} ConcatMembership(pages: seq<Page>, f: File)
    ensures f in Concat(pages) <==> exists k :: 0 <= k < |pages| && f in FilesOf(pages[k])
    decreases |pages|
  {
    if pages != [] {
      var init := pages[..|pages| - 1];
      ConcatMembership(init, f);
      if f in Concat(init) {
        var k :| 0 <= k < |init| && f in FilesOf(init[k]);
        assert f in FilesOf(pages[k]);
      }
      if k :| 0 <= k < |pages| && f in FilesOf(pages[k]) {
        if k < |init| { assert f in FilesOf(init[k]); }
      }
    }
  }

  /**
   * `get_files_in_directory`: request the first page, then follow the tokens;
   * yields every file of every requested page in order.
   */
  method FetchAll(pages: seq<Page>) returns (files: seq<File>, requests: nat)
    requires Ends(pages)
    ensures requests == FetchCount(pages)
    ensures files == Listed(pages)
  {
    var hasNext := true;
    var response := pages[0];
    requests := 1;
    files := [];
    while hasNext
      invariant 1 <= requests <= FetchCount(pages)
      invariant response == pages[requests - 1]
      invariant hasNext ==> files == Concat(pages[..requests - 1])
      invariant !hasNext ==> requests == FetchCount(pages) && files == Concat(pages[..requests])
      decreases FetchCount(pages) - requests, hasNext
    {
      assert pages[..requests] == pages[..requests - 1] + [response];
      ConcatSnoc(pages[..requests - 1], response);
      files := files + FilesOf(response);
      if HasNext(response) {
        response := pages[requests];
        requests := requests + 1;
      } else {
        hasNext := false;
      }
    }
  }
}
