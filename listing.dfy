/**
 * Paginated enumeration as the Drive service performs it.  The server splits
 * the full listing of a folder into pages of its own choosing, hands out a
 * continuation token with every page but the last, and may fail a request.
 */
module Listing {
  import opened Wrappers

  /**
   * How the server answers one enumeration: `sizes` gives the length of each
   * page before the last (the remainder of the listing forms the last page), and
   * `failAt`, when present, is the index of the first request that fails.
   */
  datatype Paging = Paging(sizes: seq<nat>, failAt: Option<nat>)

  /** What one `files().list(...).execute()` call gives back. */
  datatype Response<T> = Page(files: seq<T>, nextPageToken: Option<nat>) | HttpError

  function Min(a: int, b: int): int { if a < b then a else b }

  /** The pages of `items`, cut as `sizes` says; there is always at least one. */
  function Pages<T>(items: seq<T>, sizes: seq<nat>): (pages: seq<seq<T>>)
    ensures |pages| == |sizes| + 1
    decreases sizes
  {
    if sizes == [] then [items]
    else
      var n := Min(sizes[0], |items|);
      [items[..n]] + Pages(items[n..], sizes[1..])
  }

  function Flatten<T>(pages: seq<seq<T>>): seq<T>
  {
    if pages == [] then [] else Flatten(pages[..|pages| - 1]) + pages[|pages| - 1]
  }

  /** Every request of the enumeration succeeds. */
  predicate Reliable(paging: Paging)
  {
    paging.failAt.None? || |paging.sizes| < paging.failAt.value
  }

  /** The number of pages received before the first failed request. */
  function Received(pageCount: nat, failAt: Option<nat>): nat
  {
    if failAt.Some? && failAt.value < pageCount then failAt.value else pageCount
  }

  /**
   * What a client that follows the tokens collects: the pages before the first
   * failed request, in request order.
   */
  function Fetched<T>(items: seq<T>, paging: Paging): seq<T>
  {
    var pages := Pages(items, paging.sizes);
    Flatten(pages[..Received(|pages|, paging.failAt)])
  }

  /**
   * The server's answer to a request carrying `pageToken` (no token asks for the
   * first page).  A token names the index of the page it continues with.
   */
  function Respond<T>(items: seq<T>, paging: Paging, pageToken: Option<nat>): Response<T>
  {
    var pages := Pages(items, paging.sizes);
    var k := PageIndex(pageToken);
    if |pages| <= k || (paging.failAt.Some? && paging.failAt.value <= k) then HttpError
    else Page(pages[k], if k + 1 < |pages| then Some(k + 1) else None)
  }

  /** The index of the page a request carrying `pageToken` asks for (no token: the first). */
  function PageIndex(pageToken: Option<nat>): nat
  {
    if pageToken.None? then 0 else pageToken.value
  }

  /** The files of a single request without a token: only the first page. */
  function FirstPage<T>(items: seq<T>, paging: Paging): Option<seq<T>>
  {
    match Respond(items, paging, None)
    case Page(files, _) => Some(files)
    case HttpError => None
  }

  lemma {:induction false} FlattenCons<T>(p: seq<T>, rest: seq<seq<T>>)
    ensures Flatten([p] + rest) == p + Flatten(rest)
    decreases |rest|
  {
    if rest == [] {
      assert [p] + rest == [p];
      assert [p][..0] == [];
    } else {
      var n := |rest|;
      assert ([p] + rest)[..n] == [p] + rest[..n - 1];
      FlattenCons(p, rest[..n - 1]);
    }
  }

  lemma {:induction false} FlattenSnoc<T>(pages: seq<seq<T>>, k: nat)
    requires k < |pages|
    ensures Flatten(pages[..k + 1]) == Flatten(pages[..k]) + pages[k]
  {
    assert pages[..k + 1][..k] == pages[..k];
  }

  /** Concatenating the pages gives back the listing, however it was cut. */
  lemma {:induction false} PagesCover<T>(items: seq<T>, sizes: seq<nat>)
    ensures Flatten(Pages(items, sizes)) == items
    decreases sizes
  {
    if sizes == [] {
      assert [items][..0] == [];
    } else {
      var n := Min(sizes[0], |items|);
      PagesCover(items[n..], sizes[1..]);
      FlattenCons(items[..n], Pages(items[n..], sizes[1..]));
      assert items[..n] + items[n..] == items;
    }
  }

  /** The pages before any index concatenate to a prefix of all pages. */
  lemma {:induction false} FlattenPrefix<T>(pages: seq<seq<T>>, k: nat)
    requires k <= |pages|
    ensures Flatten(pages[..k]) <= Flatten(pages)
    decreases |pages|
  {
    if k == |pages| {
      assert pages[..k] == pages;
    } else {
      var n := |pages| - 1;
      assert pages[..n][..k] == pages[..k];
      FlattenPrefix(pages[..n], k);
    }
  }

  /** With no failed request the client collects the whole listing, whatever the page sizes. */
  lemma {:induction false} FetchedAll<T>(items: seq<T>, paging: Paging)
    requires Reliable(paging)
    ensures Fetched(items, paging) == items
  {
    var pages := Pages(items, paging.sizes);
    assert pages[..|pages|] == pages;
    PagesCover(items, paging.sizes);
  }

  /** Whatever fails, the client collects a prefix of the listing and never more. */
  lemma {:induction false} FetchedPrefix<T>(items: seq<T>, paging: Paging)
    ensures Fetched(items, paging) <= items
  {
    var pages := Pages(items, paging.sizes);
    FlattenPrefix(pages, Received(|pages|, paging.failAt));
    PagesCover(items, paging.sizes);
  }

  /** Anything collected is in the listing. */
  lemma FetchedMember<T>(items: seq<T>, paging: Paging, x: T)
    requires x in Fetched(items, paging)
    ensures x in items
  {
    FetchedPrefix(items, paging);
    var f := Fetched(items, paging);
    assert items[..|f|] == f;
  }

  /** A single request sees at most the first page: a prefix of the listing. */
  lemma {:induction false} FirstPageIsPrefix<T>(items: seq<T>, paging: Paging)
    requires FirstPage(items, paging).Some?
    ensures FirstPage(items, paging).value <= items
  {
    if paging.sizes != [] {
      var n := Min(paging.sizes[0], |items|);
      assert Pages(items, paging.sizes)[0] == items[..n];
    }
  }
}
