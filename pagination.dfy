/** The paginated listing of a playlist's item ids, over an abstract sequence of
    page responses: the platform's answers to the first, second, ... list request.
    Each page is given already decoded: its HTTP status, the `videoId`s of its
    items (absent when the body has no `items` array) and its `nextPageToken`. */
module Pagination {
  import opened Wrappers

  datatype Page = Page(status: int, items: Option<seq<string>>, nextPageToken: Option<string>)

  /** Why a listing aborts: a non-200 response, a body without `items` (fatal
      only where the program demands the array), or no modelled response left
      for a request the loop would still make. */
  datatype ListError = HttpStatus(code: int) | MissingItems | Exhausted

  /** An absent token reads as "". */
  function NextToken(p: Page): string {
    if p.nextPageToken.Some? then p.nextPageToken.value else ""
  }

  /** The ids a page contributes, or why it aborts the listing. */
  function PageIds(p: Page, itemsRequired: bool): (r: Result<seq<string>, ListError>)
    ensures r.Failure? <==> p.status != 200 || (itemsRequired && p.items.None?)
    ensures r.Success? ==> r.value == (if p.items.Some? then p.items.value else [])
  {
    if p.status != 200 then Failure(HttpStatus(p.status))
    else if p.items.None? then (if itemsRequired then Failure(MissingItems) else Success([]))
    else Success(p.items.value)
  }

  /** After this page the loop asks for another one. */
  predicate Continues(p: Page, itemsRequired: bool) {
    PageIds(p, itemsRequired).Success? && NextToken(p) != ""
  }

  /** `ids` placed before the ids of a successful listing; a failure stays. */
  function Prepend(ids: seq<string>, r: Result<seq<string>, ListError>): Result<seq<string>, ListError> {
    match r
    case Failure(e) => Failure(e)
    case Success(rest) => Success(ids + rest)
  }

  /** The listing page by page: take the first page's ids and, while its token
      is non-empty, the listing of the remaining pages after them. */
  function Listing(pages: seq<Page>, itemsRequired: bool): Result<seq<string>, ListError>
    decreases |pages|
  {
    if pages == [] then Failure(Exhausted)
    else match PageIds(pages[0], itemsRequired)
      case Failure(e) => Failure(e)
      case Success(ids) =>
        if NextToken(pages[0]) == "" then Success(ids)
        else Prepend(ids, Listing(pages[1..], itemsRequired))
  }

  /** Index of the page that ends the listing: the first one that aborts or
      carries an empty token; |pages| when there is none. */
  function StopIndex(pages: seq<Page>, itemsRequired: bool): (n: nat)
    ensures n <= |pages|
    ensures forall k :: 0 <= k < n ==> Continues(pages[k], itemsRequired)
    ensures n < |pages| ==> !Continues(pages[n], itemsRequired)
    decreases |pages|
  {
    if pages == [] || !Continues(pages[0], itemsRequired) then 0
    else 1 + StopIndex(pages[1..], itemsRequired)
  }

  /** The page token sent with request number `k`: "" for the first, the
      previous page's token after that. */
  function RequestToken(pages: seq<Page>, k: nat): string
    requires k <= |pages|
  {
    if k == 0 then "" else NextToken(pages[k - 1])
  }

  /** All ids of the given pages, in order (a page without items adds none). */
  function Flatten(pages: seq<Page>): seq<string>
    decreases |pages|
  {
    if pages == [] then []
    else
      var p := pages[|pages| - 1];
      Flatten(pages[..|pages| - 1]) + (if p.items.Some? then p.items.value else [])
  }

  lemma {:induction false} FlattenCons(p: Page, ps: seq<Page>)
    ensures Flatten([p] + ps) == (if p.items.Some? then p.items.value else []) + Flatten(ps)
    decreases |ps|
  {
    if ps != [] {
      assert ([p] + ps)[..|ps|] == [p] + ps[..|ps| - 1];
      FlattenCons(p, ps[..|ps| - 1]);
    }
  }

  /** The result decided by the stopping page: the ids of every page before it
      and its own, in order, when it is a good page (so its token is empty); its
      error when it is a bad one; `Exhausted` when the pages run out first. */
  function Stopped(pages: seq<Page>, itemsRequired: bool): Result<seq<string>, ListError> {
    var n := StopIndex(pages, itemsRequired);
    if n == |pages| then Failure(Exhausted)
    else Prepend(Flatten(pages[..n]), PageIds(pages[n], itemsRequired))
  }

  lemma PrependAppend(a: seq<string>, b: seq<string>, r: Result<seq<string>, ListError>)
    ensures Prepend(a + b, r) == Prepend(a, Prepend(b, r))
  {
    if r.Success? {
      assert (a + b) + r.value == a + (b + r.value);
    }
  }

  lemma StoppedCons(pages: seq<Page>, itemsRequired: bool)
    requires pages != [] && Continues(pages[0], itemsRequired)
    ensures Stopped(pages, itemsRequired) ==
      Prepend(PageIds(pages[0], itemsRequired).value, Stopped(pages[1..], itemsRequired))
  {
    var n := StopIndex(pages, itemsRequired);
    var first := PageIds(pages[0], itemsRequired).value;
    var rest := pages[1..];
    assert StopIndex(rest, itemsRequired) == n - 1;
    assert Flatten(pages[..n]) == first + Flatten(rest[..n - 1]) by {
      assert rest[..n - 1] == pages[1..n];
      assert pages[..n] == [pages[0]] + pages[1..n];
      FlattenCons(pages[0], pages[1..n]);
    }
    if n < |pages| {
      assert rest[n - 1] == pages[n];
      PrependAppend(first, Flatten(rest[..n - 1]), PageIds(pages[n], itemsRequired));
    }
  }

  /** The page-by-page listing equals its closed form. */
  lemma {:induction false} ListingClosedForm(pages: seq<Page>, itemsRequired: bool)
    ensures Listing(pages, itemsRequired) == Stopped(pages, itemsRequired)
    decreases |pages|
  {
    if pages != [] && Continues(pages[0], itemsRequired) {
      ListingClosedForm(pages[1..], itemsRequired);
      StoppedCons(pages, itemsRequired);
    } else if pages != [] {
      assert StopIndex(pages, itemsRequired) == 0 && Flatten(pages[..0]) == [];
      if PageIds(pages[0], itemsRequired).Success? {
        var ids := PageIds(pages[0], itemsRequired).value;
        assert [] + ids == ids;
      }
    }
  }

  /** Pages after the stopping page are never looked at. */
  lemma ListingIgnoresLaterPages(pages: seq<Page>, more: seq<Page>, itemsRequired: bool)
    requires StopIndex(pages, itemsRequired) < |pages|
    ensures Listing(pages + more, itemsRequired) == Listing(pages, itemsRequired)
  {
    var n := StopIndex(pages, itemsRequired);
    assert forall k :: 0 <= k < |pages| ==> (pages + more)[k] == pages[k];
    StopIndexPrefix(pages, more, itemsRequired);
    ListingClosedForm(pages, itemsRequired);
    ListingClosedForm(pages + more, itemsRequired);
    assert (pages + more)[..n] == pages[..n];
  }

  lemma {:induction false} StopIndexPrefix(pages: seq<Page>, more: seq<Page>, itemsRequired: bool)
    requires StopIndex(pages, itemsRequired) < |pages|
    ensures StopIndex(pages + more, itemsRequired) == StopIndex(pages, itemsRequired)
    decreases |pages|
  {
    if Continues(pages[0], itemsRequired) {
      assert (pages + more)[1..] == pages[1..] + more;
      StopIndexPrefix(pages[1..], more, itemsRequired);
    }
  }

  /** A loop that has read `i` pages without stopping, meeting a page that does
      not continue, has met the stopping page. */
  lemma StopsAt(pages: seq<Page>, i: nat, itemsRequired: bool)
    requires i <= StopIndex(pages, itemsRequired) && i < |pages| && !Continues(pages[i], itemsRequired)
    ensures StopIndex(pages, itemsRequired) == i
    ensures Stopped(pages, itemsRequired) == Prepend(Flatten(pages[..i]), PageIds(pages[i], itemsRequired))
  {
  }

  /** The listing ends at page `i` when every earlier page continued and page
      `i` does not: its ids, or its error, after the ids of the earlier pages. */
  lemma ListingEndsAt(pages: seq<Page>, i: nat, itemsRequired: bool)
    requires i <= StopIndex(pages, itemsRequired) && i < |pages| && !Continues(pages[i], itemsRequired)
    ensures StopIndex(pages, itemsRequired) == i
    ensures Listing(pages, itemsRequired) == Prepend(Flatten(pages[..i]), PageIds(pages[i], itemsRequired))
  {
    StopsAt(pages, i, itemsRequired);
    ListingClosedForm(pages, itemsRequired);
  }

  /** When every page continues, the responses run out. */
  lemma ListingExhausted(pages: seq<Page>, itemsRequired: bool)
    requires StopIndex(pages, itemsRequired) == |pages|
    ensures Listing(pages, itemsRequired) == Failure(Exhausted)
  {
    ListingClosedForm(pages, itemsRequired);
  }

  /** Reading one more good page appends its ids. */
  lemma PageAppends(pages: seq<Page>, i: nat, itemsRequired: bool)
    requires i < |pages| && PageIds(pages[i], itemsRequired).Success?
    ensures Flatten(pages[..i + 1]) == Flatten(pages[..i]) + PageIds(pages[i], itemsRequired).value
  {
    assert pages[..i + 1][..i] == pages[..i];
  }
}
