/** `get_home_products`: fetch the first listing page, read the number of pages
    from it, extract its products, then fetch and extract pages 2 to that number
    in ascending order, appending each page's products to one list. The HTTP
    request is a parameter: `fetch(1)` is the request for the bare listing URL and
    `fetch(k)`, for k >= 2, the request with `page=k`. */
module Crawl {
  import opened Wrappers
  import opened Listing

  type Fetcher = nat -> Page

  /** What extracting each page gives, by page number. */
  type Outcomes = nat -> Result<seq<Product>, Error>

  /** `get_single_page_products` applied to the page each request returns. */
  function PageOutcomes(fetch: Fetcher, toFloat: FloatParser): Outcomes {
    (k: nat) => GetSinglePageProducts(fetch(k), toFloat)
  }

  /** The products of pages lo..hi, in ascending page order; the first page that
      fails ends the crawl with its error. */
  function PagesFrom(pages: Outcomes, lo: nat, hi: int): Result<seq<Product>, Error>
    decreases if lo <= hi then hi - lo + 1 else 0
  {
    if hi < lo then Ok([])
    else
      var products :- pages(lo);
      var rest :- PagesFrom(pages, lo + 1, hi);
      Ok(products + rest)
  }

  /** What `get_home_products` returns or raises: the page count is read before
      page 1 is extracted, then pages 2..count follow page 1. */
  function HomeProducts(fetch: Fetcher, toFloat: FloatParser): Result<seq<Product>, Error> {
    var firstPage := fetch(1);
    var numPages :- GetNumPages(firstPage);
    var allProducts :- GetSinglePageProducts(firstPage, toFloat);
    var rest :- PagesFrom(PageOutcomes(fetch, toFloat), 2, numPages);
    Ok(allProducts + rest)
  }

  /** The page numbers lo, lo + 1, ..., hi - 1, in that order. */
  function Range(lo: nat, hi: nat): (r: seq<nat>)
    ensures |r| == if lo <= hi then hi - lo else 0
    decreases hi - lo
  {
    if hi <= lo then [] else [lo] + Range(lo + 1, hi)
  }

  /** `Range` counts up by one from `lo`. */
  lemma {:induction false} RangeIndex(lo: nat, hi: nat)
    ensures forall i :: 0 <= i < |Range(lo, hi)| ==> Range(lo, hi)[i] == lo + i
    decreases hi - lo
  {
    if lo < hi {
      RangeIndex(lo + 1, hi);
      var r := Range(lo, hi);
      forall i | 1 <= i < |r|
        ensures r[i] == lo + i
      {
        assert r[i] == Range(lo + 1, hi)[i - 1];
      }
    }
  }

  /** Counting up one more page appends it. */
  lemma {:induction false} RangeAppend(lo: nat, hi: nat)
    requires lo <= hi
    ensures Range(lo, hi + 1) == Range(lo, hi) + [hi]
    decreases hi - lo
  {
    if lo < hi {
      RangeAppend(lo + 1, hi);
    } else {
      assert Range(hi, hi + 1) == [hi] + Range(hi + 1, hi + 1);
    }
  }

  /** The page after the last one the loop over pages lo..hi requests: it requests
      pages in ascending order and stops after the first whose extraction fails. */
  function StopPage(pages: Outcomes, lo: nat, hi: int): (stop: nat)
    ensures lo <= stop
    decreases if lo <= hi then hi - lo + 1 else 0
  {
    if hi < lo then lo
    else if pages(lo).Err? then lo + 1
    else StopPage(pages, lo + 1, hi)
  }

  /** How many pages `get_home_products` requests: only page 1 (the bare URL) when
      the page count cannot be read or page 1 fails, otherwise page 1 and then
      pages 2, 3, ... up to the page count or the first page that fails. */
  function RequestedCount(fetch: Fetcher, toFloat: FloatParser): nat {
    var firstPage := fetch(1);
    match GetNumPages(firstPage)
    case Err(_) => 1
    case Ok(numPages) =>
      if GetSinglePageProducts(firstPage, toFloat).Err? then 1
      else StopPage(PageOutcomes(fetch, toFloat), 2, numPages) - 1
  }

  /** `xs` in front of a successful result; an error stays as it is. */
  function Prepend(xs: seq<Product>, r: Result<seq<Product>, Error>): Result<seq<Product>, Error> {
    match r
    case Ok(ys) => Ok(xs + ys)
    case Err(e) => Err(e)
  }

  function Max(a: int, b: int): int {
    if a < b then b else a
  }

  /** When pages lo..hi all succeed, the loop requests every one of them; when one
      fails, the last page requested is the first failing one, and its error is the
      result. */
  lemma {:induction false} StopPageOutcome(pages: Outcomes, lo: nat, hi: int)
    ensures PagesFrom(pages, lo, hi).Ok? ==> StopPage(pages, lo, hi) == Max(lo, hi + 1)
    ensures PagesFrom(pages, lo, hi).Err? ==>
              && StopPage(pages, lo, hi) > lo
              && pages(StopPage(pages, lo, hi) - 1) == Err(PagesFrom(pages, lo, hi).error)
    decreases if lo <= hi then hi - lo + 1 else 0
  {
    if lo <= hi && pages(lo).Ok? {
      StopPageOutcome(pages, lo + 1, hi);
    }
  }

  /** Requests go to pages 1, 2, 3, ... in that order, each once. A successful crawl
      requests exactly pages 1..count (just page 1 when the count is below 2); a
      failed one stops at page 1 when the page count could not be read, and
      otherwise at the page whose error it reports. */
  lemma RequestedPagesFacts(fetch: Fetcher, toFloat: FloatParser)
    ensures RequestedCount(fetch, toFloat) >= 1
    ensures HomeProducts(fetch, toFloat).Ok? ==>
              RequestedCount(fetch, toFloat) == Max(1, GetNumPages(fetch(1)).value)
    ensures GetNumPages(fetch(1)).Err? ==>
              RequestedCount(fetch, toFloat) == 1 && HomeProducts(fetch, toFloat) == Err(GetNumPages(fetch(1)).error)
    ensures HomeProducts(fetch, toFloat).Err? && GetNumPages(fetch(1)).Ok? ==>
              GetSinglePageProducts(fetch(RequestedCount(fetch, toFloat)), toFloat) == Err(HomeProducts(fetch, toFloat).error)
  {
    HomeProductsFirstPage(fetch, toFloat);
    var numPages := GetNumPages(fetch(1));
    if numPages.Ok? && GetSinglePageProducts(fetch(1), toFloat).Ok? {
      var pages := PageOutcomes(fetch, toFloat);
      var n := numPages.value;
      StopPageOutcome(pages, 2, n);
      var stop := StopPage(pages, 2, n);
      assert RequestedCount(fetch, toFloat) == stop - 1;
      if PagesFrom(pages, 2, n).Err? {
        assert HomeProducts(fetch, toFloat) == Err(PagesFrom(pages, 2, n).error);
        assert pages(stop - 1) == GetSinglePageProducts(fetch(stop - 1), toFloat);
      }
    }
  }

  /** The crawl up to the page loop: the page count is read first, then page 1 is
      extracted, and what remains is the loop over pages 2..count. */
  lemma HomeProductsFirstPage(fetch: Fetcher, toFloat: FloatParser)
    ensures GetNumPages(fetch(1)).Err? ==>
              && HomeProducts(fetch, toFloat) == Err(GetNumPages(fetch(1)).error)
              && RequestedCount(fetch, toFloat) == 1
    ensures GetNumPages(fetch(1)).Ok? && GetSinglePageProducts(fetch(1), toFloat).Err? ==>
              && HomeProducts(fetch, toFloat) == Err(GetSinglePageProducts(fetch(1), toFloat).error)
              && RequestedCount(fetch, toFloat) == 1
    ensures GetNumPages(fetch(1)).Ok? && GetSinglePageProducts(fetch(1), toFloat).Ok? ==>
              && HomeProducts(fetch, toFloat) ==
                 Prepend(GetSinglePageProducts(fetch(1), toFloat).value,
                         PagesFrom(PageOutcomes(fetch, toFloat), 2, GetNumPages(fetch(1)).value))
              && RequestedCount(fetch, toFloat) + 1 == StopPage(PageOutcomes(fetch, toFloat), 2, GetNumPages(fetch(1)).value)
  {
  }

  /** One step of the page loop: page k is requested, and then either fails, ending
      the crawl with its error, or has its products appended. */
  lemma PagesFromStep(pages: Outcomes, acc: seq<Product>, k: nat, n: int)
    requires k <= n
    ensures pages(k).Err? ==>
              && Prepend(acc, PagesFrom(pages, k, n)) == Err(pages(k).error)
              && StopPage(pages, k, n) == k + 1
    ensures pages(k).Ok? ==>
              && Prepend(acc, PagesFrom(pages, k, n)) == Prepend(acc + pages(k).value, PagesFrom(pages, k + 1, n))
              && StopPage(pages, k, n) == StopPage(pages, k + 1, n)
  {
    var rest := PagesFrom(pages, k + 1, n);
    if pages(k).Ok? && rest.Ok? {
      assert acc + (pages(k).value + rest.value) == acc + pages(k).value + rest.value;
    }
  }

  /** Past the last page the loop has nothing left to add or request. */
  lemma PagesFromDone(pages: Outcomes, acc: seq<Product>, k: nat, n: int)
    requires n < k
    ensures Prepend(acc, PagesFrom(pages, k, n)) == Ok(acc)
    ensures StopPage(pages, k, n) == k
  {
    assert acc + [] == acc;
  }

  /** Pages lo..hi that succeed, followed by a page hi + 1 that succeeds, give the
      products of lo..hi + 1: the list grows by exactly that page's products. */
  lemma {:induction false} PagesFromExtend(pages: Outcomes, lo: nat, hi: int)
    requires lo <= hi + 1
    requires PagesFrom(pages, lo, hi).Ok? && pages(hi + 1).Ok?
    ensures PagesFrom(pages, lo, hi + 1) == Ok(PagesFrom(pages, lo, hi).value + pages(hi + 1).value)
    decreases hi + 1 - lo
  {
    if lo == hi + 1 {
      var p := pages(lo).value;
      assert PagesFrom(pages, lo + 1, hi + 1) == Ok([]);
      assert p + [] == p && [] + p == p;
    } else {
      PagesFromExtend(pages, lo + 1, hi);
      var p := pages(lo).value;
      var rest := PagesFrom(pages, lo + 1, hi).value;
      assert p + (rest + pages(hi + 1).value) == (p + rest) + pages(hi + 1).value;
    }
  }

  lemma AppendAssoc(a: seq<Product>, b: seq<Product>, c: seq<Product>)
    ensures a + b + c == a + (b + c)
  {
  }

  /** `get_home_products`, with the numbers of the pages it requests, in the order
      it requests them: pages 1, 2, ... up to `RequestedCount`. The log is appended
      next to each `fetch` call by the method itself; nothing ties it to the calls
      other than that each request is followed by its entry. */
  method GetHomeProducts(fetch: Fetcher, toFloat: FloatParser) returns (r: Result<seq<Product>, Error>, requested: seq<nat>)
    ensures r == HomeProducts(fetch, toFloat)
    ensures requested == Range(1, RequestedCount(fetch, toFloat) + 1)
  {
    HomeProductsFirstPage(fetch, toFloat);
    requested := [1];
    var firstPage := fetch(1);
    var numPages := GetNumPages(firstPage);
    if numPages.Err? {
      return Err(numPages.error), requested;
    }
    var n := numPages.value;
    var first := GetSinglePageProducts(firstPage, toFloat);
    if first.Err? {
      return Err(first.error), requested;
    }
    var allProducts := first.value;
    var pageNum: nat := 2;
    assert PagesFrom(PageOutcomes(fetch, toFloat), 2, 1) == Ok([]);
    assert allProducts == first.value + [];
    while pageNum <= n
      invariant 2 <= pageNum
      invariant requested == Range(1, pageNum)
      invariant HomeProducts(fetch, toFloat) == Prepend(allProducts, PagesFrom(PageOutcomes(fetch, toFloat), pageNum, n))
      invariant RequestedCount(fetch, toFloat) + 1 == StopPage(PageOutcomes(fetch, toFloat), pageNum, n)
      invariant PagesFrom(PageOutcomes(fetch, toFloat), 2, pageNum - 1).Ok?
      invariant allProducts == first.value + PagesFrom(PageOutcomes(fetch, toFloat), 2, pageNum - 1).value
      decreases n - pageNum
    {
      var page := fetch(pageNum);
      RangeAppend(1, pageNum);
      requested := requested + [pageNum];
      PagesFromStep(PageOutcomes(fetch, toFloat), allProducts, pageNum, n);
      var products := GetSinglePageProducts(page, toFloat);
      if products.Err? {
        return Err(products.error), requested;
      }
      assert PageOutcomes(fetch, toFloat)(pageNum) == products;
      PagesFromExtend(PageOutcomes(fetch, toFloat), 2, pageNum - 1);
      var earlier := PagesFrom(PageOutcomes(fetch, toFloat), 2, pageNum - 1).value;
      AppendAssoc(first.value, earlier, products.value);
      allProducts := allProducts + products.value;
      pageNum := pageNum + 1;
    }
    PagesFromDone(PageOutcomes(fetch, toFloat), allProducts, pageNum, n);
    r := Ok(allProducts);
  }

  /** Without a second page to visit, the result is exactly page 1's products:
      this is the case of a listing with no pagination control. */
  lemma HomeProductsSinglePage(fetch: Fetcher, toFloat: FloatParser)
    requires GetNumPages(fetch(1)).Ok? && GetNumPages(fetch(1)).value <= 1
    ensures HomeProducts(fetch, toFloat) == GetSinglePageProducts(fetch(1), toFloat)
  {
    var first := GetSinglePageProducts(fetch(1), toFloat);
    if first.Ok? {
      assert first.value + [] == first.value;
    }
  }

  /** Only pages lo..hi are consulted: two outcome tables that agree there give the
      same products and the same requests. */
  lemma {:induction false} PagesFromFrame(pages: Outcomes, other: Outcomes, lo: nat, hi: int)
    requires forall k :: lo <= k <= hi ==> pages(k) == other(k)
    ensures PagesFrom(pages, lo, hi) == PagesFrom(other, lo, hi)
    ensures StopPage(pages, lo, hi) == StopPage(other, lo, hi)
    decreases if lo <= hi then hi - lo + 1 else 0
  {
    if lo <= hi {
      PagesFromFrame(pages, other, lo + 1, hi);
    }
  }

  /** The crawl depends on the responses to pages 1..count only: whatever the site
      would serve for any other page number makes no difference. */
  lemma HomeProductsFrame(fetch: Fetcher, other: Fetcher, toFloat: FloatParser)
    requires fetch(1) == other(1)
    requires GetNumPages(fetch(1)).Ok? ==>
               forall k :: 2 <= k <= GetNumPages(fetch(1)).value ==> fetch(k) == other(k)
    ensures HomeProducts(fetch, toFloat) == HomeProducts(other, toFloat)
    ensures RequestedCount(fetch, toFloat) == RequestedCount(other, toFloat)
  {
    var numPages := GetNumPages(fetch(1));
    if numPages.Ok? {
      var pages := PageOutcomes(fetch, toFloat);
      var others := PageOutcomes(other, toFloat);
      forall k | 2 <= k <= numPages.value
        ensures pages(k) == others(k)
      {
        assert fetch(k) == other(k);
      }
      PagesFromFrame(pages, others, 2, numPages.value);
    }
  }

  /** The number of thumbnails on pages lo..hi. */
  function ThumbnailTotal(fetch: Fetcher, lo: nat, hi: int): nat
    decreases if lo <= hi then hi - lo + 1 else 0
  {
    if hi < lo then 0 else |fetch(lo).thumbnails| + ThumbnailTotal(fetch, lo + 1, hi)
  }

  /** A successful loop over pages lo..hi yields one product per thumbnail. */
  lemma {:induction false} PagesFromCount(fetch: Fetcher, toFloat: FloatParser, lo: nat, hi: int)
    ensures PagesFrom(PageOutcomes(fetch, toFloat), lo, hi).Ok? ==>
              |PagesFrom(PageOutcomes(fetch, toFloat), lo, hi).value| == ThumbnailTotal(fetch, lo, hi)
    decreases if lo <= hi then hi - lo + 1 else 0
  {
    if lo <= hi {
      PagesFromCount(fetch, toFloat, lo + 1, hi);
      var pages := PageOutcomes(fetch, toFloat);
      assert pages(lo) == GetSinglePageProducts(fetch(lo), toFloat);
    }
  }

  /** A successful crawl yields one product per thumbnail on pages 1..count. */
  lemma HomeProductsCount(fetch: Fetcher, toFloat: FloatParser)
    ensures HomeProducts(fetch, toFloat).Ok? ==>
              |HomeProducts(fetch, toFloat).value| ==
              |fetch(1).thumbnails| + ThumbnailTotal(fetch, 2, GetNumPages(fetch(1)).value)
  {
    if HomeProducts(fetch, toFloat).Ok? {
      PagesFromCount(fetch, toFloat, 2, GetNumPages(fetch(1)).value);
    }
  }
}
