/** The pure part of `parse.py`: one listing page as plain data, the extraction of
    a `Product` from a `.thumbnail` node, of all products of a page, and of the
    number of pages from the `.pagination` control. */
module Listing {
  import opened Wrappers
  import opened PyText
  import opened PyInt

  /** The five values `select_one` finds inside one `.thumbnail` node, each `None`
      when its selector matches nothing. */
  datatype Thumbnail = Thumbnail(
    title: Option<string>,        // the "title" attribute of `a.title`
    description: Option<string>,  // the text of `.description`
    price: Option<string>,        // the text of `.price`
    rating: Option<string>,       // the "data-rating" attribute of `p[data-rating]`
    reviewCount: Option<string>)  // the text of `div.ratings > .review-count`

  /** A parsed listing page: the texts of the `li` entries of its `.pagination`
      node (`None` when the page has none) and its `.thumbnail` nodes in document order. */
  datatype Page = Page(pagination: Option<seq<string>>, thumbnails: seq<Thumbnail>)

  /** The `Product` dataclass. */
  datatype Product = Product(title: string, description: string, price: real, rating: int, numOfReviews: int)

  datatype Field = Title | Description | Price | Rating | NumOfReviews

  /** The exceptions the extraction can raise. */
  datatype Error =
    | MissingField(field: Field)           // subscripting or reading `.text` of a `None` node
    | NotAnInteger(text: string)           // `int()` raises ValueError
    | NotAFloat(text: string)              // `float()` raises ValueError
    | NoReviewCount(text: string)          // `split()[0]` on a blank text raises IndexError
    | TooFewPaginationEntries(count: nat)  // `select("li")[-2]` raises IndexError

  /** `float()` on a `str`: `None` where Python raises ValueError. */
  type FloatParser = string -> Option<real>

  /** The text a selector found, or `MissingField` when it found nothing. */
  function Present(o: Option<string>, f: Field): Result<string, Error> {
    match o
    case Some(v) => Ok(v)
    case None => Err(MissingField(f))
  }

  /** `int(text)`, its ValueError reported with the rejected text. */
  function IntOf(text: string): Result<int, Error> {
    match ParseInt(text)
    case Some(n) => Ok(n)
    case None => Err(NotAnInteger(text))
  }

  function FloatOf(toFloat: FloatParser, text: string): Result<real, Error> {
    match toFloat(text)
    case Some(x) => Ok(x)
    case None => Err(NotAFloat(text))
  }

  /** The price text as handed to `float()`: every `$` removed, wherever it stands. */
  function PriceText(text: string): string {
    DeleteAll(text, '$')
  }

  /** `int(text.split()[0])`: only the first whitespace-delimited word is read. */
  function ReviewCount(text: string): (r: Result<int, Error>)
    ensures AllSpace(text) ==> r == Err(NoReviewCount(text))
  {
    var words := Split(text);
    if words == [] then Err(NoReviewCount(text)) else IntOf(words[0])
  }

  /** All five selectors of the thumbnail found something. */
  predicate Complete(t: Thumbnail) {
    t.title.Some? && t.description.Some? && t.price.Some? && t.rating.Some? && t.reviewCount.Some?
  }

  /** `parse_single_product`: the fields in declaration order, the first one that is
      missing or does not convert raising its exception. No field has a default, and
      title and description are copied unchanged. */
  function ParseSingleProduct(t: Thumbnail, toFloat: FloatParser): (r: Result<Product, Error>)
    ensures r.Ok? ==> Complete(t)
    ensures r.Ok? ==> r.value.title == t.title.value && r.value.description == t.description.value
    ensures t.title.None? ==> r == Err(MissingField(Title))
  {
    var title :- Present(t.title, Title);
    var description :- Present(t.description, Description);
    var priceText :- Present(t.price, Price);
    var price :- FloatOf(toFloat, PriceText(priceText));
    var ratingText :- Present(t.rating, Rating);
    var rating :- IntOf(ratingText);
    var reviewText :- Present(t.reviewCount, NumOfReviews);
    var numOfReviews :- ReviewCount(reviewText);
    Ok(Product(title, description, price, rating, numOfReviews))
  }

  /** A thumbnail yields a product exactly when all five fields are present and
      convert; the price is `float()` of the `$`-free price text, the rating `int()`
      of the attribute, the review count the integer that starts its text. */
  lemma ParseSingleProductFields(t: Thumbnail, toFloat: FloatParser)
    ensures ParseSingleProduct(t, toFloat).Ok? <==>
      && Complete(t)
      && toFloat(PriceText(t.price.value)).Some?
      && ParseInt(t.rating.value).Some?
      && ReviewCount(t.reviewCount.value).Ok?
    ensures ParseSingleProduct(t, toFloat).Ok? ==>
      var p := ParseSingleProduct(t, toFloat).value;
      && toFloat(PriceText(t.price.value)) == Some(p.price)
      && ParseInt(t.rating.value) == Some(p.rating)
      && ReviewCount(t.reviewCount.value) == Ok(p.numOfReviews)
  {
  }

  /** The products of a sequence of thumbnails, in the same order; the first
      thumbnail that fails makes the whole extraction fail. */
  function ExtractAll(ts: seq<Thumbnail>, toFloat: FloatParser): (r: Result<seq<Product>, Error>)
    ensures r.Ok? ==> |r.value| == |ts|
    decreases |ts|
  {
    if ts == [] then Ok([])
    else
      var p :- ParseSingleProduct(ts[0], toFloat);
      var rest :- ExtractAll(ts[1..], toFloat);
      Ok([p] + rest)
  }

  /** Extraction succeeds exactly when every thumbnail yields a product, and then
      the i-th product is the one of the i-th thumbnail. */
  lemma {:induction false} ExtractAllProducts(ts: seq<Thumbnail>, toFloat: FloatParser)
    ensures ExtractAll(ts, toFloat).Ok? <==> forall i :: 0 <= i < |ts| ==> ParseSingleProduct(ts[i], toFloat).Ok?
    ensures ExtractAll(ts, toFloat).Ok? ==>
              forall i :: 0 <= i < |ts| ==> ParseSingleProduct(ts[i], toFloat) == Ok(ExtractAll(ts, toFloat).value[i])
    decreases |ts|
  {
    if ts != [] {
      ExtractAllProducts(ts[1..], toFloat);
      assert forall i :: 1 <= i < |ts| ==> ts[i] == ts[1..][i - 1];
    }
  }

  /** A failed extraction reports the error of the first thumbnail that fails:
      the thumbnails before it were extracted, the ones after it are never looked at. */
  lemma {:induction false} ExtractAllFirstError(ts: seq<Thumbnail>, toFloat: FloatParser)
    requires ExtractAll(ts, toFloat).Err?
    ensures exists i :: 0 <= i < |ts| && ParseSingleProduct(ts[i], toFloat) == Err(ExtractAll(ts, toFloat).error)
                        && forall j :: 0 <= j < i ==> ParseSingleProduct(ts[j], toFloat).Ok?
    decreases |ts|
  {
    if ParseSingleProduct(ts[0], toFloat).Err? {
      assert ParseSingleProduct(ts[0], toFloat) == Err(ExtractAll(ts, toFloat).error);
    } else {
      ExtractAllFirstError(ts[1..], toFloat);
      var i :| 0 <= i < |ts[1..]| && ParseSingleProduct(ts[1..][i], toFloat) == Err(ExtractAll(ts[1..], toFloat).error)
                && forall j :: 0 <= j < i ==> ParseSingleProduct(ts[1..][j], toFloat).Ok?;
      assert forall j :: 1 <= j < i + 1 ==> ts[j] == ts[1..][j - 1];
      assert ParseSingleProduct(ts[i + 1], toFloat) == Err(ExtractAll(ts, toFloat).error);
    }
  }

  /** `get_single_page_products`: one product per thumbnail, in document order. */
  function GetSinglePageProducts(page: Page, toFloat: FloatParser): (r: Result<seq<Product>, Error>)
    ensures r.Ok? ==> |r.value| == |page.thumbnails|
  {
    ExtractAll(page.thumbnails, toFloat)
  }

  /** There is no default for a missing field, so a page yields products only when
      every thumbnail is complete, and each product carries its thumbnail's title
      and description; one incomplete thumbnail fails the page. */
  lemma SinglePageProducts(page: Page, toFloat: FloatParser)
    ensures GetSinglePageProducts(page, toFloat).Ok? ==> forall i :: 0 <= i < |page.thumbnails| ==>
              && Complete(page.thumbnails[i])
              && GetSinglePageProducts(page, toFloat).value[i].title == page.thumbnails[i].title.value
              && GetSinglePageProducts(page, toFloat).value[i].description == page.thumbnails[i].description.value
    ensures (exists i :: 0 <= i < |page.thumbnails| && !Complete(page.thumbnails[i])) ==>
              GetSinglePageProducts(page, toFloat).Err?
  {
    ExtractAllProducts(page.thumbnails, toFloat);
  }

  /** `get_num_pages`: 1 without a pagination control, otherwise the integer read
      from the second-to-last entry (the last one is the "next" control). */
  function GetNumPages(page: Page): (r: Result<int, Error>)
    ensures page.pagination.None? ==> r == Ok(1)
    ensures page.pagination.Some? && |page.pagination.value| < 2 ==>
              r == Err(TooFewPaginationEntries(|page.pagination.value|))
  {
    match page.pagination
    case None => Ok(1)
    case Some(entries) =>
      if |entries| < 2 then Err(TooFewPaginationEntries(|entries|))
      else IntOf(entries[|entries| - 2])
  }

  /** With two or more entries the page count is `int()` of the second-to-last one,
      and a text `int()` rejects is reported as that text. */
  lemma NumPagesFromEntry(page: Page)
    requires page.pagination.Some? && |page.pagination.value| >= 2
    ensures var entry := page.pagination.value[|page.pagination.value| - 2];
            && (GetNumPages(page).Ok? <==> ParseInt(entry).Some?)
            && (GetNumPages(page).Ok? ==> ParseInt(entry) == Some(GetNumPages(page).value))
            && (GetNumPages(page).Err? ==> GetNumPages(page).error == NotAnInteger(entry))
  {
  }

  /** Only the first word of the review-count text is read: the result is `int()`
      of that word, whatever whitespace precedes it and whatever follows it. */
  lemma ReviewCountFirstToken(w: string, tok: string, rest: string)
    requires AllSpace(w) && tok != [] && NoSpace(tok)
    requires rest == [] || IsSpace(rest[0])
    ensures ReviewCount(w + tok + rest) == IntOf(tok)
  {
    SplitFirst(w, tok, rest);
  }

  /** The review count is the integer that starts the text, whatever unit word follows. */
  lemma ReviewCountFirstWord(w: string, n: int, rest: string)
    requires AllSpace(w) && (rest == [] || IsSpace(rest[0]))
    ensures ReviewCount(w + ShowInt(n) + rest) == Ok(n)
  {
    ReviewCountFirstToken(w, ShowInt(n), rest);
    ParseIntShow(n);
  }

  /** A first word that is not a number fails the extraction with that word, even
      when a number follows it: "N/A 12" raises, and the 12 is never read. */
  lemma ReviewCountNotANumber()
    ensures ReviewCount("N/A 12") == Err(NotAnInteger("N/A"))
  {
    assert "N/A 12" == [] + "N/A" + " 12";
    ReviewCountFirstToken([], "N/A", " 12");
    assert ParseInt("N/A") == None by {
      TrimPadded([], "N/A", []);
      assert [] + "N/A" + [] == "N/A";
    }
  }

  /** "12 reviews" gives 12. */
  lemma ReviewCountTwelve()
    ensures ReviewCount("12 reviews") == Ok(12)
  {
    assert ShowInt(12) == "12" by {
      assert ShowNat(1) == "1";
    }
    ReviewCountFirstWord("", 12, " reviews");
    assert "" + "12" + " reviews" == "12 reviews";
  }

  /** Every `$` goes, not only a leading one: `$` between two parts disappears and
      the parts are kept in order. */
  lemma PriceTextDropsEveryDollar(a: string, b: string)
    ensures PriceText(a + "$" + b) == PriceText(a) + PriceText(b)
  {
    DeleteAllAppend(a + "$", b, '$');
    DeleteAllAppend(a, "$", '$');
    assert "$"[1..] == [];
    assert DeleteAll("$", '$') == [];
    assert DeleteAll(a + "$", '$') == DeleteAll(a, '$');
  }

  /** A price shown as "$" followed by a `$`-free amount reaches `float()` as the amount. */
  lemma PriceTextOfAmount(amount: string)
    requires '$' !in amount
    ensures PriceText("$" + amount) == amount
  {
    PriceTextDropsEveryDollar([], amount);
    assert [] + "$" + amount == "$" + amount;
    DeleteAllUnchanged([], '$');
    DeleteAllUnchanged(amount, '$');
  }

  /** A thumbnail as the site renders a product. */
  function Render(title: string, description: string, amount: string, rating: int, reviews: int): Thumbnail {
    Thumbnail(Some(title), Some(description), Some("$" + amount), Some(ShowInt(rating)),
              Some(ShowInt(reviews) + " reviews"))
  }

  /** A complete thumbnail whose three conversions succeed yields the product made
      of its title, its description and the three converted values. */
  lemma ParseComplete(t: Thumbnail, toFloat: FloatParser, price: real, rating: int, reviews: int)
    requires Complete(t)
    requires toFloat(PriceText(t.price.value)) == Some(price)
    requires ParseInt(t.rating.value) == Some(rating)
    requires ReviewCount(t.reviewCount.value) == Ok(reviews)
    ensures ParseSingleProduct(t, toFloat) == Ok(Product(t.title.value, t.description.value, price, rating, reviews))
  {
  }

  /** Extraction reads back what the page renders: the title and description
      unchanged, the amount after the `$`, the rating and the review count. */
  lemma ParseRendered(title: string, description: string, amount: string, rating: int, reviews: int,
                      toFloat: FloatParser)
    requires '$' !in amount && toFloat(amount).Some?
    ensures ParseSingleProduct(Render(title, description, amount, rating, reviews), toFloat)
            == Ok(Product(title, description, toFloat(amount).value, rating, reviews))
  {
    var t := Render(title, description, amount, rating, reviews);
    PriceTextOfAmount(amount);
    ParseIntShow(rating);
    var reviewText := ShowInt(reviews) + " reviews";
    assert [] + ShowInt(reviews) + " reviews" == reviewText;
    ReviewCountFirstWord([], reviews, " reviews");
    assert t.price.value == "$" + amount && t.rating.value == ShowInt(rating) && t.reviewCount.value == reviewText;
    ParseComplete(t, toFloat, toFloat(amount).value, rating, reviews);
  }

  /** The page count is read from the second-to-last entry, padded with any
      whitespace; the last entry (the "next" control) is never read. */
  lemma NumPagesSecondToLast(labels: seq<string>, w1: string, n: int, w2: string, next: string,
                             thumbnails: seq<Thumbnail>)
    requires AllIntSpace(w1) && AllIntSpace(w2)
    ensures GetNumPages(Page(Some(labels + [w1 + ShowInt(n) + w2, next]), thumbnails)) == Ok(n)
  {
    var entries := labels + [w1 + ShowInt(n) + w2, next];
    assert entries[|entries| - 2] == w1 + ShowInt(n) + w2;
    ParseIntPadded(w1, n, w2);
  }

  /** Entries "1", "2", "3", "→" give 3 pages. */
  lemma NumPagesThreeAndNext(thumbnails: seq<Thumbnail>)
    ensures GetNumPages(Page(Some(["1", "2", "3", "→"]), thumbnails)) == Ok(3)
  {
    NumPagesSecondToLast(["1", "2"], "", 3, "", "→", thumbnails);
    assert ShowInt(3) == "3";
    assert "" + "3" + "" == "3";
    assert ["1", "2"] + ["3", "→"] == ["1", "2", "3", "→"];
  }
}
