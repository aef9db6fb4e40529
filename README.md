# Product scraper for the webscraper.io e-commerce test site

`parse.py` crawls the "all in one" listing of the webscraper.io test shop.
It requests the first listing page and reads the number of pages from the
pagination control. It extracts one product per thumbnail on that page, then
requests pages 2 up to that number in ascending order and appends their
products. Each product carries a title, a description, a price, a rating and a
number of reviews, all read from the thumbnail's markup.

This project models that crawl and the extraction in Dafny:

- `wrappers.dfy`: `Option` and `Result`.
- `pytext.dfy` (module `PyText`): Python's whitespace (`str.isspace`) and the
  two `str` methods the scraper calls, `split()` with no separator and
  `replace(c, "")`. `" ".join` is defined only as the reference that `split()`
  inverts.
- `pyint.dfy` (module `PyInt`): `int()` applied to a string, including the
  whitespace it skips around the literal. That whitespace is not the same as
  `str.isspace`: `int()` rejects the information separators U+001C..U+001F.
  The decimal rendering `str()` is defined only as the reference that `int()`
  inverts.
- `listing.dfy` (module `Listing`): a parsed page and its thumbnails as
  values, plus the three extraction functions `parse_single_product`,
  `get_num_pages` and `get_single_page_products`.
- `crawl.dfy` (module `Crawl`): `get_home_products`. It has two parts:
  - a specification function `HomeProducts`;
  - a method `GetHomeProducts` that runs the page loop and also reports the
    page numbers it requests.

A parsed page is the answer each CSS selector would give:

- whether there is a pagination control, and if so the texts of its `li`
  entries;
- for every `.thumbnail`, the five texts the extraction reads, each present or
  missing.

An exception in the source becomes an `Err` carrying an `Error`. The first
error raised is the one reported, because Python evaluates the `Product(...)`
keyword arguments from left to right and the model follows the same order.

Two details of the extraction:

- **Currency symbol.** The price text loses every `$`, not only a leading one,
  because it goes through `replace("$", "")` (`PriceTextDropsEveryDollar`).
- **Review count sign.** The review count is whatever integer `int()` reads from
  the first word, negative values included (`ReviewCountFirstWord` holds for
  every integer).

## Model

| member | source | states |
|---|---|---|
| PyInt.Trim | parse.py:46 | the text `int()` reads after skipping surrounding whitespace is empty exactly when the text is all such whitespace; otherwise it starts and ends with a character `int()` does not skip |
| PyInt.TrimPadded | parse.py:46 | any whitespace `int()` skips around a text bounded by non-skipped characters is exactly what is removed |
| PyText.Split | parse.py:47-49 | `split()` finds no word exactly when the text is all whitespace; every word it returns is non-empty and free of whitespace |
| PyText.SplitSpaces | parse.py:47-49 | leading whitespace does not change the words of `split()` |
| PyText.SplitFirst | parse.py:47-49 | the first word of `split()` is the whitespace-free run after any leading whitespace, up to the next whitespace character |
| PyText.SplitJoin | parse.py:47-49 | `split()` undoes `" ".join` on non-empty whitespace-free words (round trip) |
| PyText.DeleteAll | parse.py:45 | `replace(c, "")` leaves no `c` and never lengthens the text |
| PyText.DeleteAllCounts | parse.py:45 | deletion removes exactly the occurrences of `c`: every other character keeps its count, and the length drops by the number of `c`s |
| PyText.DeleteAllAppend | parse.py:45 | deletion works piecewise over concatenation, so the order of the kept characters is preserved |
| PyText.DeleteAllUnchanged | parse.py:45 | deletion leaves the text unchanged exactly when `c` does not occur in it |
| PyInt.ParseInt | parse.py:46 | `int()` rejects blank text; an accepted text is, after the skipped whitespace, an optional sign followed by digits, and a negative value needs a `-` |
| PyInt.DigitsValueShowNat | parse.py:46 | reading back the digits of a natural number gives the number |
| PyInt.ParseIntShow | parse.py:46 | `int(str(n)) == n` for every integer (round trip) |
| PyInt.ParseIntOfShown | parse.py:46 | any text that is `str(n)` after the whitespace `int()` skips reads as `n` |
| PyInt.ParseIntPadded | parse.py:46 | `int()` accepts `str(n)` with any whitespace it skips around it |
| PyInt.ParseIntLiteral | parse.py:46 | `int()` accepts every optionally signed digit string (leading zeros and `+` included) with skipped whitespace around it, and reads the digits' value with the sign applied |
| PyInt.ParseIntAccepted | parse.py:46 | every text `int()` accepts is, after the skipped whitespace, an optional sign followed by a non-empty digit string, and its value is the digits' value with the sign applied (with ParseIntLiteral: accepted exactly the signed digit strings) |
| PyInt.ParseIntRejectsSeparator | parse.py:46 | an information separator U+001C..U+001F in front of a number makes `int()` fail, although `str.isspace()` holds for it |
| Listing.ReviewCount | parse.py:47-49 | a blank review-count text raises (no first word) |
| Listing.ReviewCountFirstToken | parse.py:47-49 | only the first word of the review-count text is read: the result is `int()` of that word, whatever whitespace precedes it and whatever follows it |
| Listing.ReviewCountFirstWord | parse.py:47-49 | when the first word is `str(n)`, the review count is `n`, whatever whitespace precedes it and whatever follows the next whitespace |
| Listing.ReviewCountTwelve | parse.py:47-49 | "12 reviews" gives 12 |
| Listing.ReviewCountNotANumber | parse.py:47-49 | "N/A 12" fails with `NotAnInteger("N/A")`: a number after a non-numeric first word is never read |
| Listing.PriceTextDropsEveryDollar | parse.py:45 | every `$` is removed, not only a leading one, and the parts around it stay in order |
| Listing.PriceTextOfAmount | parse.py:45 | a price rendered as `$` followed by a `$`-free amount reaches `float()` as that amount |
| Listing.ParseSingleProduct | parse.py:41-50 | a product exists only for a thumbnail with all five fields; title and description are copied unchanged; a missing title fails with that field first |
| Listing.ParseSingleProductFields | parse.py:41-50 | a product exists exactly when all five fields are present and all three conversions succeed; its price, rating and review count are those conversions |
| Listing.ParseComplete | parse.py:41-50 | a complete thumbnail whose three conversions succeed yields the product built from exactly those values |
| Listing.ParseRendered | parse.py:41-50 | extraction reads back what the page renders: title, description, amount after `$`, rating and review count (round trip) |
| Listing.ExtractAll | parse.py:65 | a successful extraction has one product per thumbnail |
| Listing.ExtractAllProducts | parse.py:65 | extraction succeeds exactly when every thumbnail yields a product, and then the i-th product is that of the i-th thumbnail |
| Listing.ExtractAllFirstError | parse.py:65 | a failed extraction reports the error of the first failing thumbnail; all thumbnails before it succeed |
| Listing.GetSinglePageProducts | parse.py:62-65 | a page's products are as many as its thumbnails |
| Listing.SinglePageProducts | parse.py:62-65 | on success every thumbnail is complete and each product carries its thumbnail's title and description; one incomplete thumbnail fails the page |
| Listing.GetNumPages | parse.py:53-59 | no pagination control gives 1 page; a control with fewer than two entries raises (index -2 out of range) |
| Listing.NumPagesFromEntry | parse.py:59 | with two or more entries the count is `int()` of the second-to-last entry, and a rejected entry is reported as that entry |
| Listing.NumPagesSecondToLast | parse.py:59 | the count is read from the second-to-last entry with any whitespace `int()` skips around it; the last entry is never read |
| Listing.NumPagesThreeAndNext | parse.py:59 | entries "1", "2", "3", "→" give 3 pages |
| Crawl.Range | parse.py:79 | `range(lo, hi)` has `hi - lo` elements when `lo <= hi` and none otherwise |
| Crawl.RangeIndex | parse.py:79 | `range(lo, hi)` counts up by one from `lo` |
| Crawl.RangeAppend | parse.py:79 | extending `range(lo, hi)` by one appends `hi` |
| Crawl.StopPageOutcome | parse.py:79-83 | when pages lo..hi all succeed the loop requests each of them; when one fails, the last page requested is the first failing one and its error is the result |
| Crawl.RequestedPagesFacts | parse.py:68-85 | the crawl requests page 1 and possibly more; on success it requests exactly `max(1, count)` pages; an unreadable count stops it after page 1 with that error; otherwise a failure is the error of the last page requested |
| Crawl.HomeProductsFirstPage | parse.py:70-76 | the page count is read before page 1's products, and both come before the page loop |
| Crawl.PagesFromStep | parse.py:79-83 | one loop step either ends the crawl with the page's error or appends the page's products and moves to the next page |
| Crawl.PagesFromDone | parse.py:79-83 | past the last page the loop adds and requests nothing |
| Crawl.PagesFromExtend | parse.py:83 | extending the loop by one successful page appends exactly that page's products |
| Crawl.GetHomeProducts | parse.py:68-85 | the loop returns exactly `HomeProducts`, and requests pages 1, 2, ..., `RequestedCount` in that order, each once; its loop invariant keeps the list equal to page 1's products followed by those of pages 2..the last page read |
| Crawl.HomeProductsSinglePage | parse.py:74-79 | with a page count below 2, the result is exactly page 1's products |
| Crawl.PagesFromFrame | parse.py:79-83 | the loop over pages lo..hi consults only those pages |
| Crawl.HomeProductsFrame | parse.py:68-85 | the result and the requests depend only on the responses for pages 1..count |
| Crawl.PagesFromCount | parse.py:79-83 | a successful loop over pages lo..hi yields one product per thumbnail on those pages |
| Crawl.HomeProductsCount | parse.py:68-85 | a successful crawl yields one product per thumbnail on pages 1..count |

## Left out

- HTTP requests (`requests.get`) are a parameter `fetch: nat -> Page`. `fetch(1)`
  stands for the request to the bare listing URL. `fetch(k)` for k >= 2 stands for
  the request with `page=k`. Network and HTTP errors are not modelled.
- HTML parsing (BeautifulSoup) and CSS selection are not modelled. A page is
  already reduced to the texts the selectors would return. A missing node or a
  missing attribute is a `None` field, and it raises `MissingField`.
- `float()` is a parameter `toFloat: string -> Option<real>`. The model proves
  which text is handed to it, but not how Python parses it. IEEE binary64
  rounding is not modelled. A `real` cannot hold the `inf` and `nan` values
  that `float()` returns for texts such as "inf" and "nan", so those results
  are outside the model.
- PyInt.ParseInt: does not model `int()` accepting `_` digit separators or
  non-ASCII decimal digits. Both are absent from the site's markup.
- PyInt.ParseInt: does not model the limit on the length of a decimal literal.
  Python 3.11 and later, and the 3.9.14 and 3.10.7 security releases, raise
  ValueError on a literal longer than `sys.get_int_max_str_digits()`, which is
  4300 digits by default. `str(n)` raises for such an `n` too. The model
  accepts literals of any length, so `ParseIntShow`, `ParseIntLiteral`,
  `ParseIntPadded` and `ParseIntOfShown` also hold beyond that limit, where
  Python raises.
- Python's exception types are merged into one `Error` datatype. For example,
  `TypeError` and `KeyError` on a missing title are both `MissingField(Title)`.
- Logging (`logging.info`) and the log configuration are side effects with no
  effect on the result, so they are not modelled.
- CSV output (`write_products_to_csv`, `PRODUCT_FIELDS`, `astuple`) and `main`
  are not modelled. They only write the result to disk.
- Resolving per-variant prices by activating each option is not part of
  `parse.py`, so it is not modelled.
- Crawl.GetHomeProducts: the log of requested pages is appended by the method
  beside each `fetch` call. The model has no record of the calls themselves, so
  the ordering claim rests on that pairing.
- Python's in-place `list.extend` on `all_products` is modelled as sequence
  concatenation. No other code holds a reference to that list, so aliasing is
  not a concern.
