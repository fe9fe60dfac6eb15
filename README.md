# Recipe scraper model

A Dafny model of the core of `scrape.py`, a scraper for the Bulgarian recipe
site receptite.com. For each recipe category, the scraper:

- reads how many listing pages the category has;
- walks those pages in order and collects the recipe links on each;
- scrapes every recipe into a record of nine fields: title, rating,
  complexity, products, description, image, times cooked, favourites and
  category;
- appends each record to a dictionary of nine parallel columns, one list per
  field.

A recipe whose required fields cannot be extracted is skipped. The optional
fields fall back to fixed defaults.

The model has six modules:

- `Wrappers`: `Option`.
- `Text`: the Python string built-ins the scraper depends on:
  - `str.strip()`, with Python's whitespace set;
  - `int()` of a string, with sign, padding and digit-group underscores. The
    padding `int()` skips is not the padding `strip()` removes. `int()` copies
    ASCII characters unchanged, turns other whitespace into spaces and then skips
    C's `isspace()` set. So it skips all of `strip()`'s whitespace except
    U+001C..U+001F, in any string;
  - `str()` of a natural number;
  - the first match of `(\d+)`;
  - `str.replace(c, '')`.
- `Extract`: the field extractors and `scrape_recipe`. A parsed page is
  represented by what its XPath queries and its category regular expression
  return.
- `Dataset`: `append_scraped_data`, written as a class. Its dictionary of
  columns is changed in place, key by key, in insertion order.
- `Pagination`: `get_n_pages`, main's fallback to one page, and the page URLs.
- `Crawl`: the `scrape_url` loop, main's page loop for one category, and the
  loop over all categories. These are proved against specification functions
  (`Scraped`, `CategoryScraped`, `AllScraped`) that give the recipes scraped,
  in order. The last two equal `Scraped` over every recipe link of the pages
  crawled (`PageLinks`, `AllLinks`), in category and page order.

Where the code and its documentation disagree, the model follows the code:

- The title is required to be present, but it may be empty. The code strips it
  and never checks that it is non-empty.
- The products list cannot fail: an empty list is a valid value.
- The page count is read from the last page anchor in document order. A last
  anchor numbered 0 gives zero pages.
- The image can be Python's `None`. This happens when the photo element exists
  but has no `src` attribute, because `.get('src')` returns `None` rather than
  raising.
- The complexity fails when the icon has no `src`, because `re.findall` on
  `None` raises.

## Model

| member | source | states |
|---|---|---|
| Text.StripLeading | scrape.py:119 | str.strip()'s left half drops exactly the leading whitespace: the result is a suffix of the input, and what was removed is all whitespace |
| Text.StripTrailing | scrape.py:119 | the right half drops exactly the trailing whitespace: the result is a prefix of the input, and what was removed is all whitespace |
| Text.Strip | scrape.py:119 | the stripped text neither starts nor ends with whitespace |
| Text.StripLeadingSpaces | scrape.py:119 | whitespace in front of a text that starts with a non-space is removed exactly |
| Text.StripTrailingSpaces | scrape.py:119 | whitespace after a text that ends with a non-space is removed exactly |
| Text.StripPadded | scrape.py:141 | stripping a core that has non-space ends from any whitespace padding gives back the core |
| Text.StripIdempotent | scrape.py:119 | stripping twice is stripping once |
| Text.RemoveChar | scrape.py:176 | replace('/', '') leaves no '/' and keeps every other character, with its multiplicity |
| Text.RemoveCharAppend | scrape.py:176 | removing a character distributes over concatenation |
| Text.RemoveCharAbsent | scrape.py:176 | removing a character that does not occur changes nothing |
| Text.DecimalString | scrape.py:50 | str(n) is a non-empty string of digits with no leading zero whose value is n |
| Text.TakeDigits | scrape.py:130 | the longest prefix made of digits: after it comes the end or a non-digit |
| Text.FirstDigitRun | scrape.py:130 | the first match of (\d+) exists iff the text has a digit, and is a non-empty run of digits |
| Text.TakeDigitsRun | scrape.py:130 | a run of digits followed by a non-digit is matched whole, because the match is greedy |
| Text.FirstDigitRunAfter | scrape.py:130 | after a digit-free prefix, the first digit run is the numeral that follows |
| Text.DigitsOnceUnderscoresGone | scrape.py:125 | an integer body that int() accepts is all digits once its underscores are removed |
| Text.ParseSignedDecimal | scrape.py:125 | int() reads back a numeral str() wrote, with or without a minus sign |
| Text.ParseIntPadded | scrape.py:157 | int() ignores padding made of whitespace it skips (all of strip()'s except U+001C..U+001F) around the numeral |
| Text.ParseIntDecimal | scrape.py:157 | int() of a numeral padded with whitespace it skips, with or without a minus sign, is the numeral's value |
| Text.ParseIntOfDecimal | scrape.py:85 | int(str(n)) == n |
| Text.ParseSignedDigits | scrape.py:85 | int() of a bare run of digits is the run's value, leading zeros included |
| Text.ParseIntDigitRun | scrape.py:85 | int() of a `\d+` capture is the capture's value, leading zeros included |
| Text.ParseSignedUnderscores | scrape.py:157 | underscores between digit groups do not change the value int() gives |
| Text.ParseSignedSign | scrape.py:157 | a '+' in front of an integer body keeps its value and a '-' negates it; before anything else, such as a second sign, int() raises |
| Text.ParseIntNeedsDigit | scrape.py:157 | int() raises on any text without a digit |
| Text.ParseSigned | scrape.py:157 | int() of a stripped string succeeds exactly on an integer literal: an optional sign, then digits with single underscores between them |
| Text.ParseInt | scrape.py:157 | int() succeeds exactly when every character strip() removes is whitespace int() skips and what remains is an integer literal |
| Text.ParseIntRejectsStray | scrape.py:157 | int() raises on text holding any character other than a digit or an underscore after stripping, except a leading sign ("12 pcs", "1,5", "3.0") |
| Text.ParseIntUnskippedLeading | scrape.py:157 | leading whitespace int() does not skip makes int() raise, although strip() removes it |
| Text.ParseIntUnskippedTrailing | scrape.py:157 | trailing whitespace int() does not skip makes int() raise, although strip() removes it |
| Text.ParseIntControlLeading | scrape.py:157 | int() raises on a numeral preceded by U+001C..U+001F, whatever whitespace follows it |
| Text.ParseIntControlTrailing | scrape.py:157 | int() raises on a numeral followed by U+001C..U+001F, whatever whitespace precedes it |
| Extract.Attribute | scrape.py:148 | element.get(name) is present iff the element has that attribute |
| Extract.BlockText | scrape.py:118-120 | the title or description exists iff its block matched; it is the block's text stripped of whitespace, so it has none at its ends |
| Extract.GetRating | scrape.py:123-125 | a rating exists iff the icon exists and has a title attribute that int() accepts |
| Extract.RatingFromTitle | scrape.py:123-125 | an icon titled with a numeral gives that rating |
| Extract.RatingNotAnInteger | scrape.py:123-125 | a title holding a character int() rejects, such as "5 от 6", makes the rating fail |
| Extract.RatingControlPadded | scrape.py:123-125 | a title whose numeral is followed by U+001C..U+001F makes the rating, a required field, fail |
| Extract.RatingWithoutDigits | scrape.py:123-125 | a title without a digit makes the rating fail |
| Extract.GetComplexity | scrape.py:128-130 | the complexity exists iff the icon, its src and a digit in the src exist, and it is non-negative |
| Extract.ComplexityFromPath | scrape.py:128-130 | the complexity is the value of the first maximal run of digits in the icon path, leading zeros included |
| Extract.GetProducts | scrape.py:133-137 | one product per ingredient item, in order, each that item's text |
| Extract.GetCategory | scrape.py:174-177 | the category exists iff the pattern matched; it has no '/', and otherwise the same characters as the two groups joined by a space |
| Extract.CategoryJoin | scrape.py:176 | the category is each group with its slashes removed, joined by one space |
| Extract.GetImage | scrape.py:145-152 | the placeholder URL when no photo matched, else the photo's src, which is None when the photo lacks one |
| Extract.LabelCount | scrape.py:154-171 | an absent label gives 0, and so does a label whose text int() rejects |
| Extract.CountFromLabel | scrape.py:154-171 | a label holding a numeral, with or without a minus sign and padded with whitespace int() skips, gives the numeral's value |
| Extract.CountNotAnInteger | scrape.py:154-171 | a label holding a character int() rejects, such as "12 пъти" or "1,5", gives 0 |
| Extract.CountControlPadded | scrape.py:154-171 | a label led by U+001C..U+001F gives 0, because int() raises on it whatever follows |
| Extract.CountWithoutDigits | scrape.py:154-171 | a label without a digit gives the default 0 instead of failing |
| Extract.ScrapeRecipe | scrape.py:88-115 | a record exists iff every required field is extracted; each of the nine fields is what its extractor gives, and the category has no '/' |
| Extract.MissingOptionalFields | scrape.py:145-171 | removing the photo and both counters never makes a recipe fail; they take the placeholder, 0 and 0 |
| Dataset.AllColumns | scrape.py:15-25 | the nine keys main creates are all the keys there are |
| Dataset.ToRow | scrape.py:103-113 | the record dictionary has each of the nine keys, holding that field's value |
| Dataset.ColumnOf | scrape.py:183-184 | a column of n recipes has n values; the i-th is the i-th recipe's field |
| Dataset.ColumnOfAppend | scrape.py:183-184 | the column of a + b is the column of a followed by that of b |
| Dataset.ColumnExtendedTwice | scrape.py:183-184 | a column extended by the rows of a and then by those of b is extended by the rows of a + b |
| Dataset.ColumnsExtended | scrape.py:183-184 | appending the rows of a and then those of b appends the rows of a + b |
| Dataset.RowsReadBack | scrape.py:64 | row i of a table whose columns hold rs reads back as rs[i] |
| Dataset.RowRoundTrip | scrape.py:103-113 | a row holding a recipe's nine values reads back as that recipe |
| Dataset.FirstMissing | scrape.py:183-184 | the position of the first key the row lacks; every key before it is present |
| Dataset.ExtendOneMore | scrape.py:183-184 | one loop step appends to exactly the next key's column |
| Dataset.ExtendedEveryKey | scrape.py:183-184 | after every key, each column has the row's value appended |
| Dataset.FirstMissingIs | scrape.py:183-184 | the loop stops at the first missing key |
| Dataset.ColumnTable.constructor | scrape.py:15-25 | nine empty columns in main's key order |
| Dataset.ColumnTable.Append | scrape.py:180-186 | each column gets the row's value appended, in key order; if a key is missing (KeyError), the columns before it are extended and the rest are untouched; keys and order are unchanged |
| Pagination.GetNPages | scrape.py:79-85 | an absent pages bar or an empty anchor list raises |
| Pagination.PageCount | scrape.py:39-43 | main falls back to 1 page when get_n_pages raises |
| Pagination.PageCountFromLastAnchor | scrape.py:79-85 | the count is the value of the last anchor's digit capture, leading zeros included, whatever the earlier anchors say |
| Pagination.PageCountCanBeZero | scrape.py:79-85 | a last anchor numbered 0 gives 0 pages |
| Pagination.PageUrl | scrape.py:50 | a page URL is the category URL, a slash, then str(p) |
| Pagination.PageUrlNumber | scrape.py:50 | what follows the slash reads back as the page number |
| Crawl.Scraped | scrape.py:71-77 | no more recipes than URLs |
| Crawl.ScrapedConcat | scrape.py:71-77 | scraping a + b scrapes a, then b |
| Crawl.FailureSkipped | scrape.py:71-77 | a failing URL adds nothing and does not stop the URLs after it |
| Crawl.SuccessKept | scrape.py:71-77 | a successful URL's recipe lies between those of the URLs before and after it |
| Crawl.IncompletePageSkipped | scrape.py:73-77 | with scrape_recipe as the outcome, a page missing a required field adds nothing and does not stop the URLs after it |
| Crawl.ScrapedCount | scrape.py:71-77 | exactly one recipe per successful URL |
| Crawl.ScrapeOne | scrape.py:73-77 | one URL appends its recipe's row, or nothing when scraping it fails |
| Crawl.ScrapeUrl | scrape.py:71-77 | the columns gain exactly the rows of the recipes scraped from the URLs, in URL order |
| Crawl.CategoryScrapedLinks | scrape.py:49-59 | the recipes of a category's pages 1..n are what scrape_url yields on all of their recipe links, in page order |
| Crawl.ScrapePages | scrape.py:49-59 | pages 1..n in order, each URL being the category URL plus "/" plus the page number; the columns gain those pages' recipes in page order |
| Crawl.ScrapeCategory | scrape.py:38-59 | the page loop runs over the page count, or over 1 page when get_n_pages raises |
| Crawl.AllScrapedLinks | scrape.py:37-59 | the recipes of the crawl are what scrape_url yields on all recipe links of all categories, in category and page order |
| Crawl.ScrapeCategories | scrape.py:37-59 | the columns gain every category's recipes, category after category |
| Crawl.ScrapeAll | scrape.py:14-63 | a fresh table of nine columns with one row per scraped recipe, and each row reads back as its recipe |

## Left out

- HTTP requests, lxml parsing and XPath evaluation are not modelled. A page is given as its query results, and a URL's scrape outcome, recipe links and pages-bar captures are parameters, treated as deterministic functions.
- The regular expressions that find the category list, the recipe links, the pages bar and the category groups are not modelled. Their captures are inputs.
- html.unescape is not modelled, because it only prepares the text the category pattern runs on.
- Threads are left out. main starts one thread per page, so row order across pages is not fixed, and unsynchronised appends could misalign columns. The model scrapes pages sequentially, in page order.
- The pandas DataFrame, the TSV export, tqdm and print output are left out as I/O.
- An exception from the category-page or listing-page requests in main ends the program. The model assumes these requests succeed.
- Text.ParseSigned: Python 3.11 and later (and the 2022 security releases of 3.7-3.10) make int() raise on a decimal string of more than 4300 digits, and str() of such an int raise too. This limit can be configured at run time. The model accepts numerals of any length, and DecimalString writes them.
- Text.IsDigit: only ASCII digits are admitted. Python's `\d` and int() also accept other Unicode decimal digits.
- Dataset.ColumnTable.Append: it does not return the dictionary object itself, as append_scraped_data does. scrape_url rebinds its local name to the same object, which has no effect.
