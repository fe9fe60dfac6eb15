/**
 * The crawl: scrape_url over the recipe links of one listing page, the page loop
 * main runs for each category, and the loop over all categories. The network is a
 * parameter: scrape gives the outcome of scrape_recipe on a recipe URL (a record, or
 * None when fetching, parsing or a required field raises; once the page is parsed
 * that outcome is Extract.ScrapeRecipe), listing the recipe links found on a listing
 * page URL, pagesBar the page-number captures of a category's first page.
 */
module Crawl {
  import opened Wrappers
  import opened Extract
  import opened Dataset
  import opened Pagination

  /** The recipes scrape_url obtains from urls, in URL order. */
  function Scraped(urls: seq<string>, scrape: string -> Option<Recipe>): (rs: seq<Recipe>)
    ensures |rs| <= |urls|
  {
    if urls == [] then []
    else
      var rest := Scraped(urls[..|urls| - 1], scrape);
      match scrape(urls[|urls| - 1])
      case None => rest
      case Some(r) => rest + [r]
  }

  /** The positions of the URLs whose recipe is scraped successfully. */
  function SuccessIndices(urls: seq<string>, scrape: string -> Option<Recipe>): set<nat> {
    set i: nat | i < |urls| && scrape(urls[i]).Some?
  }

  /** Scraping a list of URLs is scraping each part of it, one after the other. */
  lemma {:induction false} ScrapedConcat(a: seq<string>, b: seq<string>, scrape: string -> Option<Recipe>)
    ensures Scraped(a + b, scrape) == Scraped(a, scrape) + Scraped(b, scrape)
  {
    if b == [] {
      assert a + b == a;
    } else {
      assert (a + b)[..|a + b| - 1] == a + b[..|b| - 1];
      ScrapedConcat(a, b[..|b| - 1], scrape);
    }
  }

  /** A failing URL adds nothing and does not stop the URLs after it. */
  lemma FailureSkipped(a: seq<string>, u: string, b: seq<string>, scrape: string -> Option<Recipe>)
    requires scrape(u).None?
    ensures Scraped(a + [u] + b, scrape) == Scraped(a, scrape) + Scraped(b, scrape)
  {
    ScrapedConcat(a + [u], b, scrape);
    ScrapedConcat(a, [u], scrape);
    assert [u][..0] == [];
  }

  /** A successful URL adds its recipe between those of the URLs before and after it. */
  lemma SuccessKept(a: seq<string>, u: string, b: seq<string>, scrape: string -> Option<Recipe>, r: Recipe)
    requires scrape(u) == Some(r)
    ensures Scraped(a + [u] + b, scrape) == Scraped(a, scrape) + [r] + Scraped(b, scrape)
  {
    ScrapedConcat(a + [u], b, scrape);
    ScrapedConcat(a, [u], scrape);
    assert [u][..0] == [];
  }

  /**
   * With scrape_recipe as the per-URL outcome, a page missing a required field adds
   * nothing and does not stop the URLs after it.
   */
  lemma IncompletePageSkipped(a: seq<string>, u: string, b: seq<string>, pages: string -> RecipePage)
    requires !RequiredPresent(pages(u))
    ensures var scrape := url => ScrapeRecipe(pages(url));
      Scraped(a + [u] + b, scrape) == Scraped(a, scrape) + Scraped(b, scrape)
  {
    FailureSkipped(a, u, b, url => ScrapeRecipe(pages(url)));
  }

  /** One recipe is scraped per successful URL: no drops and no duplicates. */
  lemma {:induction false} ScrapedCount(urls: seq<string>, scrape: string -> Option<Recipe>)
    ensures |Scraped(urls, scrape)| == |SuccessIndices(urls, scrape)|
  {
    if urls != [] {
      var n := |urls| - 1;
      var init := urls[..n];
      ScrapedCount(init, scrape);
      var before := SuccessIndices(init, scrape);
      var after := SuccessIndices(urls, scrape);
      assert forall i: nat :: i < n ==> init[i] == urls[i];
      if scrape(urls[n]).Some? {
        assert after == before + {n};
        assert n !in before;
      } else {
        assert after == before;
      }
    }
  }

  /**
   * The body of scrape_url's try block for one URL: scrape it and, when that
   * succeeds, append the recipe's row; on failure the table is left as it was.
   */
  method ScrapeOne(url: string, scrape: string -> Option<Recipe>, table: ColumnTable)
    requires table.Valid()
    modifies table
    ensures table.Valid() && table.order == old(table.order) && table.columns.Keys == old(table.columns).Keys
    ensures forall k :: k in table.columns ==>
      table.columns[k] == old(table.columns)[k] + ColumnOf(k, Scraped([url], scrape))
  {
    assert [url][..0] == [];
    var outcome := scrape(url);
    if outcome.Some? {
      var ok := table.Append(ToRow(outcome.value));
    }
  }

  /** scrape_url: scrapes each URL in order and appends each recipe obtained; failures are skipped. */
  method ScrapeUrl(urls: seq<string>, scrape: string -> Option<Recipe>, table: ColumnTable)
    requires table.Valid()
    modifies table
    ensures table.Valid() && table.order == old(table.order) && table.columns.Keys == old(table.columns).Keys
    ensures forall k :: k in table.columns ==>
      table.columns[k] == old(table.columns)[k] + ColumnOf(k, Scraped(urls, scrape))
  {
    var i := 0;
    while i < |urls|
      invariant 0 <= i <= |urls|
      invariant table.Valid() && table.order == old(table.order) && table.columns.Keys == old(table.columns).Keys
      invariant forall k :: k in table.columns ==>
        table.columns[k] == old(table.columns)[k] + ColumnOf(k, Scraped(urls[..i], scrape))
    {
      ghost var before := table.columns;
      ScrapeOne(urls[i], scrape, table);
      assert urls[..i + 1] == urls[..i] + [urls[i]];
      ScrapedConcat(urls[..i], [urls[i]], scrape);
      ColumnsExtended(old(table.columns), before, table.columns, Scraped(urls[..i], scrape), Scraped([urls[i]], scrape));
      i := i + 1;
    }
    assert urls[..i] == urls;
  }

  /** The recipe links of the first count listing pages of a category, page after page. */
  function PageLinks(catUrl: string, count: int, listing: string -> seq<string>): seq<string>
    decreases count
  {
    if count <= 0 then [] else PageLinks(catUrl, count - 1, listing) + listing(PageUrl(catUrl, count))
  }

  /** The recipes of the first count pages of a category, page after page. */
  function CategoryScraped(catUrl: string, count: int, listing: string -> seq<string>,
                           scrape: string -> Option<Recipe>): seq<Recipe>
    decreases count
  {
    if count <= 0 then []
    else CategoryScraped(catUrl, count - 1, listing, scrape) + Scraped(listing(PageUrl(catUrl, count)), scrape)
  }

  /**
   * The page loop of a category yields what scrape_url would on all the recipe links
   * of its pages taken in page order.
   */
  lemma {:induction false} CategoryScrapedLinks(catUrl: string, count: int, listing: string -> seq<string>,
                                                scrape: string -> Option<Recipe>)
    ensures CategoryScraped(catUrl, count, listing, scrape) == Scraped(PageLinks(catUrl, count, listing), scrape)
    decreases count
  {
    if count > 0 {
      CategoryScrapedLinks(catUrl, count - 1, listing, scrape);
      ScrapedConcat(PageLinks(catUrl, count - 1, listing), listing(PageUrl(catUrl, count)), scrape);
    }
  }

  /**
   * main's page loop for one category: for page = 1 .. nPages in increasing order,
   * the page URL, its recipe links, and scrape_url on them. Returns the page URLs.
   */
  method ScrapePages(catUrl: string, nPages: int, listing: string -> seq<string>,
                     scrape: string -> Option<Recipe>, table: ColumnTable)
    returns (pages: seq<string>)
    requires table.Valid()
    modifies table
    ensures table.Valid() && table.order == old(table.order) && table.columns.Keys == old(table.columns).Keys
    ensures |pages| == if nPages > 0 then nPages else 0
    ensures forall i :: 0 <= i < |pages| ==> pages[i] == PageUrl(catUrl, i + 1)
    ensures forall k :: k in table.columns ==>
      table.columns[k] == old(table.columns)[k] + ColumnOf(k, CategoryScraped(catUrl, nPages, listing, scrape))
  {
    pages := [];
    var page := 0;
    while page < nPages
      invariant 0 <= page <= if nPages > 0 then nPages else 0
      invariant |pages| == page && forall i :: 0 <= i < page ==> pages[i] == PageUrl(catUrl, i + 1)
      invariant table.Valid() && table.order == old(table.order) && table.columns.Keys == old(table.columns).Keys
      invariant forall k :: k in table.columns ==>
        table.columns[k] == old(table.columns)[k] + ColumnOf(k, CategoryScraped(catUrl, page, listing, scrape))
    {
      var pageUrl := PageUrl(catUrl, page + 1);
      pages := pages + [pageUrl];
      ghost var mid := table.columns;
      ScrapeUrl(listing(pageUrl), scrape, table);
      ColumnsExtended(old(table.columns), mid, table.columns,
                      CategoryScraped(catUrl, page, listing, scrape), Scraped(listing(pageUrl), scrape));
      assert CategoryScraped(catUrl, page + 1, listing, scrape)
          == CategoryScraped(catUrl, page, listing, scrape) + Scraped(listing(pageUrl), scrape);
      page := page + 1;
    }
  }

  /**
   * The body of main's category loop: the page count from get_n_pages, or 1 when
   * it raises, then the page loop.
   */
  method ScrapeCategory(catUrl: string, pagesBar: Option<seq<string>>, listing: string -> seq<string>,
                        scrape: string -> Option<Recipe>, table: ColumnTable)
    returns (pages: seq<string>)
    requires table.Valid()
    modifies table
    ensures table.Valid() && table.order == old(table.order) && table.columns.Keys == old(table.columns).Keys
    ensures |pages| == if PageCount(pagesBar) > 0 then PageCount(pagesBar) else 0
    ensures forall i :: 0 <= i < |pages| ==> pages[i] == PageUrl(catUrl, i + 1)
    ensures forall k :: k in table.columns ==>
      table.columns[k] == old(table.columns)[k] + ColumnOf(k, CategoryScraped(catUrl, PageCount(pagesBar), listing, scrape))
  {
    var nPages := PageCount(pagesBar);
    pages := ScrapePages(catUrl, nPages, listing, scrape, table);
  }

  /** The recipe links of every category's listing pages, category after category. */
  function AllLinks(categories: seq<string>, pagesBar: string -> Option<seq<string>>,
                    listing: string -> seq<string>): seq<string>
  {
    if categories == [] then []
    else
      var last := categories[|categories| - 1];
      AllLinks(categories[..|categories| - 1], pagesBar, listing) + PageLinks(last, PageCount(pagesBar(last)), listing)
  }

  /** The recipes of every category, category after category. */
  function AllScraped(categories: seq<string>, pagesBar: string -> Option<seq<string>>,
                      listing: string -> seq<string>, scrape: string -> Option<Recipe>): seq<Recipe>
  {
    if categories == [] then []
    else
      var last := categories[|categories| - 1];
      AllScraped(categories[..|categories| - 1], pagesBar, listing, scrape)
        + CategoryScraped(last, PageCount(pagesBar(last)), listing, scrape)
  }

  /**
   * The category loop yields what scrape_url would on all the recipe links of the
   * crawl taken in category and page order.
   */
  lemma {:induction false} AllScrapedLinks(categories: seq<string>, pagesBar: string -> Option<seq<string>>,
                                           listing: string -> seq<string>, scrape: string -> Option<Recipe>)
    ensures AllScraped(categories, pagesBar, listing, scrape) == Scraped(AllLinks(categories, pagesBar, listing), scrape)
  {
    if categories != [] {
      var last := categories[|categories| - 1];
      var init := categories[..|categories| - 1];
      AllScrapedLinks(init, pagesBar, listing, scrape);
      CategoryScrapedLinks(last, PageCount(pagesBar(last)), listing, scrape);
      ScrapedConcat(AllLinks(init, pagesBar, listing), PageLinks(last, PageCount(pagesBar(last)), listing), scrape);
    }
  }

  /** main's loop over the categories, one after the other. */
  method ScrapeCategories(categories: seq<string>, pagesBar: string -> Option<seq<string>>,
                          listing: string -> seq<string>, scrape: string -> Option<Recipe>, table: ColumnTable)
    requires table.Valid()
    modifies table
    ensures table.Valid() && table.order == old(table.order) && table.columns.Keys == old(table.columns).Keys
    ensures forall k :: k in table.columns ==>
      table.columns[k] == old(table.columns)[k] + ColumnOf(k, AllScraped(categories, pagesBar, listing, scrape))
  {
    var c := 0;
    while c < |categories|
      invariant 0 <= c <= |categories|
      invariant table.Valid() && table.order == old(table.order) && table.columns.Keys == old(table.columns).Keys
      invariant forall k :: k in table.columns ==>
        table.columns[k] == old(table.columns)[k] + ColumnOf(k, AllScraped(categories[..c], pagesBar, listing, scrape))
    {
      var catUrl := categories[c];
      ghost var done := AllScraped(categories[..c], pagesBar, listing, scrape);
      ghost var here := CategoryScraped(catUrl, PageCount(pagesBar(catUrl)), listing, scrape);
      assert categories[..c + 1][..c] == categories[..c];
      assert AllScraped(categories[..c + 1], pagesBar, listing, scrape) == done + here;
      ghost var mid := table.columns;
      var pages := ScrapeCategory(catUrl, pagesBar(catUrl), listing, scrape, table);
      ColumnsExtended(old(table.columns), mid, table.columns, done, here);
      c := c + 1;
    }
    assert categories[..c] == categories;
  }

  /**
   * main without the landing-page discovery and the export: a fresh table of nine
   * empty columns, then each category in order. Row i of the result is the i-th
   * recipe scraped.
   */
  method ScrapeAll(categories: seq<string>, pagesBar: string -> Option<seq<string>>,
                   listing: string -> seq<string>, scrape: string -> Option<Recipe>)
    returns (table: ColumnTable)
    ensures fresh(table) && table.Valid() && table.order == ColumnNames
    ensures var rs := AllScraped(categories, pagesBar, listing, scrape);
      && table.Rectangular(|rs|)
      && (forall k :: k in table.columns ==> table.columns[k] == ColumnOf(k, rs))
      && (forall i :: 0 <= i < |rs| ==> FromRow(RowAt(table.columns, i)) == Some(rs[i]))
  {
    table := new ColumnTable();
    ghost var empty := table.columns;
    ScrapeCategories(categories, pagesBar, listing, scrape, table);
    ghost var rs := AllScraped(categories, pagesBar, listing, scrape);
    AllColumns();
    forall k: Column
      ensures k in table.columns && table.columns[k] == ColumnOf(k, rs)
    {
      assert empty[k] == [];
    }
    forall i | 0 <= i < |rs|
      ensures FromRow(RowAt(table.columns, i)) == Some(rs[i])
    {
      RowsReadBack(table.columns, rs, i);
    }
  }
}
