/** How many listing pages a category has, and the URL of each page. */
module Pagination {
  import opened Wrappers
  import opened Text

  /**
   * get_n_pages over the captures of the pages bar: None when the category page has
   * no pages bar, Some(captures) with the page number captured from each anchor in it,
   * in document order. The last capture is read with int(); an absent bar or an empty
   * list of anchors raises IndexError (None here).
   */
  function GetNPages(pagesBar: Option<seq<string>>): (r: Option<int>)
    ensures pagesBar.None? || pagesBar.value == [] ==> r.None?
  {
    match pagesBar
    case None => None
    case Some(captures) => if captures == [] then None else ParseInt(captures[|captures| - 1])
  }

  /** The page count main uses: get_n_pages, or 1 when it raises. */
  function PageCount(pagesBar: Option<seq<string>>): (n: int)
    ensures pagesBar.None? ==> n == 1
    ensures pagesBar == Some([]) ==> n == 1
  {
    GetNPages(pagesBar).GetOr(1)
  }

  /**
   * The count is the value of the last anchor's digit capture, leading zeros included,
   * whatever the anchors before it say.
   */
  lemma PageCountFromLastAnchor(captures: seq<string>)
    requires captures != []
    requires var last := captures[|captures| - 1]; last != [] && AllDigits(last)
    ensures PageCount(Some(captures)) == DigitsValue(captures[|captures| - 1])
  {
    ParseIntDigitRun(captures[|captures| - 1]);
  }

  /** Nothing forces the count to be positive: a last anchor numbered 0 gives 0 pages. */
  lemma PageCountCanBeZero(captures: seq<string>)
    requires captures != [] && captures[|captures| - 1] == "0"
    ensures PageCount(Some(captures)) == 0
  {
    assert DecimalString(0) == "0";
    PageCountFromLastAnchor(captures);
  }

  /** The URL of page p of a category: the category URL, a slash, and str(p). */
  function PageUrl(catUrl: string, p: nat): (u: string)
    ensures |u| > |catUrl| + 1 && u[..|catUrl| + 1] == catUrl + "/"
    ensures u[|catUrl| + 1..] == DecimalString(p)
  {
    catUrl + "/" + DecimalString(p)
  }

  /** What follows the slash in the URL of page p reads back as p, so distinct pages have distinct URLs. */
  lemma PageUrlNumber(catUrl: string, p: nat)
    ensures ParseInt(PageUrl(catUrl, p)[|catUrl| + 1..]) == Some(p as int)
  {
    assert PageUrl(catUrl, p)[|catUrl| + 1..] == DecimalString(p);
    ParseIntOfDecimal(p);
  }
}
