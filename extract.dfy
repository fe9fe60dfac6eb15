/**
 * Field extraction for one recipe page (scrape_recipe and the get_* helpers).
 * The page is given as the results of the scraper's queries: for each XPath query,
 * the first matching element (or None when the query matched nothing) or the list
 * of all matches; for the category, the two groups of the first regular-expression
 * match over the unescaped page text.
 */
module Extract {
  import opened Wrappers
  import opened Text

  /** A matched element: its attributes and its text content (lxml's text_content()). */
  datatype Element = Element(attributes: map<string, string>, text: string)

  /** What the scraper's queries return on one recipe page. */
  datatype RecipePage = RecipePage(
    titleBlock: Option<Element>,              // first div whose class contains "title_rec_big"
    ratingIcon: Option<Element>,              // first img after the "Рейтинг:" label
    complexityIcon: Option<Element>,          // first img after the "Сложност:" label
    ingredients: seq<Element>,                // every li with itemprop="ingredients"
    preparation: Option<Element>,             // first div with class "recepta_prigotviane"
    photo: Option<Element>,                   // first img with alt "виж снимката"
    triedLabel: Option<Element>,              // first b after the "Изпробвана:" label
    favouriteLabel: Option<Element>,          // first b after the "Любима на" label
    categoryGroups: Option<(string, string)>  // groups of the first recipeCategory match
  )

  /**
   * One scraped recipe. The image is None when the photo element exists but has
   * no src attribute (lxml's get returns Python's None then).
   */
  datatype Recipe = Recipe(
    title: string,
    rating: int,
    complexity: int,
    products: seq<string>,
    description: string,
    image: Option<string>,
    timesCooked: int,
    fav: int,
    category: string
  )

  const PlaceholderImage: string := "https://receptite.com/graphs/nophoto.png"

  /** lxml's element.get(name): the attribute's value, or None when it is absent. */
  function Attribute(e: Element, name: string): (r: Option<string>)
    ensures r.Some? <==> name in e.attributes
  {
    if name in e.attributes then Some(e.attributes[name]) else None
  }

  // ---------------------------------------------------------------------------
  // Required fields: a missing element or an unparsable value makes the field fail.

  /** The stripped text content of a block; fails when no block matched (get_title, get_description). */
  function BlockText(block: Option<Element>): (r: Option<string>)
    ensures r.Some? <==> block.Some?
    ensures r.Some? ==> r.value == Strip(block.value.text)
    ensures r.Some? ==> r.value == [] || (!IsSpace(r.value[0]) && !IsSpace(r.value[|r.value| - 1]))
  {
    match block
    case None => None
    case Some(e) => Some(Strip(e.text))
  }

  /** The integer in the rating icon's title attribute (get_rating). */
  function GetRating(icon: Option<Element>): (r: Option<int>)
    ensures r.Some? <==> icon.Some? && "title" in icon.value.attributes && IntText(icon.value.attributes["title"])
  {
    match icon
    case None => None
    case Some(e) =>
      match Attribute(e, "title")
      case None => None
      case Some(t) => ParseInt(t)
  }

  /** The first run of digits in the complexity icon's src path, read as a number (get_complexity). */
  function GetComplexity(icon: Option<Element>): (r: Option<int>)
    ensures r.Some? <==> icon.Some? && "src" in icon.value.attributes && !NoDigits(icon.value.attributes["src"])
    ensures r.Some? ==> r.value >= 0
  {
    match icon
    case None => None
    case Some(e) =>
      match Attribute(e, "src")
      case None => None
      case Some(path) =>
        match FirstDigitRun(path)
        case None => None
        case Some(run) => Some(DigitsValue(run))
  }

  /** The text content of every ingredient item, in document order (get_products); it cannot fail. */
  function GetProducts(items: seq<Element>): (r: seq<string>)
    ensures |r| == |items|
    ensures forall i :: 0 <= i < |items| ==> r[i] == items[i].text
  {
    if items == [] then [] else GetProducts(items[..|items| - 1]) + [items[|items| - 1].text]
  }

  /** The category: both groups joined by one space, with every '/' removed (get_category). */
  function GetCategory(groups: Option<(string, string)>): (r: Option<string>)
    ensures r.Some? <==> groups.Some?
    ensures r.Some? ==> '/' !in r.value
    ensures r.Some? ==> forall c :: c != '/' ==> multiset(r.value)[c] == multiset(groups.value.0 + " " + groups.value.1)[c]
  {
    match groups
    case None => None
    case Some((first, second)) => Some(RemoveChar(first + " " + second, '/'))
  }

  // ---------------------------------------------------------------------------
  // Optional fields: never fail, fall back to a fixed default.

  /** The photo's src, or the placeholder image when no photo matched (get_image). */
  function GetImage(photo: Option<Element>): (r: Option<string>)
    ensures photo.None? ==> r == Some(PlaceholderImage)
    ensures photo.Some? ==> (r.Some? <==> "src" in photo.value.attributes)
    ensures photo.Some? && r.Some? ==> r.value == photo.value.attributes["src"]
  {
    match photo
    case None => Some(PlaceholderImage)
    case Some(e) => Attribute(e, "src")
  }

  /**
   * The integer text of the element after a label, or 0 when the label is absent or
   * its text is not an integer (get_times_cooked and get_fav).
   */
  function LabelCount(counter: Option<Element>): (r: int)
    ensures counter.None? ==> r == 0
    ensures counter.Some? && !IntText(counter.value.text) ==> r == 0
  {
    match counter
    case None => 0
    case Some(e) => ParseInt(e.text).GetOr(0)
  }

  // ---------------------------------------------------------------------------
  // The whole record

  /** Every required extraction succeeds on the page. */
  predicate RequiredPresent(page: RecipePage) {
    && page.titleBlock.Some?
    && GetRating(page.ratingIcon).Some?
    && GetComplexity(page.complexityIcon).Some?
    && page.preparation.Some?
    && page.categoryGroups.Some?
  }

  /**
   * scrape_recipe once the page is fetched: a record when every required field is
   * extracted, None (the exception scrape_url catches) otherwise. Optional fields
   * take their defaults and never decide the outcome.
   */
  function ScrapeRecipe(page: RecipePage): (r: Option<Recipe>)
    ensures r.Some? <==> RequiredPresent(page)
    ensures r.Some? ==> r.value.title == BlockText(page.titleBlock).value
    ensures r.Some? ==> r.value.rating == GetRating(page.ratingIcon).value
    ensures r.Some? ==> r.value.complexity == GetComplexity(page.complexityIcon).value
    ensures r.Some? ==> r.value.description == BlockText(page.preparation).value
    ensures r.Some? ==> r.value.category == GetCategory(page.categoryGroups).value
    ensures r.Some? ==> r.value.products == GetProducts(page.ingredients)
    ensures r.Some? ==> r.value.image == GetImage(page.photo)
    ensures r.Some? ==> r.value.timesCooked == LabelCount(page.triedLabel)
    ensures r.Some? ==> r.value.fav == LabelCount(page.favouriteLabel)
    ensures r.Some? ==> '/' !in r.value.category
  {
    var title := BlockText(page.titleBlock);
    var rating := GetRating(page.ratingIcon);
    var complexity := GetComplexity(page.complexityIcon);
    var products := GetProducts(page.ingredients);
    var image := GetImage(page.photo);
    var timesCooked := LabelCount(page.triedLabel);
    var fav := LabelCount(page.favouriteLabel);
    var description := BlockText(page.preparation);
    var category := GetCategory(page.categoryGroups);
    if title.Some? && rating.Some? && complexity.Some? && description.Some? && category.Some? then
      Some(Recipe(title.value, rating.value, complexity.value, products, description.value,
                  image, timesCooked, fav, category.value))
    else None
  }

  // ---------------------------------------------------------------------------
  // What the extractors yield on well-formed and on malformed markup

  /** A rating icon titled with a numeral yields that number. */
  lemma RatingFromTitle(e: Element, n: nat)
    requires "title" in e.attributes && e.attributes["title"] == DecimalString(n)
    ensures GetRating(Some(e)) == Some(n as int)
  {
    ParseIntOfDecimal(n);
  }

  /**
   * A rating icon whose stripped title holds a character int() rejects, such as the
   * space in "5 от 6", makes the rating, a required field, fail.
   */
  lemma RatingNotAnInteger(e: Element, i: nat)
    requires "title" in e.attributes
    requires var t := Strip(e.attributes["title"]);
      && i < |t| && !IsDigit(t[i]) && t[i] != '_' && (i > 0 || (t[i] != '+' && t[i] != '-'))
    ensures GetRating(Some(e)) == None
  {
    ParseIntRejectsStray(e.attributes["title"], i);
  }

  /**
   * A rating icon titled with a numeral followed by U+001C..U+001F makes the rating
   * fail: int() does not skip that character, whatever whitespace precedes the numeral.
   */
  lemma RatingControlPadded(e: Element, pre: string, n: nat, c: char)
    requires '\U{1c}' <= c <= '\U{1f}' && AllSpaces(pre)
    requires "title" in e.attributes && e.attributes["title"] == pre + DecimalString(n) + [c]
    ensures GetRating(Some(e)) == None
  {
    ParseIntControlTrailing(pre, n, c);
  }

  /** A rating icon whose title holds no digit makes the rating, a required field, fail. */
  lemma RatingWithoutDigits(e: Element)
    requires "title" in e.attributes && NoDigits(e.attributes["title"])
    ensures GetRating(Some(e)) == None
  {
    ParseIntNeedsDigit(e.attributes["title"]);
  }

  /**
   * The complexity is the value of the first run of digits of the icon path, leading
   * zeros included ("s05.png" gives 5).
   */
  lemma ComplexityFromPath(e: Element, pre: string, run: string, post: string)
    requires "src" in e.attributes && e.attributes["src"] == pre + run + post
    requires NoDigits(pre) && run != [] && AllDigits(run)
    requires post == [] || !IsDigit(post[0])
    ensures GetComplexity(Some(e)) == Some(DigitsValue(run) as int)
  {
    FirstDigitRunAfter(pre, run, post);
  }

  /** A label followed by a (possibly padded, possibly negative) numeral yields that number. */
  lemma CountFromLabel(e: Element, pre: string, n: nat, post: string, negative: bool)
    requires AllIntSpaces(pre) && AllIntSpaces(post)
    requires e.text == pre + (if negative then "-" else "") + DecimalString(n) + post
    ensures LabelCount(Some(e)) == if negative then -(n as int) else n as int
  {
    ParseIntDecimal(pre, n, post, negative);
  }

  /**
   * A label whose stripped text holds a character int() rejects, such as the space in
   * "12 пъти" or the comma in "1,5", yields the default 0 instead of failing.
   */
  lemma CountNotAnInteger(e: Element, i: nat)
    requires var t := Strip(e.text);
      && i < |t| && !IsDigit(t[i]) && t[i] != '_' && (i > 0 || (t[i] != '+' && t[i] != '-'))
    ensures LabelCount(Some(e)) == 0
  {
    ParseIntRejectsStray(e.text, i);
  }

  /**
   * A label led by U+001C..U+001F counts 0: strip() would remove that character but
   * int() does not skip it, whatever whitespace follows the numeral.
   */
  lemma CountControlPadded(e: Element, c: char, n: nat, post: string)
    requires '\U{1c}' <= c <= '\U{1f}' && AllSpaces(post)
    requires e.text == [c] + DecimalString(n) + post
    ensures LabelCount(Some(e)) == 0
  {
    ParseIntControlLeading(c, n, post);
  }

  /** A label whose text is not a number yields the default 0 instead of failing. */
  lemma CountWithoutDigits(e: Element)
    requires NoDigits(e.text)
    ensures LabelCount(Some(e)) == 0
  {
    ParseIntNeedsDigit(e.text);
  }

  /** The category is each group with its slashes removed, joined by one space. */
  lemma CategoryJoin(first: string, second: string)
    ensures GetCategory(Some((first, second)))
         == Some(RemoveChar(first, '/') + " " + RemoveChar(second, '/'))
  {
    RemoveCharAppend(first + " ", second, '/');
    RemoveCharAppend(first, " ", '/');
    assert RemoveChar(" ", '/') == " " by {
      RemoveCharAbsent(" ", '/');
    }
  }

  /** Missing optional markup never turns a record into a failure: the defaults are used. */
  lemma MissingOptionalFields(page: RecipePage)
    requires RequiredPresent(page)
    ensures var r := ScrapeRecipe(page.(photo := None, triedLabel := None, favouriteLabel := None));
      && r.Some?
      && r.value == ScrapeRecipe(page).value.(image := Some(PlaceholderImage), timesCooked := 0, fav := 0)
  {
  }
}
