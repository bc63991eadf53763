/**
 * `fetchProduct` (`src/index.ts`, lines 45-76): search the price-comparison site
 * for a term and pick the first product heading and the link of its result card.
 *
 * As written, the object built inside the `try` block is bound by a `const results`
 * that shadows the function's own `var results`, so the function always returns the
 * empty `{product: '', link: ''}` it started with. `ShadowedResult` is the value
 * that is built and then lost; `FetchProductIntended` is the function with the
 * shadowing removed.
 *
 * The search page and its DOM queries are abstracted to the two values the code
 * reads from it: the text of the first `h3`, and the `href` of the first anchor of
 * the card five ancestors above it.
 */
module FetchProduct {
  import opened Wrappers

  /** The site origin, prefixed to the search path and to the card's relative link. */
  const Origin: string := "https://pricerunner.se"

  /** The text used for the product when the heading text is empty. */
  const NotFound: string := "no found"

  /** `IProductSearchResult`. */
  datatype ProductResult = ProductResult(product: string, link: string)

  /** The value `fetchProduct` starts from, and returns. */
  const Empty: ProductResult := ProductResult("", "")

  /**
   * A loaded search page: the text of its first `h3` (`""` when there is none,
   * as the text of an empty selection is empty) and the `href` of the first
   * anchor in the card around it (`None` for `undefined`).
   */
  datatype SearchDocument = SearchDocument(headingText: string, href: Option<string>)

  /** The search URL; the term is embedded as it is, without escaping. */
  function SearchUrl(search: string): (url: string)
    ensures Origin <= url
    ensures |url| >= |search| && url[|url| - |search|..] == search
  {
    Origin + "/results?q=" + search
  }

  /** JavaScript `a || b` on strings: `a` unless it is the falsy `""`. */
  function Or(a: string, b: string): string
  {
    if a != "" then a else b
  }

  /** A possibly-`undefined` string as `+` renders it. */
  function Concatenated(v: Option<string>): string
  {
    match v
    case Some(s) => s
    case None => "undefined"
  }

  /**
   * The object bound by the inner `const results`. Its product falls back to
   * `no found` on an empty heading and is never empty; its link always starts
   * with the origin and is never empty, since `+` binds tighter than `||` and the
   * `|| ''` alternative is never taken. A missing `href` gives the link
   * `https://pricerunner.seundefined`.
   */
  function ShadowedResult(doc: SearchDocument): (r: ProductResult)
    ensures doc.headingText == "" ==> r.product == NotFound
    ensures doc.headingText != "" ==> r.product == doc.headingText
    ensures r.product != ""
    ensures Origin <= r.link && r.link != ""
    ensures doc.href.Some? ==> r.link == Origin + doc.href.value
    ensures doc.href.None? ==> r.link == Origin + "undefined"
  {
    ProductResult(Or(doc.headingText, NotFound), Or(Origin + Concatenated(doc.href), ""))
  }

  /**
   * `fetchProduct` as written: whatever the fetch yields, the result is the
   * empty product, because the object built on success is bound by a shadowing
   * inner declaration and discarded.
   */
  method FetchProduct(search: string, fetch: string -> Fetched<SearchDocument>)
    returns (results: ProductResult)
    ensures results == Empty
  {
    results := Empty;
    match fetch(SearchUrl(search))
    case Threw =>
      // the catch block only logs
    case Loaded(doc) =>
      var results := ShadowedResult(doc);
  }

  /** A page with a heading and a link: the value built for it is not the value returned. */
  lemma FoundProductIsLost()
    ensures ShadowedResult(SearchDocument("Bose QuietComfort 35 II", Some("/pl/94-4341520")))
      == ProductResult("Bose QuietComfort 35 II", "https://pricerunner.se/pl/94-4341520")
    ensures ShadowedResult(SearchDocument("Bose QuietComfort 35 II", Some("/pl/94-4341520"))) != Empty
  {
  }

  /**
   * `fetchProduct` with the inner declaration turned into an assignment to the
   * outer `results`: the found product on success, the empty product when the
   * fetch or the load throws.
   */
  method FetchProductIntended(search: string, fetch: string -> Fetched<SearchDocument>)
    returns (results: ProductResult)
    ensures fetch(SearchUrl(search)).Threw? ==> results == Empty
    ensures fetch(SearchUrl(search)).Loaded? ==>
      && results == ShadowedResult(fetch(SearchUrl(search)).doc)
      && results.product != ""
      && Origin <= results.link
  {
    results := Empty;
    match fetch(SearchUrl(search))
    case Threw =>
    case Loaded(doc) =>
      results := ShadowedResult(doc);
  }
}
