/** Small value wrappers shared by the scraper modules. */
module Wrappers {

  /** A JavaScript value that may be `undefined` (an absent attribute, a missing `href`). */
  datatype Option<+T> = None | Some(value: T)

  /**
   * The outcome of fetching a URL with `axios.get` and loading the body with
   * `cheerio.load`: either something threw (network error, non-2xx status,
   * unparsable body), or a document was obtained.
   */
  datatype Fetched<+D> = Threw | Loaded(doc: D)
}
