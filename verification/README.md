# pricebackend scraper core, modelled in Dafny

The backend answers `GET /find/:search` in two steps. `fetchProduct` searches
pricerunner.se for the term. It is meant to return the first product heading and
the link of its result card. `fetchStores` then loads a product page and walks
every offer row in document order. For each row it reads a vendor, a product and
a price text, and it keeps the rows whose vendor is not empty.

A row is read in one of two layouts:
- **Partner layout:** the row has a truthy `aria-label`. The vendor is the label up to its first comma.
- **Standard layout:** the vendor and the product come from two differently styled paragraphs.

The price text goes through a fixed chain of JavaScript string calls:
1. remove the first `fr.`;
2. drop the last three characters;
3. remove the first space.

The model has five modules:
- `Wrappers` (wrappers.dfy): `Option` for JavaScript `undefined`, and `Fetched`, the outcome of `axios.get` plus `cheerio.load` (threw, or a document).
- `JsText` (js_text.dfy): `indexOf`, `replace` with a string pattern, `slice` with negative indices, `split`, and truthiness, on strings of Unicode characters (see "## Left out" for how that differs from JavaScript's UTF-16 strings).
- `PriceText` (price_text.dfy): the price chain.
- `FetchStores` (fetch_stores.dfy): offer rows as abstract records. It holds the loop of `fetchStores` as a method proved against the specification function `Collected`.
- `FetchProduct` (fetch_product.dfy): `fetchProduct` as written, the value its shadowed inner declaration builds, and the corrected function.

The network and the DOM library are parameters. A fetch is a function from URL to
`Fetched<document>`. A product page is the sequence of its offer rows. Each row holds
the texts the selectors return for it. A search page holds the first heading's text
and the card link's `href`.

The model follows the code as written:
- `fetchStores` visits every matched row; nothing caps the number of offers.
- A result record holds vendor, product and price only.
- The price stays a string and is never parsed as a number. The chain is not idempotent on digit strings: `PriceText.DigitsLoseSuffix` shows that it drops three more digits.
- The comment at src/index.ts:113 says any additional empty spaces are removed, but the chain removes only the first space. So `fr. 1 299 kr` gives `1 299` (`PriceText.ThousandsSeparator`).
- The heading text is used as `.text()` returns it, untrimmed.
- The fallback product text is `no found`.
- A missing card link gives `https://pricerunner.seundefined`, not an empty link.
- `fetchProduct` always returns the empty product, whatever the search page holds.

## Model

| member | source | states |
|---|---|---|
| `JsText.IndexOf` | src/index.ts:116 | the result is the first index where the pattern occurs, with no occurrence before it; `None` only when the pattern occurs nowhere |
| `JsText.Replace` | src/index.ts:116-118 | only the first occurrence of the pattern is replaced; the string is unchanged when the pattern does not occur |
| `JsText.Slice` | src/index.ts:117 | `slice(start, end)` is never longer than the string; within bounds it is the plain subsequence; `slice(0, end)` with a negative `end` drops the last `-end` characters, or gives `""` when there are not more |
| `JsText.SliceDropsTail` | src/index.ts:117 | `slice(0, -n)` drops the last n characters, or gives `""` when there are at most n |
| `JsText.Split` | src/index.ts:100 | `split(sep)` gives at least one piece and no piece contains the separator; the first piece is the prefix up to the first separator, or the whole string |
| `JsText.JoinSplit` | src/index.ts:100 | joining the pieces of `split` with the separator gives back the original string |
| `PriceText.NormalisePrice` | src/index.ts:114-118 | the normalised price is at most the input length minus 3, and is `""` when the input has at most 3 characters |
| `PriceText.FromPrice` | src/index.ts:113-118 | `fr. <amount> kr` normalises to the amount exactly as it stands, spaces inside it included |
| `PriceText.UnmarkedPrice` | src/index.ts:114-118 | when `fr.` occurs nowhere in `<amount> kr`, it normalises to the amount with its first space removed |
| `PriceText.PlainPrice` | src/index.ts:113-118 | `<digits> kr` normalises to the digits |
| `PriceText.ThousandsSeparator` | src/index.ts:113-118 | only the first space is removed: `<hi> <lo> kr` gives `<hi><lo>`, but `fr. <hi> <lo> kr` keeps the separator and gives `<hi> <lo>` |
| `PriceText.DigitsLoseSuffix` | src/index.ts:114-118 | a bare digit string loses its last three characters, so the chain is not idempotent on normalised prices |
| `FetchStores.PartnerVendor` | src/index.ts:100 | the partner vendor is a comma-free prefix of the label, followed by a comma or the label's end; it is the whole label when there is no comma, and `""` when the label starts with a comma |
| `FetchStores.FetchStores` | src/index.ts:78-136 | on a loaded page the result is `Collected` of its rows (the loop invariant ties each prefix of rows to the list built so far); when the fetch or load throws the result is `[]` |
| `FetchStores.LayoutChoice` | src/index.ts:92-114 | a truthy label selects the partner layout: the standard texts are ignored, the vendor is `PartnerVendor` of the label (its text before the first comma) and the product is the partner text; otherwise the partner texts are ignored and vendor and product are the standard texts; the price is always the normalised price text |
| `FetchStores.EmptyLabelIsStandard` | src/index.ts:99 | an empty `aria-label` is falsy: the row reads exactly like one without the attribute |
| `FetchStores.LayoutsAgree` | src/index.ts:99-118 | a partner row and a standard row showing the same vendor, product and price give the same record |
| `FetchStores.CollectedAppend` | src/index.ts:91-126 | rows are visited in document order: the records of two stretches of rows are the records of the first followed by those of the second |
| `FetchStores.CollectedOne` | src/index.ts:120-125 | one row contributes its record exactly when its vendor is non-empty, and nothing otherwise |
| `FetchStores.CollectedVendorsNamed` | src/index.ts:120-124 | every collected record has a non-empty vendor |
| `FetchStores.CollectedCount` | src/index.ts:91-126 | the number of records plus the number of rows with an empty vendor is the number of rows, so there are never more records than rows |
| `FetchStores.CollectedMembers` | src/index.ts:91-126 | a record is collected if and only if its vendor is non-empty and some row extracts to it |
| `FetchStores.NoTruncation` | src/index.ts:91-126 | when every row has a vendor, the result has one record per row, in row order; no limit truncates it |
| `FetchProduct.SearchUrl` | src/index.ts:51-53 | the search URL starts with the site origin and ends with the unescaped search term |
| `FetchProduct.ShadowedResult` | src/index.ts:66-69 | the inner value's product is `no found` for an empty heading and the heading otherwise, so it is never empty; its link starts with the origin and is never empty, so `\|\| ''` is never taken; a missing `href` yields `...undefined` |
| `FetchProduct.FetchProduct` | src/index.ts:45-76 | whatever the fetch yields, the result is the empty product `{product: '', link: ''}` |
| `FetchProduct.FoundProductIsLost` | src/index.ts:66-75 | for a page with a heading and a link, the value built differs from the empty product that is returned |
| `FetchProduct.FetchProductIntended` | src/index.ts:45-76 | without the shadowing: the empty product when the fetch throws; otherwise the built value, with a non-empty product and a link under the origin |

## Left out

- The Express server is not modelled: routes, CORS, JSON bodies, port 4000 and the handler that chains `fetchProduct` into `fetchStores` (src/index.ts:6-43). It is framework plumbing.
- `axios.get` and `cheerio.load` are not modelled. They become the `fetch` parameter, which either throws or yields an abstract document. The offer-row selector, the `h3` lookup, the five-level `.parent()` walk and `$('a', …).attr('href')` are not modelled either: their results are fields of the abstract documents.
- A throw inside the `.each` callback is not modelled. On a truthy label nothing in the callback can throw, so the catch block's reset is reached only when the fetch or the load fails.
- Console logging and `new Date().toLocaleString()` are left out. They have no effect on any result.
- Dafny strings are sequences of Unicode characters, while JavaScript strings are sequences of UTF-16 code units. So for text outside the Basic Multilingual Plane (emoji, for example) the model's `slice` and its lengths count differently from JavaScript's: `slice(0, -3)` of `12` followed by U+1F600 is `1` in JavaScript but `""` in the model. The `NormalisePrice` length bound is counted in characters, not code units.
- `JsText.Replace` does not interpret the `$` substitution patterns of the replacement string. The source only ever passes `''`.
- `fetchProduct`'s `search` is embedded in the URL as text. Any escaping the fetch layer applies belongs to the `fetch` parameter.

## Findings

| source | as written | input that shows it | evidently intended | confidence | as-written member | corrected member |
|---|---|---|---|---|---|---|
| src/index.ts:48-75 | `const results = {…}` inside the `try` declares a new binding that shadows the outer `var results`, so the found product is discarded and `{product: '', link: ''}` is returned | a search page whose first `h3` reads `Bose QuietComfort 35 II` and whose card links to `/pl/94-4341520` | return `{product: 'Bose QuietComfort 35 II', link: 'https://pricerunner.se/pl/94-4341520'}`, which `fetchStores` then scrapes | high; not executed | `FetchProduct.FetchProduct`, `FetchProduct.FoundProductIsLost` | `FetchProduct.FetchProductIntended` |
