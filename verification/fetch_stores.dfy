/**
 * `fetchStores` (`src/index.ts`, lines 78-136): fetch a product page, visit every
 * element matched by the offer-row selector in document order, read a vendor, a
 * product and a price from it (partner rows and standard rows are laid out
 * differently), and keep the rows whose vendor is not empty. Any failure while
 * fetching or loading the page leaves the result empty.
 *
 * The page and its DOM queries are abstracted: a row is the record of the texts
 * the selectors would return for it.
 */
module FetchStores {
  import opened Wrappers
  import opened JsText
  import opened PriceText

  /** What the scraper reads from one element matched by the offer-row selector. */
  datatype OfferRow = OfferRow(
    ariaLabel: Option<string>,  // the `aria-label` attribute, `None` when absent
    partnerProduct: string,     // text of the partner-layout product paragraph
    standardVendor: string,     // text of the standard-layout vendor paragraph
    standardProduct: string,    // text of the standard-layout product paragraph
    priceText: string)          // text of the price span

  /** A loaded product page, as the sequence of its offer rows in document order. */
  datatype OfferDocument = OfferDocument(rows: seq<OfferRow>)

  /** One entry of the result list (`IVendorSearchResult`); the price stays text. */
  datatype VendorResult = VendorResult(vendor: string, product: string, price: string)

  /**
   * The vendor of a partner row: `label.split(',')[0]`, the label up to its first
   * comma, or the whole label when it has none.
   */
  function PartnerVendor(attribute: string): (vendor: string)
    ensures vendor <= attribute && ',' !in vendor
    ensures |vendor| == |attribute| || attribute[|vendor|] == ','
    ensures ',' !in attribute ==> vendor == attribute
    ensures |attribute| > 0 && attribute[0] == ',' ==> vendor == ""
  {
    Split(attribute, ',')[0]
  }

  /** The record the loop body builds for one row, before the empty-vendor test. */
  function ExtractRow(row: OfferRow): VendorResult
  {
    var price := NormalisePrice(row.priceText);
    if Truthy(row.ariaLabel) then
      VendorResult(PartnerVendor(row.ariaLabel.value), row.partnerProduct, price)
    else
      VendorResult(row.standardVendor, row.standardProduct, price)
  }

  /** The list `fetchStores` has accumulated after visiting `rows`. */
  function Collected(rows: seq<OfferRow>): seq<VendorResult>
  {
    if rows == [] then []
    else
      var last := ExtractRow(rows[|rows| - 1]);
      Collected(rows[..|rows| - 1]) + (if last.vendor != "" then [last] else [])
  }

  /** Number of rows whose extracted vendor is empty. */
  function UnnamedCount(rows: seq<OfferRow>): nat
  {
    if rows == [] then 0
    else UnnamedCount(rows[..|rows| - 1]) + (if ExtractRow(rows[|rows| - 1]).vendor == "" then 1 else 0)
  }

  /**
   * The scraping loop. On a loaded page the result is the records of the rows
   * with a non-empty vendor, in row order; when the fetch or the load throws, the
   * catch block leaves the result empty.
   */
  method FetchStores(url: string, fetch: string -> Fetched<OfferDocument>)
    returns (results: seq<VendorResult>)
    ensures fetch(url).Threw? ==> results == []
    ensures fetch(url).Loaded? ==> results == Collected(fetch(url).doc.rows)
  {
    results := [];
    match fetch(url)
    case Threw =>
      results := [];
    case Loaded(doc) =>
      var rows := doc.rows;
      var i := 0;
      while i < |rows|
        invariant 0 <= i <= |rows|
        invariant results == Collected(rows[..i])
      {
        var element := rows[i];
        var attribute := element.ariaLabel;
        var vendor, price, product := "", "", "";
        if Truthy(attribute) {
          vendor := PartnerVendor(attribute.value);
          product := element.partnerProduct;
        } else {
          vendor := element.standardVendor;
          product := element.standardProduct;
        }
        price := NormalisePrice(element.priceText);
        if vendor != "" {
          results := results + [VendorResult(vendor, product, price)];
        }
        assert rows[..i + 1][..i] == rows[..i];
        i := i + 1;
      }
      assert rows[..i] == rows;
  }

  /**
   * A row takes the partner layout exactly when its label is truthy: then the
   * standard-layout texts play no part, the vendor is the label's first
   * comma-separated field and the product is the partner text; otherwise the partner texts play no part and vendor
   * and product are the standard-layout texts.
   */
  lemma LayoutChoice(row: OfferRow, vendor: string, product: string)
    ensures Truthy(row.ariaLabel) ==>
      && ExtractRow(row.(standardVendor := vendor, standardProduct := product)) == ExtractRow(row)
      && ExtractRow(row).vendor == PartnerVendor(row.ariaLabel.value)
      && ExtractRow(row).product == row.partnerProduct
    ensures !Truthy(row.ariaLabel) ==>
      && ExtractRow(row.(ariaLabel := None, partnerProduct := product)) == ExtractRow(row)
      && ExtractRow(row).vendor == row.standardVendor
      && ExtractRow(row).product == row.standardProduct
    ensures ExtractRow(row).price == NormalisePrice(row.priceText)
  {
  }

  /** An empty `aria-label` is falsy: the row is read exactly like one without the attribute. */
  lemma EmptyLabelIsStandard(row: OfferRow)
    ensures ExtractRow(row.(ariaLabel := Some(""))) == ExtractRow(row.(ariaLabel := None))
    ensures ExtractRow(row.(ariaLabel := Some(""))).vendor == row.standardVendor
  {
  }

  /** A partner row and a standard row showing the same vendor, product and price give the same record. */
  lemma LayoutsAgree(partner: OfferRow, standard: OfferRow)
    requires Truthy(partner.ariaLabel) && !Truthy(standard.ariaLabel)
    requires ',' !in partner.ariaLabel.value
    requires partner.ariaLabel.value == standard.standardVendor
    requires partner.partnerProduct == standard.standardProduct
    requires partner.priceText == standard.priceText
    ensures ExtractRow(partner) == ExtractRow(standard)
  {
  }

  /** Visiting two stretches of rows in turn collects the records of the first, then of the second. */
  lemma {:induction false} CollectedAppend(a: seq<OfferRow>, b: seq<OfferRow>)
    ensures Collected(a + b) == Collected(a) + Collected(b)
    decreases |b|
  {
    if b == [] {
      assert a + b == a;
    } else {
      var init := b[..|b| - 1];
      CollectedAppend(a, init);
      assert (a + b)[..|a + b| - 1] == a + init;
      assert (a + b)[|a + b| - 1] == b[|b| - 1];
    }
  }

  /** A single row contributes its record exactly when its vendor is non-empty. */
  lemma CollectedOne(row: OfferRow)
    ensures ExtractRow(row).vendor != "" ==> Collected([row]) == [ExtractRow(row)]
    ensures ExtractRow(row).vendor == "" ==> Collected([row]) == []
  {
    assert [row][..0] == [];
  }

  /** Every collected record has a non-empty vendor. */
  lemma {:induction false} CollectedVendorsNamed(rows: seq<OfferRow>)
    ensures forall k :: 0 <= k < |Collected(rows)| ==> Collected(rows)[k].vendor != ""
  {
    if rows != [] {
      CollectedVendorsNamed(rows[..|rows| - 1]);
    }
  }

  /** One record per named row: the dropped rows are exactly the unnamed ones. */
  lemma {:induction false} CollectedCount(rows: seq<OfferRow>)
    ensures |Collected(rows)| + UnnamedCount(rows) == |rows|
    ensures |Collected(rows)| <= |rows|
  {
    if rows != [] {
      CollectedCount(rows[..|rows| - 1]);
    }
  }

  /** A record is collected exactly when some row extracts to it and its vendor is non-empty. */
  lemma {:induction false} CollectedMembers(rows: seq<OfferRow>, rec: VendorResult)
    ensures rec in Collected(rows) <==>
      rec.vendor != "" && exists i :: 0 <= i < |rows| && ExtractRow(rows[i]) == rec
  {
    if rows != [] {
      var init := rows[..|rows| - 1];
      CollectedMembers(init, rec);
      if rec.vendor != "" && (exists i :: 0 <= i < |rows| && ExtractRow(rows[i]) == rec) {
        var i :| 0 <= i < |rows| && ExtractRow(rows[i]) == rec;
        if i < |rows| - 1 {
          assert ExtractRow(init[i]) == rec;
        }
      }
      if rec in Collected(rows) && rec !in Collected(init) {
        assert ExtractRow(rows[|rows| - 1]) == rec;
      }
      if rec in Collected(init) {
        var i :| 0 <= i < |init| && ExtractRow(init[i]) == rec;
        assert ExtractRow(rows[i]) == rec;
      }
    }
  }

  /** When every row names a vendor, nothing is dropped or truncated: one record per row, in order. */
  lemma {:induction false} NoTruncation(rows: seq<OfferRow>)
    requires forall i :: 0 <= i < |rows| ==> ExtractRow(rows[i]).vendor != ""
    ensures |Collected(rows)| == |rows|
    ensures forall i :: 0 <= i < |rows| ==> Collected(rows)[i] == ExtractRow(rows[i])
  {
    if rows != [] {
      var init := rows[..|rows| - 1];
      assert forall i :: 0 <= i < |init| ==> init[i] == rows[i];
      NoTruncation(init);
      var last := ExtractRow(rows[|rows| - 1]);
      assert Collected(rows) == Collected(init) + [last];
      forall i | 0 <= i < |rows| ensures Collected(rows)[i] == ExtractRow(rows[i]) {
        if i < |init| {
          assert Collected(rows)[i] == Collected(init)[i];
        }
      }
    }
  }
}
