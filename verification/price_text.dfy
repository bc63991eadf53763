/**
 * Normalisation of the price text of one offer row (`src/index.ts`, lines 114-118):
 * remove the first `fr.` ("from"), drop the last three characters (the ` kr`
 * currency suffix), then remove the first space. The result is still text; no
 * number is parsed.
 */
module PriceText {
  import opened JsText

  /** The "starting from" marker the site puts in front of some prices. */
  const FromMarker: string := "fr."

  /** Number of trailing characters dropped as the currency suffix. */
  const SuffixLength: nat := 3

  /** Every character of `s` is a decimal digit. */
  predicate IsDigits(s: string)
  {
    forall i :: 0 <= i < |s| ==> '0' <= s[i] <= '9'
  }

  /**
   * The price text chain of lines 114-118. Its result never exceeds the input
   * length minus the suffix, and is `""` when the input is shorter than the suffix.
   */
  function NormalisePrice(text: string): (price: string)
    ensures |text| >= SuffixLength ==> |price| <= |text| - SuffixLength
    ensures |text| <= SuffixLength ==> price == ""
  {
    var unmarked := Replace(text, FromMarker, "");
    var trimmed := Slice(unmarked, 0, -(SuffixLength as int));
    Replace(trimmed, " ", "")
  }

  /** A pattern whose first character is absent from `s` occurs nowhere in `s`. */
  lemma NoOccurrenceWithout(s: string, pat: string)
    requires |pat| > 0 && pat[0] !in s
    ensures forall j: nat :: !OccursAt(s, pat, j)
  {
    forall j: nat ensures !OccursAt(s, pat, j) {
      if j + |pat| <= |s| {
        assert s[j..j + |pat|][0] == s[j];
      }
    }
  }

  /** In `prefix + " " + rest` with a space-free prefix, the first space follows the prefix. */
  lemma FirstSpaceAfter(prefix: string, rest: string)
    requires ' ' !in prefix
    ensures FirstOccurrence(prefix + " " + rest, " ", |prefix|)
  {
    var s := prefix + " " + rest;
    assert s[|prefix|..|prefix| + 1] == " ";
    forall j: nat | j < |prefix| ensures !OccursAt(s, " ", j) {
      assert s[j..j + 1][0] == prefix[j];
    }
  }

  /** Removing the first space of `prefix + " " + rest`, with a space-free prefix, joins the two. */
  lemma SpaceRemoved(prefix: string, rest: string)
    requires ' ' !in prefix
    ensures Replace(prefix + " " + rest, " ", "") == prefix + rest
  {
    var s := prefix + " " + rest;
    FirstSpaceAfter(prefix, rest);
    assert s[..|prefix|] == prefix;
    assert s[|prefix| + 1..] == rest;
  }

  /** Removing the first space of `" " + rest` leaves `rest`. */
  lemma DropLeadingSpace(rest: string)
    ensures Replace(" " + rest, " ", "") == rest
  {
    FirstSpaceAfter("", rest);
    assert "" + " " + rest == " " + rest;
  }

  /**
   * A "from" price `fr. <amount> kr` normalises to the amount exactly as it stands:
   * the space removed is the one after the marker, so spaces inside it are kept.
   */
  lemma {:induction false} FromPrice(amount: string)
    ensures NormalisePrice("fr. " + amount + " kr") == amount
  {
    var text := "fr. " + amount + " kr";
    assert FirstOccurrence(text, FromMarker, 0) by {
      assert text[0..3] == FromMarker;
    }
    var unmarked := " " + amount + " kr";
    assert Replace(text, FromMarker, "") == unmarked by {
      assert text[3..] == unmarked;
    }
    SliceDropsTail(unmarked, SuffixLength);
    assert unmarked[..|unmarked| - 3] == " " + amount;
    DropLeadingSpace(amount);
  }

  /** A digit string contains no character outside `0`-`9`. */
  lemma DigitsLack(s: string, c: char)
    requires IsDigits(s) && !('0' <= c <= '9')
    ensures c !in s
  {
    forall i | 0 <= i < |s| ensures s[i] != c { }
  }

  /** Without a `fr.` marker, the ` kr` suffix is dropped and the first space of the amount removed. */
  lemma {:induction false} UnmarkedPrice(amount: string)
    requires forall j: nat :: !OccursAt(amount + " kr", FromMarker, j)
    ensures NormalisePrice(amount + " kr") == Replace(amount, " ", "")
  {
    var text := amount + " kr";
    SliceDropsTail(text, SuffixLength);
    assert text[..|text| - 3] == amount;
  }

  /** A plain price without thousands separator, `299 kr`, normalises to its digits. */
  lemma {:induction false} PlainPrice(amount: string)
    requires IsDigits(amount)
    ensures NormalisePrice(amount + " kr") == amount
  {
    DigitsLack(amount, 'f');
    DigitsLack(amount, ' ');
    assert 'f' !in amount + " kr";
    NoOccurrenceWithout(amount + " kr", FromMarker);
    UnmarkedPrice(amount);
    NoOccurrenceWithout(amount, " ");
  }

  /**
   * Only the FIRST space is removed. With a space as thousands separator, a plain
   * price loses the separator (`1 299 kr` gives `1299`), but a "from" price keeps
   * it (`fr. 1 299 kr` gives `1 299`), because the space after `fr.` is the one removed.
   */
  lemma {:induction false} ThousandsSeparator(high: string, low: string)
    requires IsDigits(high) && IsDigits(low)
    ensures NormalisePrice(high + " " + low + " kr") == high + low
    ensures NormalisePrice("fr. " + high + " " + low + " kr") == high + " " + low
  {
    var amount := high + " " + low;
    FromPrice(amount);
    assert "fr. " + amount + " kr" == "fr. " + high + " " + low + " kr";
    DigitsLack(high, 'f');
    DigitsLack(low, 'f');
    DigitsLack(high, ' ');
    assert 'f' !in amount + " kr";
    NoOccurrenceWithout(amount + " kr", FromMarker);
    UnmarkedPrice(amount);
    SpaceRemoved(high, low);
  }

  /**
   * The chain is not idempotent on digit strings: a bare amount loses its last
   * three digits, so normalising an already normalised price changes it.
   */
  lemma {:induction false} DigitsLoseSuffix(amount: string)
    requires IsDigits(amount)
    ensures |amount| >= SuffixLength ==> NormalisePrice(amount) == amount[..|amount| - SuffixLength]
    ensures |amount| > 0 ==> NormalisePrice(amount) != amount
  {
    assert 'f' !in amount by {
      forall i | 0 <= i < |amount| ensures amount[i] != 'f' { }
    }
    NoOccurrenceWithout(amount, FromMarker);
    SliceDropsTail(amount, SuffixLength);
    var trimmed := if |amount| >= 3 then amount[..|amount| - 3] else "";
    assert ' ' !in trimmed by {
      forall i | 0 <= i < |trimmed| ensures trimmed[i] != ' ' {
        assert trimmed[i] == amount[i];
      }
    }
    NoOccurrenceWithout(trimmed, " ");
  }
}
