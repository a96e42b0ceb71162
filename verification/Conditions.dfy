/** When an observation meets a monitor's condition, said independently of the branches that decide it. */
module Conditions {
  import opened Rows
  import opened Texts
  import opened Transactions

  predicate CaseOf(upper: char, lower: char) {
    'A' <= upper <= 'Z' && lower as int == upper as int + 32
  }

  /** Equal but for the case of letters. */
  predicate SameLetters(a: string, b: string) {
    |a| == |b| && forall i :: 0 <= i < |a| ==> a[i] == b[i] || CaseOf(a[i], b[i]) || CaseOf(b[i], a[i])
  }

  /** The condition sets a limit, and price, currency and stock keep to it; `priceBelow` is strict and takes precedence. */
  predicate Meets(c: Condition, price: int, currency: string, inStock: bool) {
    && c.Condition? && (c.priceBelow.Some? || c.maxPrice.Some?)
    && (c.currency == "" || SameLetters(c.currency, currency))
    && (c.requireInStock ==> inStock)
    && (c.priceBelow.Some? ==> price < c.priceBelow.value)
    && (c.priceBelow.None? ==> price <= c.maxPrice.value)
  }

  lemma FoldIsSameLetters(a: string, b: string)
    ensures EqualFold(a, b) <==> SameLetters(a, b)
  {
    if |a| == |b| {
      forall i | 0 <= i < |a| ensures UpperChar(a[i]) == UpperChar(b[i]) <==> a[i] == b[i] || CaseOf(a[i], b[i]) || CaseOf(b[i], a[i]) {
        FoldChar(a[i], b[i]);
      }
    }
  }

  lemma FoldChar(a: char, b: char)
    ensures UpperChar(a) == UpperChar(b) <==> a == b || CaseOf(a, b) || CaseOf(b, a)
  {
  }

  /** The branches of MatchesCondition decide exactly this. */
  lemma MatchIsMeets(c: Condition, o: ResultObservation)
    ensures MatchesCondition(c, o) <==> Meets(c, o.priceMinor, o.currency, o.inStock)
  {
    hide EqualFold, SameLetters;
    if c.Condition? {
      FoldIsSameLetters(c.currency, o.currency);
    }
  }

  /** Cheaper still matches; the strict limit excludes itself, the inclusive one does not. */
  lemma PriceLaws(c: Condition, price: int, lower: int, currency: string, inStock: bool)
    ensures Meets(c, price, currency, inStock) && lower <= price ==> Meets(c, lower, currency, inStock)
    ensures c.Condition? && c.priceBelow == Some(price) ==> !Meets(c, price, currency, inStock)
    ensures c.Condition? && c.priceBelow.None? && c.maxPrice == Some(price) && Meets(c, lower, currency, inStock) ==> Meets(c, price, currency, inStock)
  {
  }
}
