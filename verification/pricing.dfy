/** Promo codes and prices. Amounts and percentages are in hundredths. */
module Pricing {
  import opened Text

  datatype Discount = Percent(rate: int) | Fixed(amount: int) | Unknown

  /** A row of promocodes. */
  datatype Promo = Promo(
    code: string, discount: Discount, expiresAt: Option<int>, active: bool, maxUses: Option<int>, usedCount: int)

  datatype Resolved = Resolved(discount: int, promo: Option<nat>) | InvalidCode

  /** round2 of the hundredths n / d: to the nearest one, halves away from zero. */
  function Round(n: int, d: int): int
    requires d > 0
  {
    if n >= 0 then (2 * n + d) / (2 * d) else -((2 * -n + d) / (2 * d))
  }

  function DiscountOn(c: Discount, price: int): int {
    match c
    case Percent(rate) => Round(price * rate, 10000)
    case Fixed(amount) => Round(amount, 1)
    case Unknown => 0
  }

  predicate Usable(p: Promo, now: int) {
    p.active && (p.expiresAt.Some? ==> now <= p.expiresAt.value)
  }

  function Charge(price: int, discount: int): int {
    if price - discount > 0 then price - discount else 0
  }

  /** Row i has the code, in the sense of the column type; the column is unique, so no other row has it. */
  predicate HasCode(promos: seq<Promo>, fold: string -> string, i: nat, code: string) {
    i < |promos| && fold(promos[i].code) == fold(code)
    && forall j :: 0 <= j < i ==> fold(promos[j].code) != fold(code)
  }

  /** What a code is worth for a price: nothing if it is blank, else the discount of its row if that is usable. */
  ghost predicate IsWorth(
    promos: seq<Promo>, fold: string -> string, code: string, price: int, now: int, r: Resolved)
  {
    if TrimSpace(code) == "" then r == Resolved(0, None)
    else
      match r
      case InvalidCode => forall i: nat :: HasCode(promos, fold, i, TrimSpace(code)) ==> !Usable(promos[i], now)
      case Resolved(discount, promo) =>
        && promo.Some? && HasCode(promos, fold, promo.value, TrimSpace(code)) && Usable(promos[promo.value], now)
        && discount == DiscountOn(promos[promo.value].discount, price)
  }

  /** The row of the code is the first one with the code; it is active, not past its expiry, and sets the discount. */
  lemma WorthMeans(promos: seq<Promo>, fold: string -> string, code: string, price: int, now: int, r: Resolved)
    requires IsWorth(promos, fold, code, price, now, r) && TrimSpace(code) != ""
    ensures r.InvalidCode? ==>
              forall i :: 0 <= i < |promos| && fold(promos[i].code) == fold(TrimSpace(code))
                          && (forall j :: 0 <= j < i ==> fold(promos[j].code) != fold(TrimSpace(code))) ==>
                            !promos[i].active || (promos[i].expiresAt.Some? && promos[i].expiresAt.value < now)
    ensures r.Resolved? ==>
              && r.promo.Some? && r.promo.value < |promos|
              && (forall j :: 0 <= j < r.promo.value ==> fold(promos[j].code) != fold(TrimSpace(code)))
              && var row := promos[r.promo.value];
                 && fold(row.code) == fold(TrimSpace(code)) && row.active
                 && (row.expiresAt.Some? ==> now <= row.expiresAt.value)
                 && match row.discount
                    case Percent(rate) =>
                      if price * rate >= 0 then -10000 < 2 * (10000 * r.discount) - 2 * (price * rate) <= 10000
                      else -10000 <= 2 * (10000 * r.discount) - 2 * (price * rate) < 10000
                    case Fixed(amount) => r.discount == amount
                    case Unknown => r.discount == 0
  {
    if r.InvalidCode? {
      forall i | 0 <= i < |promos| && fold(promos[i].code) == fold(TrimSpace(code))
                 && (forall j :: 0 <= j < i ==> fold(promos[j].code) != fold(TrimSpace(code)))
        ensures !promos[i].active || (promos[i].expiresAt.Some? && promos[i].expiresAt.value < now)
      {
        assert HasCode(promos, fold, i, TrimSpace(code));
      }
    } else {
      match promos[r.promo.value].discount
      case Percent(rate) => RoundIsNearest(price * rate, 10000);
      case Fixed(amount) => RoundIsNearest(amount, 1);
      case Unknown =>
    }
  }

  /** resolvePromo; fold maps codes that differ only in case to the same text, as the column type does. */
  method ResolvePromo(promos: seq<Promo>, fold: string -> string, code: string, price: int, now: int)
    returns (r: Resolved)
    ensures IsWorth(promos, fold, code, price, now, r)
  {
    var trimmed := TrimSpace(code);
    if trimmed == "" {
      return Resolved(0, None);
    }
    for i := 0 to |promos|
      invariant forall j :: 0 <= j < i ==> fold(promos[j].code) != fold(trimmed)
    {
      if fold(promos[i].code) == fold(trimmed) {
        if !promos[i].active || (promos[i].expiresAt.Some? && promos[i].expiresAt.value < now) {
          return InvalidCode;
        }
        return Resolved(DiscountOn(promos[i].discount, price), Some(i));
      }
    }
    r := InvalidCode;
  }

  /** Rounding errs by at most half a hundredth, and exact halves go away from zero. */
  lemma RoundIsNearest(n: int, d: int)
    requires d > 0
    ensures n >= 0 ==> -d < 2 * (d * Round(n, d)) - 2 * n <= d
    ensures n < 0 ==> -d <= 2 * (d * Round(n, d)) - 2 * n < d
  {
    var m := if n >= 0 then n else -n;
    var q := (2 * m + d) / (2 * d);
    QuotientBounds(2 * m + d, 2 * d, q);
    assert 2 * d * q == 2 * (d * q);
    if n < 0 {
      assert d * Round(n, d) == -(d * q) by {
        assert Round(n, d) == -q;
        Negated(d, q);
      }
    }
  }

  lemma QuotientBounds(a: int, b: int, q: int)
    requires b > 0 && q == a / b
    ensures b * q <= a < b * q + b
  {
  }

  lemma Negated(d: int, q: int)
    ensures d * -q == -(d * q)
  {
  }

  /** Rounding a rounded amount again changes nothing, so a preview shows what an order is charged. */
  lemma RoundTwice(n: int, d: int)
    requires d > 0
    ensures Round(Round(n, d), 1) == Round(n, d)
  {
    RoundIsNearest(Round(n, d), 1);
  }

  /** A percentage between 0 and 100 splits the price: discount and charge add up to it, and neither is negative. */
  lemma PercentSplitsPrice(price: int, rate: int)
    requires price >= 0 && 0 <= rate <= 10000
    ensures var discount := DiscountOn(Percent(rate), price);
            && 0 <= discount <= price && Charge(price, discount) == price - discount
            && -10000 < 2 * (10000 * discount) - 2 * (price * rate) <= 10000
  {
    ShareBounds(price, rate);
    RoundIsNearest(price * rate, 10000);
  }

  lemma ShareBounds(price: int, rate: int)
    requires price >= 0 && 0 <= rate <= 10000
    ensures 0 <= price * rate <= 10000 * price
  {
    assert 0 <= price * (10000 - rate) == 10000 * price - price * rate;
  }
}
