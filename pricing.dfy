/** The price model of a binary prediction market: display percentages,
    the probability bar and the payout a stake buys
    (limitless-market-detail-component.tsx). Prices and stakes are `real`,
    so IEEE-754 rounding of `/` and `*` is not part of the model. */
module Pricing {
  import opened Wrappers

  /** The part of a market record the page logic reads; question, category,
      volume and the other display fields are opaque to it. */
  datatype Market = Market(yesPrice: real, noPrice: real)

  /** JavaScript's `Math.round`: the nearest integer, halves going up. */
  function Round(x: real): (r: int)
    ensures x - 0.5 < r as real <= x + 0.5
  {
    (x + 0.5).Floor
  }

  /** The contract of `Round` pins its result down: no other integer lies
      in the half-open window around `x`. */
  lemma RoundUnique(x: real, k: int)
    requires x - 0.5 < k as real <= x + 0.5
    ensures k == Round(x)
  {
  }

  lemma RoundMonotone(x: real, y: real)
    requires x <= y
    ensures Round(x) <= Round(y)
  {
  }

  /** The fractional part of `x`, in [0, 1). */
  function Frac(x: real): (f: real)
    ensures 0.0 <= f < 1.0
    ensures (x - f).Floor as real == x - f
  {
    x - x.Floor as real
  }

  /** The percentage label of one side of the probability bar:
      `Math.round(price * 100)`. */
  function DisplayPercent(price: real): (r: int)
    ensures price * 100.0 - 0.5 < r as real <= price * 100.0 + 0.5
  {
    Round(price * 100.0)
  }

  /** A price in [0, 1] is labelled with a percentage in [0, 100]. */
  lemma PercentInRange(price: real)
    requires 0.0 <= price <= 1.0
    ensures 0 <= DisplayPercent(price) <= 100
  {
  }

  /** Complementary prices are rounded independently, so their labels add
      up to 100 or 101 and to nothing else. */
  lemma PercentsOfComplementaryPrices(yes: real, no: real)
    requires yes + no == 1.0
    ensures DisplayPercent(yes) + DisplayPercent(no) in {100, 101}
  {
  }

  /** Exactly when the YES percentage has a fractional part of one half do
      both labels round up and overshoot to 101. */
  lemma PercentsSumTo101Iff(yes: real, no: real)
    requires yes + no == 1.0
    ensures DisplayPercent(yes) + DisplayPercent(no) == 101 <==> Frac(yes * 100.0) == 0.5
    ensures DisplayPercent(yes) + DisplayPercent(no) != 101 ==> DisplayPercent(yes) + DisplayPercent(no) == 100
  {
    var a := yes * 100.0;
    var b := no * 100.0;
    var fa := a.Floor;
    var f := Frac(a);
    assert a == fa as real + f;
    assert b == 100.0 - fa as real - f;
    if f < 0.5 {
      RoundUnique(a, fa);
      RoundUnique(b, 100 - fa);
    } else if f == 0.5 {
      RoundUnique(a, fa + 1);
      RoundUnique(b, 100 - fa);
    } else {
      RoundUnique(a, fa + 1);
      RoundUnique(b, 99 - fa);
    }
  }

  /** The width, in percent of the bar, of one side's region: `price * 100`. */
  function BarWidth(price: real): (w: real)
    ensures 0.0 <= price <= 1.0 ==> 0.0 <= w <= 100.0
    ensures w / 100.0 == price
  {
    price * 100.0
  }

  /** The two regions exactly fill the bar if and only if the prices are
      complementary. */
  lemma BarWidthsFill(yes: real, no: real)
    ensures BarWidth(yes) + BarWidth(no) == 100.0 <==> yes + no == 1.0
  {
  }

  /** What the probability bar shows for a market. */
  datatype ProbabilityBar = ProbabilityBar(yesWidth: real, yesPercent: int, noWidth: real, noPercent: int)

  /** The bar of `MarketInfo`: each side sized and labelled by its own price,
      with no clamping and no cross-check between the two prices. */
  function MarketInfo(m: Market): (b: ProbabilityBar)
    ensures b.yesWidth / 100.0 == m.yesPrice && b.noWidth / 100.0 == m.noPrice
    ensures b.yesPercent == DisplayPercent(m.yesPrice) && b.noPercent == DisplayPercent(m.noPrice)
    ensures b.yesWidth + b.noWidth == 100.0 <==> m.yesPrice + m.noPrice == 1.0
    ensures m.yesPrice + m.noPrice == 1.0 ==> b.yesPercent + b.noPercent in {100, 101}
    ensures 0.0 <= m.yesPrice <= 1.0 ==> 0 <= b.yesPercent <= 100
    ensures 0.0 <= m.noPrice <= 1.0 ==> 0 <= b.noPercent <= 100
    ensures b.yesWidth - 0.5 < b.yesPercent as real <= b.yesWidth + 0.5
    ensures b.noWidth - 0.5 < b.noPercent as real <= b.noWidth + 0.5
  {
    ProbabilityBar(BarWidth(m.yesPrice), DisplayPercent(m.yesPrice), BarWidth(m.noPrice), DisplayPercent(m.noPrice))
  }

  /** `calculateWinnings`: a share costs `price` and pays $1 if the side
      wins, so a stake buys `amount / price` shares, worth that many dollars.
      At price 0 JavaScript's division gives a non-finite number (`Infinity`,
      `-Infinity` for a negative stake, or `NaN` for a zero stake), modelled
      as `None`. */
  function CalculateWinnings(amount: real, price: real): (w: Option<real>)
    ensures w.Some? <==> price != 0.0
    ensures w.Some? ==> w.value * price == amount
  {
    if price == 0.0 then None else Some(amount / price)
  }

  /** Multiplying by a positive number keeps the order of reals. */
  lemma ScaleKeepsOrder(x: real, y: real, c: real)
    requires c > 0.0
    ensures x < y <==> x * c < y * c
    ensures x == y <==> x * c == y * c
  {
    if x < y {
      assert (y - x) * c > 0.0;
    } else if y < x {
      assert (x - y) * c > 0.0;
    }
  }

  /** A positive stake on a side priced in (0, 1) wins strictly more than it
      risks; at price 1 it only breaks even, and above 1 it loses. */
  lemma WinningsAgainstStake(amount: real, price: real)
    requires amount > 0.0 && price > 0.0
    ensures CalculateWinnings(amount, price).Some?
    ensures CalculateWinnings(amount, price).value > amount <==> price < 1.0
    ensures CalculateWinnings(amount, price).value == amount <==> price == 1.0
  {
    var w := CalculateWinnings(amount, price).value;
    // w > amount  iff  w * price > amount * price  iff  amount > amount * price  iff  1 > price
    ScaleKeepsOrder(amount, w, price);
    ScaleKeepsOrder(price, 1.0, amount);
  }

  /** The cheaper the side, the more a positive stake wins. */
  lemma WinningsDecreaseWithPrice(amount: real, p: real, q: real)
    requires amount > 0.0 && 0.0 < p < q
    ensures CalculateWinnings(amount, p).value > CalculateWinnings(amount, q).value
  {
    var wp := CalculateWinnings(amount, p).value;
    var wq := CalculateWinnings(amount, q).value;
    assert wp * p == amount && wq * q == amount;
    assert wq > 0.0;
    // wq * p < wq * q == amount == wp * p, so wq < wp
    ScaleKeepsOrder(p, q, wq);
    assert p * wq < q * wq;
    assert wq * p < wp * p;
    ScaleKeepsOrder(wq, wp, p);
  }
}
