/** The page `MarketDetailPage` (limitless-market-detail-component.tsx):
    a YES panel priced with the market's YES price and a NO panel priced
    with its NO price, each wired to the page's `handleTrade` with its own
    side. The page's `console.log` output is kept as the sequence of
    (side, amount) trades it was given. */
module MarketPage {
  import opened Wrappers
  import opened Pricing
  import opened TradingPanel

  /** A trade as the page's `handleTrade` receives it. */
  datatype Trade = Trade(side: Side, amount: real)

  function Other(s: Side): (o: Side)
    ensures o != s
  {
    if s == Yes then No else Yes
  }

  /** The amounts of the trades on one side, in order. */
  function AmountsFor(log: seq<Trade>, s: Side): (r: seq<real>)
    ensures |r| <= |log|
    ensures forall x :: x in r ==> Trade(s, x) in log
  {
    if log == [] then []
    else AmountsFor(log[..|log| - 1], s) + (if log[|log| - 1].side == s then [log[|log| - 1].amount] else [])
  }

  /** A trade logged on one side adds its amount to that side's trades and
      leaves the other side's alone. */
  lemma AmountsForAppend(log: seq<Trade>, t: Trade)
    ensures AmountsFor(log + [t], t.side) == AmountsFor(log, t.side) + [t.amount]
    ensures AmountsFor(log + [t], Other(t.side)) == AmountsFor(log, Other(t.side))
  {
    assert (log + [t])[..|log|] == log;
  }

  class MarketDetailPage {
    const market: Market
    const yesCard: TradingCard
    const noCard: TradingCard
    /** The trades the page's `handleTrade` has logged, oldest first. */
    var log: seq<Trade>

    /** The panel of one side. */
    function Card(s: Side): TradingCard
    {
      if s == Yes then yesCard else noCard
    }

    /** The wiring: two distinct panels, each with its own side and price,
        and the page's log holding exactly what each panel reported, tagged
        with that panel's side. */
    ghost predicate Valid()
      reads this, yesCard, noCard
    {
      yesCard != noCard &&
      yesCard.side == Yes && yesCard.price == market.yesPrice &&
      noCard.side == No && noCard.price == market.noPrice &&
      AmountsFor(log, Yes) == yesCard.reported &&
      AmountsFor(log, No) == noCard.reported
    }

    constructor (market: Market)
      ensures Valid() && this.market == market && log == []
      ensures fresh(yesCard) && fresh(noCard)
      ensures yesCard.State() == Initial() && noCard.State() == Initial()
    {
      this.market := market;
      yesCard := new TradingCard(Yes, market.yesPrice);
      noCard := new TradingCard(No, market.noPrice);
      log := [];
    }

    /** A preset click on one side's panel. */
    method SelectPreset(side: Side, amount: Preset)
      requires Valid()
      modifies Card(side)
      ensures Valid()
      ensures Card(side).State() == Step(old(Card(side).State()), ChoosePreset(amount))
      ensures unchanged(Card(Other(side)))
    {
      Card(side).SelectPreset(amount);
    }

    /** A typed amount on one side's panel. */
    method SetCustom(side: Side, value: real)
      requires Valid()
      modifies Card(side)
      ensures Valid()
      ensures Card(side).State() == Step(old(Card(side).State()), EnterCustom(value))
      ensures unchanged(Card(Other(side)))
    {
      Card(side).SetCustom(value);
    }

    /** A click on one side's trade button. */
    method Submit(side: Side) returns (accepted: bool)
      requires Valid()
      modifies Card(side)
      ensures Valid()
      ensures accepted == !old(Card(side).isLoading)
      ensures Card(side).State() == Step(old(Card(side).State()), Event.Submit)
      ensures unchanged(Card(Other(side)))
    {
      accepted := Card(side).Submit();
    }

    /** One side's timer fires; what its panel reports reaches the page's
        `handleTrade` tagged with that panel's side. */
    method Settle(side: Side) returns (trade: Option<Trade>)
      requires Valid()
      modifies this, Card(side)
      ensures Valid()
      ensures trade.Some? == old(Card(side).isLoading)
      ensures trade.Some? ==> trade.value == Trade(side, old(Card(side).inFlight))
      ensures log == old(log) + (if trade.Some? then [trade.value] else [])
      ensures Card(side).State() == Step(old(Card(side).State()), Event.Settle)
      ensures unchanged(Card(Other(side)))
    {
      var card := Card(side);
      var amount := card.Settle();
      if amount.Some? {
        trade := Some(Trade(side, amount.value));
        AmountsForAppend(log, trade.value);
        log := log + [trade.value];
      } else {
        trade := None;
      }
    }
  }

  /** A walk through the page: on a market priced 0.68 / 0.32, choose the $50
      preset on the YES panel, see its winnings, trade, change the stake while
      the trade is pending, and settle: the page logs (YES, 50) and the NO
      panel is untouched. */
  method ScenarioYesFifty()
  {
    var page := new MarketDetailPage(Market(0.68, 0.32));
    page.SelectPreset(Yes, 50.0);
    var w := page.yesCard.PotentialWinnings();
    assert w == Some(50.0 / 0.68);
    WinningsAgainstStake(50.0, 0.68);
    assert w.value > 50.0;
    var accepted := page.Submit(Yes);
    assert accepted && page.yesCard.isLoading;
    var again := page.Submit(Yes);
    assert !again;
    page.SetCustom(Yes, 5.0);
    var trade := page.Settle(Yes);
    assert trade == Some(Trade(Yes, 50.0));
    assert page.log == [Trade(Yes, 50.0)];
    assert !page.yesCard.isLoading && page.yesCard.selectedAmount == 5.0;
    assert page.noCard.State() == Initial();
  }
}
