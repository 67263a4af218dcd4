/** The order-entry panel `TradingCard` (limitless-market-detail-component.tsx):
    a chosen stake, set by preset buttons or free entry, and a loading flag
    that lets only one simulated trade be in flight at a time.

    `Panel` and `Step` are the specification: the panel's state as a value
    and the effect of each user or scheduler event on it. The class
    `TradingCard` holds the same state in mutable fields, as the component's
    `useState` hooks do, and each of its methods is proved to perform one
    `Step`. The 1000 ms `setTimeout` round trip of `handleTrade` is split
    into two events: `Submit` (the click) and `Settle` (the timer firing). */
module TradingPanel {
  import opened Wrappers
  import opened Pricing

  /** Which outcome a panel buys. */
  datatype Side = Yes | No

  /** The amounts offered as preset buttons. */
  type Preset = a: real | a == 10.0 || a == 50.0 || a == 100.0 witness 10.0

  const Presets: seq<Preset> := [10.0, 50.0, 100.0]

  /** The buttons offer every preset amount, each once. */
  lemma PresetsListed(a: Preset)
    ensures a in Presets
    ensures |Presets| == 3 && Presets[0] < Presets[1] < Presets[2]
  {
  }

  /** The stake a freshly mounted panel starts with. */
  const DefaultStake: real := 10.0

  /** What can happen to a panel: a preset click, a change of the amount
      field (carrying the number `Number(...)` parsed from it, unvalidated),
      a click on the trade button, and the simulated round trip completing. */
  datatype Event = ChoosePreset(preset: Preset) | EnterCustom(value: real) | Submit | Settle

  /** A panel's state: the stake, the amount captured by a trade in flight
      (present exactly while the panel is loading), and the amounts handed to
      `onTrade` so far, oldest first. */
  datatype Panel = Panel(selectedAmount: real, pending: Option<real>, reported: seq<real>)
  {
    predicate IsLoading() { pending.Some? }
  }

  function Initial(): Panel
  {
    Panel(DefaultStake, None, [])
  }

  /** The amounts that are in flight, as a sequence of zero or one. */
  function InFlight(p: Panel): seq<real>
  {
    if p.pending.Some? then [p.pending.value] else []
  }

  /** One event. The trade button is disabled while loading, so a click then
      does nothing; the timer is only armed by an accepted click, so a
      `Settle` with nothing in flight does nothing either. */
  function Step(p: Panel, e: Event): (q: Panel)
    ensures q.IsLoading() <==> e.Submit? || (p.IsLoading() && !e.Settle?)
    ensures q.selectedAmount == if IsStakeEdit(e) then StakeOf(e) else p.selectedAmount
    ensures q.reported == if e.Settle? then p.reported + InFlight(p) else p.reported
  {
    match e
    case ChoosePreset(a) => p.(selectedAmount := a)
    case EnterCustom(v) => p.(selectedAmount := v)
    case Submit => if p.IsLoading() then p else p.(pending := Some(p.selectedAmount))
    case Settle =>
      if p.pending.Some? then Panel(p.selectedAmount, None, p.reported + [p.pending.value]) else p
  }

  /** A sequence of events, in order. */
  function Run(p: Panel, evs: seq<Event>): (r: Panel)
    ensures p.reported <= r.reported
    ensures |p.reported| <= |r.reported| <= |p.reported| + |evs|
    ensures evs != [] && evs[|evs| - 1].Submit? ==> r.IsLoading()
    decreases |evs|
  {
    if evs == [] then p else Run(Step(p, evs[0]), evs[1..])
  }

  predicate IsStakeEdit(e: Event)
  {
    e.ChoosePreset? || e.EnterCustom?
  }

  /** The stake a stake edit writes. */
  function StakeOf(e: Event): real
    requires IsStakeEdit(e)
  {
    if e.ChoosePreset? then e.preset else e.value
  }

  predicate AllStakeEdits(evs: seq<Event>)
  {
    forall i :: 0 <= i < |evs| ==> IsStakeEdit(evs[i])
  }

  /** The number of clicks on the trade button in a sequence of events. */
  function CountSubmits(evs: seq<Event>): (n: nat)
    ensures n <= |evs|
    ensures n == 0 <==> forall i :: 0 <= i < |evs| ==> !evs[i].Submit?
  {
    if evs == [] then 0 else (if evs[0].Submit? then 1 else 0) + CountSubmits(evs[1..])
  }

  /** The stakes captured by the clicks that were accepted, i.e. that came
      while the panel was not loading, in order. */
  function Captures(p: Panel, evs: seq<Event>): seq<real>
    decreases |evs|
  {
    if evs == [] then []
    else (if evs[0].Submit? && !p.IsLoading() then [p.selectedAmount] else [])
         + Captures(Step(p, evs[0]), evs[1..])
  }

  lemma {:induction false} RunAppend(p: Panel, a: seq<Event>, b: seq<Event>)
    ensures Run(p, a + b) == Run(Run(p, a), b)
    decreases |a|
  {
    if a == [] {
      assert a + b == b;
    } else {
      assert (a + b)[1..] == a[1..] + b;
      RunAppend(Step(p, a[0]), a[1..], b);
    }
  }

  /** A preset or a typed amount replaces the stake and touches neither the
      loading flag, nor the trade in flight, nor what was reported. */
  lemma StakeEditKeepsSubmission(p: Panel, e: Event)
    requires IsStakeEdit(e)
    ensures Step(p, e) == Panel(StakeOf(e), p.pending, p.reported)
  {
  }

  /** Choosing the same preset twice is the same as choosing it once. */
  lemma PresetIdempotent(p: Panel, a: Preset)
    ensures Step(Step(p, ChoosePreset(a)), ChoosePreset(a)) == Step(p, ChoosePreset(a))
  {
  }

  /** After any non-empty run of stake edits the stake is the one the last
      edit wrote, whatever was chosen or typed before it. */
  lemma {:induction false} LastWriteWins(p: Panel, edits: seq<Event>)
    requires |edits| > 0 && AllStakeEdits(edits)
    ensures Run(p, edits) == Panel(StakeOf(edits[|edits| - 1]), p.pending, p.reported)
    decreases |edits|
  {
    assert IsStakeEdit(edits[0]);
    if |edits| > 1 {
      assert AllStakeEdits(edits[1..]) by {
        forall i | 0 <= i < |edits[1..]| ensures IsStakeEdit(edits[1..][i]) {
          assert edits[1..][i] == edits[i + 1];
        }
      }
      LastWriteWins(Step(p, edits[0]), edits[1..]);
    }
  }

  /** Stake edits, however many, leave the submission state alone. */
  lemma {:induction false} EditsKeepSubmission(p: Panel, edits: seq<Event>)
    requires AllStakeEdits(edits)
    ensures Run(p, edits).pending == p.pending && Run(p, edits).reported == p.reported
  {
    if |edits| > 0 {
      LastWriteWins(p, edits);
    }
  }

  /** Single flight: a click while loading is ignored, so clicking twice is
      clicking once. */
  lemma SubmitWhileLoadingIgnored(p: Panel)
    requires p.IsLoading()
    ensures Step(p, Submit) == p
  {
  }

  lemma DoubleSubmitIsSingle(p: Panel)
    ensures Step(Step(p, Submit), Submit) == Step(p, Submit)
  {
  }

  /** Snapshot isolation: a trade submitted from an idle panel reports, when
      it settles, exactly the stake the panel had at the click, whatever the
      user chose or typed meanwhile; the panel is idle again and keeps the
      new stake. */
  lemma {:induction false} SnapshotIsolation(p: Panel, edits: seq<Event>)
    requires !p.IsLoading() && AllStakeEdits(edits)
    ensures Run(p, [Submit] + edits + [Settle]).reported == p.reported + [p.selectedAmount]
    ensures !Run(p, [Submit] + edits + [Settle]).IsLoading()
    ensures Run(p, [Submit] + edits + [Settle]).selectedAmount == Run(p, edits).selectedAmount
  {
    var submitted := Step(p, Submit);
    assert Run(p, [Submit]) == submitted;
    RunAppend(p, [Submit], edits);
    RunAppend(p, [Submit] + edits, [Settle]);
    var mid := Run(submitted, edits);
    EditsKeepSubmission(submitted, edits);
    assert mid.pending == Some(p.selectedAmount);
    assert Run(mid, [Settle]) == Step(mid, Settle);
    if |edits| > 0 {
      LastWriteWins(submitted, edits);
      LastWriteWins(p, edits);
    } else {
      assert Run(p, edits) == p;
    }
  }

  /** Exactly once, in order: over any sequence of events, every accepted
      click is either reported once with the stake it captured or is still
      in flight, and nothing else is ever reported. */
  lemma {:induction false} ReportsAreCaptures(p: Panel, evs: seq<Event>)
    ensures Run(p, evs).reported + InFlight(Run(p, evs)) == p.reported + InFlight(p) + Captures(p, evs)
    decreases |evs|
  {
    if evs != [] {
      var q := Step(p, evs[0]);
      ReportsAreCaptures(q, evs[1..]);
      var c := if evs[0].Submit? && !p.IsLoading() then [p.selectedAmount] else [];
      assert q.reported + InFlight(q) == p.reported + InFlight(p) + c;
      assert Captures(p, evs) == c + Captures(q, evs[1..]);
    }
  }

  /** No more trades are accepted than there were clicks. */
  lemma {:induction false} CapturesBoundedBySubmits(p: Panel, evs: seq<Event>)
    ensures |Captures(p, evs)| <= CountSubmits(evs)
    decreases |evs|
  {
    if evs != [] {
      CapturesBoundedBySubmits(Step(p, evs[0]), evs[1..]);
    }
  }

  /** What has been reported is never taken back. */
  lemma {:induction false} ReportsOnlyGrow(p: Panel, evs: seq<Event>)
    ensures p.reported <= Run(p, evs).reported
    decreases |evs|
  {
    if evs != [] {
      ReportsOnlyGrow(Step(p, evs[0]), evs[1..]);
    }
  }

  /** One trading panel, with its side and price fixed at mount. */
  class TradingCard {
    const side: Side
    const price: real
    var selectedAmount: real
    var isLoading: bool
    /** The stake captured by the `handleTrade` call that is waiting on its
        timer; meaningful only while `isLoading`. */
    var inFlight: real
    /** The arguments of the `onTrade` calls made so far. */
    var reported: seq<real>

    /** The panel's state as a specification value. */
    function State(): Panel
      reads this
    {
      Panel(selectedAmount, if isLoading then Some(inFlight) else None, reported)
    }

    /** A freshly mounted panel: stake 10, not loading, nothing reported. */
    constructor (side: Side, price: real)
      ensures this.side == side && this.price == price
      ensures selectedAmount == DefaultStake && !isLoading && reported == []
      ensures State() == Initial()
    {
      this.side := side;
      this.price := price;
      selectedAmount := DefaultStake;
      isLoading := false;
      inFlight := 0.0;
      reported := [];
    }

    /** The winnings shown under the button for the current stake. */
    function PotentialWinnings(): (w: Option<real>)
      reads this
      ensures w.Some? <==> price != 0.0
      ensures w.Some? ==> w.value * price == selectedAmount
    {
      CalculateWinnings(selectedAmount, price)
    }

    /** A click on a preset button. */
    method SelectPreset(amount: Preset)
      modifies this
      ensures selectedAmount == amount
      ensures isLoading == old(isLoading) && inFlight == old(inFlight) && reported == old(reported)
      ensures State() == Step(old(State()), ChoosePreset(amount))
    {
      selectedAmount := amount;
    }

    /** A change of the amount field, with the number parsed from it. */
    method SetCustom(value: real)
      modifies this
      ensures selectedAmount == value
      ensures isLoading == old(isLoading) && inFlight == old(inFlight) && reported == old(reported)
      ensures State() == Step(old(State()), EnterCustom(value))
    {
      selectedAmount := value;
    }

    /** A click on the trade button: ignored while loading (the button is
        disabled), otherwise `handleTrade` captures the stake, sets the
        loading flag and starts waiting. */
    method Submit() returns (accepted: bool)
      modifies this
      ensures accepted == !old(isLoading)
      ensures isLoading && selectedAmount == old(selectedAmount) && reported == old(reported)
      ensures inFlight == if accepted then old(selectedAmount) else old(inFlight)
      ensures State() == Step(old(State()), Event.Submit)
    {
      accepted := !isLoading;
      if accepted {
        inFlight := selectedAmount;
        isLoading := true;
      }
    }

    /** The timer fires: `onTrade` is called with the captured stake, which
        is returned, and the loading flag is cleared. */
    method Settle() returns (traded: Option<real>)
      modifies this
      ensures traded.Some? == old(isLoading)
      ensures traded.Some? ==> traded.value == old(inFlight) && reported == old(reported) + [traded.value]
      ensures traded.None? ==> reported == old(reported)
      ensures !isLoading && selectedAmount == old(selectedAmount) && inFlight == old(inFlight)
      ensures State() == Step(old(State()), Event.Settle)
    {
      if isLoading {
        traded := Some(inFlight);
        reported := reported + [inFlight];
        isLoading := false;
      } else {
        traded := None;
      }
    }
  }
}
