/** DCv2's exit that is retried on every tick until the buy-back goes through. */
module Dcv2Exit {
  import opened Common
  import opened Exchange
  import opened OptionsExecutor

  datatype ExitState = ExitState(book: Book, tracked: Option<int>, size: int, pending: Option<string>)

  function CloseLegSpec(s: ExitState, reason: string, fate: Fate): ExitState {
    if s.tracked.None? then s
    else
      var book := if fate.reaches then BuyReduceOnly(s.book, s.tracked.value, s.size) else s.book;
      if fate.reaches && fate.replies then ExitState(book, None, 0, None)
      else ExitState(book, s.tracked, s.size, Some(reason))
  }

  function RetrySpec(s: ExitState, fate: Fate): ExitState {
    if s.pending.None? then s
    else if s.tracked.None? then s.(pending := None)
    else CloseLegSpec(s, s.pending.value, fate)
  }

  function Retries(s: ExitState, fates: seq<Fate>): ExitState {
    if fates == [] then s else RetrySpec(Retries(s, fates[..|fates| - 1]), fates[|fates| - 1])
  }

  class Dcv2Engine {
    const executor: OptionsExecutor
    const venue: Venue
    var exitPending: Option<string>
    var closing: bool
    var entryPremium: Option<real>

    constructor (executor: OptionsExecutor)
      ensures this.executor == executor && Valid() && exitPending == None
    {
      this.executor, this.venue := executor, executor.venue;
      exitPending, closing, entryPremium := None, false, None;
    }

    ghost predicate Valid() reads this { venue == executor.venue && !closing }

    ghost function View(): ExitState
      reads this, executor, venue
    {
      ExitState(venue.book, executor.productId, executor.size, exitPending)
    }

    method CloseLeg(reason: string, fate: Fate)
      requires Valid()
      modifies this, executor, venue
      ensures Valid() && View() == CloseLegSpec(old(View()), reason, fate)
      ensures old(executor.productId).Some? ==>
        if executor.productId.None? then exitPending == None && entryPremium == None
        else exitPending == Some(reason) && entryPremium == old(entryPremium)
    {
      if closing || executor.productId.None? { return; }
      closing := true;
      var raised, _ := executor.CloseOption(fate);
      if raised {
        exitPending := Some(reason);
      } else {
        exitPending, entryPremium := None, None;
      }
      closing := false;
    }

    method RetryPendingExit(fate: Fate) returns (busy: bool)
      requires Valid()
      modifies this, executor, venue
      ensures Valid() && View() == RetrySpec(old(View()), fate)
      ensures busy == (old(exitPending).Some? && old(executor.productId).Some?)
    {
      if exitPending.None? { return false; }
      if executor.productId.None? {
        exitPending := None;
        return false;
      }
      if !closing { CloseLeg(exitPending.value, fate); }
      busy := true;
    }

    /** One retry per tick, for as many ticks as the network needs. */
    method RetryEveryTick(fates: seq<Fate>)
      requires Valid()
      modifies this, executor, venue
      ensures Valid() && View() == Retries(old(View()), fates)
    {
      for i := 0 to |fates|
        invariant Valid() && View() == Retries(old(View()), fates[..i])
      {
        var _ := RetryPendingExit(fates[i]);
        assert fates[..i + 1][..i] == fates[..i];
      }
      assert fates[..|fates|] == fates;
    }
  }

  predicate Reached(fates: seq<Fate>) { exists f <- fates :: f.reaches }

  predicate Confirmed(fates: seq<Fate>) { exists f <- fates :: f.reaches && f.replies }

  /** An exit of a leg of `size` lots after one attempt and any number of retries. */
  function ExitRun(s: ExitState, reason: string, fates: seq<Fate>): ExitState
    requires fates != []
  {
    Retries(CloseLegSpec(s, reason, fates[0]), fates[1..])
  }

  /** For every sequence of accepted, rejected and lost replies: the short is bought back exactly
      when some request reached the exchange, whole and never beyond flat; tracking and the pending
      exit end together, exactly when some reply got back; nothing else in the book moves. */
  lemma {:induction false} ExitOutcome(s: ExitState, reason: string, fates: seq<Fate>)
    requires fates != [] && s.tracked.Some? && s.size > 0
    requires Net(s.book, s.tracked.value) == -s.size || Net(s.book, s.tracked.value) == 0
    ensures var r := ExitRun(s, reason, fates); var p := s.tracked.value;
      && Net(r.book, p) == (if Reached(fates) then 0 else Net(s.book, p))
      && r.book - {p} == s.book - {p}
      && (if Confirmed(fates) then r.tracked == None && r.pending == None
          else r.tracked == s.tracked && r.size == s.size && r.pending == Some(reason))
    decreases |fates|
  {
    var last := fates[|fates| - 1];
    if |fates| > 1 {
      var front := fates[..|fates| - 1];
      ExitOutcome(s, reason, front);
      assert fates[1..][..|fates| - 2] == front[1..];
      assert fates == front + [last];
      assert Reached(fates) <==> Reached(front) || last.reaches;
      assert Confirmed(fates) <==> Confirmed(front) || (last.reaches && last.replies);
    } else {
      assert fates == [last];
      assert Reached(fates) <==> last.reaches;
      assert Confirmed(fates) <==> last.reaches && last.replies;
    }
  }

  /** After any retry, from any state, an exit is pending only for a leg that is tracked: one whose leg went
      away by another route is dropped, and nothing else moves then. */
  lemma RetryNeedsTrackedLeg(s: ExitState, fate: Fate)
    ensures RetrySpec(s, fate).pending.Some? ==> RetrySpec(s, fate).tracked.Some?
    ensures s.tracked.None? ==> RetrySpec(s, fate) == s.(pending := None)
    ensures s.pending.None? ==> RetrySpec(s, fate) == s
  {
  }

  /** Once failures stop, the very next retry ends the exit, and it stays ended. */
  lemma RetryingTerminates(s: ExitState, reason: string, fates: seq<Fate>, more: seq<Fate>)
    requires fates != [] && s.tracked.Some? && s.size > 0
    requires Net(s.book, s.tracked.value) == -s.size || Net(s.book, s.tracked.value) == 0
    ensures var r := ExitRun(s, reason, fates + [Fate(true, true)] + more);
      r.tracked == None && r.pending == None && Net(r.book, s.tracked.value) == 0
  {
    var all := fates + [Fate(true, true)] + more;
    assert all[|fates|] == Fate(true, true);
    assert Confirmed(all) && Reached(all);
    ExitOutcome(s, reason, all);
  }
}
