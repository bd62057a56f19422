/** DCv2's block on positions it does not own: grow only on two identical sightings, shrink at once. */
module Dcv2Foreign {
  import opened Common

  /** A sorted list of contract symbols, as one position fetch shows them. */
  type Sighting = seq<string>

  function Symbols(o: Sighting): set<string> { set x | x in o }

  datatype Watch = Watch(block: Sighting, candidate: Option<Sighting>)

  /** One judged refresh. */
  function Judge(w: Watch, o: Sighting): Watch {
    if o == [] || Symbols(o) <= Symbols(w.block) then Watch(o, None)
    else if w.candidate == Some(o) then Watch(o, None)
    else Watch(w.block, Some(o))
  }

  function JudgeAll(w: Watch, os: seq<Sighting>): Watch {
    if os == [] then w else Judge(JudgeAll(w, os[..|os| - 1]), os[|os| - 1])
  }

  class Dcv2ForeignGuard {
    const paper: bool
    var foreignSymbols: Sighting
    var foreignCandidate: Option<Sighting>
    var closing: bool
    var entryInProgress: bool
    var lastForeignCheck: int

    constructor (paper: bool, now: int)
      ensures this.paper == paper && View() == Watch([], None)
    {
      this.paper := paper;
      foreignSymbols, foreignCandidate := [], None;
      closing, entryInProgress, lastForeignCheck := false, false, now;
    }

    function View(): Watch reads this { Watch(foreignSymbols, foreignCandidate) }

    method SetForeign(foreign: Sighting)
      modifies this`foreignSymbols
      ensures foreignSymbols == foreign
    {
      if foreign == foreignSymbols { return; }
      foreignSymbols := foreign;
    }

    /** `_refresh_foreign` at time `now`.  `fetched` is absent when the fetch failed, `landed` tells
        that an order started or finished while it ran.  Only a judged refresh changes the block, and in
        paper mode there is none. */
    method RefreshForeign(now: int, interval: int, fetched: Option<Sighting>, landed: bool)
      modifies this`foreignSymbols, this`foreignCandidate, this`lastForeignCheck
      ensures
        var due := !paper && interval > 0 && !closing && !entryInProgress && now - old(lastForeignCheck) >= interval;
        && View() == (if due && fetched.Some? && !landed then Judge(old(View()), fetched.value) else old(View()))
        && lastForeignCheck == (if due then now else old(lastForeignCheck))
    {
      if paper { return; }
      if interval <= 0 || closing || entryInProgress { return; }
      if now - lastForeignCheck < interval { return; }
      lastForeignCheck := now;
      if fetched.None? || landed { return; }
      var foreign := fetched.value;
      if foreign == [] || Symbols(foreign) <= Symbols(foreignSymbols) {
        foreignCandidate := None;
        SetForeign(foreign);
      } else if Some(foreign) == foreignCandidate {
        foreignCandidate := None;
        SetForeign(foreign);
      } else {
        foreignCandidate := Some(foreign);
      }
    }
  }

  /** The rule the candidate field implements: the block follows the latest sighting when that
      sighting adds nothing new or repeats the one before it, and otherwise stays. */
  function Block(start: Sighting, os: seq<Sighting>): Sighting {
    if os == [] then start
    else
      var before, o := Block(start, os[..|os| - 1]), os[|os| - 1];
      if Symbols(o) <= Symbols(before) || (|os| >= 2 && os[|os| - 2] == o) then o else before
  }

  /** For every run of judged refreshes, the one-slot candidate is a perfect memory of that rule. */
  lemma {:induction false} CandidateImplementsRule(start: Sighting, os: seq<Sighting>)
    ensures var w := JudgeAll(Watch(start, None), os);
      && w.block == Block(start, os)
      && (w.candidate.Some? ==> os != [] && w.candidate.value == os[|os| - 1])
      && (os != [] && w.candidate.None? ==> w.block == os[|os| - 1])
  {
    if os != [] {
      var front := os[..|os| - 1];
      CandidateImplementsRule(start, front);
      if |os| >= 2 { assert front[|front| - 1] == os[|os| - 2]; }
    }
  }

  /** A symbol enters the block only on the second of two identical sightings that contain it. */
  lemma {:induction false} NewSymbolsNeedTwoSightings(start: Sighting, os: seq<Sighting>, x: string)
    requires os != []
    requires x in JudgeAll(Watch(start, None), os).block
    requires x !in JudgeAll(Watch(start, None), os[..|os| - 1]).block
    ensures |os| >= 2 && os[|os| - 1] == os[|os| - 2] && x in os[|os| - 1]
  {
    var front, o := os[..|os| - 1], os[|os| - 1];
    CandidateImplementsRule(start, os);
    CandidateImplementsRule(start, front);
    assert x in Symbols(o) && x !in Symbols(Block(start, front));
  }

  /** A sighting with nothing new applies at once; two equal sightings in a row always apply. */
  lemma {:induction false} ShrinkingAndRepeatsApply(start: Sighting, os: seq<Sighting>, o: Sighting)
    ensures Symbols(o) <= Symbols(JudgeAll(Watch(start, None), os).block)
      ==> JudgeAll(Watch(start, None), os + [o]).block == o
    ensures JudgeAll(Watch(start, None), os + [o, o]).block == o
  {
    CandidateImplementsRule(start, os);
    CandidateImplementsRule(start, os + [o]);
    CandidateImplementsRule(start, os + [o, o]);
    assert (os + [o])[..|os|] == os;
    assert (os + [o, o])[..|os| + 1] == os + [o];
  }
}
