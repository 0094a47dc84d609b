/** The clock of one Paxos instance: which step a node is in, what it promised, accepted and counted.
    The functions give every operation's meaning on clock values; the class updates its fields. */
module Clocks {
  import opened Common
  import opened PaxosTypes

  datatype AcceptanceProgress = AcceptanceProgress(value: PaxosValue, progress: nat)

  datatype TLCProgress = TLCProgress(block: Block, progress: nat)

  datatype ClockState = ClockState(
    step: nat,
    maxID: nat,
    acceptedID: nat,
    acceptedValue: Option<PaxosValue>,
    acceptance: map<string, AcceptanceProgress>,
    tlc: map<nat, TLCProgress>,
    broadcast: set<nat>)

  const NEW_CLOCK: ClockState := ClockState(0, 0, 0, None, map[], map[], {})

  predicate IgnoresPropose(c: ClockState, step: nat, id: nat) {
    step != c.step || id != c.maxID
  }

  predicate IgnoresPrepare(c: ClockState, step: nat, id: nat) {
    step != c.step || id <= c.maxID
  }

  function AcceptCount(c: ClockState, uniqID: string): nat {
    if uniqID in c.acceptance then c.acceptance[uniqID].progress else 0
  }

  function TLCCount(c: ClockState, step: nat): nat {
    if step in c.tlc then c.tlc[step].progress else 0
  }

  function WithAcceptance(c: ClockState, v: PaxosValue): ClockState {
    var first := if v.uniqID in c.acceptance then c.acceptance[v.uniqID].value else v;
    c.(acceptance := c.acceptance[v.uniqID := AcceptanceProgress(first, AcceptCount(c, v.uniqID) + 1)])
  }

  function WithTLC(c: ClockState, step: nat, block: Block): ClockState {
    var first := if step in c.tlc then c.tlc[step].block else block;
    c.(tlc := c.tlc[step := TLCProgress(first, TLCCount(c, step) + 1)])
  }

  predicate Full(tlc: map<nat, TLCProgress>, step: nat, threshold: nat) {
    step in tlc && tlc[step].progress >= threshold
  }

  /** The first step, from the given one on, that has not collected enough TLC messages. */
  function Frontier(tlc: map<nat, TLCProgress>, step: nat, threshold: nat): (f: nat)
    ensures step <= f && !Full(tlc, f, threshold)
    ensures forall k :: step <= k < f ==> k in tlc && tlc[k].progress >= threshold
    decreases set k | k in tlc && k >= step
  {
    if Full(tlc, step, threshold) then
      assert step in (set k | k in tlc && k >= step) - (set k | k in tlc && k >= step + 1);
      Frontier(tlc, step + 1, threshold)
    else step
  }

  function StepsBetween(from: nat, to: nat): (steps: set<nat>)
    requires from <= to
    ensures forall k: nat :: k in steps <==> from <= k < to
  {
    if from == to then {} else StepsBetween(from, to - 1) + {to - 1}
  }

  function BlocksBetween(tlc: map<nat, TLCProgress>, from: nat, to: nat): (blocks: seq<Block>)
    requires from <= to && forall k :: from <= k < to ==> k in tlc
    ensures |blocks| == to - from
    ensures forall k :: from <= k < to ==> blocks[k - from] == tlc[k].block
  {
    if from == to then [] else BlocksBetween(tlc, from, to - 1) + [tlc[to - 1].block]
  }

  /** The blocks of all consecutively completed steps, in step order. */
  function NewBlocks(c: ClockState, threshold: nat): seq<Block> {
    BlocksBetween(c.tlc, c.step, Frontier(c.tlc, c.step, threshold))
  }

  /** The clock after catching up: the completed steps are forgotten, and if the step moved at all the
      promise and the accepted value of the old step go with it. */
  function CaughtUp(c: ClockState, threshold: nat): ClockState {
    var f := Frontier(c.tlc, c.step, threshold);
    if f == c.step then c
    else c.(step := f, maxID := 0, acceptedID := 0, acceptedValue := None,
            tlc := c.tlc - StepsBetween(c.step, f))
  }

  class Clock {
    var Step: nat
    var MaxID: nat
    var AcceptedID: nat
    var AcceptedValue: Option<PaxosValue>
    var AcceptanceProgressMap: map<string, AcceptanceProgress>
    var TLCProgressMap: map<nat, TLCProgress>
    var TLCBroadcastMap: set<nat>

    function State(): ClockState
      reads this
    {
      ClockState(Step, MaxID, AcceptedID, AcceptedValue, AcceptanceProgressMap, TLCProgressMap, TLCBroadcastMap)
    }

    constructor ()
      ensures State() == NEW_CLOCK
    {
      Step, MaxID, AcceptedID, AcceptedValue := 0, 0, 0, None;
      AcceptanceProgressMap, TLCProgressMap, TLCBroadcastMap := map[], map[], {};
    }

    method NotifyAcceptance(acceptedValue: PaxosValue, threshold: nat) returns (reached: bool)
      modifies this
      ensures State() == WithAcceptance(old(State()), acceptedValue)
      ensures reached <==> AcceptCount(old(State()), acceptedValue.uniqID) + 1 >= threshold
    {
      if acceptedValue.uniqID !in AcceptanceProgressMap {
        AcceptanceProgressMap := AcceptanceProgressMap[acceptedValue.uniqID := AcceptanceProgress(acceptedValue, 0)];
      }
      var prog := AcceptanceProgressMap[acceptedValue.uniqID];
      prog := prog.(progress := prog.progress + 1);
      AcceptanceProgressMap := AcceptanceProgressMap[acceptedValue.uniqID := prog];
      reached := prog.progress >= threshold;
    }

    method NotifyTLC(step: nat, block: Block)
      modifies this
      ensures State() == WithTLC(old(State()), step, block)
    {
      if step !in TLCProgressMap {
        TLCProgressMap := TLCProgressMap[step := TLCProgress(block, 0)];
      }
      var prog := TLCProgressMap[step];
      TLCProgressMap := TLCProgressMap[step := prog.(progress := prog.progress + 1)];
    }

    method CatchUp(threshold: nat) returns (newBlocks: seq<Block>)
      modifies this
      ensures State() == CaughtUp(old(State()), threshold)
      ensures newBlocks == NewBlocks(old(State()), threshold)
    {
      ghost var was, f := State(), Frontier(TLCProgressMap, Step, threshold);
      newBlocks := [];
      var stepsToDiscard: set<nat> := {};
      var i := Step;
      while i in TLCProgressMap && TLCProgressMap[i].progress >= threshold
        invariant was.step <= i == Step <= f
        invariant TLCProgressMap == was.tlc
        invariant stepsToDiscard == StepsBetween(was.step, i)
        invariant newBlocks == BlocksBetween(was.tlc, was.step, i)
        invariant State() == if i == was.step then was
                             else was.(step := i, maxID := 0, acceptedID := 0, acceptedValue := None)
        decreases f - i
      {
        newBlocks := newBlocks + [TLCProgressMap[i].block];
        stepsToDiscard := stepsToDiscard + {i};
        AcceptedID := 0;
        AcceptedValue := None;
        MaxID := 0;
        Step := Step + 1;
        i := i + 1;
      }
      assert i == f;
      assert i == was.step ==> was.tlc - stepsToDiscard == was.tlc;
      DiscardSteps(stepsToDiscard);
    }

    /** The second half of CatchUp: the counters of the completed steps are deleted. */
    method DiscardSteps(steps: set<nat>)
      modifies `TLCProgressMap
      ensures TLCProgressMap == old(TLCProgressMap) - steps
    {
      var left := steps;
      while left != {}
        invariant left <= steps
        invariant TLCProgressMap == old(TLCProgressMap) - (steps - left)
      {
        var step :| step in left;
        TLCProgressMap := TLCProgressMap - {step};
        left := left - {step};
      }
    }

    method UpdateMaxID(newMaxID: nat)
      modifies this
      ensures State() == old(State()).(maxID := if newMaxID > old(MaxID) then newMaxID else old(MaxID))
    {
      if newMaxID > MaxID {
        MaxID := newMaxID;
      }
    }

    method MarkBroadcasted(step: nat)
      modifies this
      ensures State() == old(State()).(broadcast := old(TLCBroadcastMap) + {step})
    {
      TLCBroadcastMap := TLCBroadcastMap + {step};
    }

    method Accept(acceptedID: nat, acceptedValue: PaxosValue)
      modifies this
      ensures State() == old(State()).(acceptedID := acceptedID, acceptedValue := Some(acceptedValue))
    {
      AcceptedID := acceptedID;
      AcceptedValue := Some(acceptedValue);
    }
  }
}
