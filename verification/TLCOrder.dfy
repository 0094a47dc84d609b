/** Catching up does not depend on the order in which TLC messages arrive. */
module TLCOrder {
  import opened PaxosTypes
  import opened Clocks
  import opened Acceptors
  import opened PaxosCounting

  function HandleAll(st: AcceptorState, ms: seq<Message>, threshold: nat): AcceptorState
    requires forall m :: m in ms ==> m.TLC?
  {
    if ms == [] then st
    else OnTLC(HandleAll(st, ms[..|ms| - 1], threshold), ms[|ms| - 1], threshold).state
  }

  /** How many messages of a list belong to a step. */
  function StepCount(ms: seq<Message>, step: nat): nat {
    if ms == [] then 0
    else StepCount(ms[..|ms| - 1], step) + if ms[|ms| - 1].TLC? && ms[|ms| - 1].step == step then 1 else 0
  }

  lemma {:induction false} StepCountAppend(ms: seq<Message>, m: Message, step: nat)
    ensures StepCount(ms + [m], step) == StepCount(ms, step) + StepCount([m], step)
    ensures StepCount([m], step) == if m.TLC? && m.step == step then 1 else 0
  {
    assert (ms + [m])[..|ms|] == ms;
    assert [m][..0] == [];
  }

  /** All messages of a step carry the step's one block. */
  predicate OneBlockEach(ms: seq<Message>, blockOf: nat -> Block) {
    forall m :: m in ms ==> m.TLC? && m.block == blockOf(m.step)
  }

  predicate Settled(st: AcceptorState, threshold: nat, blockOf: nat -> Block) {
    && !Full(st.clock.tlc, st.clock.step, threshold)
    && forall k :: k in st.clock.tlc ==> st.clock.tlc[k].progress > 0 && st.clock.tlc[k].block == blockOf(k)
  }

  /** How many messages a step has received in all: counted before, or in the list. */
  function Received(st: AcceptorState, ms: seq<Message>, step: nat): nat {
    TLCCount(st.clock, step) + StepCount(ms, step)
  }

  /** What the state after some messages is, in terms of how many each step received. */
  ghost predicate Summary(st: AcceptorState, ms: seq<Message>, threshold: nat, blockOf: nat -> Block,
                          st': AcceptorState) {
    && st.clock.step <= st'.clock.step
    && (forall k :: st.clock.step <= k < st'.clock.step ==> Received(st, ms, k) >= threshold)
    && Received(st, ms, st'.clock.step) < threshold
    && |st'.chain| == |st.chain| + st'.clock.step - st.clock.step
    && st.chain <= st'.chain
    && (forall k :: st.clock.step <= k < st'.clock.step ==> st'.chain[|st.chain| + k - st.clock.step] == blockOf(k))
    && (forall k :: k >= st'.clock.step ==> TLCCount(st'.clock, k) == Received(st, ms, k))
    && Settled(st', threshold, blockOf)
  }

  lemma {:induction false} OneMore(st: AcceptorState, m: Message, threshold: nat, blockOf: nat -> Block)
    requires threshold > 0 && Settled(st, threshold, blockOf) && m.TLC? && m.block == blockOf(m.step)
    ensures Summary(st, [m], threshold, blockOf, OnTLC(st, m, threshold).state)
  {
    forall k ensures StepCount([m], k) == if m.step == k then 1 else 0 {
      StepCountAppend([], m, k);
    }
    if m.step >= st.clock.step {
      var counted := WithTLC(st.clock, m.step, m.block);
      OnTLCState(st, m, threshold);
      CaughtUpSummary(st, [m], counted, threshold, blockOf, OnTLC(st, m, threshold).state);
    }
  }

  lemma {:induction false} CaughtUpSummary(st: AcceptorState, ms: seq<Message>, counted: ClockState, threshold: nat,
                                           blockOf: nat -> Block, st': AcceptorState)
    requires threshold > 0 && counted.step == st.clock.step
    requires forall k :: TLCCount(counted, k) == Received(st, ms, k)
    requires forall k :: k in counted.tlc ==> counted.tlc[k].progress > 0 && counted.tlc[k].block == blockOf(k)
    requires st'.clock.tlc == CaughtUp(counted, threshold).tlc && st'.clock.step == CaughtUp(counted, threshold).step
    requires st'.chain == st.chain + NewBlocks(counted, threshold)
    ensures Summary(st, ms, threshold, blockOf, st')
  {
    var f := Frontier(counted.tlc, counted.step, threshold);
    assert Received(st, ms, f) == TLCCount(counted, f);
    forall k | st.clock.step <= k < f
      ensures Received(st, ms, k) >= threshold && st'.chain[|st.chain| + k - st.clock.step] == blockOf(k)
    {
      assert Received(st, ms, k) == TLCCount(counted, k);
      assert NewBlocks(counted, threshold)[k - st.clock.step] == counted.tlc[k].block;
    }
  }

  /** The state after any list of TLC messages is determined by how often each step occurs in it. */
  lemma {:induction false} HandleAllSummary(st: AcceptorState, ms: seq<Message>, threshold: nat, blockOf: nat -> Block)
    requires threshold > 0 && Settled(st, threshold, blockOf) && OneBlockEach(ms, blockOf)
    ensures Summary(st, ms, threshold, blockOf, HandleAll(st, ms, threshold))
  {
    if ms != [] {
      var init, last := ms[..|ms| - 1], ms[|ms| - 1];
      HandleAllSummary(st, init, threshold, blockOf);
      var mid := HandleAll(st, init, threshold);
      OneMore(mid, last, threshold, blockOf);
      Compose(st, init, last, threshold, blockOf, mid, HandleAll(st, ms, threshold));
      assert init + [last] == ms;
    }
  }

  lemma {:induction false} Compose(st: AcceptorState, init: seq<Message>, last: Message, threshold: nat,
                                   blockOf: nat -> Block,
                                   mid: AcceptorState, st': AcceptorState)
    requires Summary(st, init, threshold, blockOf, mid) && Summary(mid, [last], threshold, blockOf, st')
    requires last.TLC?
    ensures Summary(st, init + [last], threshold, blockOf, st')
  {
    var ms := init + [last];
    forall k
      ensures StepCount(ms, k) == StepCount(init, k) + StepCount([last], k)
    {
      StepCountAppend(init, last, k);
    }
    forall k | st.clock.step <= k < st'.clock.step
      ensures Received(st, ms, k) >= threshold
    {
      if k < mid.clock.step {
        assert Received(st, init, k) >= threshold;
      } else {
        assert Received(mid, [last], k) >= threshold;
      }
    }
  }

  lemma {:induction false} StepCountRest(ms: seq<Message>, step: nat, i: nat)
    requires i < |ms|
    ensures StepCount(ms, step) == StepCount(ms[..i] + ms[i + 1..], step) + StepCount([ms[i]], step)
  {
    var last, init := ms[|ms| - 1], ms[..|ms| - 1];
    assert [ms[i]][..0] == [];
    var rest := ms[..i] + ms[i + 1..];
    if i == |ms| - 1 {
      assert rest == init;
    } else {
      StepCountRest(init, step, i);
      assert rest[|rest| - 1] == last;
      assert rest[..|rest| - 1] == init[..i] + init[i + 1..];
    }
  }

  /** The last message of a list is somewhere in every permutation, and without it the rest agree. */
  lemma {:induction false} SameElsewhere(ms: seq<Message>, ms': seq<Message>) returns (i: nat)
    requires multiset(ms) == multiset(ms') && ms != []
    ensures i < |ms'| && ms'[i] == ms[|ms| - 1]
    ensures multiset(ms[..|ms| - 1]) == multiset(ms'[..i] + ms'[i + 1..])
  {
    var last, init := ms[|ms| - 1], ms[..|ms| - 1];
    assert ms == init + [last];
    assert last in multiset(ms');
    i :| 0 <= i < |ms'| && ms'[i] == last;
    assert ms' == ms'[..i] + [last] + ms'[i + 1..];
    assert multiset(ms) == multiset(init) + multiset{last};
    assert multiset(ms') == multiset(ms'[..i] + ms'[i + 1..]) + multiset{last};
    assert multiset(init) == multiset(ms) - multiset{last} == multiset(ms'[..i] + ms'[i + 1..]);
  }

  lemma {:induction false} StepCountPermutes(ms: seq<Message>, ms': seq<Message>, step: nat)
    requires multiset(ms) == multiset(ms')
    ensures StepCount(ms, step) == StepCount(ms', step)
    decreases |ms|
  {
    if ms != [] {
      var last, init := ms[|ms| - 1], ms[..|ms| - 1];
      var i := SameElsewhere(ms, ms');
      StepCountPermutes(init, ms'[..i] + ms'[i + 1..], step);
      StepCountRest(ms', step, i);
      assert [last][..0] == [];
    } else {
      assert |multiset(ms')| == 0;
    }
  }

  /** Any two orders of the same TLC messages end in the same step with the same chain and counters, and
      that step is the first one that received fewer messages than the threshold. */
  lemma {:induction false} CatchUpConfluent(st: AcceptorState, ms: seq<Message>, ms': seq<Message>, threshold: nat,
                                            blockOf: nat -> Block)
    requires threshold > 0 && Settled(st, threshold, blockOf)
    requires OneBlockEach(ms, blockOf) && multiset(ms) == multiset(ms')
    ensures forall m :: m in ms' ==> m.TLC?
    ensures var a, b := HandleAll(st, ms, threshold), HandleAll(st, ms', threshold);
            && a.clock.step == b.clock.step && a.chain == b.chain
            && (forall k :: k >= a.clock.step ==> TLCCount(a.clock, k) == TLCCount(b.clock, k))
            && (forall k :: st.clock.step <= k < a.clock.step ==> Received(st, ms, k) >= threshold)
            && Received(st, ms, a.clock.step) < threshold
  {
    forall m | m in ms'
      ensures m in ms
    {
      assert m in multiset(ms');
    }
    HandleAllSummary(st, ms, threshold, blockOf);
    HandleAllSummary(st, ms', threshold, blockOf);
    forall k
      ensures StepCount(ms, k) == StepCount(ms', k)
    {
      StepCountPermutes(ms, ms', k);
    }
    var a, b := HandleAll(st, ms, threshold), HandleAll(st, ms', threshold);
    SameSummary(st, ms, ms', threshold, blockOf, a, b);
  }

  lemma {:induction false} SameSummary(st: AcceptorState, ms: seq<Message>, ms': seq<Message>, threshold: nat,
                                       blockOf: nat -> Block,
                                       a: AcceptorState, b: AcceptorState)
    requires Summary(st, ms, threshold, blockOf, a) && Summary(st, ms', threshold, blockOf, b)
    requires forall k :: StepCount(ms, k) == StepCount(ms', k)
    ensures a.clock.step == b.clock.step && a.chain == b.chain
    ensures forall k :: k >= a.clock.step ==> TLCCount(a.clock, k) == TLCCount(b.clock, k)
  {
    assert Received(st, ms, a.clock.step) == Received(st, ms', a.clock.step);
    assert Received(st, ms, b.clock.step) == Received(st, ms', b.clock.step);
    forall j | 0 <= j < |a.chain|
      ensures a.chain[j] == b.chain[j]
    {
      if j >= |st.chain| {
        var k := j - |st.chain| + st.clock.step;
        assert a.chain[|st.chain| + k - st.clock.step] == blockOf(k);
        assert b.chain[|st.chain| + k - st.clock.step] == blockOf(k);
      }
    }
  }
}
