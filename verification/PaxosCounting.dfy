/** What the counters of a node mean: TLC counts are distinct senders, accept counts are tallied votes,
    and a node announces at most one block per step. No hypothesis on the run is needed. */
module PaxosCounting {
  import opened Common
  import opened PaxosTypes
  import opened Clocks
  import opened Acceptors
  import opened PaxosSystem
  import opened PaxosInvariants

  function TLCSeen(seen: set<Envelope>, step: nat): set<Envelope> {
    set e | e in seen && IsTLC(e, step)
  }

  ghost predicate TLCSent(net: set<Envelope>, step: nat, block: Block) {
    exists e :: e in net && e.msg == TLC(step, block)
  }

  // One block announcement per node and step.

  predicate SameAnnouncement(e: Envelope, f: Envelope) {
    e.msg.TLC? && f.msg.TLC? && e.origin == f.origin && e.msg.step == f.msg.step
  }

  ghost predicate AnnouncedOnce(cfg: Config, s: System) {
    && Shape(cfg, s)
    && (forall i :: 0 <= i < cfg.peers ==>
          var c := s.nodes[i].acceptor.clock; !Full(c.tlc, c.step, Threshold(cfg)))
    && (forall e :: e in s.net && e.msg.TLC? ==>
          var c := s.nodes[e.origin].acceptor.clock; e.msg.step in c.broadcast && e.msg.step <= c.step)
    && (forall e, f :: e in s.net && f in s.net && SameAnnouncement(e, f) ==> e == f)
  }

  /** A clock that is not behind moves only when a TLC message for its own step arrives. */
  lemma {:induction false} MovesOnOwnStep(c: ClockState, m: Message, threshold: nat)
    requires m.TLC? && m.step >= c.step && !Full(c.tlc, c.step, threshold)
    requires NewBlocks(WithTLC(c, m.step, m.block), threshold) != []
    ensures m.step == c.step
  {
  }

  /** How a handled message moves the announcements of an acceptor. */
  ghost predicate AnnouncementMoved(c: ClockState, c': ClockState, out: Outgoing) {
    && c.broadcast <= c'.broadcast && c.step <= c'.step
    && (!out.Silent? && out.msg.TLC? ==>
          out.msg.step !in c.broadcast && out.msg.step in c'.broadcast && out.msg.step <= c'.step)
  }

  lemma {:induction false} HandleAnnounces(cfg: Config, st: AcceptorState, m: Message, valid: bool)
    requires !Full(st.clock.tlc, st.clock.step, Threshold(cfg))
    ensures var h := Handle(cfg, st, m, valid);
            && AnnouncementMoved(st.clock, h.state.clock, h.out)
            && !Full(h.state.clock.tlc, h.state.clock.step, Threshold(cfg))
  {
    if m.TLC? && m.step >= st.clock.step {
      var counted := WithTLC(st.clock, m.step, m.block);
      if NewBlocks(counted, Threshold(cfg)) != [] {
        MovesOnOwnStep(st.clock, m, Threshold(cfg));
      }
    }
  }

  lemma {:induction false} AnnouncedOnceBy(cfg: Config, s: System, s': System, n: nat, out: Outgoing)
    requires AnnouncedOnce(cfg, s) && Moved(cfg, s, s', n, out)
    requires AnnouncementMoved(s.nodes[n].acceptor.clock, s'.nodes[n].acceptor.clock, out)
    requires var c := s'.nodes[n].acceptor.clock; !Full(c.tlc, c.step, Threshold(cfg))
    ensures AnnouncedOnce(cfg, s')
  {
  }

  lemma {:induction false} AnnouncedOnceStep(cfg: Config, s: System, a: Action)
    requires Enabled(cfg, s, a) && AnnouncedOnce(cfg, s)
    ensures AnnouncedOnce(cfg, Apply(cfg, s, a))
  {
    ActionMoves(cfg, s, a);
    if a.Deliver? {
      HandleAnnounces(cfg, s.nodes[a.n].acceptor, a.e.msg, a.valid);
    } else {
      AdvanceKeepsAcceptor(cfg, s, a);
    }
    AnnouncedOnceBy(cfg, s, Apply(cfg, s, a), a.n, Output(cfg, s, a));
  }

  // TLC counters and the blocks behind them.

  ghost predicate TLCCounted(c: ClockState, seen: set<Envelope>) {
    forall k :: k >= c.step ==> TLCCount(c, k) == |TLCSeen(seen, k)|
  }

  ghost predicate TLCSourced(net: set<Envelope>, c: ClockState) {
    forall k :: k in c.tlc ==> TLCSent(net, k, c.tlc[k].block)
  }

  /** The chain is as long as the clock's step, and every block of it was announced by a quorum. */
  ghost predicate ChainSourced(cfg: Config, net: set<Envelope>, st: AcceptorState) {
    && |st.chain| == st.clock.step
    && forall k :: 0 <= k < |st.chain| ==> TLCSent(net, k, st.chain[k]) && |TLCSenders(net, k)| >= Threshold(cfg)
  }

  ghost predicate TicksSourced(net: set<Envelope>, st: AcceptorState) {
    forall m :: m in st.ticks ==> m.TLC? && m.step < st.clock.step && TLCSent(net, m.step, m.block)
  }

  ghost predicate NodeCounts(cfg: Config, net: set<Envelope>, st: AcceptorState, seen: set<Envelope>) {
    TLCCounted(st.clock, seen) && TLCSourced(net, st.clock) && ChainSourced(cfg, net, st) && TicksSourced(net, st)
  }

  ghost predicate CountsKept(cfg: Config, s: System) {
    && AnnouncedOnce(cfg, s)
    && forall i :: 0 <= i < cfg.peers ==> NodeCounts(cfg, s.net, s.nodes[i].acceptor, s.nodes[i].seen)
  }

  lemma {:induction false} SeenOneMore(seen: set<Envelope>, e: Envelope, k: nat)
    requires e !in seen
    ensures |TLCSeen(seen + {e}, k)| == |TLCSeen(seen, k)| + if IsTLC(e, k) then 1 else 0
  {
    if IsTLC(e, k) {
      assert TLCSeen(seen + {e}, k) == TLCSeen(seen, k) + {e};
    } else {
      assert TLCSeen(seen + {e}, k) == TLCSeen(seen, k);
    }
  }

  /** Seen announcements of a step come from as many distinct nodes. */
  lemma {:induction false} SeenSenders(cfg: Config, s: System, seen: set<Envelope>, k: nat)
    requires AnnouncedOnce(cfg, s) && seen <= s.net
    ensures |TLCSenders(s.net, k)| >= |TLCSeen(seen, k)|
  {
    var es := TLCSeen(seen, k);
    var senders := set e | e in es :: e.origin;
    forall e, f | e in es && f in es && e.origin == f.origin
      ensures e == f
    {
      assert SameAnnouncement(e, f);
    }
    InjectiveImageSize(es, (e: Envelope) => e.origin, senders);
    SubsetSize(senders, TLCSenders(s.net, k));
  }

  lemma {:induction false} CountsGrowNet(cfg: Config, net: set<Envelope>, net': set<Envelope>, st: AcceptorState,
                                         seen: set<Envelope>)
    requires NodeCounts(cfg, net, st, seen) && net <= net'
    ensures NodeCounts(cfg, net', st, seen)
  {
    forall k, b | TLCSent(net, k, b)
      ensures TLCSent(net', k, b)
    {
    }
    forall k | 0 <= k < |st.chain|
      ensures |TLCSenders(net', k)| >= Threshold(cfg)
    {
      assert TLCSent(net, k, st.chain[k]);
      SubsetSize(TLCSenders(net, k), TLCSenders(net', k));
    }
  }

  lemma {:induction false} CountedOnce(st: AcceptorState, net: set<Envelope>, seen: set<Envelope>, e: Envelope)
    requires TLCCounted(st.clock, seen) && TLCSourced(net, st.clock)
    requires e in net && e !in seen && e.msg.TLC?
    ensures var counted := WithTLC(st.clock, e.msg.step, e.msg.block);
            TLCCounted(counted, seen + {e}) && TLCSourced(net, counted)
  {
    var counted := WithTLC(st.clock, e.msg.step, e.msg.block);
    forall k | k >= st.clock.step
      ensures TLCCount(counted, k) == |TLCSeen(seen + {e}, k)|
    {
      SeenOneMore(seen, e, k);
    }
  }

  lemma {:induction false} OnTLCState(st: AcceptorState, m: Message, threshold: nat)
    requires m.TLC? && m.step >= st.clock.step && !Full(st.clock.tlc, st.clock.step, threshold)
    ensures var counted := WithTLC(st.clock, m.step, m.block);
            var st' := OnTLC(st, m, threshold).state;
            && st'.clock.tlc == CaughtUp(counted, threshold).tlc && st'.clock.step == CaughtUp(counted, threshold).step
            && st'.chain == st.chain + NewBlocks(counted, threshold)
            && (st'.ticks == st.ticks || (st'.ticks == st.ticks + [m] && m.step == st.clock.step < st'.clock.step))
  {
    if NewBlocks(WithTLC(st.clock, m.step, m.block), threshold) != [] {
      MovesOnOwnStep(st.clock, m, threshold);
    }
  }

  /** A TLC message that is not old: counters, blocks and chain after it. */
  lemma {:induction false} CountsAfterTLC(cfg: Config, s: System, n: nat, e: Envelope)
    requires CountsKept(cfg, s) && n < cfg.peers && e in s.net && e !in s.nodes[n].seen
    requires e.msg.TLC? && e.msg.step >= s.nodes[n].acceptor.clock.step
    ensures NodeCounts(cfg, s.net, OnTLC(s.nodes[n].acceptor, e.msg, Threshold(cfg)).state, s.nodes[n].seen + {e})
  {
    var st, seen := s.nodes[n].acceptor, s.nodes[n].seen + {e};
    var counted := WithTLC(st.clock, e.msg.step, e.msg.block);
    assert NodeCounts(cfg, s.net, st, s.nodes[n].seen);
    CountedOnce(st, s.net, s.nodes[n].seen, e);
    CaughtUpCounts(counted, seen, s.net, Threshold(cfg));
    CaughtUpChain(cfg, s, st, counted, seen);
    OnTLCState(st, e.msg, Threshold(cfg));
    assert TLCSent(s.net, e.msg.step, e.msg.block);
  }

  lemma {:induction false} CaughtUpCounts(counted: ClockState, seen: set<Envelope>, net: set<Envelope>, threshold: nat)
    requires TLCCounted(counted, seen) && TLCSourced(net, counted)
    ensures TLCCounted(CaughtUp(counted, threshold), seen) && TLCSourced(net, CaughtUp(counted, threshold))
  {
  }

  lemma {:induction false} CaughtUpChain(cfg: Config, s: System, st: AcceptorState, counted: ClockState,
                                         seen: set<Envelope>)
    requires AnnouncedOnce(cfg, s) && seen <= s.net
    requires ChainSourced(cfg, s.net, st) && counted.step == st.clock.step
    requires TLCCounted(counted, seen) && TLCSourced(s.net, counted)
    ensures ChainSourced(cfg, s.net, st.(clock := CaughtUp(counted, Threshold(cfg)),
                                         chain := st.chain + NewBlocks(counted, Threshold(cfg))))
  {
    var f := Frontier(counted.tlc, counted.step, Threshold(cfg));
    var chain := st.chain + NewBlocks(counted, Threshold(cfg));
    hide TLCCounted, TLCSourced, TLCSent, TLCSenders;
    forall k | |st.chain| <= k < |chain|
      ensures TLCSent(s.net, k, chain[k]) && |TLCSenders(s.net, k)| >= Threshold(cfg)
    {
      assert chain[k] == counted.tlc[k].block;
      FullStepSourced(cfg, s, counted, seen, k);
    }
    forall k | 0 <= k < |st.chain|
      ensures TLCSent(s.net, k, chain[k]) && |TLCSenders(s.net, k)| >= Threshold(cfg)
    {
      assert chain[k] == st.chain[k];
    }
  }

  lemma {:induction false} FullStepSourced(cfg: Config, s: System, counted: ClockState, seen: set<Envelope>, k: nat)
    requires AnnouncedOnce(cfg, s) && seen <= s.net && TLCCounted(counted, seen) && TLCSourced(s.net, counted)
    requires k >= counted.step && k in counted.tlc && counted.tlc[k].progress >= Threshold(cfg)
    ensures TLCSent(s.net, k, counted.tlc[k].block) && |TLCSenders(s.net, k)| >= Threshold(cfg)
  {
    assert TLCCount(counted, k) >= Threshold(cfg);
    SeenSenders(cfg, s, seen, k);
  }

  /** Any other message leaves TLC counters and chain alone. */
  lemma {:induction false} CountsAfterOther(cfg: Config, s: System, n: nat, e: Envelope, valid: bool)
    requires CountsKept(cfg, s) && n < cfg.peers && e in s.net && e !in s.nodes[n].seen
    requires e.msg.TLC? ==> e.msg.step < s.nodes[n].acceptor.clock.step
    ensures NodeCounts(cfg, s.net, Handle(cfg, s.nodes[n].acceptor, e.msg, valid).state, s.nodes[n].seen + {e})
  {
    var st, st' := s.nodes[n].acceptor, Handle(cfg, s.nodes[n].acceptor, e.msg, valid).state;
    assert st'.clock.tlc == st.clock.tlc && st'.clock.step == st.clock.step;
    assert st'.chain == st.chain && st'.ticks == st.ticks;
    assert NodeCounts(cfg, s.net, st, s.nodes[n].seen);
    forall k | k >= st.clock.step
      ensures |TLCSeen(s.nodes[n].seen + {e}, k)| == TLCCount(st.clock, k)
    {
      SeenOneMore(s.nodes[n].seen, e, k);
    }
  }

  lemma {:induction false} NodeCountsAfter(cfg: Config, s: System, a: Action)
    requires Enabled(cfg, s, a) && CountsKept(cfg, s)
    ensures var node' := Apply(cfg, s, a).nodes[a.n];
            NodeCounts(cfg, s.net, node'.acceptor, node'.seen)
  {
    if a.Deliver? {
      if a.e.msg.TLC? && a.e.msg.step >= s.nodes[a.n].acceptor.clock.step {
        CountsAfterTLC(cfg, s, a.n, a.e);
      } else {
        CountsAfterOther(cfg, s, a.n, a.e, a.valid);
      }
    } else {
      AdvanceKeepsAcceptor(cfg, s, a);
    }
  }

  lemma {:induction false} CountsKeptStep(cfg: Config, s: System, a: Action)
    requires Enabled(cfg, s, a) && CountsKept(cfg, s)
    ensures CountsKept(cfg, Apply(cfg, s, a))
  {
    AnnouncedOnceStep(cfg, s, a);
    NodeCountsAfter(cfg, s, a);
    ActionMoves(cfg, s, a);
    var s' := Apply(cfg, s, a);
    forall i | 0 <= i < cfg.peers
      ensures NodeCounts(cfg, s'.net, s'.nodes[i].acceptor, s'.nodes[i].seen)
    {
      CountsGrowNet(cfg, s.net, s'.net, s'.nodes[i].acceptor, s'.nodes[i].seen);
    }
  }

  lemma {:induction false} AlwaysCountsKept(cfg: Config, acts: seq<Action>)
    requires cfg.peers > 0 && Legal(cfg, acts)
    ensures CountsKept(cfg, After(cfg, acts))
  {
    if acts == [] {
      InitialCountsKept(cfg);
    } else {
      AlwaysCountsKept(cfg, acts[..|acts| - 1]);
      CountsKeptStep(cfg, After(cfg, acts[..|acts| - 1]), acts[|acts| - 1]);
    }
  }

  lemma {:induction false} InitialCountsKept(cfg: Config)
    requires cfg.peers > 0
    ensures CountsKept(cfg, Initial(cfg))
  {
    var s := Initial(cfg);
    forall i | 0 <= i < cfg.peers
      ensures NodeCounts(cfg, s.net, s.nodes[i].acceptor, s.nodes[i].seen)
    {
      forall k: nat ensures TLCSeen({}, k) == {} {}
    }
  }

  /** A node never announces two blocks for one step, on whichever of the two paths. */
  lemma {:induction false} OneAnnouncementPerStep(cfg: Config, acts: seq<Action>, e: Envelope, f: Envelope)
    requires cfg.peers > 0 && Legal(cfg, acts)
    requires e in After(cfg, acts).net && f in After(cfg, acts).net
    requires e.msg.TLC? && f.msg.TLC? && e.origin == f.origin && e.msg.step == f.msg.step
    ensures e == f
  {
    AlwaysCountsKept(cfg, acts);
    assert SameAnnouncement(e, f);
  }

  // Accept counters.

  function TallyOf(tally: set<Envelope>, uniqID: string): set<Envelope> {
    set e | e in tally && e.msg.Accept? && e.msg.value.uniqID == uniqID
  }

  ghost predicate AcceptsTallied(c: ClockState, tally: set<Envelope>) {
    && (forall e :: e in tally ==> e.msg.Accept? && !IsReject(e.msg.value))
    && (forall u :: AcceptCount(c, u) == |TallyOf(tally, u)|)
  }

  ghost predicate TalliesKept(cfg: Config, s: System) {
    && Shape(cfg, s)
    && forall i :: 0 <= i < cfg.peers ==> AcceptsTallied(s.nodes[i].acceptor.clock, s.nodes[i].tally)
  }

  lemma {:induction false} TallyAfter(cfg: Config, node: Node, e: Envelope, valid: bool)
    requires AcceptsTallied(node.acceptor.clock, node.tally) && e !in node.tally
    ensures var node' := Received(cfg, node, e, valid);
            AcceptsTallied(node'.acceptor.clock, node'.tally)
  {
    var node' := Received(cfg, node, e, valid);
    if e.msg.Accept? && Counts(node.acceptor, e.msg) {
      assert node'.acceptor.clock.acceptance == WithAcceptance(node.acceptor.clock, e.msg.value).acceptance;
      forall u
        ensures AcceptCount(node'.acceptor.clock, u) == |TallyOf(node'.tally, u)|
      {
        TallyOneMore(node.tally, e, u);
      }
    } else {
      assert node'.acceptor.clock.acceptance == node.acceptor.clock.acceptance;
    }
  }

  lemma {:induction false} TallyOneMore(tally: set<Envelope>, e: Envelope, u: string)
    requires e !in tally && e.msg.Accept?
    ensures |TallyOf(tally + {e}, u)| == |TallyOf(tally, u)| + if e.msg.value.uniqID == u then 1 else 0
  {
    if e.msg.value.uniqID == u {
      assert TallyOf(tally + {e}, u) == TallyOf(tally, u) + {e};
    } else {
      assert TallyOf(tally + {e}, u) == TallyOf(tally, u);
    }
  }

  lemma {:induction false} TalliesKeptStep(cfg: Config, s: System, a: Action)
    requires Enabled(cfg, s, a) && TalliesKept(cfg, s)
    ensures TalliesKept(cfg, Apply(cfg, s, a))
  {
    ActionMoves(cfg, s, a);
    if a.Deliver? {
      TallyAfter(cfg, s.nodes[a.n], a.e, a.valid);
    } else {
      AdvanceKeepsAcceptor(cfg, s, a);
    }
  }

  lemma {:induction false} InitialTalliesKept(cfg: Config)
    requires cfg.peers > 0
    ensures TalliesKept(cfg, Initial(cfg))
  {
    forall u: string ensures TallyOf({}, u) == {} {}
  }
}
