/** What a node must do with announcements, over every legal run: it moves on as soon as it has seen enough of
    them, passes the one on that completed its step, and tells its proposer. */
module PaxosAnnouncements {
  import opened Common
  import opened PaxosTypes
  import opened Clocks
  import opened Acceptors
  import opened PaxosSystem
  import opened PaxosInvariants
  import opened PaxosCounting
  import opened PaxosTallies

  ghost predicate AnnouncedBy(net: set<Envelope>, n: nat, step: nat) {
    exists e :: e in net && e.origin == n && IsTLC(e, step)
  }

  /** A node's marks, counters and ticks: a step is marked if and only if the node announced it, counters are
      kept from the current step on, every step behind was seen by enough nodes, and the ticks are for
      announced steps, in order. */
  ghost predicate NodeRelays(cfg: Config, net: set<Envelope>, st: AcceptorState, seen: set<Envelope>, n: nat) {
    && (forall k :: k in st.clock.broadcast <==> AnnouncedBy(net, n, k))
    && (forall k :: k in st.clock.tlc ==> k >= st.clock.step)
    && (forall k: nat :: k < st.clock.step ==> |TLCSeen(seen, k)| >= Threshold(cfg))
    && TicksRise(st)
  }

  ghost predicate TicksRise(st: AcceptorState) {
    && (forall m :: m in st.ticks ==> m.TLC? && m.step < st.clock.step && m.step in st.clock.broadcast)
    && (forall i, j :: 0 <= i < j < |st.ticks| ==> st.ticks[i].TLC? && st.ticks[j].TLC?
                                                   && st.ticks[i].step < st.ticks[j].step)
  }

  ghost predicate Relayed(cfg: Config, s: System) {
    && CountsKept(cfg, s)
    && forall i :: 0 <= i < cfg.peers ==> NodeRelays(cfg, s.net, s.nodes[i].acceptor, s.nodes[i].seen, i)
  }

  /** What handling one message comes to. */
  ghost predicate Reacts(cfg: Config, st: AcceptorState, st': AcceptorState, m: Message, out: Outgoing) {
    && st.clock.step <= st'.clock.step
    && st'.clock.broadcast == st.clock.broadcast + (if !out.Silent? && out.msg.TLC? then {out.msg.step} else {})
    && (forall k :: k in st'.clock.tlc ==> k >= st'.clock.step || k in st.clock.tlc)
    && (st.clock.step < st'.clock.step ==>
          && m.TLC? && m.step == st.clock.step
          && st'.ticks == st.ticks + [m] && m.step in st'.clock.broadcast
          && (m.step !in st.clock.broadcast ==> out == Broadcast(m)))
    && (st.clock.step == st'.clock.step ==> st'.ticks == st.ticks && st'.chain == st.chain)
  }

  lemma {:induction false} HandleReacts(cfg: Config, st: AcceptorState, m: Message, valid: bool)
    requires !Full(st.clock.tlc, st.clock.step, Threshold(cfg))
    requires forall k :: k in st.clock.tlc ==> k >= st.clock.step
    ensures var h := Handle(cfg, st, m, valid);
            && Reacts(cfg, st, h.state, m, h.out)
            && forall k :: k in h.state.clock.tlc ==> k >= h.state.clock.step
  {
    if m.TLC? && m.step >= st.clock.step {
      var counted := WithTLC(st.clock, m.step, m.block);
      if NewBlocks(counted, Threshold(cfg)) != [] {
        MovesOnOwnStep(st.clock, m, Threshold(cfg));
      }
    }
  }

  lemma {:induction false} TicksStillRise(cfg: Config, st: AcceptorState, st': AcceptorState, m: Message,
                                          out: Outgoing)
    requires TicksRise(st) && Reacts(cfg, st, st', m, out)
    ensures TicksRise(st')
  {
  }

  lemma {:induction false} AnnouncedMore(net: set<Envelope>, net': set<Envelope>, n: nat, out: Outgoing, e: Envelope,
                                         i: nat, k: nat)
    requires net' == (if out.Silent? then net else net + {e}) && (!out.Silent? ==> e.origin == n && e.msg == out.msg)
    ensures AnnouncedBy(net', i, k) <==>
            AnnouncedBy(net, i, k) || (i == n && !out.Silent? && out.msg.TLC? && out.msg.step == k)
  {
    if AnnouncedBy(net, i, k) {
      var f :| f in net && f.origin == i && IsTLC(f, k);
      assert f in net';
    }
    if i == n && !out.Silent? && out.msg.TLC? && out.msg.step == k {
      assert e in net';
    }
  }

  /** The steps that a node leaves behind were seen by enough nodes. */
  lemma {:induction false} LeftIsSeen(cfg: Config, s: System, n: nat, e: Envelope, valid: bool, k: nat)
    requires CountsKept(cfg, s) && n < cfg.peers && e in s.net && e !in s.nodes[n].seen
    requires var st := s.nodes[n].acceptor;
             st.clock.step <= k < Handle(cfg, st, e.msg, valid).state.clock.step
    ensures |TLCSeen(s.nodes[n].seen + {e}, k)| >= Threshold(cfg)
  {
    var st := s.nodes[n].acceptor;
    assert NodeCounts(cfg, s.net, st, s.nodes[n].seen);
    HandleMovesStep(cfg, st, e.msg, valid);
    CountedOnce(st, s.net, s.nodes[n].seen, e);
    assert Full(WithTLC(st.clock, e.msg.step, e.msg.block).tlc, k, Threshold(cfg));
  }

  lemma {:induction false} HandleMovesStep(cfg: Config, st: AcceptorState, m: Message, valid: bool)
    ensures var h := Handle(cfg, st, m, valid);
            h.state.clock.step > st.clock.step ==>
              && m.TLC? && m.step >= st.clock.step
              && h.state.clock.step == Frontier(WithTLC(st.clock, m.step, m.block).tlc, st.clock.step, Threshold(cfg))
  {
  }

  lemma {:induction false} SeenStays(cfg: Config, seen: set<Envelope>, e: Envelope, step: nat)
    requires forall k: nat :: k < step ==> |TLCSeen(seen, k)| >= Threshold(cfg)
    ensures forall k: nat :: k < step ==> |TLCSeen(seen + {e}, k)| >= Threshold(cfg)
  {
    forall k: nat | k < step
      ensures |TLCSeen(seen + {e}, k)| >= Threshold(cfg)
    {
      SubsetSize(TLCSeen(seen, k), TLCSeen(seen + {e}, k));
    }
  }

  lemma {:induction false} SeenAfter(cfg: Config, s: System, n: nat, e: Envelope, valid: bool)
    requires Relayed(cfg, s) && n < cfg.peers && e in s.net && e !in s.nodes[n].seen
    ensures forall k: nat :: k < Handle(cfg, s.nodes[n].acceptor, e.msg, valid).state.clock.step ==>
                               |TLCSeen(s.nodes[n].seen + {e}, k)| >= Threshold(cfg)
  {
    var node, h := s.nodes[n], Handle(cfg, s.nodes[n].acceptor, e.msg, valid);
    assert NodeRelays(cfg, s.net, node.acceptor, node.seen, n);
    SeenStays(cfg, node.seen, e, node.acceptor.clock.step);
    forall k: nat | node.acceptor.clock.step <= k < h.state.clock.step
      ensures |TLCSeen(node.seen + {e}, k)| >= Threshold(cfg)
    {
      LeftIsSeen(cfg, s, n, e, valid, k);
    }
    hide Handle, CountsKept, NodeRelays, TLCSeen;
  }

  lemma {:induction false} RelaysAfter(cfg: Config, net: set<Envelope>, net': set<Envelope>, n: nat, st: AcceptorState,
                                       st': AcceptorState, seen: set<Envelope>, e: Envelope, out: Outgoing,
                                       sent: Envelope)
    requires NodeRelays(cfg, net, st, seen, n) && Reacts(cfg, st, st', e.msg, out)
    requires forall k :: k in st'.clock.tlc ==> k >= st'.clock.step
    requires forall k: nat :: k < st'.clock.step ==> |TLCSeen(seen + {e}, k)| >= Threshold(cfg)
    requires net' == (if out.Silent? then net else net + {sent})
    requires !out.Silent? ==> sent.origin == n && sent.msg == out.msg
    ensures NodeRelays(cfg, net', st', seen + {e}, n)
  {
    TicksStillRise(cfg, st, st', e.msg, out);
    forall k
      ensures k in st'.clock.broadcast <==> AnnouncedBy(net', n, k)
    {
      AnnouncedMore(net, net', n, out, sent, n, k);
    }
    hide TicksRise, AnnouncedBy, TLCSeen;
  }

  /** The node that handles a message, in the network with its answer. */
  lemma {:induction false} DeliverRelays(cfg: Config, s: System, a: Action)
    requires Enabled(cfg, s, a) && Relayed(cfg, s) && a.Deliver?
    ensures var node' := Apply(cfg, s, a).nodes[a.n];
            NodeRelays(cfg, Apply(cfg, s, a).net, node'.acceptor, node'.seen, a.n)
  {
    var node, h := s.nodes[a.n], Handle(cfg, s.nodes[a.n].acceptor, a.e.msg, a.valid);
    SeenAfter(cfg, s, a.n, a.e, a.valid);
    assert NodeRelays(cfg, s.net, node.acceptor, node.seen, a.n);
    HandleReacts(cfg, node.acceptor, a.e.msg, a.valid);
    hide Handle, CountsKept, NodeRelays, Reacts, TLCSeen;
    var sent := Envelope(a.n, node.sent, Destination(h.out), if h.out.Silent? then a.e.msg else h.out.msg);
    RelaysAfter(cfg, s.net, Apply(cfg, s, a).net, a.n, node.acceptor, h.state, node.seen, a.e, h.out, sent);
  }

  lemma {:induction false} StillRelays(cfg: Config, net: set<Envelope>, net': set<Envelope>, st: AcceptorState,
                                       seen: set<Envelope>, i: nat)
    requires NodeRelays(cfg, net, st, seen, i)
    requires forall k :: AnnouncedBy(net', i, k) <==> AnnouncedBy(net, i, k)
    ensures NodeRelays(cfg, net', st, seen, i)
  {
    hide AnnouncedBy, TicksRise;
  }

  /** No other node's announcements change. */
  lemma {:induction false} SameAnnounced(cfg: Config, s: System, a: Action, i: nat, k: nat)
    requires Enabled(cfg, s, a) && Shape(cfg, s) && (i != a.n || !a.Deliver?)
    ensures AnnouncedBy(Apply(cfg, s, a).net, i, k) <==> AnnouncedBy(s.net, i, k)
  {
    ActionMoves(cfg, s, a);
    if !a.Deliver? {
      AdvanceKeepsAcceptor(cfg, s, a);
    }
    var out, s' := Output(cfg, s, a), Apply(cfg, s, a);
    hide Apply, Output;
    if AnnouncedBy(s.net, i, k) {
      var e :| e in s.net && e.origin == i && IsTLC(e, k);
      assert e in s'.net;
    }
  }

  lemma {:induction false} RelayedStep(cfg: Config, s: System, a: Action)
    requires Enabled(cfg, s, a) && Relayed(cfg, s)
    ensures Relayed(cfg, Apply(cfg, s, a))
  {
    CountsKeptStep(cfg, s, a);
    ActionMoves(cfg, s, a);
    if a.Deliver? {
      DeliverRelays(cfg, s, a);
    } else {
      AdvanceKeepsAcceptor(cfg, s, a);
    }
    var s' := Apply(cfg, s, a);
    hide CountsKept, NodeRelays, AnnouncedBy;
    forall i | 0 <= i < cfg.peers && (i != a.n || !a.Deliver?)
      ensures NodeRelays(cfg, s'.net, s'.nodes[i].acceptor, s'.nodes[i].seen, i)
    {
      assert NodeRelays(cfg, s.net, s.nodes[i].acceptor, s.nodes[i].seen, i);
      forall k
        ensures AnnouncedBy(s'.net, i, k) <==> AnnouncedBy(s.net, i, k)
      {
        SameAnnounced(cfg, s, a, i, k);
      }
      StillRelays(cfg, s.net, s'.net, s.nodes[i].acceptor, s.nodes[i].seen, i);
    }
  }

  lemma {:induction false} AlwaysRelayed(cfg: Config, acts: seq<Action>)
    requires cfg.peers > 0 && Legal(cfg, acts)
    ensures Relayed(cfg, After(cfg, acts))
  {
    if acts == [] {
      InitialCountsKept(cfg);
    } else {
      AlwaysRelayed(cfg, acts[..|acts| - 1]);
      RelayedStep(cfg, After(cfg, acts[..|acts| - 1]), acts[|acts| - 1]);
    }
  }

  // The results over whole runs.

  /** A node marks a step as announced if and only if an announcement of that step by that node is in the
      network. */
  lemma {:induction false} MarkedIffAnnounced(cfg: Config, acts: seq<Action>, n: nat, step: nat)
    requires cfg.peers > 0 && Legal(cfg, acts) && n < |After(cfg, acts).nodes|
    ensures var s := After(cfg, acts);
            step in s.nodes[n].acceptor.clock.broadcast <==> AnnouncedBy(s.net, n, step)
  {
    AlwaysRelayed(cfg, acts);
    var s := After(cfg, acts);
    assert NodeRelays(cfg, s.net, s.nodes[n].acceptor, s.nodes[n].seen, n);
  }

  /** A node that counted enough accepts of a value, one of them in its current step, has announced a block of
      that step. */
  lemma {:induction false} FullCountIsAnnounced(cfg: Config, acts: seq<Action>, n: nat, t: Envelope)
    requires cfg.peers > 0 && Legal(cfg, acts) && n < |After(cfg, acts).nodes|
    requires var node := After(cfg, acts).nodes[n];
             && t in node.tally && t.msg.Accept? && t.msg.step == node.acceptor.clock.step
             && |TallyOf(node.tally, t.msg.value.uniqID)| >= Threshold(cfg)
    ensures AnnouncedBy(After(cfg, acts).net, n, t.msg.step)
  {
    AlwaysTallied(cfg, acts);
    MarkedIffAnnounced(cfg, acts, n, t.msg.step);
    var node := After(cfg, acts).nodes[n];
    assert AcceptsTallied(node.acceptor.clock, node.tally);
    assert FullIsAnnounced(node.acceptor.clock, node.tally, Threshold(cfg));
  }

  /** A node's chain ends at the first step of which it has seen too few announcements: it never waits
      longer, and it counts for no step behind it any more. */
  lemma {:induction false} ChainReachesFrontier(cfg: Config, acts: seq<Action>, n: nat)
    requires cfg.peers > 0 && Legal(cfg, acts) && n < |After(cfg, acts).nodes|
    ensures var node := After(cfg, acts).nodes[n];
            && (forall k: nat :: k < |node.acceptor.chain| ==> |TLCSeen(node.seen, k)| >= Threshold(cfg))
            && |TLCSeen(node.seen, |node.acceptor.chain|)| < Threshold(cfg)
            && forall k :: k in node.acceptor.clock.tlc ==> k >= |node.acceptor.chain|
  {
    AlwaysRelayed(cfg, acts);
    FrontierReached(cfg, After(cfg, acts), n);
  }

  lemma {:induction false} FrontierReached(cfg: Config, s: System, n: nat)
    requires Relayed(cfg, s) && n < cfg.peers
    ensures var node := s.nodes[n];
            && (forall k: nat :: k < |node.acceptor.chain| ==> |TLCSeen(node.seen, k)| >= Threshold(cfg))
            && |TLCSeen(node.seen, |node.acceptor.chain|)| < Threshold(cfg)
            && forall k :: k in node.acceptor.clock.tlc ==> k >= |node.acceptor.chain|
  {
    var node := s.nodes[n];
    assert NodeRelays(cfg, s.net, node.acceptor, node.seen, n);
    assert NodeCounts(cfg, s.net, node.acceptor, node.seen);
    assert TLCCount(node.acceptor.clock, node.acceptor.clock.step) == |TLCSeen(node.seen, node.acceptor.clock.step)|;
  }

  /** A delivery makes the chain longer if and only if it is an announcement of the node's own step with which
      enough of them were seen. Then the step is announced by this node, too, the proposer gets the message as
      a tick, and if the node had not announced the step before it passes the message on. */
  lemma {:induction false} ChainGrowsIff(cfg: Config, acts: seq<Action>, a: Action)
    requires cfg.peers > 0 && Legal(cfg, acts) && Enabled(cfg, After(cfg, acts), a) && a.Deliver?
    ensures |After(cfg, acts).nodes| == |Apply(cfg, After(cfg, acts), a).nodes| == cfg.peers
    ensures GrowsRightly(cfg, After(cfg, acts), Apply(cfg, After(cfg, acts), a), a.n, a.e)
  {
    AlwaysRelayed(cfg, acts);
    GrowsIff(cfg, After(cfg, acts), a);
  }

  /** What a delivery does to the chain and ticks of the node, and what it sends. */
  ghost predicate GrowsRightly(cfg: Config, s: System, s': System, n: nat, e: Envelope)
    requires n < |s.nodes| && n < |s'.nodes|
  {
    var node, node', step := s.nodes[n], s'.nodes[n], s.nodes[n].acceptor.clock.step;
    var grows := |node'.acceptor.chain| > |node.acceptor.chain|;
    && node.acceptor.chain <= node'.acceptor.chain
    && (grows <==> IsTLC(e, step) && |TLCSeen(node'.seen, step)| >= Threshold(cfg))
    && node'.acceptor.ticks == node.acceptor.ticks + (if grows then [e.msg] else [])
    && (grows ==> AnnouncedBy(s'.net, n, step))
    && (grows && !AnnouncedBy(s.net, n, step) ==> Envelope(n, node.sent, None, e.msg) in s'.net)
  }

  lemma {:induction false} HandleKeepsChain(cfg: Config, st: AcceptorState, m: Message, valid: bool)
    ensures st.chain <= Handle(cfg, st, m, valid).state.chain
  {
  }

  lemma {:induction false} GrowsFrom(cfg: Config, s: System, s': System, n: nat, e: Envelope, out: Outgoing)
    requires n < |s.nodes| && n < |s'.nodes|
    requires var st, st' := s.nodes[n].acceptor, s'.nodes[n].acceptor;
             && st.chain <= st'.chain && |st.chain| == st.clock.step && |st'.chain| == st'.clock.step
             && Reacts(cfg, st, st', e.msg, out)
             && (forall k: nat :: k < |st'.chain| ==> |TLCSeen(s'.nodes[n].seen, k)| >= Threshold(cfg))
             && |TLCSeen(s'.nodes[n].seen, |st'.chain|)| < Threshold(cfg)
             && (st.clock.step in st.clock.broadcast <==> AnnouncedBy(s.net, n, st.clock.step))
             && (st.clock.step in st'.clock.broadcast <==> AnnouncedBy(s'.net, n, st.clock.step))
    requires !out.Silent? ==> Envelope(n, s.nodes[n].sent, Destination(out), out.msg) in s'.net
    ensures GrowsRightly(cfg, s, s', n, e)
  {
    hide AnnouncedBy, TLCSeen;
  }

  lemma {:induction false} GrowsIff(cfg: Config, s: System, a: Action)
    requires Relayed(cfg, s) && Enabled(cfg, s, a) && a.Deliver?
    ensures GrowsRightly(cfg, s, Apply(cfg, s, a), a.n, a.e)
  {
    var s', node := Apply(cfg, s, a), s.nodes[a.n];
    RelayedStep(cfg, s, a);
    FrontierReached(cfg, s', a.n);
    StepOfChain(cfg, s, a.n);
    StepOfChain(cfg, s', a.n);
    MarkedHere(cfg, s, a.n, node.acceptor.clock.step);
    MarkedHere(cfg, s', a.n, node.acceptor.clock.step);
    HandleReacts(cfg, node.acceptor, a.e.msg, a.valid);
    HandleKeepsChain(cfg, node.acceptor, a.e.msg, a.valid);
    hide Relayed, Handle, AnnouncedBy, TLCSeen, Reacts, GrowsRightly;
    GrowsFrom(cfg, s, s', a.n, a.e, Handle(cfg, node.acceptor, a.e.msg, a.valid).out);
  }

  lemma {:induction false} StepOfChain(cfg: Config, s: System, n: nat)
    requires Relayed(cfg, s) && n < cfg.peers
    ensures |s.nodes| == cfg.peers && |s.nodes[n].acceptor.chain| == s.nodes[n].acceptor.clock.step
    ensures var c := s.nodes[n].acceptor.clock;
            !Full(c.tlc, c.step, Threshold(cfg)) && forall k :: k in c.tlc ==> k >= c.step
  {
    assert NodeCounts(cfg, s.net, s.nodes[n].acceptor, s.nodes[n].seen);
    assert NodeRelays(cfg, s.net, s.nodes[n].acceptor, s.nodes[n].seen, n);
  }

  lemma {:induction false} MarkedHere(cfg: Config, s: System, n: nat, step: nat)
    requires Relayed(cfg, s) && n < cfg.peers
    ensures step in s.nodes[n].acceptor.clock.broadcast <==> AnnouncedBy(s.net, n, step)
  {
    assert NodeRelays(cfg, s.net, s.nodes[n].acceptor, s.nodes[n].seen, n);
  }
}
