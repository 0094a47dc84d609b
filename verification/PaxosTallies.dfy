/** When a node that announces a block counted enough accepts of the block's own ballot. */
module PaxosTallies {
  import opened PaxosTypes
  import opened Clocks
  import opened Acceptors
  import opened PaxosSystem
  import opened PaxosInvariants
  import opened PaxosAgreement
  import opened PaxosCounting
  import opened PaxosChains

  /** No accept of a later step was counted; and when the count of a value that has an accept of the current
      step is full, the step was announced. */
  ghost predicate FullIsAnnounced(c: ClockState, tally: set<Envelope>, threshold: nat) {
    && (forall t :: t in tally ==> t.msg.Accept? && t.msg.step <= c.step)
    && (forall t :: t in tally && t.msg.step == c.step && AcceptCount(c, t.msg.value.uniqID) >= threshold ==>
          c.step in c.broadcast)
  }

  ghost predicate Tallied(cfg: Config, s: System) {
    && TalliesKept(cfg, s)
    && forall i :: 0 <= i < cfg.peers ==> FullIsAnnounced(s.nodes[i].acceptor.clock, s.nodes[i].tally, Threshold(cfg))
  }

  lemma {:induction false} StillAnnounced(cfg: Config, node: Node, e: Envelope, valid: bool)
    requires FullIsAnnounced(node.acceptor.clock, node.tally, Threshold(cfg))
    ensures var node' := Received(cfg, node, e, valid);
            FullIsAnnounced(node'.acceptor.clock, node'.tally, Threshold(cfg))
  {
  }

  lemma {:induction false} TalliedStep(cfg: Config, s: System, a: Action)
    requires Enabled(cfg, s, a) && Tallied(cfg, s)
    ensures Tallied(cfg, Apply(cfg, s, a))
  {
    TalliesKeptStep(cfg, s, a);
    ActionMoves(cfg, s, a);
    if a.Deliver? {
      StillAnnounced(cfg, s.nodes[a.n], a.e, a.valid);
    } else {
      AdvanceKeepsAcceptor(cfg, s, a);
    }
  }

  lemma {:induction false} AlwaysTallied(cfg: Config, acts: seq<Action>)
    requires cfg.peers > 0 && Legal(cfg, acts)
    ensures Tallied(cfg, After(cfg, acts))
  {
    if acts == [] {
      InitialTalliesKept(cfg);
    } else {
      AlwaysTallied(cfg, acts[..|acts| - 1]);
      TalliedStep(cfg, After(cfg, acts[..|acts| - 1]), acts[|acts| - 1]);
    }
  }

  lemma {:induction false} OneBallotIff(c: ClockState, tally: set<Envelope>, m: Message, threshold: nat)
    requires AcceptsTallied(c, tally) && FullIsAnnounced(c, tally, threshold) && threshold >= 2
    requires m.Accept? && m.step == c.step && m.step !in c.broadcast && AcceptCount(c, m.value.uniqID) + 1 >= threshold
    ensures |BallotTally(tally, m)| + 1 >= threshold <==>
            forall t :: t in tally && t.msg.value.uniqID == m.value.uniqID ==> t.msg.step == m.step && t.msg.id == m.id
  {
    var ballot, all := BallotTally(tally, m), TallyOf(tally, m.value.uniqID);
    assert ballot <= all;
    if |ballot| + 1 >= threshold {
      var t :| t in ballot;
      assert |all| < threshold;
      SubsetOfSameSize(ballot, all);
      assert forall t :: t in tally && t.msg.value.uniqID == m.value.uniqID ==> t in all;
    }
    assert (forall t :: t in all ==> t.msg.step == m.step && t.msg.id == m.id) ==> ballot == all;
  }

  lemma {:induction false} SubsetOfSameSize(a: set<Envelope>, b: set<Envelope>)
    requires a <= b && |a| >= |b|
    ensures a == b
  {
    assert |b - a| == |b| - |a|;
  }

  /** In every run of two nodes or more, a node that announces a block counted accepts of one ballot only if
      and only if the accepts that it counted of the message's own ballot, with this one, are enough. */
  lemma {:induction false} TalliesOneBallotIff(cfg: Config, acts: seq<Action>, a: Action)
    requires cfg.peers >= 2 && Legal(cfg, acts) && Enabled(cfg, After(cfg, acts), a)
    ensures TalliesOneBallot(cfg, After(cfg, acts), a) <==> TalliesBallot(cfg, After(cfg, acts), a)
  {
    AlwaysTallied(cfg, acts);
    OneBallotAt(cfg, After(cfg, acts), a);
  }

  lemma {:induction false} OneBallotAt(cfg: Config, s: System, a: Action)
    requires cfg.peers >= 2 && Tallied(cfg, s) && Enabled(cfg, s, a)
    ensures TalliesOneBallot(cfg, s, a) <==> TalliesBallot(cfg, s, a)
  {
    if a.Deliver? && a.e.msg.Accept? && Announces(s.nodes[a.n].acceptor, a.e.msg, Threshold(cfg)) {
      var node := s.nodes[a.n];
      assert AcceptsTallied(node.acceptor.clock, node.tally);
      assert FullIsAnnounced(node.acceptor.clock, node.tally, Threshold(cfg));
      OneBallotIff(node.acceptor.clock, node.tally, a.e.msg, Threshold(cfg));
    }
  }

  /** In every run, the accepts of the ballot that a node counted, with the one that makes it announce, come
      from a quorum of nodes if and only if they are enough in number. */
  lemma {:induction false} BallotQuorumIff(cfg: Config, acts: seq<Action>, a: Action)
    requires cfg.peers > 0 && Legal(cfg, acts) && Enabled(cfg, After(cfg, acts), a)
    requires a.Deliver? && a.e.msg.Accept? && Announces(After(cfg, acts).nodes[a.n].acceptor, a.e.msg, Threshold(cfg))
    ensures var s := After(cfg, acts);
            var counted := BallotTally(s.nodes[a.n].tally, a.e.msg) + {a.e};
            && (|Origins(counted)| >= Threshold(cfg) <==> TalliesBallot(cfg, s, a))
            && Origins(counted) <= Voters(s.net, a.e.msg.step, a.e.msg.id, a.e.msg.value)
  {
    AlwaysTallied(cfg, acts);
    AlwaysPromisesKept(cfg, acts);
    BallotQuorumAt(cfg, After(cfg, acts), a);
  }

  lemma {:induction false} BallotQuorumAt(cfg: Config, s: System, a: Action)
    requires VotesKept(cfg, s) && TalliesKept(cfg, s) && Enabled(cfg, s, a)
    requires a.Deliver? && a.e.msg.Accept? && Announces(s.nodes[a.n].acceptor, a.e.msg, Threshold(cfg))
    ensures var counted := BallotTally(s.nodes[a.n].tally, a.e.msg) + {a.e};
            && (|Origins(counted)| >= Threshold(cfg) <==> TalliesBallot(cfg, s, a))
            && Origins(counted) <= Voters(s.net, a.e.msg.step, a.e.msg.id, a.e.msg.value)
  {
    var counted := BallotTally(s.nodes[a.n].tally, a.e.msg) + {a.e};
    BallotTallyFacts(cfg, s, a.n, a.e);
    hide VotesKept, TalliesKept;
    BallotVotes(cfg, s, counted, a.e);
    VotersDistinct(cfg, s, counted, a.e.msg.id);
  }
}
