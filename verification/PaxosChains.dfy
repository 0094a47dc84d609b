/** Replicated chains and proposer results, in every run that selects top reports and announces blocks with
    enough accepts of one ballot: all announcements of a step carry the same block, so chains are prefixes
    of each other. */
module PaxosChains {
  import opened Common
  import opened PaxosTypes
  import opened Acceptors
  import opened Proposers
  import opened PaxosSystem
  import opened PaxosInvariants
  import opened PaxosAgreement
  import opened PaxosCounting

  ghost predicate ChosenInStep(cfg: Config, net: set<Envelope>, step: nat, v: PaxosValue) {
    exists id :: Chosen(cfg, net, step, id, v)
  }

  /** An announced block holds a chosen value and is linked to the chain of every node that got so far. */
  ghost predicate Certified(cfg: Config, s: System, e: Envelope)
    requires e.msg.TLC?
  {
    && ChosenInStep(cfg, s.net, e.msg.step, e.msg.block.value)
    && forall i :: 0 <= i < |s.nodes| && e.msg.step <= |s.nodes[i].acceptor.chain| ==>
         e.msg.block == GenerateBlock(cfg.hash, e.msg.step, e.msg.block.value, s.nodes[i].acceptor.chain[..e.msg.step])
  }

  ghost predicate Base(cfg: Config, s: System) {
    ProposalsBacked(cfg, s) && CountsKept(cfg, s) && TalliesKept(cfg, s)
  }

  ghost predicate ChainsCertified(cfg: Config, s: System) {
    Base(cfg, s) && forall e :: e in s.net && e.msg.TLC? ==> Certified(cfg, s, e)
  }

  lemma {:induction false} NodeCountsAt(cfg: Config, s: System, i: nat)
    requires CountsKept(cfg, s) && i < cfg.peers
    ensures NodeCounts(cfg, s.net, s.nodes[i].acceptor, s.nodes[i].seen)
    ensures ChainSourced(cfg, s.net, s.nodes[i].acceptor)
  {
  }

  lemma {:induction false} CertifiedAt(cfg: Config, s: System, k: nat, b: Block) returns (e: Envelope)
    requires ChainsCertified(cfg, s) && TLCSent(s.net, k, b)
    ensures e in s.net && e.msg == TLC(k, b) && Certified(cfg, s, e)
  {
    e :| e in s.net && e.msg == TLC(k, b);
  }

  lemma {:induction false} OneBlockPerStep(cfg: Config, s: System, k: nat, b: Block, b': Block)
    requires ChainsCertified(cfg, s) && TLCSent(s.net, k, b) && TLCSent(s.net, k, b')
    ensures b == b'
  {
    var e :| e in s.net && e.msg == TLC(k, b);
    var f :| f in s.net && f.msg == TLC(k, b');
    assert Certified(cfg, s, e) && Certified(cfg, s, f);
    var i :| Chosen(cfg, s.net, k, i, b.value);
    var j :| Chosen(cfg, s.net, k, j, b'.value);
    OneValueChosen(cfg, s, k, i, b.value, j, b'.value);
    assert NodeCounts(cfg, s.net, s.nodes[e.origin].acceptor, s.nodes[e.origin].seen);
  }

  /** Two chains of announced blocks agree as far as both go. */
  lemma {:induction false} ChainsAgree(cfg: Config, s: System, st: AcceptorState, st': AcceptorState, k: nat)
    requires ChainsCertified(cfg, s) && ChainSourced(cfg, s.net, st) && ChainSourced(cfg, s.net, st')
    requires k <= |st.chain| && k <= |st'.chain|
    ensures st.chain[..k] == st'.chain[..k]
  {
    forall j | 0 <= j < k
      ensures st.chain[j] == st'.chain[j]
    {
      OneBlockPerStep(cfg, s, j, st.chain[j], st'.chain[j]);
    }
  }

  lemma {:induction false} StillChosen(cfg: Config, net: set<Envelope>, net': set<Envelope>, step: nat, id: nat,
                                       v: PaxosValue)
    requires net <= net' && Chosen(cfg, net, step, id, v)
    ensures Chosen(cfg, net', step, id, v)
  {
    SubsetSize(Voters(net, step, id, v), Voters(net', step, id, v));
  }

  lemma {:induction false} StillChosenInStep(cfg: Config, net: set<Envelope>, net': set<Envelope>, step: nat,
                                             v: PaxosValue)
    requires net <= net' && ChosenInStep(cfg, net, step, v)
    ensures ChosenInStep(cfg, net', step, v)
  {
    var id :| Chosen(cfg, net, step, id, v);
    StillChosen(cfg, net, net', step, id, v);
  }

  /** Every node votes for an ID once. */
  lemma {:induction false} VotersDistinct(cfg: Config, s: System, es: set<Envelope>, id: nat)
    requires VotesKept(cfg, s)
    requires forall f :: f in es ==> f in s.net && Vote(f) && f.msg.id == id
    ensures |Origins(es)| == |es|
  {
    forall f, g | f in es && g in es && f.origin == g.origin
      ensures f == g
    {
      assert SameVote(f, g);
    }
    InjectiveImageSize(es, (f: Envelope) => f.origin, Origins(es));
  }

  lemma {:induction false} BallotVotes(cfg: Config, s: System, es: set<Envelope>, e: Envelope)
    requires VotesKept(cfg, s) && es <= s.net && e in es && e.msg.Accept? && !IsReject(e.msg.value)
    requires forall f :: f in es ==>
               f.msg.Accept? && !IsReject(f.msg.value) && f.msg.step == e.msg.step && f.msg.id == e.msg.id
    ensures forall f :: f in es ==> Vote(f) && IsVote(f, e.msg.step, e.msg.id, e.msg.value)
  {
    hide VotesKept;
    forall f | f in es
      ensures Vote(f) && IsVote(f, e.msg.step, e.msg.id, e.msg.value)
    {
      SameBallotSameValue(cfg, s, e, f);
    }
  }

  /** Distinct accept messages of one ballot are votes of distinct nodes for the ballot's only value. */
  lemma {:induction false} BallotIsQuorum(cfg: Config, s: System, es: set<Envelope>, e: Envelope)
    requires VotesKept(cfg, s) && es <= s.net && e in es && e.msg.Accept? && !IsReject(e.msg.value)
    requires forall f :: f in es ==>
               f.msg.Accept? && !IsReject(f.msg.value) && f.msg.step == e.msg.step && f.msg.id == e.msg.id
    ensures |Voters(s.net, e.msg.step, e.msg.id, e.msg.value)| >= |es|
  {
    hide VotesKept;
    BallotVotes(cfg, s, es, e);
    VotersDistinct(cfg, s, es, e.msg.id);
    SubsetSize(Origins(es), Voters(s.net, e.msg.step, e.msg.id, e.msg.value));
  }

  lemma {:induction false} SameBallotSameValue(cfg: Config, s: System, e: Envelope, f: Envelope)
    requires VotesKept(cfg, s) && e in s.net && f in s.net
    requires e.msg.Accept? && !IsReject(e.msg.value) && f.msg.Accept? && !IsReject(f.msg.value)
    requires f.msg.id == e.msg.id
    ensures Vote(e) && Vote(f) && e.msg.value == f.msg.value && e.msg.step == f.msg.step
  {
    assert Vote(e) && Vote(f);
    assert ProposalSeen(s.nodes[e.origin].seen, e.msg);
    assert ProposalSeen(s.nodes[f.origin].seen, f.msg);
  }

  /** The accepts of one ballot that a node counted, together with the one that it is handed. */
  lemma {:induction false} BallotTallyFacts(cfg: Config, s: System, n: nat, e: Envelope)
    requires TalliesKept(cfg, s) && n < cfg.peers
    requires e in s.net && e !in s.nodes[n].seen && e.msg.Accept? && !IsReject(e.msg.value)
    ensures var es := BallotTally(s.nodes[n].tally, e.msg) + {e};
            && es <= s.net && |es| == |BallotTally(s.nodes[n].tally, e.msg)| + 1
            && forall f :: f in es ==>
                 f.msg.Accept? && !IsReject(f.msg.value) && f.msg.step == e.msg.step && f.msg.id == e.msg.id
  {
    assert AcceptsTallied(s.nodes[n].acceptor.clock, s.nodes[n].tally);
    assert e !in s.nodes[n].tally;
  }

  /** A node that announces a block has a quorum of votes for its value, if it counted enough of one ballot. */
  lemma {:induction false} AnnouncedIsChosen(cfg: Config, s: System, n: nat, e: Envelope)
    requires VotesKept(cfg, s) && TalliesKept(cfg, s) && n < cfg.peers
    requires e in s.net && e !in s.nodes[n].seen && e.msg.Accept?
    requires Announces(s.nodes[n].acceptor, e.msg, Threshold(cfg))
    requires |BallotTally(s.nodes[n].tally, e.msg)| + 1 >= Threshold(cfg)
    ensures Chosen(cfg, s.net, e.msg.step, e.msg.id, e.msg.value)
  {
    BallotTallyFacts(cfg, s, n, e);
    hide VotesKept, TalliesKept;
    BallotIsQuorum(cfg, s, BallotTally(s.nodes[n].tally, e.msg) + {e}, e);
  }

  lemma {:induction false} HandleTLCOut(cfg: Config, st: AcceptorState, m: Message, valid: bool)
    ensures var out := Handle(cfg, st, m, valid).out;
            !out.Silent? && out.msg.TLC? ==>
              (m.TLC? && out.msg == m) ||
              (&& m.Accept? && Announces(st, m, Threshold(cfg)) && m.step == st.clock.step
               && out.msg == TLC(m.step, GenerateBlock(cfg.hash, m.step, m.value, st.chain)))
  {
  }

  /** A new announcement is either a repeated block or a block for a chosen value on the own chain. */
  ghost predicate FreshlyCertified(cfg: Config, s: System, n: nat, m: Message)
    requires n < |s.nodes| && m.TLC?
  {
    TLCSent(s.net, m.step, m.block) ||
    (&& m.step == s.nodes[n].acceptor.clock.step
     && ChosenInStep(cfg, s.net, m.step, m.block.value)
     && m.block == GenerateBlock(cfg.hash, m.step, m.block.value, s.nodes[n].acceptor.chain))
  }

  lemma {:induction false} NewAnnouncement(cfg: Config, s: System, a: Action)
    requires Enabled(cfg, s, a) && Base(cfg, s) && TalliesBallot(cfg, s, a)
    ensures var out := Output(cfg, s, a);
            !out.Silent? && out.msg.TLC? ==> FreshlyCertified(cfg, s, a.n, out.msg)
  {
    if a.Deliver? {
      var node := s.nodes[a.n];
      HandleTLCOut(cfg, node.acceptor, a.e.msg, a.valid);
      if a.e.msg.Accept? && Announces(node.acceptor, a.e.msg, Threshold(cfg)) {
        AnnouncedIsChosen(cfg, s, a.n, a.e);
        assert ChosenInStep(cfg, s.net, a.e.msg.step, a.e.msg.value);
      }
    } else {
      AdvanceKeepsAcceptor(cfg, s, a);
    }
  }

  /** An old announcement stays certified although chains grow. */
  lemma {:induction false} StillCertified(cfg: Config, s: System, s': System, e: Envelope, i: nat)
    requires ChainsCertified(cfg, s) && Shape(cfg, s') && e in s.net && e.msg.TLC? && i < cfg.peers
    requires ChainSourced(cfg, s.net, s'.nodes[i].acceptor)
    requires e.msg.step <= |s'.nodes[i].acceptor.chain|
    ensures e.msg.block ==
            GenerateBlock(cfg.hash, e.msg.step, e.msg.block.value, s'.nodes[i].acceptor.chain[..e.msg.step])
  {
    var sender := s.nodes[e.origin].acceptor;
    assert Certified(cfg, s, e);
    assert NodeCounts(cfg, s.net, sender, s.nodes[e.origin].seen);
    ChainsAgree(cfg, s, sender, s'.nodes[i].acceptor, e.msg.step);
  }

  lemma {:induction false} NewlyCertified(cfg: Config, s: System, s': System, n: nat, m: Message, i: nat)
    requires ChainsCertified(cfg, s) && Shape(cfg, s') && n < cfg.peers && i < cfg.peers
    requires m.TLC? && FreshlyCertified(cfg, s, n, m)
    requires ChainSourced(cfg, s.net, s'.nodes[i].acceptor)
    requires m.step <= |s'.nodes[i].acceptor.chain|
    ensures m.block == GenerateBlock(cfg.hash, m.step, m.block.value, s'.nodes[i].acceptor.chain[..m.step])
  {
    if TLCSent(s.net, m.step, m.block) {
      var e :| e in s.net && e.msg == TLC(m.step, m.block);
      StillCertified(cfg, s, s', e, i);
    } else {
      var own := s.nodes[n].acceptor;
      assert NodeCounts(cfg, s.net, own, s.nodes[n].seen);
      ChainsAgree(cfg, s, own, s'.nodes[i].acceptor, m.step);
      assert own.chain[..m.step] == own.chain;
    }
  }

  lemma {:induction false} FreshIsChosen(cfg: Config, s: System, n: nat, m: Message)
    requires ChainsCertified(cfg, s) && n < cfg.peers && m.TLC? && FreshlyCertified(cfg, s, n, m)
    ensures ChosenInStep(cfg, s.net, m.step, m.block.value)
  {
    if TLCSent(s.net, m.step, m.block) {
      var e :| e in s.net && e.msg == TLC(m.step, m.block);
      assert Certified(cfg, s, e);
    }
  }

  lemma {:induction false} CertifiedAfter(cfg: Config, s: System, s': System, n: nat, out: Outgoing, e: Envelope)
    requires ChainsCertified(cfg, s) && Moved(cfg, s, s', n, out) && e in s'.net && e.msg.TLC?
    requires !out.Silent? && out.msg.TLC? ==> FreshlyCertified(cfg, s, n, out.msg)
    requires forall i :: 0 <= i < cfg.peers ==> ChainSourced(cfg, s.net, s'.nodes[i].acceptor)
    ensures Certified(cfg, s', e)
  {
    if e in s.net {
      assert Certified(cfg, s, e);
    } else {
      FreshIsChosen(cfg, s, n, out.msg);
    }
    StillChosenInStep(cfg, s.net, s'.net, e.msg.step, e.msg.block.value);
    forall i | 0 <= i < |s'.nodes| && e.msg.step <= |s'.nodes[i].acceptor.chain|
      ensures e.msg.block ==
              GenerateBlock(cfg.hash, e.msg.step, e.msg.block.value, s'.nodes[i].acceptor.chain[..e.msg.step])
    {
      if e in s.net {
        StillCertified(cfg, s, s', e, i);
      } else {
        NewlyCertified(cfg, s, s', n, out.msg, i);
      }
    }
  }

  ghost predicate Careful(cfg: Config, s: System, a: Action)
    requires Enabled(cfg, s, a)
  {
    SelectsHighest(cfg, s, a) && TalliesBallot(cfg, s, a)
  }

  lemma {:induction false} BaseStep(cfg: Config, s: System, a: Action)
    requires Enabled(cfg, s, a) && Base(cfg, s) && SelectsHighest(cfg, s, a)
    ensures Base(cfg, Apply(cfg, s, a))
  {
    ProposalsBackedStep(cfg, s, a);
    CountsKeptStep(cfg, s, a);
    TalliesKeptStep(cfg, s, a);
  }

  lemma {:induction false} ChainsCertifiedStep(cfg: Config, s: System, a: Action)
    requires Enabled(cfg, s, a) && ChainsCertified(cfg, s) && Careful(cfg, s, a)
    ensures ChainsCertified(cfg, Apply(cfg, s, a))
  {
    BaseStep(cfg, s, a);
    ActionMoves(cfg, s, a);
    NewAnnouncement(cfg, s, a);
    NodeCountsAfter(cfg, s, a);
    var s' := Apply(cfg, s, a);
    forall i | 0 <= i < cfg.peers
      ensures ChainSourced(cfg, s.net, s'.nodes[i].acceptor)
    {
      assert i != a.n ==> NodeCounts(cfg, s.net, s.nodes[i].acceptor, s.nodes[i].seen);
    }
    forall e | e in s'.net && e.msg.TLC?
      ensures Certified(cfg, s', e)
    {
      CertifiedAfter(cfg, s, s', a.n, Output(cfg, s, a), e);
    }
  }

  // Proposer results.

  /** What a proposer relies on: a quorum behind a finished ballot, a tick behind a decision. */
  ghost predicate RunBacked(cfg: Config, net: set<Envelope>, ps: ProposerState, step: nat) {
    && (ps.Done? ==> Chosen(cfg, net, ps.step, ps.id, ps.proposed))
    && (ps.Idle? && ps.outcome.Decided? ==>
          && Chosen(cfg, net, ps.outcome.step, ps.outcome.id, ps.outcome.proposed)
          && ps.outcome.original.uniqID == ps.outcome.proposed.uniqID
          && ps.outcome.step < step
          && TLCSent(net, ps.outcome.step, ps.outcome.block))
  }

  ghost predicate RunsBacked(cfg: Config, s: System) {
    && VotesKept(cfg, s) && CountsKept(cfg, s)
    && forall i :: 0 <= i < cfg.peers ==> RunBacked(cfg, s.net, s.nodes[i].proposer, s.nodes[i].acceptor.clock.step)
  }

  lemma {:induction false} CountedAccepts(es: seq<Envelope>, chosen: PaxosValue) returns (accepts: set<Envelope>)
    requires Distinct(es)
    ensures forall e :: e in accepts ==> e in es && IsAccept(e.msg, chosen)
    ensures |accepts| == CountAccepts(Messages(es), chosen)
  {
    if es == [] {
      accepts := {};
    } else {
      var last, rest := es[|es| - 1], es[..|es| - 1];
      assert es == rest + [last];
      assert Messages(es)[..|es| - 1] == Messages(rest);
      accepts := CountedAccepts(rest, chosen);
      if IsAccept(last.msg, chosen) {
        assert last !in rest;
        accepts := accepts + {last};
      }
    }
  }

  /** Enough accepts for the ID of a waiting proposer are a quorum for the value that it proposed. */
  lemma {:induction false} CollectedIsChosen(cfg: Config, s: System, n: nat, picked: seq<Envelope>)
    requires VotesKept(cfg, s) && n < cfg.peers && s.nodes[n].proposer.WaitAccept?
    requires Distinct(picked) && forall e :: e in picked ==> e in s.nodes[n].seen
    requires forall m :: m in Messages(picked) ==> m.Accept? && m.id == s.nodes[n].proposer.id
    requires CountAccepts(Messages(picked), s.nodes[n].proposer.chosen) >= Threshold(cfg)
    ensures Chosen(cfg, s.net, s.nodes[n].proposer.step, s.nodes[n].proposer.id, s.nodes[n].proposer.chosen)
  {
    var run := s.nodes[n].proposer;
    var es := CountedAccepts(picked, run.chosen);
    assert es != {};
    var e :| e in es;
    forall f | f in es
      ensures f in s.net && f.msg.Accept? && !IsReject(f.msg.value) && f.msg.id == run.id
      ensures f.msg.step == run.step && f.msg.value == run.chosen
    {
      MessageOf(picked, f);
      AcceptedProposal(cfg, s, n, f);
    }
    BallotIsQuorum(cfg, s, es, e);
  }

  lemma {:induction false} AcceptedProposal(cfg: Config, s: System, n: nat, f: Envelope)
    requires VotesKept(cfg, s) && n < cfg.peers && s.nodes[n].proposer.WaitAccept?
    requires f in s.net && f.msg.Accept? && !IsReject(f.msg.value) && f.msg.id == s.nodes[n].proposer.id
    ensures f.msg.step == s.nodes[n].proposer.step && f.msg.value == s.nodes[n].proposer.chosen
  {
    assert Vote(f);
    assert ProposalSeen(s.nodes[f.origin].seen, f.msg);
    assert RunOwned(s.net, s.nodes[n].proposer, n);
  }

  lemma {:induction false} NextFinishes(ps: ProposerState, lastID: nat, env: Environment, setting: Setting)
    requires setting.peers > 0 && Fits(ps, env, setting.threshold)
    ensures var ps' := Next(ps, lastID, env, setting).state;
            && (ps'.Done? ==> && ps.WaitAccept? && CountAccepts(env.collected, ps.chosen) >= setting.threshold
                              && ps'.step == ps.step && ps'.id == ps.id && ps'.proposed == ps.chosen)
            && (ps'.Idle? && ps'.outcome.Decided? ==>
                  && ps.Done? && |env.collected| > 0
                  && ps.original.uniqID == ps.proposed.uniqID
                  && ps'.outcome == Decided(ps.original, ps.proposed, ps.step, ps.id, env.collected[0].block))
  {
  }

  /** A tick that the proposer finds belongs to a step that the node has left behind. */
  lemma {:induction false} TickFound(cfg: Config, s: System, n: nat, ticks: seq<Message>)
    requires CountsKept(cfg, s) && n < cfg.peers && |ticks| > 0
    requires forall m :: m in ticks ==> m in s.nodes[n].acceptor.ticks
    ensures ticks[0].TLC? && ticks[0].step < s.nodes[n].acceptor.clock.step
    ensures TLCSent(s.net, ticks[0].step, ticks[0].block)
  {
    assert NodeCounts(cfg, s.net, s.nodes[n].acceptor, s.nodes[n].seen);
    assert ticks[0] in s.nodes[n].acceptor.ticks;
  }

  lemma {:induction false} OwnRunBacked(cfg: Config, s: System, n: nat, picked: seq<Envelope>, ticks: seq<Message>)
    requires RunsBacked(cfg, s) && n < cfg.peers
    requires Fits(s.nodes[n].proposer, EnvironmentOf(s.nodes[n], picked, ticks), Threshold(cfg))
    requires Distinct(picked) && forall e :: e in picked ==> e in s.nodes[n].seen
    requires forall m :: m in ticks ==> m in s.nodes[n].acceptor.ticks
    ensures var node := s.nodes[n];
            var turn := Next(node.proposer, node.lastID, EnvironmentOf(node, picked, ticks), SettingOf(cfg, n));
            RunBacked(cfg, s.net, turn.state, node.acceptor.clock.step)
  {
    var node := s.nodes[n];
    var env := EnvironmentOf(node, picked, ticks);
    assert RunBacked(cfg, s.net, node.proposer, node.acceptor.clock.step);
    NextFinishes(node.proposer, node.lastID, env, SettingOf(cfg, n));
    if node.proposer.WaitAccept? {
      if CountAccepts(env.collected, node.proposer.chosen) >= Threshold(cfg) {
        CollectedIsChosen(cfg, s, n, picked);
      }
    } else if node.proposer.Done? {
      if |ticks| > 0 {
        TickFound(cfg, s, n, ticks);
      }
    }
  }

  lemma {:induction false} RunStaysBacked(cfg: Config, net: set<Envelope>, net': set<Envelope>, ps: ProposerState,
                                          step: nat, step': nat)
    requires RunBacked(cfg, net, ps, step) && net <= net' && step <= step'
    ensures RunBacked(cfg, net', ps, step')
  {
    if ps.Done? {
      StillChosen(cfg, net, net', ps.step, ps.id, ps.proposed);
    }
    if ps.Idle? && ps.outcome.Decided? {
      StillChosen(cfg, net, net', ps.outcome.step, ps.outcome.id, ps.outcome.proposed);
      assert TLCSent(net', ps.outcome.step, ps.outcome.block);
    }
  }

  lemma {:induction false} AllRunsBacked(cfg: Config, s: System, s': System, n: nat, out: Outgoing)
    requires Moved(cfg, s, s', n, out)
    requires forall i :: 0 <= i < cfg.peers ==>
               RunBacked(cfg, s.net, s.nodes[i].proposer, s.nodes[i].acceptor.clock.step)
    requires RunBacked(cfg, s.net, s'.nodes[n].proposer, s.nodes[n].acceptor.clock.step)
    requires s.nodes[n].acceptor.clock.step <= s'.nodes[n].acceptor.clock.step
    ensures forall i :: 0 <= i < cfg.peers ==>
              RunBacked(cfg, s'.net, s'.nodes[i].proposer, s'.nodes[i].acceptor.clock.step)
  {
    hide RunBacked;
    forall i | 0 <= i < cfg.peers
      ensures RunBacked(cfg, s'.net, s'.nodes[i].proposer, s'.nodes[i].acceptor.clock.step)
    {
      var clock := s.nodes[i].acceptor.clock;
      assert RunBacked(cfg, s.net, s.nodes[i].proposer, clock.step);
      RunStaysBacked(cfg, s.net, s'.net, s'.nodes[i].proposer, clock.step, s'.nodes[i].acceptor.clock.step);
    }
  }

  lemma {:induction false} RunsBackedStep(cfg: Config, s: System, a: Action)
    requires Enabled(cfg, s, a) && RunsBacked(cfg, s)
    ensures RunsBacked(cfg, Apply(cfg, s, a))
  {
    VotesKeptStep(cfg, s, a);
    CountsKeptStep(cfg, s, a);
    ActionMoves(cfg, s, a);
    RunBackedHere(cfg, s, a);
    hide RunBacked;
    AllRunsBacked(cfg, s, Apply(cfg, s, a), a.n, Output(cfg, s, a));
  }

  /** The node that acts: its run is backed by the network as it was, and its step does not fall. */
  lemma {:induction false} RunBackedHere(cfg: Config, s: System, a: Action)
    requires Enabled(cfg, s, a) && RunsBacked(cfg, s)
    ensures var node, node' := s.nodes[a.n], Apply(cfg, s, a).nodes[a.n];
            && RunBacked(cfg, s.net, node'.proposer, node.acceptor.clock.step)
            && node.acceptor.clock.step <= node'.acceptor.clock.step
  {
    assert RunBacked(cfg, s.net, s.nodes[a.n].proposer, s.nodes[a.n].acceptor.clock.step);
    hide VotesKept, CountsKept, Chosen, TLCSent;
    if a.Deliver? {
      DeliverKeepsProposer(cfg, s, a);
      HandleMovesClock(cfg, s.nodes[a.n].acceptor, a.e.msg, a.valid);
    } else {
      AdvanceKeepsAcceptor(cfg, s, a);
      if a.Advance? {
        OwnRunBacked(cfg, s, a.n, a.picked, a.ticks);
      }
    }
  }

  // The results over whole runs.

  lemma {:induction false} AlwaysChainsCertified(cfg: Config, acts: seq<Action>)
    requires cfg.peers > 0 && Legal(cfg, acts)
    requires SelectsHighestThroughout(cfg, acts) && TalliesBallotThroughout(cfg, acts)
    ensures ChainsCertified(cfg, After(cfg, acts)) && RunsBacked(cfg, After(cfg, acts))
  {
    if acts == [] {
      InitialPromisesKept(cfg);
      InitialCountsKept(cfg);
      InitialTalliesKept(cfg);
    } else {
      AlwaysChainsCertified(cfg, acts[..|acts| - 1]);
      ChainsCertifiedStep(cfg, After(cfg, acts[..|acts| - 1]), acts[|acts| - 1]);
      RunsBackedStep(cfg, After(cfg, acts[..|acts| - 1]), acts[|acts| - 1]);
    }
  }

  lemma {:induction false} PrefixChains(cfg: Config, s: System, i: nat, j: nat)
    requires ChainsCertified(cfg, s) && i < cfg.peers && j < cfg.peers
    ensures var p, q := s.nodes[i].acceptor, s.nodes[j].acceptor;
            && |p.chain| == p.clock.step && |q.chain| == q.clock.step
            && (p.clock.step <= q.clock.step ==> p.chain <= q.chain)
  {
    hide ProposalsBacked, Certified, TalliesKept, NodeCounts;
    var p, q := s.nodes[i].acceptor, s.nodes[j].acceptor;
    NodeCountsAt(cfg, s, i);
    NodeCountsAt(cfg, s, j);
    if p.clock.step <= q.clock.step {
      ChainsAgree(cfg, s, p, q, |p.chain|);
    }
  }

  /** Of two nodes, the one that is behind holds a prefix of the other's chain. */
  lemma {:induction false} ChainSafety(cfg: Config, acts: seq<Action>, i: nat, j: nat)
    requires cfg.peers > 0 && Legal(cfg, acts) && i < cfg.peers && j < cfg.peers
    requires SelectsHighestThroughout(cfg, acts) && TalliesBallotThroughout(cfg, acts)
    ensures |After(cfg, acts).nodes| == cfg.peers
    ensures var s := After(cfg, acts);
            var p, q := s.nodes[i].acceptor, s.nodes[j].acceptor;
            && |p.chain| == p.clock.step && |q.chain| == q.clock.step
            && (p.clock.step <= q.clock.step ==> p.chain <= q.chain)
  {
    AlwaysChainsCertified(cfg, acts);
    PrefixChains(cfg, After(cfg, acts), i, j);
  }

  /** A block that is linked to its predecessor, was announced by a quorum of nodes, and holds a value
      that a quorum of nodes accepted under one ID. */
  ghost predicate BlockBacked(cfg: Config, net: set<Envelope>, chain: seq<Block>, k: nat)
    requires k < |chain|
  {
    && chain[k].index == k
    && chain[k].prevHash == (if k == 0 then Zeros(HASH_LENGTH) else chain[k - 1].hash)
    && chain[k].hash == cfg.hash(k, chain[k].value, chain[k].prevHash)
    && ChosenInStep(cfg, net, k, chain[k].value)
    && |TLCSenders(net, k)| >= Threshold(cfg)
  }

  lemma {:induction false} ChainBlockBacked(cfg: Config, s: System, i: nat, k: nat)
    requires ChainsCertified(cfg, s) && i < cfg.peers && k < |s.nodes[i].acceptor.chain|
    ensures BlockBacked(cfg, s.net, s.nodes[i].acceptor.chain, k)
  {
    NodeCountsAt(cfg, s, i);
    hide Base;
    var e := CertifiedAt(cfg, s, k, s.nodes[i].acceptor.chain[k]);
    hide ChainsCertified;
    CertifiedBlockBacked(cfg, s, e, i, k);
  }

  lemma {:induction false} CertifiedBlockBacked(cfg: Config, s: System, e: Envelope, i: nat, k: nat)
    requires i < |s.nodes| && ChainSourced(cfg, s.net, s.nodes[i].acceptor)
    requires k < |s.nodes[i].acceptor.chain| && e.msg == TLC(k, s.nodes[i].acceptor.chain[k]) && Certified(cfg, s, e)
    ensures BlockBacked(cfg, s.net, s.nodes[i].acceptor.chain, k)
  {
    var chain := s.nodes[i].acceptor.chain;
    assert k > 0 ==> chain[..k][k - 1] == chain[k - 1];
  }

  lemma {:induction false} BlocksBacked(cfg: Config, acts: seq<Action>, i: nat, k: nat)
    requires cfg.peers > 0 && Legal(cfg, acts) && i < |After(cfg, acts).nodes|
    requires SelectsHighestThroughout(cfg, acts) && TalliesBallotThroughout(cfg, acts)
    requires k < |After(cfg, acts).nodes[i].acceptor.chain|
    ensures BlockBacked(cfg, After(cfg, acts).net, After(cfg, acts).nodes[i].acceptor.chain, k)
  {
    AlwaysChainsCertified(cfg, acts);
    ChainBlockBacked(cfg, After(cfg, acts), i, k);
  }

  /** A proposal that succeeds went through with a value carrying the caller's unique ID: a quorum
      accepted it, and the returned block is the block of that step in the local chain. */
  lemma {:induction false} DecidedOwnValue(cfg: Config, acts: seq<Action>, n: nat)
    requires cfg.peers > 0 && Legal(cfg, acts) && n < |After(cfg, acts).nodes|
    requires SelectsHighestThroughout(cfg, acts) && TalliesBallotThroughout(cfg, acts)
    requires var ps := After(cfg, acts).nodes[n].proposer; ps.Idle? && ps.outcome.Decided?
    ensures var s := After(cfg, acts);
            var d, chain := s.nodes[n].proposer.outcome, s.nodes[n].acceptor.chain;
            && Chosen(cfg, s.net, d.step, d.id, d.proposed)
            && d.proposed.uniqID == d.original.uniqID
            && d.step < |chain| && chain[d.step] == d.block && d.block.value == d.proposed
            && (d.original.uniqID != "" ==> ProposeResult(d) == Ok(chain[d.step].hash))
  {
    AlwaysChainsCertified(cfg, acts);
    var s := After(cfg, acts);
    var d, st := s.nodes[n].proposer.outcome, s.nodes[n].acceptor;
    assert RunBacked(cfg, s.net, s.nodes[n].proposer, st.clock.step);
    assert NodeCounts(cfg, s.net, st, s.nodes[n].seen);
    OneBlockPerStep(cfg, s, d.step, st.chain[d.step], d.block);
    var e :| e in s.net && e.msg == TLC(d.step, d.block);
    assert Certified(cfg, s, e);
    var id :| Chosen(cfg, s.net, d.step, id, d.block.value);
    OneValueChosen(cfg, s, d.step, id, d.block.value, d.id, d.proposed);
  }
}
