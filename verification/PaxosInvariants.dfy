/** What every reachable state of the Paxos system satisfies, without any further hypothesis. */
module PaxosInvariants {
  import opened Common
  import opened PaxosTypes
  import opened Clocks
  import opened Acceptors
  import opened Proposers
  import opened PaxosSystem

  ghost predicate Shape(cfg: Config, s: System) {
    && cfg.peers > 0
    && |s.nodes| == cfg.peers
    && (forall e :: e in s.net ==> e.origin < cfg.peers && e.seqNo < s.nodes[e.origin].sent)
    && (forall e, f :: e in s.net && f in s.net && e.origin == f.origin && e.seqNo == f.seqNo ==> e == f)
    && (forall i :: 0 <= i < cfg.peers ==> s.nodes[i].seen <= s.net && s.nodes[i].tally <= s.nodes[i].seen)
  }

  /** The message that node n sends in a move. */
  function Added(s: System, n: nat, out: Outgoing): Envelope
    requires n < |s.nodes| && !out.Silent?
  {
    Envelope(n, s.nodes[n].sent, Destination(out), out.msg)
  }

  /** Only node n changed, and the network gained at most the message it sent. */
  ghost predicate Moved(cfg: Config, s: System, s': System, n: nat, out: Outgoing) {
    && Shape(cfg, s) && Shape(cfg, s') && n < cfg.peers
    && (forall i :: 0 <= i < cfg.peers && i != n ==> s'.nodes[i] == s.nodes[i])
    && s.net <= s'.net
    && (forall e :: e in s'.net && e !in s.net ==>
          !out.Silent? && e == Added(s, n, out))
    && (!out.Silent? ==> Added(s, n, out) in s'.net && Added(s, n, out) !in s.net)
  }

  /** The message that an action sends. */
  function Output(cfg: Config, s: System, a: Action): Outgoing
    requires Enabled(cfg, s, a) && cfg.peers > 0
  {
    match a
    case Deliver(n, e, valid) => Handle(cfg, s.nodes[n].acceptor, e.msg, valid).out
    case StartRun(_, _) => Silent
    case Advance(n, _, _) => TurnOf(cfg, s.nodes[n], a).out
  }

  lemma {:induction false} SendMoves(cfg: Config, s: System, n: nat, node: Node, out: Outgoing)
    requires Shape(cfg, s) && n < cfg.peers && node.sent == s.nodes[n].sent
    requires node.seen <= s.net && node.tally <= node.seen
    ensures Moved(cfg, s, Send(s, n, node, out), n, out)
  {
  }

  lemma {:induction false} ActionMoves(cfg: Config, s: System, a: Action)
    requires Enabled(cfg, s, a) && Shape(cfg, s)
    ensures Moved(cfg, s, Apply(cfg, s, a), a.n, Output(cfg, s, a))
  {
    hide Handle, Next, Fits, Moved;
    var node := s.nodes[a.n];
    match a
    case Deliver(n, e, valid) => SendMoves(cfg, s, n, Received(cfg, node, e, valid), Output(cfg, s, a));
    case StartRun(n, value) => SendMoves(cfg, s, n, node.(proposer := Begin(0, value)), Silent);
    case Advance(n, _, _) =>
      var turn := TurnOf(cfg, node, a);
      SendMoves(cfg, s, n, node.(proposer := turn.state, lastID := turn.lastID), turn.out);
  }

  lemma {:induction false} DeliverKeepsProposer(cfg: Config, s: System, a: Action)
    requires Enabled(cfg, s, a) && a.Deliver? && cfg.peers > 0
    ensures var node, node' := s.nodes[a.n], Apply(cfg, s, a).nodes[a.n];
            node'.lastID == node.lastID && node'.proposer == node.proposer
    ensures var out := Output(cfg, s, a); out.Silent? || !(out.msg.Prepare? || out.msg.Propose?)
  {
  }

  lemma {:induction false} AdvanceKeepsAcceptor(cfg: Config, s: System, a: Action)
    requires Enabled(cfg, s, a) && !a.Deliver? && cfg.peers > 0
    ensures var node, node' := s.nodes[a.n], Apply(cfg, s, a).nodes[a.n];
            node'.acceptor == node.acceptor && node'.seen == node.seen && node'.tally == node.tally
    ensures var out := Output(cfg, s, a); out.Silent? || out.msg.Prepare? || out.msg.Propose?
  {
  }

  // Proposal IDs.

  ghost predicate Prepared(net: set<Envelope>, step: nat, id: nat, n: nat) {
    exists e :: e in net && e.origin == n && e.msg == Prepare(step, id, n)
  }

  ghost predicate PreparesOwned(cfg: Config, s: System) {
    && Shape(cfg, s)
    && (forall i :: 0 <= i < cfg.peers ==> s.nodes[i].lastID > 0 && Slot(s.nodes[i].lastID, cfg.peers) == i)
    && (forall e :: e in s.net && e.msg.Prepare? ==>
          e.msg.source == e.origin && 0 < e.msg.id < s.nodes[e.origin].lastID && Slot(e.msg.id, cfg.peers) == e.origin)
    && (forall e, f :: e in s.net && f in s.net && e.msg.Prepare? && f.msg.Prepare? && e.msg.id == f.msg.id ==> e == f)
    && (forall i :: 0 <= i < cfg.peers && s.nodes[i].acceptor.clock.maxID != 0 ==>
          exists e :: e in s.net && e.msg.Prepare? && e.msg.id == s.nodes[i].acceptor.clock.maxID)
  }

  ghost predicate Proposed(net: set<Envelope>, step: nat, id: nat, v: PaxosValue, n: nat) {
    exists e :: e in net && e.origin == n && e.msg == Propose(step, id, n, v)
  }

  ghost predicate ProposalsOwned(cfg: Config, s: System) {
    && PreparesOwned(cfg, s)
    && (forall e :: e in s.net && e.msg.Propose? ==>
          e.msg.source == e.origin && Prepared(s.net, e.msg.step, e.msg.id, e.origin))
    && (forall e, f :: e in s.net && f in s.net && e.msg.Propose? && f.msg.Propose? && e.msg.id == f.msg.id ==> e == f)
    && (forall i :: 0 <= i < cfg.peers ==> RunOwned(s.net, s.nodes[i].proposer, i))
  }

  ghost predicate RunOwned(net: set<Envelope>, ps: ProposerState, n: nat) {
    && (ps.WaitPromise? ==> Prepared(net, ps.step, ps.id, n)
                            && forall e :: e in net && e.msg.Propose? ==> e.msg.id != ps.id)
    && (ps.WaitAccept? ==> Proposed(net, ps.step, ps.id, ps.chosen, n))
    && (ps.Done? ==> Proposed(net, ps.step, ps.id, ps.proposed, n))
  }

  lemma {:induction false} SlotShift(id: nat, peers: nat)
    requires id > 0 && peers > 0
    ensures Slot(id + peers, peers) == Slot(id, peers)
  {
    var q, r := (id - 1) / peers, (id - 1) % peers;
    assert id + peers - 1 == (q + 1) * peers + r;
    RemainderIs(id + peers - 1, q + 1, r, peers);
  }

  lemma {:induction false} RemainderIs(x: nat, q: nat, r: nat, d: nat)
    requires d > 0 && r < d && x == q * d + r
    ensures x / d == q && x % d == r
  {
    QuotientUnique(q, r, x / d, x % d, d);
  }

  lemma {:induction false} QuotientUnique(q: int, r: nat, q': int, r': nat, d: nat)
    requires r < d && r' < d && q * d + r == q' * d + r'
    ensures q == q' && r == r'
  {
    MultipleGap(q, q', d);
    MultipleGap(q', q, d);
  }

  lemma {:induction false} MultipleGap(q: int, q': int, d: nat)
    ensures q > q' ==> q * d >= q' * d + d
  {
    if q > q' {
      var k: nat := q - q' - 1;
      assert q * d == (q' + 1 + k) * d == q' * d + d + k * d;
    }
  }

  lemma {:induction false} RaisedKeepsSlot(lastID: nat, maxID: nat, peers: nat)
    requires lastID > 0 && peers > 0
    ensures Raised(lastID, maxID, peers) > 0
    ensures Slot(Raised(lastID, maxID, peers), peers) == Slot(lastID, peers)
    decreases maxID - lastID
  {
    if lastID < maxID {
      SlotShift(lastID, peers);
      RaisedKeepsSlot(lastID + peers, maxID, peers);
    }
  }

  lemma {:induction false} SameSlotGap(id: nat, other: nat, peers: nat)
    requires 0 < id < other && peers > 0 && Slot(other, peers) == Slot(id, peers)
    ensures id + peers <= other
  {
    var q, q', r := (id - 1) / peers, (other - 1) / peers, (id - 1) % peers;
    assert id - 1 == q * peers + r && other - 1 == q' * peers + r;
    MultipleGap(q, q', peers);
    MultipleGap(q', q, peers);
  }

  /** No ID of the same owner between the two bounds is below the raised one. */
  lemma {:induction false} RaisedIsFirst(lastID: nat, maxID: nat, peers: nat, other: nat)
    requires lastID > 0 && peers > 0 && other >= lastID && other >= maxID && Slot(other, peers) == Slot(lastID, peers)
    ensures Raised(lastID, maxID, peers) <= other
    decreases maxID - lastID
  {
    if lastID < maxID {
      SameSlotGap(lastID, other, peers);
      SlotShift(lastID, peers);
      RaisedIsFirst(lastID + peers, maxID, peers, other);
    }
  }

  /** Prepares keep distinct IDs as long as a new one is the sender's next ID. */
  lemma {:induction false} PreparesStayDistinct(cfg: Config, s: System, s': System, n: nat, out: Outgoing)
    requires PreparesOwned(cfg, s) && Moved(cfg, s, s', n, out)
    requires s.nodes[n].lastID <= s'.nodes[n].lastID && Slot(s'.nodes[n].lastID, cfg.peers) == n
    requires !out.Silent? && out.msg.Prepare? ==>
               && out.msg.source == n && s.nodes[n].lastID <= out.msg.id < s'.nodes[n].lastID
               && Slot(out.msg.id, cfg.peers) == n
    requires forall i :: 0 <= i < cfg.peers && s'.nodes[i].acceptor.clock.maxID != 0 ==>
               exists e :: e in s'.net && e.msg.Prepare? && e.msg.id == s'.nodes[i].acceptor.clock.maxID
    ensures PreparesOwned(cfg, s')
  {
  }

  lemma {:induction false} NextPrepareOwned(ps: ProposerState, lastID: nat, env: Environment, setting: Setting)
    requires setting.peers > 0 && Fits(ps, env, setting.threshold) && lastID > 0
    ensures var turn := Next(ps, lastID, env, setting);
            && lastID <= turn.lastID && Slot(turn.lastID, setting.peers) == Slot(lastID, setting.peers)
            && (!turn.out.Silent? && turn.out.msg.Prepare? ==>
                  && turn.out.msg.source == setting.self
                  && lastID <= turn.out.msg.id < turn.lastID
                  && Slot(turn.out.msg.id, setting.peers) == Slot(lastID, setting.peers))
  {
    if ps.Begin? && ps.trial <= MAX_TRIALS {
      var id := Raised(lastID, env.maxID, setting.peers);
      RaisedKeepsSlot(lastID, env.maxID, setting.peers);
      SlotShift(id, setting.peers);
    }
  }

  lemma {:induction false} PreparesOwnedStep(cfg: Config, s: System, a: Action)
    requires Enabled(cfg, s, a) && PreparesOwned(cfg, s)
    ensures PreparesOwned(cfg, Apply(cfg, s, a))
  {
    var node := s.nodes[a.n];
    ActionMoves(cfg, s, a);
    MaxIDsPrepared(cfg, s, a);
    if a.Deliver? {
      DeliverKeepsProposer(cfg, s, a);
    } else if a.Advance? {
      NextPrepareOwned(node.proposer, node.lastID, EnvironmentOf(node, a.picked, a.ticks), SettingOf(cfg, a.n));
    }
    PreparesStayDistinct(cfg, s, Apply(cfg, s, a), a.n, Output(cfg, s, a));
  }

  lemma {:induction false} HandleKeepsMaxID(cfg: Config, st: AcceptorState, m: Message, valid: bool)
    ensures var maxID := Handle(cfg, st, m, valid).state.clock.maxID;
            maxID == 0 || maxID == st.clock.maxID || (m.Prepare? && maxID == m.id)
  {
  }

  lemma {:induction false} MaxIDsPrepared(cfg: Config, s: System, a: Action)
    requires Enabled(cfg, s, a) && PreparesOwned(cfg, s)
    ensures var s' := Apply(cfg, s, a);
            forall i :: 0 <= i < cfg.peers && s'.nodes[i].acceptor.clock.maxID != 0 ==>
              exists e :: e in s'.net && e.msg.Prepare? && e.msg.id == s'.nodes[i].acceptor.clock.maxID
  {
    hide Handle, Next, Fits;
    var s' := Apply(cfg, s, a);
    if a.Deliver? {
      HandleKeepsMaxID(cfg, s.nodes[a.n].acceptor, a.e.msg, a.valid);
    }
    forall i | 0 <= i < cfg.peers && s'.nodes[i].acceptor.clock.maxID != 0
      ensures exists e :: e in s'.net && e.msg.Prepare? && e.msg.id == s'.nodes[i].acceptor.clock.maxID
    {
      var was, now := s.nodes[i].acceptor.clock.maxID, s'.nodes[i].acceptor.clock.maxID;
      if now == was {
        var e :| e in s.net && e.msg.Prepare? && e.msg.id == was;
        assert e in s'.net;
      } else {
        assert a.Deliver? && a.e.msg.Prepare? && a.e in s'.net;
      }
    }
  }

  /** A new proposal comes from the run that prepared its ID. */
  lemma {:induction false} ProposalsStayDistinct(cfg: Config, s: System, s': System, n: nat, out: Outgoing)
    requires ProposalsOwned(cfg, s) && PreparesOwned(cfg, s') && Moved(cfg, s, s', n, out)
    requires !out.Silent? && out.msg.Propose? ==>
               && s.nodes[n].proposer.WaitPromise?
               && out.msg == Propose(s.nodes[n].proposer.step, s.nodes[n].proposer.id, n, out.msg.value)
    requires RunOwned(s'.net, s'.nodes[n].proposer, n)
    ensures ProposalsOwned(cfg, s')
  {
    forall e | e in s'.net && e.msg.Propose?
      ensures e.msg.source == e.origin && Prepared(s'.net, e.msg.step, e.msg.id, e.origin)
    {
      assert Prepared(s.net, e.msg.step, e.msg.id, e.origin);
    }
    forall i | 0 <= i < cfg.peers && i != n
      ensures RunOwned(s'.net, s'.nodes[i].proposer, i)
    {
      OtherRunOwned(cfg, s, s', n, out, i);
    }
  }

  lemma {:induction false} OtherRunOwned(cfg: Config, s: System, s': System, n: nat, out: Outgoing, i: nat)
    requires ProposalsOwned(cfg, s) && PreparesOwned(cfg, s') && Moved(cfg, s, s', n, out)
    requires i < cfg.peers && i != n
    requires !out.Silent? && out.msg.Propose? ==>
               && s.nodes[n].proposer.WaitPromise?
               && out.msg == Propose(s.nodes[n].proposer.step, s.nodes[n].proposer.id, n, out.msg.value)
    ensures RunOwned(s'.net, s'.nodes[i].proposer, i)
  {
    var ps := s.nodes[i].proposer;
    assert RunOwned(s.net, ps, i) && RunOwned(s.net, s.nodes[n].proposer, n);
  }

  /** How a turn takes the proposer of node n from ps to ps', and what it sends. */
  ghost predicate ProposerMoved(ps: ProposerState, ps': ProposerState, out: Outgoing, n: nat) {
    && (ps'.WaitPromise? ==> ps.Begin? && out == Broadcast(Prepare(ps'.step, ps'.id, n)))
    && (ps'.WaitAccept? ==> ps.WaitPromise? && ps.step == ps'.step && ps.id == ps'.id
                            && out == Broadcast(Propose(ps'.step, ps'.id, n, ps'.chosen)))
    && (ps'.Done? ==> ps.WaitAccept? && ps.step == ps'.step && ps.id == ps'.id && ps.chosen == ps'.proposed)
    && (!out.Silent? ==> ps'.WaitPromise? || ps'.WaitAccept?)
  }

  lemma {:induction false} NextMovesProposer(ps: ProposerState, lastID: nat, env: Environment, setting: Setting)
    requires setting.peers > 0 && Fits(ps, env, setting.threshold)
    ensures var turn := Next(ps, lastID, env, setting);
            ProposerMoved(ps, turn.state, turn.out, setting.self)
  {
  }

  lemma {:induction false} ActionMovesProposer(cfg: Config, s: System, a: Action)
    requires Enabled(cfg, s, a) && !a.Deliver? && cfg.peers > 0
    ensures ProposerMoved(s.nodes[a.n].proposer, Apply(cfg, s, a).nodes[a.n].proposer, Output(cfg, s, a), a.n)
  {
    var node := s.nodes[a.n];
    if a.Advance? {
      NextMovesProposer(node.proposer, node.lastID, EnvironmentOf(node, a.picked, a.ticks), SettingOf(cfg, a.n));
    }
  }

  lemma {:induction false} OwnRunOwned(cfg: Config, s: System, s': System, n: nat, out: Outgoing)
    requires ProposalsOwned(cfg, s) && PreparesOwned(cfg, s') && Moved(cfg, s, s', n, out)
    requires ProposerMoved(s.nodes[n].proposer, s'.nodes[n].proposer, out, n)
    ensures RunOwned(s'.net, s'.nodes[n].proposer, n)
  {
    assert RunOwned(s.net, s.nodes[n].proposer, n);
    if s'.nodes[n].proposer.WaitPromise? {
      forall e | e in s'.net && e.msg.Propose?
        ensures e.msg.id != out.msg.id
      {
        assert Prepared(s.net, e.msg.step, e.msg.id, e.origin);
      }
    }
  }

  lemma {:induction false} ProposalsOwnedStep(cfg: Config, s: System, a: Action)
    requires Enabled(cfg, s, a) && ProposalsOwned(cfg, s)
    ensures ProposalsOwned(cfg, Apply(cfg, s, a))
  {
    PreparesOwnedStep(cfg, s, a);
    ActionMoves(cfg, s, a);
    var s' := Apply(cfg, s, a);
    if a.Deliver? {
      DeliverKeepsProposer(cfg, s, a);
      assert RunOwned(s.net, s.nodes[a.n].proposer, a.n);
      assert RunOwned(s'.net, s'.nodes[a.n].proposer, a.n);
    } else {
      ActionMovesProposer(cfg, s, a);
      OwnRunOwned(cfg, s, s', a.n, Output(cfg, s, a));
    }
    ProposalsStayDistinct(cfg, s, s', a.n, Output(cfg, s, a));
  }

  // Votes: the accept messages that are broadcast.

  predicate Vote(e: Envelope) {
    e.to == None && e.msg.Accept?
  }

  predicate SameVote(e: Envelope, f: Envelope) {
    Vote(e) && Vote(f) && e.origin == f.origin && e.msg.id == f.msg.id
  }

  predicate IsVoteOut(out: Outgoing) {
    out.Broadcast? && out.msg.Accept?
  }

  /** How a handled message m moves an acceptor's clock from c to c', and what the acceptor answers. */
  ghost predicate ClockMoved(c: ClockState, c': ClockState, m: Message, out: Outgoing) {
    && c.step <= c'.step
    && (c.step < c'.step ==> m.TLC? && c'.maxID == 0 && c'.acceptedValue == None)
    && (c.step == c'.step ==> c.maxID <= c'.maxID)
    && (c.step == c'.step && !IsVoteOut(out) ==>
          c'.acceptedID == c.acceptedID && c'.acceptedValue == c.acceptedValue)
    && (IsVoteOut(out) ==>
          && m.Propose? && out.msg == Accept(m.step, m.id, m.source, m.value)
          && c.step == c'.step == m.step && c.maxID == c'.maxID == m.id
          && c'.acceptedID == m.id && c'.acceptedValue == Some(m.value))
    && (out.Private? && out.msg.Accept? ==> IsReject(out.msg.value))
    && (!out.Silent? && out.msg.Promise? ==>
          && m.Prepare? && c.step == c'.step == m.step && c.maxID < m.id == c'.maxID
          && out == Private(m.source,
                            Promise(m.step, m.id, if c.acceptedValue.Some? then c.acceptedID else 0, c.acceptedValue)))
    && (out.Silent? || !(out.msg.Prepare? || out.msg.Propose?))
  }

  lemma {:induction false} HandleMovesClock(cfg: Config, st: AcceptorState, m: Message, valid: bool)
    ensures var h := Handle(cfg, st, m, valid); ClockMoved(st.clock, h.state.clock, m, h.out)
  {
  }

  ghost predicate ProposalSeen(seen: set<Envelope>, m: Message)
    requires m.Accept?
  {
    exists p :: p in seen && p.msg == Propose(m.step, m.id, m.source, m.value)
  }

  /** A vote is in the past of its voter's clock and never above what the voter accepted last. */
  ghost predicate VoteRemembered(c: ClockState, m: Message)
    requires m.Accept?
  {
    && m.step <= c.step
    && (m.step == c.step ==>
          && c.acceptedValue.Some? && m.id <= c.acceptedID
          && (m.id == c.acceptedID ==> m.value == c.acceptedValue.value))
  }

  ghost predicate HasVoted(net: set<Envelope>, n: nat, step: nat, id: nat, v: PaxosValue) {
    exists e :: e in net && e.origin == n && IsVote(e, step, id, v)
  }

  ghost predicate VotesKept(cfg: Config, s: System) {
    && ProposalsOwned(cfg, s)
    && (forall e :: e in s.net && e.msg.Accept? && e.to.Some? ==> IsReject(e.msg.value))
    && (forall e :: e in s.net && Vote(e) ==> ProposalSeen(s.nodes[e.origin].seen, e.msg))
    && (forall e :: e in s.net && Vote(e) ==> VoteRemembered(s.nodes[e.origin].acceptor.clock, e.msg))
    && (forall e, f :: e in s.net && f in s.net && SameVote(e, f) ==> e == f)
    && (forall i :: 0 <= i < cfg.peers ==> AcceptedIsVote(s.net, s.nodes[i].acceptor.clock, i))
  }

  ghost predicate AcceptedIsVote(net: set<Envelope>, c: ClockState, n: nat) {
    c.acceptedValue.Some? ==> c.acceptedID <= c.maxID && HasVoted(net, n, c.step, c.acceptedID, c.acceptedValue.value)
  }

  lemma {:induction false} VotesKeptBy(cfg: Config, s: System, s': System, n: nat, m: Envelope, out: Outgoing)
    requires VotesKept(cfg, s) && ProposalsOwned(cfg, s') && Moved(cfg, s, s', n, out)
    requires ClockMoved(s.nodes[n].acceptor.clock, s'.nodes[n].acceptor.clock, m.msg, out)
    requires m in s.net && m !in s.nodes[n].seen && s'.nodes[n].seen == s.nodes[n].seen + {m}
    ensures VotesKept(cfg, s')
  {
    forall e | e in s'.net && Vote(e)
      ensures ProposalSeen(s'.nodes[e.origin].seen, e.msg)
    {
      if e in s.net {
        var p :| p in s.nodes[e.origin].seen && p.msg == Propose(e.msg.step, e.msg.id, e.msg.source, e.msg.value);
        assert p in s'.nodes[e.origin].seen;
      }
    }
    VotesStayDistinct(cfg, s, s', n, m, out);
    VotesStayRemembered(cfg, s, s', n, m, out);
    forall i | 0 <= i < cfg.peers
      ensures AcceptedIsVote(s'.net, s'.nodes[i].acceptor.clock, i)
    {
      AcceptedStaysVote(cfg, s, s', n, m.msg, out, i);
    }
  }

  lemma {:induction false} AcceptedStaysVote(cfg: Config, s: System, s': System, n: nat, m: Message, out: Outgoing,
                                             i: nat)
    requires VotesKept(cfg, s) && Moved(cfg, s, s', n, out) && i < cfg.peers
    requires ClockMoved(s.nodes[n].acceptor.clock, s'.nodes[n].acceptor.clock, m, out)
    ensures AcceptedIsVote(s'.net, s'.nodes[i].acceptor.clock, i)
  {
    var c := s.nodes[i].acceptor.clock;
    assert AcceptedIsVote(s.net, c, i);
    if c.acceptedValue.Some? {
      assert HasVoted(s'.net, i, c.step, c.acceptedID, c.acceptedValue.value);
    }
    if i == n && IsVoteOut(out) {
      assert IsVote(Added(s, n, out), m.step, m.id, m.value);
    }
  }

  /** A node votes for an ID once, because it handles the ID's only proposal once. */
  lemma {:induction false} NewVoteDistinct(cfg: Config, s: System, n: nat, m: Envelope, e: Envelope)
    requires VotesKept(cfg, s) && n < cfg.peers
    requires m in s.net && m !in s.nodes[n].seen && m.msg.Propose?
    requires e in s.net && Vote(e) && e.origin == n
    ensures e.msg.id != m.msg.id
  {
    var p :| p in s.nodes[n].seen && p.msg == Propose(e.msg.step, e.msg.id, e.msg.source, e.msg.value);
    assert p in s.net;
  }

  lemma {:induction false} VotesStayDistinct(cfg: Config, s: System, s': System, n: nat, m: Envelope, out: Outgoing)
    requires VotesKept(cfg, s) && ProposalsOwned(cfg, s') && Moved(cfg, s, s', n, out)
    requires ClockMoved(s.nodes[n].acceptor.clock, s'.nodes[n].acceptor.clock, m.msg, out)
    requires m in s.net && m !in s.nodes[n].seen
    ensures forall e, f :: e in s'.net && f in s'.net && SameVote(e, f) ==> e == f
  {
    if IsVoteOut(out) {
      forall e | e in s.net && Vote(e) && e.origin == n
        ensures e.msg.id != out.msg.id
      {
        NewVoteDistinct(cfg, s, n, m, e);
      }
    }
  }

  lemma {:induction false} VotesStayRemembered(cfg: Config, s: System, s': System, n: nat, m: Envelope, out: Outgoing)
    requires VotesKept(cfg, s) && Moved(cfg, s, s', n, out)
    requires ClockMoved(s.nodes[n].acceptor.clock, s'.nodes[n].acceptor.clock, m.msg, out)
    requires m in s.net && m !in s.nodes[n].seen
    ensures forall e :: e in s'.net && Vote(e) ==> VoteRemembered(s'.nodes[e.origin].acceptor.clock, e.msg)
  {
    forall e | e in s'.net && Vote(e)
      ensures VoteRemembered(s'.nodes[e.origin].acceptor.clock, e.msg)
    {
      if e in s.net {
        assert VoteRemembered(s.nodes[e.origin].acceptor.clock, e.msg);
        if e.origin == n && IsVoteOut(out) {
          NewVoteDistinct(cfg, s, n, m, e);
          assert AcceptedIsVote(s.net, s.nodes[n].acceptor.clock, n);
        }
      }
    }
  }

  lemma {:induction false} VotesKeptStep(cfg: Config, s: System, a: Action)
    requires Enabled(cfg, s, a) && VotesKept(cfg, s)
    ensures VotesKept(cfg, Apply(cfg, s, a))
  {
    ProposalsOwnedStep(cfg, s, a);
    ActionMoves(cfg, s, a);
    var s' := Apply(cfg, s, a);
    if a.Deliver? {
      HandleMovesClock(cfg, s.nodes[a.n].acceptor, a.e.msg, a.valid);
      VotesKeptBy(cfg, s, s', a.n, a.e, Output(cfg, s, a));
    } else {
      AdvanceKeepsAcceptor(cfg, s, a);
      VotesKeptIdly(cfg, s, s', a.n, Output(cfg, s, a));
    }
  }

  lemma {:induction false} VotesKeptIdly(cfg: Config, s: System, s': System, n: nat, out: Outgoing)
    requires VotesKept(cfg, s) && ProposalsOwned(cfg, s') && Moved(cfg, s, s', n, out)
    requires out.Silent? || out.msg.Prepare? || out.msg.Propose?
    requires s'.nodes[n].acceptor == s.nodes[n].acceptor && s'.nodes[n].seen == s.nodes[n].seen
    ensures VotesKept(cfg, s')
  {
    forall i | 0 <= i < cfg.peers
      ensures AcceptedIsVote(s'.net, s'.nodes[i].acceptor.clock, i)
    {
      AcceptedStillVote(s.net, s'.net, s.nodes[i].acceptor.clock, i);
    }
  }

  lemma {:induction false} AcceptedStillVote(net: set<Envelope>, net': set<Envelope>, c: ClockState, n: nat)
    requires AcceptedIsVote(net, c, n) && net <= net'
    ensures AcceptedIsVote(net', c, n)
  {
    if c.acceptedValue.Some? {
      assert HasVoted(net', n, c.step, c.acceptedID, c.acceptedValue.value);
    }
  }

  // Promises.

  ghost predicate PrepareSent(net: set<Envelope>, step: nat, id: nat) {
    exists p :: p in net && p.msg.Prepare? && p.msg.step == step && p.msg.id == id
  }

  /** What a promise said at the time stays true: below its ID the promiser votes no more. */
  ghost predicate PromiseTrue(net: set<Envelope>, c: ClockState, e: Envelope)
    requires e.msg.Promise?
  {
    && PrepareSent(net, e.msg.step, e.msg.id)
    && e.msg.step <= c.step && (e.msg.step == c.step ==> e.msg.id <= c.maxID)
    && (e.msg.acceptedValue.Some? ==>
          && e.msg.acceptedID < e.msg.id
          && HasVoted(net, e.origin, e.msg.step, e.msg.acceptedID, e.msg.acceptedValue.value))
    && (forall f :: f in net && Vote(f) && f.origin == e.origin && f.msg.step == e.msg.step && f.msg.id < e.msg.id ==>
          e.msg.acceptedValue.Some? && f.msg.id <= e.msg.acceptedID)
  }

  predicate SamePromise(e: Envelope, f: Envelope) {
    e.msg.Promise? && f.msg.Promise? && e.origin == f.origin && e.msg.id == f.msg.id
  }

  ghost predicate PromisesKept(cfg: Config, s: System) {
    && VotesKept(cfg, s)
    && (forall e :: e in s.net && e.msg.Promise? ==> PromiseTrue(s.net, s.nodes[e.origin].acceptor.clock, e))
    && (forall e, f :: e in s.net && f in s.net && SamePromise(e, f) ==> e == f)
  }

  lemma {:induction false} OldPromiseTrue(cfg: Config, s: System, s': System, n: nat, m: Message, out: Outgoing,
                                          e: Envelope)
    requires PromisesKept(cfg, s) && Moved(cfg, s, s', n, out)
    requires ClockMoved(s.nodes[n].acceptor.clock, s'.nodes[n].acceptor.clock, m, out)
    requires e in s.net && e.msg.Promise?
    ensures PromiseTrue(s'.net, s'.nodes[e.origin].acceptor.clock, e)
  {
    assert PromiseTrue(s.net, s.nodes[e.origin].acceptor.clock, e);
    assert PrepareSent(s'.net, e.msg.step, e.msg.id);
    if e.msg.acceptedValue.Some? {
      assert HasVoted(s'.net, e.origin, e.msg.step, e.msg.acceptedID, e.msg.acceptedValue.value);
    }
  }

  lemma {:induction false} NewPromiseTrue(cfg: Config, s: System, s': System, n: nat, m: Envelope, out: Outgoing)
    requires PromisesKept(cfg, s) && VotesKept(cfg, s') && Moved(cfg, s, s', n, out)
    requires ClockMoved(s.nodes[n].acceptor.clock, s'.nodes[n].acceptor.clock, m.msg, out)
    requires m in s.net && !out.Silent? && out.msg.Promise?
    ensures PromiseTrue(s'.net, s'.nodes[n].acceptor.clock, Added(s, n, out))
    ensures forall f :: f in s.net && f.msg.Promise? && f.origin == n ==> f.msg.id != out.msg.id
  {
    var c, e := s.nodes[n].acceptor.clock, Added(s, n, out);
    assert PrepareSent(s'.net, e.msg.step, e.msg.id) by {
      assert m in s'.net;
    }
    assert AcceptedIsVote(s.net, c, n);
    if c.acceptedValue.Some? {
      assert HasVoted(s'.net, n, c.step, c.acceptedID, c.acceptedValue.value);
    }
    forall f | f in s.net && f.msg.Promise? && f.origin == n
      ensures f.msg.id != out.msg.id
    {
      assert PromiseTrue(s.net, c, f);
      assert PrepareSent(s.net, f.msg.step, f.msg.id);
    }
  }

  lemma {:induction false} PromisesKeptBy(cfg: Config, s: System, s': System, n: nat, m: Envelope, out: Outgoing)
    requires PromisesKept(cfg, s) && VotesKept(cfg, s') && Moved(cfg, s, s', n, out)
    requires ClockMoved(s.nodes[n].acceptor.clock, s'.nodes[n].acceptor.clock, m.msg, out)
    requires m in s.net
    ensures PromisesKept(cfg, s')
  {
    hide VotesKept, ClockMoved, PromiseTrue;
    forall e | e in s'.net && e.msg.Promise?
      ensures PromiseTrue(s'.net, s'.nodes[e.origin].acceptor.clock, e)
    {
      if e in s.net {
        OldPromiseTrue(cfg, s, s', n, m.msg, out, e);
      } else {
        NewPromiseTrue(cfg, s, s', n, m, out);
      }
    }
    if !out.Silent? && out.msg.Promise? {
      NewPromiseTrue(cfg, s, s', n, m, out);
    }
  }

  lemma {:induction false} PromiseStaysTrue(cfg: Config, s: System, s': System, n: nat, out: Outgoing, e: Envelope)
    requires PromisesKept(cfg, s) && Moved(cfg, s, s', n, out)
    requires out.Silent? || out.msg.Prepare? || out.msg.Propose?
    requires s'.nodes[n].acceptor == s.nodes[n].acceptor
    requires e in s'.net && e.msg.Promise?
    ensures PromiseTrue(s'.net, s'.nodes[e.origin].acceptor.clock, e)
  {
    assert PromiseTrue(s.net, s.nodes[e.origin].acceptor.clock, e);
    assert PrepareSent(s'.net, e.msg.step, e.msg.id);
    if e.msg.acceptedValue.Some? {
      assert HasVoted(s'.net, e.origin, e.msg.step, e.msg.acceptedID, e.msg.acceptedValue.value);
    }
  }

  lemma {:induction false} PromisesKeptIdly(cfg: Config, s: System, s': System, n: nat, out: Outgoing)
    requires PromisesKept(cfg, s) && VotesKept(cfg, s') && Moved(cfg, s, s', n, out)
    requires out.Silent? || out.msg.Prepare? || out.msg.Propose?
    requires s'.nodes[n].acceptor == s.nodes[n].acceptor
    ensures PromisesKept(cfg, s')
  {
    hide VotesKept, PromiseTrue;
    forall e | e in s'.net && e.msg.Promise?
      ensures PromiseTrue(s'.net, s'.nodes[e.origin].acceptor.clock, e)
    {
      PromiseStaysTrue(cfg, s, s', n, out, e);
    }
  }

  lemma {:induction false} PromisesKeptStep(cfg: Config, s: System, a: Action)
    requires Enabled(cfg, s, a) && PromisesKept(cfg, s)
    ensures PromisesKept(cfg, Apply(cfg, s, a))
  {
    VotesKeptStep(cfg, s, a);
    ActionMoves(cfg, s, a);
    var s' := Apply(cfg, s, a);
    if a.Deliver? {
      HandleMovesClock(cfg, s.nodes[a.n].acceptor, a.e.msg, a.valid);
      PromisesKeptBy(cfg, s, s', a.n, a.e, Output(cfg, s, a));
    } else {
      AdvanceKeepsAcceptor(cfg, s, a);
      PromisesKeptIdly(cfg, s, s', a.n, Output(cfg, s, a));
    }
  }

  lemma {:induction false} AlwaysPromisesKept(cfg: Config, acts: seq<Action>)
    requires cfg.peers > 0 && Legal(cfg, acts)
    ensures PromisesKept(cfg, After(cfg, acts))
  {
    if acts == [] {
      InitialPromisesKept(cfg);
    } else {
      AlwaysPromisesKept(cfg, acts[..|acts| - 1]);
      PromisesKeptStep(cfg, After(cfg, acts[..|acts| - 1]), acts[|acts| - 1]);
    }
  }

  lemma {:induction false} InitialPromisesKept(cfg: Config)
    requires cfg.peers > 0
    ensures PromisesKept(cfg, Initial(cfg))
  {
    var s := Initial(cfg);
    forall i | 0 <= i < cfg.peers
      ensures s.nodes[i].lastID > 0 && Slot(s.nodes[i].lastID, cfg.peers) == i
    {
      RemainderIs(i, 0, i, cfg.peers);
    }
  }

  // Proposal IDs over whole runs.

  /** No two prepares of a run share an ID, whichever nodes, rounds or steps they belong to. */
  lemma {:induction false} IDsNeverReused(cfg: Config, acts: seq<Action>, e: Envelope, f: Envelope)
    requires cfg.peers > 0 && Legal(cfg, acts)
    requires e in After(cfg, acts).net && f in After(cfg, acts).net
    requires e.msg.Prepare? && f.msg.Prepare? && e.msg.id == f.msg.id
    ensures e == f
  {
    AlwaysPromisesKept(cfg, acts);
  }

  /** Of two prepares of one node the one sent later has the larger ID. */
  ghost predicate IDsRise(s: System) {
    forall e, f :: e in s.net && f in s.net && e.msg.Prepare? && f.msg.Prepare? && e.origin == f.origin
                   && e.seqNo < f.seqNo
                   ==> e.msg.id < f.msg.id
  }

  lemma {:induction false} IDsStayRising(cfg: Config, s: System, s': System, n: nat, out: Outgoing)
    requires PreparesOwned(cfg, s) && IDsRise(s) && Moved(cfg, s, s', n, out)
    requires !out.Silent? && out.msg.Prepare? ==> s.nodes[n].lastID <= out.msg.id
    ensures IDsRise(s')
  {
    hide Slot;
  }

  lemma {:induction false} IDsRiseStep(cfg: Config, s: System, a: Action)
    requires Enabled(cfg, s, a) && PreparesOwned(cfg, s) && IDsRise(s)
    ensures IDsRise(Apply(cfg, s, a))
  {
    var node := s.nodes[a.n];
    ActionMoves(cfg, s, a);
    if a.Deliver? {
      DeliverKeepsProposer(cfg, s, a);
    } else if a.Advance? {
      NextPrepareOwned(node.proposer, node.lastID, EnvironmentOf(node, a.picked, a.ticks), SettingOf(cfg, a.n));
    }
    IDsStayRising(cfg, s, Apply(cfg, s, a), a.n, Output(cfg, s, a));
  }

  lemma {:induction false} AlwaysIDsRise(cfg: Config, acts: seq<Action>)
    requires cfg.peers > 0 && Legal(cfg, acts)
    ensures IDsRise(After(cfg, acts))
  {
    if acts != [] {
      AlwaysIDsRise(cfg, acts[..|acts| - 1]);
      AlwaysPromisesKept(cfg, acts[..|acts| - 1]);
      IDsRiseStep(cfg, After(cfg, acts[..|acts| - 1]), acts[|acts| - 1]);
    }
  }

  /** In every run the prepares of a node carry IDs in the order of sending, over all its rounds, retries
      and steps. */
  lemma {:induction false} LaterPreparesHigher(cfg: Config, acts: seq<Action>, e: Envelope, f: Envelope)
    requires cfg.peers > 0 && Legal(cfg, acts)
    requires e in After(cfg, acts).net && f in After(cfg, acts).net && e.origin == f.origin
    requires e.msg.Prepare? && f.msg.Prepare?
    ensures e.seqNo < f.seqNo <==> e.msg.id < f.msg.id
  {
    AlwaysPromisesKept(cfg, acts);
    AlwaysIDsRise(cfg, acts);
  }

  /** The catch-up loop stops at "not below" the highest promised ID, yet never at that ID itself. */
  lemma {:induction false} NextIDAboveMaxID(cfg: Config, acts: seq<Action>, n: nat)
    requires cfg.peers > 0 && Legal(cfg, acts) && n < |After(cfg, acts).nodes|
    ensures var node := After(cfg, acts).nodes[n];
            Raised(node.lastID, node.acceptor.clock.maxID, cfg.peers) > node.acceptor.clock.maxID
  {
    AlwaysPromisesKept(cfg, acts);
    var s := After(cfg, acts);
    RaisedAbove(cfg, s, n);
  }

  lemma {:induction false} RaisedAbove(cfg: Config, s: System, n: nat)
    requires PreparesOwned(cfg, s) && n < cfg.peers
    ensures var node := s.nodes[n];
            Raised(node.lastID, node.acceptor.clock.maxID, cfg.peers) > node.acceptor.clock.maxID
  {
    var node := s.nodes[n];
    var maxID := node.acceptor.clock.maxID;
    RaisedKeepsSlot(node.lastID, maxID, cfg.peers);
    if maxID != 0 {
      var e :| e in s.net && e.msg.Prepare? && e.msg.id == maxID;
      assert Slot(e.msg.id, cfg.peers) == e.origin && e.msg.id < s.nodes[e.origin].lastID;
    }
  }

  /** What an acceptor promised for a step and ID binds it for ever: whatever it votes for in that step
      under a lower ID, it had reported. */
  lemma {:induction false} PromisesNeverBroken(cfg: Config, acts: seq<Action>, p: Envelope, f: Envelope)
    requires cfg.peers > 0 && Legal(cfg, acts)
    requires p in After(cfg, acts).net && f in After(cfg, acts).net && p.origin == f.origin
    requires p.msg.Promise? && Vote(f) && p.msg.step == f.msg.step && f.msg.id < p.msg.id
    ensures p.msg.acceptedValue.Some? && f.msg.id <= p.msg.acceptedID
    ensures f.msg.id == p.msg.acceptedID ==> f.msg.value == p.msg.acceptedValue.value
  {
    AlwaysPromisesKept(cfg, acts);
    var s := After(cfg, acts);
    assert PromiseTrue(s.net, s.nodes[p.origin].acceptor.clock, p);
    var g :| g in s.net && g.origin == p.origin && IsVote(g, p.msg.step, p.msg.acceptedID, p.msg.acceptedValue.value);
    assert f.msg.id == p.msg.acceptedID ==> SameVote(f, g);
  }
}
