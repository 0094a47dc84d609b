/** How proposals are answered and how they end, over every legal run: refusals reach the proposer, and a
    proposal fails or succeeds exactly on the quorums that the protocol asks for. */
module PaxosOutcomes {
  import opened Common
  import opened PaxosTypes
  import opened Acceptors
  import opened Proposers
  import opened PaxosSystem
  import opened PaxosInvariants
  import opened PaxosAgreement
  import opened PaxosChains

  // Answers to a proposal.

  predicate Rejection(e: Envelope) {
    e.to.Some? && e.msg.Accept?
  }

  predicate SameAnswer(f: Envelope, g: Envelope) {
    f.msg.Accept? && g.msg.Accept? && f.origin == g.origin && f.msg.id == g.msg.id
  }

  /** A rejection answers a proposal that its sender handled: it goes to the proposer and names the value. */
  ghost predicate RejectsSeen(seen: set<Envelope>, f: Envelope)
    requires Rejection(f)
  {
    exists e :: e in seen && e.msg.Propose? && e.msg.step == f.msg.step && e.msg.id == f.msg.id
                && f.to == Some(e.msg.source) && IsRejection(f.msg, e.msg.value)
  }

  /** A node answers a proposal once: it rejects an ID once, and votes for no ID that it rejects. */
  ghost predicate RejectionsKept(cfg: Config, s: System) {
    && VotesKept(cfg, s)
    && (forall f :: f in s.net && Rejection(f) ==> RejectsSeen(s.nodes[f.origin].seen, f))
    && (forall f, g :: f in s.net && g in s.net && Rejection(f) && SameAnswer(f, g) ==> f == g)
  }

  predicate RejectsOut(out: Outgoing) {
    out.Private? && out.msg.Accept?
  }

  /** How an acceptor answers a message with an accept message, which is a vote or a rejection. */
  lemma {:induction false} AnswersAccept(cfg: Config, st: AcceptorState, m: Message, valid: bool)
    ensures var out := Handle(cfg, st, m, valid).out;
            && (!out.Silent? && out.msg.Accept? ==>
                  m.Propose? && out.msg.step == m.step && out.msg.id == m.id && (out.Broadcast? || out.Private?))
            && (RejectsOut(out) ==> out.to == m.source && IsRejection(out.msg, m.value))
  {
  }

  /** A node did not answer the proposal of an ID before it handles it. */
  lemma {:induction false} NotAnsweredYet(cfg: Config, s: System, n: nat, m: Envelope, f: Envelope)
    requires RejectionsKept(cfg, s) && n < cfg.peers && m in s.net && m !in s.nodes[n].seen && m.msg.Propose?
    requires f in s.net && f.origin == n && f.msg.Accept?
    ensures f.msg.id != m.msg.id
  {
    if Rejection(f) {
      var e :| e in s.nodes[n].seen && e.msg.Propose? && e.msg.step == f.msg.step && e.msg.id == f.msg.id;
      assert e in s.net;
    } else {
      NewVoteDistinct(cfg, s, n, m, f);
    }
  }

  lemma {:induction false} RejectionsAfterDelivery(cfg: Config, s: System, s': System, n: nat, m: Envelope,
                                                   out: Outgoing)
    requires RejectionsKept(cfg, s) && VotesKept(cfg, s') && Moved(cfg, s, s', n, out)
    requires m in s.net && m !in s.nodes[n].seen && s'.nodes[n].seen == s.nodes[n].seen + {m}
    requires !out.Silent? && out.msg.Accept? ==> m.msg.Propose? && out.msg.step == m.msg.step && out.msg.id == m.msg.id
    requires RejectsOut(out) ==> out.to == m.msg.source && IsRejection(out.msg, m.msg.value)
    ensures RejectionsKept(cfg, s')
  {
    hide VotesKept;
    forall f | f in s'.net && Rejection(f)
      ensures RejectsSeen(s'.nodes[f.origin].seen, f)
    {
      if f in s.net {
        StillRejects(s.nodes[f.origin].seen, s'.nodes[f.origin].seen, f);
      } else {
        assert m in s'.nodes[n].seen;
      }
    }
    if !out.Silent? && out.msg.Accept? {
      forall f | f in s.net && f.origin == n && f.msg.Accept?
        ensures f.msg.id != out.msg.id
      {
        NotAnsweredYet(cfg, s, n, m, f);
      }
    }
    hide RejectsSeen;
  }

  lemma {:induction false} StillRejects(seen: set<Envelope>, seen': set<Envelope>, f: Envelope)
    requires Rejection(f) && RejectsSeen(seen, f) && seen <= seen'
    ensures RejectsSeen(seen', f)
  {
    var e :| e in seen && e.msg.Propose? && e.msg.step == f.msg.step && e.msg.id == f.msg.id
             && f.to == Some(e.msg.source) && IsRejection(f.msg, e.msg.value);
    assert e in seen';
  }

  lemma {:induction false} RejectionsKeptIdly(cfg: Config, s: System, s': System, n: nat, out: Outgoing)
    requires RejectionsKept(cfg, s) && VotesKept(cfg, s') && Moved(cfg, s, s', n, out)
    requires out.Silent? || !out.msg.Accept?
    requires s'.nodes[n].seen == s.nodes[n].seen
    ensures RejectionsKept(cfg, s')
  {
    hide VotesKept, RejectsSeen;
  }

  lemma {:induction false} RejectionsKeptStep(cfg: Config, s: System, a: Action)
    requires Enabled(cfg, s, a) && RejectionsKept(cfg, s)
    ensures RejectionsKept(cfg, Apply(cfg, s, a))
  {
    VotesKeptStep(cfg, s, a);
    ActionMoves(cfg, s, a);
    if a.Deliver? {
      AnswersAccept(cfg, s.nodes[a.n].acceptor, a.e.msg, a.valid);
      RejectionsAfterDelivery(cfg, s, Apply(cfg, s, a), a.n, a.e, Output(cfg, s, a));
    } else {
      AdvanceKeepsAcceptor(cfg, s, a);
      RejectionsKeptIdly(cfg, s, Apply(cfg, s, a), a.n, Output(cfg, s, a));
    }
  }

  lemma {:induction false} AlwaysRejectionsKept(cfg: Config, acts: seq<Action>)
    requires cfg.peers > 0 && Legal(cfg, acts)
    ensures RejectionsKept(cfg, After(cfg, acts))
  {
    if acts == [] {
      InitialPromisesKept(cfg);
    } else {
      AlwaysRejectionsKept(cfg, acts[..|acts| - 1]);
      RejectionsKeptStep(cfg, After(cfg, acts[..|acts| - 1]), acts[|acts| - 1]);
    }
  }

  /** What a delivered proposal leads to: a vote exactly when it is for the node's own step, under the promised
      ID, and the checker accepts it; a rejection to the proposer, and nothing else, when only the checker
      refuses it; no answer otherwise. */
  ghost predicate Answered(cfg: Config, s: System, s': System, n: nat, e: Envelope, valid: bool)
    requires n < |s.nodes| && n < |s'.nodes| && e.msg.Propose?
  {
    var c := s.nodes[n].acceptor.clock;
    var due := e.msg.step == c.step && e.msg.id == c.maxID;
    && (HasVoted(s'.net, n, e.msg.step, e.msg.id, e.msg.value) <==> due && valid)
    && (RejectedBy(s'.net, n, e) <==> due && !valid)
    && (!due ==> s'.net == s.net)
    && (!(due && valid) ==> s'.nodes[n].acceptor == s.nodes[n].acceptor)
  }

  /** The node sent the proposer of a proposal a rejection of it. */
  ghost predicate RejectedBy(net: set<Envelope>, n: nat, e: Envelope)
    requires e.msg.Propose?
  {
    exists f :: f in net && f.origin == n && f.to == Some(e.origin) && f.msg.Accept?
                && f.msg.step == e.msg.step && f.msg.id == e.msg.id
                && f.msg.value.uniqID == e.msg.value.uniqID && f.msg.value.customValue == REJECT
  }

  lemma {:induction false} ProposalAnswered(cfg: Config, acts: seq<Action>, a: Action)
    requires cfg.peers > 0 && Legal(cfg, acts) && Enabled(cfg, After(cfg, acts), a)
    requires a.Deliver? && a.e.msg.Propose?
    ensures |After(cfg, acts).nodes| == |Apply(cfg, After(cfg, acts), a).nodes| == cfg.peers
    ensures Answered(cfg, After(cfg, acts), Apply(cfg, After(cfg, acts), a), a.n, a.e, a.valid)
  {
    AlwaysRejectionsKept(cfg, acts);
    AnsweredStep(cfg, After(cfg, acts), a);
  }

  lemma {:induction false} AnsweredStep(cfg: Config, s: System, a: Action)
    requires Enabled(cfg, s, a) && RejectionsKept(cfg, s) && a.Deliver? && a.e.msg.Propose?
    ensures Answered(cfg, s, Apply(cfg, s, a), a.n, a.e, a.valid)
  {
    var s', m := Apply(cfg, s, a), a.e.msg;
    forall f | f in s.net && f.origin == a.n && f.msg.Accept?
      ensures f.msg.id != m.id
    {
      NotAnsweredYet(cfg, s, a.n, a.e, f);
    }
    assert m.source == a.e.origin;
    hide RejectionsKept;
    var out, sent := Handle(cfg, s.nodes[a.n].acceptor, m, a.valid).out, s.nodes[a.n].sent;
    if !out.Silent? {
      var e := Envelope(a.n, sent, Destination(out), out.msg);
      assert e in s'.net;
      assert out.Broadcast? ==> IsVote(e, m.step, m.id, m.value);
    }
  }

  // The end of a proposal.

  /** The nodes that promised, accepted or rejected, among the messages that a proposer picked. */
  function Promisers(picked: seq<Envelope>): set<nat> {
    set e | e in picked && e.msg.Promise? :: e.origin
  }

  function Accepters(picked: seq<Envelope>, chosen: PaxosValue): set<nat> {
    set e | e in picked && e.msg.Accept? && e.msg.value.uniqID == chosen.uniqID && e.msg.value.customValue != REJECT
      :: e.origin
  }

  function Rejecters(picked: seq<Envelope>, chosen: PaxosValue): set<nat> {
    set e | e in picked && e.msg.Accept? && e.msg.value.uniqID == chosen.uniqID && e.msg.value.customValue == REJECT
      :: e.origin
  }

  function AcceptsIn(picked: seq<Envelope>, chosen: PaxosValue): set<Envelope> {
    set e | e in picked && IsAccept(e.msg, chosen)
  }

  function RejectionsIn(picked: seq<Envelope>, chosen: PaxosValue): set<Envelope> {
    set e | e in picked && IsRejection(e.msg, chosen)
  }

  lemma {:induction false} OneMoreIn(all: set<Envelope>, rest: set<Envelope>, last: Envelope, counts: bool)
    requires last !in rest && forall e :: e in all <==> e in rest || (counts && e == last)
    ensures |all| == |rest| + if counts then 1 else 0
  {
    assert all == if counts then rest + {last} else rest;
  }

  lemma {:induction false} SetsOneMore(rest: seq<Envelope>, last: Envelope, chosen: PaxosValue)
    requires last !in rest
    ensures |AcceptsIn(rest + [last], chosen)| ==
            |AcceptsIn(rest, chosen)| + if IsAccept(last.msg, chosen) then 1 else 0
    ensures |RejectionsIn(rest + [last], chosen)| ==
            |RejectionsIn(rest, chosen)| + if IsRejection(last.msg, chosen) then 1 else 0
  {
    hide IsAccept, IsRejection;
    var all := rest + [last];
    assert forall e :: e in all <==> e in rest || e == last;
    OneMoreIn(AcceptsIn(all, chosen), AcceptsIn(rest, chosen), last, IsAccept(last.msg, chosen));
    OneMoreIn(RejectionsIn(all, chosen), RejectionsIn(rest, chosen), last, IsRejection(last.msg, chosen));
  }

  lemma {:induction false} CountsOneMore(ms: seq<Message>, m: Message, chosen: PaxosValue)
    ensures CountAccepts(ms + [m], chosen) == CountAccepts(ms, chosen) + if IsAccept(m, chosen) then 1 else 0
    ensures CountRejections(ms + [m], chosen) ==
            CountRejections(ms, chosen) + if IsRejection(m, chosen) then 1 else 0
  {
    assert (ms + [m])[..|ms|] == ms;
  }

  /** The counting loop counts different messages. */
  lemma {:induction false} CountsAreSets(picked: seq<Envelope>, chosen: PaxosValue)
    requires Distinct(picked)
    ensures CountAccepts(Messages(picked), chosen) == |AcceptsIn(picked, chosen)|
    ensures CountRejections(Messages(picked), chosen) == |RejectionsIn(picked, chosen)|
  {
    if picked != [] {
      var rest, last := picked[..|picked| - 1], picked[|picked| - 1];
      CountsAreSets(rest, chosen);
      assert picked == rest + [last] && last !in rest;
      assert Messages(picked) == Messages(rest) + [last.msg];
      hide Messages, CountAccepts, CountRejections, AcceptsIn, RejectionsIn, IsAccept, IsRejection, Distinct;
      SetsOneMore(rest, last, chosen);
      CountsOneMore(Messages(rest), last.msg, chosen);
    }
  }

  /** What a waiting proposer picks comes from as many nodes as there are messages. */
  lemma {:induction false} AnswersDistinct(cfg: Config, s: System, picked: seq<Envelope>, id: nat,
                                           chosen: PaxosValue)
    requires RejectionsKept(cfg, s)
    requires forall e :: e in picked ==> e in s.net && e.msg.Accept? && e.msg.id == id
    ensures |Accepters(picked, chosen)| == |AcceptsIn(picked, chosen)|
    ensures |Rejecters(picked, chosen)| == |RejectionsIn(picked, chosen)|
  {
    forall f, g | f in picked && g in picked && f.origin == g.origin
      ensures f == g
    {
      OneAnswer(cfg, s, f, g);
    }
    hide RejectionsKept;
    AnswerersCounted(picked, chosen);
  }

  lemma {:induction false} AnswerersCounted(picked: seq<Envelope>, chosen: PaxosValue)
    requires forall f, g :: f in picked && g in picked && f.origin == g.origin ==> f == g
    ensures |Accepters(picked, chosen)| == |AcceptsIn(picked, chosen)|
    ensures |Rejecters(picked, chosen)| == |RejectionsIn(picked, chosen)|
  {
    assert Accepters(picked, chosen) == set f | f in AcceptsIn(picked, chosen) :: f.origin;
    assert Rejecters(picked, chosen) == set f | f in RejectionsIn(picked, chosen) :: f.origin;
    InjectiveImageSize(AcceptsIn(picked, chosen), (f: Envelope) => f.origin, Accepters(picked, chosen));
    InjectiveImageSize(RejectionsIn(picked, chosen), (f: Envelope) => f.origin, Rejecters(picked, chosen));
  }

  lemma {:induction false} OneAnswer(cfg: Config, s: System, f: Envelope, g: Envelope)
    requires RejectionsKept(cfg, s) && f in s.net && g in s.net && SameAnswer(f, g)
    ensures f == g
  {
    if !Rejection(f) && !Rejection(g) {
      assert SameVote(f, g);
    } else if !Rejection(f) {
      assert SameAnswer(g, f);
    }
  }

  lemma {:induction false} PromisersCounted(cfg: Config, s: System, picked: seq<Envelope>, id: nat)
    requires PromisesKept(cfg, s) && Distinct(picked)
    requires forall e :: e in picked ==> e in s.net && e.msg.Promise? && e.msg.id == id
    ensures |Promisers(picked)| == |picked|
  {
    var ps := set e | e in picked;
    DistinctSize(picked, ps);
    PromisersDistinct(cfg, s, ps, id);
    assert Promisers(picked) == Origins(ps);
  }

  /** How a turn of a proposer can end, in terms of the nodes that answered it. */
  ghost predicate EndsRightly(cfg: Config, ps: ProposerState, ps': ProposerState, picked: seq<Envelope>,
                              ticks: seq<Message>)
  {
    match ps
    case Idle(_) => true
    case Begin(trial, value) =>
      if trial > 10 then ps' == Idle(Failed) else ps'.WaitPromise? && ps'.trial == trial + 1 && ps'.original == value
    case WaitPromise(trial, step, id, original) =>
      if |Promisers(picked)| < Threshold(cfg) then ps' == Begin(trial + 1, original)
      else ps'.WaitAccept? && ps'.step == step && ps'.id == id && ps'.original == original
    case WaitAccept(step, id, chosen, original) =>
      if |Accepters(picked, chosen)| >= Threshold(cfg) then ps' == Done(step, id, chosen, original)
      else if |Rejecters(picked, chosen)| >= Threshold(cfg) then ps' == Idle(Failed)
      else ps' == Begin(0, original)
    case Done(step, id, proposed, original) =>
      if ticks != [] && ticks[0].TLC? && original.uniqID == proposed.uniqID then
        && ps'.Idle? && ps'.outcome.Decided? && ps'.outcome.original == original
        && (ticks[0].block.value.uniqID != "" ==> ProposeResult(ps'.outcome) == Ok(ticks[0].block.hash))
      else ps' == Begin(0, original)
  }

  lemma {:induction false} NextEndsRightly(ps: ProposerState, lastID: nat, env: Environment, setting: Setting,
                                           cfg: Config, picked: seq<Envelope>, ticks: seq<Message>)
    requires setting == SettingOf(cfg, setting.self) && setting.peers > 0 && Fits(ps, env, setting.threshold)
    requires env.collected == if ps.Done? then ticks else Messages(picked)
    requires ps.WaitPromise? ==> |Promisers(picked)| == |picked|
    requires ps.WaitAccept? ==> CountAccepts(Messages(picked), ps.chosen) == |Accepters(picked, ps.chosen)|
    requires ps.WaitAccept? ==> CountRejections(Messages(picked), ps.chosen) == |Rejecters(picked, ps.chosen)|
    ensures EndsRightly(cfg, ps, Next(ps, lastID, env, setting).state, picked, ticks)
  {
  }

  /** In every run a proposer gives up after its trials or when a quorum rejected its value while no quorum
      accepted it, goes on when a quorum of nodes answered, succeeds when it is told of a new block and its own
      value went through, and otherwise tries again with the value of its caller. */
  lemma {:induction false} ProposalEnds(cfg: Config, acts: seq<Action>, a: Action)
    requires cfg.peers > 0 && Legal(cfg, acts) && Enabled(cfg, After(cfg, acts), a) && a.Advance?
    ensures |After(cfg, acts).nodes| == |Apply(cfg, After(cfg, acts), a).nodes| == cfg.peers
    ensures EndsRightly(cfg, After(cfg, acts).nodes[a.n].proposer, Apply(cfg, After(cfg, acts), a).nodes[a.n].proposer,
                        a.picked, a.ticks)
  {
    AlwaysRejectionsKept(cfg, acts);
    AlwaysPromisesKept(cfg, acts);
    EndsStep(cfg, After(cfg, acts), a);
  }

  lemma {:induction false} EndsStep(cfg: Config, s: System, a: Action)
    requires RejectionsKept(cfg, s) && PromisesKept(cfg, s) && Enabled(cfg, s, a) && a.Advance?
    ensures EndsRightly(cfg, s.nodes[a.n].proposer, Apply(cfg, s, a).nodes[a.n].proposer, a.picked, a.ticks)
  {
    var node := s.nodes[a.n];
    var env := EnvironmentOf(node, a.picked, a.ticks);
    assert forall e :: e in a.picked ==> e in s.net;
    hide EndsRightly;
    AnswerersOf(cfg, s, node.proposer, env, a.picked);
    hide RejectionsKept, PromisesKept;
    NextEndsRightly(node.proposer, node.lastID, env, SettingOf(cfg, a.n), cfg, a.picked, a.ticks);
  }

  lemma {:induction false} AnswerersOf(cfg: Config, s: System, ps: ProposerState, env: Environment,
                                       picked: seq<Envelope>)
    requires RejectionsKept(cfg, s) && PromisesKept(cfg, s) && Distinct(picked)
    requires (forall e :: e in picked ==> e in s.net) && Fits(ps, env, Threshold(cfg))
    requires !ps.Done? ==> env.collected == Messages(picked)
    ensures ps.WaitPromise? ==> |Promisers(picked)| == |picked|
    ensures ps.WaitAccept? ==> CountAccepts(Messages(picked), ps.chosen) == |Accepters(picked, ps.chosen)|
    ensures ps.WaitAccept? ==> CountRejections(Messages(picked), ps.chosen) == |Rejecters(picked, ps.chosen)|
  {
    if !ps.Done? {
      PickedMessages(ps, env, picked, Threshold(cfg));
    }
    hide RejectionsKept, PromisesKept, Fits, Distinct;
    if ps.WaitPromise? {
      PromisersCounted(cfg, s, picked, ps.id);
    } else if ps.WaitAccept? {
      AnswersDistinct(cfg, s, picked, ps.id, ps.chosen);
      CountsAreSets(picked, ps.chosen);
    }
  }

  lemma {:induction false} PickedMessages(ps: ProposerState, env: Environment, picked: seq<Envelope>, threshold: nat)
    requires Fits(ps, env, threshold) && env.collected == Messages(picked)
    ensures ps.WaitPromise? ==> forall e :: e in picked ==> e.msg.Promise? && e.msg.id == ps.id
    ensures ps.WaitAccept? ==> forall e :: e in picked ==> e.msg.Accept? && e.msg.id == ps.id
  {
    forall e | e in picked
      ensures e.msg in env.collected
    {
      MessageOf(picked, e);
    }
  }

  /** In careful runs a proposer that is done succeeds exactly when it is told of a block of its step while the
      value that went through is its caller's; the result is the hash of that step's block in the own chain. */
  lemma {:induction false} SuccessIsOwnBlock(cfg: Config, acts: seq<Action>, a: Action)
    requires cfg.peers > 0 && Legal(cfg, acts) && Enabled(cfg, After(cfg, acts), a) && a.Advance?
    requires SelectsHighestThroughout(cfg, acts) && TalliesBallotThroughout(cfg, acts)
    requires After(cfg, acts).nodes[a.n].proposer.Done?
    ensures |Apply(cfg, After(cfg, acts), a).nodes| == cfg.peers
    ensures var ps, node' := After(cfg, acts).nodes[a.n].proposer, Apply(cfg, After(cfg, acts), a).nodes[a.n];
            && (node'.proposer.Idle? <==> a.ticks != [] && ps.original.uniqID == ps.proposed.uniqID)
            && (node'.proposer.Idle? && ps.original.uniqID != "" ==>
                  && ps.step < |node'.acceptor.chain|
                  && ProposeResult(node'.proposer.outcome) == Ok(node'.acceptor.chain[ps.step].hash))
  {
    ProposalEnds(cfg, acts, a);
    var s, node := After(cfg, acts), After(cfg, acts).nodes[a.n];
    var all := acts + [a];
    assert all[..|acts|] == acts && all[|acts|] == a;
    assert Legal(cfg, all) && After(cfg, all) == Apply(cfg, s, a);
    assert SelectsHighestThroughout(cfg, all) && TalliesBallotThroughout(cfg, all);
    assert a.ticks != [] ==> a.ticks[0].TLC?;
    AdvanceKeepsAcceptor(cfg, s, a);
    NextFinishes(node.proposer, node.lastID, EnvironmentOf(node, a.picked, a.ticks), SettingOf(cfg, a.n));
    if After(cfg, all).nodes[a.n].proposer.Idle? {
      DecidedOwnValue(cfg, all, a.n);
    }
  }
}
