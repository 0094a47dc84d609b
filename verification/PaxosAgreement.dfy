/** Agreement: in every run whose proposers choose the value of a top report, two values accepted by a
    quorum in the same step are equal. */
module PaxosAgreement {
  import opened Common
  import opened PaxosTypes
  import opened Proposers
  import opened PaxosSystem
  import opened PaxosInvariants

  function Origins(es: set<Envelope>): set<nat> {
    set e | e in es :: e.origin
  }

  /** Value v is the value reported under the highest ID, or nothing at all is reported. */
  ghost predicate HighestReport(ps: set<Envelope>, v: PaxosValue)
    requires forall p :: p in ps ==> p.msg.Promise?
  {
    (forall p :: p in ps ==> p.msg.acceptedValue.None?) ||
    (exists top :: top in ps && top.msg.acceptedValue == Some(v)
                   && forall p :: p in ps && p.msg.acceptedValue.Some? ==> p.msg.acceptedID <= top.msg.acceptedID)
  }

  /** A quorum of promises that allows value v to be proposed. */
  ghost predicate Backs(cfg: Config, ps: set<Envelope>, step: nat, id: nat, v: PaxosValue) {
    && (forall p :: p in ps ==> p.msg.Promise? && p.msg.step == step && p.msg.id == id)
    && |Origins(ps)| >= Threshold(cfg)
    && HighestReport(ps, v)
  }

  ghost predicate Backed(cfg: Config, net: set<Envelope>, step: nat, id: nat, v: PaxosValue) {
    exists ps :: ps <= net && Backs(cfg, ps, step, id, v)
  }

  ghost predicate ProposalsBacked(cfg: Config, s: System) {
    && PromisesKept(cfg, s)
    && forall e :: e in s.net && e.msg.Propose? ==> Backed(cfg, s.net, e.msg.step, e.msg.id, e.msg.value)
  }

  lemma {:induction false} DistinctSize(es: seq<Envelope>, all: set<Envelope>)
    requires Distinct(es) && all == set e | e in es
    ensures |all| == |es|
  {
    if es == [] {
      assert all == {};
    } else {
      var last, rest := es[|es| - 1], es[..|es| - 1];
      var others := set e | e in rest;
      assert es == rest + [last];
      assert all == others + {last};
      assert last !in others;
      DistinctSize(rest, others);
    }
  }

  lemma {:induction false} NothingReported(es: seq<Envelope>)
    requires (forall m :: m in Messages(es) ==> m.Promise?) && LastReport(Messages(es)).None?
    ensures forall e :: e in es && e.msg.Promise? ==> e.msg.acceptedValue.None?
  {
    if es != [] {
      var last, rest := es[|es| - 1], es[..|es| - 1];
      assert es == rest + [last];
      assert Messages(es) == Messages(rest) + [last.msg];
      assert Messages(es)[..|es| - 1] == Messages(rest);
      assert last.msg in Messages(es);
      NothingReported(rest);
    }
  }

  lemma {:induction false} MessageOf(es: seq<Envelope>, e: Envelope)
    requires e in es
    ensures e.msg in Messages(es)
  {
    var i :| 0 <= i < |es| && es[i] == e;
    assert Messages(es)[i] == e.msg;
  }

  /** The promises that a careful proposer picked back the value that it chose. */
  lemma {:induction false} PickedBack(cfg: Config, s: System, n: nat, picked: seq<Envelope>)
    requires PromisesKept(cfg, s) && n < cfg.peers && s.nodes[n].proposer.WaitPromise?
    requires Distinct(picked) && |picked| >= Threshold(cfg)
    requires forall e :: e in picked ==> e in s.nodes[n].seen
    requires forall m :: m in Messages(picked) ==> m.Promise? && m.id == s.nodes[n].proposer.id
    requires TakesTop(Messages(picked))
    ensures var run := s.nodes[n].proposer;
            Backed(cfg, s.net, run.step, run.id, ChosenValue(Messages(picked), run.original))
  {
    PickedPromises(cfg, s, n, picked);
    hide PromisesKept, TakesTop, Backed;
    var run, ps := s.nodes[n].proposer, set e | e in picked;
    DistinctSize(picked, ps);
    PromisersDistinct(cfg, s, ps, run.id);
    PromisesBack(cfg, s.net, picked, ps, run.step, run.id, run.original);
  }

  lemma {:induction false} PromisesBack(cfg: Config, net: set<Envelope>, picked: seq<Envelope>, ps: set<Envelope>,
                                        step: nat, id: nat, original: PaxosValue)
    requires ps == set e | e in picked
    requires forall e :: e in picked ==>
               e in net && e.msg in Messages(picked) && e.msg.Promise? && e.msg.step == step && e.msg.id == id
    requires forall m :: m in Messages(picked) ==> m.Promise?
    requires |Origins(ps)| >= Threshold(cfg) && TakesTop(Messages(picked))
    ensures Backed(cfg, net, step, id, ChosenValue(Messages(picked), original))
  {
    hide Origins, ChosenValue, TakesTop, HighestReport, Messages;
    PickedHighest(picked, ps, original);
    assert ps <= net && Backs(cfg, ps, step, id, ChosenValue(Messages(picked), original));
  }

  lemma {:induction false} PickedPromises(cfg: Config, s: System, n: nat, picked: seq<Envelope>)
    requires PromisesKept(cfg, s) && n < cfg.peers && s.nodes[n].proposer.WaitPromise?
    requires forall e :: e in picked ==> e in s.nodes[n].seen
    requires forall m :: m in Messages(picked) ==> m.Promise? && m.id == s.nodes[n].proposer.id
    ensures forall e :: e in picked ==>
              && e in s.net && e.msg in Messages(picked) && e.msg.Promise?
              && e.msg.step == s.nodes[n].proposer.step && e.msg.id == s.nodes[n].proposer.id
  {
    assert n < |s.nodes|;
    hide PromisesKept;
    forall e | e in picked
      ensures e in s.net && e.msg in Messages(picked) && e.msg.Promise?
      ensures e.msg.step == s.nodes[n].proposer.step && e.msg.id == s.nodes[n].proposer.id
    {
      MessageOf(picked, e);
      PickedPromise(cfg, s, n, e);
    }
  }

  /** Every node promises an ID once. */
  lemma {:induction false} PromisersDistinct(cfg: Config, s: System, ps: set<Envelope>, id: nat)
    requires PromisesKept(cfg, s)
    requires forall p :: p in ps ==> p in s.net && p.msg.Promise? && p.msg.id == id
    ensures |Origins(ps)| == |ps|
  {
    forall p, q | p in ps && q in ps && p.origin == q.origin
      ensures p == q
    {
      assert SamePromise(p, q);
    }
    InjectiveImageSize(ps, (e: Envelope) => e.origin, Origins(ps));
  }

  lemma {:induction false} PickedHighest(picked: seq<Envelope>, ps: set<Envelope>, original: PaxosValue)
    requires ps == set e | e in picked
    requires forall m :: m in Messages(picked) ==> m.Promise?
    requires forall p :: p in ps ==> p.msg in Messages(picked)
    requires TakesTop(Messages(picked))
    ensures HighestReport(ps, ChosenValue(Messages(picked), original))
  {
    var ms := Messages(picked);
    if LastReport(ms).Some? {
      var m :| IsTop(ms, m) && m.acceptedValue == LastReport(ms);
      var i :| 0 <= i < |ms| && ms[i] == m;
      assert picked[i] in ps && picked[i].msg == m;
    } else {
      NothingReported(picked);
    }
  }

  /** A promise for the ID of a waiting proposer belongs to the step of that proposer. */
  lemma {:induction false} PickedPromise(cfg: Config, s: System, n: nat, p: Envelope)
    requires PromisesKept(cfg, s) && n < cfg.peers && s.nodes[n].proposer.WaitPromise?
    requires p in s.nodes[n].seen && p.msg.Promise? && p.msg.id == s.nodes[n].proposer.id
    ensures p in s.net && p.msg.step == s.nodes[n].proposer.step
  {
    assert PromiseTrue(s.net, s.nodes[p.origin].acceptor.clock, p);
    assert RunOwned(s.net, s.nodes[n].proposer, n);
  }

  lemma {:induction false} NextProposes(ps: ProposerState, lastID: nat, env: Environment, setting: Setting)
    requires setting.peers > 0 && Fits(ps, env, setting.threshold)
    ensures var out := Next(ps, lastID, env, setting).out;
            !out.Silent? && out.msg.Propose? ==>
              && ps.WaitPromise? && |env.collected| >= setting.threshold
              && out.msg == Propose(ps.step, ps.id, setting.self, ChosenValue(env.collected, ps.original))
  {
  }

  lemma {:induction false} NewProposalBacked(cfg: Config, s: System, a: Action)
    requires Enabled(cfg, s, a) && PromisesKept(cfg, s) && SelectsHighest(cfg, s, a)
    ensures var out := Output(cfg, s, a);
            !out.Silent? && out.msg.Propose? ==> Backed(cfg, s.net, out.msg.step, out.msg.id, out.msg.value)
  {
    if a.Deliver? {
      DeliverKeepsProposer(cfg, s, a);
    } else if a.Advance? {
      var node := s.nodes[a.n];
      NextProposes(node.proposer, node.lastID, EnvironmentOf(node, a.picked, a.ticks), SettingOf(cfg, a.n));
      if node.proposer.WaitPromise? && |a.picked| >= Threshold(cfg) {
        PickedBack(cfg, s, a.n, a.picked);
      }
    }
  }

  lemma {:induction false} ProposalsBackedStep(cfg: Config, s: System, a: Action)
    requires Enabled(cfg, s, a) && ProposalsBacked(cfg, s) && SelectsHighest(cfg, s, a)
    ensures ProposalsBacked(cfg, Apply(cfg, s, a))
  {
    PromisesKeptStep(cfg, s, a);
    ActionMoves(cfg, s, a);
    NewProposalBacked(cfg, s, a);
    StillBacked(cfg, s, Apply(cfg, s, a), a.n, Output(cfg, s, a));
  }

  lemma {:induction false} StillBacked(cfg: Config, s: System, s': System, n: nat, out: Outgoing)
    requires ProposalsBacked(cfg, s) && Moved(cfg, s, s', n, out) && PromisesKept(cfg, s')
    requires !out.Silent? && out.msg.Propose? ==> Backed(cfg, s.net, out.msg.step, out.msg.id, out.msg.value)
    ensures ProposalsBacked(cfg, s')
  {
    forall e | e in s'.net && e.msg.Propose?
      ensures Backed(cfg, s'.net, e.msg.step, e.msg.id, e.msg.value)
    {
      var ps :| ps <= s.net && Backs(cfg, ps, e.msg.step, e.msg.id, e.msg.value);
      assert ps <= s'.net;
    }
  }

  lemma {:induction false} AlwaysProposalsBacked(cfg: Config, acts: seq<Action>)
    requires cfg.peers > 0 && Legal(cfg, acts) && SelectsHighestThroughout(cfg, acts)
    ensures ProposalsBacked(cfg, After(cfg, acts))
  {
    if acts == [] {
      InitialPromisesKept(cfg);
    } else {
      AlwaysProposalsBacked(cfg, acts[..|acts| - 1]);
      ProposalsBackedStep(cfg, After(cfg, acts[..|acts| - 1]), acts[|acts| - 1]);
    }
  }

  /** A quorum of voters and a quorum of promisers share a node. */
  lemma {:induction false} QuorumsMeet(cfg: Config, s: System, step: nat, i: nat, v: PaxosValue, ps: set<Envelope>)
    returns (f: Envelope, p: Envelope)
    requires Shape(cfg, s) && Chosen(cfg, s.net, step, i, v)
    requires ps <= s.net && |Origins(ps)| >= Threshold(cfg)
    ensures f in s.net && IsVote(f, step, i, v) && p in ps && p.origin == f.origin
  {
    var voters, promisers := Voters(s.net, step, i, v), Origins(ps);
    MajoritiesMeet(voters, promisers, cfg.peers);
    var n :| n in voters * promisers;
    f :| f in s.net && IsVote(f, step, i, v) && f.origin == n;
    p :| p in ps && p.origin == n;
  }

  /** What a promise reports was proposed in its step under the reported, lower ID. */
  lemma {:induction false} ReportedWasProposed(cfg: Config, s: System, p: Envelope) returns (e: Envelope)
    requires PromisesKept(cfg, s) && p in s.net && p.msg.Promise? && p.msg.acceptedValue.Some?
    ensures e in s.net && e.msg.Propose? && e.msg.step == p.msg.step
    ensures e.msg.id == p.msg.acceptedID < p.msg.id && e.msg.value == p.msg.acceptedValue.value
  {
    assert PromiseTrue(s.net, s.nodes[p.origin].acceptor.clock, p);
    var f :| f in s.net && f.origin == p.origin && IsVote(f, p.msg.step, p.msg.acceptedID, p.msg.acceptedValue.value);
    assert ProposalSeen(s.nodes[f.origin].seen, f.msg);
    e :| e in s.nodes[f.origin].seen && e.msg == Propose(f.msg.step, f.msg.id, f.msg.source, f.msg.value);
  }

  lemma {:induction false} TopReport(ps: set<Envelope>, v: PaxosValue, p: Envelope) returns (top: Envelope)
    requires forall q :: q in ps ==> q.msg.Promise?
    requires HighestReport(ps, v) && p in ps && p.msg.acceptedValue.Some?
    ensures top in ps && top.msg.acceptedValue == Some(v) && p.msg.acceptedID <= top.msg.acceptedID
  {
    top :| top in ps && top.msg.acceptedValue == Some(v)
           && forall q :: q in ps && q.msg.acceptedValue.Some? ==> q.msg.acceptedID <= top.msg.acceptedID;
  }

  /** Once a value is chosen, every proposal of the step with the same or a higher ID is for it. */
  lemma {:induction false} ChosenSticks(cfg: Config, s: System, step: nat, i: nat, v: PaxosValue, e: Envelope)
    requires ProposalsBacked(cfg, s) && Chosen(cfg, s.net, step, i, v)
    requires e in s.net && e.msg.Propose? && e.msg.step == step && e.msg.id >= i
    ensures e.msg.value == v
    decreases e.msg.id
  {
    if e.msg.id == i {
      var first := ChosenWasProposed(cfg, s, step, i, v);
    } else {
      var ps :| ps <= s.net && Backs(cfg, ps, step, e.msg.id, e.msg.value);
      var f, p := QuorumsMeet(cfg, s, step, i, v, ps);
      assert PromiseTrue(s.net, s.nodes[p.origin].acceptor.clock, p);
      var top := TopReport(ps, e.msg.value, p);
      var lower := ReportedWasProposed(cfg, s, top);
      ChosenSticks(cfg, s, step, i, v, lower);
    }
  }

  lemma {:induction false} ChosenWasProposed(cfg: Config, s: System, step: nat, i: nat, v: PaxosValue)
    returns (e: Envelope)
    requires VotesKept(cfg, s) && Chosen(cfg, s.net, step, i, v)
    ensures e in s.net && e.msg.Propose? && e.msg.step == step && e.msg.id == i && e.msg.value == v
  {
    assert Voters(s.net, step, i, v) != {};
    var f :| f in s.net && IsVote(f, step, i, v);
    assert ProposalSeen(s.nodes[f.origin].seen, f.msg);
    e :| e in s.nodes[f.origin].seen && e.msg == Propose(f.msg.step, f.msg.id, f.msg.source, f.msg.value);
  }

  lemma {:induction false} OneValueChosen(cfg: Config, s: System, step: nat, i: nat, v: PaxosValue, j: nat,
                                          w: PaxosValue)
    requires ProposalsBacked(cfg, s)
    requires Chosen(cfg, s.net, step, i, v) && Chosen(cfg, s.net, step, j, w)
    ensures v == w
  {
    if i <= j {
      var e := ChosenWasProposed(cfg, s, step, j, w);
      ChosenSticks(cfg, s, step, i, v, e);
    } else {
      var e := ChosenWasProposed(cfg, s, step, i, v);
      ChosenSticks(cfg, s, step, j, w, e);
    }
  }

  /** Two values, each accepted by a quorum under one ID in the same step, are equal. */
  lemma {:induction false} Agreement(cfg: Config, acts: seq<Action>, step: nat, i: nat, v: PaxosValue, j: nat,
                                     w: PaxosValue)
    requires cfg.peers > 0 && Legal(cfg, acts) && SelectsHighestThroughout(cfg, acts)
    requires Chosen(cfg, After(cfg, acts).net, step, i, v) && Chosen(cfg, After(cfg, acts).net, step, j, w)
    ensures v == w
  {
    AlwaysProposalsBacked(cfg, acts);
    OneValueChosen(cfg, After(cfg, acts), step, i, v, j, w);
  }
}
