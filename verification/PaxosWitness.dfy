/** Three runs of three nodes. Two show why Agreement and ChainSafety ask for careful proposers and tallies:
    each breaks exactly one of the two conditions and ends in disagreement. One keeps both and builds a chain. */
module PaxosWitness {
  import opened Common
  import opened PaxosTypes
  import opened Clocks
  import opened Acceptors
  import opened Proposers
  import opened PaxosSystem

  function Three(hash: HashFn): Config {
    Config(3, hash)
  }

  /** One more action after a legal run. */
  lemma {:induction false} Extend(cfg: Config, acts: seq<Action>, a: Action)
    requires Legal(cfg, acts) && Enabled(cfg, After(cfg, acts), a)
    ensures Legal(cfg, acts + [a]) && After(cfg, acts + [a]) == Apply(cfg, After(cfg, acts), a)
    ensures SelectsHighestThroughout(cfg, acts + [a]) <==>
            SelectsHighestThroughout(cfg, acts) && SelectsHighest(cfg, After(cfg, acts), a)
    ensures TalliesBallotThroughout(cfg, acts + [a]) <==>
            TalliesBallotThroughout(cfg, acts) && TalliesBallot(cfg, After(cfg, acts), a)
  {
    assert (acts + [a])[..|acts|] == acts;
  }

  /** Which of the two conditions a run keeps. */
  datatype Kept = Selection | Tally | Both

  ghost predicate Keeps(cfg: Config, s: System, a: Action, kept: Kept)
    requires Enabled(cfg, s, a)
  {
    (!kept.Tally? ==> SelectsHighest(cfg, s, a)) && (!kept.Selection? ==> TalliesBallot(cfg, s, a))
  }

  ghost predicate KeptThroughout(cfg: Config, acts: seq<Action>, kept: Kept)
    requires Legal(cfg, acts)
  {
    (!kept.Tally? ==> SelectsHighestThroughout(cfg, acts)) && (!kept.Selection? ==> TalliesBallotThroughout(cfg, acts))
  }

  ghost predicate Reached(cfg: Config, s: System, kept: Kept) {
    exists acts :: Legal(cfg, acts) && After(cfg, acts) == s && KeptThroughout(cfg, acts, kept)
  }

  lemma {:induction false} Go(cfg: Config, s: System, a: Action, kept: Kept)
    requires Reached(cfg, s, kept) && Enabled(cfg, s, a) && Keeps(cfg, s, a, kept)
    ensures Reached(cfg, Apply(cfg, s, a), kept)
  {
    var acts :| Legal(cfg, acts) && After(cfg, acts) == s && KeptThroughout(cfg, acts, kept);
    Extend(cfg, acts, a);
  }

  // Single actions, as they read on the state of the node that takes them.

  predicate At(cfg: Config, s: System, n: nat) {
    cfg.peers == 3 && |s.nodes| == 3 && n < 3
  }

  predicate CanGet(s: System, n: nat, e: Envelope)
    requires n < |s.nodes|
  {
    e in s.net && e !in s.nodes[n].seen && (e.to == None || e.to == Some(n))
  }

  lemma {:induction false} Start(cfg: Config, s: System, n: nat, v: PaxosValue, kept: Kept) returns (s': System)
    requires Reached(cfg, s, kept) && At(cfg, s, n) && s.nodes[n].proposer.Idle?
    ensures s' == Send(s, n, s.nodes[n].(proposer := Begin(0, v)), Silent)
    ensures Reached(cfg, s', kept)
  {
    Go(cfg, s, StartRun(n, v), kept);
    s' := Apply(cfg, s, StartRun(n, v));
  }

  lemma {:induction false} Prepares(cfg: Config, s: System, n: nat, id: nat, kept: Kept) returns (s': System)
    requires Reached(cfg, s, kept) && At(cfg, s, n) && s.nodes[n].proposer.Begin? && s.nodes[n].proposer.trial == 0
    requires id == Raised(s.nodes[n].lastID, s.nodes[n].acceptor.clock.maxID, 3)
    ensures var node := s.nodes[n];
            var step := node.acceptor.clock.step;
            s' == Send(s, n, node.(proposer := WaitPromise(1, step, id, node.proposer.value), lastID := id + 3),
                              Broadcast(Prepare(step, id, n)))
    ensures Reached(cfg, s', kept)
  {
    hide Handle, Reached;
    var node, a := s.nodes[n], Advance(n, [], []);
    assert TurnOf(cfg, node, a) ==
           Turn(WaitPromise(1, node.acceptor.clock.step, id, node.proposer.value), id + 3,
                Broadcast(Prepare(node.acceptor.clock.step, id, n)));
    hide Next, Raised, TurnOf;
    Go(cfg, s, a, kept);
    s' := Apply(cfg, s, a);
  }

  lemma {:induction false} GetsPrepare(cfg: Config, s: System, n: nat, e: Envelope, kept: Kept) returns (s': System)
    requires Reached(cfg, s, kept) && At(cfg, s, n) && CanGet(s, n, e) && e.msg.Prepare?
    requires !IgnoresPrepare(s.nodes[n].acceptor.clock, e.msg.step, e.msg.id)
    ensures var node := s.nodes[n];
            var c := node.acceptor.clock;
            var promise := Promise(e.msg.step, e.msg.id,
                                   if c.acceptedValue.Some? then c.acceptedID else 0, c.acceptedValue);
            s' == Send(s, n, node.(acceptor := node.acceptor.(clock := c.(maxID := e.msg.id)), seen := node.seen + {e}),
                              Private(e.msg.source, promise))
    ensures Reached(cfg, s', kept)
  {
    Go(cfg, s, Deliver(n, e, true), kept);
    s' := Apply(cfg, s, Deliver(n, e, true));
  }

  lemma {:induction false} GetsPromise(cfg: Config, s: System, n: nat, e: Envelope, kept: Kept) returns (s': System)
    requires Reached(cfg, s, kept) && At(cfg, s, n) && CanGet(s, n, e) && e.msg.Promise?
    ensures s' == Send(s, n, s.nodes[n].(seen := s.nodes[n].seen + {e}), Silent)
    ensures Reached(cfg, s', kept)
  {
    Go(cfg, s, Deliver(n, e, true), kept);
    s' := Apply(cfg, s, Deliver(n, e, true));
  }

  lemma {:induction false} GetsPropose(cfg: Config, s: System, n: nat, e: Envelope, kept: Kept) returns (s': System)
    requires Reached(cfg, s, kept) && At(cfg, s, n) && CanGet(s, n, e) && e.msg.Propose?
    requires !IgnoresPropose(s.nodes[n].acceptor.clock, e.msg.step, e.msg.id)
    ensures var node := s.nodes[n];
            var c := node.acceptor.clock.(acceptedID := e.msg.id, acceptedValue := Some(e.msg.value));
            s' == Send(s, n, node.(acceptor := node.acceptor.(clock := c), seen := node.seen + {e}),
                              Broadcast(Accept(e.msg.step, e.msg.id, e.msg.source, e.msg.value)))
    ensures Reached(cfg, s', kept)
  {
    Go(cfg, s, Deliver(n, e, true), kept);
    s' := Apply(cfg, s, Deliver(n, e, true));
  }

  lemma {:induction false} TwoPromises(m: Message, m': Message)
    requires m.Promise? && m'.Promise?
    ensures LastReport([m, m']) == if m'.acceptedValue.Some? then m'.acceptedValue else m.acceptedValue
    ensures m.acceptedValue.None? || m'.acceptedValue.None? ==> TakesTop([m, m'])
  {
    assert [m, m'][..1] == [m] && [m][..0] == [];
    assert LastReport([m]) == m.acceptedValue;
    if m.acceptedValue.Some? && m'.acceptedValue.None? {
      assert IsTop([m, m'], m);
    } else if m.acceptedValue.None? && m'.acceptedValue.Some? {
      assert IsTop([m, m'], m');
    }
  }

  /** A proposer collects two promises, the second one last, and proposes. */
  lemma {:induction false} Proposes(cfg: Config, s: System, n: nat, e: Envelope, f: Envelope, v: PaxosValue, kept: Kept)
    returns (s': System)
    requires Reached(cfg, s, kept) && At(cfg, s, n) && s.nodes[n].proposer.WaitPromise?
    requires e != f && {e, f} <= s.nodes[n].seen && e.msg.Promise? && f.msg.Promise?
    requires e.msg.id == f.msg.id == s.nodes[n].proposer.id
    requires v == if f.msg.acceptedValue.Some? then f.msg.acceptedValue.value
                  else if e.msg.acceptedValue.Some? then e.msg.acceptedValue.value else s.nodes[n].proposer.original
    requires !kept.Tally? ==> f.msg.acceptedValue.None? || e.msg.acceptedValue.None?
    ensures var node := s.nodes[n];
            var run := node.proposer;
            s' == Send(s, n, node.(proposer := WaitAccept(run.step, run.id, v, run.original)),
                              Broadcast(Propose(run.step, run.id, n, v)))
    ensures Reached(cfg, s', kept)
  {
    hide Reached, Handle;
    assert Messages([e, f]) == [e.msg, f.msg];
    TwoPromises(e.msg, f.msg);
    Go(cfg, s, Advance(n, [e, f], []), kept);
    s' := Apply(cfg, s, Advance(n, [e, f], []));
  }

  /** A proposer gives up on a ballot without any accept collected. */
  lemma {:induction false} Retries(cfg: Config, s: System, n: nat, kept: Kept) returns (s': System)
    requires Reached(cfg, s, kept) && At(cfg, s, n) && s.nodes[n].proposer.WaitAccept?
    ensures s' == Send(s, n, s.nodes[n].(proposer := Begin(0, s.nodes[n].proposer.original)), Silent)
    ensures Reached(cfg, s', kept)
  {
    hide Handle, Reached;
    assert CountAccepts([], s.nodes[n].proposer.chosen) == 0 && CountRejections([], s.nodes[n].proposer.chosen) == 0;
    Go(cfg, s, Advance(n, [], []), kept);
    s' := Apply(cfg, s, Advance(n, [], []));
  }

  lemma {:induction false} CountsAccept(cfg: Config, s: System, n: nat, e: Envelope, kept: Kept) returns (s': System)
    requires Reached(cfg, s, kept) && At(cfg, s, n) && CanGet(s, n, e) && e.msg.Accept?
    requires Counts(s.nodes[n].acceptor, e.msg) && AcceptCount(s.nodes[n].acceptor.clock, e.msg.value.uniqID) == 0
    ensures var node := s.nodes[n];
            var c := WithAcceptance(node.acceptor.clock, e.msg.value);
            s' == Send(s, n, node.(acceptor := node.acceptor.(clock := c), seen := node.seen + {e},
                              tally := node.tally + {e}), Silent)
    ensures Reached(cfg, s', kept)
  {
    Go(cfg, s, Deliver(n, e, true), kept);
    s' := Apply(cfg, s, Deliver(n, e, true));
  }

  lemma {:induction false} AnnouncesBlock(cfg: Config, s: System, n: nat, e: Envelope, kept: Kept) returns (s': System)
    requires Reached(cfg, s, kept) && At(cfg, s, n) && CanGet(s, n, e) && e.msg.Accept?
    requires Counts(s.nodes[n].acceptor, e.msg) && AcceptCount(s.nodes[n].acceptor.clock, e.msg.value.uniqID) == 1
    requires e.msg.step !in s.nodes[n].acceptor.clock.broadcast
    requires !kept.Selection? ==> BallotTally(s.nodes[n].tally, e.msg) != {}
    ensures var node := s.nodes[n];
            var before := node.acceptor.clock;
            var c := WithAcceptance(before, e.msg.value).(broadcast := before.broadcast + {e.msg.step});
            s' == Send(s, n, node.(acceptor := node.acceptor.(clock := c), seen := node.seen + {e},
                                   tally := node.tally + {e}),
                       Broadcast(TLC(e.msg.step,
                                     GenerateBlock(cfg.hash, e.msg.step, e.msg.value, node.acceptor.chain))))
    ensures Reached(cfg, s', kept)
  {
    Go(cfg, s, Deliver(n, e, true), kept);
    s' := Apply(cfg, s, Deliver(n, e, true));
  }

  lemma {:induction false} GetsFirstTLC(cfg: Config, s: System, n: nat, e: Envelope, kept: Kept) returns (s': System)
    requires Reached(cfg, s, kept) && At(cfg, s, n) && CanGet(s, n, e) && e.msg.TLC? && e.msg.step == 0
    requires s.nodes[n].acceptor.clock.step == 0 && s.nodes[n].acceptor.clock.tlc == map[]
    ensures var node := s.nodes[n];
            var c := node.acceptor.clock.(tlc := map[0 := TLCProgress(e.msg.block, 1)]);
            s' == Send(s, n, node.(acceptor := node.acceptor.(clock := c), seen := node.seen + {e}), Silent)
    ensures Reached(cfg, s', kept)
  {
    Go(cfg, s, Deliver(n, e, true), kept);
    s' := Apply(cfg, s, Deliver(n, e, true));
    hide Reached;
    var counted := WithTLC(s.nodes[n].acceptor.clock, 0, e.msg.block);
    assert Frontier(counted.tlc, 0, 2) == 0;
  }

  /** With the second announcement the node appends the block of the first one. */
  lemma {:induction false} GetsSecondTLC(cfg: Config, s: System, n: nat, e: Envelope, b: Block, kept: Kept)
    returns (s': System)
    requires Reached(cfg, s, kept) && At(cfg, s, n) && CanGet(s, n, e) && e.msg.TLC? && e.msg.step == 0
    requires s.nodes[n].acceptor.clock.step == 0 && s.nodes[n].acceptor.clock.tlc == map[0 := TLCProgress(b, 1)]
    requires 0 in s.nodes[n].acceptor.clock.broadcast && s.nodes[n].acceptor.chain == []
    ensures |s'.nodes| == 3 && s'.net == s.net && s'.nodes[n].acceptor.chain == [b]
    ensures s'.nodes[n].acceptor.ticks == s.nodes[n].acceptor.ticks + [e.msg]
    ensures s'.nodes[n].proposer == s.nodes[n].proposer && s'.nodes[n].seen == s.nodes[n].seen + {e}
    ensures forall i :: 0 <= i < 3 && i != n ==> s'.nodes[i] == s.nodes[i]
    ensures Reached(cfg, s', kept)
  {
    hide Reached;
    var counted := WithTLC(s.nodes[n].acceptor.clock, 0, e.msg.block);
    assert counted.tlc == map[0 := TLCProgress(b, 2)];
    assert Frontier(counted.tlc, 0, 2) == 1;
    assert NewBlocks(counted, 2) == [b];
    Go(cfg, s, Deliver(n, e, true), kept);
    s' := Apply(cfg, s, Deliver(n, e, true));
  }

  lemma {:induction false} TwoAccepts(m: Message, m': Message, chosen: PaxosValue)
    requires IsAccept(m, chosen) && IsAccept(m', chosen)
    ensures CountAccepts([m, m'], chosen) == 2
  {
    assert [m, m'][..1] == [m] && [m][..0] == [];
    assert CountAccepts([m], chosen) == 1;
  }

  /** A proposer collects two accepts for what it proposed. */
  lemma {:induction false} Collects(cfg: Config, s: System, n: nat, e: Envelope, f: Envelope, kept: Kept)
    returns (s': System)
    requires Reached(cfg, s, kept) && At(cfg, s, n) && s.nodes[n].proposer.WaitAccept?
    requires var run := s.nodes[n].proposer;
             && e != f && {e, f} <= s.nodes[n].seen && IsAccept(e.msg, run.chosen) && IsAccept(f.msg, run.chosen)
             && e.msg.id == f.msg.id == run.id
    ensures var run := s.nodes[n].proposer;
            s' == Send(s, n, s.nodes[n].(proposer := Done(run.step, run.id, run.chosen, run.original)), Silent)
    ensures Reached(cfg, s', kept)
  {
    hide Reached, Handle;
    var chosen := s.nodes[n].proposer.chosen;
    assert Messages([e, f]) == [e.msg, f.msg];
    TwoAccepts(e.msg, f.msg, chosen);
    hide CountAccepts, CountRejections;
    Go(cfg, s, Advance(n, [e, f], []), kept);
    s' := Apply(cfg, s, Advance(n, [e, f], []));
  }

  /** A proposer that is done finds a tick for its own value. */
  lemma {:induction false} Decides(cfg: Config, s: System, n: nat, tick: Message, kept: Kept) returns (s': System)
    requires Reached(cfg, s, kept) && At(cfg, s, n) && s.nodes[n].proposer.Done?
    requires var run := s.nodes[n].proposer;
             && run.original.uniqID == run.proposed.uniqID
             && tick in s.nodes[n].acceptor.ticks && tick.TLC? && tick.step == run.step
    ensures |s'.nodes| == 3 && s'.nodes[n].acceptor == s.nodes[n].acceptor
    ensures s'.nodes[n].proposer.Idle? && s'.nodes[n].proposer.outcome.Decided?
    ensures s'.nodes[n].proposer.outcome.block == tick.block
    ensures Reached(cfg, s', kept)
  {
    hide Reached, Handle;
    Go(cfg, s, Advance(n, [], [tick]), kept);
    s' := Apply(cfg, s, Advance(n, [], [tick]));
  }

  // The runs. Nodes 0, 1 and 2 propose V, W and X.

  const V: PaxosValue := PaxosValue("v", "", "", [])
  const W: PaxosValue := PaxosValue("w", "", "", [])
  const X: PaxosValue := PaxosValue("x", "", "", [])

  function PrepareOf(n: nat, seqNo: nat, id: nat): Envelope {
    Envelope(n, seqNo, None, Prepare(0, id, n))
  }

  function ProposeOf(n: nat, seqNo: nat, id: nat, v: PaxosValue): Envelope {
    Envelope(n, seqNo, None, Propose(0, id, n, v))
  }

  function VoteOf(origin: nat, seqNo: nat, n: nat, id: nat, v: PaxosValue): Envelope {
    Envelope(origin, seqNo, None, Accept(0, id, n, v))
  }

  /** A promise without anything to report, and one that reports an accepted value. */
  function Blank(origin: nat, seqNo: nat, to: nat, id: nat): Envelope {
    Envelope(origin, seqNo, Some(to), Promise(0, id, 0, None))
  }

  function Report(origin: nat, seqNo: nat, to: nat, id: nat, acceptedID: nat, v: PaxosValue): Envelope {
    Envelope(origin, seqNo, Some(to), Promise(0, id, acceptedID, Some(v)))
  }

  /** A node in step 0 that counted no accepts yet. */
  function Plain(maxID: nat, acceptedID: nat, accepted: Option<PaxosValue>, run: ProposerState, lastID: nat,
                 sent: nat, seen: set<Envelope>): Node {
    Node(AcceptorState(ClockState(0, maxID, acceptedID, accepted, map[], map[], {}), [], []),
         run, lastID, sent, seen, {})
  }

  ghost predicate Is(hash: HashFn, s: System, kept: Kept, a: Node, b: Node, c: Node, net: set<Envelope>) {
    && Reached(Three(hash), s, kept)
    && |s.nodes| == 3 && s.nodes[0] == a && s.nodes[1] == b && s.nodes[2] == c && s.net == net
  }

  function N1(): set<Envelope> { {PrepareOf(0, 0, 1), Blank(0, 1, 0, 1), Blank(1, 0, 0, 1)} }

  lemma {:induction false} FirstPrepare(hash: HashFn, kept: Kept) returns (s: System)
    ensures Is(hash, s, kept, Plain(0, 0, None, WaitPromise(1, 0, 1, V), 4, 1, {}),
               Plain(0, 0, None, Idle(NotRun), 2, 0, {}), Plain(0, 0, None, Idle(NotRun), 3, 0, {}),
               {PrepareOf(0, 0, 1)})
  {
    var cfg := Three(hash);
    s := Initial(cfg);
    assert Legal(cfg, []) && After(cfg, []) == s;
    assert Reached(cfg, s, kept);
    hide Reached, Legal, After;
    s := Start(cfg, s, 0, V, kept);
    s := Prepares(cfg, s, 0, 1, kept);
  }

  lemma {:induction false} FirstPromises(hash: HashFn, kept: Kept) returns (s: System)
    ensures Is(hash, s, kept, Plain(1, 0, None, WaitPromise(1, 0, 1, V), 4, 2, {PrepareOf(0, 0, 1)}),
               Plain(1, 0, None, Idle(NotRun), 2, 1, {PrepareOf(0, 0, 1)}),
               Plain(0, 0, None, Idle(NotRun), 3, 0, {}), N1())
  {
    var cfg := Three(hash);
    s := FirstPrepare(hash, kept);
    hide Reached;
    s := GetsPrepare(cfg, s, 0, PrepareOf(0, 0, 1), kept);
    s := GetsPrepare(cfg, s, 1, PrepareOf(0, 0, 1), kept);
  }

  function FirstSeen(): set<Envelope> { N1() + {ProposeOf(0, 2, 1, V)} }

  /** Node 0 prepared ID 1 with nodes 0 and 1, proposed V, and alone accepted it. */
  lemma {:induction false} FirstBallot(hash: HashFn, kept: Kept) returns (s: System)
    ensures Is(hash, s, kept, Plain(1, 1, Some(V), WaitAccept(0, 1, V, V), 4, 4, FirstSeen()),
               Plain(1, 0, None, Idle(NotRun), 2, 1, {PrepareOf(0, 0, 1)}), Plain(0, 0, None, Idle(NotRun), 3, 0, {}),
               FirstSeen() + {VoteOf(0, 3, 0, 1, V)})
  {
    var cfg := Three(hash);
    s := FirstPromises(hash, kept);
    hide Reached;
    s := GetsPromise(cfg, s, 0, Blank(0, 1, 0, 1), kept);
    s := GetsPromise(cfg, s, 0, Blank(1, 0, 0, 1), kept);
    s := Proposes(cfg, s, 0, Blank(0, 1, 0, 1), Blank(1, 0, 0, 1), V, kept);
    s := GetsPropose(cfg, s, 0, ProposeOf(0, 2, 1, V), kept);
  }

  // Run one: node 2 takes the value of the report that arrives last, which is not the highest.

  function N3(): set<Envelope> {
    FirstSeen() + {VoteOf(0, 3, 0, 1, V)} + {PrepareOf(1, 1, 2), Blank(1, 2, 1, 2), Blank(2, 0, 1, 2)}
  }

  lemma {:induction false} SecondPromises(hash: HashFn) returns (s: System)
    ensures Is(hash, s, Tally, Plain(1, 1, Some(V), WaitAccept(0, 1, V, V), 4, 4, FirstSeen()),
               Plain(2, 0, None, WaitPromise(1, 0, 2, W), 5, 3, {PrepareOf(0, 0, 1), PrepareOf(1, 1, 2)}),
               Plain(2, 0, None, Idle(NotRun), 3, 1, {PrepareOf(1, 1, 2)}), N3())
  {
    var cfg := Three(hash);
    s := FirstBallot(hash, Tally);
    hide Reached;
    s := Start(cfg, s, 1, W, Tally);
    s := Prepares(cfg, s, 1, 2, Tally);
    s := GetsPrepare(cfg, s, 1, PrepareOf(1, 1, 2), Tally);
    s := GetsPrepare(cfg, s, 2, PrepareOf(1, 1, 2), Tally);
  }

  function Seen1(): set<Envelope> {
    {PrepareOf(0, 0, 1), PrepareOf(1, 1, 2), Blank(1, 2, 1, 2), Blank(2, 0, 1, 2)}
  }

  function N4(): set<Envelope> { N3() + {ProposeOf(1, 3, 2, W), VoteOf(1, 4, 1, 2, W), VoteOf(2, 1, 1, 2, W)} }

  /** Nodes 1 and 2 accepted W under ID 2: it is chosen. */
  lemma {:induction false} SecondBallot(hash: HashFn) returns (s: System)
    ensures Is(hash, s, Tally, Plain(1, 1, Some(V), WaitAccept(0, 1, V, V), 4, 4, FirstSeen()),
               Plain(2, 2, Some(W), WaitAccept(0, 2, W, W), 5, 5, Seen1() + {ProposeOf(1, 3, 2, W)}),
               Plain(2, 2, Some(W), Idle(NotRun), 3, 2, {PrepareOf(1, 1, 2), ProposeOf(1, 3, 2, W)}), N4())
  {
    var cfg := Three(hash);
    s := SecondPromises(hash);
    hide Reached;
    s := GetsPromise(cfg, s, 1, Blank(1, 2, 1, 2), Tally);
    s := GetsPromise(cfg, s, 1, Blank(2, 0, 1, 2), Tally);
    s := Proposes(cfg, s, 1, Blank(1, 2, 1, 2), Blank(2, 0, 1, 2), W, Tally);
    s := GetsPropose(cfg, s, 1, ProposeOf(1, 3, 2, W), Tally);
    s := GetsPropose(cfg, s, 2, ProposeOf(1, 3, 2, W), Tally);
  }

  function N5(): set<Envelope> {
    N4() + {PrepareOf(2, 2, 3), Report(0, 4, 2, 3, 1, V), Report(1, 5, 2, 3, 2, W)}
  }

  lemma {:induction false} ThirdPromises(hash: HashFn) returns (s: System)
    ensures Is(hash, s, Tally, Plain(3, 1, Some(V), WaitAccept(0, 1, V, V), 4, 5, FirstSeen() + {PrepareOf(2, 2, 3)}),
               Plain(3, 2, Some(W), WaitAccept(0, 2, W, W), 5, 6,
                     Seen1() + {ProposeOf(1, 3, 2, W), PrepareOf(2, 2, 3)}),
               Plain(2, 2, Some(W), WaitPromise(1, 0, 3, X), 6, 3, {PrepareOf(1, 1, 2), ProposeOf(1, 3, 2, W)}), N5())
  {
    var cfg := Three(hash);
    s := SecondBallot(hash);
    hide Reached;
    s := Start(cfg, s, 2, X, Tally);
    s := Prepares(cfg, s, 2, 3, Tally);
    s := GetsPrepare(cfg, s, 0, PrepareOf(2, 2, 3), Tally);
    s := GetsPrepare(cfg, s, 1, PrepareOf(2, 2, 3), Tally);
  }

  lemma {:induction false} ThirdBallot(hash: HashFn) returns (s: System)
    ensures Reached(Three(hash), s, Tally)
    ensures N4() + {VoteOf(0, 5, 2, 3, V), VoteOf(1, 6, 2, 3, V)} <= s.net
  {
    var cfg := Three(hash);
    s := ThirdPromises(hash);
    hide Reached;
    s := GetsPromise(cfg, s, 2, Report(1, 5, 2, 3, 2, W), Tally);
    s := GetsPromise(cfg, s, 2, Report(0, 4, 2, 3, 1, V), Tally);
    s := Proposes(cfg, s, 2, Report(1, 5, 2, 3, 2, W), Report(0, 4, 2, 3, 1, V), V, Tally);
    s := GetsPropose(cfg, s, 0, ProposeOf(2, 3, 3, V), Tally);
    s := GetsPropose(cfg, s, 1, ProposeOf(2, 3, 3, V), Tally);
  }

  lemma {:induction false} TwoVotes(cfg: Config, net: set<Envelope>, id: nat, v: PaxosValue, e: Envelope, f: Envelope)
    requires cfg.peers == 3 && {e, f} <= net && e.origin != f.origin && IsVote(e, 0, id, v) && IsVote(f, 0, id, v)
    ensures Chosen(cfg, net, 0, id, v)
  {
    SubsetSize({e.origin, f.origin}, Voters(net, 0, id, v));
  }

  /** Although every announcement counts one ballot, two different values are accepted by quorums of one
      step: node 2 proposed the value of the last report instead of the highest one. */
  lemma {:induction false} SelectionBreaksAgreement(hash: HashFn) returns (acts: seq<Action>)
    ensures var cfg := Three(hash);
            && Legal(cfg, acts) && TalliesBallotThroughout(cfg, acts)
            && Chosen(cfg, After(cfg, acts).net, 0, 2, W) && Chosen(cfg, After(cfg, acts).net, 0, 3, V) && V != W
  {
    var cfg := Three(hash);
    var s := ThirdBallot(hash);
    TwoVotes(cfg, s.net, 2, W, VoteOf(1, 4, 1, 2, W), VoteOf(2, 1, 1, 2, W));
    TwoVotes(cfg, s.net, 3, V, VoteOf(0, 5, 2, 3, V), VoteOf(1, 6, 2, 3, V));
    acts :| Legal(cfg, acts) && After(cfg, acts) == s && TalliesBallotThroughout(cfg, acts);
    assert V.uniqID[0] != W.uniqID[0];
  }

  // Run two: node 0 counts its own votes of two ballots as two acceptances.

  /** Node 0 after it counted the vote for V under ID 1 and prepared ID 4. */
  function Counted(maxID: nat, acceptedID: nat, count: nat, run: ProposerState, lastID: nat, sent: nat,
                   seen: set<Envelope>, tally: set<Envelope>, broadcast: set<nat>): Node {
    Node(AcceptorState(ClockState(0, maxID, acceptedID, Some(V), map["v" := AcceptanceProgress(V, count)], map[],
                                  broadcast), [], []),
         run, lastID, sent, seen, tally)
  }

  function C1(): Envelope { VoteOf(0, 3, 0, 1, V) }

  function M1(): set<Envelope> { FirstSeen() + {C1(), PrepareOf(0, 4, 4), Report(0, 5, 0, 4, 1, V), Blank(1, 1, 0, 4)} }

  lemma {:induction false} SecondTry(hash: HashFn) returns (s: System)
    ensures Is(hash, s, Selection,
               Counted(4, 1, 1, WaitPromise(1, 0, 4, V), 7, 6, FirstSeen() + {C1(), PrepareOf(0, 4, 4)}, {C1()}, {}),
               Plain(4, 0, None, Idle(NotRun), 2, 2, {PrepareOf(0, 0, 1), PrepareOf(0, 4, 4)}),
               Plain(0, 0, None, Idle(NotRun), 3, 0, {}), M1())
  {
    var cfg := Three(hash);
    s := FirstBallot(hash, Selection);
    hide Reached;
    s := CountsAccept(cfg, s, 0, C1(), Selection);
    s := Retries(cfg, s, 0, Selection);
    s := Prepares(cfg, s, 0, 4, Selection);
    s := GetsPrepare(cfg, s, 0, PrepareOf(0, 4, 4), Selection);
    s := GetsPrepare(cfg, s, 1, PrepareOf(0, 4, 4), Selection);
  }

  function Seen0(): set<Envelope> {
    FirstSeen() + {C1(), PrepareOf(0, 4, 4), Report(0, 5, 0, 4, 1, V), Blank(1, 1, 0, 4), ProposeOf(0, 6, 4, V)}
  }

  function C4(): Envelope { VoteOf(0, 7, 0, 4, V) }

  lemma {:induction false} SecondVote(hash: HashFn) returns (s: System)
    ensures Is(hash, s, Selection, Counted(4, 4, 1, WaitAccept(0, 4, V, V), 7, 8, Seen0(), {C1()}, {}),
               Plain(4, 0, None, Idle(NotRun), 2, 2, {PrepareOf(0, 0, 1), PrepareOf(0, 4, 4)}),
               Plain(0, 0, None, Idle(NotRun), 3, 0, {}), Seen0() + {C4()})
  {
    var cfg := Three(hash);
    s := SecondTry(hash);
    hide Reached;
    s := GetsPromise(cfg, s, 0, Report(0, 5, 0, 4, 1, V), Selection);
    s := GetsPromise(cfg, s, 0, Blank(1, 1, 0, 4), Selection);
    s := Proposes(cfg, s, 0, Report(0, 5, 0, 4, 1, V), Blank(1, 1, 0, 4), V, Selection);
    s := GetsPropose(cfg, s, 0, ProposeOf(0, 6, 4, V), Selection);
  }

  function BlockOf(hash: HashFn, v: PaxosValue): Block { GenerateBlock(hash, 0, v, []) }

  function T0(hash: HashFn): Envelope { Envelope(0, 8, None, TLC(0, BlockOf(hash, V))) }

  function M3(hash: HashFn): set<Envelope> { Seen0() + {C4(), T0(hash)} + {PrepareOf(1, 2, 5), Blank(1, 3, 1, 5),
              Blank(2, 0, 1, 5)} }

  function Node0(): Node { Counted(4, 4, 2, WaitAccept(0, 4, V, V), 7, 9, Seen0() + {C4()}, {C1(), C4()}, {0}) }

  /** Node 0 announces V, which no other node accepted. */
  lemma {:induction false} FirstAnnouncement(hash: HashFn) returns (s: System)
    ensures Is(hash, s, Selection, Node0(),
               Plain(4, 0, None, Idle(NotRun), 2, 2, {PrepareOf(0, 0, 1), PrepareOf(0, 4, 4)}),
               Plain(0, 0, None, Idle(NotRun), 3, 0, {}), Seen0() + {C4(), T0(hash)})
  {
    s := SecondVote(hash);
    hide Reached;
    s := AnnouncesBlock(Three(hash), s, 0, C4(), Selection);
  }

  /** Node 1 sends a prepare for ID 5. */
  lemma {:induction false} ThirdPrepare(hash: HashFn) returns (s: System)
    ensures Is(hash, s, Selection, Node0(),
               Plain(4, 0, None, WaitPromise(1, 0, 5, W), 8, 3, {PrepareOf(0, 0, 1), PrepareOf(0, 4, 4)}),
               Plain(0, 0, None, Idle(NotRun), 3, 0, {}), Seen0() + {C4(), T0(hash), PrepareOf(1, 2, 5)})
  {
    var cfg := Three(hash);
    s := FirstAnnouncement(hash);
    hide Reached;
    s := Start(cfg, s, 1, W, Selection);
    s := Prepares(cfg, s, 1, 5, Selection);
  }

  /** Nodes 1 and 2 promise ID 5. */
  lemma {:induction false} ThirdTry(hash: HashFn) returns (s: System)
    ensures Is(hash, s, Selection, Node0(),
               Plain(5, 0, None, WaitPromise(1, 0, 5, W), 8, 4,
                     {PrepareOf(0, 0, 1), PrepareOf(0, 4, 4), PrepareOf(1, 2, 5)}),
               Plain(5, 0, None, Idle(NotRun), 3, 1, {PrepareOf(1, 2, 5)}), M3(hash))
  {
    var cfg := Three(hash);
    s := ThirdPrepare(hash);
    hide Reached;
    s := GetsPrepare(cfg, s, 1, PrepareOf(1, 2, 5), Selection);
    s := GetsPrepare(cfg, s, 2, PrepareOf(1, 2, 5), Selection);
  }

  function Promised5(): set<Envelope> {
    {PrepareOf(0, 0, 1), PrepareOf(0, 4, 4), PrepareOf(1, 2, 5), Blank(1, 3, 1, 5), Blank(2, 0, 1, 5)}
  }

  function Seen5(): set<Envelope> { Promised5() + {ProposeOf(1, 4, 5, W)} }

  lemma {:induction false} ThirdProposal(hash: HashFn) returns (s: System)
    ensures Is(hash, s, Selection, Node0(), Plain(5, 0, None, WaitAccept(0, 5, W, W), 8, 5, Promised5()),
               Plain(5, 0, None, Idle(NotRun), 3, 1, {PrepareOf(1, 2, 5)}), M3(hash) + {ProposeOf(1, 4, 5, W)})
  {
    var cfg := Three(hash);
    s := ThirdTry(hash);
    hide Reached;
    s := GetsPromise(cfg, s, 1, Blank(1, 3, 1, 5), Selection);
    s := GetsPromise(cfg, s, 1, Blank(2, 0, 1, 5), Selection);
    s := Proposes(cfg, s, 1, Blank(1, 3, 1, 5), Blank(2, 0, 1, 5), W, Selection);
  }

  lemma {:induction false} ThirdVote(hash: HashFn) returns (s: System)
    ensures Is(hash, s, Selection, Node0(), Plain(5, 5, Some(W), WaitAccept(0, 5, W, W), 8, 6, Seen5()),
               Plain(5, 0, None, Idle(NotRun), 3, 1, {PrepareOf(1, 2, 5)}),
               M3(hash) + {ProposeOf(1, 4, 5, W), VoteOf(1, 5, 1, 5, W)})
  {
    s := ThirdProposal(hash);
    hide Reached;
    s := GetsPropose(Three(hash), s, 1, ProposeOf(1, 4, 5, W), Selection);
  }

  lemma {:induction false} ThirdVotes(hash: HashFn) returns (s: System)
    ensures Is(hash, s, Selection, Node0(), Plain(5, 5, Some(W), WaitAccept(0, 5, W, W), 8, 6, Seen5()),
               Plain(5, 5, Some(W), Idle(NotRun), 3, 2, {PrepareOf(1, 2, 5), ProposeOf(1, 4, 5, W)}),
               M3(hash) + {ProposeOf(1, 4, 5, W), VoteOf(1, 5, 1, 5, W), VoteOf(2, 1, 1, 5, W)})
  {
    s := ThirdVote(hash);
    hide Reached, M3, Seen5;
    s := GetsPropose(Three(hash), s, 2, ProposeOf(1, 4, 5, W), Selection);
  }

  function T1(hash: HashFn): Envelope { Envelope(1, 6, None, TLC(0, BlockOf(hash, W))) }

  lemma {:induction false} OneCounted(hash: HashFn) returns (s: System)
    ensures Reached(Three(hash), s, Selection) && |s.nodes| == 3 && M3(hash) + {VoteOf(2, 1, 1, 5, W)} <= s.net
    ensures s.nodes[0] == Node0()
    ensures var c := ClockState(0, 5, 5, Some(W), map["w" := AcceptanceProgress(W, 1)], map[], {});
            s.nodes[1] == Node(AcceptorState(c, [], []), WaitAccept(0, 5, W, W), 8, 6,
                               Seen5() + {VoteOf(1, 5, 1, 5, W)}, {VoteOf(1, 5, 1, 5, W)})
  {
    s := ThirdVotes(hash);
    hide Reached;
    FirstCount();
    hide WithAcceptance;
    s := CountsAccept(Three(hash), s, 1, VoteOf(1, 5, 1, 5, W), Selection);
  }

  lemma {:induction false} FirstCount()
    ensures WithAcceptance(ClockState(0, 5, 5, Some(W), map[], map[], {}), W) ==
            ClockState(0, 5, 5, Some(W), map["w" := AcceptanceProgress(W, 1)], map[], {})
  {
  }

  lemma {:induction false} AnnouncementsUnseen(hash: HashFn)
    ensures T0(hash) in M3(hash) && T0(hash) !in Seen5() && T1(hash) !in Seen5()
    ensures T0(hash) !in {VoteOf(1, 5, 1, 5, W), VoteOf(2, 1, 1, 5, W)} && VoteOf(2, 1, 1, 5, W) !in Seen5()
  {
    hide GenerateBlock;
  }

  /** Node 1 announces W, and each of the nodes 0 and 1 gets its own announcement first. */
  lemma {:induction false} BothAnnounced(hash: HashFn) returns (s: System)
    ensures Reached(Three(hash), s, Selection) && |s.nodes| == 3 && {T0(hash), T1(hash)} <= s.net
    ensures s.nodes[0] == Node0()
    ensures var n := s.nodes[1];
            && T0(hash) !in n.seen && T1(hash) !in n.seen && 0 in n.acceptor.clock.broadcast && n.acceptor.chain == []
            && n.acceptor.clock.step == 0 && n.acceptor.clock.tlc == map[]
  {
    s := OneCounted(hash);
    AnnouncementsUnseen(hash);
    hide Reached, GenerateBlock, M3, Seen5, T0;
    s := AnnouncesBlock(Three(hash), s, 1, VoteOf(2, 1, 1, 5, W), Selection);
  }

  lemma {:induction false} ForkedState(hash: HashFn) returns (s: System)
    ensures Reached(Three(hash), s, Selection) && |s.nodes| == 3
    ensures s.nodes[0].acceptor.chain == [BlockOf(hash, V)] && s.nodes[1].acceptor.chain == [BlockOf(hash, W)]
  {
    var cfg := Three(hash);
    s := BothAnnounced(hash);
    hide Reached, GenerateBlock;
    s := GetsFirstTLC(cfg, s, 0, T0(hash), Selection);
    s := GetsFirstTLC(cfg, s, 1, T1(hash), Selection);
    s := GetsSecondTLC(cfg, s, 0, T1(hash), BlockOf(hash, V), Selection);
    s := GetsSecondTLC(cfg, s, 1, T0(hash), BlockOf(hash, W), Selection);
  }

  /** Although every proposer chooses the highest report, the chains of nodes 0 and 1 fork in step 0:
      node 0 announced V on the strength of two votes of its own. */
  lemma {:induction false} TallyBreaksChains(hash: HashFn) returns (acts: seq<Action>)
    ensures var cfg := Three(hash);
            && Legal(cfg, acts) && SelectsHighestThroughout(cfg, acts)
            && |After(cfg, acts).nodes| == 3
            && After(cfg, acts).nodes[0].acceptor.chain == [BlockOf(hash, V)]
            && After(cfg, acts).nodes[1].acceptor.chain == [BlockOf(hash, W)]
            && BlockOf(hash, V) != BlockOf(hash, W)
  {
    var cfg := Three(hash);
    var s := ForkedState(hash);
    acts :| Legal(cfg, acts) && After(cfg, acts) == s && SelectsHighestThroughout(cfg, acts);
    assert V.uniqID[0] != W.uniqID[0];
  }

  // Run three: nodes 0 and 1 accept V under one ID, and the block is appended.

  function N6(): set<Envelope> { FirstSeen() + {VoteOf(0, 3, 0, 1, V), VoteOf(1, 1, 0, 1, V)} }

  lemma {:induction false} BothVoted(hash: HashFn) returns (s: System)
    ensures Is(hash, s, Both, Plain(1, 1, Some(V), WaitAccept(0, 1, V, V), 4, 4, FirstSeen()),
               Plain(1, 1, Some(V), Idle(NotRun), 2, 2, {PrepareOf(0, 0, 1), ProposeOf(0, 2, 1, V)}),
               Plain(0, 0, None, Idle(NotRun), 3, 0, {}), N6())
  {
    s := FirstBallot(hash, Both);
    hide Reached;
    s := GetsPropose(Three(hash), s, 1, ProposeOf(0, 2, 1, V), Both);
  }

  lemma {:induction false} FirstCountOfV()
    ensures WithAcceptance(ClockState(0, 1, 1, Some(V), map[], map[], {}), V) ==
            ClockState(0, 1, 1, Some(V), map["v" := AcceptanceProgress(V, 1)], map[], {})
    ensures WithAcceptance(ClockState(0, 1, 1, Some(V), map["v" := AcceptanceProgress(V, 1)], map[], {}), V) ==
            ClockState(0, 1, 1, Some(V), map["v" := AcceptanceProgress(V, 2)], map[], {})
  {
  }

  function F1(): Envelope { VoteOf(1, 1, 0, 1, V) }

  function Final0(): Node {
    Counted(1, 1, 2, WaitAccept(0, 1, V, V), 4, 5, FirstSeen() + {C1(), F1()}, {C1(), F1()}, {0})
  }

  function Final1(): Node {
    Counted(1, 1, 2, Idle(NotRun), 2, 3, {PrepareOf(0, 0, 1), ProposeOf(0, 2, 1, V), C1(), F1()}, {C1(), F1()}, {0})
  }

  function B0(hash: HashFn): Envelope { Envelope(0, 4, None, TLC(0, BlockOf(hash, V))) }

  function B1(hash: HashFn): Envelope { Envelope(1, 2, None, TLC(0, BlockOf(hash, V))) }

  lemma {:induction false} FirstAnnounces(hash: HashFn) returns (s: System)
    ensures Is(hash, s, Both, Final0(),
               Plain(1, 1, Some(V), Idle(NotRun), 2, 2, {PrepareOf(0, 0, 1), ProposeOf(0, 2, 1, V)}),
               Plain(0, 0, None, Idle(NotRun), 3, 0, {}), N6() + {B0(hash)})
  {
    var cfg := Three(hash);
    s := BothVoted(hash);
    FirstCountOfV();
    hide Reached, WithAcceptance, GenerateBlock;
    s := CountsAccept(cfg, s, 0, C1(), Both);
    assert C1() in BallotTally(s.nodes[0].tally, F1().msg);
    s := AnnouncesBlock(cfg, s, 0, F1(), Both);
  }

  lemma {:induction false} SecondAnnounces(hash: HashFn) returns (s: System)
    ensures Is(hash, s, Both, Final0(), Final1(), Plain(0, 0, None, Idle(NotRun), 3, 0, {}),
               N6() + {B0(hash), B1(hash)})
  {
    var cfg := Three(hash);
    s := FirstAnnounces(hash);
    FirstCountOfV();
    hide Reached, WithAcceptance, GenerateBlock;
    s := CountsAccept(cfg, s, 1, C1(), Both);
    assert C1() in BallotTally(s.nodes[1].tally, F1().msg);
    s := AnnouncesBlock(cfg, s, 1, F1(), Both);
  }

  lemma {:induction false} BlockAppended(hash: HashFn) returns (s: System)
    ensures Reached(Three(hash), s, Both) && |s.nodes| == 3
    ensures var node := s.nodes[0];
            && node.acceptor.chain == [BlockOf(hash, V)] && TLC(0, BlockOf(hash, V)) in node.acceptor.ticks
            && node.proposer == WaitAccept(0, 1, V, V) && {C1(), F1()} <= node.seen
  {
    var cfg := Three(hash);
    s := SecondAnnounces(hash);
    hide Reached, GenerateBlock;
    s := GetsFirstTLC(cfg, s, 0, B0(hash), Both);
    s := GetsSecondTLC(cfg, s, 0, B1(hash), BlockOf(hash, V), Both);
  }

  lemma {:induction false} ProposalDecided(hash: HashFn) returns (s: System)
    ensures Reached(Three(hash), s, Both) && |s.nodes| == 3
    ensures s.nodes[0].acceptor.chain == [BlockOf(hash, V)] && s.nodes[0].proposer.Idle?
    ensures ProposeResult(s.nodes[0].proposer.outcome) == Ok(BlockOf(hash, V).hash)
  {
    var cfg := Three(hash);
    s := BlockAppended(hash);
    hide Reached;
    s := Collects(cfg, s, 0, C1(), F1(), Both);
    s := Decides(cfg, s, 0, TLC(0, BlockOf(hash, V)), Both);
  }

  /** A run that keeps both conditions, appends a block, and ends the proposal with the hash of that block:
      the hypotheses of ChainSafety can be met, and proposals can succeed. */
  lemma {:induction false} CarefulRunBuildsChain(hash: HashFn) returns (acts: seq<Action>)
    ensures var cfg := Three(hash);
            && Legal(cfg, acts) && SelectsHighestThroughout(cfg, acts) && TalliesBallotThroughout(cfg, acts)
            && |After(cfg, acts).nodes| == 3
            && var node := After(cfg, acts).nodes[0];
               && node.acceptor.chain == [BlockOf(hash, V)]
               && node.proposer.Idle? && ProposeResult(node.proposer.outcome) == Ok(node.acceptor.chain[0].hash)
  {
    var cfg := Three(hash);
    var s := ProposalDecided(hash);
    acts :| Legal(cfg, acts) && After(cfg, acts) == s && KeptThroughout(cfg, acts, Both);
  }
}
