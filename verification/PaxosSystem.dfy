/** N nodes running one Paxos instance over a network that may lose, delay and reorder messages, but
    hands each message to a node at most once (what the gossip layer provides, see module GossipNetwork).
    Every step of the system is one handler call or one turn of a proposer. */
module PaxosSystem {
  import opened Common
  import opened PaxosTypes
  import opened Clocks
  import opened Acceptors
  import opened Proposers

  /** A message in the network, named by its origin and the origin's sequence number. */
  datatype Envelope = Envelope(origin: nat, seqNo: nat, to: Option<nat>, msg: Message)

  /** One node. The fields sent, seen and tally are history: how many messages it sent, which
      envelopes it handled, and which accept messages it counted. */
  datatype Node = Node(
    acceptor: AcceptorState,
    proposer: ProposerState,
    lastID: nat,
    sent: nat,
    seen: set<Envelope>,
    tally: set<Envelope>)

  datatype Config = Config(peers: nat, hash: HashFn)

  datatype System = System(nodes: seq<Node>, net: set<Envelope>)

  datatype Action =
    | Deliver(n: nat, e: Envelope, valid: bool)
    | StartRun(n: nat, value: PaxosValue)
    | Advance(n: nat, picked: seq<Envelope>, ticks: seq<Message>)

  function Threshold(cfg: Config): nat {
    cfg.peers / 2 + 1
  }

  function SettingOf(cfg: Config, n: nat): Setting {
    Setting(cfg.peers, Threshold(cfg), n)
  }

  /** Node i starts with the proposal ID i + 1. */
  function InitialNode(i: nat): Node {
    Node(AcceptorState(NEW_CLOCK, [], []), Idle(NotRun), i + 1, 0, {}, {})
  }

  function InitialNodes(k: nat): (nodes: seq<Node>)
    ensures |nodes| == k && forall i :: 0 <= i < k ==> nodes[i] == InitialNode(i)
  {
    if k == 0 then [] else InitialNodes(k - 1) + [InitialNode(k - 1)]
  }

  function Initial(cfg: Config): System {
    System(InitialNodes(cfg.peers), {})
  }

  function Messages(es: seq<Envelope>): (ms: seq<Message>)
    ensures |ms| == |es| && forall i :: 0 <= i < |es| ==> ms[i] == es[i].msg
  {
    if es == [] then [] else Messages(es[..|es| - 1]) + [es[|es| - 1].msg]
  }

  predicate Distinct(es: seq<Envelope>) {
    forall i, j :: 0 <= i < j < |es| ==> es[i] != es[j]
  }

  /** What the proposer of a node finds: tick messages when it is done, handled messages otherwise. */
  function EnvironmentOf(node: Node, picked: seq<Envelope>, ticks: seq<Message>): Environment {
    Environment(node.acceptor.clock.step, node.acceptor.clock.maxID,
                if node.proposer.Done? then ticks else Messages(picked))
  }

  predicate Enabled(cfg: Config, s: System, a: Action) {
    && |s.nodes| == cfg.peers
    && a.n < cfg.peers
    && var node := s.nodes[a.n];
       match a
       case Deliver(n, e, _) => e in s.net && e !in node.seen && (e.to == None || e.to == Some(n))
       case StartRun(_, _) => node.proposer.Idle?
       case Advance(_, picked, ticks) =>
         && Fits(node.proposer, EnvironmentOf(node, picked, ticks), Threshold(cfg))
         && Distinct(picked)
         && (forall e :: e in picked ==> e in node.seen)
         && (forall m :: m in ticks ==> m in node.acceptor.ticks)
  }

  function Destination(out: Outgoing): Option<nat> {
    if out.Private? then Some(out.to) else None
  }

  /** Node n takes the given state and sends the given message, if any. */
  function Send(s: System, n: nat, node: Node, out: Outgoing): System
    requires n < |s.nodes|
  {
    if out.Silent? then System(s.nodes[n := node], s.net)
    else System(s.nodes[n := node.(sent := node.sent + 1)],
                s.net + {Envelope(n, node.sent, Destination(out), out.msg)})
  }

  /** What the acceptor of a node does with a delivered message. A promise only concerns the proposer. */
  function Handle(cfg: Config, st: AcceptorState, m: Message, valid: bool): Handled {
    match m
    case Prepare(_, _, _) => OnPrepare(st, m)
    case Promise(_, _, _, _) => Handled(st, Silent)
    case Propose(_, _, _, _) => OnPropose(st, m, valid)
    case Accept(_, _, _, _) => OnAccept(st, m, Threshold(cfg), cfg.hash)
    case TLC(_, _) => OnTLC(st, m, Threshold(cfg))
  }

  /** A node after handling an envelope, before its answer is sent. */
  function Received(cfg: Config, node: Node, e: Envelope, valid: bool): Node {
    node.(acceptor := Handle(cfg, node.acceptor, e.msg, valid).state,
          seen := node.seen + {e},
          tally := if e.msg.Accept? && Counts(node.acceptor, e.msg) then node.tally + {e} else node.tally)
  }

  function TurnOf(cfg: Config, node: Node, a: Action): Turn
    requires a.Advance? && cfg.peers > 0
    requires Fits(node.proposer, EnvironmentOf(node, a.picked, a.ticks), Threshold(cfg))
  {
    Next(node.proposer, node.lastID, EnvironmentOf(node, a.picked, a.ticks), SettingOf(cfg, a.n))
  }

  function Apply(cfg: Config, s: System, a: Action): System
    requires Enabled(cfg, s, a)
  {
    var node := s.nodes[a.n];
    match a
    case Deliver(n, e, valid) =>
      Send(s, n, Received(cfg, node, e, valid), Handle(cfg, node.acceptor, e.msg, valid).out)
    case StartRun(n, value) => Send(s, n, node.(proposer := Begin(0, value)), Silent)
    case Advance(n, _, _) =>
      var turn := TurnOf(cfg, node, a);
      Send(s, n, node.(proposer := turn.state, lastID := turn.lastID), turn.out)
  }

  /** The actions are possible one after the other from the initial state. */
  predicate Legal(cfg: Config, acts: seq<Action>)
    decreases |acts|, 0
  {
    acts == [] ||
    (Legal(cfg, acts[..|acts| - 1]) && Enabled(cfg, After(cfg, acts[..|acts| - 1]), acts[|acts| - 1]))
  }

  function After(cfg: Config, acts: seq<Action>): System
    requires Legal(cfg, acts)
    decreases |acts|, 1
  {
    if acts == [] then Initial(cfg)
    else Apply(cfg, After(cfg, acts[..|acts| - 1]), acts[|acts| - 1])
  }

  // What can be read off the network.

  predicate IsVote(e: Envelope, step: nat, id: nat, v: PaxosValue) {
    e.to == None && e.msg.Accept? && e.msg.step == step && e.msg.id == id && e.msg.value == v
  }

  /** The nodes that accepted value v under one ID in a step. */
  function Voters(net: set<Envelope>, step: nat, id: nat, v: PaxosValue): set<nat> {
    set e | e in net && IsVote(e, step, id, v) :: e.origin
  }

  predicate Chosen(cfg: Config, net: set<Envelope>, step: nat, id: nat, v: PaxosValue) {
    |Voters(net, step, id, v)| >= Threshold(cfg)
  }

  predicate IsTLC(e: Envelope, step: nat) {
    e.msg.TLC? && e.msg.step == step
  }

  function TLCSenders(net: set<Envelope>, step: nat): set<nat> {
    set e | e in net && IsTLC(e, step) :: e.origin
  }

  // The two places where the code needs more than it checks.

  /** A proposer that has enough promises to choose a value takes the value of a top report, if there is a
      report at all. */
  ghost predicate SelectsHighest(cfg: Config, s: System, a: Action)
    requires Enabled(cfg, s, a)
  {
    (a.Advance? && s.nodes[a.n].proposer.WaitPromise? && |a.picked| >= Threshold(cfg)) ==> TakesTop(Messages(a.picked))
  }

  /** The accepts that a node counted for the value of an accept message under that message's step and ID. */
  function BallotTally(tally: set<Envelope>, m: Message): set<Envelope>
    requires m.Accept?
  {
    set t | t in tally && t.msg.Accept? && t.msg.value.uniqID == m.value.uniqID
            && t.msg.step == m.step && t.msg.id == m.id
  }

  /** A node that announces a block counted enough accepts of the ballot that it announces. */
  predicate TalliesBallot(cfg: Config, s: System, a: Action)
    requires Enabled(cfg, s, a)
  {
    (a.Deliver? && a.e.msg.Accept? && Announces(s.nodes[a.n].acceptor, a.e.msg, Threshold(cfg))) ==>
      |BallotTally(s.nodes[a.n].tally, a.e.msg)| + 1 >= Threshold(cfg)
  }

  /** A node that announces a block counted the accepts of that value under one step and ID only. */
  predicate TalliesOneBallot(cfg: Config, s: System, a: Action)
    requires Enabled(cfg, s, a)
  {
    (a.Deliver? && a.e.msg.Accept? && Announces(s.nodes[a.n].acceptor, a.e.msg, Threshold(cfg))) ==>
      forall t :: t in s.nodes[a.n].tally && t.msg.Accept? && t.msg.value.uniqID == a.e.msg.value.uniqID
        ==> t.msg.step == a.e.msg.step && t.msg.id == a.e.msg.id
  }

  ghost predicate SelectsHighestThroughout(cfg: Config, acts: seq<Action>)
    requires Legal(cfg, acts)
  {
    acts == [] ||
    (SelectsHighestThroughout(cfg, acts[..|acts| - 1]) &&
     SelectsHighest(cfg, After(cfg, acts[..|acts| - 1]), acts[|acts| - 1]))
  }

  predicate TalliesBallotThroughout(cfg: Config, acts: seq<Action>)
    requires Legal(cfg, acts)
  {
    acts == [] ||
    (TalliesBallotThroughout(cfg, acts[..|acts| - 1]) &&
     TalliesBallot(cfg, After(cfg, acts[..|acts| - 1]), acts[|acts| - 1]))
  }
}
