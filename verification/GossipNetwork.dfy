/** Gossip over a network that may lose, duplicate, reorder and forge rumors as it likes: a node is handed any
    list of rumors, as long as its signature check finds the ones that their origins did not broadcast. */
module GossipNetwork {
  import opened GossipViews
  import opened Gossip

  /** A node's state and the rumors that it processed so far (history). */
  datatype GossipNode = GossipNode(state: GossipState, admitted: seq<Rumor>)

  /** All nodes by address, and every node's own broadcast log (history). */
  datatype Network = Network(nodes: map<Address, GossipNode>, logs: map<Address, seq<Rumor>>)

  /** The owner of a node may take addresses off the blocked ones. */
  datatype GossipAction =
    | Publish(n: Address, msg: string)
    | Receive(n: Address, rs: seq<Rumor>, judge: Judge)
    | Unblock(n: Address, ips: set<Address>)

  function Start(peers: set<Address>): Network {
    Network(map p | p in peers :: GossipNode(GossipState(map[], {}), []), map p | p in peers :: [])
  }

  predicate IsGenuine(logs: map<Address, seq<Rumor>>, r: Rumor) {
    r.origin in logs && 1 <= r.sequence <= |logs[r.origin]| && logs[r.origin][r.sequence - 1] == r
  }

  /** The signature check does not let a rumor pass that its origin did not broadcast. */
  predicate Vouched(logs: map<Address, seq<Rumor>>, r: Rumor, judge: Judge) {
    judge(r).BadSignature? || IsGenuine(logs, r)
  }

  predicate Possible(net: Network, a: GossipAction) {
    && a.n in net.nodes && a.n in net.logs
    && (a.Receive? ==> forall r :: r in a.rs ==> Vouched(net.logs, r, a.judge))
  }

  function Act(net: Network, a: GossipAction): Network
    requires Possible(net, a)
  {
    var node := net.nodes[a.n];
    match a
    case Publish(n, msg) =>
      var rumor := Rumor(n, SequenceOf(node.state.view, n) + 1, msg);
      Network(net.nodes[n := node.(state := node.state.(view := SavedIn(node.state.view, rumor)))],
              net.logs[n := net.logs[n] + [rumor]])
    case Receive(n, rs, judge) =>
      var done := AdmitAll(node.state, rs, judge);
      Network(net.nodes[n := GossipNode(done.state, node.admitted + done.interest)], net.logs)
    case Unblock(n, ips) =>
      Network(net.nodes[n := node.(state := node.state.(blockedIPs := node.state.blockedIPs - ips))], net.logs)
  }

  predicate Run(peers: set<Address>, acts: seq<GossipAction>)
    decreases |acts|, 0
  {
    acts == [] ||
    (Run(peers, acts[..|acts| - 1]) && Possible(Reach(peers, acts[..|acts| - 1]), acts[|acts| - 1]))
  }

  function Reach(peers: set<Address>, acts: seq<GossipAction>): Network
    requires Run(peers, acts)
    decreases |acts|, 1
  {
    if acts == [] then Start(peers) else Act(Reach(peers, acts[..|acts| - 1]), acts[|acts| - 1])
  }

  // Views are prefixes of the logs.

  ghost predicate LogsNumbered(logs: map<Address, seq<Rumor>>) {
    forall o, k :: o in logs && 0 <= k < |logs[o]| ==> logs[o][k].origin == o && logs[o][k].sequence == k + 1
  }

  /** The rumors saved of one origin are the first ones of its log, without gaps. */
  ghost predicate IsPrefix(saved: map<int, Rumor>, log: seq<Rumor>) {
    && |saved| <= |log|
    && (forall k :: k in saved <==> 1 <= k <= |saved|)
    && (forall k :: k in saved ==> saved[k] == log[k - 1])
  }

  ghost predicate ViewOf(v: View, logs: map<Address, seq<Rumor>>) {
    forall o :: o in v ==> o in logs && v[o] != map[] && IsPrefix(v[o], logs[o])
  }

  /** A node's view holds prefixes of the logs, and all of the node's own log. */
  ghost predicate Consistent(v: View, logs: map<Address, seq<Rumor>>, n: Address) {
    n in logs && ViewOf(v, logs) && SequenceOf(v, n) == |logs[n]|
  }

  ghost predicate Prefixes(net: Network) {
    && net.nodes.Keys == net.logs.Keys
    && LogsNumbered(net.logs)
    && (forall n :: n in net.nodes ==> Consistent(net.nodes[n].state.view, net.logs, n))
  }

  lemma {:induction false} SavedNextHere(saved: map<int, Rumor>, log: seq<Rumor>, r: Rumor)
    requires IsPrefix(saved, log) && r.sequence == |saved| + 1 <= |log| && log[|saved|] == r
    ensures IsPrefix(saved[r.sequence := r], log) && |saved[r.sequence := r]| == |saved| + 1
  {
    assert r.sequence !in saved;
    assert saved[r.sequence := r].Keys == saved.Keys + {r.sequence};
    assert |saved.Keys + {r.sequence}| == |saved.Keys| + 1;
  }

  lemma {:induction false} SavedNext(v: View, logs: map<Address, seq<Rumor>>, r: Rumor)
    requires ViewOf(v, logs) && IsGenuine(logs, r) && Expects(v, r.origin, r.sequence)
    ensures ViewOf(SavedIn(v, r), logs)
    ensures forall o :: SequenceOf(SavedIn(v, r), o) == SequenceOf(v, o) + if o == r.origin then 1 else 0
  {
    SavedNextHere(if r.origin in v then v[r.origin] else map[], logs[r.origin], r);
    var v' := SavedIn(v, r);
    forall o | o in v'
      ensures o in logs && v'[o] != map[] && IsPrefix(v'[o], logs[o])
    {
      if o != r.origin {
        assert o in v && v'[o] == v[o];
        assert IsPrefix(v[o], logs[o]);
      }
    }
  }

  /** Only rumors of other origins are next expected ones: a node knows all of its own log. */
  lemma {:induction false} SaveKeeps(v: View, logs: map<Address, seq<Rumor>>, r: Rumor, n: Address)
    requires Consistent(v, logs, n) && IsGenuine(logs, r) && Expects(v, r.origin, r.sequence)
    ensures r.origin != n && Consistent(SavedIn(v, r), logs, n)
  {
    assert r.origin != n;
    SavedNext(v, logs, r);
  }

  lemma {:induction false} DropKeeps(v: View, logs: map<Address, seq<Rumor>>, o: Address, n: Address)
    requires Consistent(v, logs, n) && o != n
    ensures Consistent(v - {o}, logs, n)
  {
  }

  lemma {:induction false} AdmitOneKeeps(st: GossipState, logs: map<Address, seq<Rumor>>, r: Rumor, judge: Judge,
                                         n: Address)
    requires Consistent(st.view, logs, n) && Vouched(logs, r, judge)
    ensures Consistent(AdmitOne(st, r, judge).state.view, logs, n)
  {
    hide Consistent, IsGenuine, SavedIn, Expects;
    if Expects(st.view, r.origin, r.sequence) && !judge(r).BadSignature? {
      SaveKeeps(st.view, logs, r, n);
      DropKeeps(st.view, logs, r.origin, n);
    }
  }

  lemma {:induction false} AdmitAllKeeps(st: GossipState, logs: map<Address, seq<Rumor>>, rs: seq<Rumor>,
                                         judge: Judge, n: Address)
    requires Consistent(st.view, logs, n) && forall r :: r in rs ==> Vouched(logs, r, judge)
    ensures Consistent(AdmitAll(st, rs, judge).state.view, logs, n)
  {
    hide Consistent, Vouched, AdmitOne;
    if rs != [] {
      AdmitAllKeeps(st, logs, rs[..|rs| - 1], judge, n);
      AdmitOneKeeps(AdmitAll(st, rs[..|rs| - 1], judge).state, logs, rs[|rs| - 1], judge, n);
    }
  }

  lemma {:induction false} LongerLogs(v: View, logs: map<Address, seq<Rumor>>, n: Address, r: Rumor)
    requires ViewOf(v, logs) && n in logs
    ensures ViewOf(v, logs[n := logs[n] + [r]])
  {
    forall o | o in v
      ensures IsPrefix(v[o], logs[n := logs[n] + [r]][o])
    {
      assert IsPrefix(v[o], logs[o]);
    }
  }

  lemma {:induction false} PublishKeepsOwn(v: View, logs: map<Address, seq<Rumor>>, n: Address, msg: string)
    requires Consistent(v, logs, n)
    ensures var rumor := Rumor(n, SequenceOf(v, n) + 1, msg);
            Consistent(SavedIn(v, rumor), logs[n := logs[n] + [rumor]], n)
  {
    var rumor := Rumor(n, SequenceOf(v, n) + 1, msg);
    LongerLogs(v, logs, n, rumor);
    SavedNext(v, logs[n := logs[n] + [rumor]], rumor);
  }

  lemma {:induction false} PublishKeepsOther(v: View, logs: map<Address, seq<Rumor>>, n: Address, r: Rumor, m: Address)
    requires Consistent(v, logs, m) && n in logs && m != n
    ensures Consistent(v, logs[n := logs[n] + [r]], m)
  {
    LongerLogs(v, logs, n, r);
  }

  lemma {:induction false} PrefixesStep(net: Network, a: GossipAction)
    requires Prefixes(net) && Possible(net, a)
    ensures Prefixes(Act(net, a))
  {
    hide AdmitAll, ViewOf, SavedIn;
    match a
    case Publish(n, msg) => PublishKeepsPrefixes(net, n, msg);
    case Receive(n, rs, judge) => AdmitAllKeeps(net.nodes[n].state, net.logs, rs, judge, n);
    case Unblock(_, _) =>
  }

  lemma {:induction false} NumberedNext(logs: map<Address, seq<Rumor>>, n: Address, r: Rumor)
    requires LogsNumbered(logs) && n in logs && r.origin == n && r.sequence == |logs[n]| + 1
    ensures LogsNumbered(logs[n := logs[n] + [r]])
  {
  }

  lemma {:induction false} PublishKeepsNode(net: Network, n: Address, msg: string, m: Address)
    requires Prefixes(net) && n in net.nodes && m in net.nodes
    ensures var net' := Act(net, Publish(n, msg));
            m in net'.nodes && Consistent(net'.nodes[m].state.view, net'.logs, m)
  {
    hide ViewOf, SavedIn, LogsNumbered;
    var view := net.nodes[n].state.view;
    if m == n {
      PublishKeepsOwn(view, net.logs, n, msg);
    } else {
      PublishKeepsOther(net.nodes[m].state.view, net.logs, n, Rumor(n, SequenceOf(view, n) + 1, msg), m);
    }
  }

  lemma {:induction false} PublishKeepsNumbers(net: Network, n: Address, msg: string)
    requires Prefixes(net) && n in net.nodes
    ensures var net' := Act(net, Publish(n, msg));
            net'.nodes.Keys == net.nodes.Keys == net'.logs.Keys && LogsNumbered(net'.logs)
  {
    assert SequenceOf(net.nodes[n].state.view, n) == |net.logs[n]|;
    hide ViewOf, SavedIn, LogsNumbered;
    NumberedNext(net.logs, n, Rumor(n, SequenceOf(net.nodes[n].state.view, n) + 1, msg));
  }

  lemma {:induction false} PublishKeepsPrefixes(net: Network, n: Address, msg: string)
    requires Prefixes(net) && n in net.nodes
    ensures Prefixes(Act(net, Publish(n, msg)))
  {
    PublishKeepsNumbers(net, n, msg);
    hide Act, Consistent, ViewOf, LogsNumbered;
    var net' := Act(net, Publish(n, msg));
    forall m | m in net'.nodes
      ensures Consistent(net'.nodes[m].state.view, net'.logs, m)
    {
      PublishKeepsNode(net, n, msg, m);
    }
  }

  lemma {:induction false} AlwaysPrefixes(peers: set<Address>, acts: seq<GossipAction>)
    requires Run(peers, acts)
    ensures Prefixes(Reach(peers, acts))
  {
    if acts != [] {
      AlwaysPrefixes(peers, acts[..|acts| - 1]);
      PrefixesStep(Reach(peers, acts[..|acts| - 1]), acts[|acts| - 1]);
    }
  }

  /** Whatever arrives, forged or not, and even when views are dropped, what a node saved of an origin is a gap-free
      prefix of what that origin broadcast. */
  lemma {:induction false} PrefixDelivery(peers: set<Address>, acts: seq<GossipAction>, n: Address, o: Address)
    requires Run(peers, acts) && n in Reach(peers, acts).nodes && o in Reach(peers, acts).nodes[n].state.view
    ensures var net := Reach(peers, acts);
            o in net.logs && IsPrefix(net.nodes[n].state.view[o], net.logs[o])
  {
    AlwaysPrefixes(peers, acts);
  }

  // At most once.

  ghost predicate NoDrops(a: GossipAction) {
    a.Receive? ==> forall r :: r in a.rs ==> !a.judge(r).BlockedUser?
  }

  /** The part of another origin's log that a view covers. */
  function Covered(v: View, logs: map<Address, seq<Rumor>>, n: Address, o: Address): seq<Rumor> {
    if o in logs && o != n && SequenceOf(v, o) <= |logs[o]| then logs[o][..SequenceOf(v, o)] else []
  }

  /** What node n processed: of every other origin what its view covers, in order, and nothing of its own. */
  ghost predicate InOrder(node: GossipNode, logs: map<Address, seq<Rumor>>, n: Address) {
    forall o {:trigger OfOrigin(node.admitted, o)} :: OfOrigin(node.admitted, o) == Covered(node.state.view, logs, n, o)
  }

  ghost predicate AdmittedInOrder(net: Network) {
    Prefixes(net) && forall n :: n in net.nodes ==> InOrder(net.nodes[n], net.logs, n)
  }

  lemma {:induction false} CoveredNext(v: View, v': View, logs: map<Address, seq<Rumor>>, n: Address, o: Address,
                                       r: Rumor)
    requires IsGenuine(logs, r) && Expects(v, r.origin, r.sequence) && r.origin != n
    requires SequenceOf(v', o) == SequenceOf(v, o) + if o == r.origin then 1 else 0
    ensures Covered(v', logs, n, o) == Covered(v, logs, n, o) + if r.origin == o then [r] else []
  {
    var k := SequenceOf(v, r.origin);
    assert logs[r.origin][..k] + [r] == logs[r.origin][..k + 1];
  }

  lemma {:induction false} AdmitOneInOrder(st: GossipState, admitted: seq<Rumor>, logs: map<Address, seq<Rumor>>,
                                           r: Rumor, judge: Judge, n: Address)
    requires Consistent(st.view, logs, n) && Vouched(logs, r, judge) && !judge(r).BlockedUser?
    requires InOrder(GossipNode(st, admitted), logs, n)
    ensures var done := AdmitOne(st, r, judge);
            InOrder(GossipNode(done.state, admitted + done.interest), logs, n)
  {
    var done := AdmitOne(st, r, judge);
    if done.interest == [] {
      assert admitted + [] == admitted;
    } else {
      SavedNext(st.view, logs, r);
      hide ViewOf, OfOrigin;
      forall o
        ensures OfOrigin(admitted + [r], o) == Covered(done.state.view, logs, n, o)
      {
        OfOriginAppend(admitted, r, o);
        assert OfOrigin(admitted, o) == Covered(st.view, logs, n, o);
        CoveredNext(st.view, done.state.view, logs, n, o, r);
      }
    }
  }

  /** Processing a list of genuine rumors extends, per origin, what was processed before. */
  lemma {:induction false} AdmitAllInOrder(st: GossipState, admitted: seq<Rumor>, logs: map<Address, seq<Rumor>>,
                                           rs: seq<Rumor>, judge: Judge, n: Address)
    requires Consistent(st.view, logs, n) && forall r :: r in rs ==> Vouched(logs, r, judge) && !judge(r).BlockedUser?
    requires InOrder(GossipNode(st, admitted), logs, n)
    ensures var done := AdmitAll(st, rs, judge);
            InOrder(GossipNode(done.state, admitted + done.interest), logs, n)
  {
    hide Consistent, Vouched, InOrder, AdmitOne;
    if rs == [] {
      assert admitted + [] == admitted;
    } else {
      var init, r := rs[..|rs| - 1], rs[|rs| - 1];
      AdmitAllInOrder(st, admitted, logs, init, judge, n);
      AdmitAllKeeps(st, logs, init, judge, n);
      var mid := AdmitAll(st, init, judge);
      var last := AdmitOne(mid.state, r, judge);
      AdmitOneInOrder(mid.state, admitted + mid.interest, logs, r, judge, n);
      assert admitted + (mid.interest + last.interest) == (admitted + mid.interest) + last.interest;
    }
  }

  lemma {:induction false} PublishKeepsOrder(node: GossipNode, m: Address, logs: map<Address, seq<Rumor>>,
                                             n: Address, rumor: Rumor)
    requires InOrder(node, logs, m) && Consistent(node.state.view, logs, m) && n in logs && rumor.origin == n
    ensures n != m ==> InOrder(node, logs[n := logs[n] + [rumor]], m)
    ensures n == m ==>
              InOrder(node.(state := node.state.(view := SavedIn(node.state.view, rumor))),
                      logs[n := logs[n] + [rumor]], m)
  {
    var longer := logs[n := logs[n] + [rumor]];
    var v := node.state.view;
    hide OfOrigin;
    forall o
      ensures n != m ==> Covered(v, longer, m, o) == Covered(v, logs, m, o)
      ensures n == m ==> Covered(SavedIn(v, rumor), longer, m, o) == Covered(v, logs, m, o)
    {
      if o in logs && o != m {
        var k := SequenceOf(v, o);
        assert k <= |logs[o]| by { assert o in v ==> IsPrefix(v[o], logs[o]); }
        assert (logs[o] + [rumor])[..k] == logs[o][..k];
      }
    }
  }

  lemma {:induction false} PublishKeepsAllOrder(net: Network, n: Address, msg: string)
    requires AdmittedInOrder(net) && n in net.nodes
    ensures var net' := Act(net, Publish(n, msg));
            forall m :: m in net'.nodes ==> InOrder(net'.nodes[m], net'.logs, m)
  {
    hide OfOrigin, SavedIn, InOrder, ViewOf, LogsNumbered;
    var net' := Act(net, Publish(n, msg));
    var rumor := Rumor(n, SequenceOf(net.nodes[n].state.view, n) + 1, msg);
    forall m | m in net'.nodes
      ensures InOrder(net'.nodes[m], net'.logs, m)
    {
      PublishKeepsOrder(net.nodes[m], m, net.logs, n, rumor);
    }
  }

  lemma {:induction false} ReceiveKeepsOrder(net: Network, n: Address, rs: seq<Rumor>, judge: Judge)
    requires AdmittedInOrder(net) && n in net.nodes && n in net.logs
    requires forall r :: r in rs ==> Vouched(net.logs, r, judge) && !judge(r).BlockedUser?
    ensures var net' := Act(net, Receive(n, rs, judge));
            forall m :: m in net'.nodes ==> InOrder(net'.nodes[m], net'.logs, m)
  {
    hide OfOrigin, InOrder, AdmitAll, Vouched, ViewOf, LogsNumbered;
    AdmitAllInOrder(net.nodes[n].state, net.nodes[n].admitted, net.logs, rs, judge, n);
  }

  lemma {:induction false} UnblockKeepsOrder(net: Network, n: Address, ips: set<Address>)
    requires AdmittedInOrder(net) && n in net.nodes && n in net.logs
    ensures var net' := Act(net, Unblock(n, ips));
            forall m :: m in net'.nodes ==> InOrder(net'.nodes[m], net'.logs, m)
  {
    hide OfOrigin, ViewOf, LogsNumbered;
  }

  lemma {:induction false} AdmittedInOrderStep(net: Network, a: GossipAction)
    requires AdmittedInOrder(net) && Possible(net, a) && NoDrops(a)
    ensures AdmittedInOrder(Act(net, a))
  {
    PrefixesStep(net, a);
    hide Prefixes, InOrder, Act, Vouched;
    match a
    case Publish(n, msg) => PublishKeepsAllOrder(net, n, msg);
    case Receive(n, rs, judge) => ReceiveKeepsOrder(net, n, rs, judge);
    case Unblock(n, ips) => UnblockKeepsOrder(net, n, ips);
  }

  lemma {:induction false} AlwaysAdmittedInOrder(peers: set<Address>, acts: seq<GossipAction>)
    requires Run(peers, acts) && forall i :: 0 <= i < |acts| ==> NoDrops(acts[i])
    ensures AdmittedInOrder(Reach(peers, acts))
  {
    if acts == [] {
      forall n | n in peers
        ensures InOrder(Start(peers).nodes[n], Start(peers).logs, n)
      {
      }
    } else {
      AlwaysAdmittedInOrder(peers, acts[..|acts| - 1]);
      AdmittedInOrderStep(Reach(peers, acts[..|acts| - 1]), acts[|acts| - 1]);
    }
  }

  lemma {:induction false} OfOriginIndex(rs: seq<Rumor>, i: nat) returns (p: nat)
    requires i < |rs|
    ensures p < |OfOrigin(rs, rs[i].origin)| && OfOrigin(rs, rs[i].origin)[p] == rs[i]
    ensures p == |OfOrigin(rs[..i], rs[i].origin)|
  {
    var init := rs[..|rs| - 1];
    if i == |rs| - 1 {
      p := |OfOrigin(init, rs[i].origin)|;
    } else {
      p := OfOriginIndex(init, i);
      assert init[..i] == rs[..i];
    }
  }

  lemma {:induction false} OfOriginGrows(rs: seq<Rumor>, i: nat, j: nat, o: Address)
    requires i <= j <= |rs|
    ensures |OfOrigin(rs[..i], o)| <= |OfOrigin(rs[..j], o)|
    decreases j
  {
    if i < j {
      OfOriginGrows(rs, i, j - 1, o);
      assert rs[..j][..j - 1] == rs[..j - 1];
    }
  }

  lemma {:induction false} OriginOnce(rs: seq<Rumor>, log: seq<Rumor>, k: nat, i: nat, j: nat)
    requires i < j < |rs| && rs[i].origin == rs[j].origin && k <= |log|
    requires OfOrigin(rs, rs[i].origin) == log[..k] && forall p :: 0 <= p < |log| ==> log[p].sequence == p + 1
    ensures rs[i].sequence < rs[j].sequence
  {
    var p := OfOriginIndex(rs, i);
    var q := OfOriginIndex(rs, j);
    OfOriginGrows(rs, i + 1, j, rs[i].origin);
    assert rs[..i + 1][..i] == rs[..i];
    assert p < q;
  }

  lemma {:induction false} ProcessedOnce(node: GossipNode, logs: map<Address, seq<Rumor>>, n: Address, i: nat, j: nat)
    requires InOrder(node, logs, n) && LogsNumbered(logs) && i < j < |node.admitted|
    ensures node.admitted[i].origin != n
    ensures node.admitted[i].origin == node.admitted[j].origin ==> node.admitted[i].sequence < node.admitted[j].sequence
  {
    var o := node.admitted[i].origin;
    var p := OfOriginIndex(node.admitted, i);
    assert OfOrigin(node.admitted, o) == Covered(node.state.view, logs, n, o) != [];
    hide OfOrigin;
    if node.admitted[j].origin == o {
      OriginOnce(node.admitted, logs[o], SequenceOf(node.state.view, o), i, j);
    }
  }

  /** Without view drops a node processes every rumor at most once, and the rumors of another origin in
      exactly the order of that origin's log. */
  lemma {:induction false} AdmittedOnce(peers: set<Address>, acts: seq<GossipAction>, n: Address, i: nat, j: nat)
    requires Run(peers, acts) && forall k :: 0 <= k < |acts| ==> NoDrops(acts[k])
    requires n in Reach(peers, acts).nodes
    requires var admitted := Reach(peers, acts).nodes[n].admitted; i < j < |admitted|
    ensures var admitted := Reach(peers, acts).nodes[n].admitted;
            && admitted[i] != admitted[j] && admitted[i].origin != n
            && (admitted[i].origin == admitted[j].origin ==> admitted[i].sequence < admitted[j].sequence)
  {
    AlwaysAdmittedInOrder(peers, acts);
    ProcessedOnce(Reach(peers, acts).nodes[n], Reach(peers, acts).logs, n, i, j);
  }
}
