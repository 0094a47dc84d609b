/** What a drop of a view costs: a node may process the rumors of that origin once more, and only then. */
module GossipDrops {
  import opened GossipViews
  import opened Gossip
  import opened GossipNetwork

  /** The rumor makes a node drop the view of an origin. */
  predicate Drops(st: GossipState, r: Rumor, judge: Judge, o: Address) {
    r.origin == o && Expects(st.view, o, r.sequence) && judge(r).BlockedUser? && o !in st.blockedIPs
  }

  /** The drops of an origin's view by one rumor, each as the number of rumors processed before it. */
  function DropsByOne(st: GossipState, r: Rumor, judge: Judge, o: Address, processed: nat): set<nat> {
    if Drops(st, r, judge, o) then {processed} else {}
  }

  function DropsByAll(st: GossipState, rs: seq<Rumor>, judge: Judge, o: Address, processed: nat): set<nat> {
    if rs == [] then {}
    else
      var init, last := rs[..|rs| - 1], rs[|rs| - 1];
      var before := AdmitAll(st, init, judge);
      DropsByAll(st, init, judge, o, processed)
      + DropsByOne(before.state, last, judge, o, processed + |before.interest|)
  }

  function DropsIn(net: Network, a: GossipAction, n: Address, o: Address): set<nat>
    requires Possible(net, a)
  {
    if a.Receive? && a.n == n
    then DropsByAll(net.nodes[n].state, a.rs, a.judge, o, |net.nodes[n].admitted|)
    else {}
  }

  /** The drops of origin o's view by node n in a run. */
  function DropsOf(peers: set<Address>, acts: seq<GossipAction>, n: Address, o: Address): set<nat>
    requires Run(peers, acts)
  {
    if acts == [] then {}
    else
      var init := acts[..|acts| - 1];
      DropsOf(peers, init, n, o) + DropsIn(Reach(peers, init), acts[|acts| - 1], n, o)
  }

  /** A drop lies between the processing of rumor i and that of rumor j. */
  ghost predicate DropBetween(drops: set<nat>, i: int, j: int) {
    exists p :: p in drops && i < p <= j
  }

  /** The view counts all rumors of the origin that were processed from position p on. */
  ghost predicate CountedSince(v: View, admitted: seq<Rumor>, o: Address, p: nat) {
    forall i :: p <= i < |admitted| && admitted[i].origin == o ==> admitted[i].sequence <= SequenceOf(v, o)
  }

  /** The numbers of an origin's processed rumors rise wherever there is no drop in between. */
  ghost predicate RiseBetweenDrops(admitted: seq<Rumor>, o: Address, drops: set<nat>) {
    forall i, j :: 0 <= i < j < |admitted| && admitted[i].origin == o && admitted[j].origin == o
                   && admitted[i].sequence >= admitted[j].sequence
                   ==> DropBetween(drops, i, j)
  }

  ghost predicate Explained(v: View, admitted: seq<Rumor>, o: Address, drops: set<nat>) {
    && (forall p :: p in drops ==> p <= |admitted|)
    && RiseBetweenDrops(admitted, o, drops)
    && exists p: nat :: p in drops + {0} && CountedSince(v, admitted, o, p)
  }

  lemma {:induction false} StaysExplained(v: View, v': View, admitted: seq<Rumor>, o: Address, drops: set<nat>)
    requires Explained(v, admitted, o, drops) && SequenceOf(v, o) <= SequenceOf(v', o)
    ensures Explained(v', admitted, o, drops)
  {
    var p: nat :| p in drops + {0} && CountedSince(v, admitted, o, p);
    assert CountedSince(v', admitted, o, p);
  }

  lemma {:induction false} ExplainedByDrop(v: View, v': View, admitted: seq<Rumor>, o: Address, drops: set<nat>)
    requires Explained(v, admitted, o, drops)
    ensures Explained(v', admitted, o, drops + {|admitted|})
  {
    forall i, j | 0 <= i < j < |admitted| && DropBetween(drops, i, j)
      ensures DropBetween(drops + {|admitted|}, i, j)
    {
      var p :| p in drops && i < p <= j;
      assert p in drops + {|admitted|};
    }
    assert CountedSince(v', admitted, o, |admitted|);
  }

  /** A processed rumor has the next number, above all since the last drop. */
  lemma {:induction false} ExplainedWithOneMore(v: View, v': View, admitted: seq<Rumor>, r: Rumor, o: Address,
                                                drops: set<nat>)
    requires Explained(v, admitted, o, drops) && Expects(v, r.origin, r.sequence)
    requires SequenceOf(v', o) == SequenceOf(v, o) + if o == r.origin then 1 else 0
    ensures Explained(v', admitted + [r], o, drops)
  {
    var p: nat :| p in drops + {0} && CountedSince(v, admitted, o, p);
    assert CountedSince(v', admitted + [r], o, p);
    var all := admitted + [r];
    forall i, j | 0 <= i < j < |all| && all[i].origin == o && all[j].origin == o && all[i].sequence >= all[j].sequence
      ensures DropBetween(drops, i, j)
    {
      if j < |admitted| {
        assert DropBetween(drops, i, j);
      } else {
        assert i < p;
      }
    }
  }

  lemma {:induction false} AdmitOneExplained(st: GossipState, admitted: seq<Rumor>, logs: map<Address, seq<Rumor>>,
                                             r: Rumor, judge: Judge, n: Address, o: Address, drops: set<nat>)
    requires Consistent(st.view, logs, n) && Vouched(logs, r, judge) && Explained(st.view, admitted, o, drops)
    ensures var done := AdmitOne(st, r, judge);
            Explained(done.state.view, admitted + done.interest, o,
                      drops + DropsByOne(st, r, judge, o, |admitted|))
  {
    var done := AdmitOne(st, r, judge);
    assert admitted + [] == admitted && drops + {} == drops;
    hide Explained, IsGenuine, ViewOf;
    if done.interest != [] {
      SavedNext(st.view, logs, r);
      ExplainedWithOneMore(st.view, done.state.view, admitted, r, o, drops);
    } else if Drops(st, r, judge, o) {
      ExplainedByDrop(st.view, done.state.view, admitted, o, drops);
    } else {
      StaysExplained(st.view, done.state.view, admitted, o, drops);
    }
  }

  lemma {:induction false} AdmitAllExplained(st: GossipState, admitted: seq<Rumor>, logs: map<Address, seq<Rumor>>,
                                             rs: seq<Rumor>, judge: Judge, n: Address, o: Address, drops: set<nat>)
    requires Consistent(st.view, logs, n) && Explained(st.view, admitted, o, drops)
    requires forall r :: r in rs ==> Vouched(logs, r, judge)
    ensures var done := AdmitAll(st, rs, judge);
            Explained(done.state.view, admitted + done.interest, o,
                      drops + DropsByAll(st, rs, judge, o, |admitted|))
  {
    hide Consistent, Vouched, Explained, AdmitOne, DropsByOne;
    if rs == [] {
      assert admitted + [] == admitted && drops + {} == drops;
    } else {
      var init, r := rs[..|rs| - 1], rs[|rs| - 1];
      AdmitAllExplained(st, admitted, logs, init, judge, n, o, drops);
      AdmitAllKeeps(st, logs, init, judge, n);
      var mid := AdmitAll(st, init, judge);
      var last := AdmitOne(mid.state, r, judge);
      var soFar := drops + DropsByAll(st, init, judge, o, |admitted|);
      AdmitOneExplained(mid.state, admitted + mid.interest, logs, r, judge, n, o, soFar);
      assert admitted + (mid.interest + last.interest) == (admitted + mid.interest) + last.interest;
      assert drops + DropsByAll(st, rs, judge, o, |admitted|)
          == soFar + DropsByOne(mid.state, r, judge, o, |admitted + mid.interest|);
    }
  }

  lemma {:induction false} SavedNotFewer(v: View, r: Rumor, o: Address)
    ensures SequenceOf(v, o) <= SequenceOf(SavedIn(v, r), o)
  {
    if o == r.origin && o in v {
      var saved := v[o];
      assert saved[r.sequence := r].Keys == saved.Keys + {r.sequence};
      assert r.sequence in saved.Keys ==> saved.Keys + {r.sequence} == saved.Keys;
      assert r.sequence !in saved.Keys ==> |saved.Keys + {r.sequence}| == |saved.Keys| + 1;
    }
  }

  lemma {:induction false} ExplainedStep(net: Network, a: GossipAction, n: Address, o: Address, drops: set<nat>)
    requires Prefixes(net) && Possible(net, a) && n in net.nodes
    requires Explained(net.nodes[n].state.view, net.nodes[n].admitted, o, drops)
    ensures n in Act(net, a).nodes
    ensures var node := Act(net, a).nodes[n];
            Explained(node.state.view, node.admitted, o, drops + DropsIn(net, a, n, o))
  {
    hide Explained, Consistent, Vouched, AdmitAll, DropsByAll, SavedIn;
    var node := net.nodes[n];
    assert drops + {} == drops;
    if a.n == n {
      match a
      case Publish(_, msg) =>
        var r := Rumor(n, SequenceOf(node.state.view, n) + 1, msg);
        SavedNotFewer(node.state.view, r, o);
        StaysExplained(node.state.view, SavedIn(node.state.view, r), node.admitted, o, drops);
      case Receive(_, rs, judge) =>
        AdmitAllExplained(node.state, node.admitted, net.logs, rs, judge, n, o, drops);
      case Unblock(_, _) =>
    }
  }

  lemma {:induction false} AlwaysExplained(peers: set<Address>, acts: seq<GossipAction>, n: Address, o: Address)
    requires Run(peers, acts) && n in Reach(peers, acts).nodes
    ensures var node := Reach(peers, acts).nodes[n];
            Explained(node.state.view, node.admitted, o, DropsOf(peers, acts, n, o))
  {
    if acts == [] {
      assert CountedSince(map[], [], o, 0);
    } else {
      var init := acts[..|acts| - 1];
      hide Explained;
      AlwaysPrefixes(peers, init);
      AlwaysExplained(peers, init, n, o);
      ExplainedStep(Reach(peers, init), acts[|acts| - 1], n, o, DropsOf(peers, init, n, o));
    }
  }

  /** In every run, whoever is blocked or unblocked, a node processes a rumor twice, or a lower number of an
      origin after a higher one, only if it dropped the view of that origin in between. */
  lemma {:induction false} AgainOnlyAfterDrop(peers: set<Address>, acts: seq<GossipAction>, n: Address, i: nat,
                                              j: nat)
    requires Run(peers, acts) && n in Reach(peers, acts).nodes
    requires var admitted := Reach(peers, acts).nodes[n].admitted;
             i < j < |admitted| && admitted[i].origin == admitted[j].origin
             && admitted[i].sequence >= admitted[j].sequence
    ensures DropBetween(DropsOf(peers, acts, n, Reach(peers, acts).nodes[n].admitted[i].origin), i, j)
  {
    var admitted := Reach(peers, acts).nodes[n].admitted;
    AlwaysExplained(peers, acts, n, admitted[i].origin);
  }

  lemma {:induction false} AdmitThree(x: Rumor, y: Rumor, judge: Judge)
    requires x.origin == y.origin && x.sequence == 1 && y.sequence == 2 && judge(x).Genuine? && judge(y).BlockedUser?
    ensures AdmitAll(GossipState(map[], {}), [x, y, x], judge).interest == [x, x]
  {
    var st := GossipState(map[], {});
    assert [x, y, x][..2] == [x, y] && [x, y][..1] == [x] && [x][..0] == [];
    var saved, blocked := GossipState(SavedIn(map[], x), {}), GossipState(map[], {x.origin});
    assert AdmitOne(st, x, judge) == Admission(saved, [x]);
    assert AdmitOne(saved, y, judge) == Admission(blocked, []) by {
      assert SavedIn(map[], x) - {x.origin} == map[];
    }
    assert AdmitOne(blocked, x, judge).interest == [x];
    hide AdmitOne;
    assert AdmitAll(st, [x], judge) == Admission(saved, [x]);
    assert AdmitAll(st, [x, y], judge) == Admission(blocked, [x]);
  }

  /** After a drop the same rumor is processed again: the second one of two rumors comes from a blocked user,
      and the first one arrives once more. */
  lemma {:induction false} AgainAfterDrop() returns (peers: set<Address>, acts: seq<GossipAction>, n: Address)
    ensures Run(peers, acts) && n in Reach(peers, acts).nodes
    ensures var admitted := Reach(peers, acts).nodes[n].admitted; |admitted| == 2 && admitted[0] == admitted[1]
  {
    var o := Address("a");
    n := Address("b");
    peers := {o, n};
    var x, y := Rumor(o, 1, "x"), Rumor(o, 2, "y");
    var judge: Judge := (r: Rumor) => if r == y then BlockedUser else Genuine;
    AdmitThree(x, y, judge);
    acts := [Publish(o, "x"), Publish(o, "y"), Receive(n, [x, y, x], judge)];
    assert acts[..2] == [Publish(o, "x"), Publish(o, "y")] && acts[..2][..1] == [Publish(o, "x")];
    hide AdmitAll;
    PublishedTwo(peers, acts[..2], o, n, x, y);
    assert Possible(Reach(peers, acts[..2]), acts[2]);
  }

  lemma {:induction false} PublishedTwo(peers: set<Address>, acts: seq<GossipAction>, o: Address, n: Address,
                                        x: Rumor, y: Rumor)
    requires o in peers && n in peers && o != n && acts == [Publish(o, x.msg), Publish(o, y.msg)]
    requires x == Rumor(o, 1, x.msg) && y == Rumor(o, 2, y.msg)
    ensures Run(peers, acts)
    ensures var net := Reach(peers, acts);
            n in net.nodes && n in net.logs && net.nodes[n] == GossipNode(GossipState(map[], {}), [])
            && o in net.logs && net.logs[o] == [x, y]
  {
    var start := [Publish(o, x.msg)];
    assert acts[..1] == start && start[..0] == [] && acts[1] == Publish(o, y.msg) && start[0] == Publish(o, x.msg);
    assert Run(peers, []) && Reach(peers, []) == Start(peers);
    assert Possible(Start(peers), start[0]);
    var one := Reach(peers, start);
    assert one == Act(Start(peers), start[0]);
    assert one.logs[o] == [x] && one.nodes[o].state.view == map[o := map[1 := x]];
    assert Reach(peers, acts) == Act(one, acts[1]);
  }
}
