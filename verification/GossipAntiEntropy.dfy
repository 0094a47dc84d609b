/** Anti-entropy: answering a status message brings the asking node level with the answering one. */
module GossipAntiEntropy {
  import opened Common
  import opened GossipViews
  import opened Gossip
  import opened GossipNetwork

  /** How far a log of length k gets with a list of rumors of its origin: only next expected ones count. */
  function Advance(k: nat, rs: seq<Rumor>): nat {
    if rs == [] then k
    else
      var before := Advance(k, rs[..|rs| - 1]);
      if rs[|rs| - 1].sequence == before + 1 then before + 1 else before
  }

  lemma {:induction false} AdvanceRange(k: nat, saved: map<int, Rumor>, low: nat, high: nat)
    requires low <= k && low <= high
    requires forall i :: low < i <= high ==> i in saved && saved[i].sequence == i
    ensures Advance(k, SavedRange(saved, low, high)) == Max(k, high)
  {
    if low < high {
      AdvanceRange(k, saved, low, high - 1);
      var before := SavedRange(saved, low, high - 1);
      assert (before + [saved[high]])[..|before|] == before;
    }
  }

  lemma {:induction false} AdvanceOne(k: nat, r: Rumor)
    ensures Advance(k, [r]) == if r.sequence == k + 1 then k + 1 else k
  {
    assert Advance(k, [r][..0]) == k;
  }

  lemma {:induction false} NextCounted(v: View, logs: map<Address, seq<Rumor>>, r: Rumor, n: Address, o: Address)
    requires Consistent(v, logs, n) && IsGenuine(logs, r) && Expects(v, r.origin, r.sequence)
    ensures SequenceOf(SavedIn(v, r), o) == SequenceOf(v, o) + if o == r.origin then 1 else 0
  {
    SavedNext(v, logs, r);
  }

  lemma {:induction false} AdmitOneAdvances(st: GossipState, logs: map<Address, seq<Rumor>>, r: Rumor, judge: Judge,
                                            n: Address, o: Address)
    requires Consistent(st.view, logs, n) && IsGenuine(logs, r) && judge(r).Genuine?
    ensures SequenceOf(AdmitOne(st, r, judge).state.view, o) ==
            if r.origin == o then Advance(SequenceOf(st.view, o), [r]) else SequenceOf(st.view, o)
  {
    AdvanceOne(SequenceOf(st.view, o), r);
    hide Advance, ViewOf;
    if Expects(st.view, r.origin, r.sequence) {
      hide Consistent, IsGenuine, SavedIn, SequenceOf;
      NextCounted(st.view, logs, r, n, o);
    }
  }

  lemma {:induction false} AdvanceAppend(k: nat, rs: seq<Rumor>, r: Rumor)
    ensures Advance(k, rs + [r]) == Advance(Advance(k, rs), [r])
  {
    assert (rs + [r])[..|rs|] == rs;
    assert [r][..0] == [];
  }

  lemma {:induction false} AdmitAllAdvances(st: GossipState, logs: map<Address, seq<Rumor>>, rs: seq<Rumor>,
                                            judge: Judge, n: Address, o: Address)
    requires Consistent(st.view, logs, n) && forall r :: r in rs ==> IsGenuine(logs, r) && judge(r).Genuine?
    ensures SequenceOf(AdmitAll(st, rs, judge).state.view, o) == Advance(SequenceOf(st.view, o), OfOrigin(rs, o))
  {
    if rs != [] {
      var init, r := rs[..|rs| - 1], rs[|rs| - 1];
      AdmitAllAdvances(st, logs, init, judge, n, o);
      AdmitAllKeeps(st, logs, init, judge, n);
      AdmitOneAdvances(AdmitAll(st, init, judge).state, logs, r, judge, n, o);
      AdvanceAppend(SequenceOf(st.view, o), OfOrigin(init, o), r);
      hide Consistent, IsGenuine, AdmitOne, Advance;
      assert OfOrigin(init, o) + [] == OfOrigin(init, o);
    }
  }

  lemma {:induction false} ViewGapFree(v: View, logs: map<Address, seq<Rumor>>)
    requires ViewOf(v, logs) && LogsNumbered(logs)
    ensures GapFree(v)
  {
    forall o | o in v
      ensures forall k :: k in v[o] ==> v[o][k].origin == o && v[o][k].sequence == k
    {
      assert IsPrefix(v[o], logs[o]);
    }
  }

  lemma {:induction false} RangeMember(saved: map<int, Rumor>, low: nat, high: nat, r: Rumor) returns (k: nat)
    requires low <= high && forall k :: low < k <= high ==> k in saved
    requires r in SavedRange(saved, low, high)
    ensures low < k <= high && saved[k] == r
  {
    if r == saved[high] {
      k := high;
    } else {
      k := RangeMember(saved, low, high - 1, r);
    }
  }

  lemma {:induction false} OfOriginMember(rs: seq<Rumor>, r: Rumor)
    requires r in rs
    ensures r in OfOrigin(rs, r.origin)
  {
    if r != rs[|rs| - 1] {
      OfOriginMember(rs[..|rs| - 1], r);
    }
  }

  lemma {:induction false} RangeIsGenuine(saved: map<int, Rumor>, logs: map<Address, seq<Rumor>>, o: Address,
                                          low: nat, high: nat, r: Rumor)
    requires o in logs && IsPrefix(saved, logs[o]) && LogsNumbered(logs) && low <= high <= |saved|
    requires r in SavedRange(saved, low, high)
    ensures IsGenuine(logs, r)
  {
    var k := RangeMember(saved, low, high, r);
    hide SavedRange;
    assert saved[k] == logs[o][k - 1];
  }

  lemma {:induction false} MissingIsGenuine(v: View, logs: map<Address, seq<Rumor>>, status: SeqMap, source: Address,
                                            o: Address, r: Rumor)
    requires ViewOf(v, logs) && LogsNumbered(logs) && GapFree(v) && r in Missing(v, status, source, o)
    ensures IsGenuine(logs, r)
  {
    hide SavedRange, LogsNumbered, IsPrefix, IsGenuine;
    RangeIsGenuine(v[o], logs, o, LookUp(status, o), |v[o]|, r);
  }

  /** A node only answers with rumors that their origins did broadcast. */
  lemma {:induction false} AnswersAreGenuine(v: View, logs: map<Address, seq<Rumor>>, status: SeqMap,
                                             source: Address, rs: seq<Rumor>)
    requires ViewOf(v, logs) && LogsNumbered(logs) && GapFree(v) && Answers(v, status, source, rs)
    ensures forall r :: r in rs ==> IsGenuine(logs, r)
  {
    forall r | r in rs
      ensures IsGenuine(logs, r)
    {
      OfOriginMember(rs, r);
      hide ViewOf, LogsNumbered, GapFree, Missing, OfOrigin, IsGenuine;
      assert OfOrigin(rs, r.origin) == Missing(v, status, source, r.origin);
      MissingIsGenuine(v, logs, status, source, r.origin, r);
    }
  }

  /** The receiver of an answer, possibly further on than when it sent the status, ends with the longer
      of its own and the answering node's log for every origin. */
  lemma {:induction false} AnswerLevels(va: View, sb: GossipState, logs: map<Address, seq<Rumor>>, status: SeqMap,
                                        b: Address, rs: seq<Rumor>, judge: Judge, o: Address)
    requires LogsNumbered(logs) && ViewOf(va, logs) && Consistent(sb.view, logs, b)
    requires GapFree(va) && Answers(va, status, b, rs)
    requires forall r :: r in rs ==> IsGenuine(logs, r) && judge(r).Genuine?
    requires 0 <= LookUp(status, o) <= SequenceOf(sb.view, o)
    ensures SequenceOf(AdmitAll(sb, rs, judge).state.view, o) == Max(SequenceOf(sb.view, o), SequenceOf(va, o))
  {
    AdmitAllAdvances(sb, logs, rs, judge, b, o);
    hide AdmitAll;
    assert OfOrigin(rs, o) == Missing(va, status, b, o);
    if o in OwnNews(Sequences(va), status) && o != b {
      AdvanceRange(SequenceOf(sb.view, o), va[o], LookUp(status, o), |va[o]|);
    } else if o in va {
      assert IsPrefix(va[o], logs[o]);
    }
  }

  /** The error "could not be found in the saved rumors list" cannot occur for a status that a node sent. */
  lemma {:induction false} StatusAnswerable(v: View, st: GossipState, source: Address, o: Address)
    ensures !Unanswerable(v, StatusOf(st), source, o)
  {
    assert LookUp(StatusOf(st), o) >= -1;
  }

  /** A node's status marks what it blocked and announces its view otherwise, so the answer holds nothing of a
      blocked origin, and of every other origin what the node lacks. */
  lemma {:induction false} BlockedUnanswered(v: View, st: GossipState, source: Address, rs: seq<Rumor>, o: Address)
    requires GapFree(v) && Answers(v, StatusOf(st), source, rs)
    ensures o in st.blockedIPs ==> OfOrigin(rs, o) == []
    ensures o !in st.blockedIPs && o != source && SequenceOf(st.view, o) < SequenceOf(v, o) ==>
              o in v && OfOrigin(rs, o) == SavedRange(v[o], SequenceOf(st.view, o), |v[o]|)
    ensures SequenceOf(v, o) <= SequenceOf(st.view, o) ==> OfOrigin(rs, o) == []
  {
    var status := StatusOf(st);
    assert OfOrigin(rs, o) == Missing(v, status, source, o);
    assert o in st.blockedIPs ==> LookUp(status, o) == -1;
    assert o !in st.blockedIPs ==> LookUp(status, o) == SequenceOf(st.view, o);
    hide OfOrigin, SavedRange;
  }

  // Runs without view drops.

  lemma {:induction false} NothingBlocked(st: GossipState, rs: seq<Rumor>, judge: Judge)
    requires forall r :: r in rs ==> !judge(r).BlockedUser?
    ensures AdmitAll(st, rs, judge).state.blockedIPs == st.blockedIPs
  {
    if rs != [] {
      NothingBlocked(st, rs[..|rs| - 1], judge);
    }
  }

  ghost predicate NobodyBlocked(net: Network) {
    forall n :: n in net.nodes ==> net.nodes[n].state.blockedIPs == {}
  }

  lemma {:induction false} NobodyBlockedStep(net: Network, a: GossipAction)
    requires NobodyBlocked(net) && Possible(net, a) && NoDrops(a)
    ensures NobodyBlocked(Act(net, a))
  {
    match a
    case Publish(n, msg) =>
    case Receive(n, rs, judge) => NothingBlocked(net.nodes[n].state, rs, judge);
    case Unblock(_, _) =>
  }

  lemma {:induction false} NeverBlocked(peers: set<Address>, acts: seq<GossipAction>)
    requires Run(peers, acts) && forall i :: 0 <= i < |acts| ==> NoDrops(acts[i])
    ensures NobodyBlocked(Reach(peers, acts))
  {
    if acts != [] {
      var before := acts[..|acts| - 1];
      NeverBlocked(peers, before);
      NobodyBlockedStep(Reach(peers, before), acts[|acts| - 1]);
    }
  }

  function ViewIn(net: Network, n: Address): View
    requires n in net.nodes
  {
    net.nodes[n].state.view
  }

  function StatusIn(net: Network, n: Address): SeqMap
    requires n in net.nodes
  {
    StatusOf(net.nodes[n].state)
  }

  /** What runs without view drops keep; the part of it that an exchange of rumors needs. */
  ghost predicate Settled(net: Network) {
    Prefixes(net) && NobodyBlocked(net)
  }

  lemma {:induction false} AlwaysSettled(peers: set<Address>, acts: seq<GossipAction>)
    requires Run(peers, acts) && forall i :: 0 <= i < |acts| ==> NoDrops(acts[i])
    ensures Settled(Reach(peers, acts))
    ensures forall n :: n in Reach(peers, acts).nodes ==> GapFree(ViewIn(Reach(peers, acts), n))
  {
    AlwaysPrefixes(peers, acts);
    NeverBlocked(peers, acts);
    var net := Reach(peers, acts);
    forall n | n in net.nodes
      ensures GapFree(ViewIn(net, n))
    {
      NodeFacts(net, n);
    }
  }

  lemma {:induction false} PlainStatus(st: GossipState)
    requires st.blockedIPs == {}
    ensures StatusOf(st) == Sequences(st.view)
  {
    assert (map ip | ip in st.blockedIPs :: -1) == map[];
  }

  lemma {:induction false} NodeFacts(net: Network, n: Address)
    requires Settled(net) && n in net.nodes
    ensures LogsNumbered(net.logs)
    ensures Consistent(ViewIn(net, n), net.logs, n)
    ensures GapFree(ViewIn(net, n))
    ensures StatusIn(net, n) == Sequences(ViewIn(net, n))
  {
    ViewGapFree(net.nodes[n].state.view, net.logs);
    PlainStatus(net.nodes[n].state);
  }

  /** The answer to b's status can be delivered to b and brings b level with a for every origin. */
  lemma {:induction false} AnswerCatchesUp(net: Network, a: Address, b: Address, rs: seq<Rumor>, judge: Judge)
    requires Settled(net) && a in net.nodes && b in net.nodes && GapFree(ViewIn(net, a))
    requires Answers(ViewIn(net, a), StatusIn(net, b), b, rs) && forall r :: r in rs ==> judge(r).Genuine?
    ensures Possible(net, Receive(b, rs, judge))
    ensures forall o :: SequenceOf(ViewIn(Act(net, Receive(b, rs, judge)), b), o) ==
                        Max(SequenceOf(ViewIn(net, b), o), SequenceOf(ViewIn(net, a), o))
  {
    hide LogsNumbered, ViewOf, GapFree, Answers, AdmitAll, IsGenuine, Prefixes, NobodyBlocked;
    NodeFacts(net, a);
    NodeFacts(net, b);
    assert b in net.logs;
    AnswersAreGenuine(ViewIn(net, a), net.logs, StatusIn(net, b), b, rs);
    forall o
      ensures SequenceOf(AdmitAll(net.nodes[b].state, rs, judge).state.view, o) ==
              Max(SequenceOf(ViewIn(net, b), o), SequenceOf(ViewIn(net, a), o))
    {
      AnswerLevels(ViewIn(net, a), net.nodes[b].state, net.logs, StatusIn(net, b), b, rs, judge, o);
    }
  }

  /** The summed difference of two views over a list of origins. */
  function Gap(v: View, w: View, origins: seq<Address>): nat {
    if origins == [] then 0
    else
      var o := origins[|origins| - 1];
      var here := if SequenceOf(v, o) < SequenceOf(w, o) then SequenceOf(w, o) - SequenceOf(v, o)
                  else SequenceOf(v, o) - SequenceOf(w, o);
      Gap(v, w, origins[..|origins| - 1]) + here
  }

  lemma {:induction false} LevelingShrinks(v: View, w: View, w': View, origins: seq<Address>)
    requires forall o :: SequenceOf(w', o) == Max(SequenceOf(w, o), SequenceOf(v, o))
    ensures Gap(v, w', origins) <= Gap(v, w, origins)
    ensures Gap(v, w', origins) == Gap(v, w, origins) <==>
            forall o :: o in origins ==> SequenceOf(v, o) <= SequenceOf(w, o)
  {
    if origins != [] {
      LevelingShrinks(v, w, w', origins[..|origins| - 1]);
    }
  }

  lemma {:induction false} GapSymmetric(v: View, w: View, origins: seq<Address>)
    ensures Gap(v, w, origins) == Gap(w, v, origins)
  {
    if origins != [] {
      GapSymmetric(v, w, origins[..|origins| - 1]);
    }
  }

  /** Compare finds own news exactly when some origin's log is longer here. */
  lemma {:induction false} NewsIff(v: View, w: View)
    requires GapFree(v)
    ensures OwnNews(Sequences(v), Sequences(w)) == map[] <==> forall o :: SequenceOf(v, o) <= SequenceOf(w, o)
    ensures RemoteNews(Sequences(v), Sequences(w)) == map[] <==> forall o :: SequenceOf(w, o) <= SequenceOf(v, o)
  {
    forall o
      ensures o in OwnNews(Sequences(v), Sequences(w)) <==> SequenceOf(v, o) > SequenceOf(w, o)
      ensures o in RemoteNews(Sequences(v), Sequences(w)) <==> SequenceOf(w, o) > SequenceOf(v, o)
    {
      assert o in v ==> |v[o]| > 0;
    }
  }

  lemma {:induction false} LevelingNews(v: View, w: View, w': View, origins: seq<Address>)
    requires GapFree(v) && forall o :: o in v ==> o in origins
    requires forall o :: SequenceOf(w', o) == Max(SequenceOf(w, o), SequenceOf(v, o))
    ensures Gap(v, w', origins) <= Gap(v, w, origins)
    ensures Gap(v, w', origins) < Gap(v, w, origins) <==> OwnNews(Sequences(v), Sequences(w)) != map[]
  {
    LevelingShrinks(v, w, w', origins);
    NewsIff(v, w);
    assert forall o :: o !in origins ==> SequenceOf(v, o) == 0;
    hide Gap, GapFree, OwnNews;
  }

  /** Delivering the answer never widens the gap between the two nodes, and narrows it exactly when Compare
      found news for b. */
  lemma {:induction false} AnswerProgress(net: Network, a: Address, b: Address, rs: seq<Rumor>, judge: Judge,
                                          origins: seq<Address>)
    requires Settled(net) && a in net.nodes && b in net.nodes && GapFree(ViewIn(net, a))
    requires Answers(ViewIn(net, a), StatusIn(net, b), b, rs) && forall r :: r in rs ==> judge(r).Genuine?
    requires forall o :: o in ViewIn(net, a) ==> o in origins
    ensures Possible(net, Receive(b, rs, judge))
    ensures Gap(ViewIn(net, a), ViewIn(Act(net, Receive(b, rs, judge)), b), origins) <=
            Gap(ViewIn(net, a), ViewIn(net, b), origins)
    ensures Gap(ViewIn(net, a), ViewIn(Act(net, Receive(b, rs, judge)), b), origins) <
            Gap(ViewIn(net, a), ViewIn(net, b), origins)
            <==> OwnNews(Sequences(ViewIn(net, a)), StatusIn(net, b)) != map[]
  {
    hide Gap, Answers, GapFree, Prefixes, NobodyBlocked, LogsNumbered, Consistent, OwnNews, SequenceOf, AdmitAll;
    NodeFacts(net, b);
    AnswerCatchesUp(net, a, b, rs, judge);
    LevelingNews(ViewIn(net, a), ViewIn(net, b), ViewIn(Act(net, Receive(b, rs, judge)), b), origins);
  }

  /** Comparing with b's status finds news from b exactly when b's comparison with a's status finds news for a;
      and a finds no news either way exactly when the two nodes are level for every origin. */
  lemma {:induction false} NothingToExchangeIff(net: Network, a: Address, b: Address)
    requires Settled(net) && a in net.nodes && b in net.nodes
    ensures var mine, status := Sequences(ViewIn(net, a)), StatusIn(net, b);
            && (RemoteNews(mine, status) != map[] <==> OwnNews(Sequences(ViewIn(net, b)), StatusIn(net, a)) != map[])
            && (OwnNews(mine, status) == map[] && RemoteNews(mine, status) == map[] <==>
                  forall o :: SequenceOf(ViewIn(net, a), o) == SequenceOf(ViewIn(net, b), o))
  {
    NodeFacts(net, a);
    NodeFacts(net, b);
    hide GapFree, Settled, LogsNumbered, Consistent, OwnNews, RemoteNews;
    NewsIff(ViewIn(net, a), ViewIn(net, b));
    NewsIff(ViewIn(net, b), ViewIn(net, a));
  }

  lemma {:induction false} SettledProgress(net: Network, a: Address, b: Address, toB: seq<Rumor>, toA: seq<Rumor>,
                                           judge: Judge, origins: seq<Address>)
    requires Settled(net) && a in net.nodes && b in net.nodes && GapFree(ViewIn(net, a)) && GapFree(ViewIn(net, b))
    requires Answers(ViewIn(net, a), StatusIn(net, b), b, toB) && forall r :: r in toB ==> judge(r).Genuine?
    requires Answers(ViewIn(net, b), StatusIn(net, a), a, toA) && forall r :: r in toA ==> judge(r).Genuine?
    requires forall o :: o in ViewIn(net, a) || o in ViewIn(net, b) ==> o in origins
    ensures Narrows(net, a, b, toB, toA, judge, origins)
  {
    AnswerProgress(net, a, b, toB, judge, origins);
    AnswerProgress(net, b, a, toA, judge, origins);
    NothingToExchangeIff(net, a, b);
    hide Gap, Answers, GapFree, Settled, Act, Possible, OwnNews, RemoteNews, SequenceOf;
    GapSymmetric(ViewIn(net, a), ViewIn(net, b), origins);
    if Possible(net, Receive(a, toA, judge)) {
      GapSymmetric(ViewIn(Act(net, Receive(a, toA, judge)), a), ViewIn(net, b), origins);
    }
  }

  /** What handling b's status at a comes to: if a has news, a's answer narrows the gap; if only b has news,
      a sends its own status back and b's answer narrows the gap; otherwise the two nodes are level. */
  ghost predicate Narrows(net: Network, a: Address, b: Address, toB: seq<Rumor>, toA: seq<Rumor>, judge: Judge,
                          origins: seq<Address>)
    requires a in net.nodes && b in net.nodes
  {
    var mine, status := Sequences(ViewIn(net, a)), StatusIn(net, b);
    var gap := Gap(ViewIn(net, a), ViewIn(net, b), origins);
    if OwnNews(mine, status) != map[] then
      Possible(net, Receive(b, toB, judge)) &&
      Gap(ViewIn(net, a), ViewIn(Act(net, Receive(b, toB, judge)), b), origins) < gap
    else if RemoteNews(mine, status) != map[] then
      Possible(net, Receive(a, toA, judge)) &&
      Gap(ViewIn(Act(net, Receive(a, toA, judge)), a), ViewIn(net, b), origins) < gap
    else
      forall o :: SequenceOf(ViewIn(net, a), o) == SequenceOf(ViewIn(net, b), o)
  }

  /** After every run without view drops, an exchange between two nodes makes progress unless they are level. */
  lemma {:induction false} ExchangeProgress(peers: set<Address>, acts: seq<GossipAction>, a: Address, b: Address,
                                            toB: seq<Rumor>, toA: seq<Rumor>, judge: Judge, origins: seq<Address>)
    requires Run(peers, acts) && forall i :: 0 <= i < |acts| ==> NoDrops(acts[i])
    requires a in Reach(peers, acts).nodes && b in Reach(peers, acts).nodes
    requires GapFree(ViewIn(Reach(peers, acts), a)) && GapFree(ViewIn(Reach(peers, acts), b))
    requires Answers(ViewIn(Reach(peers, acts), a), StatusIn(Reach(peers, acts), b), b, toB)
    requires Answers(ViewIn(Reach(peers, acts), b), StatusIn(Reach(peers, acts), a), a, toA)
    requires forall r :: r in toB || r in toA ==> judge(r).Genuine?
    requires forall o :: o in ViewIn(Reach(peers, acts), a) || o in ViewIn(Reach(peers, acts), b) ==> o in origins
    ensures Narrows(Reach(peers, acts), a, b, toB, toA, judge, origins)
  {
    AlwaysSettled(peers, acts);
    SettledProgress(Reach(peers, acts), a, b, toB, toA, judge, origins);
  }
}
