/** The gossip handlers of one node: which rumors it admits, what it broadcasts, how it answers a status. */
module Gossip {
  import opened Common
  import opened GossipViews

  /** The verdict of the cryptography layer on a rumor: a bad signature, a blocked user, or neither. */
  datatype Verdict = BadSignature | BlockedUser | Genuine

  type Judge = Rumor -> Verdict

  datatype GossipState = GossipState(view: View, blockedIPs: set<Address>)

  datatype Admission = Admission(state: GossipState, interest: seq<Rumor>)

  /** One rumor: only the next expected one of its origin is looked at. The first blocked rumor of an
      origin drops everything saved from that origin. */
  function AdmitOne(st: GossipState, r: Rumor, judge: Judge): Admission {
    if !Expects(st.view, r.origin, r.sequence) then Admission(st, [])
    else
      match judge(r)
      case BadSignature => Admission(st, [])
      case BlockedUser =>
        if r.origin in st.blockedIPs then Admission(st, [])
        else Admission(GossipState(st.view - {r.origin}, st.blockedIPs + {r.origin}), [])
      case Genuine => Admission(st.(view := SavedIn(st.view, r)), [r])
  }

  function AdmitAll(st: GossipState, rs: seq<Rumor>, judge: Judge): Admission {
    if rs == [] then Admission(st, [])
    else
      var before := AdmitAll(st, rs[..|rs| - 1], judge);
      var last := AdmitOne(before.state, rs[|rs| - 1], judge);
      Admission(last.state, before.interest + last.interest)
  }

  /** The rumors of a list with a good signature, in order. */
  function Unforged(rs: seq<Rumor>, judge: Judge): seq<Rumor> {
    if rs == [] then []
    else Unforged(rs[..|rs| - 1], judge) + if judge(rs[|rs| - 1]).BadSignature? then [] else [rs[|rs| - 1]]
  }

  /** Forged rumors change nothing: the state and what is processed are the same as without them. */
  lemma {:induction false} ForgedIgnored(st: GossipState, rs: seq<Rumor>, judge: Judge)
    ensures AdmitAll(st, rs, judge) == AdmitAll(st, Unforged(rs, judge), judge)
  {
    if rs != [] {
      var init, last := rs[..|rs| - 1], rs[|rs| - 1];
      ForgedIgnored(st, init, judge);
      if judge(last).BadSignature? {
        assert Unforged(rs, judge) == Unforged(init, judge);
        assert AdmitAll(st, init, judge).interest + [] == AdmitAll(st, init, judge).interest;
      } else {
        assert Unforged(rs, judge)[..|Unforged(init, judge)|] == Unforged(init, judge);
      }
    }
  }

  /** Every entry of the later view was in the earlier one or is one of the given rumors. */
  ghost predicate GainsOnly(v: View, later: View, rs: seq<Rumor>) {
    forall o, k :: o in later && k in later[o] ==>
                     (o in v && k in v[o] && later[o][k] == v[o][k])
                     || (later[o][k] in rs && later[o][k].origin == o && later[o][k].sequence == k)
  }

  /** Only rumors judged genuine are processed, and the view gains no other entries than these. */
  lemma {:induction false} OnlyGenuineAdmitted(st: GossipState, rs: seq<Rumor>, judge: Judge)
    ensures var done := AdmitAll(st, rs, judge);
            && (forall r :: r in done.interest ==> r in rs && judge(r).Genuine?)
            && GainsOnly(st.view, done.state.view, done.interest)
  {
    if rs != [] {
      var init, last := rs[..|rs| - 1], rs[|rs| - 1];
      assert forall r :: r in rs <==> r in init || r == last;
      OnlyGenuineAdmitted(st, init, judge);
      var before := AdmitAll(st, init, judge);
      OneGenuineAdmitted(before.state, last, judge);
      var one := AdmitOne(before.state, last, judge);
      hide AdmitOne, GainsOnly;
      GainsTwice(st.view, before.state.view, one.state.view, before.interest, one.interest);
    }
  }

  lemma {:induction false} GainsTwice(v: View, mid: View, later: View, first: seq<Rumor>, second: seq<Rumor>)
    requires GainsOnly(v, mid, first) && GainsOnly(mid, later, second)
    ensures GainsOnly(v, later, first + second)
  {
  }

  lemma {:induction false} OneGenuineAdmitted(st: GossipState, r: Rumor, judge: Judge)
    ensures var done := AdmitOne(st, r, judge);
            && (forall x :: x in done.interest ==> x == r && judge(r).Genuine?)
            && GainsOnly(st.view, done.state.view, done.interest)
  {
  }

  /** The rumors of one origin in a list, in order. */
  function OfOrigin(rs: seq<Rumor>, origin: Address): seq<Rumor> {
    if rs == [] then []
    else OfOrigin(rs[..|rs| - 1], origin) + if rs[|rs| - 1].origin == origin then [rs[|rs| - 1]] else []
  }

  /** The saved rumors of an origin with sequence numbers from low + 1 to high. */
  function SavedRange(saved: map<int, Rumor>, low: nat, high: nat): seq<Rumor>
    requires low <= high && forall k :: low < k <= high ==> k in saved
  {
    if low == high then [] else SavedRange(saved, low, high - 1) + [saved[high]]
  }

  /** Every origin's rumors are saved under the numbers 1 to k, each under its own name. */
  ghost predicate GapFree(v: View) {
    forall o :: o in v ==>
      && |v[o]| > 0
      && (forall k :: k in v[o] <==> 1 <= k <= |v[o]|)
      && (forall k :: k in v[o] ==> v[o][k].origin == o && v[o][k].sequence == k)
  }

  /** Status messages announce lengths, and -1 for origins that the sender blocked. */
  function StatusOf(st: GossipState): SeqMap {
    Sequences(st.view) + map ip | ip in st.blockedIPs :: -1
  }

  class GossipLayer {
    const address: Address
    const view: PeerView
    var BlockedIPs: set<Address>

    constructor (address: Address)
      ensures this.address == address && fresh(view) && State() == GossipState(map[], {})
    {
      this.address, BlockedIPs := address, {};
      view := new PeerView();
    }

    function State(): GossipState
      reads this, view
    {
      GossipState(view.rumorMap, BlockedIPs)
    }

    /** Returns the rumors to process, whether to relay the message, and the status to acknowledge with. */
    method HandleRumors(rumors: seq<Rumor>, judge: Judge) returns (interest: seq<Rumor>, relay: bool, ack: SeqMap)
      modifies this, view
      ensures Admission(State(), interest) == AdmitAll(old(State()), rumors, judge)
      ensures relay <==> interest != []
      ensures ack == StatusOf(State())
    {
      interest := [];
      for i := 0 to |rumors|
        invariant Admission(State(), interest) == AdmitAll(old(State()), rumors[..i], judge)
      {
        var rumor := rumors[i];
        assert rumors[..i + 1][..i] == rumors[..i];
        var expected := view.IsExpected(rumor.origin, rumor.sequence);
        if expected {
          match judge(rumor) {
            case BadSignature => continue;
            case BlockedUser =>
              if rumor.origin !in BlockedIPs {
                BlockedIPs := BlockedIPs + {rumor.origin};
                view.DropViewFrom(rumor.origin);
              }
              continue;
            case Genuine =>
          }
          interest := interest + [rumor];
          view.SaveRumor(rumor);
        }
      }
      assert rumors[..|rumors|] == rumors;
      relay := |interest| > 0;
      var seqs := view.AsSequenceMap();
      ack := seqs + map ip | ip in BlockedIPs :: -1;
    }

    /** Numbers and saves a message of this node and returns the rumor to send. */
    method BroadcastAway(msg: string) returns (rumor: Rumor)
      modifies view
      ensures rumor == Rumor(address, SequenceOf(old(view.rumorMap), address) + 1, msg)
      ensures view.rumorMap == SavedIn(old(view.rumorMap), rumor)
    {
      var current := view.GetSequence(address);
      rumor := Rumor(address, current + 1, msg);
      view.SaveRumor(rumor);
    }

    /** The saved rumors of an origin with the given numbers; it fails on a number below 1. */
    method CollectRange(origin: Address, first: int, newSequence: int) returns (found: Option<seq<Rumor>>)
      requires GapFree(view.rumorMap) && origin in view.rumorMap
      requires first <= newSequence <= |view.rumorMap[origin]|
      ensures found.None? <==> first < 1
      ensures found.Some? ==> found.value == SavedRange(view.rumorMap[origin], first - 1, newSequence)
    {
      var rumors: seq<Rumor> := [];
      var i := first;
      while i <= newSequence
        invariant first <= i <= newSequence + 1
        invariant first < 1 ==> i == first
        invariant first >= 1 ==> rumors == SavedRange(view.rumorMap[origin], first - 1, i - 1)
      {
        var saved := view.GetSavedRumor(origin, i);
        if saved == None {
          return None;
        }
        rumors := rumors + [saved.value];
        i := i + 1;
      }
      return Some(rumors);
    }

    /** The rumors that answer a status message of another node, origins in any order. It fails only on a
        status that announces a negative number other than the blocking mark. */
    method AnswerStatus(status: SeqMap, source: Address) returns (answer: Result<seq<Rumor>, string>)
      requires GapFree(view.rumorMap)
      ensures answer.Err? <==> exists o :: Unanswerable(view.rumorMap, status, source, o)
      ensures answer.Ok? ==> Answers(view.rumorMap, status, source, answer.value)
    {
      hide GapFree, Answers, AnswersSome, Missing, Unanswerable, OwnNews, RemoteNews, Sequences, SavedRange;
      var rmtNews, thsNews := view.Compare(status);
      var rumors: seq<Rumor> := [];
      var left := thsNews.Keys;
      StartAnswer(view.rumorMap, status, source);
      while left != {}
        invariant left <= thsNews.Keys
        invariant forall o :: Unanswerable(view.rumorMap, status, source, o) ==> o in left
        invariant AnswersSome(view.rumorMap, status, source, rumors, left)
      {
        var origin :| origin in left;
        OwnNewsRange(view.rumorMap, status, source, origin);
        if origin == source {
          AnswerWithout(view.rumorMap, status, source, rumors, left, origin);
        } else {
          var i := if origin in status then status[origin] + 1 else 1;
          var found := CollectRange(origin, i, thsNews[origin]);
          if found == None {
            return Err("the new rumor from this peer could not be found in the saved rumors list");
          }
          AnswerOneMore(view.rumorMap, status, source, rumors, left, origin);
          rumors := rumors + found.value;
        }
        left := left - {origin};
      }
      AnswerComplete(view.rumorMap, status, source, rumors);
      return Ok(rumors);
    }
  }

  /** An origin of which the status lacks something, with an announced number that cannot be one. */
  predicate Unanswerable(v: View, status: SeqMap, source: Address, o: Address) {
    o in OwnNews(Sequences(v), status) && o != source && LookUp(status, o) < 0
  }

  /** What the answer to a status contains of one origin. */
  function Missing(v: View, status: SeqMap, source: Address, o: Address): seq<Rumor>
    requires GapFree(v)
  {
    var news := OwnNews(Sequences(v), status);
    if o in news && o != source && LookUp(status, o) >= 0 then SavedRange(v[o], LookUp(status, o), news[o]) else []
  }

  /** An answer holds, per origin and in order, exactly what the status lacks. */
  ghost predicate Answers(v: View, status: SeqMap, source: Address, rs: seq<Rumor>)
    requires GapFree(v)
  {
    forall o {:trigger OfOrigin(rs, o)} :: OfOrigin(rs, o) == Missing(v, status, source, o)
  }

  /** An answer to which the given origins are still to be added. */
  ghost predicate AnswersSome(v: View, status: SeqMap, source: Address, rs: seq<Rumor>, left: set<Address>)
    requires GapFree(v)
  {
    forall o {:trigger OfOrigin(rs, o)} :: OfOrigin(rs, o) == if o in left then [] else Missing(v, status, source, o)
  }

  lemma {:induction false} OwnNewsRange(v: View, status: SeqMap, source: Address, o: Address)
    requires GapFree(v) && o in OwnNews(Sequences(v), status)
    ensures Unanswerable(v, status, source, o) <==> o != source && LookUp(status, o) < 0
    ensures o in v && OwnNews(Sequences(v), status)[o] == |v[o]| && LookUp(status, o) < |v[o]|
  {
  }

  lemma {:induction false} StartAnswer(v: View, status: SeqMap, source: Address)
    requires GapFree(v)
    ensures AnswersSome(v, status, source, [], OwnNews(Sequences(v), status).Keys)
    ensures forall o :: Unanswerable(v, status, source, o) ==> o in OwnNews(Sequences(v), status)
  {
  }

  lemma {:induction false} AnswerWithout(v: View, status: SeqMap, source: Address, rs: seq<Rumor>,
                                         left: set<Address>, origin: Address)
    requires GapFree(v) && AnswersSome(v, status, source, rs, left) && origin == source
    ensures AnswersSome(v, status, source, rs, left - {origin})
  {
  }

  lemma {:induction false} AnswerComplete(v: View, status: SeqMap, source: Address, rs: seq<Rumor>)
    requires GapFree(v) && AnswersSome(v, status, source, rs, {})
    ensures Answers(v, status, source, rs)
  {
    hide Missing;
  }

  lemma {:induction false} AnswerOneMore(v: View, status: SeqMap, source: Address, rs: seq<Rumor>,
                                         left: set<Address>, origin: Address)
    requires GapFree(v) && AnswersSome(v, status, source, rs, left)
    requires origin in left && origin in OwnNews(Sequences(v), status)
    requires origin != source && LookUp(status, origin) >= 0
    ensures AnswersSome(v, status, source, rs + SavedRange(v[origin], LookUp(status, origin), |v[origin]|),
                        left - {origin})
  {
    var low, more := LookUp(status, origin), SavedRange(v[origin], LookUp(status, origin), |v[origin]|);
    forall o {:trigger OfOrigin(rs + more, o)}
      ensures OfOrigin(rs + more, o) == if o in left - {origin} then [] else Missing(v, status, source, o)
    {
      OfOriginRange(rs, v[origin], origin, low, |v[origin]|, o);
      assert OfOrigin(rs, o) == if o in left then [] else Missing(v, status, source, o);
    }
  }

  lemma {:induction false} OfOriginAppend(rs: seq<Rumor>, r: Rumor, o: Address)
    ensures OfOrigin(rs + [r], o) == OfOrigin(rs, o) + if r.origin == o then [r] else []
  {
    assert (rs + [r])[..|rs|] == rs;
  }

  lemma {:induction false} OfOriginMore(before: seq<Rumor>, range: seq<Rumor>, last: Rumor, o: Address)
    requires OfOrigin(before + range, o) == OfOrigin(before, o) + if o == last.origin then range else []
    ensures OfOrigin(before + (range + [last]), o) ==
            OfOrigin(before, o) + if o == last.origin then range + [last] else []
  {
    OfOriginAppend(before + range, last, o);
    hide OfOrigin;
    assert before + (range + [last]) == (before + range) + [last];
  }

  lemma {:induction false} OfOriginRange(before: seq<Rumor>, saved: map<int, Rumor>, origin: Address, low: nat,
                                         high: nat, o: Address)
    requires low <= high && forall k :: low < k <= high ==> k in saved && saved[k].origin == origin
    ensures OfOrigin(before + SavedRange(saved, low, high), o) ==
            OfOrigin(before, o) + if o == origin then SavedRange(saved, low, high) else []
  {
    hide OfOrigin;
    if low == high {
      assert before + [] == before;
    } else {
      OfOriginRange(before, saved, origin, low, high - 1, o);
      OfOriginMore(before, SavedRange(saved, low, high - 1), saved[high], o);
    }
  }
}
