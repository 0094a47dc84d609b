/** Endorsement rounds read off the blocks alone: which request opened the last round, who endorsed it in time
    since then, and which endorsements were rewarded. */
module FeedRounds {
  import opened Common
  import opened FeedContents
  import opened FeedRuns
  import opened FeedCredits
  import opened UserStates

  /** An endorsement of u by somebody else, in time for a request made at time t. */
  predicate InTimeFor(e: Event, u: Id, t: int64) {
    Endorses(e, u) && e.block.metadata.feedUserID != u && Minus64(e.block.metadata.timestamp, t) < 3600
  }

  /** The users who endorsed u in time after request j. */
  function Endorsers(run: seq<Event>, j: nat, u: Id): set<Id>
    requires j < |run| && run[j].Added?
  {
    set i | j < i < |run| && InTimeFor(run[i], u, run[j].block.metadata.timestamp) :: run[i].block.metadata.feedUserID
  }

  predicate Asks(e: Event, u: Id) {
    e.Added? && e.userID == u && e.block.metadata.kind.EndorsementRequest?
  }

  /** The round that request j opened is over at the given time: it never ran, it was rewarded, or it is old. */
  predicate IsOver(run: seq<Event>, j: nat, u: Id, time: int64)
    requires j < |run| && run[j].Added?
  {
    var t := run[j].block.metadata.timestamp;
    t < 0 || |Endorsers(run, j, u)| >= 2 || Minus64(time, t) >= 3600
  }

  /** The last request of u that opened a round: it came when there was none before, or that one was over. */
  function Opening(run: seq<Event>, u: Id): (j: Option<nat>)
    ensures j.Some? ==> j.value < |run| && Asks(run[j.value], u)
  {
    if run == [] then None
    else
      var init, e := run[..|run| - 1], run[|run| - 1];
      var before := Opening(init, u);
      if Asks(e, u) && (before.None? || IsOver(init, before.value, u, e.block.metadata.timestamp)) then Some(|init|)
      else before
  }

  /** The round as the blocks tell it. */
  function RoundRead(run: seq<Event>, u: Id): Round {
    match Opening(run, u)
    case None => Round(u, -1, 0, {})
    case Some(j) =>
      var t, who := run[j].block.metadata.timestamp, Endorsers(run, j, u);
      if t < 0 then Round(u, t, 0, {})
      else if |who| >= 2 then Round(u, -1, 0, {})
      else Round(u, t, |who|, who)
  }

  /** The next event is the second endorsement in time of u's last round. */
  predicate IsSecond(run: seq<Event>, e: Event, u: Id) {
    var j := Opening(run, u);
    && j.Some? && run[j.value].block.metadata.timestamp >= 0
    && |Endorsers(run, j.value, u)| < 2 <= |Endorsers(run + [e], j.value, u)|
  }

  function RewardsRead(run: seq<Event>, u: Id): nat {
    if run == [] then 0
    else RewardsRead(run[..|run| - 1], u) + if IsSecond(run[..|run| - 1], run[|run| - 1], u) then 1 else 0
  }

  lemma {:induction false} EndorsersMore(run: seq<Event>, e: Event, j: nat, u: Id)
    requires j < |run| && run[j].Added?
    ensures var t, who := run[j].block.metadata.timestamp, Endorsers(run, j, u);
            Endorsers(run + [e], j, u) ==
            if InTimeFor(e, u, t) then who + {e.block.metadata.feedUserID} else who
  {
    var longer := run + [e];
    assert longer[|run|] == e && forall i :: 0 <= i < |run| ==> longer[i] == run[i];
    var t := run[j].block.metadata.timestamp;
    forall w | w in Endorsers(longer, j, u)
      ensures w in Endorsers(run, j, u) || (InTimeFor(e, u, t) && w == e.block.metadata.feedUserID)
    {
      var i :| j < i < |longer| && InTimeFor(longer[i], u, t) && longer[i].block.metadata.feedUserID == w;
      assert i < |run| ==> InTimeFor(run[i], u, t);
    }
    forall w | w in Endorsers(run, j, u)
      ensures w in Endorsers(longer, j, u)
    {
      var i :| j < i < |run| && InTimeFor(run[i], u, t) && run[i].block.metadata.feedUserID == w;
      assert InTimeFor(longer[i], u, t);
    }
  }

  lemma {:induction false} OpeningMore(run: seq<Event>, e: Event, u: Id)
    ensures var before := Opening(run, u);
            Opening(run + [e], u) ==
            if Asks(e, u) && (before.None? || IsOver(run, before.value, u, e.block.metadata.timestamp)) then Some(|run|)
            else before
  {
    assert (run + [e])[..|run|] == run;
  }

  lemma {:induction false} NoEndorsersYet(run: seq<Event>, e: Event, u: Id)
    requires e.Added?
    ensures Endorsers(run + [e], |run|, u) == {}
  {
  }

  /** A request opens a round exactly when the one before is over. */
  lemma {:induction false} ReadAfterRequest(run: seq<Event>, e: Event, u: Id)
    requires Asks(e, u)
    ensures RoundRead(run + [e], u) == Requested(RoundRead(run, u), e.block.metadata.timestamp)
    ensures !IsSecond(run, e, u)
  {
    OpeningMore(run, e, u);
    NoEndorsersYet(run, e, u);
    var before := Opening(run, u);
    if before.Some? {
      EndorsersMore(run, e, before.value, u);
    }
    hide Opening, Endorsers;
    assert (run + [e])[|run|] == e;
  }

  /** An endorsement counts exactly when it is in time and the first by that user. */
  lemma {:induction false} ReadAfterEndorsement(run: seq<Event>, e: Event, u: Id)
    requires Endorses(e, u) && !Asks(e, u)
    ensures var m := e.block.metadata;
            && RoundRead(run + [e], u) == Endorsed(RoundRead(run, u), m.timestamp, m.feedUserID)
            && (IsSecond(run, e, u) <==> Completes(RoundRead(run, u), m.timestamp, m.feedUserID))
  {
    OpeningMore(run, e, u);
    var j := Opening(run, u);
    if j.Some? {
      EndorsersMore(run, e, j.value, u);
      hide Opening, Endorsers;
      var who, v := Endorsers(run, j.value, u), e.block.metadata.feedUserID;
      assert |who + {v}| == if v in who then |who| else |who| + 1 by {
        assert v in who ==> who + {v} == who;
      }
      assert (run + [e])[j.value] == run[j.value];
    }
  }

  lemma {:induction false} ReadAfterOther(run: seq<Event>, e: Event, u: Id)
    requires !Endorses(e, u) && !Asks(e, u)
    ensures RoundRead(run + [e], u) == RoundRead(run, u) && !IsSecond(run, e, u)
  {
    OpeningMore(run, e, u);
    var j := Opening(run, u);
    if j.Some? {
      EndorsersMore(run, e, j.value, u);
      hide Opening, Endorsers;
      assert (run + [e])[j.value] == run[j.value];
    }
  }

  lemma {:induction false} NothingOpened(run: seq<Event>, u: Id)
    requires Legal(run) && u !in After(run).feeds
    ensures Opening(run, u) == None
  {
    if run != [] {
      KeepsUsers(After(run[..|run| - 1]), run[|run| - 1]);
      NothingOpened(run[..|run| - 1], u);
    }
  }

  lemma {:induction false} RoundReadStep(run: seq<Event>, e: Event, u: Id)
    requires Legal(run) && Fits(After(run), e) && u in After(run).feeds && After(run).known == After(run).feeds.Keys
    requires After(run).feeds[u].user.round == RoundRead(run, u)
    ensures u in Step(After(run), e).feeds && Step(After(run), e).feeds[u].user.round == RoundRead(run + [e], u)
    ensures Rewards(After(run), e, u) <==> IsSecond(run, e, u)
  {
    if e.Added? {
      StepUser(After(run), e.userID, e.block, u);
    }
    hide After, Legal, Fits, Step, Requested, Endorsed, Completes, RoundRead, IsSecond;
    if Asks(e, u) {
      ReadAfterRequest(run, e, u);
    } else if Endorses(e, u) {
      ReadAfterEndorsement(run, e, u);
    } else {
      ReadAfterOther(run, e, u);
    }
  }

  /** In every run the round in memory is the one that the blocks tell. */
  lemma {:induction false} RoundsAreRead(run: seq<Event>, u: Id)
    requires Legal(run) && u in After(run).feeds
    ensures After(run).feeds[u].user.round == RoundRead(run, u)
  {
    if run != [] {
      var init, e := run[..|run| - 1], run[|run| - 1];
      assert run == init + [e];
      KeepsUsers(After(init), e);
      KnownUsersLoaded(init);
      if u in After(init).feeds {
        RoundsAreRead(init, u);
        RoundReadStep(init, e, u);
      } else {
        NothingOpened(init, u);
      }
    }
  }

  /** An event is rewarded exactly when it is the second endorsement in time, by a second user, since the last
      request that opened a round. */
  lemma {:induction false} RewardedIff(run: seq<Event>, e: Event, u: Id)
    requires Legal(run) && Fits(After(run), e)
    ensures Rewards(After(run), e, u) <==> IsSecond(run, e, u)
  {
    KnownUsersLoaded(run);
    if u in After(run).feeds {
      RoundsAreRead(run, u);
      RoundReadStep(run, e, u);
    } else {
      NothingOpened(run, u);
    }
  }

  /** The number of rewards is that of second endorsements in time. */
  lemma {:induction false} RewardsAreRead(run: seq<Event>, u: Id)
    requires Legal(run)
    ensures RewardCount(run, u) == RewardsRead(run, u)
  {
    if run != [] {
      RewardsAreRead(run[..|run| - 1], u);
      RewardedIff(run[..|run| - 1], run[|run| - 1], u);
    }
  }
}
