/** Credits over runs: where they come from, and that rewards are earned. */
module FeedCredits {
  import opened FeedContents
  import opened FeedStores
  import opened FeedRuns
  import opened Reactions
  import opened UserStates

  function SumOfCosts(blocks: seq<Content>): nat {
    if blocks == [] then 0 else SumOfCosts(blocks[..|blocks| - 1]) + Cost(blocks[|blocks| - 1].metadata.kind)
  }

  /** The number of a user's blocks of one kind. */
  function CountOf(blocks: seq<Content>, kind: ContentType): nat {
    if blocks == [] then 0
    else CountOf(blocks[..|blocks| - 1], kind) + if blocks[|blocks| - 1].metadata.kind == kind then 1 else 0
  }

  /** What a user's blocks cost: 5 a text, 2 a comment, 1 a reaction, nothing else. */
  function Spent(blocks: seq<Content>): nat {
    5 * CountOf(blocks, Text) + 2 * CountOf(blocks, Comment) + CountOf(blocks, Reaction)
  }

  lemma {:induction false} CostsAreCounts(blocks: seq<Content>)
    ensures SumOfCosts(blocks) == Spent(blocks)
  {
    if blocks != [] {
      CostsAreCounts(blocks[..|blocks| - 1]);
    }
  }

  /** The event is an endorsement of u. */
  predicate Endorses(e: Event, u: Id) {
    e.Added? && e.block.metadata.kind.Endorsement? && TargetUser(e.block.metadata) == u
  }

  /** The event is the endorsement that completes u's round. */
  predicate Rewards(s: StoreState, e: Event, u: Id) {
    && Endorses(e, u) && u in s.feeds
    && Completes(s.feeds[u].user.round, e.block.metadata.timestamp, e.block.metadata.feedUserID)
  }

  function RewardCount(run: seq<Event>, u: Id): nat {
    if run == [] then 0
    else RewardCount(run[..|run| - 1], u) + if Rewards(After(run[..|run| - 1]), run[|run| - 1], u) then 1 else 0
  }

  lemma {:induction false} SpreadUser(s: StoreState, u: Id, c: Content, v: Id)
    requires u in s.feeds && v in s.feeds && TargetsLoaded(s, u, c.metadata)
    ensures v in Spread(s, u, c.metadata, c.blockHash).feeds
    ensures var user, user', m := s.feeds[v].user, Spread(s, u, c.metadata, c.blockHash).feeds[v].user, c.metadata;
            && user'.credits == user.credits + (if Rewards(s, Added(u, c), v) then ENDORSEMENT_REWARD else 0)
            && user'.round == if Endorses(Added(u, c), v) then Endorsed(user.round, m.timestamp, m.feedUserID)
                              else user.round
  {
    hide WithReaction, TakenBack, Endorsed, Completes;
    if c.metadata.kind.Undo? && ReferredHash(c.metadata) in s.feeds[u].blockHashes {
      TakenBackUser(s, u, c.metadata, s.feeds[u].blockHashes[ReferredHash(c.metadata)].metadata, v);
    }
  }

  lemma {:induction false} TakenBackUser(s: StoreState, u: Id, m: Metadata, referred: Metadata, v: Id)
    requires u in s.feeds && v in s.feeds && (referred.kind.Follow? ==> TargetUser(referred) in s.feeds)
    ensures v in TakenBack(s, u, m, referred).feeds
    ensures var user' := TakenBack(s, u, m, referred).feeds[v].user;
            user'.credits == s.feeds[v].user.credits && user'.round == s.feeds[v].user.round
  {
    hide WithoutReaction;
  }

  lemma {:induction false} StepUser(s: StoreState, u: Id, c: Content, v: Id)
    requires Fits(s, Added(u, c)) && v in s.feeds
    ensures v in Step(s, Added(u, c)).feeds
    ensures var user, user', m := s.feeds[v].user, Step(s, Added(u, c)).feeds[v].user, c.metadata;
            && user'.credits == user.credits - (if v == u then Cost(m.kind) else 0)
                                + (if Rewards(s, Added(u, c), v) then ENDORSEMENT_REWARD else 0)
            && user'.round == if v == u && m.kind.EndorsementRequest? then Requested(user.round, m.timestamp)
                              else if Endorses(Added(u, c), v) then Endorsed(user.round, m.timestamp, m.feedUserID)
                              else user.round
  {
    var s1 := Recorded(s, u, c.metadata, c.blockHash);
    SpreadUser(s1, u, c, v);
    hide Spread, Endorsed, Completes, TargetsLoaded, Cost, Requested;
  }

  lemma {:induction false} CreditsSummed(run: seq<Event>, u: Id)
    requires Legal(run) && u in After(run).feeds
    ensures After(run).feeds[u].user.credits ==
            INITIAL_CREDITS - SumOfCosts(Blocks(run, u)) + ENDORSEMENT_REWARD * RewardCount(run, u)
  {
    if run != [] {
      var init, e := run[..|run| - 1], run[|run| - 1];
      assert Blocks(init, u) + [] == Blocks(init, u);
      KeepsUsers(After(init), e);
      if u in After(init).feeds {
        CreditsSummed(init, u);
        if e.Added? {
          StepUser(After(init), e.userID, e.block, u);
          if e.userID == u {
            assert Blocks(run, u)[..|Blocks(run, u)| - 1] == Blocks(init, u);
          }
        } else {
          KnownUsersLoaded(init);
        }
      } else {
        OnlyUsersBlocks(init, u);
        NoRewardsBefore(init, u);
      }
    }
  }

  /** Credits are the initial 15, less what the user's own texts, comments and reactions cost, plus 30 for every
      completed endorsement round. */
  lemma {:induction false} CreditsAccounted(run: seq<Event>, u: Id)
    requires Legal(run) && u in After(run).feeds
    ensures After(run).feeds[u].user.credits == 15 - Spent(Blocks(run, u)) + 30 * RewardCount(run, u)
  {
    CreditsSummed(run, u);
    CostsAreCounts(Blocks(run, u));
  }

  lemma {:induction false} NoRewardsBefore(run: seq<Event>, u: Id)
    requires u !in After(run).feeds
    ensures RewardCount(run, u) == 0
  {
    if run != [] {
      KeepsUsers(After(run[..|run| - 1]), run[|run| - 1]);
      NoRewardsBefore(run[..|run| - 1], u);
    }
  }

  // Rewards are earned.

  predicate IsRequest(e: Event, u: Id, t: int) {
    e.Added? && e.userID == u && e.block.metadata.kind.EndorsementRequest? && e.block.metadata.timestamp == t
  }

  /** The endorsement of u, by somebody else, came in time for a request made at time t. */
  predicate EndorsesInTime(e: Event, u: Id, t: int, who: Id) {
    && Endorses(e, u) && e.block.metadata.feedUserID == who && who != u
    && e.block.metadata.timestamp < t + ENDORSEMENT_INTERVAL
  }

  ghost predicate EndorsedSince(run: seq<Event>, j: nat, u: Id, t: int, who: Id) {
    exists k :: j < k < |run| && EndorsesInTime(run[k], u, t, who)
  }

  predicate RewardedAt(run: seq<Event>, k: nat, u: Id) {
    k < |run| && Rewards(After(run[..k]), run[k], u)
  }

  /** Event j is the request at time t; every endorser endorsed u in time since then, and none of those
      endorsements was paid for yet. */
  ghost predicate RoundSince(run: seq<Event>, j: nat, u: Id, t: int, endorsers: set<Id>) {
    && j < |run| && 0 <= t && IsRequest(run[j], u, t)
    && (forall w :: w in endorsers ==> EndorsedSince(run, j, u, t, w))
    && (forall k :: j < k < |run| ==> !RewardedAt(run, k, u))
  }

  ghost predicate RoundGrounded(run: seq<Event>, u: Id, r: Round) {
    && r.userID == u && r.received == |r.endorsers| < REQUIRED_ENDORSEMENTS
    && (r.requested >= 0 ==> exists j :: RoundSince(run, j, u, r.requested, r.endorsers))
  }

  lemma {:induction false} InTime(time: int64, requested: int64)
    requires requested >= 0 && Minus64(time, requested) < ENDORSEMENT_INTERVAL
    ensures time < requested + ENDORSEMENT_INTERVAL
  {
  }

  lemma {:induction false} RoundGoesOn(run: seq<Event>, e: Event, j: nat, u: Id, t: int, endorsers: set<Id>)
    requires RoundSince(run, j, u, t, endorsers)
    ensures forall w :: w in endorsers ==> EndorsedSince(run + [e], j, u, t, w)
    ensures !Rewards(After(run), e, u) ==> RoundSince(run + [e], j, u, t, endorsers)
  {
    hide EndorsesInTime, Rewards, After, IsRequest;
    var longer := run + [e];
    assert longer[..|run|] == run && longer[|run|] == e;
    forall w | w in endorsers
      ensures EndorsedSince(longer, j, u, t, w)
    {
      var k :| j < k < |run| && EndorsesInTime(run[k], u, t, w);
      assert longer[k] == run[k];
    }
    forall k | j < k < |run|
      ensures !RewardedAt(longer, k, u)
    {
      assert longer[..k] == run[..k] && longer[k] == run[k];
      assert !RewardedAt(run, k, u);
    }
  }

  lemma {:induction false} NewRequest(run: seq<Event>, e: Event, u: Id, t: int)
    requires 0 <= t && IsRequest(e, u, t)
    ensures RoundSince(run + [e], |run|, u, t, {})
  {
    assert (run + [e])[|run|] == e;
  }

  lemma {:induction false} OneMoreEndorser(run: seq<Event>, e: Event, j: nat, u: Id, t: int, endorsers: set<Id>,
                                           who: Id)
    requires RoundSince(run, j, u, t, endorsers) && EndorsesInTime(e, u, t, who)
    ensures forall w :: w in endorsers + {who} ==> EndorsedSince(run + [e], j, u, t, w)
    ensures !Rewards(After(run), e, u) ==> RoundSince(run + [e], j, u, t, endorsers + {who})
  {
    RoundGoesOn(run, e, j, u, t, endorsers);
    assert (run + [e])[|run|] == e;
  }

  lemma {:induction false} RoundStep(run: seq<Event>, e: Event, u: Id, r: Round, r': Round)
    requires RoundGrounded(run, u, r)
    requires e.Added? && u in After(run).feeds && After(run).feeds[u].user.round == r
    requires var m := e.block.metadata;
             r' == if e.userID == u && m.kind.EndorsementRequest? then Requested(r, m.timestamp)
                   else if Endorses(e, u) then Endorsed(r, m.timestamp, m.feedUserID)
                   else r
    ensures RoundGrounded(run + [e], u, r')
  {
    var m := e.block.metadata;
    hide RoundSince, After;
    if r.requested >= 0 {
      var j :| RoundSince(run, j, u, r.requested, r.endorsers);
      if Endorses(e, u) && CanEndorse(r, m.timestamp, m.feedUserID) {
        InTime(m.timestamp, r.requested);
        OneMoreEndorser(run, e, j, u, r.requested, r.endorsers, m.feedUserID);
      }
      RoundGoesOn(run, e, j, u, r.requested, r.endorsers);
    }
    if e.userID == u && m.kind.EndorsementRequest? && m.timestamp >= 0 {
      NewRequest(run, e, u, m.timestamp);
    }
  }

  /** Every user's round rests on a request block and on as many later endorsements as it counts. */
  lemma {:induction false} RoundsGrounded(run: seq<Event>, u: Id)
    requires Legal(run) && u in After(run).feeds
    ensures RoundGrounded(run, u, After(run).feeds[u].user.round)
  {
    if run != [] {
      var init, e := run[..|run| - 1], run[|run| - 1];
      assert run == init + [e];
      KeepsUsers(After(init), e);
      KnownUsersLoaded(init);
      if u in After(init).feeds {
        RoundsGrounded(init, u);
        hide RoundGrounded, Rewards;
        if e.Added? {
          StepUser(After(init), e.userID, e.block, u);
          RoundStep(init, e, u, After(init).feeds[u].user.round, After(run).feeds[u].user.round);
        } else {
          RoundSurvivesJoin(init, e, u, After(init).feeds[u].user.round);
        }
      }
    }
  }

  lemma {:induction false} RoundSurvivesJoin(run: seq<Event>, e: Event, u: Id, r: Round)
    requires RoundGrounded(run, u, r) && e.Joined?
    ensures RoundGrounded(run + [e], u, r)
  {
    if r.requested >= 0 {
      var j :| RoundSince(run, j, u, r.requested, r.endorsers);
      RoundGoesOn(run, e, j, u, r.requested, r.endorsers);
    }
  }

  lemma {:induction false} NextRewardEarned(run: seq<Event>, e: Event, u: Id)
    returns (j: nat, t: int, endorsers: set<Id>)
    requires Legal(run) && Rewards(After(run), e, u)
    ensures |endorsers| == REQUIRED_ENDORSEMENTS
    ensures forall w :: w in endorsers ==> EndorsedSince(run + [e], j, u, t, w)
    ensures exists before :: RoundSince(run, j, u, t, before)
  {
    RoundsGrounded(run, u);
    var r, m := After(run).feeds[u].user.round, e.block.metadata;
    hide RoundSince, After, EndorsedSince;
    t := r.requested;
    j :| RoundSince(run, j, u, t, r.endorsers);
    InTime(m.timestamp, r.requested);
    OneMoreEndorser(run, e, j, u, t, r.endorsers, m.feedUserID);
    endorsers := r.endorsers + {m.feedUserID};
  }

  /** Every reward follows a request of the user at some time t, since which two different other users
      endorsed the user in time; no endorsement since that request was paid for before. */
  lemma {:induction false} RewardsEarned(run: seq<Event>, i: nat, u: Id) returns (j: nat, t: int, endorsers: set<Id>)
    requires Legal(run) && RewardedAt(run, i, u)
    ensures j < i && 0 <= t && IsRequest(run[j], u, t)
    ensures |endorsers| == REQUIRED_ENDORSEMENTS && u !in endorsers
    ensures forall w :: w in endorsers ==> EndorsedSince(run[..i + 1], j, u, t, w)
    ensures forall k :: j < k < i ==> !RewardedAt(run, k, u)
  {
    LegalPart(run, i);
    j, t, endorsers := NextRewardEarned(run[..i], run[i], u);
    assert run[..i] + [run[i]] == run[..i + 1];
    hide After, EndorsesInTime, Legal, Rewards;
    if u in endorsers {
      OthersOnly(run[..i + 1], j, u, t, u);
    }
    forall k | j < k < i
      ensures !RewardedAt(run, k, u)
    {
      assert run[..i][..k] == run[..k];
      assert !RewardedAt(run[..i], k, u);
    }
  }

  lemma {:induction false} OthersOnly(run: seq<Event>, j: nat, u: Id, t: int, w: Id)
    requires EndorsedSince(run, j, u, t, w)
    ensures w != u
  {
  }

  lemma {:induction false} LegalPart(run: seq<Event>, i: nat)
    requires Legal(run) && i <= |run|
    ensures Legal(run[..i])
  {
    if i < |run| {
      LegalPart(run[..|run| - 1], i);
      assert run[..|run| - 1][..i] == run[..i];
    } else {
      assert run[..i] == run;
    }
  }
}
