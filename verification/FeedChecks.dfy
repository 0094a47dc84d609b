/** Runs in which every block passed this node's own check before it was appended, with only other feeds
    growing in between. */
module FeedChecks {
  import opened FeedContents
  import opened FeedStores
  import opened FeedRuns
  import opened FeedFolds
  import opened FeedIndexes
  import opened FeedCredits
  import opened Reactions
  import opened UserStates

  /** The node accepted the proposal after the first k events, and since then only other feeds grew. */
  ghost predicate CheckedAt(run: seq<Event>, u: Id, m: Metadata, k: nat, now: int64) {
    && k <= |run|
    && After(run[..k]).known == After(run[..k]).feeds.Keys && AcceptsProposal(After(run[..k]), u, m, now)
    && forall j :: k <= j < |run| ==> !(run[j].Added? && run[j].userID == u)
  }

  /** Users join once, and every block was checked before it was appended. */
  ghost predicate Checked(run: seq<Event>) {
    run == [] ||
    var init, e := run[..|run| - 1], run[|run| - 1];
    && Checked(init)
    && match e
       case Joined(u) => u !in After(init).known
       case Added(u, c) => exists k, now :: CheckedAt(init, u, c.metadata, k, now)
  }

  /** What other feeds can do to a user's feed: give rewards, but take nothing. */
  ghost predicate OnlyGains(s: StoreState, s': StoreState, u: Id) {
    && s.feeds.Keys <= s'.feeds.Keys && u in s.feeds
    && s.feeds[u].user.credits <= s'.feeds[u].user.credits
    && s.feeds[u].blockHashes == s'.feeds[u].blockHashes
  }

  lemma {:induction false} OthersOnlyGive(s: StoreState, e: Event, u: Id)
    requires Fits(s, e) && s.known == s.feeds.Keys && u in s.feeds && !(e.Added? && e.userID == u)
    ensures OnlyGains(s, Step(s, e), u)
  {
    KeepsUsers(s, e);
    if e.Added? {
      StepUser(s, e.userID, e.block, u);
      StepFolds(s, e, u);
      hide Step, Fits, Rewards, Endorsed, Requested;
      assert CoreOf(Step(s, e).feeds[u]).blockHashes == Step(s, e).feeds[u].blockHashes;
    }
  }

  lemma {:induction false} GainsSince(run: seq<Event>, u: Id, k: nat)
    requires Legal(run) && k <= |run| && u in After(run[..k]).feeds
    requires forall j :: k <= j < |run| ==> !(run[j].Added? && run[j].userID == u)
    ensures OnlyGains(After(run[..k]), After(run), u)
  {
    if k == |run| {
      assert run[..k] == run;
    } else {
      var init := run[..|run| - 1];
      assert init[..k] == run[..k];
      GainsSince(init, u, k);
      KnownUsersLoaded(init);
      OthersOnlyGive(After(init), run[|run| - 1], u);
      hide Step, Fits;
    }
  }

  lemma {:induction false} AcceptedFits(s0: StoreState, s: StoreState, u: Id, c: Content, now: int64)
    requires s0.known == s0.feeds.Keys && AcceptsProposal(s0, u, c.metadata, now)
    requires OnlyGains(s0, s, u) && OwnBlocks(s, u)
    ensures Fits(s, Added(u, c)) && Cost(c.metadata.kind) <= s.feeds[u].user.credits
  {
    hide CanRequest, CanEndorse, Reacted, Cost, Updated;
    assert s0.feeds.Keys <= s.feeds.Keys;
  }

  lemma {:induction false} CheckedFits(run: seq<Event>, u: Id, c: Content, k: nat, now: int64)
    requires Legal(run) && CheckedAt(run, u, c.metadata, k, now)
    ensures Fits(After(run), Added(u, c)) && Cost(c.metadata.kind) <= After(run).feeds[u].user.credits
  {
    assert u in After(run[..k]).feeds;
    GainsSince(run, u, k);
    FollowersAreFollowees(run);
    AcceptedFits(After(run[..k]), After(run), u, c, now);
  }

  lemma {:induction false} NoDebtStep(s: StoreState, e: Event)
    requires Fits(s, e) && s.known == s.feeds.Keys
    requires e.Added? ==> Cost(e.block.metadata.kind) <= s.feeds[e.userID].user.credits
    requires forall u :: u in s.feeds ==> s.feeds[u].user.credits >= 0
    ensures forall u :: u in Step(s, e).feeds ==> Step(s, e).feeds[u].user.credits >= 0
  {
    KeepsUsers(s, e);
    forall u | u in Step(s, e).feeds
      ensures Step(s, e).feeds[u].user.credits >= 0
    {
      if e.Added? {
        StepUser(s, e.userID, e.block, u);
      }
    }
  }

  /** When every block passed the check, with only other feeds' blocks appended in between, no block finds
      a feed missing and no user's credits ever become negative. */
  lemma {:induction false} ChecksSuffice(run: seq<Event>)
    requires Checked(run)
    ensures Legal(run)
    ensures forall u :: u in After(run).feeds ==> After(run).feeds[u].user.credits >= 0
  {
    if run != [] {
      var init, e := run[..|run| - 1], run[|run| - 1];
      ChecksSuffice(init);
      KnownUsersLoaded(init);
      if e.Added? {
        var k, now :| CheckedAt(init, e.userID, e.block.metadata, k, now);
        CheckedFits(init, e.userID, e.block, k, now);
      }
      hide CheckedAt, Checked, Step, Cost;
      assert Fits(After(init), e);
      NoDebtStep(After(init), e);
    }
  }

  // What the check saw still holds when the block is appended.

  lemma {:induction false} SameBlocksSince(run: seq<Event>, u: Id, k: nat)
    requires k <= |run| && forall j :: k <= j < |run| ==> !(run[j].Added? && run[j].userID == u)
    ensures Blocks(run, u) == Blocks(run[..k], u)
  {
    if k == |run| {
      assert run[..k] == run;
    } else {
      assert run[..|run| - 1][..k] == run[..k];
      SameBlocksSince(run[..|run| - 1], u, k);
      assert Blocks(run[..k], u) + [] == Blocks(run[..k], u);
    }
  }

  /** What a user's own blocks determine is the same as at the check. */
  lemma {:induction false} SameSinceCheck(run: seq<Event>, u: Id, k: nat, contentID: Id)
    requires Legal(run) && k <= |run| && u in After(run[..k]).feeds
    requires forall j :: k <= j < |run| ==> !(run[j].Added? && run[j].userID == u)
    ensures OnlyGains(After(run[..k]), After(run), u)
    ensures CoreOf(After(run).feeds[u]) == CoreOf(After(run[..k]).feeds[u])
    ensures Reacted(After(run).reactions, contentID, u) <==> Reacted(After(run[..k]).reactions, contentID, u)
  {
    GainsSince(run, u, k);
    LegalPart(run, k);
    SameBlocksSince(run, u, k);
    MemoryIsFold(run, u);
    MemoryIsFold(run[..k], u);
    ReactionsAreFold(run, u, contentID);
    ReactionsAreFold(run[..k], u, contentID);
    hide After, Legal, Blocks, Fold, LastReaction, On, OncePerUser;
  }

  lemma {:induction false} SameVerdict(s0: StoreState, s: StoreState, u: Id, m: Metadata, now: int64)
    requires s0.known == s0.feeds.Keys && s.known == s.feeds.Keys && AcceptsProposal(s0, u, m, now)
    requires OnlyGains(s0, s, u) && CoreOf(s.feeds[u]) == CoreOf(s0.feeds[u])
    requires Reacted(s.reactions, m.refContentID, u) <==> Reacted(s0.reactions, m.refContentID, u)
    requires !m.kind.Endorsement? && !m.kind.EndorsementRequest?
    ensures AcceptsProposal(s, u, m, now)
  {
    hide Reacted, Cost, CanEndorse, CanRequest;
    assert s.feeds[u].user.followees == CoreOf(s.feeds[u]).followees;
    assert s0.feeds[u].user.followees == CoreOf(s0.feeds[u]).followees;
  }

  /** The verdict on a block is still the same when the block is appended, unless it asks for endorsements
      or gives one: no reaction is doubled, no user followed twice, nothing undone that cannot be. */
  lemma {:induction false} OtherVerdictsStand(run: seq<Event>, u: Id, m: Metadata, k: nat, now: int64)
    requires Legal(run) && CheckedAt(run, u, m, k, now)
    requires !m.kind.Endorsement? && !m.kind.EndorsementRequest?
    ensures After(run).known == After(run).feeds.Keys && AcceptsProposal(After(run), u, m, now)
  {
    KnownUsersLoaded(run);
    assert u in After(run[..k]).feeds;
    SameSinceCheck(run, u, k, m.refContentID);
    hide After, Legal, OnlyGains, CoreOf, Reacted;
    SameVerdict(After(run[..k]), After(run), u, m, now);
  }

  // An upper bound on credits.

  /** The credits of a user, with the reward of an open round counted in. */
  function Potential(user: UserInfo): int {
    user.credits + if user.round.requested >= 0 then ENDORSEMENT_REWARD else 0
  }

  const MOST_CREDITS: int := ENDORSEMENT_REQUEST_CREDIT_LIMIT + 2 * ENDORSEMENT_REWARD

  lemma {:induction false} OthersKeepPotential(s: StoreState, e: Event, u: Id)
    requires Fits(s, e) && s.known == s.feeds.Keys && u in s.feeds && !(e.Added? && e.userID == u)
    ensures u in Step(s, e).feeds && Potential(Step(s, e).feeds[u].user) == Potential(s.feeds[u].user)
  {
    if e.Added? {
      StepUser(s, e.userID, e.block, u);
      hide Step, Fits;
    }
  }

  lemma {:induction false} PotentialSince(run: seq<Event>, u: Id, k: nat)
    requires Legal(run) && k <= |run| && u in After(run[..k]).feeds
    requires forall j :: k <= j < |run| ==> !(run[j].Added? && run[j].userID == u)
    ensures u in After(run).feeds && Potential(After(run).feeds[u].user) == Potential(After(run[..k]).feeds[u].user)
  {
    if k == |run| {
      assert run[..k] == run;
    } else {
      var init := run[..|run| - 1];
      assert init[..k] == run[..k];
      PotentialSince(init, u, k);
      KnownUsersLoaded(init);
      OthersKeepPotential(After(init), run[|run| - 1], u);
      hide Step, Fits, Potential;
    }
  }

  lemma {:induction false} OwnBlockPotential(s0: StoreState, s: StoreState, u: Id, c: Content, now: int64)
    requires s0.known == s0.feeds.Keys && AcceptsProposal(s0, u, c.metadata, now)
    requires Fits(s, Added(u, c)) && Potential(s.feeds[u].user) == Potential(s0.feeds[u].user) <= MOST_CREDITS
    ensures u in Step(s, Added(u, c)).feeds && Potential(Step(s, Added(u, c)).feeds[u].user) <= MOST_CREDITS
  {
    StepUser(s, u, c, u);
    hide Step, Fits, Reacted;
  }

  ghost predicate Bounded(s: StoreState) {
    forall u :: u in s.feeds ==> Potential(s.feeds[u].user) <= MOST_CREDITS
  }

  lemma {:induction false} BoundedStep(run: seq<Event>, u: Id, c: Content, k: nat, now: int64)
    requires Legal(run) && Bounded(After(run)) && CheckedAt(run, u, c.metadata, k, now)
    ensures Bounded(Step(After(run), Added(u, c)))
  {
    var s, e := After(run), Added(u, c);
    CheckedFits(run, u, c, k, now);
    KnownUsersLoaded(run);
    KeepsUsers(s, e);
    assert u in After(run[..k]).feeds;
    PotentialSince(run, u, k);
    OwnBlockPotential(After(run[..k]), s, u, c, now);
    hide Step, Fits, Potential, AcceptsProposal, After, Legal;
    forall v | v in Step(s, e).feeds
      ensures Potential(Step(s, e).feeds[v].user) <= MOST_CREDITS
    {
      if v != u {
        OthersKeepPotential(s, e, v);
      }
    }
  }

  lemma {:induction false} AlwaysBounded(run: seq<Event>)
    requires Checked(run)
    ensures Bounded(After(run))
  {
    if run != [] {
      var init, e := run[..|run| - 1], run[|run| - 1];
      AlwaysBounded(init);
      ChecksSuffice(init);
      if e.Added? {
        var k, now :| CheckedAt(init, e.userID, e.block.metadata, k, now);
        BoundedStep(init, e.userID, e.block, k, now);
      }
    }
  }

  /** In checked runs nobody ever owns more than 65 credits: requests need at most 5, and while the check
      of a request is under way at most one older round can still pay. */
  lemma {:induction false} CreditsBounded(run: seq<Event>, u: Id)
    requires Checked(run) && u in After(run).feeds
    ensures 0 <= After(run).feeds[u].user.credits <= 65
  {
    ChecksSuffice(run);
    AlwaysBounded(run);
    hide After, Checked, Legal;
  }
}
