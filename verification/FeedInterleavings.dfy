/** What the interleaving of the feeds decides and what it does not: two runs whose users appended the same
    blocks, each in the same order. */
module FeedInterleavings {
  import opened BlockStore
  import opened FeedContents
  import opened FeedRuns
  import opened FeedFolds
  import opened FeedIndexes
  import opened FeedCredits
  import opened FeedChecks
  import opened FeedVerdicts
  import opened Reactions
  import opened UserStates

  /** The same users joined and every user appended the same blocks. */
  ghost predicate SameFeeds(run: seq<Event>, other: seq<Event>) {
    && After(run).feeds.Keys == After(other).feeds.Keys
    && forall u :: Blocks(run, u) == Blocks(other, u)
  }

  /** Contents, hidden contents, names and followees of a user, and who follows the user, are the same in
      both interleavings. */
  lemma {:induction false} FeedsAgree(run: seq<Event>, other: seq<Event>, u: Id)
    requires Legal(run) && Legal(other) && SameFeeds(run, other) && u in After(run).feeds
    ensures u in After(other).feeds && CoreOf(After(run).feeds[u]) == CoreOf(After(other).feeds[u])
    ensures After(run).feeds[u].user.followers == After(other).feeds[u].user.followers
  {
    MemoryIsFold(run, u);
    MemoryIsFold(other, u);
    forall v
      ensures HasFollower(After(run), u, v) <==> HasFollower(After(other), u, v)
    {
      FollowerAgrees(run, other, u, v);
    }
    hide After, Legal;
    assert forall v :: v in After(run).feeds[u].user.followers <==> HasFollower(After(run), u, v);
    assert forall v :: v in After(other).feeds[u].user.followers <==> HasFollower(After(other), u, v);
  }

  lemma {:induction false} FollowerAgrees(run: seq<Event>, other: seq<Event>, u: Id, v: Id)
    requires Legal(run) && Legal(other) && SameFeeds(run, other)
    ensures HasFollower(After(run), u, v) <==> HasFollower(After(other), u, v)
  {
    FollowersAreFollowees(run);
    FollowersAreFollowees(other);
    assert HasFollowee(After(run), v, u) <==> HasFollower(After(run), u, v);
    assert HasFollowee(After(other), v, u) <==> HasFollower(After(other), u, v);
    if v in After(run).feeds {
      MemoryIsFold(run, v);
      MemoryIsFold(other, v);
      hide After, Legal;
      assert CoreOf(After(run).feeds[v]).followees == CoreOf(After(other).feeds[v]).followees;
    }
  }

  /** Every user has the same entry among the reactions to a content, or none in both; only the order of the
      entries of different users can differ. */
  lemma {:induction false} ReactionsAgree(run: seq<Event>, other: seq<Event>, u: Id, contentID: Id)
    requires Legal(run) && Legal(other) && SameFeeds(run, other)
    ensures Found(On(After(run).reactions, contentID), u) == Found(On(After(other).reactions, contentID), u)
  {
    ReactionsAreFold(run, u, contentID);
    ReactionsAreFold(other, u, contentID);
  }

  /** The credits of a user agree if and only if as many rewards were paid in both interleavings. */
  lemma {:induction false} CreditsAgreeIff(run: seq<Event>, other: seq<Event>, u: Id)
    requires Legal(run) && Legal(other) && SameFeeds(run, other) && u in After(run).feeds
    ensures u in After(other).feeds
    ensures After(run).feeds[u].user.credits == After(other).feeds[u].user.credits <==>
            RewardCount(run, u) == RewardCount(other, u)
  {
    CreditsAccounted(run, u);
    CreditsAccounted(other, u);
    hide After, Legal, RewardCount;
  }

  lemma {:induction false} SwappedBlocks(run: seq<Event>, e: Event, f: Event, v: Id)
    requires e.Added? && f.Added? && e.userID != f.userID
    ensures Blocks(run + [e] + [f], v) == Blocks(run + [f] + [e], v)
  {
    BlocksAppend(run, e, v);
    BlocksAppend(run + [e], f, v);
    BlocksAppend(run, f, v);
    BlocksAppend(run + [f], e, v);
  }

  lemma {:induction false} BlocksAppend(run: seq<Event>, e: Event, v: Id)
    ensures Blocks(run + [e], v) == Blocks(run, v) + if e.Added? && e.userID == v then [e.block] else []
  {
    assert (run + [e])[..|run|] == run;
  }

  lemma {:induction false} StageFacts(run: seq<Event>, u: Id, a: Id, b: Id, credits: int, r: Round)
    requires Stage(run, u, a, b, credits, r)
    ensures Checked(run) && Legal(run) && After(run).feeds.Keys == {u, a, b}
    ensures After(run).feeds[u].user.credits == credits && After(run).feeds[u].user.round == r
  {
  }

  /** Credits and rounds do depend on the interleaving, even when every block passed the check. A second
      endorsement and a new request are appended in either order: the one order pays a reward for the old
      round, in the other the endorsement falls into the new round. */
  lemma {:induction false} InterleavingMatters() returns (run: seq<Event>, other: seq<Event>, u: Id)
    ensures Checked(run) && Legal(run) && Checked(other) && Legal(other) && SameFeeds(run, other)
    ensures u in After(run).feeds && u in After(other).feeds
    ensures After(run).feeds[u].user.credits == 35 && After(other).feeds[u].user.credits == 5
    ensures After(run).feeds[u].user.round.endorsers != After(other).feeds[u].user.round.endorsers
  {
    var start, a, b;
    start, u, a, b := HalfEndorsed();
    hide Stage, CheckedAt;
    var byB, request := Plain(Endorsement, b, 1, [1]), Plain(EndorsementRequest, u, 3600, []);
    run := EndorsedFirst(start, u, a, b, byB, request);
    other := RequestedFirst(start, u, a, b, byB, request);
    StageFacts(run, u, a, b, 35, NewRound(u, 3600));
    StageFacts(other, u, a, b, 5, Round(u, 3600, 1, {b}));
    hide After, Legal, Checked, Blocks;
    forall v
      ensures Blocks(run, v) == Blocks(other, v)
    {
      SwappedBlocks(start, Block(byB), Block(request), v);
    }
    assert b in After(other).feeds[u].user.round.endorsers;
  }

  lemma {:induction false} EndorsedFirst(start: seq<Event>, u: Id, a: Id, b: Id, byB: Metadata, request: Metadata)
    returns (run: seq<Event>)
    requires Stage(start, u, a, b, 5, Round(u, 0, 1, {a})) && u != a && u != b && a != b && u.text == Hex([1])
    requires byB == Plain(Endorsement, b, 1, [1]) && request == Plain(EndorsementRequest, u, 3600, [])
    ensures run == start + [Block(byB)] + [Block(request)] && Stage(run, u, a, b, 35, NewRound(u, 3600))
  {
    hide Stage, CheckedAt;
    var r := Round(u, 0, 1, {a});
    RequestPasses(start, u, a, b, 5, r, request, 3600);
    EndorsementPasses(start, u, a, b, 5, r, byB, 1);
    NextStage(start, u, a, b, 5, r, byB, |start|, 1);
    StillChecked(start, u, request, Block(byB), 3600);
    run := start + [Block(byB)];
    NextStage(run, u, a, b, 35, NewRound(u, -1), request, |start|, 3600);
    run := run + [Block(request)];
  }

  lemma {:induction false} RequestedFirst(start: seq<Event>, u: Id, a: Id, b: Id, byB: Metadata, request: Metadata)
    returns (run: seq<Event>)
    requires Stage(start, u, a, b, 5, Round(u, 0, 1, {a})) && u != a && u != b && a != b && u.text == Hex([1])
    requires byB == Plain(Endorsement, b, 1, [1]) && request == Plain(EndorsementRequest, u, 3600, [])
    ensures run == start + [Block(request)] + [Block(byB)] && Stage(run, u, a, b, 5, Round(u, 3600, 1, {b}))
  {
    hide Stage, CheckedAt;
    RequestPasses(start, u, a, b, 5, Round(u, 0, 1, {a}), request, 3600);
    NextStage(start, u, a, b, 5, Round(u, 0, 1, {a}), request, |start|, 3600);
    run := start + [Block(request)];
    EndorsementPasses(run, u, a, b, 5, NewRound(u, 3600), byB, 1);
    NextStage(run, u, a, b, 5, NewRound(u, 3600), byB, |run|, 1);
    run := run + [Block(byB)];
    assert Stage(run, u, a, b, 5, Round(u, 3600, 1, {b})) by { assert {} + {b} == {b}; }
  }
}
