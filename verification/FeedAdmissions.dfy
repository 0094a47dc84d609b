/** The check of a new block, read off the blocks alone: for every kind of block, when it passes in a run, and
    what a block that passed is sure to do. */
module FeedAdmissions {
  import opened Common
  import opened FeedContents
  import opened FeedStores
  import opened FeedRuns
  import opened FeedFolds
  import opened FeedIndexes
  import opened FeedCredits
  import opened FeedChecks
  import opened FeedRounds
  import opened Reactions
  import opened UserStates

  predicate HasJoined(run: seq<Event>, u: Id) {
    exists i :: 0 <= i < |run| && run[i] == Joined(u)
  }

  lemma {:induction false} JoinedIff(run: seq<Event>, u: Id)
    ensures u in After(run).feeds <==> HasJoined(run, u)
  {
    if run != [] {
      var init, e := run[..|run| - 1], run[|run| - 1];
      JoinedIff(init, u);
      KeepsUsers(After(init), e);
      hide Step;
      assert forall i :: 0 <= i < |init| ==> init[i] == run[i];
      assert e == run[|init|];
    }
  }

  /** The credits of a user as the blocks tell them. */
  function Balance(run: seq<Event>, u: Id): int {
    15 - Spent(Blocks(run, u)) + 30 * RewardsRead(run, u)
  }

  function Price(kind: ContentType): nat {
    if kind.Text? then 5 else if kind.Comment? then 2 else if kind.Reaction? then 1 else 0
  }

  // Follows and undos among a user's blocks.

  /** Block i follows the target, and no later block takes that back. */
  ghost predicate FollowStands(blocks: seq<Content>, target: Id, i: nat) {
    && i < |blocks| && Follows(blocks[i], target)
    && forall j :: i < j < |blocks| ==> !Unfollows(Fold(blocks[..j]), blocks[j], target)
  }

  lemma {:induction false} FollowStandsMore(init: seq<Content>, c: Content, target: Id, i: nat)
    ensures i < |init| ==> (FollowStands(init + [c], target, i) <==>
                            FollowStands(init, target, i) && !Unfollows(Fold(init), c, target))
    ensures i == |init| ==> (FollowStands(init + [c], target, i) <==> Follows(c, target))
  {
    hide Fold, Unfollows, Follows;
    var blocks := init + [c];
    assert blocks[..|init|] == init && blocks[|init|] == c;
    assert forall j :: 0 <= j < |init| ==> init[j] == blocks[j] && init[..j] == blocks[..j];
  }

  /** The followees are the users whose follow stands. */
  lemma {:induction false} FolloweeIff(blocks: seq<Content>, target: Id)
    ensures target in Fold(blocks).followees <==> exists i: nat :: FollowStands(blocks, target, i)
  {
    if blocks != [] {
      var init, c := blocks[..|blocks| - 1], blocks[|blocks| - 1];
      FolloweeIff(init, target);
      FoldFollowees(Fold(init), c, target);
      assert blocks == init + [c];
      assert Fold(blocks) == FoldBlock(Fold(init), c);
      hide FoldBlock, Unfollows, Follows, Fold;
      forall i: nat
        ensures i < |init| ==> (FollowStands(blocks, target, i) <==>
                                FollowStands(init, target, i) && !Unfollows(Fold(init), c, target))
        ensures i == |init| ==> (FollowStands(blocks, target, i) <==> Follows(c, target))
      {
        FollowStandsMore(init, c, target, i);
      }
      NotBoth(Fold(init), c, target);
      if Follows(c, target) {
        assert FollowStands(blocks, target, |init|);
      }
    }
  }

  lemma {:induction false} NotBoth(k: Core, c: Content, target: Id)
    ensures !(Follows(c, target) && Unfollows(k, c, target))
  {
  }

  /** Block i is the last one with a hash. */
  predicate LastWithHash(blocks: seq<Content>, h: Id, i: nat) {
    i < |blocks| && blocks[i].blockHash == h && forall j :: i < j < |blocks| ==> blocks[j].blockHash != h
  }

  lemma {:induction false} LastWithHashMore(init: seq<Content>, c: Content, h: Id, i: nat)
    ensures i < |init| ==> (LastWithHash(init + [c], h, i) <==> LastWithHash(init, h, i) && c.blockHash != h)
    ensures i == |init| ==> (LastWithHash(init + [c], h, i) <==> c.blockHash == h)
  {
    var blocks := init + [c];
    assert blocks[|init|] == c && forall j :: 0 <= j < |init| ==> init[j] == blocks[j];
  }

  /** An index of blocks by hash knows the last block with the hash. */
  ghost predicate KnowsLast(blocks: seq<Content>, hashes: map<Id, Content>, h: Id) {
    && (h in hashes <==> exists i: nat :: LastWithHash(blocks, h, i))
    && forall i: nat :: LastWithHash(blocks, h, i) ==> h in hashes && hashes[h] == blocks[i]
  }

  lemma {:induction false} KnowsLastMore(init: seq<Content>, c: Content, hashes: map<Id, Content>, h: Id)
    requires KnowsLast(init, hashes, h)
    ensures KnowsLast(init + [c], hashes[c.blockHash := c], h)
  {
    forall i: nat
      ensures i < |init| ==> (LastWithHash(init + [c], h, i) <==> LastWithHash(init, h, i) && c.blockHash != h)
      ensures i == |init| ==> (LastWithHash(init + [c], h, i) <==> c.blockHash == h)
    {
      LastWithHashMore(init, c, h, i);
    }
    assert forall i: nat :: LastWithHash(init + [c], h, i) ==> i <= |init|;
    assert forall i: nat :: LastWithHash(init, h, i) ==> i < |init|;
    hide LastWithHash;
    if c.blockHash == h {
      assert LastWithHash(init + [c], h, |init|);
    }
  }

  /** The hash index of a feed knows the last block with each hash. */
  lemma {:induction false} HashIndexed(blocks: seq<Content>, h: Id)
    ensures KnowsLast(blocks, Fold(blocks).blockHashes, h)
  {
    if blocks != [] {
      var init, c := blocks[..|blocks| - 1], blocks[|blocks| - 1];
      HashIndexed(init, h);
      FoldFollowees(Fold(init), c, h);
      KnowsLastMore(init, c, Fold(init).blockHashes, h);
      hide KnowsLast, FoldBlock;
      assert blocks == init + [c];
    }
  }

  // When a block passes the check.

  /** The round that a user may endorse at a given time: open, and not yet endorsed by this user. */
  predicate MayEndorse(run: seq<Event>, target: Id, who: Id, now: int64) {
    var j := Opening(run, target);
    && j.Some? && run[j.value].block.metadata.timestamp >= 0 && who != target
    && |Endorsers(run, j.value, target)| < 2 && who !in Endorsers(run, j.value, target)
    && Minus64(now, run[j.value].block.metadata.timestamp) < 3600
  }

  /** The user has no round, or the last one is over. */
  predicate MayRequest(run: seq<Event>, u: Id, time: int64) {
    var j := Opening(run, u);
    j.None? || IsOver(run, j.value, u, time)
  }

  ghost predicate ReactionStands(blocks: seq<Content>, contentID: Id) {
    exists i: nat :: Stands(blocks, contentID, i)
  }

  ghost predicate IsFollowing(blocks: seq<Content>, target: Id) {
    exists i: nat :: FollowStands(blocks, target, i)
  }

  /** The last block with the hash is one that can be taken back. */
  ghost predicate HasUndoable(blocks: seq<Content>, h: Id) {
    exists i: nat :: LastWithHash(blocks, h, i) && blocks[i].metadata.kind in {Reaction, Text, Comment, Follow}
  }

  /** What the blocks so far must say for a new block of user u to pass. */
  ghost predicate Admissible(run: seq<Event>, u: Id, m: Metadata, now: int64) {
    && m.feedUserID == u && HasJoined(run, u) && Price(m.kind) <= Balance(run, u)
    && match m.kind
       case Reaction => !ReactionStands(Blocks(run, u), m.refContentID)
       case EndorsementRequest => Balance(run, u) <= 5 && MayRequest(run, u, m.timestamp)
       case Follow => HasJoined(run, TargetUser(m)) && !IsFollowing(Blocks(run, u), TargetUser(m))
       case Endorsement => HasJoined(run, TargetUser(m)) && MayEndorse(run, TargetUser(m), u, now)
       case Undo => HasUndoable(Blocks(run, u), ReferredHash(m))
       case Dummy => false
       case _ => true
  }


  /** The facts about memory that the check of a user's block looks at, as the blocks tell them. */
  lemma {:induction false} MemoryRead(run: seq<Event>, u: Id)
    requires Legal(run)
    ensures After(run).known == After(run).feeds.Keys && (u in After(run).feeds <==> HasJoined(run, u))
    ensures u in After(run).feeds ==>
              var user := After(run).feeds[u].user;
              user.credits == Balance(run, u) && user.round == RoundRead(run, u)
  {
    KnownUsersLoaded(run);
    JoinedIff(run, u);
    if u in After(run).feeds {
      CreditsAccounted(run, u);
      RewardsAreRead(run, u);
      RoundsAreRead(run, u);
    }
  }

  lemma {:induction false} ReactedIff(run: seq<Event>, u: Id, contentID: Id)
    requires Legal(run)
    ensures Reacted(After(run).reactions, contentID, u) <==> ReactionStands(Blocks(run, u), contentID)
  {
    ReactionsAreFold(run, u, contentID);
    EntryIff(Blocks(run, u), contentID);
    hide Legal, After, Blocks, LastReaction, Stands;
  }

  lemma {:induction false} MayRequestIff(run: seq<Event>, u: Id, time: int64)
    ensures CanRequest(RoundRead(run, u), time) <==> MayRequest(run, u, time)
  {
    hide Opening, Endorsers;
  }

  lemma {:induction false} MayEndorseIff(run: seq<Event>, target: Id, who: Id, now: int64)
    ensures CanEndorse(RoundRead(run, target), now, who) <==> MayEndorse(run, target, who, now)
  {
    hide Opening, Endorsers;
  }

  lemma {:induction false} FollowingIff(run: seq<Event>, u: Id, target: Id)
    requires Legal(run) && u in After(run).feeds
    ensures target in After(run).feeds[u].user.followees <==>
            IsFollowing(Blocks(run, u), target)
  {
    MemoryIsFold(run, u);
    FolloweeIff(Blocks(run, u), target);
    hide Legal, After, Blocks, Fold, FollowStands;
    assert CoreOf(After(run).feeds[u]).followees == After(run).feeds[u].user.followees;
  }

  /** What a user may undo: one of the user's own blocks, so nothing of other people is ever referred to. */
  lemma {:induction false} UndoingIff(run: seq<Event>, u: Id, h: Id)
    requires Legal(run) && u in After(run).feeds
    ensures var hashes := After(run).feeds[u].blockHashes;
            (h in hashes && hashes[h].metadata.feedUserID == u && Undoable(hashes[h].metadata.kind)) <==>
            HasUndoable(Blocks(run, u), h)
  {
    MemoryIsFold(run, u);
    HashIndexed(Blocks(run, u), h);
    FollowersAreFollowees(run);
    assert OwnBlocks(After(run), u);
    hide Legal, After, Blocks, Fold, KnowsLast, HasUndoable, Undoable;
    assert CoreOf(After(run).feeds[u]).blockHashes == After(run).feeds[u].blockHashes;
    UndoableKnown(Blocks(run, u), After(run).feeds[u].blockHashes, h);
  }

  lemma {:induction false} UndoableKnown(blocks: seq<Content>, hashes: map<Id, Content>, h: Id)
    requires KnowsLast(blocks, hashes, h)
    ensures (h in hashes && Undoable(hashes[h].metadata.kind)) <==> HasUndoable(blocks, h)
  {
    hide LastWithHash;
  }

  /** The verdict in terms of the memory, by kind of block. */
  predicate Passes(s: StoreState, u: Id, m: Metadata, now: int64)
    requires s.known == s.feeds.Keys
  {
    && m.feedUserID == u && u in s.feeds && Price(m.kind) <= s.feeds[u].user.credits
    && match m.kind
       case Reaction => !Reacted(s.reactions, m.refContentID, u)
       case EndorsementRequest => s.feeds[u].user.credits <= 5 && CanRequest(s.feeds[u].user.round, m.timestamp)
       case Follow => TargetUser(m) in s.feeds && TargetUser(m) !in s.feeds[u].user.followees
       case Endorsement => TargetUser(m) in s.feeds && CanEndorse(s.feeds[TargetUser(m)].user.round, now, u)
       case Undo =>
         var hashes, h := s.feeds[u].blockHashes, ReferredHash(m);
         h in hashes && hashes[h].metadata.feedUserID == u && Undoable(hashes[h].metadata.kind)
       case Dummy => false
       case _ => true
  }

  lemma {:induction false} PassesIff(s: StoreState, u: Id, m: Metadata, now: int64)
    requires s.known == s.feeds.Keys
    ensures AcceptsProposal(s, u, m, now) <==> Passes(s, u, m, now)
  {
    hide CanRequest, CanEndorse, Reacted, Undoable;
  }

  /** In every run a new block passes the check if and only if the blocks so far say so: its user has joined and
      can pay for it, and, by kind, no reaction of the user to that content stands; the user has at most 5
      credits and no round that runs; the followed user has joined and no follow of that user stands; a round of
      the endorsed user runs that this user did not endorse; or the block to undo is one of the user's. */
  lemma {:induction false} AcceptedIff(run: seq<Event>, u: Id, m: Metadata, now: int64)
    requires Legal(run)
    ensures After(run).known == After(run).feeds.Keys
    ensures AcceptsProposal(After(run), u, m, now) <==> Admissible(run, u, m, now)
  {
    MemoryRead(run, u);
    PassesIff(After(run), u, m, now);
    if m.feedUserID == u && u in After(run).feeds {
      AdmissibleIff(run, u, m, now);
    }
    hide Legal, After, AcceptsProposal;
  }

  lemma {:induction false} AdmissibleIff(run: seq<Event>, u: Id, m: Metadata, now: int64)
    requires Legal(run) && After(run).known == After(run).feeds.Keys && u in After(run).feeds && m.feedUserID == u
    ensures Passes(After(run), u, m, now) <==> Admissible(run, u, m, now)
  {
    MemoryRead(run, u);
    match m.kind
    case Reaction => ReactedIff(run, u, m.refContentID);
    case EndorsementRequest => MayRequestIff(run, u, m.timestamp);
    case Follow =>
      MemoryRead(run, TargetUser(m));
      FollowingIff(run, u, TargetUser(m));
    case Endorsement =>
      MemoryRead(run, TargetUser(m));
      MayEndorseIff(run, TargetUser(m), u, now);
    case Undo => UndoingIff(run, u, ReferredHash(m));
    case _ =>
    hide Legal, After, Blocks, HasJoined, Balance, RoundRead, ReactionStands, IsFollowing, HasUndoable, MayRequest,
         MayEndorse, CanRequest, CanEndorse, Reacted, Undoable;
  }

  // What a block that passed does when it is appended.

  lemma {:induction false} PassedStill(run: seq<Event>, u: Id, c: Content) returns (k: nat, now: int64)
    requires Checked(run + [Added(u, c)])
    ensures Legal(run) && Legal(run + [Added(u, c)]) && Fits(After(run), Added(u, c))
    ensures CheckedAt(run, u, c.metadata, k, now) && Legal(run[..k]) && Admissible(run[..k], u, c.metadata, now)
    ensures !c.metadata.kind.Endorsement? && !c.metadata.kind.EndorsementRequest? ==>
              Admissible(run, u, c.metadata, now)
  {
    var e := Added(u, c);
    assert (run + [e])[..|run|] == run && (run + [e])[|run|] == e;
    ChecksSuffice(run + [e]);
    k, now :| CheckedAt(run, u, c.metadata, k, now);
    LegalPart(run, k);
    AcceptedIff(run[..k], u, c.metadata, now);
    hide Admissible, AcceptsProposal;
    if !c.metadata.kind.Endorsement? && !c.metadata.kind.EndorsementRequest? {
      OtherVerdictsStand(run, u, c.metadata, k, now);
      AcceptedIff(run, u, c.metadata, now);
    }
  }

  lemma {:induction false} BlocksWithOne(run: seq<Event>, u: Id, c: Content)
    ensures Blocks(run + [Added(u, c)], u) == Blocks(run, u) + [c]
  {
    assert (run + [Added(u, c)])[..|run|] == run;
  }

  /** In checked runs an appended reaction always becomes the user's entry: none was there before. */
  lemma {:induction false} ReactionCounts(run: seq<Event>, u: Id, c: Content, contentID: Id)
    requires Checked(run + [Added(u, c)]) && Reacts(c, contentID)
    ensures Found(On(After(run).reactions, contentID), u) == None
    ensures Found(On(After(run + [Added(u, c)]).reactions, contentID), u) ==
            Some(ReactionInfo(c, ReactionIn(c.metadata).value))
  {
    var k, now := PassedStill(run, u, c);
    ReactionsAreFold(run, u, contentID);
    ReactionsAreFold(run + [Added(u, c)], u, contentID);
    EntryIff(Blocks(run, u), contentID);
    BlocksWithOne(run, u, c);
    LastReactionAppend(Blocks(run, u), c, contentID);
    assert !ReactionStands(Blocks(run, u), contentID);
    hide After, Legal, Checked, Blocks, LastReaction, Stands, CheckedAt, Fits;
  }

  /** An appended follow always adds a followee and a follower. */
  lemma {:induction false} FollowCounts(run: seq<Event>, u: Id, c: Content)
    requires Checked(run + [Added(u, c)]) && c.metadata.kind.Follow?
    ensures var target, s, s' := TargetUser(c.metadata), After(run), After(run + [Added(u, c)]);
            && u in s.feeds && target !in s.feeds[u].user.followees
            && HasFollowee(s', u, target) && HasFollower(s', target, u)
  {
    var k, now := PassedStill(run, u, c);
    var target := TargetUser(c.metadata);
    MemoryRead(run, u);
    FollowingIff(run, u, target);
    StepFollowees(After(run), u, c, u, target);
    FollowersAreFollowees(run + [Added(u, c)]);
    assert (run + [Added(u, c)])[..|run|] == run;
    assert HasFollowee(After(run + [Added(u, c)]), u, target);
    hide Admissible, Checked, CheckedAt, Legal;
  }

  lemma {:induction false} OpeningSince(run: seq<Event>, u: Id, k: nat)
    requires k <= |run| && forall j :: k <= j < |run| ==> !(run[j].Added? && run[j].userID == u)
    ensures Opening(run, u) == Opening(run[..k], u)
    ensures forall j :: Opening(run, u) == Some(j) ==> Endorsers(run[..k], j, u) <= Endorsers(run, j, u)
  {
    if k == |run| {
      assert run[..k] == run;
    } else {
      var init, e := run[..|run| - 1], run[|run| - 1];
      assert run == init + [e] && init[..k] == run[..k];
      OpeningSince(init, u, k);
      OpeningMore(init, e, u);
      var j := Opening(init, u);
      if j.Some? {
        EndorsersMore(init, e, j.value, u);
      }
      hide Opening, Endorsers;
    }
  }

  /** An appended request always opens a round: what happened since the check can only have ended the last one. */
  lemma {:induction false} RequestCounts(run: seq<Event>, u: Id, c: Content)
    requires Checked(run + [Added(u, c)]) && c.metadata.kind.EndorsementRequest?
    ensures Opening(run + [Added(u, c)], u) == Some(|run|)
  {
    var k, now := PassedStill(run, u, c);
    assert MayRequest(run[..k], u, c.metadata.timestamp);
    hide Admissible, Checked, Legal, After, Fits;
    OpeningSince(run, u, k);
    OpeningMore(run, Added(u, c), u);
    var j := Opening(run, u);
    if j.Some? {
      assert run[..k][j.value] == run[j.value];
      SubsetSize(Endorsers(run[..k], j.value, u), Endorsers(run, j.value, u));
    }
    hide Opening, Endorsers;
  }

  /** What the undone block did is gone: the entry, the follow, or the sight of the content. */
  ghost predicate TakesBack(run: seq<Event>, u: Id, m: Metadata)
    requires u in After(run).feeds
  {
    match m.kind
    case Reaction => Found(On(After(run).reactions, m.refContentID), u) == None
    case Follow => TargetUser(m) !in After(run).feeds[u].user.followees
    case Text => m.contentID in After(run).feeds[u].hidden
    case Comment => m.contentID in After(run).feeds[u].hidden
    case _ => false
  }

  /** What an undo does to the fold of its user's blocks. */
  lemma {:induction false} UndoneFold(blocks: seq<Content>, c: Content, i: nat)
    requires c.metadata.kind.Undo? && c.blockHash != ReferredHash(c.metadata)
    requires LastWithHash(blocks, ReferredHash(c.metadata), i)
    ensures var m := blocks[i].metadata;
            && Fold(blocks + [c]) == Retracted(Indexed(Fold(blocks), c), m)
            && (m.kind.Reaction? ==> LastReaction(blocks + [c], m.refContentID) == None)
  {
    var m := blocks[i].metadata;
    HashIndexed(blocks, ReferredHash(c.metadata));
    assert (blocks + [c])[..|blocks|] == blocks;
    assert ReferredIn(Fold(blocks), c) == Some(m);
    assert Fold(blocks + [c]) == FoldBlock(Fold(blocks), c);
    if m.kind.Reaction? {
      LastReactionAppend(blocks, c, m.refContentID);
    }
    hide Fold, LastReaction, Retracted;
  }

  /** An appended undo always takes back the last block with the hash that it names. */
  lemma {:induction false} UndoCounts(run: seq<Event>, u: Id, c: Content) returns (i: nat)
    requires Checked(run + [Added(u, c)]) && c.metadata.kind.Undo? && c.blockHash != ReferredHash(c.metadata)
    ensures LastWithHash(Blocks(run, u), ReferredHash(c.metadata), i)
    ensures u in After(run + [Added(u, c)]).feeds
    ensures TakesBack(run + [Added(u, c)], u, Blocks(run, u)[i].metadata)
  {
    var k, now := PassedStill(run, u, c);
    var longer := run + [Added(u, c)];
    assert HasUndoable(Blocks(run, u), ReferredHash(c.metadata));
    i :| LastWithHash(Blocks(run, u), ReferredHash(c.metadata), i)
         && Blocks(run, u)[i].metadata.kind in {Reaction, Text, Comment, Follow};
    hide Checked, Admissible, HasUndoable;
    UserStays(run, u, c);
    BlocksWithOne(run, u, c);
    UndoneFold(Blocks(run, u), c, i);
    hide Checked, Admissible, CheckedAt, Fits, Blocks, Fold, LastReaction, After, Legal, HasUndoable, LastWithHash;
    MemoryIsFold(longer, u);
    var m := Blocks(run, u)[i].metadata;
    ReactionsAreFold(longer, u, m.refContentID);
    IsTakenBack(longer, u, Indexed(Fold(Blocks(run, u)), c), m);
  }

  lemma {:induction false} IsTakenBack(run: seq<Event>, u: Id, k: Core, m: Metadata)
    requires u in After(run).feeds && m.kind in {Reaction, Text, Comment, Follow}
    requires CoreOf(After(run).feeds[u]) == Retracted(k, m)
    requires m.kind.Reaction? ==> Found(On(After(run).reactions, m.refContentID), u) == None
    ensures TakesBack(run, u, m)
  {
    hide After;
    assert CoreOf(After(run).feeds[u]).followees == After(run).feeds[u].user.followees;
    assert CoreOf(After(run).feeds[u]).hidden == After(run).feeds[u].hidden;
  }

  lemma {:induction false} UserStays(run: seq<Event>, u: Id, c: Content)
    requires Legal(run) && Fits(After(run), Added(u, c))
    ensures u in After(run + [Added(u, c)]).feeds
  {
    assert (run + [Added(u, c)])[..|run|] == run && (run + [Added(u, c)])[|run|] == Added(u, c);
    KeepsUsers(After(run), Added(u, c));
  }
}
