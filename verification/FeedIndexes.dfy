/** The indexes that span feeds: followers against followees, and the reactions to every content. */
module FeedIndexes {
  import opened Common
  import opened FeedContents
  import opened Feeds
  import opened FeedStores
  import opened FeedRuns
  import opened FeedFolds
  import opened Reactions

  /** The block that an undo block refers to, given the fold of the blocks before it. */
  function ReferredIn(k: Core, c: Content): Option<Metadata> {
    if c.metadata.kind.Undo? && ReferredHash(c.metadata) in Indexed(k, c).blockHashes
    then Some(Indexed(k, c).blockHashes[ReferredHash(c.metadata)].metadata) else None
  }

  // Reactions.

  predicate Reacts(c: Content, contentID: Id) {
    c.metadata.kind.Reaction? && ReactionIn(c.metadata).Some? && c.metadata.refContentID == contentID
  }

  predicate Retracts(k: Core, c: Content, contentID: Id) {
    var referred := ReferredIn(k, c);
    referred.Some? && referred.value.kind.Reaction? && referred.value.refContentID == contentID
  }

  /** The entry that a user's own blocks leave for a content: the first reaction since the last undo. */
  function LastReaction(blocks: seq<Content>, contentID: Id): Option<ReactionInfo> {
    if blocks == [] then None
    else
      var init, c := blocks[..|blocks| - 1], blocks[|blocks| - 1];
      var before := LastReaction(init, contentID);
      if Reacts(c, contentID) then
        if before.Some? then before else Some(ReactionInfo(c, ReactionIn(c.metadata).value))
      else if Retracts(Fold(init), c, contentID) then None
      else before
  }

  /** Block i reacts to the content, and no later block takes a reaction to it back. */
  ghost predicate Stands(blocks: seq<Content>, contentID: Id, i: nat) {
    && i < |blocks| && Reacts(blocks[i], contentID)
    && forall j :: i < j < |blocks| ==> !Retracts(Fold(blocks[..j]), blocks[j], contentID)
  }

  lemma {:induction false} StandsWithOneMore(init: seq<Content>, c: Content, contentID: Id, i: nat)
    ensures i < |init| ==> (Stands(init + [c], contentID, i) <==>
                            Stands(init, contentID, i) && !Retracts(Fold(init), c, contentID))
    ensures i == |init| ==> (Stands(init + [c], contentID, i) <==> Reacts(c, contentID))
  {
    hide Fold, Retracts, Reacts;
    var blocks := init + [c];
    assert blocks[..|init|] == init && blocks[|init|] == c;
    assert forall j :: 0 <= j < |init| ==> init[j] == blocks[j] && init[..j] == blocks[..j];
  }

  /** The entry exists exactly when some reaction block stands. */
  lemma {:induction false} EntryIff(blocks: seq<Content>, contentID: Id)
    ensures LastReaction(blocks, contentID).Some? <==> exists i :: Stands(blocks, contentID, i)
  {
    if blocks != [] {
      var init, c := blocks[..|blocks| - 1], blocks[|blocks| - 1];
      EntryIff(init, contentID);
      assert blocks == init + [c];
      forall i: nat
        ensures i < |init| ==> (Stands(blocks, contentID, i) <==>
                                Stands(init, contentID, i) && !Retracts(Fold(init), c, contentID))
        ensures i == |init| ==> (Stands(blocks, contentID, i) <==> Reacts(c, contentID))
      {
        StandsWithOneMore(init, c, contentID, i);
      }
      hide Reacts, Retracts, Fold;
      if Reacts(c, contentID) {
        assert Stands(blocks, contentID, |init|);
      }
    }
  }

  lemma {:induction false} SpreadReactions(s: StoreState, u: Id, c: Content)
    requires u in s.feeds && TargetsLoaded(s, u, c.metadata) && c.metadata.feedUserID == u
    ensures var hashes := s.feeds[u].blockHashes;
            var undone := c.metadata.kind.Undo? && ReferredHash(c.metadata) in hashes;
            Spread(s, u, c.metadata, c.blockHash).reactions ==
            if c.metadata.kind.Reaction? && ReactionIn(c.metadata).Some? then
              WithReaction(s.reactions, c, ReactionIn(c.metadata).value)
            else if undone && hashes[ReferredHash(c.metadata)].metadata.kind.Reaction? then
              WithoutReaction(s.reactions, hashes[ReferredHash(c.metadata)].metadata.refContentID, u)
            else s.reactions
  {
    hide WithReaction, WithoutReaction, WithEndorsement, WithUndo, WithFollower, WithoutFollower;
  }

  lemma {:induction false} StepReactions(s: StoreState, u: Id, c: Content)
    requires Fits(s, Added(u, c))
    ensures var referred := ReferredIn(CoreOf(s.feeds[u]), c);
            Step(s, Added(u, c)).reactions ==
            if c.metadata.kind.Reaction? && ReactionIn(c.metadata).Some? then
              WithReaction(s.reactions, c, ReactionIn(c.metadata).value)
            else if referred.Some? && referred.value.kind.Reaction? then
              WithoutReaction(s.reactions, referred.value.refContentID, u)
            else s.reactions
  {
    var s1 := Recorded(s, u, c.metadata, c.blockHash);
    assert s1.reactions == s.reactions && u in s1.feeds;
    assert s1.feeds[u].blockHashes == Indexed(CoreOf(s.feeds[u]), c).blockHashes;
    hide Recorded, Spread, WithReaction, WithoutReaction, Indexed, CoreOf;
    SpreadReactions(s1, u, c);
  }

  /** Every list holds at most one entry per user, and a user's entry is what that user's blocks leave. */
  lemma {:induction false} ReactionsAreFold(run: seq<Event>, u: Id, contentID: Id)
    requires Legal(run)
    ensures OncePerUser(On(After(run).reactions, contentID))
    ensures Found(On(After(run).reactions, contentID), u) == LastReaction(Blocks(run, u), contentID)
  {
    if run != [] {
      var init, e := run[..|run| - 1], run[|run| - 1];
      ReactionsAreFold(init, u, contentID);
      assert Blocks(init, u) + [] == Blocks(init, u);
      if e.Added? {
        MemoryIsFold(init, e.userID);
        OneMoreReaction(After(init), e.userID, e.block, contentID, u, Blocks(init, u));
        if e.userID == u {
          assert Blocks(run, u)[..|Blocks(run, u)| - 1] == Blocks(init, u);
        }
      }
    }
  }

  lemma {:induction false} LastReactionAppend(blocks: seq<Content>, c: Content, contentID: Id)
    ensures var before := LastReaction(blocks, contentID);
            LastReaction(blocks + [c], contentID) ==
            if Reacts(c, contentID) then
              if before.Some? then before else Some(ReactionInfo(c, ReactionIn(c.metadata).value))
            else if Retracts(Fold(blocks), c, contentID) then None
            else before
  {
    assert (blocks + [c])[..|blocks|] == blocks;
  }

  lemma {:induction false} OneMoreReaction(s: StoreState, author: Id, c: Content, contentID: Id, u: Id,
                                           blocks: seq<Content>)
    requires Fits(s, Added(author, c)) && OncePerUser(On(s.reactions, contentID))
    requires Found(On(s.reactions, contentID), u) == LastReaction(blocks, contentID)
    requires author == u ==> CoreOf(s.feeds[u]) == Fold(blocks)
    ensures var after := On(Step(s, Added(author, c)).reactions, contentID);
            && OncePerUser(after)
            && Found(after, u) == LastReaction(if author == u then blocks + [c] else blocks, contentID)
  {
    StepReactions(s, author, c);
    LastReactionAppend(blocks, c, contentID);
    assert c.metadata.feedUserID == author && author in s.feeds;
    var referred := ReferredIn(CoreOf(s.feeds[author]), c);
    hide Step, On, Fits, WithReaction, WithoutReaction, Found, Fold, OncePerUser, LastReaction, ReferredIn;
    if c.metadata.kind.Reaction? && ReactionIn(c.metadata).Some? {
      SaveKeepsOne(s.reactions, c, ReactionIn(c.metadata).value, contentID, u);
    } else if referred.Some? && referred.value.kind.Reaction? {
      UndoRemovesOne(s.reactions, referred.value.refContentID, author, contentID, u);
    }
  }

  // Follows.

  /** The user that a block takes out of its author's followees, given the fold of the blocks before it. */
  predicate Unfollows(k: Core, c: Content, target: Id) {
    var referred := ReferredIn(k, c);
    referred.Some? && referred.value.kind.Follow? && TargetUser(referred.value) == target
  }

  predicate Follows(c: Content, target: Id) {
    c.metadata.kind.Follow? && TargetUser(c.metadata) == target
  }

  /** All blocks that a feed knows by hash name its user, and the follows among them reach loaded feeds. */
  ghost predicate OwnBlocks(s: StoreState, u: Id)
    requires u in s.feeds
  {
    forall h :: h in s.feeds[u].blockHashes ==>
                  var m := s.feeds[u].blockHashes[h].metadata;
                  m.feedUserID == u && (m.kind.Follow? ==> TargetUser(m) in s.feeds)
  }

  predicate HasFollowee(s: StoreState, v: Id, w: Id) {
    v in s.feeds && w in s.feeds[v].user.followees
  }

  predicate HasFollower(s: StoreState, w: Id, v: Id) {
    w in s.feeds && v in s.feeds[w].user.followers
  }

  ghost predicate FollowsMatch(s: StoreState) {
    && s.known == s.feeds.Keys
    && (forall u :: u in s.feeds ==> OwnBlocks(s, u))
    && (forall v, w :: HasFollowee(s, v, w) <==> HasFollower(s, w, v))
  }

  lemma {:induction false} StepFollowees(s: StoreState, u: Id, c: Content, v: Id, w: Id)
    requires Fits(s, Added(u, c)) && s.known == s.feeds.Keys && v in s.feeds
    ensures v in Step(s, Added(u, c)).feeds && (Follows(c, w) ==> w in s.feeds)
    ensures w in Step(s, Added(u, c)).feeds[v].user.followees <==>
            if v == u && Follows(c, w) then true
            else if v == u && Unfollows(CoreOf(s.feeds[u]), c, w) then false
            else w in s.feeds[v].user.followees
  {
    assert Follows(c, w) ==> w in s.feeds;
    hide Step, Fits;
    StepFolds(s, Added(u, c), v);
    KeepsUsers(s, Added(u, c));
    FoldFollowees(CoreOf(s.feeds[v]), c, w);
    hide FoldBlock, Unfollows, Follows;
    assert CoreOf(Step(s, Added(u, c)).feeds[v]).followees == Step(s, Added(u, c)).feeds[v].user.followees;
  }

  lemma {:induction false} FoldFollowees(k: Core, c: Content, w: Id)
    ensures w in FoldBlock(k, c).followees <==>
            if Follows(c, w) then true else if Unfollows(k, c, w) then false else w in k.followees
    ensures FoldBlock(k, c).blockHashes == k.blockHashes[c.blockHash := c]
  {
  }

  lemma {:induction false} TakenBackFollowers(s: StoreState, u: Id, m: Metadata, referred: Metadata, v: Id, w: Id)
    requires u in s.feeds && w in s.feeds
    requires referred.kind.Follow? ==> TargetUser(referred) in s.feeds && referred.feedUserID == u
    ensures w in TakenBack(s, u, m, referred).feeds
    ensures v in TakenBack(s, u, m, referred).feeds[w].user.followers <==>
            v in s.feeds[w].user.followers && !(v == u && referred.kind.Follow? && TargetUser(referred) == w)
  {
    hide WithoutReaction;
  }

  lemma {:induction false} SpreadFollowers(s: StoreState, u: Id, c: Content, v: Id, w: Id)
    requires u in s.feeds && w in s.feeds && TargetsLoaded(s, u, c.metadata) && c.metadata.feedUserID == u
    requires OwnBlocks(s, u)
    ensures var s', hashes := Spread(s, u, c.metadata, c.blockHash), s.feeds[u].blockHashes;
            var undone := c.metadata.kind.Undo? && ReferredHash(c.metadata) in hashes;
            && w in s'.feeds
            && (v in s'.feeds[w].user.followers <==>
                if v == u && Follows(c, w) then true
                else if v == u && undone && Follows(hashes[ReferredHash(c.metadata)], w) then false
                else v in s.feeds[w].user.followers)
  {
    var hashes := s.feeds[u].blockHashes;
    hide WithReaction, WithEndorsement, TakenBack;
    if c.metadata.kind.Undo? && ReferredHash(c.metadata) in hashes {
      TakenBackFollowers(s, u, c.metadata, hashes[ReferredHash(c.metadata)].metadata, v, w);
    }
  }

  lemma {:induction false} StepFollowers(s: StoreState, u: Id, c: Content, v: Id, w: Id)
    requires Fits(s, Added(u, c)) && w in s.feeds && OwnBlocks(s, u)
    ensures w in Step(s, Added(u, c)).feeds
    ensures v in Step(s, Added(u, c)).feeds[w].user.followers <==>
            if v == u && Follows(c, w) then true
            else if v == u && Unfollows(CoreOf(s.feeds[u]), c, w) then false
            else v in s.feeds[w].user.followers
  {
    var s1 := Recorded(s, u, c.metadata, c.blockHash);
    assert w in s1.feeds && s1.feeds[w].user.followers == s.feeds[w].user.followers;
    assert s1.feeds[u].blockHashes == Indexed(CoreOf(s.feeds[u]), c).blockHashes;
    assert c.metadata.feedUserID == u && TargetsLoaded(s1, u, c.metadata) && s1.feeds.Keys == s.feeds.Keys;
    OwnBlocksWith(s, s1, u, c);
    hide Recorded, Spread, Indexed, CoreOf, OwnBlocks, TargetsLoaded;
    SpreadFollowers(s1, u, c, v, w);
  }

  lemma {:induction false} OwnBlocksWith(s: StoreState, s': StoreState, v: Id, c: Content)
    requires v in s.feeds && OwnBlocks(s, v) && s.feeds.Keys <= s'.feeds.Keys
    requires var was, now := s.feeds[v].blockHashes, s'.feeds[v].blockHashes;
             now == was || (now == was[c.blockHash := c] && c.metadata.feedUserID == v)
    requires c.metadata.kind.Follow? ==> TargetUser(c.metadata) in s.feeds
    ensures OwnBlocks(s', v)
  {
  }

  lemma {:induction false} StepOwnBlocks(s: StoreState, u: Id, c: Content, v: Id)
    requires Fits(s, Added(u, c)) && s.known == s.feeds.Keys && v in s.feeds && OwnBlocks(s, v)
    ensures v in Step(s, Added(u, c)).feeds && OwnBlocks(Step(s, Added(u, c)), v)
  {
    assert c.metadata.feedUserID == u && (c.metadata.kind.Follow? ==> TargetUser(c.metadata) in s.feeds);
    hide Step, Fits, FoldBlock, OwnBlocks;
    StepFolds(s, Added(u, c), v);
    KeepsUsers(s, Added(u, c));
    FoldFollowees(CoreOf(s.feeds[v]), c, u);
    var s' := Step(s, Added(u, c));
    assert s'.feeds[v].blockHashes == CoreOf(s'.feeds[v]).blockHashes;
    OwnBlocksWith(s, s', v, c);
  }

  lemma {:induction false} PairStep(s: StoreState, u: Id, c: Content, v: Id, w: Id)
    requires s.known == s.feeds.Keys && Fits(s, Added(u, c)) && OwnBlocks(s, u)
    requires HasFollowee(s, v, w) <==> HasFollower(s, w, v)
    ensures HasFollowee(Step(s, Added(u, c)), v, w) <==> HasFollower(Step(s, Added(u, c)), w, v)
  {
    KeepsUsers(s, Added(u, c));
    assert u in s.feeds;
    hide Step, Unfollows, Follows, CoreOf, Fits, OwnBlocks;
    if v in s.feeds {
      StepFollowees(s, u, c, v, w);
    }
    if w in s.feeds {
      StepFollowers(s, u, c, v, w);
    }
  }

  lemma {:induction false} FollowsMatchStep(s: StoreState, u: Id, c: Content)
    requires FollowsMatch(s) && Fits(s, Added(u, c))
    ensures FollowsMatch(Step(s, Added(u, c)))
  {
    var s' := Step(s, Added(u, c));
    KeepsUsers(s, Added(u, c));
    assert u in s.feeds;
    hide Step, Fits, OwnBlocks, HasFollowee, HasFollower;
    forall v | v in s.feeds
      ensures OwnBlocks(s', v)
    {
      StepOwnBlocks(s, u, c, v);
    }
    forall v, w
      ensures HasFollowee(s', v, w) <==> HasFollower(s', w, v)
    {
      PairStep(s, u, c, v, w);
    }
  }

  lemma {:induction false} JoinMatch(s: StoreState, u: Id)
    requires FollowsMatch(s) && u !in s.known
    ensures FollowsMatch(LoadedUser(s, u))
  {
    var s' := LoadedUser(s, u);
    forall v, w
      ensures HasFollowee(s', v, w) <==> HasFollower(s', w, v)
    {
      assert HasFollowee(s', v, w) <==> HasFollowee(s, v, w);
      assert HasFollower(s', w, v) <==> HasFollower(s, w, v);
    }
    forall v | v in s'.feeds
      ensures OwnBlocks(s', v)
    {
      assert v != u ==> OwnBlocks(s, v);
    }
  }

  /** In every run w is among the followees of v exactly when v is among the followers of w. */
  lemma {:induction false} FollowersAreFollowees(run: seq<Event>)
    requires Legal(run)
    ensures FollowsMatch(After(run))
  {
    if run != [] {
      var s := After(run[..|run| - 1]);
      FollowersAreFollowees(run[..|run| - 1]);
      hide FollowsMatch;
      match run[|run| - 1]
      case Joined(u) => JoinMatch(s, u);
      case Added(u, c) => FollowsMatchStep(s, u, c);
    }
  }
}
