/** All feeds that a node keeps in memory, and the checks on new feed blocks. */
module FeedStores {
  import opened Common
  import opened FeedContents
  import opened Feeds
  import opened Reactions
  import opened UserStates

  datatype StoreState = StoreState(
    feeds: map<Id, FeedState>,
    known: set<Id>,
    reactions: ReactionMap,
    metadata: map<Id, Metadata>)

  const EMPTY_STORE: StoreState := StoreState(map[], {}, map[], map[])

  /** A user becomes known and gets an empty feed. */
  function LoadedUser(s: StoreState, userID: Id): StoreState {
    s.(known := s.known + {userID}, feeds := s.feeds[userID := EmptyFeed(userID)])
  }

  function WithFeed(s: StoreState, userID: Id, f: FeedState): StoreState {
    s.(feeds := s.feeds[userID := f])
  }

  /** Metadata with a content ID goes into the metadata store. */
  function Noted(s: StoreState, m: Metadata): StoreState {
    if m.contentID != NO_ID then s.(metadata := s.metadata[m.contentID := m]) else s
  }

  /** The block goes into the metadata store and into its own feed. */
  function Recorded(s: StoreState, userID: Id, m: Metadata, blockHash: Id): StoreState
    requires userID in s.feeds
  {
    WithFeed(Noted(s, m), userID, WithBlock(s.feeds[userID], m, blockHash))
  }

  /** The effect of an undo block on the feeds and reactions, given the content that it refers to. */
  function TakenBack(s: StoreState, userID: Id, m: Metadata, referred: Metadata): StoreState
    requires userID in s.feeds && (referred.kind.Follow? ==> TargetUser(referred) in s.feeds)
  {
    var undone := WithFeed(s, userID, WithUndo(s.feeds[userID], referred));
    match referred.kind
    case Follow =>
      WithFeed(undone, TargetUser(referred), WithoutFollower(undone.feeds[TargetUser(referred)], referred.feedUserID))
    case Reaction => undone.(reactions := WithoutReaction(undone.reactions, referred.refContentID, m.feedUserID))
    case _ => undone
  }

  /** The effect of a recorded block beyond its own feed's contents. */
  function Spread(s: StoreState, userID: Id, m: Metadata, blockHash: Id): StoreState
    requires userID in s.feeds && TargetsLoaded(s, userID, m)
  {
    match m.kind
    case Follow => WithFeed(s, TargetUser(m), WithFollower(s.feeds[TargetUser(m)], m.feedUserID))
    case Endorsement => WithFeed(s, TargetUser(m), WithEndorsement(s.feeds[TargetUser(m)], m))
    case Reaction =>
      if ReactionIn(m).None? then s
      else s.(reactions := WithReaction(s.reactions, Content(m, blockHash), ReactionIn(m).value))
    case Undo =>
      if ReferredHash(m) !in s.feeds[userID].blockHashes then s
      else TakenBack(s, userID, m, s.feeds[userID].blockHashes[ReferredHash(m)].metadata)
    case _ => s
  }

  /** The feeds that a recorded block reaches for are in memory; without them the code dereferences nil. */
  predicate TargetsLoaded(s: StoreState, userID: Id, m: Metadata)
    requires userID in s.feeds
  {
    && (m.kind.Follow? || m.kind.Endorsement? ==> TargetUser(m) in s.feeds)
    && (m.kind.Undo? && ReferredHash(m) in s.feeds[userID].blockHashes ==>
          var referred := s.feeds[userID].blockHashes[ReferredHash(m)].metadata;
          referred.kind.Follow? ==> TargetUser(referred) in s.feeds)
  }

  predicate Appendable(s: StoreState, userID: Id, m: Metadata, blockHash: Id) {
    userID in s.feeds && TargetsLoaded(Recorded(s, userID, m, blockHash), userID, m)
  }

  function WithAppended(s: StoreState, userID: Id, m: Metadata, blockHash: Id): StoreState
    requires Appendable(s, userID, m, blockHash)
  {
    Spread(Recorded(s, userID, m, blockHash), userID, m, blockHash)
  }

  /** The blocks of a stored chain can be appended one after the other. */
  predicate Replayable(s: StoreState, userID: Id, blocks: seq<Content>)
    decreases |blocks|, 0
  {
    blocks == [] ||
    var init, c := blocks[..|blocks| - 1], blocks[|blocks| - 1];
    Replayable(s, userID, init) && Appendable(Replayed(s, userID, init), userID, c.metadata, c.blockHash)
  }

  function Replayed(s: StoreState, userID: Id, blocks: seq<Content>): StoreState
    requires Replayable(s, userID, blocks)
    decreases |blocks|, 1
  {
    if blocks == [] then s
    else
      var init, c := blocks[..|blocks| - 1], blocks[|blocks| - 1];
      WithAppended(Replayed(s, userID, init), userID, c.metadata, c.blockHash)
  }

  lemma {:induction false} ReplayablePart(s: StoreState, userID: Id, blocks: seq<Content>, i: nat)
    requires Replayable(s, userID, blocks) && i <= |blocks|
    ensures Replayable(s, userID, blocks[..i])
  {
    if i < |blocks| {
      ReplayablePart(s, userID, blocks[..|blocks| - 1], i);
      assert blocks[..|blocks| - 1][..i] == blocks[..i];
    } else {
      assert blocks[..i] == blocks;
    }
  }

  lemma {:induction false} ReplayOne(s: StoreState, userID: Id, blocks: seq<Content>, i: nat)
    requires Replayable(s, userID, blocks) && i < |blocks|
    ensures Replayable(s, userID, blocks[..i]) && Replayable(s, userID, blocks[..i + 1])
    ensures Appendable(Replayed(s, userID, blocks[..i]), userID, blocks[i].metadata, blocks[i].blockHash)
    ensures Replayed(s, userID, blocks[..i + 1]) ==
            WithAppended(Replayed(s, userID, blocks[..i]), userID, blocks[i].metadata, blocks[i].blockHash)
  {
    ReplayablePart(s, userID, blocks, i + 1);
    assert blocks[..i + 1][..i] == blocks[..i];
    ReplayablePart(s, userID, blocks, i);
  }

  /** Only reactions, texts, comments and follows can be taken back. */
  predicate Undoable(kind: ContentType) {
    kind.Reaction? || kind.Text? || kind.Comment? || kind.Follow?
  }

  /** The verdict on a new block at a given time: None, or the reason of the rejection. */
  function CheckMetadata(s: StoreState, c: Metadata, now: int64): Option<string>
    requires s.known == s.feeds.Keys
  {
    if c.feedUserID !in s.known then Some("user is not registered")
    else if c.kind.Reaction? && Reacted(s.reactions, c.refContentID, c.feedUserID) then Some("already reacted")
    else
      var proposer := s.feeds[c.feedUserID];
      if Cost(c.kind) > proposer.user.credits then Some("not enough credits")
      else
        match c.kind
        case EndorsementRequest =>
          if proposer.user.credits > ENDORSEMENT_REQUEST_CREDIT_LIMIT then Some("too rich to request endorsements")
          else if !CanRequest(proposer.user.round, c.timestamp) then Some("cannot request endorsements")
          else None
        case Follow =>
          if TargetUser(c) !in s.known then Some("user to follow is not known")
          else if TargetUser(c) in proposer.user.followees then Some("already following user")
          else None
        case Endorsement =>
          if TargetUser(c) !in s.known then Some("user to endorse is not known")
          else if !CanEndorse(s.feeds[TargetUser(c)].user.round, now, c.feedUserID) then Some("cannot endorse the user")
          else None
        case Undo =>
          if ReferredHash(c) !in proposer.blockHashes then Some("nothing to undo")
          else
            var referred := proposer.blockHashes[ReferredHash(c)].metadata;
            if c.feedUserID != referred.feedUserID then Some("cannot undo other people's stuff")
            else if !Undoable(referred.kind) then
              Some("content is not undoable")
            else None
        case _ => None
  }

  /** The proposal checker of a user's feed. */
  predicate AcceptsProposal(s: StoreState, userID: Id, m: Metadata, now: int64)
    requires s.known == s.feeds.Keys
  {
    m.feedUserID == userID && !m.kind.Dummy? && CheckMetadata(s, m, now).None?
  }

  /** The key-value store of metadata by content ID. */
  class MetadataStore {
    var data: map<Id, Metadata>

    constructor ()
      ensures data == map[]
    {
      data := map[];
    }

    method Write(key: Id, value: Metadata)
      modifies this
      ensures data == old(data)[key := value]
    {
      data := data[key := value];
    }
  }

  class FeedStore {
    var feedMap: map<Id, Feed>
    var knownUsers: set<Id>
    const reactionHandler: ReactionHandler
    const metadataStore: MetadataStore
    ghost var Repr: set<object>

    constructor ()
      ensures Holds(EMPTY_STORE) && fresh(Repr)
    {
      feedMap, knownUsers := map[], {};
      reactionHandler := new ReactionHandler();
      metadataStore := new MetadataStore();
      new;
      Repr := {this, reactionHandler, metadataStore};
    }

    /** The feeds share no object with each other or with the rest of the store. */
    ghost predicate Separate()
      reads this
    {
      && {this, reactionHandler, metadataStore} <= Repr
      && (forall u :: u in feedMap ==>
            && feedMap[u].Owned() && feedMap[u].Repr <= Repr
            && this !in feedMap[u].Repr && reactionHandler !in feedMap[u].Repr && metadataStore !in feedMap[u].Repr)
      && (forall u, v :: u in feedMap && v in feedMap && u != v ==> feedMap[u].Repr !! feedMap[v].Repr)
    }

    /** This object's value is s, and it is well-formed. Methods take the value on entry as a ghost parameter. */
    ghost predicate Holds(s: StoreState)
      reads this, Repr
    {
      && Separate()
      && feedMap.Keys == s.feeds.Keys
      && (forall u :: u in feedMap ==> feedMap[u].State() == s.feeds[u])
      && knownUsers == s.known
      && reactionHandler.reactionMap == s.reactions
      && metadataStore.data == s.metadata
    }

    /** Replays the blocks of the user's stored chain into a new feed. */
    method LoadUser(userID: Id, blocks: seq<Content>, ghost s: StoreState)
      requires Holds(s) && Replayable(LoadedUser(s, userID), userID, blocks)
      modifies Repr
      ensures fresh(Repr - old(Repr)) && Holds(Replayed(LoadedUser(s, userID), userID, blocks))
    {
      var feed := new Feed(userID);
      hide Separate, Holds;
      InRepr(s);
      KnowUser(userID, s);
      LoadFeed(userID, feed, s.(known := s.known + {userID}));
      ghost var empty := LoadedUser(s, userID);
      for i := 0 to |blocks|
        invariant fresh(Repr - old(Repr))
        invariant Replayable(empty, userID, blocks[..i]) && Holds(Replayed(empty, userID, blocks[..i]))
      {
        ReplayOne(empty, userID, blocks, i);
        AppendToFeed(userID, blocks[i].metadata, blocks[i].blockHash, Replayed(empty, userID, blocks[..i]));
      }
      assert blocks[..|blocks|] == blocks;
    }

    lemma {:induction false} InRepr(s: StoreState)
      requires Holds(s)
      ensures this in Repr
    {
    }

    method KnowUser(userID: Id, ghost s: StoreState)
      requires Holds(s)
      modifies this`knownUsers
      ensures Holds(s.(known := s.known + {userID}))
    {
      knownUsers := knownUsers + {userID};
    }

    method LoadFeed(userID: Id, feed: Feed, ghost s: StoreState)
      requires Holds(s) && feed.Owned() && feed.Repr !! Repr && feed.State() == EmptyFeed(userID)
      modifies this`feedMap, this`Repr
      ensures Repr == old(Repr) + feed.Repr && Holds(WithFeed(s, userID, EmptyFeed(userID)))
    {
      hide Feed.State, EmptyFeed, Feed.Owned;
      assert forall u :: u in feedMap ==> feedMap[u].Repr !! feed.Repr && feedMap[u].Repr <= Repr;
      feedMap, Repr := feedMap[userID := feed], Repr + feed.Repr;
      assert Separate();
      hide Separate;
    }

    method AppendToFeed(userID: Id, metadata: Metadata, blockHash: Id, ghost s: StoreState)
      requires Holds(s) && Appendable(s, userID, metadata, blockHash)
      modifies Repr
      ensures Repr == old(Repr) && Holds(WithAppended(s, userID, metadata, blockHash))
    {
      hide Separate, Holds, Spread;
      ghost var s1 := Noted(s, metadata);
      if metadata.contentID != NO_ID {
        SaveMetadata(metadata, s);
      }
      var feedContent := AppendOwn(userID, metadata, blockHash, s1);
      ghost var s2 := Recorded(s, userID, metadata, blockHash);
      SpreadBlock(userID, metadata, feedContent, s2);
    }

    /** The part of AppendToFeed after the feed itself took the block. */
    method SpreadBlock(userID: Id, metadata: Metadata, feedContent: Content, ghost s: StoreState)
      requires Holds(s) && userID in s.feeds && TargetsLoaded(s, userID, metadata)
      requires feedContent.metadata == metadata
      modifies Repr
      ensures Repr == old(Repr) && Holds(Spread(s, userID, metadata, feedContent.blockHash))
    {
      hide Separate, Holds;
      if metadata.kind == Follow {
        AddFollowerTo(TargetUser(metadata), metadata.feedUserID, s);
      }
      if metadata.kind == Endorsement {
        Endorse(TargetUser(metadata), metadata, s);
      }
      if metadata.kind == Reaction {
        var reaction := ReactionIn(metadata);
        if reaction == None {
          return;
        }
        SaveReactionOf(feedContent, reaction.value, s);
      }
      if metadata.kind == Undo {
        var referred := Referred(userID, ReferredHash(metadata), s);
        if referred == None {
          return;
        }
        TakeBack(userID, metadata, referred.value, s);
      }
    }

    method TakeBack(userID: Id, metadata: Metadata, referred: Metadata, ghost s: StoreState)
      requires Holds(s) && userID in s.feeds && (referred.kind.Follow? ==> TargetUser(referred) in s.feeds)
      modifies Repr
      ensures Repr == old(Repr) && Holds(TakenBack(s, userID, metadata, referred))
    {
      hide Separate, Holds;
      UndoOwn(userID, referred, s);
      ghost var undone := WithFeed(s, userID, WithUndo(s.feeds[userID], referred));
      if referred.kind == Follow {
        RemoveFollowerFrom(TargetUser(referred), referred.feedUserID, undone);
      }
      if referred.kind == Reaction {
        RemoveReactionOf(referred.refContentID, metadata.feedUserID, undone);
      }
    }

    method SaveMetadata(metadata: Metadata, ghost s: StoreState)
      requires Holds(s)
      modifies Repr
      ensures Repr == old(Repr) && Holds(s.(metadata := s.metadata[metadata.contentID := metadata]))
    {
      metadataStore.Write(metadata.contentID, metadata);
    }

    method SaveReactionOf(content: Content, reaction: int64, ghost s: StoreState)
      requires Holds(s)
      modifies Repr
      ensures Repr == old(Repr) && Holds(s.(reactions := WithReaction(s.reactions, content, reaction)))
    {
      reactionHandler.SaveReaction(content, reaction);
    }

    method RemoveReactionOf(contentID: Id, userID: Id, ghost s: StoreState)
      requires Holds(s)
      modifies Repr
      ensures Repr == old(Repr) && Holds(s.(reactions := WithoutReaction(s.reactions, contentID, userID)))
    {
      reactionHandler.UndoReaction(contentID, userID);
    }

    method AppendOwn(userID: Id, metadata: Metadata, blockHash: Id, ghost s: StoreState) returns (feedContent: Content)
      requires Holds(s) && userID in s.feeds
      modifies Repr
      ensures Repr == old(Repr) && feedContent == Content(metadata, blockHash)
      ensures Holds(WithFeed(s, userID, WithBlock(s.feeds[userID], metadata, blockHash)))
    {
      feedContent := feedMap[userID].Append(metadata, blockHash);
    }

    method AddFollowerTo(userID: Id, followerID: Id, ghost s: StoreState)
      requires Holds(s) && userID in s.feeds
      modifies Repr
      ensures Repr == old(Repr) && Holds(WithFeed(s, userID, WithFollower(s.feeds[userID], followerID)))
    {
      feedMap[userID].AddFollower(followerID);
    }

    method Endorse(userID: Id, endorsement: Metadata, ghost s: StoreState)
      requires Holds(s) && userID in s.feeds
      modifies Repr
      ensures Repr == old(Repr) && Holds(WithFeed(s, userID, WithEndorsement(s.feeds[userID], endorsement)))
    {
      feedMap[userID].ReceiveEndorsement(endorsement);
    }

    method UndoOwn(userID: Id, referred: Metadata, ghost s: StoreState)
      requires Holds(s) && userID in s.feeds
      modifies Repr
      ensures Repr == old(Repr) && Holds(WithFeed(s, userID, WithUndo(s.feeds[userID], referred)))
    {
      feedMap[userID].Undo(referred);
    }

    method RemoveFollowerFrom(userID: Id, followerID: Id, ghost s: StoreState)
      requires Holds(s) && userID in s.feeds
      modifies Repr
      ensures Repr == old(Repr) && Holds(WithFeed(s, userID, WithoutFollower(s.feeds[userID], followerID)))
    {
      feedMap[userID].RemoveFollower(followerID);
    }

    /** The metadata in the block of a feed with the given hash. */
    method Referred(userID: Id, refBlock: Id, ghost s: StoreState) returns (found: Option<Metadata>)
      requires Holds(s) && userID in s.feeds
      ensures var index := s.feeds[userID].blockHashes;
              found == if refBlock in index then Some(index[refBlock].metadata) else None
    {
      var feed := feedMap[userID];
      assert feed.State().blockHashes == s.feeds[userID].blockHashes;
      if refBlock !in feed.blockHashes {
        return None;
      }
      return Some(feed.blockHashes[refBlock].metadata);
    }
  }
}
