/** Feeds in memory against their stored chains: each is the fold of its own blocks, whatever was
    appended to other feeds in between. */
module FeedFolds {
  import opened Common
  import opened PaxosTypes
  import opened BlockStore
  import opened FeedContents
  import opened Feeds
  import opened FeedStores
  import opened FeedRuns
  import opened Reactions
  import opened UserStates

  /** What a feed's own blocks determine. */
  datatype Core = Core(
    contents: seq<Content>,
    blockHashes: map<Id, Content>,
    hidden: set<Id>,
    username: Bytes,
    followees: set<Id>)

  function CoreOf(f: FeedState): Core {
    Core(f.contents, f.blockHashes, f.hidden, f.user.username, f.user.followees)
  }

  function Indexed(k: Core, c: Content): Core {
    k.(contents := k.contents + [c], blockHashes := k.blockHashes[c.blockHash := c])
  }

  function Retracted(k: Core, m: Metadata): Core {
    match m.kind
    case Text => k.(hidden := k.hidden + {m.contentID})
    case Comment => k.(hidden := k.hidden + {m.contentID})
    case Follow => k.(followees := k.followees - {TargetUser(m)})
    case _ => k
  }

  function FoldBlock(k: Core, c: Content): Core {
    var taken := Indexed(k, c);
    match c.metadata.kind
    case Username => taken.(username := c.metadata.data)
    case Follow => taken.(followees := taken.followees + {TargetUser(c.metadata)})
    case Undo =>
      var ref := ReferredHash(c.metadata);
      if ref in taken.blockHashes then Retracted(taken, taken.blockHashes[ref].metadata) else taken
    case _ => taken
  }

  function Fold(blocks: seq<Content>): Core {
    if blocks == [] then Core([], map[], {}, DEFAULT_USERNAME, {})
    else FoldBlock(Fold(blocks[..|blocks| - 1]), blocks[|blocks| - 1])
  }

  lemma {:induction false} RecordedCore(s: StoreState, u: Id, c: Content, v: Id)
    requires u in s.feeds && v in s.feeds
    ensures var s' := Recorded(s, u, c.metadata, c.blockHash);
            var k := CoreOf(s.feeds[v]);
            CoreOf(s'.feeds[v]) ==
            if v != u then k
            else if c.metadata.kind.Username? then Indexed(k, c).(username := c.metadata.data)
            else if c.metadata.kind.Follow? then Indexed(k, c).(followees := k.followees + {TargetUser(c.metadata)})
            else Indexed(k, c)
  {
  }

  lemma {:induction false} TakenBackCore(s: StoreState, u: Id, m: Metadata, referred: Metadata, v: Id)
    requires u in s.feeds && v in s.feeds && (referred.kind.Follow? ==> TargetUser(referred) in s.feeds)
    ensures CoreOf(TakenBack(s, u, m, referred).feeds[v]) ==
            if v == u then Retracted(CoreOf(s.feeds[u]), referred) else CoreOf(s.feeds[v])
  {
    hide WithoutReaction;
  }

  lemma {:induction false} SpreadCore(s: StoreState, u: Id, c: Content, v: Id)
    requires u in s.feeds && v in s.feeds && TargetsLoaded(s, u, c.metadata)
    ensures var s' := Spread(s, u, c.metadata, c.blockHash);
            && s'.feeds.Keys == s.feeds.Keys
            && CoreOf(s'.feeds[v]) ==
               if v == u && c.metadata.kind.Undo? && ReferredHash(c.metadata) in s.feeds[u].blockHashes
               then Retracted(CoreOf(s.feeds[u]), s.feeds[u].blockHashes[ReferredHash(c.metadata)].metadata)
               else CoreOf(s.feeds[v])
  {
    SpreadKeepsUsers(s, u, c.metadata, c.blockHash);
    hide WithReaction, TakenBack, Retracted;
    if c.metadata.kind.Undo? && ReferredHash(c.metadata) in s.feeds[u].blockHashes {
      TakenBackCore(s, u, c.metadata, s.feeds[u].blockHashes[ReferredHash(c.metadata)].metadata, v);
    }
  }

  lemma {:induction false} StepFolds(s: StoreState, e: Event, v: Id)
    requires Fits(s, e) && s.known == s.feeds.Keys && v in Step(s, e).feeds
    ensures CoreOf(Step(s, e).feeds[v]) ==
            if v !in s.feeds then Fold([])
            else if e.Added? && e.userID == v then FoldBlock(CoreOf(s.feeds[v]), e.block) else CoreOf(s.feeds[v])
  {
    KeepsUsers(s, e);
    if e.Added? {
      RecordedCore(s, e.userID, e.block, v);
      SpreadCore(Recorded(s, e.userID, e.block.metadata, e.block.blockHash), e.userID, e.block, v);
    }
  }

  /** In every run each feed in memory is the fold of that user's blocks. */
  lemma {:induction false} MemoryIsFold(run: seq<Event>, u: Id)
    requires Legal(run) && u in After(run).feeds
    ensures CoreOf(After(run).feeds[u]) == Fold(Blocks(run, u))
  {
    if run != [] {
      var init, e := run[..|run| - 1], run[|run| - 1];
      KnownUsersLoaded(init);
      OnlyUsersBlocks(init, u);
      StepFolds(After(init), e, u);
      if u in After(init).feeds {
        MemoryIsFold(init, u);
      }
      assert Blocks(init, u) + [] == Blocks(init, u);
      if e.Added? && e.userID == u {
        assert Blocks(run, u)[..|Blocks(run, u)| - 1] == Blocks(init, u);
      }
    }
  }

  /** Replaying a stored chain, whatever else is in memory, rebuilds the fold of that chain. */
  lemma {:induction false} ReplayIsFold(s: StoreState, u: Id, blocks: seq<Content>)
    requires Replayable(LoadedUser(s, u), u, blocks)
    ensures u in Replayed(LoadedUser(s, u), u, blocks).feeds
    ensures CoreOf(Replayed(LoadedUser(s, u), u, blocks).feeds[u]) == Fold(blocks)
  {
    if blocks != [] {
      var init, c := blocks[..|blocks| - 1], blocks[|blocks| - 1];
      ReplayIsFold(s, u, init);
      var before := Replayed(LoadedUser(s, u), u, init);
      RecordedCore(before, u, c, u);
      SpreadCore(Recorded(before, u, c.metadata, c.blockHash), u, c, u);
      hide Spread, Recorded;
    }
  }

  /** The feed contents in a list of stored blocks. */
  function Contents(chain: seq<Block>, parse: Bytes -> Metadata): seq<Content> {
    if chain == [] then []
    else
      var b := chain[|chain| - 1];
      Contents(chain[..|chain| - 1], parse) + [Content(parse(b.value.customValue), Id(Hex(b.hash)))]
  }

  /** Loading a user's stored chain and folding it gives the feed in memory, when the hashes in the chain
      are distinct and not zero. */
  lemma {:induction false} StoredChainIsFeed(run: seq<Event>, u: Id, chain: seq<Block>, codec: Codec,
                                             parse: Bytes -> Metadata, n: nat)
    requires Legal(run) && u in After(run).feeds
    requires Lossless(codec) && Generated(chain, codec) && Contents(chain, parse) == Blocks(run, u)
    requires NonZeroHashes(chain) && DistinctHashes(chain)
    requires Loaded(StoreOf(chain, codec), codec, n).Some?
    ensures CoreOf(After(run).feeds[u]) == Fold(Contents(Loaded(StoreOf(chain, codec), codec, n).value, parse))
  {
    MemoryIsFold(run, u);
    LoadsChainIff(chain, codec);
    var m :| Loaded(StoreOf(chain, codec), codec, m) == Some(chain);
    var key := Hex(Get(StoreOf(chain, codec), LAST_BLOCK_KEY));
    if key != "" {
      WalkStable(StoreOf(chain, codec), codec, key, m, n);
    }
  }
}
