/** Runs of a feed store: users join with empty chains, and blocks are appended to their feeds in any
    interleaving. A block of a user's feed names that user. */
module FeedRuns {
  import opened FeedContents
  import opened Feeds
  import opened FeedStores
  import opened Reactions

  datatype Event = Joined(userID: Id) | Added(userID: Id, block: Content)

  predicate Fits(s: StoreState, e: Event) {
    match e
    case Joined(u) => u !in s.known
    case Added(u, c) => c.metadata.feedUserID == u && Appendable(s, u, c.metadata, c.blockHash)
  }

  function Step(s: StoreState, e: Event): StoreState {
    match e
    case Joined(u) => LoadedUser(s, u)
    case Added(u, c) =>
      if Appendable(s, u, c.metadata, c.blockHash) then WithAppended(s, u, c.metadata, c.blockHash) else s
  }

  function After(run: seq<Event>): StoreState {
    if run == [] then EMPTY_STORE else Step(After(run[..|run| - 1]), run[|run| - 1])
  }

  predicate Legal(run: seq<Event>) {
    run == [] || (Legal(run[..|run| - 1]) && Fits(After(run[..|run| - 1]), run[|run| - 1]))
  }

  /** The blocks of one user's feed in a run, in order. */
  function Blocks(run: seq<Event>, userID: Id): seq<Content> {
    if run == [] then []
    else
      var e := run[|run| - 1];
      Blocks(run[..|run| - 1], userID) + if e.Added? && e.userID == userID then [e.block] else []
  }

  lemma {:induction false} SpreadKeepsUsers(s: StoreState, u: Id, m: Metadata, h: Id)
    requires u in s.feeds && TargetsLoaded(s, u, m)
    ensures Spread(s, u, m, h).metadata == s.metadata
    ensures Spread(s, u, m, h).feeds.Keys == s.feeds.Keys && Spread(s, u, m, h).known == s.known
  {
    hide WithEndorsement, WithUndo, WithReaction, WithoutReaction;
  }

  lemma {:induction false} KeepsUsers(s: StoreState, e: Event)
    ensures Step(s, e).feeds.Keys == s.feeds.Keys + if e.Joined? then {e.userID} else {}
    ensures Step(s, e).known == s.known + if e.Joined? then {e.userID} else {}
  {
    if e.Added? {
      var u, m, h := e.userID, e.block.metadata, e.block.blockHash;
      hide Spread;
      if Appendable(s, u, m, h) {
        SpreadKeepsUsers(Recorded(s, u, m, h), u, m, h);
      }
    }
  }

  /** The known users are the ones whose feeds are in memory. */
  lemma {:induction false} KnownUsersLoaded(run: seq<Event>)
    ensures After(run).known == After(run).feeds.Keys
  {
    if run != [] {
      KnownUsersLoaded(run[..|run| - 1]);
      KeepsUsers(After(run[..|run| - 1]), run[|run| - 1]);
    }
  }

  lemma {:induction false} OnlyUsersBlocks(run: seq<Event>, u: Id)
    requires Legal(run)
    ensures u !in After(run).feeds ==> Blocks(run, u) == []
    ensures forall i :: 0 <= i < |Blocks(run, u)| ==> Blocks(run, u)[i].metadata.feedUserID == u
  {
    if run != [] {
      OnlyUsersBlocks(run[..|run| - 1], u);
      KeepsUsers(After(run[..|run| - 1]), run[|run| - 1]);
    }
  }

  // The metadata store.

  predicate Carries(e: Event, contentID: Id) {
    e.Added? && e.block.metadata.contentID == contentID && contentID != NO_ID
  }

  lemma {:induction false} StepMetadata(s: StoreState, e: Event)
    requires Fits(s, e)
    ensures Step(s, e).metadata ==
            if e.Added? && e.block.metadata.contentID != NO_ID then
              s.metadata[e.block.metadata.contentID := e.block.metadata]
            else s.metadata
  {
    if e.Added? {
      var u, m, h := e.userID, e.block.metadata, e.block.blockHash;
      SpreadKeepsUsers(Recorded(s, u, m, h), u, m, h);
      hide Spread;
    }
  }

  /** A map holds the content ID exactly when some block carried it, with the metadata of the last such block. */
  ghost predicate HoldsLast(run: seq<Event>, contentID: Id, metadata: map<Id, Metadata>) {
    && (contentID in metadata <==> exists i :: 0 <= i < |run| && Carries(run[i], contentID))
    && forall i :: 0 <= i < |run| && Carries(run[i], contentID)
                   && (forall j :: i < j < |run| ==> !Carries(run[j], contentID))
                   ==> contentID in metadata && metadata[contentID] == run[i].block.metadata
  }

  /** The metadata store holds exactly the content IDs that some block carried, each with the metadata of the
      last such block. */
  lemma {:induction false} MetadataIsLast(run: seq<Event>, contentID: Id)
    requires Legal(run)
    ensures HoldsLast(run, contentID, After(run).metadata)
  {
    if run != [] {
      var init, e := run[..|run| - 1], run[|run| - 1];
      MetadataIsLast(init, contentID);
      StepMetadata(After(init), e);
      var was, now := After(init).metadata, After(run).metadata;
      assert Carries(e, contentID) ==> contentID in now && now[contentID] == e.block.metadata;
      assert !Carries(e, contentID) && contentID in was ==> contentID in now && now[contentID] == was[contentID];
      assert !Carries(e, contentID) && contentID in now ==> contentID in was;
      hide Carries, Step, Fits, Legal, After;
      LastWithOneMore(run, contentID, was, now);
    }
  }

  lemma {:induction false} LastWithOneMore(run: seq<Event>, contentID: Id, was: map<Id, Metadata>,
                                           now: map<Id, Metadata>)
    requires run != [] && HoldsLast(run[..|run| - 1], contentID, was)
    requires var e := run[|run| - 1];
             if Carries(e, contentID) then contentID in now && now[contentID] == e.block.metadata
             else (contentID in now <==> contentID in was) && (contentID in now ==> now[contentID] == was[contentID])
    ensures HoldsLast(run, contentID, now)
  {
    var init, last := run[..|run| - 1], |run| - 1;
    assert forall i :: 0 <= i < |init| ==> init[i] == run[i];
    hide Carries;
    if Carries(run[last], contentID) {
      assert contentID in now;
    } else {
      assert forall i :: 0 <= i < |init| && Carries(run[i], contentID) ==> Carries(init[i], contentID);
    }
  }
}
