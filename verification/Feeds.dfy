/** One user's feed in memory. */
module Feeds {
  import opened FeedContents
  import opened Reactions
  import opened UserStates

  datatype FeedState = FeedState(
    userID: Id,
    user: UserInfo,
    contents: seq<Content>,
    blockHashes: map<Id, Content>,
    hidden: set<Id>)

  function EmptyFeed(userID: Id): FeedState {
    FeedState(userID, NewUser(userID), [], map[], {})
  }

  function WithBlock(f: FeedState, m: Metadata, blockHash: Id): FeedState {
    var c := Content(m, blockHash);
    f.(user := Updated(f.user, m), contents := f.contents + [c], blockHashes := f.blockHashes[blockHash := c])
  }

  function WithUndo(f: FeedState, m: Metadata): FeedState {
    f.(user := Undone(f.user, m),
       hidden := if m.kind.Text? || m.kind.Comment? then f.hidden + {m.contentID} else f.hidden)
  }

  function WithEndorsement(f: FeedState, m: Metadata): FeedState {
    var reward := if Completes(f.user.round, m.timestamp, m.feedUserID) then ENDORSEMENT_REWARD else 0;
    f.(user := f.user.(round := Endorsed(f.user.round, m.timestamp, m.feedUserID), credits := f.user.credits + reward))
  }

  function WithFollower(f: FeedState, userID: Id): FeedState {
    f.(user := f.user.(followers := f.user.followers + {userID}))
  }

  function WithoutFollower(f: FeedState, userID: Id): FeedState {
    f.(user := f.user.(followers := f.user.followers - {userID}))
  }

  /** A content as shown to readers: without its ID when the user took it back. */
  function Shown(c: Content, hidden: set<Id>): (shown: Content)
    ensures shown.metadata.contentID !in hidden || shown.metadata.contentID == NO_ID
    ensures c.metadata.contentID !in hidden ==> shown == c
    ensures shown.(metadata := shown.metadata.(contentID := c.metadata.contentID)) == c
  {
    if c.metadata.contentID in hidden then c.(metadata := c.metadata.(contentID := NO_ID)) else c
  }

  class Feed {
    const UserID: Id
    const userState: UserState
    var contents: seq<Content>
    var blockHashes: map<Id, Content>
    var hiddenContentIDs: set<Id>

    /** The objects that belong to this feed. */
    ghost const Repr: set<object>

    constructor (userID: Id)
      ensures Owned() && fresh(Repr) && State() == EmptyFeed(userID)
    {
      UserID, contents, blockHashes, hiddenContentIDs := userID, [], map[], {};
      var u := new UserState(userID);
      userState := u;
      Repr := {this, u, u.Handler};
    }

    ghost predicate Owned() {
      Repr == {this, userState, userState.Handler}
    }

    function State(): FeedState
      reads this, userState, userState.Handler
    {
      FeedState(UserID, userState.State(), contents, blockHashes, hiddenContentIDs)
    }

    method GetContents() returns (shown: seq<Content>)
      ensures |shown| == |contents| && forall i :: 0 <= i < |shown| ==> shown[i] == Shown(contents[i], hiddenContentIDs)
    {
      shown := [];
      for i := 0 to |contents|
        invariant |shown| == i && forall j :: 0 <= j < i ==> shown[j] == Shown(contents[j], hiddenContentIDs)
      {
        var c := contents[i];
        if c.metadata.contentID in hiddenContentIDs {
          c := c.(metadata := c.metadata.(contentID := NO_ID));
        }
        shown := shown + [c];
      }
    }

    method Append(metadata: Metadata, blockHash: Id) returns (c: Content)
      requires Owned()
      modifies Repr
      ensures c == Content(metadata, blockHash)
      ensures State() == WithBlock(old(State()), metadata, blockHash)
    {
      c := Content(metadata, blockHash);
      contents := contents + [c];
      blockHashes := blockHashes[blockHash := c];
      userState.Update(metadata);
    }

    method Undo(metadata: Metadata)
      requires Owned()
      modifies Repr
      ensures State() == WithUndo(old(State()), metadata)
    {
      userState.Undo(metadata);
      if metadata.kind == Text || metadata.kind == Comment {
        hiddenContentIDs := hiddenContentIDs + {metadata.contentID};
      }
    }

    method ReceiveEndorsement(endorsement: Metadata)
      requires Owned()
      modifies Repr
      ensures State() == WithEndorsement(old(State()), endorsement)
    {
      var complete := userState.Handler.ReceiveEndorsement(endorsement.timestamp, endorsement.feedUserID);
      if complete {
        userState.CurrentCredits := userState.CurrentCredits + ENDORSEMENT_REWARD;
      }
    }

    method AddFollower(followerID: Id)
      requires Owned()
      modifies Repr
      ensures State() == WithFollower(old(State()), followerID)
    {
      userState.AddFollower(followerID);
    }

    method RemoveFollower(followerID: Id)
      requires Owned()
      modifies Repr
      ensures State() == WithoutFollower(old(State()), followerID)
    {
      userState.RemoveFollower(followerID);
    }
  }
}
