/** Which reactions every content has. */
module Reactions {
  import opened Common
  import opened FeedContents

  /** A content is a metadata with the hash of the block that carries it. */
  datatype Content = Content(metadata: Metadata, blockHash: Id)

  datatype ReactionInfo = ReactionInfo(content: Content, reaction: int64)

  type ReactionMap = map<Id, seq<ReactionInfo>>

  function On(reactions: ReactionMap, contentID: Id): seq<ReactionInfo> {
    if contentID in reactions then reactions[contentID] else []
  }

  function By(info: ReactionInfo): Id {
    info.content.metadata.feedUserID
  }

  /** The position of a user's first reaction in a list. */
  function FirstBy(list: seq<ReactionInfo>, userID: Id): (i: Option<nat>)
    ensures i.Some? ==> i.value < |list| && By(list[i.value]) == userID
                        && forall j :: 0 <= j < i.value ==> By(list[j]) != userID
    ensures i.None? ==> forall j :: 0 <= j < |list| ==> By(list[j]) != userID
  {
    if list == [] then None
    else if By(list[0]) == userID then Some(0)
    else
      match FirstBy(list[1..], userID)
      case None => None
      case Some(i) => Some(i + 1)
  }

  /** A user's reaction in a list. */
  function Found(list: seq<ReactionInfo>, userID: Id): Option<ReactionInfo> {
    var i := FirstBy(list, userID);
    if i.Some? then Some(list[i.value]) else None
  }

  predicate Reacted(reactions: ReactionMap, contentID: Id, userID: Id) {
    FirstBy(On(reactions, contentID), userID).Some?
  }

  function WithReaction(reactions: ReactionMap, content: Content, reaction: int64): ReactionMap {
    var contentID := content.metadata.refContentID;
    if Reacted(reactions, contentID, content.metadata.feedUserID) then reactions
    else reactions[contentID := On(reactions, contentID) + [ReactionInfo(content, reaction)]]
  }

  function Removed(list: seq<ReactionInfo>, i: nat): seq<ReactionInfo>
    requires i < |list|
  {
    list[..i] + list[i + 1..]
  }

  function WithoutReaction(reactions: ReactionMap, contentID: Id, userID: Id): ReactionMap {
    var list := On(reactions, contentID);
    var i := FirstBy(list, userID);
    if i.None? then reactions else reactions[contentID := Removed(list, i.value)]
  }

  ghost predicate OncePerUser(list: seq<ReactionInfo>) {
    forall i, j :: 0 <= i < j < |list| ==> By(list[i]) != By(list[j])
  }

  /** Saving a reaction keeps one entry per user, and gives an entry only to a user who had none. */
  lemma {:induction false} SaveKeepsOne(reactions: ReactionMap, content: Content, reaction: int64, contentID: Id,
                                        userID: Id)
    requires OncePerUser(On(reactions, contentID))
    ensures var after := WithReaction(reactions, content, reaction);
            && OncePerUser(On(after, contentID))
            && Found(On(after, contentID), userID) ==
               if contentID == content.metadata.refContentID && userID == content.metadata.feedUserID
                  && Found(On(reactions, contentID), userID).None?
               then Some(ReactionInfo(content, reaction)) else Found(On(reactions, contentID), userID)
  {
    var list, info := On(reactions, contentID), ReactionInfo(content, reaction);
    var i, i' := FirstBy(list, userID), FirstBy(list + [info], userID);
    assert i.Some? ==> (list + [info])[i.value] == list[i.value];
    assert (list + [info])[|list|] == info;
    if i'.Some? && i'.value < |list| {
      assert (list + [info])[i'.value] == list[i'.value];
    }
  }

  lemma {:induction false} FoundAt(list: seq<ReactionInfo>, i: nat)
    requires OncePerUser(list) && i < |list|
    ensures Found(list, By(list[i])) == Some(list[i])
  {
    var k := FirstBy(list, By(list[i])).value;
    assert By(list[k]) == By(list[i]);
  }

  lemma {:induction false} RemovedAt(list: seq<ReactionInfo>, k: nat, userID: Id)
    requires OncePerUser(list) && k < |list|
    ensures OncePerUser(Removed(list, k))
    ensures Found(Removed(list, k), userID) == if userID == By(list[k]) then None else Found(list, userID)
  {
    var shorter := Removed(list, k);
    assert forall j :: 0 <= j < |shorter| ==> shorter[j] == list[if j < k then j else j + 1];
    var i, i' := FirstBy(list, userID), FirstBy(shorter, userID);
    if userID != By(list[k]) && i.Some? {
      var j := if i.value < k then i.value else i.value - 1;
      assert shorter[j] == list[i.value];
      FoundAt(shorter, j);
      FoundAt(list, i.value);
    }
  }

  /** Undoing a reaction removes the user's only entry and no other. */
  lemma {:induction false} UndoRemovesOne(reactions: ReactionMap, at: Id, author: Id, contentID: Id, userID: Id)
    requires OncePerUser(On(reactions, contentID))
    ensures var after := WithoutReaction(reactions, at, author);
            && OncePerUser(On(after, contentID))
            && Found(On(after, contentID), userID) ==
               if contentID == at && userID == author then None else Found(On(reactions, contentID), userID)
  {
    var k := FirstBy(On(reactions, at), author);
    hide FirstBy;
    if contentID == at && k.Some? {
      RemovedAt(On(reactions, at), k.value, userID);
    }
  }

  class ReactionHandler {
    var reactionMap: ReactionMap

    constructor ()
      ensures reactionMap == map[]
    {
      reactionMap := map[];
    }

    method AlreadyReacted(contentID: Id, userID: Id) returns (found: bool)
      ensures found <==> Reacted(reactionMap, contentID, userID)
    {
      var list := On(reactionMap, contentID);
      for i := 0 to |list|
        invariant forall j :: 0 <= j < i ==> By(list[j]) != userID
      {
        if By(list[i]) == userID {
          return true;
        }
      }
      return false;
    }

    method SaveReaction(reactionContent: Content, reaction: int64)
      modifies this
      ensures reactionMap == WithReaction(old(reactionMap), reactionContent, reaction)
    {
      var contentID := reactionContent.metadata.refContentID;
      var userID := reactionContent.metadata.feedUserID;
      var reacted := AlreadyReacted(contentID, userID);
      if reacted {
        return;
      }
      if contentID !in reactionMap {
        reactionMap := reactionMap[contentID := []];
      }
      reactionMap := reactionMap[contentID := reactionMap[contentID] + [ReactionInfo(reactionContent, reaction)]];
    }

    method UndoReaction(contentID: Id, userID: Id)
      modifies this
      ensures reactionMap == WithoutReaction(old(reactionMap), contentID, userID)
    {
      if contentID !in reactionMap {
        return;
      }
      var reactions := reactionMap[contentID];
      var indexToRemove := -1;
      for i := 0 to |reactions|
        invariant indexToRemove == -1
        invariant forall j :: 0 <= j < i ==> By(reactions[j]) != userID
      {
        if By(reactions[i]) == userID {
          indexToRemove := i;
          break;
        }
      }
      if indexToRemove < 0 {
        return;
      }
      reactionMap := reactionMap[contentID := reactions[..indexToRemove] + reactions[indexToRemove + 1..]];
    }
  }
}
