/** The part of a feed that concerns its user: credits, name, follows, and the endorsement round. */
module UserStates {
  import opened Common
  import opened FeedContents

  const INITIAL_CREDITS: int := 15
  const REQUIRED_ENDORSEMENTS: int := 2
  const ENDORSEMENT_INTERVAL: int := 3600
  const ENDORSEMENT_REWARD: int := 30
  const ENDORSEMENT_REQUEST_CREDIT_LIMIT: int := 5

  /** The ASCII bytes of "Rambo". */
  const DEFAULT_USERNAME: Bytes := [82, 97, 109, 98, 111]

  /** A round is open when the time of its request is not negative. */
  datatype Round = Round(userID: Id, requested: int64, received: int, endorsers: set<Id>)

  datatype UserInfo = UserInfo(
    credits: int,
    username: Bytes,
    followees: set<Id>,
    followers: set<Id>,
    round: Round)

  function NewRound(userID: Id, time: int64): Round {
    Round(userID, time, 0, {})
  }

  function NewUser(userID: Id): UserInfo {
    UserInfo(INITIAL_CREDITS, DEFAULT_USERNAME, {}, {}, NewRound(userID, -1))
  }

  predicate CanRequest(r: Round, time: int64) {
    r.requested < 0 || Minus64(time, r.requested) >= ENDORSEMENT_INTERVAL
  }

  predicate CanEndorse(r: Round, time: int64, endorser: Id) {
    && r.requested >= 0
    && endorser != r.userID
    && endorser !in r.endorsers
    && Minus64(time, r.requested) < ENDORSEMENT_INTERVAL
  }

  function Requested(r: Round, time: int64): Round {
    if CanRequest(r, time) then NewRound(r.userID, time) else r
  }

  predicate Completes(r: Round, time: int64, endorser: Id) {
    CanEndorse(r, time, endorser) && r.received + 1 >= REQUIRED_ENDORSEMENTS
  }

  function Endorsed(r: Round, time: int64, endorser: Id): Round {
    if !CanEndorse(r, time, endorser) then r
    else if Completes(r, time, endorser) then NewRound(r.userID, -1)
    else r.(received := r.received + 1, endorsers := r.endorsers + {endorser})
  }

  /** The effect of a block of the user's own feed. */
  function Updated(u: UserInfo, m: Metadata): UserInfo {
    var paid := u.(credits := u.credits - Cost(m.kind));
    match m.kind
    case Username => paid.(username := m.data)
    case Follow => paid.(followees := paid.followees + {TargetUser(m)})
    case EndorsementRequest => paid.(round := Requested(paid.round, m.timestamp))
    case _ => paid
  }

  /** Undoing gives no credits back. */
  function Undone(u: UserInfo, m: Metadata): UserInfo {
    if m.kind.Follow? then u.(followees := u.followees - {TargetUser(m)}) else u
  }

  class EndorsementHandler {
    const UserID: Id
    var LastRequestedTime: int64
    var ReceivedEndorsements: int
    var EndorsedUsers: set<Id>

    constructor (userID: Id)
      ensures State() == NewRound(userID, -1)
    {
      UserID, LastRequestedTime, ReceivedEndorsements, EndorsedUsers := userID, -1, 0, {};
    }

    function State(): Round
      reads this
    {
      Round(UserID, LastRequestedTime, ReceivedEndorsements, EndorsedUsers)
    }

    method Request(time: int64)
      modifies this
      ensures State() == Requested(old(State()), time)
    {
      if !CanRequest(State(), time) {
        return;
      }
      LastRequestedTime := time;
      ReceivedEndorsements := 0;
      EndorsedUsers := {};
    }

    method Reset()
      modifies this
      ensures State() == NewRound(UserID, -1)
    {
      LastRequestedTime := -1;
      ReceivedEndorsements := 0;
      EndorsedUsers := {};
    }

    method ReceiveEndorsement(currTime: int64, endorserID: Id) returns (complete: bool)
      modifies this
      ensures State() == Endorsed(old(State()), currTime, endorserID)
      ensures complete <==> Completes(old(State()), currTime, endorserID)
    {
      if !CanEndorse(State(), currTime, endorserID) {
        return false;
      }
      EndorsedUsers := EndorsedUsers + {endorserID};
      ReceivedEndorsements := ReceivedEndorsements + 1;
      if ReceivedEndorsements >= REQUIRED_ENDORSEMENTS {
        Reset();
        return true;
      }
      return false;
    }
  }

  class UserState {
    var CurrentCredits: int
    var Name: Bytes
    var Followees: set<Id>
    var Followers: set<Id>
    const Handler: EndorsementHandler

    constructor (userID: Id)
      ensures fresh(Handler) && State() == NewUser(userID)
    {
      CurrentCredits, Name, Followees, Followers := INITIAL_CREDITS, DEFAULT_USERNAME, {}, {};
      Handler := new EndorsementHandler(userID);
    }

    function State(): UserInfo
      reads this, Handler
    {
      UserInfo(CurrentCredits, Name, Followees, Followers, Handler.State())
    }

    method Update(metadata: Metadata)
      modifies this, Handler
      ensures State() == Updated(old(State()), metadata)
    {
      CurrentCredits := CurrentCredits - Cost(metadata.kind);
      if metadata.kind == Username {
        Name := metadata.data;
      }
      if metadata.kind == Follow {
        Followees := Followees + {TargetUser(metadata)};
      }
      if metadata.kind == EndorsementRequest {
        Handler.Request(metadata.timestamp);
      }
    }

    method Undo(metadata: Metadata)
      modifies this
      ensures State() == Undone(old(State()), metadata)
    {
      if metadata.kind == Follow {
        Followees := Followees - {TargetUser(metadata)};
      }
    }

    method AddFollower(userID: Id)
      modifies this
      ensures State() == old(State()).(followers := old(State()).followers + {userID})
    {
      Followers := Followers + {userID};
    }

    method RemoveFollower(userID: Id)
      modifies this
      ensures State() == old(State()).(followers := old(State()).followers - {userID})
    {
      Followers := Followers - {userID};
    }
  }
}
