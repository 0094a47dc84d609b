/** Check, then append: when the verdict on a block is still the same after other feeds grew in between. */
module FeedVerdicts {
  import opened Common
  import opened BlockStore
  import opened FeedContents
  import opened FeedStores
  import opened FeedRuns
  import opened FeedCredits
  import opened FeedChecks
  import opened Reactions
  import opened UserStates

  function RoundOf(run: seq<Event>, w: Id): Round
    requires w in After(run).feeds
  {
    After(run).feeds[w].user.round
  }

  /** The event is a request of w that opens a new round. */
  predicate Opens(s: StoreState, e: Event, w: Id) {
    && e.Added? && e.userID == w && e.block.metadata.kind.EndorsementRequest?
    && w in s.feeds && CanRequest(s.feeds[w].user.round, e.block.metadata.timestamp)
  }

  ghost predicate NoneOpened(run: seq<Event>, w: Id, p: nat) {
    forall j :: p <= j < |run| ==> !Opens(After(run[..j]), run[j], w)
  }

  /** A round that runs at a given time. */
  predicate RunsAt(r: Round, time: int64) {
    r.requested >= 0 && Minus64(time, r.requested) < ENDORSEMENT_INTERVAL
  }

  // A round between its requests.

  lemma {:induction false} StepRound(s: StoreState, e: Event, w: Id)
    requires Fits(s, e) && s.known == s.feeds.Keys && w in s.feeds && !Opens(s, e, w)
    ensures w in Step(s, e).feeds
    ensures var r, r' := s.feeds[w].user.round, Step(s, e).feeds[w].user.round;
            && (Rewards(s, e, w) ==> r.requested >= 0 && r'.requested < 0)
            && (!Rewards(s, e, w) ==> r'.requested == r.requested)
            && r'.userID == r.userID
            && forall v :: v in r'.endorsers ==> v in r.endorsers || (e.Added? && e.block.metadata.feedUserID == v)
  {
    KeepsUsers(s, e);
    if e.Added? {
      StepUser(s, e.userID, e.block, w);
      hide Step, Fits;
    }
  }

  /** Since position p, where no request of w opened a round: the round is the one of then until a reward
      closes it, and only users whose feed grew joined its endorsers. */
  lemma {:induction false} RoundSince(run: seq<Event>, w: Id, p: nat)
    requires Legal(run) && p <= |run| && w in After(run[..p]).feeds && NoneOpened(run, w, p)
    ensures w in After(run).feeds && RewardCount(run, w) >= RewardCount(run[..p], w)
    ensures RewardCount(run, w) == RewardCount(run[..p], w) ==>
              RoundOf(run, w).requested == RoundOf(run[..p], w).requested
    ensures RewardCount(run, w) > RewardCount(run[..p], w) ==> RoundOf(run, w).requested < 0
    ensures RoundOf(run, w).userID == RoundOf(run[..p], w).userID
  {
    if p == |run| {
      assert run[..p] == run;
    } else {
      var init := run[..|run| - 1];
      assert forall j :: p <= j < |init| ==> init[j] == run[j] && init[..j] == run[..j];
      assert init[..p] == run[..p];
      RoundSince(init, w, p);
      KnownUsersLoaded(init);
      StepRound(After(init), run[|run| - 1], w);
      hide Step, Fits, Rewards, Opens;
    }
  }

  lemma {:induction false} NoNewEndorser(run: seq<Event>, u: Id, w: Id, p: nat)
    requires Legal(run) && p <= |run| && w in After(run[..p]).feeds && u !in RoundOf(run[..p], w).endorsers
    requires forall j :: p <= j < |run| ==> !(run[j].Added? && run[j].userID == u)
    ensures w in After(run).feeds && u !in RoundOf(run, w).endorsers
    ensures RoundOf(run, w).userID == RoundOf(run[..p], w).userID
  {
    if p == |run| {
      assert run[..p] == run;
    } else {
      var init, e := run[..|run| - 1], run[|run| - 1];
      assert init[..p] == run[..p];
      NoNewEndorser(init, u, w, p);
      KnownUsersLoaded(init);
      NoNewEndorserStep(After(init), e, u, w);
      hide Step, Fits;
    }
  }

  lemma {:induction false} NoNewEndorserStep(s: StoreState, e: Event, u: Id, w: Id)
    requires Fits(s, e) && s.known == s.feeds.Keys && w in s.feeds && u !in s.feeds[w].user.round.endorsers
    requires !(e.Added? && e.userID == u)
    ensures w in Step(s, e).feeds && u !in Step(s, e).feeds[w].user.round.endorsers
    ensures Step(s, e).feeds[w].user.round.userID == s.feeds[w].user.round.userID
  {
    KeepsUsers(s, e);
    if e.Added? {
      assert e.block.metadata.feedUserID == e.userID;
      StepUser(s, e.userID, e.block, w);
      hide Step, Fits;
    }
  }

  // Requests.

  lemma {:induction false} OnlyRewardsSince(run: seq<Event>, u: Id, k: nat)
    requires Legal(run) && k <= |run| && u in After(run[..k]).feeds
    requires forall j :: k <= j < |run| ==> !(run[j].Added? && run[j].userID == u)
    ensures u in After(run).feeds
    ensures After(run).feeds[u].user.credits ==
            After(run[..k]).feeds[u].user.credits +
            ENDORSEMENT_REWARD * (RewardCount(run, u) - RewardCount(run[..k], u))
  {
    GainsSince(run, u, k);
    LegalPart(run, k);
    SameBlocksSince(run, u, k);
    CreditsAccounted(run, u);
    CreditsAccounted(run[..k], u);
  }

  /** A request passes the check still if and only if no reward was paid to the user since, which is to say
      that the credits are the same as then. */
  lemma {:induction false} RequestStandsIff(run: seq<Event>, u: Id, m: Metadata, k: nat, now: int64)
    requires Legal(run) && CheckedAt(run, u, m, k, now) && m.kind.EndorsementRequest?
    ensures After(run).known == After(run).feeds.Keys && u in After(run).feeds && u in After(run[..k]).feeds
    ensures AcceptsProposal(After(run), u, m, now) <==> RewardCount(run, u) == RewardCount(run[..k], u)
    ensures AcceptsProposal(After(run), u, m, now) <==>
            After(run).feeds[u].user.credits == After(run[..k]).feeds[u].user.credits
  {
    KnownUsersLoaded(run);
    assert u in After(run[..k]).feeds;
    assert NoneOpened(run, u, k);
    OnlyRewardsSince(run, u, k);
    RoundSince(run, u, k);
    hide After, Legal, RewardCount;
  }

  // Endorsements.

  lemma {:induction false} EndorsementPassesIff(s: StoreState, u: Id, m: Metadata, now: int64)
    requires s.known == s.feeds.Keys && m.kind.Endorsement?
    ensures AcceptsProposal(s, u, m, now) <==>
            && m.feedUserID == u && u in s.feeds && Cost(m.kind) <= s.feeds[u].user.credits
            && TargetUser(m) in s.feeds && CanEndorse(s.feeds[TargetUser(m)].user.round, now, u)
  {
    hide CanEndorse, Cost;
  }

  lemma {:induction false} EndorsementVerdict(run: seq<Event>, u: Id, m: Metadata, k: nat, now: int64)
    requires Legal(run) && CheckedAt(run, u, m, k, now) && m.kind.Endorsement?
    ensures After(run).known == After(run).feeds.Keys
    ensures TargetUser(m) in After(run).feeds && TargetUser(m) in After(run[..k]).feeds
    ensures RunsAt(RoundOf(run[..k], TargetUser(m)), now)
    ensures AcceptsProposal(After(run), u, m, now) <==> RunsAt(RoundOf(run, TargetUser(m)), now)
  {
    KnownUsersLoaded(run);
    EndorsementPassesIff(After(run[..k]), u, m, now);
    EndorsementPassesIff(After(run), u, m, now);
    hide CheckMetadata, Legal;
    GainsSince(run, u, k);
    NoNewEndorser(run, u, TargetUser(m), k);
    hide After;
  }

  /** An endorsement, while no request of the endorsed user opened a new round since the check, passes still
      if and only if no reward was paid to that user since. */
  lemma {:induction false} EndorsementStandsIff(run: seq<Event>, u: Id, m: Metadata, k: nat, now: int64)
    requires Legal(run) && CheckedAt(run, u, m, k, now) && m.kind.Endorsement? && NoneOpened(run, TargetUser(m), k)
    ensures After(run).known == After(run).feeds.Keys
    ensures AcceptsProposal(After(run), u, m, now) <==>
            RewardCount(run, TargetUser(m)) == RewardCount(run[..k], TargetUser(m))
  {
    EndorsementVerdict(run, u, m, k, now);
    RoundSince(run, TargetUser(m), k);
    hide After, Legal, RewardCount, CheckedAt, AcceptsProposal;
  }

  lemma {:induction false} OpenedRound(run: seq<Event>, w: Id, j: nat)
    requires Legal(run) && j < |run| && Opens(After(run[..j]), run[j], w)
    ensures w in After(run[..j + 1]).feeds && RoundOf(run[..j + 1], w).requested == run[j].block.metadata.timestamp
  {
    LegalPart(run, j + 1);
    var part := run[..j + 1];
    assert part[..|part| - 1] == run[..j] && part[j] == run[j];
    StepUser(After(run[..j]), w, run[j].block, w);
    hide Step, Fits;
  }

  /** When event j is the last request of the endorsed user that opened a round since the check, the
      endorsement passes still if and only if that round runs at the time of the check and no reward was
      paid since event j. */
  lemma {:induction false} EndorsementAfterRequestIff(run: seq<Event>, u: Id, m: Metadata, k: nat, now: int64, j: nat)
    requires Legal(run) && CheckedAt(run, u, m, k, now) && m.kind.Endorsement? && k <= j < |run|
    requires Opens(After(run[..j]), run[j], TargetUser(m)) && NoneOpened(run, TargetUser(m), j + 1)
    ensures After(run).known == After(run).feeds.Keys
    ensures var t := run[j].block.metadata.timestamp;
            AcceptsProposal(After(run), u, m, now) <==>
            t >= 0 && Minus64(now, t) < ENDORSEMENT_INTERVAL
            && RewardCount(run, TargetUser(m)) == RewardCount(run[..j + 1], TargetUser(m))
  {
    EndorsementVerdict(run, u, m, k, now);
    OpenedRound(run, TargetUser(m), j);
    RoundSince(run, TargetUser(m), j + 1);
    hide After, Legal, RewardCount, CheckedAt, AcceptsProposal, Opens, NoneOpened;
  }

  // All kinds of blocks.

  /** What must be true of a block that passed the check for it to pass still. */
  predicate StillMeets(run: seq<Event>, u: Id, m: Metadata, k: nat, now: int64)
    requires k <= |run|
  {
    match m.kind
    case EndorsementRequest => RewardCount(run, u) == RewardCount(run[..k], u)
    case Endorsement => TargetUser(m) in After(run).feeds && RunsAt(RoundOf(run, TargetUser(m)), now)
    case _ => true
  }

  /** The verdict on a block of any kind stands if and only if, for a request, the user got no reward since
      the check, and, for an endorsement, a round of the endorsed user runs. No other kind of block can lose
      its verdict: no reaction is doubled, no user followed twice, nothing undone that cannot be. */
  lemma {:induction false} VerdictStandsIff(run: seq<Event>, u: Id, m: Metadata, k: nat, now: int64)
    requires Legal(run) && CheckedAt(run, u, m, k, now)
    ensures After(run).known == After(run).feeds.Keys
    ensures AcceptsProposal(After(run), u, m, now) <==> StillMeets(run, u, m, k, now)
  {
    if m.kind.EndorsementRequest? {
      RequestStandsIff(run, u, m, k, now);
    } else if m.kind.Endorsement? {
      EndorsementVerdict(run, u, m, k, now);
    } else {
      OtherVerdictsStand(run, u, m, k, now);
    }
  }

  // A request whose verdict falls.

  /** A run whose users are u, a and b, and the credits and the round of u at its end. */
  ghost predicate Stage(run: seq<Event>, u: Id, a: Id, b: Id, credits: int, r: Round) {
    && Checked(run) && Legal(run)
    && After(run).known == After(run).feeds.Keys == {u, a, b}
    && After(run).feeds[u].user.credits == credits && After(run).feeds[u].user.round == r
    && forall v :: v in After(run).feeds ==> After(run).feeds[v].user.credits >= 0
  }

  function Plain(kind: ContentType, u: Id, time: int64, target: Bytes): Metadata {
    Metadata(kind, NO_ID, u, NO_ID, time, target, [])
  }

  function Block(m: Metadata): Event {
    Added(m.feedUserID, Content(m, NO_ID))
  }

  lemma {:induction false} StartStage(u: Id, a: Id, b: Id)
    requires u != a && u != b && a != b
    ensures Stage([Joined(u), Joined(a), Joined(b)], u, a, b, INITIAL_CREDITS, NewRound(u, -1))
  {
    var run := [Joined(u), Joined(a), Joined(b)];
    assert run[..2] == [Joined(u), Joined(a)] && run[..2][..1] == [Joined(u)] && run[..2][..1][..0] == [];
    assert After([Joined(u)]) == LoadedUser(EMPTY_STORE, u) && Checked([Joined(u)]);
    assert After(run[..2]) == LoadedUser(After([Joined(u)]), a) && Checked(run[..2]);
    assert After(run) == LoadedUser(After(run[..2]), b) && Checked(run);
    ChecksSuffice(run);
  }

  /** One more block that passed the check at some time before. */
  lemma {:induction false} NextStage(run: seq<Event>, u: Id, a: Id, b: Id, credits: int, r: Round, m: Metadata,
                                     k: nat, now: int64)
    requires Stage(run, u, a, b, credits, r) && CheckedAt(run, m.feedUserID, m, k, now)
    ensures var e := Block(m);
            Stage(run + [e], u, a, b,
                  credits - (if m.feedUserID == u then Cost(m.kind) else 0)
                    + (if Endorses(e, u) && Completes(r, m.timestamp, m.feedUserID) then ENDORSEMENT_REWARD else 0),
                  if m.feedUserID == u && m.kind.EndorsementRequest? then Requested(r, m.timestamp)
                  else if Endorses(e, u) then Endorsed(r, m.timestamp, m.feedUserID)
                  else r)
  {
    var e := Block(m);
    assert (run + [e])[..|run|] == run;
    assert Checked(run + [e]);
    ChecksSuffice(run + [e]);
    NextFacts(run, u, m);
  }

  lemma {:induction false} JustChecked(run: seq<Event>, m: Metadata, now: int64)
    requires After(run).known == After(run).feeds.Keys && AcceptsProposal(After(run), m.feedUserID, m, now)
    ensures CheckedAt(run, m.feedUserID, m, |run|, now)
  {
    assert run[..|run|] == run;
  }

  lemma {:induction false} NextFacts(run: seq<Event>, u: Id, m: Metadata)
    requires Legal(run + [Block(m)]) && u in After(run).feeds
    ensures var s, e := After(run), Block(m);
            && After(run + [e]).feeds.Keys == s.feeds.Keys && After(run + [e]).known == s.known
            && var user, user' := s.feeds[u].user, After(run + [e]).feeds[u].user;
               && user'.credits == user.credits - (if m.feedUserID == u then Cost(m.kind) else 0)
                                   + (if Rewards(s, e, u) then ENDORSEMENT_REWARD else 0)
               && user'.round ==
                  if m.feedUserID == u && m.kind.EndorsementRequest? then Requested(user.round, m.timestamp)
                  else if Endorses(e, u) then Endorsed(user.round, m.timestamp, m.feedUserID)
                  else user.round
  {
    var e := Block(m);
    assert (run + [e])[..|run|] == run && (run + [e])[|run|] == e;
    assert Fits(After(run), e);
    assert After(run + [e]) == Step(After(run), e);
    StepUser(After(run), m.feedUserID, Content(m, NO_ID), u);
    KeepsUsers(After(run), e);
  }

  lemma {:induction false} Poor(u: Id, a: Id, b: Id) returns (run: seq<Event>)
    requires u != a && u != b && a != b
    ensures Stage(run, u, a, b, 5, NewRound(u, 0))
  {
    run := AfterTwoTexts(u, a, b);
    hide Stage;
    var request := Plain(EndorsementRequest, u, 0, []);
    RequestPasses(run, u, a, b, 5, NewRound(u, -1), request, 0);
    NextStage(run, u, a, b, 5, NewRound(u, -1), request, |run|, 0);
    run := run + [Block(request)];
  }

  lemma {:induction false} AfterTwoTexts(u: Id, a: Id, b: Id) returns (run: seq<Event>)
    requires u != a && u != b && a != b
    ensures Stage(run, u, a, b, 5, NewRound(u, -1))
  {
    StartStage(u, a, b);
    run := [Joined(u), Joined(a), Joined(b)];
    hide Stage;
    var text := Plain(Text, u, 0, []);
    TextPasses(run, u, a, b, 15, NewRound(u, -1), text);
    NextStage(run, u, a, b, 15, NewRound(u, -1), text, |run|, 0);
    run := run + [Block(text)];
    TextPasses(run, u, a, b, 10, NewRound(u, -1), text);
    NextStage(run, u, a, b, 10, NewRound(u, -1), text, |run|, 0);
    run := run + [Block(text)];
  }

  lemma {:induction false} TextPasses(run: seq<Event>, u: Id, a: Id, b: Id, credits: int, r: Round, m: Metadata)
    requires Stage(run, u, a, b, credits, r) && m.kind.Text? && m.feedUserID == u && credits >= 5
    ensures CheckedAt(run, u, m, |run|, 0)
  {
    JustChecked(run, m, 0);
  }

  lemma {:induction false} RequestPasses(run: seq<Event>, u: Id, a: Id, b: Id, credits: int, r: Round, m: Metadata,
                                         now: int64)
    requires Stage(run, u, a, b, credits, r) && m.kind.EndorsementRequest? && m.feedUserID == u
    requires CanRequest(r, m.timestamp) && credits <= 5
    ensures CheckedAt(run, u, m, |run|, now)
  {
    JustChecked(run, m, now);
  }

  lemma {:induction false} EndorsementPasses(run: seq<Event>, u: Id, a: Id, b: Id, credits: int, r: Round,
                                             m: Metadata, now: int64)
    requires Stage(run, u, a, b, credits, r) && m.kind.Endorsement? && TargetUser(m) == u && m.feedUserID in {a, b}
    requires CanEndorse(r, now, m.feedUserID)
    ensures CheckedAt(run, m.feedUserID, m, |run|, now)
  {
    JustChecked(run, m, now);
  }

  /** Three users, the first with 5 credits and one endorsement of a round requested at time 0. */
  lemma {:induction false} HalfEndorsed() returns (run: seq<Event>, u: Id, a: Id, b: Id)
    ensures u != a && u != b && a != b && u.text == Hex([1])
    ensures Stage(run, u, a, b, 5, Round(u, 0, 1, {a}))
  {
    u, a, b := Id(Hex([1])), Id(Hex([2])), Id(Hex([3]));
    DifferentUsers();
    run := Poor(u, a, b);
    hide Stage;
    var byA := Plain(Endorsement, a, 1, [1]);
    EndorsementPasses(run, u, a, b, 5, NewRound(u, 0), byA, 1);
    NextStage(run, u, a, b, 5, NewRound(u, 0), byA, |run|, 1);
    run := run + [Block(byA)];
    assert Stage(run, u, a, b, 5, Round(u, 0, 1, {a})) by { assert {} + {a} == {a}; }
  }

  /** A user with 5 credits and one endorsement asks anew when the old round is over; a late second
      endorsement for the old round is appended first, pays the reward, and the request passes no more. */
  lemma {:induction false} RequestVerdictFalls() returns (run: seq<Event>, u: Id, m: Metadata, k: nat, now: int64)
    ensures Checked(run) && Legal(run) && m.kind.EndorsementRequest? && CheckedAt(run, u, m, k, now)
    ensures After(run).known == After(run).feeds.Keys && !AcceptsProposal(After(run), u, m, now)
  {
    var a, b;
    run, u, a, b := HalfEndorsed();
    hide Stage, CheckedAt;
    var r, byB := Round(u, 0, 1, {a}), Plain(Endorsement, b, 1, [1]);
    m, k, now := Plain(EndorsementRequest, u, 3600, []), |run|, 3600;
    RequestPasses(run, u, a, b, 5, r, m, now);
    EndorsementPasses(run, u, a, b, 5, r, byB, 1);
    NextStage(run, u, a, b, 5, r, byB, |run|, 1);
    StillChecked(run, u, m, Block(byB), now);
    run := run + [Block(byB)];
    Rich(run, u, a, b, NewRound(u, -1), m, now);
  }

  lemma {:induction false} DifferentUsers()
    ensures Hex([1]) != Hex([2]) && Hex([1]) != Hex([3]) && Hex([2]) != Hex([3])
  {
    if Hex([1]) == Hex([2]) {
      HexInjective([1], [2]);
    }
    if Hex([1]) == Hex([3]) {
      HexInjective([1], [3]);
    }
    if Hex([2]) == Hex([3]) {
      HexInjective([2], [3]);
    }
  }

  lemma {:induction false} StillChecked(run: seq<Event>, u: Id, m: Metadata, e: Event, now: int64)
    requires CheckedAt(run, u, m, |run|, now) && e.userID != u
    ensures CheckedAt(run + [e], u, m, |run|, now)
  {
    assert run[..|run|] == run == (run + [e])[..|run|];
  }

  lemma {:induction false} Rich(run: seq<Event>, u: Id, a: Id, b: Id, r: Round, m: Metadata, now: int64)
    requires Stage(run, u, a, b, 35, r) && m.kind.EndorsementRequest?
    ensures Checked(run) && Legal(run) && After(run).known == After(run).feeds.Keys
    ensures m.feedUserID == u ==> !AcceptsProposal(After(run), u, m, now)
  {
  }
}
