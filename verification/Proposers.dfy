/** The proposer state machine of one Paxos instance and its proposal IDs. */
module Proposers {
  import opened Common
  import opened PaxosTypes

  const MAX_TRIALS: nat := 10

  /** How the last run ended; a decided run keeps the step, the ID and the value it went through with. */
  datatype Outcome =
    | NotRun
    | Failed
    | Decided(original: PaxosValue, proposed: PaxosValue, step: nat, id: nat, block: Block)

  datatype ProposerState =
    | Idle(outcome: Outcome)
    | Begin(trial: nat, value: PaxosValue)
    | WaitPromise(trial: nat, step: nat, id: nat, original: PaxosValue)
    | WaitAccept(step: nat, id: nat, chosen: PaxosValue, original: PaxosValue)
    | Done(step: nat, id: nat, proposed: PaxosValue, original: PaxosValue)

  /** What a state finds when it runs: the local clock, and the messages its collector returned
      before the timeout, in arrival order. */
  datatype Environment = Environment(step: nat, maxID: nat, collected: seq<Message>)

  datatype Turn = Turn(state: ProposerState, lastID: nat, out: Outgoing)

  /** The system size, the threshold and the proposer's own address. */
  datatype Setting = Setting(peers: nat, threshold: nat, self: nat)

  predicate Fits(ps: ProposerState, env: Environment, threshold: nat) {
    && !ps.Idle?
    && (ps.WaitPromise? ==> |env.collected| <= threshold
                            && forall m :: m in env.collected ==> m.Promise? && m.id == ps.id)
    && (ps.WaitAccept? ==> |env.collected| <= threshold
                           && forall m :: m in env.collected ==> m.Accept? && m.id == ps.id)
    && (ps.Done? ==> forall m :: m in env.collected ==> m.TLC? && m.step == ps.step)
  }

  /** IDs are dealt out round-robin: the node that owns an ID. */
  function Slot(id: nat, peers: nat): nat
    requires id > 0 && peers > 0
  {
    (id - 1) % peers
  }

  /** The ID after the loop that catches up with the clock. */
  function Raised(lastID: nat, maxID: nat, peers: nat): (id: nat)
    requires peers > 0
    ensures id >= maxID && id >= lastID
    ensures lastID >= maxID ==> id == lastID
    ensures id > lastID ==> id < maxID + peers
    decreases maxID - lastID
  {
    if lastID < maxID then Raised(lastID + peers, maxID, peers) else lastID
  }

  /** The value of the last promise that reports one. */
  function LastReport(promises: seq<Message>): Option<PaxosValue>
    requires forall m :: m in promises ==> m.Promise?
  {
    if promises == [] then None
    else
      var last := promises[|promises| - 1];
      if last.acceptedValue.Some? then last.acceptedValue else LastReport(promises[..|promises| - 1])
  }

  /** The ID under which that promise reports it, -1 if there is none. */
  function LastReportID(promises: seq<Message>): int
    requires forall m :: m in promises ==> m.Promise?
  {
    if promises == [] then -1
    else
      var last := promises[|promises| - 1];
      if last.acceptedValue.Some? then last.acceptedID else LastReportID(promises[..|promises| - 1])
  }

  /** The promise that reports last does so under the highest ID of all reports. */
  predicate LastReportHighest(promises: seq<Message>)
    requires forall m :: m in promises ==> m.Promise?
  {
    forall m :: m in promises && m.acceptedValue.Some? ==> m.acceptedID <= LastReportID(promises)
  }

  /** A report under an ID that no other report exceeds. */
  predicate IsTop(promises: seq<Message>, m: Message)
    requires forall p :: p in promises ==> p.Promise?
  {
    && m in promises && m.acceptedValue.Some?
    && forall p :: p in promises && p.acceptedValue.Some? ==> p.acceptedID <= m.acceptedID
  }

  /** If anything is reported, the value of the last report is also that of a top report. */
  ghost predicate TakesTop(promises: seq<Message>)
    requires forall p :: p in promises ==> p.Promise?
  {
    LastReport(promises).Some? ==> exists m :: IsTop(promises, m) && m.acceptedValue == LastReport(promises)
  }

  function ChosenValue(promises: seq<Message>, original: PaxosValue): PaxosValue
    requires forall m :: m in promises ==> m.Promise?
  {
    if LastReport(promises).Some? then LastReport(promises).value else original
  }

  predicate IsAccept(m: Message, chosen: PaxosValue) {
    m.Accept? && m.value.uniqID == chosen.uniqID && !IsReject(m.value)
  }

  predicate IsRejection(m: Message, chosen: PaxosValue) {
    m.Accept? && m.value.uniqID == chosen.uniqID && IsReject(m.value)
  }

  function CountAccepts(ms: seq<Message>, chosen: PaxosValue): nat {
    if ms == [] then 0
    else CountAccepts(ms[..|ms| - 1], chosen) + if IsAccept(ms[|ms| - 1], chosen) then 1 else 0
  }

  function CountRejections(ms: seq<Message>, chosen: PaxosValue): nat {
    if ms == [] then 0
    else CountRejections(ms[..|ms| - 1], chosen) + if IsRejection(ms[|ms| - 1], chosen) then 1 else 0
  }

  function Next(ps: ProposerState, lastID: nat, env: Environment, setting: Setting): Turn
    requires setting.peers > 0 && Fits(ps, env, setting.threshold)
  {
    match ps
    case Begin(trial, value) =>
      if trial > MAX_TRIALS then Turn(Idle(Failed), lastID, Silent)
      else
        var id := Raised(lastID, env.maxID, setting.peers);
        Turn(WaitPromise(trial + 1, env.step, id, value), id + setting.peers,
             Broadcast(Prepare(env.step, id, setting.self)))
    case WaitPromise(trial, step, id, original) =>
      if |env.collected| < setting.threshold then Turn(Begin(trial + 1, original), lastID, Silent)
      else
        var chosen := ChosenValue(env.collected, original);
        Turn(WaitAccept(step, id, chosen, original), lastID, Broadcast(Propose(step, id, setting.self, chosen)))
    case WaitAccept(step, id, chosen, original) =>
      if CountAccepts(env.collected, chosen) < setting.threshold then
        if CountRejections(env.collected, chosen) >= setting.threshold then Turn(Idle(Failed), lastID, Silent)
        else Turn(Begin(0, original), lastID, Silent)
      else Turn(Done(step, id, chosen, original), lastID, Silent)
    case Done(step, id, proposed, original) =>
      if env.collected == [] || original.uniqID != proposed.uniqID then Turn(Begin(0, original), lastID, Silent)
      else Turn(Idle(Decided(original, proposed, step, id, env.collected[0].block)), lastID, Silent)
  }

  /** What Propose returns to its caller: the hash of the decided block, or an error. */
  function ProposeResult(outcome: Outcome): Result<Bytes, string> {
    if outcome.Decided? && outcome.block.value.uniqID != "" then Ok(outcome.block.hash)
    else Err("proposal was rejected at the consensus layer")
  }

  /** A run of the machine against a script of what each state finds; it may stop early. */
  datatype Trace = Trace(state: ProposerState, lastID: nat, sent: seq<Message>)

  predicate FitsScript(ps: ProposerState, lastID: nat, script: seq<Environment>, setting: Setting)
    requires setting.peers > 0
    decreases |script|
  {
    ps.Idle? || script == [] ||
    (Fits(ps, script[0], setting.threshold) &&
     var turn := Next(ps, lastID, script[0], setting);
     FitsScript(turn.state, turn.lastID, script[1..], setting))
  }

  function SentMessages(out: Outgoing): seq<Message> {
    if out.Silent? then [] else [out.msg]
  }

  function Drive(ps: ProposerState, lastID: nat, script: seq<Environment>, setting: Setting): Trace
    requires setting.peers > 0 && FitsScript(ps, lastID, script, setting)
    decreases |script|
  {
    if ps.Idle? || script == [] then Trace(ps, lastID, [])
    else
      var turn := Next(ps, lastID, script[0], setting);
      var rest := Drive(turn.state, turn.lastID, script[1..], setting);
      rest.(sent := SentMessages(turn.out) + rest.sent)
  }

  class Proposer {
    const setting: Setting
    var Current: ProposerState
    var LastProposalID: nat

    constructor (setting: Setting, paxosID: nat)
      ensures this.setting == setting && LastProposalID == paxosID && Current == Idle(NotRun)
    {
      this.setting, LastProposalID, Current := setting, paxosID, Idle(NotRun);
    }

    method NextBegin(env: Environment) returns (next: ProposerState, out: Outgoing)
      requires setting.peers > 0 && Current.Begin?
      modifies `LastProposalID
      ensures Turn(next, LastProposalID, out) == Next(Current, old(LastProposalID), env, setting)
    {
      if Current.trial > MAX_TRIALS {
        return Idle(Failed), Silent;
      }
      while LastProposalID < env.maxID
        invariant Raised(LastProposalID, env.maxID, setting.peers) ==
                  Raised(old(LastProposalID), env.maxID, setting.peers)
      {
        LastProposalID := LastProposalID + setting.peers;
      }
      var proposalID := LastProposalID;
      LastProposalID := LastProposalID + setting.peers;
      return WaitPromise(Current.trial + 1, env.step, proposalID, Current.value),
             Broadcast(Prepare(env.step, proposalID, setting.self));
    }

    /** The selection loop compares against an ID that it never updates. */
    method SelectValue(promises: seq<Message>, original: PaxosValue) returns (chosen: PaxosValue)
      requires forall m :: m in promises ==> m.Promise?
      ensures chosen == ChosenValue(promises, original)
    {
      var alreadyAcceptedValue: Option<PaxosValue> := None;
      var alreadyAcceptedID := -1;
      for i := 0 to |promises|
        invariant alreadyAcceptedID == -1
        invariant alreadyAcceptedValue == LastReport(promises[..i])
      {
        assert promises[..i + 1][..i] == promises[..i];
        if promises[i].acceptedValue == None {
          continue;
        }
        if promises[i].acceptedID > alreadyAcceptedID {
          alreadyAcceptedValue := promises[i].acceptedValue;
        }
      }
      assert promises[..|promises|] == promises;
      chosen := original;
      if alreadyAcceptedValue != None {
        chosen := alreadyAcceptedValue.value;
      }
    }

    method TallyResponses(responses: seq<Message>, chosen: PaxosValue) returns (accepts: nat, receivedRejects: nat)
      requires forall m :: m in responses ==> m.Accept?
      ensures accepts == CountAccepts(responses, chosen) && receivedRejects == CountRejections(responses, chosen)
    {
      accepts, receivedRejects := 0, 0;
      for i := 0 to |responses|
        invariant accepts == CountAccepts(responses[..i], chosen)
        invariant receivedRejects == CountRejections(responses[..i], chosen)
      {
        assert responses[..i + 1][..i] == responses[..i];
        if responses[i].value.uniqID != chosen.uniqID {
          continue;
        }
        if IsReject(responses[i].value) {
          receivedRejects := receivedRejects + 1;
          continue;
        }
        accepts := accepts + 1;
      }
      assert responses[..|responses|] == responses;
    }

    method NextState(env: Environment) returns (next: ProposerState, out: Outgoing)
      requires setting.peers > 0 && Fits(Current, env, setting.threshold)
      modifies `LastProposalID
      ensures Turn(next, LastProposalID, out) == Next(Current, old(LastProposalID), env, setting)
    {
      match Current
      case Begin(_, _) =>
        next, out := NextBegin(env);
      case WaitPromise(trial, step, id, original) =>
        if |env.collected| < setting.threshold {
          return Begin(trial + 1, original), Silent;
        }
        var chosen := SelectValue(env.collected, original);
        return WaitAccept(step, id, chosen, original), Broadcast(Propose(step, id, setting.self, chosen));
      case WaitAccept(step, id, chosen, original) =>
        var accepts, receivedRejects := TallyResponses(env.collected, chosen);
        if accepts < setting.threshold {
          if receivedRejects >= setting.threshold {
            return Idle(Failed), Silent;
          }
          return Begin(0, original), Silent;
        }
        return Done(step, id, chosen, original), Silent;
      case Done(step, id, proposed, original) =>
        if |env.collected| == 0 {
          return Begin(0, original), Silent;
        }
        if original.uniqID != proposed.uniqID {
          return Begin(0, original), Silent;
        }
        return Idle(Decided(original, proposed, step, id, env.collected[0].block)), Silent;
    }

    /** Runs the machine from the given state until it exits or the script is used up. */
    method Run(initialState: ProposerState, script: seq<Environment>) returns (sent: seq<Message>)
      requires setting.peers > 0 && FitsScript(initialState, LastProposalID, script, setting)
      modifies this
      ensures Trace(Current, LastProposalID, sent) == Drive(initialState, old(LastProposalID), script, setting)
    {
      Current := initialState;
      sent := [];
      var i := 0;
      while i < |script| && !Current.Idle?
        invariant 0 <= i <= |script|
        invariant FitsScript(Current, LastProposalID, script[i..], setting)
        invariant var rest := Drive(Current, LastProposalID, script[i..], setting);
                  Drive(initialState, old(LastProposalID), script, setting) == rest.(sent := sent + rest.sent)
      {
        assert script[i..][0] == script[i] && script[i..][1..] == script[i + 1..];
        var next, out := NextState(script[i]);
        Current := next;
        sent := sent + SentMessages(out);
        i := i + 1;
      }
    }

    method UpdateSystemSize(oldSize: nat, newSize: nat) returns (err: Option<string>)
      requires LastProposalID > oldSize ==> oldSize > 0
      modifies `LastProposalID
      ensures err.Some? <==> newSize < oldSize
      ensures err.Some? ==> LastProposalID == old(LastProposalID)
      ensures err.None? ==> LastProposalID == Resized(old(LastProposalID), oldSize, newSize)
    {
      if newSize < oldSize {
        return Some("cannot decrease system size in Paxos");
      }
      if LastProposalID > oldSize {
        var incrementAmount := (LastProposalID - 1) / oldSize;
        var diff := newSize - oldSize;
        LastProposalID := LastProposalID + diff * incrementAmount;
      }
      return None;
    }
  }

  function Resized(lastID: nat, oldSize: nat, newSize: nat): nat
    requires oldSize <= newSize && (lastID > oldSize ==> oldSize > 0)
  {
    if lastID > oldSize then lastID + (newSize - oldSize) * ((lastID - 1) / oldSize) else lastID
  }
}
