/** The acceptor handlers: what a node does with a prepare, propose, accept and TLC message. */
module Acceptors {
  import opened Common
  import opened PaxosTypes
  import opened Clocks

  /** The clock, the chain that the blockchain updater extends, and the TLC messages whose "tick" was
      dispatched to the local proposer. */
  datatype AcceptorState = AcceptorState(clock: ClockState, chain: seq<Block>, ticks: seq<Message>)

  datatype Handled = Handled(state: AcceptorState, out: Outgoing)

  function OnPrepare(s: AcceptorState, msg: Message): Handled
    requires msg.Prepare?
  {
    if IgnoresPrepare(s.clock, msg.step, msg.id) then Handled(s, Silent)
    else
      var reported := if s.clock.acceptedValue.Some? then s.clock.acceptedID else 0;
      Handled(s.(clock := s.clock.(maxID := msg.id)),
              Private(msg.source, Promise(msg.step, msg.id, reported, s.clock.acceptedValue)))
  }

  /** The verdict of the proposal checker is an input. */
  function OnPropose(s: AcceptorState, msg: Message, valid: bool): Handled
    requires msg.Propose?
  {
    if IgnoresPropose(s.clock, msg.step, msg.id) then Handled(s, Silent)
    else if !valid then
      Handled(s, Private(msg.source, Accept(msg.step, msg.id, msg.source, msg.value.(customValue := REJECT))))
    else
      Handled(s.(clock := s.clock.(acceptedID := msg.id, acceptedValue := Some(msg.value))),
              Broadcast(Accept(msg.step, msg.id, msg.source, msg.value)))
  }

  /** Whether an accept message is tallied at all. */
  predicate Counts(s: AcceptorState, msg: Message)
    requires msg.Accept?
  {
    !IsReject(msg.value) && !IgnoresPropose(s.clock, msg.step, msg.id)
  }

  /** Whether an accept message makes this node announce a block. */
  predicate Announces(s: AcceptorState, msg: Message, threshold: nat)
    requires msg.Accept?
  {
    && Counts(s, msg)
    && AcceptCount(s.clock, msg.value.uniqID) + 1 >= threshold
    && msg.step !in s.clock.broadcast
  }

  function OnAccept(s: AcceptorState, msg: Message, threshold: nat, hash: HashFn): Handled
    requires msg.Accept?
  {
    if !Counts(s, msg) then Handled(s, Silent)
    else
      var c := WithAcceptance(s.clock, msg.value);
      if !Announces(s, msg, threshold) then Handled(s.(clock := c), Silent)
      else Handled(s.(clock := c.(broadcast := c.broadcast + {msg.step})),
                   Broadcast(TLC(msg.step, GenerateBlock(hash, msg.step, msg.value, s.chain))))
  }

  function OnTLC(s: AcceptorState, msg: Message, threshold: nat): Handled
    requires msg.TLC?
  {
    if msg.step < s.clock.step then Handled(s, Silent)
    else
      var counted := WithTLC(s.clock, msg.step, msg.block);
      var c := CaughtUp(counted, threshold);
      var blocks := NewBlocks(counted, threshold);
      if blocks == [] then Handled(s.(clock := c), Silent)
      else
        var moved := s.(clock := c, chain := s.chain + blocks, ticks := s.ticks + [msg]);
        if msg.step in c.broadcast then Handled(moved, Silent)
        else Handled(moved.(clock := c.(broadcast := c.broadcast + {msg.step})), Broadcast(msg))
  }

  class Acceptor {
    const clock: Clock
    /** The blocks handed to the blockchain updater, oldest first. */
    var Chain: seq<Block>
    /** The TLC messages dispatched under "tick" to the local proposer. */
    var Ticks: seq<Message>

    constructor (clock: Clock)
      ensures this.clock == clock && Chain == [] && Ticks == []
    {
      this.clock, Chain, Ticks := clock, [], [];
    }

    function State(): AcceptorState
      reads this, clock
    {
      AcceptorState(clock.State(), Chain, Ticks)
    }

    method HandlePrepare(msg: Message) returns (out: Outgoing)
      requires msg.Prepare?
      modifies this, clock
      ensures Handled(State(), out) == OnPrepare(old(State()), msg)
    {
      if msg.step != clock.Step || msg.id <= clock.MaxID {
        return Silent;
      }
      clock.UpdateMaxID(msg.id);
      var promise := Promise(msg.step, msg.id, 0, None);
      if clock.AcceptedValue != None {
        promise := promise.(acceptedID := clock.AcceptedID);
        promise := promise.(acceptedValue := clock.AcceptedValue);
      }
      return Private(msg.source, promise);
    }

    method HandlePropose(msg: Message, valid: bool) returns (out: Outgoing)
      requires msg.Propose?
      modifies this, clock
      ensures Handled(State(), out) == OnPropose(old(State()), msg, valid)
    {
      if msg.step != clock.Step || msg.id != clock.MaxID {
        return Silent;
      }
      if !valid {
        var rejected := msg.value.(customValue := REJECT);
        return Private(msg.source, Accept(msg.step, msg.id, msg.source, rejected));
      }
      clock.Accept(msg.id, msg.value);
      return Broadcast(Accept(msg.step, msg.id, msg.source, msg.value));
    }

    method HandleAccept(msg: Message, threshold: nat, hash: HashFn) returns (out: Outgoing)
      requires msg.Accept?
      modifies this, clock
      ensures Handled(State(), out) == OnAccept(old(State()), msg, threshold, hash)
    {
      if IsReject(msg.value) {
        return Silent;
      }
      if msg.step != clock.Step || msg.id != clock.MaxID {
        return Silent;
      }
      var reachedThreshold := clock.NotifyAcceptance(msg.value, threshold);
      if !reachedThreshold || msg.step in clock.TLCBroadcastMap {
        return Silent;
      }
      clock.MarkBroadcasted(msg.step);
      var block := GenerateBlock(hash, msg.step, msg.value, Chain);
      return Broadcast(TLC(msg.step, block));
    }

    method UpdateBlockchain(newBlocks: seq<Block>)
      modifies `Chain
      ensures Chain == old(Chain) + newBlocks
    {
      for i := 0 to |newBlocks|
        invariant Chain == old(Chain) + newBlocks[..i]
      {
        Chain := Chain + [newBlocks[i]];
      }
      assert newBlocks[..|newBlocks|] == newBlocks;
    }

    method HandleTLC(msg: Message, threshold: nat) returns (out: Outgoing)
      requires msg.TLC?
      modifies this, clock
      ensures Handled(State(), out) == OnTLC(old(State()), msg, threshold)
    {
      if msg.step < clock.Step {
        return Silent;
      }
      clock.NotifyTLC(msg.step, msg.block);
      var newBlocks := clock.CatchUp(threshold);
      UpdateBlockchain(newBlocks);
      if |newBlocks| == 0 {
        return Silent;
      }
      out := Silent;
      if msg.step !in clock.TLCBroadcastMap {
        clock.MarkBroadcasted(msg.step);
        out := Broadcast(TLC(msg.step, msg.block));
      }
      Ticks := Ticks + [msg];
    }
  }
}
