/** Values, blocks and messages of the consensus layer. */
module PaxosTypes {
  import opened Common

  datatype PaxosValue = PaxosValue(uniqID: string, filename: string, metahash: string, customValue: Bytes)

  datatype Block = Block(index: nat, hash: Bytes, value: PaxosValue, prevHash: Bytes)

  /** A message source is the index of the sending node. */
  datatype Message =
    | Prepare(step: nat, id: nat, source: nat)
    | Promise(step: nat, id: nat, acceptedID: nat, acceptedValue: Option<PaxosValue>)
    | Propose(step: nat, id: nat, source: nat, value: PaxosValue)
    | Accept(step: nat, id: nat, source: nat, value: PaxosValue)
    | TLC(step: nat, block: Block)

  /** What a handler hands to the gossip layer: nothing, a private message or a broadcast. */
  datatype Outgoing = Silent | Private(to: nat, msg: Message) | Broadcast(msg: Message)

  /** The block hash, an abstract function of the step, the value and the previous hash. */
  type HashFn = (nat, PaxosValue, Bytes) -> Bytes

  /** The ASCII bytes of "reject". */
  const REJECT: Bytes := [114, 101, 106, 101, 99, 116]

  const HASH_LENGTH: nat := 32

  predicate IsReject(v: PaxosValue) {
    v.customValue == REJECT
  }

  /** The hash that the next block of a chain refers to: 32 zero bytes for the first block. */
  function LastHash(chain: seq<Block>): Bytes {
    if chain == [] then Zeros(HASH_LENGTH) else chain[|chain| - 1].hash
  }

  function GenerateBlock(hash: HashFn, step: nat, value: PaxosValue, chain: seq<Block>): Block {
    Block(step, hash(step, value, LastHash(chain)), value, LastHash(chain))
  }
}
