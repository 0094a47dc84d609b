/** The key-value store behind a blockchain: blocks under the hexadecimal form of their hashes, and the
    hash of the last block under a key of its own. */
module BlockStore {
  import opened Common
  import opened PaxosTypes

  type Entries = map<string, Bytes>

  // Hexadecimal strings.

  function Digit(n: nat): char
    requires n < 16
  {
    if n < 10 then '0' + n as char else 'a' + (n - 10) as char
  }

  function Hex(b: Bytes): (h: string)
    ensures |h| == 2 * |b|
  {
    if b == [] then "" else Hex(b[..|b| - 1]) + [Digit(b[|b| - 1] / 16), Digit(b[|b| - 1] % 16)]
  }

  lemma {:induction false} DigitInjective(m: nat, n: nat)
    requires m < 16 && n < 16 && Digit(m) == Digit(n)
    ensures m == n
  {
  }

  lemma {:induction false} HexInjective(a: Bytes, b: Bytes)
    requires Hex(a) == Hex(b)
    ensures a == b
  {
    if a != [] {
      var n := |a| - 1;
      assert |b| == |a|;
      assert Hex(a[..n]) == Hex(a)[..2 * n] == Hex(b)[..2 * n] == Hex(b[..n]);
      HexInjective(a[..n], b[..n]);
      assert Hex(a)[2 * n] == Hex(b)[2 * n] && Hex(a)[2 * n + 1] == Hex(b)[2 * n + 1];
      hide Digit;
      DigitInjective(a[n] as nat / 16, b[n] as nat / 16);
      DigitInjective(a[n] as nat % 16, b[n] as nat % 16);
      assert a == a[..n] + [a[n]] && b == b[..n] + [b[n]];
    }
  }

  lemma {:induction false} HexOfByte(high: nat, low: nat)
    requires high < 16 && low < 16
    ensures Hex([16 * high + low]) == ["0123456789abcdef"[high], "0123456789abcdef"[low]]
  {
    assert [16 * high + low][..0] == [];
    assert (16 * high + low) / 16 == high && (16 * high + low) % 16 == low;
  }

  /** Two zero digits for each of n bytes. */
  function ZeroDigits(n: nat): string {
    if n == 0 then "" else ZeroDigits(n - 1) + "00"
  }

  /** The key of the last hash, 64 zero digits, is also the hexadecimal form of the hash 0, the end marker. */
  const LAST_BLOCK_KEY: string := ZeroDigits(HASH_LENGTH)

  lemma {:induction false} HexOfMore(b: Bytes)
    ensures Hex(b + [0]) == Hex(b) + "00"
  {
    assert (b + [0])[..|b|] == b;
  }

  lemma {:induction false} HexOfZeros(n: nat)
    ensures Hex(Zeros(n)) == ZeroDigits(n)
  {
    if n > 0 {
      HexOfZeros(n - 1);
      hide Hex;
      HexOfMore(Zeros(n - 1));
    }
  }

  // The marshalling of blocks is a parameter.

  datatype Codec = Codec(marshal: Block -> Bytes, unmarshal: Bytes -> Result<Block, string>)

  /** Marshalled blocks can be read back and are longer than a hash; nothing can be read from no bytes. */
  ghost predicate Lossless(codec: Codec) {
    && (forall b {:trigger codec.marshal(b)} :: codec.unmarshal(codec.marshal(b)) == Ok(b) &&
          |codec.marshal(b)| > HASH_LENGTH)
    && codec.unmarshal([]).Err?
  }

  function Get(data: Entries, key: string): Bytes {
    if key in data then data[key] else []
  }

  /** What the updater leaves in the store. */
  function Appended(data: Entries, codec: Codec, block: Block): Entries {
    data[LAST_BLOCK_KEY := block.hash][Hex(block.hash) := codec.marshal(block)]
  }

  /** The previous hash that the generator puts into the next block. */
  function NextPrevHash(data: Entries, codec: Codec): Bytes {
    var key := Hex(Get(data, LAST_BLOCK_KEY));
    if key !in data then Zeros(HASH_LENGTH)
    else
      match codec.unmarshal(data[key])
      case Ok(last) => last.hash
      case Err(_) => []
  }

  /** The blocks found by walking back from a key, or None when the walk has not ended after n blocks. */
  function Walk(data: Entries, codec: Codec, key: string, n: nat): Option<seq<Block>>
    decreases n
  {
    if key == Hex(Zeros(HASH_LENGTH)) then Some([])
    else
      match codec.unmarshal(Get(data, key))
      case Err(_) => Some([])
      case Ok(b) =>
        if n == 0 then None
        else
          match Walk(data, codec, Hex(b.prevHash), n - 1)
          case None => None
          case Some(before) => Some(before + [b])
  }

  function Loaded(data: Entries, codec: Codec, n: nat): Option<seq<Block>> {
    var key := Hex(Get(data, LAST_BLOCK_KEY));
    if key == "" then Some([]) else Walk(data, codec, key, n)
  }

  class Store {
    var data: Entries

    constructor ()
      ensures data == map[]
    {
      data := map[];
    }

    method Read(key: string) returns (value: Option<Bytes>)
      ensures value == if key in data then Some(data[key]) else None
    {
      if key in data {
        return Some(data[key]);
      }
      return None;
    }

    method Write(key: string, value: Bytes)
      modifies this
      ensures data == old(data)[key := value]
    {
      data := data[key := value];
    }
  }

  method ReadBytes(store: Store, key: string) returns (value: Bytes)
    ensures value == Get(store.data, key)
  {
    var found := store.Read(key);
    return if found.Some? then found.value else [];
  }

  method NewBlock(store: Store, codec: Codec, hash: HashFn, step: nat, value: PaxosValue) returns (block: Block)
    ensures var prevHash := NextPrevHash(store.data, codec);
            block == Block(step, hash(step, value, prevHash), value, prevHash)
  {
    var prevHash := Zeros(HASH_LENGTH);
    var lastBlockHashBytes := ReadBytes(store, LAST_BLOCK_KEY);
    var lastBlockHash := Hex(lastBlockHashBytes);
    var lastBlockBuf := store.Read(lastBlockHash);
    if lastBlockBuf.Some? {
      var lastBlock := codec.unmarshal(lastBlockBuf.value);
      prevHash := if lastBlock.Ok? then lastBlock.value.hash else [];
    }
    block := Block(step, hash(step, value, prevHash), value, prevHash);
  }

  method UpdateBlockchain(store: Store, namingStore: Store, codec: Codec, newBlock: Block, metahashBytes: Bytes)
    requires store != namingStore
    modifies store, namingStore
    ensures store.data == Appended(old(store.data), codec, newBlock)
    ensures namingStore.data == old(namingStore.data)[newBlock.value.filename := metahashBytes]
  {
    store.Write(LAST_BLOCK_KEY, newBlock.hash);
    var newBlockHash := Hex(newBlock.hash);
    store.Write(newBlockHash, codec.marshal(newBlock));
    namingStore.Write(newBlock.value.filename, metahashBytes);
  }

  lemma {:induction false} WalkOnce(data: Entries, codec: Codec, key: string, n: nat, b: Block, after: seq<Block>)
    requires key != Hex(Zeros(HASH_LENGTH))
    requires codec.unmarshal(Get(data, key)) == Ok(b) && Walk(data, codec, key, n).Some?
    ensures n > 0 && Walk(data, codec, Hex(b.prevHash), n - 1).Some?
    ensures Walk(data, codec, key, n).value + after == Walk(data, codec, Hex(b.prevHash), n - 1).value + ([b] + after)
  {
    var before := Walk(data, codec, Hex(b.prevHash), n - 1).value;
    assert (before + [b]) + after == before + ([b] + after);
  }

  lemma {:induction false} WalkEnds(data: Entries, codec: Codec, key: string, n: nat, after: seq<Block>)
    requires key == Hex(Zeros(HASH_LENGTH)) || codec.unmarshal(Get(data, key)).Err?
    ensures Walk(data, codec, key, n) == Some([]) && [] + after == after
  {
  }

  /** Walks back from the last block; the walk must end, here after at most steps blocks. */
  method LoadBlockchain(store: Store, codec: Codec, ghost steps: nat) returns (blocks: seq<Block>)
    requires Loaded(store.data, codec, steps).Some?
    ensures blocks == Loaded(store.data, codec, steps).value
    ensures LAST_BLOCK_KEY !in store.data ==> blocks == []
  {
    hide Walk, Hex, Zeros;
    var lastHash := ReadBytes(store, LAST_BLOCK_KEY);
    var key := Hex(lastHash);
    if key == "" {
      return [];
    }
    var endKey := Hex(Zeros(HASH_LENGTH));
    blocks := [];
    ghost var n: nat := steps;
    while key != endKey
      invariant Walk(store.data, codec, key, n).Some?
      invariant Loaded(store.data, codec, steps).value == Walk(store.data, codec, key, n).value + blocks
      decreases n
    {
      var buf := ReadBytes(store, key);
      var currBlock := codec.unmarshal(buf);
      if currBlock.Err? {
        break;
      }
      WalkOnce(store.data, codec, key, n, currBlock.value, blocks);
      blocks := [currBlock.value] + blocks;
      key := Hex(currBlock.value.prevHash);
      n := n - 1;
    }
    WalkEnds(store.data, codec, key, n, blocks);
  }

  // Chains in the store.

  function StoreOf(chain: seq<Block>, codec: Codec): Entries {
    if chain == [] then map[] else Appended(StoreOf(chain[..|chain| - 1], codec), codec, chain[|chain| - 1])
  }

  /** Every block was made by the generator from the store as it was then; hashes have 32 bytes. */
  ghost predicate Generated(chain: seq<Block>, codec: Codec) {
    chain == [] ||
    (&& Generated(chain[..|chain| - 1], codec)
     && |chain[|chain| - 1].hash| == HASH_LENGTH
     && chain[|chain| - 1].prevHash == NextPrevHash(StoreOf(chain[..|chain| - 1], codec), codec))
  }

  ghost predicate NonZeroHashes(chain: seq<Block>) {
    forall i :: 0 <= i < |chain| ==> chain[i].hash != Zeros(HASH_LENGTH)
  }

  ghost predicate DistinctHashes(chain: seq<Block>) {
    forall i, j :: 0 <= i < j < |chain| ==> chain[i].hash != chain[j].hash
  }

  /** The last hash in the store, and what is stored under the other keys. */
  lemma {:induction false} StoredUnder(chain: seq<Block>, codec: Codec, key: string)
    requires Generated(chain, codec)
    ensures key in StoreOf(chain, codec) ==> |key| == 2 * HASH_LENGTH
    ensures key != LAST_BLOCK_KEY && key in StoreOf(chain, codec) ==>
              exists i :: 0 <= i < |chain| && Hex(chain[i].hash) == key &&
                          StoreOf(chain, codec)[key] == codec.marshal(chain[i])
  {
    HexOfZeros(HASH_LENGTH);
    if chain != [] {
      var init := chain[..|chain| - 1];
      StoredUnder(init, codec, key);
      if key != LAST_BLOCK_KEY && key in StoreOf(chain, codec) {
        if key == Hex(chain[|chain| - 1].hash) {
          assert StoreOf(chain, codec)[key] == codec.marshal(chain[|chain| - 1]);
        } else {
          var i :| 0 <= i < |init| && Hex(init[i].hash) == key && StoreOf(init, codec)[key] == codec.marshal(init[i]);
          assert chain[i] == init[i];
        }
      }
    }
  }

  /** The generator reads the hash of the last block, or the zero hash when that block has it. */
  lemma {:induction false} LastStored(chain: seq<Block>, codec: Codec)
    requires Lossless(codec) && Generated(chain, codec)
    ensures NextPrevHash(StoreOf(chain, codec), codec) == LastHash(chain)
    ensures chain != [] && chain[|chain| - 1].hash != Zeros(HASH_LENGTH) ==>
              Get(StoreOf(chain, codec), LAST_BLOCK_KEY) == chain[|chain| - 1].hash
    ensures chain != [] && chain[|chain| - 1].hash == Zeros(HASH_LENGTH) ==>
              Get(StoreOf(chain, codec), LAST_BLOCK_KEY) == codec.marshal(chain[|chain| - 1])
  {
    HexOfZeros(HASH_LENGTH);
    if chain != [] {
      var last, data := chain[|chain| - 1], StoreOf(chain, codec);
      if last.hash == Zeros(HASH_LENGTH) {
        StoredUnder(chain, codec, Hex(codec.marshal(last)));
      } else {
        if Hex(last.hash) == LAST_BLOCK_KEY {
          HexInjective(last.hash, Zeros(HASH_LENGTH));
        }
        assert codec.unmarshal(codec.marshal(last)) == Ok(last);
      }
    }
  }

  /** The generator that reads the store makes the block that follows the chain. */
  lemma {:induction false} GeneratorFollowsChain(chain: seq<Block>, codec: Codec, hash: HashFn, step: nat,
                                                 value: PaxosValue)
    requires Lossless(codec) && Generated(chain, codec)
    ensures var prevHash := NextPrevHash(StoreOf(chain, codec), codec);
            Block(step, hash(step, value, prevHash), value, prevHash) == GenerateBlock(hash, step, value, chain)
  {
    LastStored(chain, codec);
  }

  /** The generator on a store whose last block cannot be read leaves the previous hash empty, so that nothing
      before the new block is ever loaded again. */
  lemma {:induction false} UnreadableLastCutsChain(data: Entries, codec: Codec, hash: HashFn, step: nat,
                                                   value: PaxosValue, n: nat)
    requires Lossless(codec) && n > 0 && "" !in data
    requires var key := Hex(Get(data, LAST_BLOCK_KEY)); key in data && codec.unmarshal(data[key]).Err?
    ensures var prevHash := NextPrevHash(data, codec);
            var block := Block(step, hash(step, value, prevHash), value, prevHash);
            && prevHash == []
            && (|block.hash| == HASH_LENGTH && block.hash != Zeros(HASH_LENGTH) ==>
                  Loaded(Appended(data, codec, block), codec, n) == Some([block]))
  {
    var block := Block(step, hash(step, value, []), value, []);
    if |block.hash| == HASH_LENGTH && block.hash != Zeros(HASH_LENGTH) {
      LoadsOnlyLast(data, codec, block, n);
    }
  }

  lemma {:induction false} LoadsOnlyLast(data: Entries, codec: Codec, block: Block, n: nat)
    requires Lossless(codec) && n > 0 && "" !in data
    requires |block.hash| == HASH_LENGTH && block.hash != Zeros(HASH_LENGTH) && block.prevHash == []
    ensures Loaded(Appended(data, codec, block), codec, n) == Some([block])
  {
    var later := Appended(data, codec, block);
    HexOfZeros(HASH_LENGTH);
    if Hex(block.hash) == Hex(Zeros(HASH_LENGTH)) {
      HexInjective(block.hash, Zeros(HASH_LENGTH));
    }
    assert Get(later, LAST_BLOCK_KEY) == block.hash && Get(later, Hex(block.hash)) == codec.marshal(block);
    assert Hex([]) == "" && "" !in later && |Hex(Zeros(HASH_LENGTH))| == 2 * HASH_LENGTH;
    hide Hex, Zeros;
    assert codec.unmarshal(codec.marshal(block)) == Ok(block);
    assert Walk(later, codec, "", n - 1) == Some([]);
    assert [] + [block] == [block];
  }

  lemma {:induction false} GeneratedPart(chain: seq<Block>, codec: Codec, k: nat)
    requires Generated(chain, codec) && k <= |chain|
    ensures Generated(chain[..k], codec)
  {
    hide StoreOf, NextPrevHash;
    if k < |chain| {
      GeneratedPart(chain[..|chain| - 1], codec, k);
      assert chain[..|chain| - 1][..k] == chain[..k];
    } else {
      assert chain[..k] == chain;
    }
  }

  lemma {:induction false} LinkedTo(chain: seq<Block>, codec: Codec, k: nat)
    requires Lossless(codec) && Generated(chain, codec) && k < |chain|
    ensures |chain[k].hash| == HASH_LENGTH && chain[k].prevHash == LastHash(chain[..k])
  {
    GeneratedPart(chain, codec, k + 1);
    assert chain[..k + 1][..k] == chain[..k];
    GeneratedPart(chain, codec, k);
    LastStored(chain[..k], codec);
  }

  lemma {:induction false} StoredBlock(chain: seq<Block>, codec: Codec, k: nat)
    requires Lossless(codec) && Generated(chain, codec) && k < |chain| && NonZeroHashes(chain) && DistinctHashes(chain)
    ensures Get(StoreOf(chain, codec), Hex(chain[k].hash)) == codec.marshal(chain[k])
  {
    var last := chain[|chain| - 1];
    if k < |chain| - 1 {
      StoredBlock(chain[..|chain| - 1], codec, k);
      if Hex(chain[k].hash) == Hex(last.hash) {
        HexInjective(chain[k].hash, last.hash);
      }
      if Hex(chain[k].hash) == LAST_BLOCK_KEY {
        HexOfZeros(HASH_LENGTH);
        HexInjective(chain[k].hash, Zeros(HASH_LENGTH));
      }
    }
  }

  lemma {:induction false} WalkExtends(data: Entries, codec: Codec, b: Block, n: nat, before: seq<Block>)
    requires Lossless(codec) && b.hash != Zeros(HASH_LENGTH) && Get(data, Hex(b.hash)) == codec.marshal(b)
    requires Walk(data, codec, Hex(b.prevHash), n) == Some(before)
    ensures Walk(data, codec, Hex(b.hash), n + 1) == Some(before + [b])
  {
    if Hex(b.hash) == Hex(Zeros(HASH_LENGTH)) {
      HexInjective(b.hash, Zeros(HASH_LENGTH));
    }
    assert codec.unmarshal(codec.marshal(b)) == Ok(b);
  }

  lemma {:induction false} WalkReturnsPart(chain: seq<Block>, codec: Codec, k: nat)
    requires Lossless(codec) && Generated(chain, codec) && k <= |chain| && NonZeroHashes(chain) && DistinctHashes(chain)
    ensures Walk(StoreOf(chain, codec), codec, Hex(LastHash(chain[..k])), k) == Some(chain[..k])
  {
    hide StoreOf, Generated, DistinctHashes, Hex, Zeros, Lossless;
    if k > 0 {
      WalkReturnsPart(chain, codec, k - 1);
      hide Walk;
      StoredBlock(chain, codec, k - 1);
      LinkedTo(chain, codec, k - 1);
      assert chain[k - 1].hash != Zeros(HASH_LENGTH);
      WalkExtends(StoreOf(chain, codec), codec, chain[k - 1], k - 1, chain[..k - 1]);
      assert chain[..k] == chain[..k - 1] + [chain[k - 1]];
      assert LastHash(chain[..k]) == chain[k - 1].hash;
    }
  }

  /** The number of blocks found from a key does not depend on the number of steps allowed. */
  lemma {:induction false} WalkStable(data: Entries, codec: Codec, key: string, m: nat, n: nat)
    requires Walk(data, codec, key, m).Some? && Walk(data, codec, key, n).Some?
    ensures Walk(data, codec, key, m) == Walk(data, codec, key, n)
    decreases m
  {
    if key != Hex(Zeros(HASH_LENGTH)) {
      match codec.unmarshal(Get(data, key))
      case Err(_) =>
      case Ok(b) => WalkStable(data, codec, Hex(b.prevHash), m - 1, n - 1);
    }
  }

  lemma {:induction false} LastIsNotZero(chain: seq<Block>, codec: Codec, n: nat)
    requires Lossless(codec) && Generated(chain, codec) && chain != []
    requires Walk(StoreOf(chain, codec), codec, Hex(Get(StoreOf(chain, codec), LAST_BLOCK_KEY)), n) == Some(chain)
    ensures chain[|chain| - 1].hash != Zeros(HASH_LENGTH)
  {
    var last := chain[|chain| - 1];
    LastStored(chain, codec);
    if last.hash == Zeros(HASH_LENGTH) {
      var key := Hex(codec.marshal(last));
      StoredUnder(chain, codec, key);
    }
  }

  lemma {:induction false} WalkBack(data: Entries, codec: Codec, key: string, n: nat, blocks: seq<Block>)
    returns (m: nat)
    requires Walk(data, codec, key, n) == Some(blocks) && |blocks| > 0
    ensures Walk(data, codec, Hex(blocks[|blocks| - 1].prevHash), m) == Some(blocks[..|blocks| - 1])
  {
    m := n - 1;
    var b := codec.unmarshal(Get(data, key)).value;
    var before := Walk(data, codec, Hex(b.prevHash), m).value;
    assert blocks == before + [b];
    assert blocks[..|blocks| - 1] == before;
  }

  /** A walk that returns the whole chain passes through every block's hash. */
  lemma {:induction false} WalkPasses(chain: seq<Block>, codec: Codec, n: nat, k: nat) returns (m: nat)
    requires Lossless(codec) && Generated(chain, codec) && chain != [] && k < |chain|
    requires Walk(StoreOf(chain, codec), codec, Hex(Get(StoreOf(chain, codec), LAST_BLOCK_KEY)), n) == Some(chain)
    ensures chain[k].hash != Zeros(HASH_LENGTH)
    ensures Walk(StoreOf(chain, codec), codec, Hex(chain[k].hash), m) == Some(chain[..k + 1])
    decreases |chain| - k
  {
    hide StoreOf, Generated, Hex, Zeros, Lossless;
    if k == |chain| - 1 {
      LastIsNotZero(chain, codec, n);
      LastStored(chain, codec);
      m := n;
      assert chain[..k + 1] == chain;
    } else {
      var above := WalkPasses(chain, codec, n, k + 1);
      LinkedTo(chain, codec, k + 1);
      m := WalkBack(StoreOf(chain, codec), codec, Hex(chain[k + 1].hash), above, chain[..k + 2]);
      assert chain[..k + 2][..k + 1] == chain[..k + 1];
    }
  }

  /** The walk ends and returns exactly the appended blocks in order if and only if their hashes are
      distinct and none of them is zero. */
  lemma {:induction false} LoadsChainIff(chain: seq<Block>, codec: Codec)
    requires Lossless(codec) && Generated(chain, codec)
    ensures (exists n :: Loaded(StoreOf(chain, codec), codec, n) == Some(chain)) <==>
            NonZeroHashes(chain) && DistinctHashes(chain)
  {
    if chain == [] {
      assert Loaded(StoreOf(chain, codec), codec, 0) == Some(chain);
    } else {
      LastStored(chain, codec);
      var data := StoreOf(chain, codec);
      if NonZeroHashes(chain) && DistinctHashes(chain) {
        WalkReturnsPart(chain, codec, |chain|);
        LinkedTo(chain, codec, |chain| - 1);
        assert chain[..|chain|] == chain;
        assert Loaded(data, codec, |chain|) == Some(chain);
      }
      if n :| Loaded(data, codec, n) == Some(chain) {
        forall i, j | 0 <= i < j < |chain|
          ensures chain[i].hash != chain[j].hash
        {
          var m := WalkPasses(chain, codec, n, i);
          var m' := WalkPasses(chain, codec, n, j);
          if chain[i].hash == chain[j].hash {
            WalkStable(data, codec, Hex(chain[i].hash), m, m');
          }
        }
        forall i | 0 <= i < |chain|
          ensures chain[i].hash != Zeros(HASH_LENGTH)
        {
          var m := WalkPasses(chain, codec, n, i);
        }
      }
    }
  }
}
