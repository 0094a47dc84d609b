/** The byte format of the map from public-key hashes to encrypted message keys. */
module Recipients {
  import opened Common

  const KEY_SIZE: nat := 32
  const VALUE_SIZE: nat := 128
  const WINDOW: nat := KEY_SIZE + VALUE_SIZE

  /** A fixed-size array of bytes, as a value. */
  datatype Block = Block(bytes: Bytes)

  type RecipientsMap = map<Block, Block>

  /** What the array types of the map demand: 32 bytes a key and 128 bytes a value. */
  predicate Sized(r: RecipientsMap) {
    forall k :: k in r ==> |k.bytes| == KEY_SIZE && |r[k].bytes| == VALUE_SIZE
  }

  /** The entries of a map one after the other, in the given order of their keys. */
  function Flattened(order: seq<Block>, r: RecipientsMap): (b: Bytes)
    requires Sized(r) && forall k :: k in order ==> k in r
    ensures |b| == WINDOW * |order|
  {
    if order == [] then []
    else
      var k := order[|order| - 1];
      Flattened(order[..|order| - 1], r) + (k.bytes + r[k].bytes)
  }

  /** The order lists every key of a set once. */
  ghost predicate Lists(order: seq<Block>, keys: set<Block>) {
    (forall k :: k in order <==> k in keys) && forall i, j :: 0 <= i < j < |order| ==> order[i] != order[j]
  }

  ghost predicate Encodes(b: Bytes, r: RecipientsMap) {
    Sized(r) && exists order :: Lists(order, r.Keys) && b == Flattened(order, r)
  }

  lemma {:induction false} ListsMore(order: seq<Block>, keys: set<Block>, k: Block)
    requires Lists(order, keys) && k !in keys
    ensures Lists(order + [k], keys + {k})
  {
  }

  lemma {:induction false} ListsCount(order: seq<Block>, keys: set<Block>)
    requires Lists(order, keys)
    ensures |order| == |keys|
  {
    if order != [] {
      var init, k := order[..|order| - 1], order[|order| - 1];
      assert order == init + [k];
      ListsCount(init, keys - {k});
    } else {
      assert keys == {};
    }
  }

  /** A map with all entries of the bytes added, the later ones over the earlier ones. */
  function WithEntries(r: RecipientsMap, b: Bytes): RecipientsMap
    requires |b| % WINDOW == 0
  {
    if |b| == 0 then r
    else
      var last := b[|b| - WINDOW..];
      WithEntries(r, b[..|b| - WINDOW])[Block(last[..KEY_SIZE]) := Block(last[KEY_SIZE..])]
  }

  method Encode(r: RecipientsMap) returns (encoded: array<byte>)
    requires Sized(r)
    ensures fresh(encoded)
    ensures encoded.Length == WINDOW * |r| && Encodes(encoded[..], r)
  {
    encoded := new byte[|r| * WINDOW](_ => 0);
    var i := 0;
    var left := r.Keys;
    ghost var order: seq<Block> := [];
    StartEncoding(encoded, r);
    hide EncodedSoFar, Encodes;
    while left != {}
      invariant EncodedSoFar(encoded, r, left, order, i)
    {
      var k :| k in left;
      EncodeEntry(encoded, i, r, k, left, order);
      order := order + [k];
      i := i + WINDOW;
      left := left - {k};
    }
    FinishEncoding(encoded, r, order, i);
  }

  /** The entries in order fill the first i bytes; the ones left are still to come. */
  ghost predicate EncodedSoFar(a: array<byte>, r: RecipientsMap, left: set<Block>, order: seq<Block>, i: int)
    reads a
  {
    && Sized(r) && a.Length == WINDOW * |r| && left <= r.Keys
    && 0 <= i == WINDOW * |order| <= a.Length && |order| + |left| == |r|
    && Lists(order, r.Keys - left) && a[..i] == Flattened(order, r)
  }

  lemma {:induction false} StartEncoding(a: array<byte>, r: RecipientsMap)
    requires Sized(r) && a.Length == WINDOW * |r|
    ensures EncodedSoFar(a, r, r.Keys, [], 0)
  {
  }

  lemma {:induction false} FinishEncoding(a: array<byte>, r: RecipientsMap, order: seq<Block>, i: int)
    requires EncodedSoFar(a, r, {}, order, i)
    ensures a.Length == WINDOW * |r| && Encodes(a[..], r)
  {
    assert r.Keys - {} == r.Keys;
    assert a[..i] == a[..];
  }

  /** One turn of the encoding loop. */
  method EncodeEntry(encoded: array<byte>, i: int, r: RecipientsMap, k: Block, ghost left: set<Block>,
                     ghost order: seq<Block>)
    requires EncodedSoFar(encoded, r, left, order, i) && k in left
    modifies encoded
    ensures EncodedSoFar(encoded, r, left - {k}, order + [k], i + WINDOW)
  {
    NextListed(r, left, order, k);
    OneMore(order, r, k);
    hide Lists, Flattened;
    CopyWindow(encoded, i, k.bytes + r[k].bytes);
  }

  lemma {:induction false} NextListed(r: RecipientsMap, left: set<Block>, order: seq<Block>, k: Block)
    requires left <= r.Keys && Lists(order, r.Keys - left) && k in left && |order| + |left| == |r|
    ensures Lists(order + [k], r.Keys - (left - {k}))
    ensures |order + [k]| + |left - {k}| == |r| && WINDOW * |order| + WINDOW == WINDOW * |order + [k]| <= WINDOW * |r|
  {
    ListsMore(order, r.Keys - left, k);
    assert r.Keys - left + {k} == r.Keys - (left - {k});
    assert |left - {k}| == |left| - 1;
  }

  lemma {:induction false} OneMore(order: seq<Block>, r: RecipientsMap, k: Block)
    requires Sized(r) && k in r && forall x :: x in order ==> x in r
    ensures forall x :: x in order + [k] ==> x in r
    ensures Flattened(order + [k], r) == Flattened(order, r) + (k.bytes + r[k].bytes)
  {
    assert (order + [k])[..|order|] == order;
  }

  /** Copies a window into the array at a position. */
  method CopyWindow(a: array<byte>, at: nat, window: Bytes)
    requires at + |window| <= a.Length
    modifies a
    ensures a[..at] == old(a[..at]) && a[at..at + |window|] == window
    ensures a[..at + |window|] == old(a[..at]) + window
  {
    for i := 0 to |window|
      invariant a[..at] == old(a[..at])
      invariant forall j :: 0 <= j < i ==> a[at + j] == window[j]
    {
      a[at + i] := window[i];
    }
    assert a[..at + |window|] == a[..at] + a[at..at + |window|];
  }

  lemma {:induction false} OneMoreWindow(r: RecipientsMap, b: Bytes, i: nat)
    requires i + WINDOW <= |b| && i % WINDOW == 0
    ensures (i + WINDOW) % WINDOW == 0
    ensures WithEntries(r, b[..i + WINDOW]) ==
            WithEntries(r, b[..i])[Block(b[i..i + KEY_SIZE]) := Block(b[i + KEY_SIZE..i + WINDOW])]
  {
    var part := b[..i + WINDOW];
    var last := part[|part| - WINDOW..];
    assert part[..|part| - WINDOW] == b[..i];
    assert last[..KEY_SIZE] == b[i..i + KEY_SIZE];
    assert last[KEY_SIZE..] == b[i + KEY_SIZE..i + WINDOW];
  }

  class RecipientsTable {
    var entries: RecipientsMap

    constructor ()
      ensures entries == map[]
    {
      entries := map[];
    }

    /** Fails exactly on a length that is no multiple of the window, and then changes nothing. */
    method Decode(encoded: Bytes) returns (ok: bool)
      modifies this
      ensures ok <==> |encoded| % WINDOW == 0
      ensures entries == if |encoded| % WINDOW == 0 then WithEntries(old(entries), encoded) else old(entries)
    {
      if |encoded| % WINDOW != 0 {
        return false;
      }
      var i := 0;
      assert encoded[..0] == [];
      while i <= |encoded| - WINDOW
        invariant 0 <= i <= |encoded| && i % WINDOW == 0
        invariant entries == WithEntries(old(entries), encoded[..i])
      {
        var k := Block(encoded[i..i + KEY_SIZE]);
        var v := Block(encoded[i + KEY_SIZE..i + WINDOW]);
        OneMoreWindow(old(entries), encoded, i);
        entries := entries[k := v];
        i := i + WINDOW;
      }
      assert i == |encoded| && encoded[..i] == encoded;
      return true;
    }
  }

  lemma {:induction false} DecodeOneMore(r0: RecipientsMap, b: Bytes, k: Block, v: Block)
    requires |b| % WINDOW == 0 && |k.bytes| == KEY_SIZE && |v.bytes| == VALUE_SIZE
    ensures (|b| + WINDOW) % WINDOW == 0 && WithEntries(r0, b + (k.bytes + v.bytes)) == WithEntries(r0, b)[k := v]
  {
    var longer := b + (k.bytes + v.bytes);
    var last := longer[|longer| - WINDOW..];
    assert longer[..|longer| - WINDOW] == b;
    assert last[..KEY_SIZE] == k.bytes && last[KEY_SIZE..] == v.bytes;
  }

  /** The entries of r added one by one. */
  function Merged(r0: RecipientsMap, order: seq<Block>, r: RecipientsMap): RecipientsMap
    requires forall k :: k in order ==> k in r
  {
    if order == [] then r0
    else
      var k := order[|order| - 1];
      Merged(r0, order[..|order| - 1], r)[k := r[k]]
  }

  lemma {:induction false} DecodeListed(r0: RecipientsMap, order: seq<Block>, r: RecipientsMap)
    requires Sized(r) && forall k :: k in order ==> k in r
    ensures WithEntries(r0, Flattened(order, r)) == Merged(r0, order, r)
  {
    if order != [] {
      var init, k := order[..|order| - 1], order[|order| - 1];
      DecodeListed(r0, init, r);
      DecodeOneMore(r0, Flattened(init, r), k, r[k]);
      assert Flattened(order, r) == Flattened(init, r) + (k.bytes + r[k].bytes);
      hide WithEntries, Flattened;
    }
  }

  lemma {:induction false} MergedAt(r0: RecipientsMap, order: seq<Block>, r: RecipientsMap, x: Block)
    requires forall k :: k in order ==> k in r
    ensures x in Merged(r0, order, r) <==> x in r0 || x in order
    ensures x in order ==> Merged(r0, order, r)[x] == r[x]
    ensures x !in order && x in r0 ==> Merged(r0, order, r)[x] == r0[x]
  {
    if order != [] {
      MergedAt(r0, order[..|order| - 1], r, x);
      assert order == order[..|order| - 1] + [order[|order| - 1]];
    }
  }

  lemma {:induction false} MergedAll(r0: RecipientsMap, order: seq<Block>, r: RecipientsMap)
    requires forall k :: k in order <==> k in r
    ensures Merged(r0, order, r) == r0 + r
  {
    forall x
      ensures x in Merged(r0, order, r) <==> x in r0 + r
      ensures x in r0 + r ==> Merged(r0, order, r)[x] == (r0 + r)[x]
    {
      MergedAt(r0, order, r, x);
    }
  }

  /** Decoding an encoding, made in whatever order, adds exactly the encoded map; into an empty map it
      gives that map back. */
  lemma {:induction false} DecodeEncode(r0: RecipientsMap, r: RecipientsMap, b: Bytes)
    requires Encodes(b, r)
    ensures |b| == 160 * |r| && forall k :: k in r ==> |k.bytes| == 32 && |r[k].bytes| == 128
    ensures WithEntries(r0, b) == r0 + r && WithEntries(map[], b) == r
  {
    var order :| Lists(order, r.Keys) && b == Flattened(order, r);
    ListsCount(order, r.Keys);
    hide WithEntries, Flattened;
    DecodeListed(r0, order, r);
    DecodeListed(map[], order, r);
    MergedAll(r0, order, r);
    MergedAll(map[], order, r);
    assert map[] + r == r;
  }
}
