/** What a download gives when some of the data is on this node and some on others. */
module Downloads {
  import opened Common
  import opened BlockStore
  import opened Chunks

  /** The key is in the store, or some other node sends the data. */
  predicate Reachable(data: Entries, remote: Remote, key: string) {
    key in data || remote(key).Some?
  }

  /** The bytes under a key, from the store if it has them. */
  function Served(data: Entries, remote: Remote, key: string): Bytes
    requires Reachable(data, remote, key)
  {
    if key in data then data[key] else remote(key).value
  }

  predicate AllReachable(data: Entries, remote: Remote, keys: seq<string>) {
    forall k :: k in keys ==> Reachable(data, remote, k)
  }

  /** The bytes under several keys, in order. */
  function ServedAll(data: Entries, remote: Remote, keys: seq<string>): (pieces: seq<Bytes>)
    requires AllReachable(data, remote, keys)
    ensures |pieces| == |keys| && forall i :: 0 <= i < |keys| ==> pieces[i] == Served(data, remote, keys[i])
  {
    if keys == [] then []
    else
      ServedAll(data, remote, keys[..|keys| - 1]) + [Served(data, remote, keys[|keys| - 1])]
  }

  /** The later store has the given keys in addition, each with what is served for it. */
  ghost predicate Fills(data: Entries, later: Entries, remote: Remote, keys: seq<string>) {
    forall k :: (k in later <==> k in data || k in keys)
                && (k in later ==> Reachable(data, remote, k) && later[k] == Served(data, remote, k))
  }

  lemma {:induction false} SameServed(data: Entries, later: Entries, remote: Remote, keys: seq<string>, k: string)
    requires Fills(data, later, remote, keys)
    ensures Reachable(later, remote, k) <==> Reachable(data, remote, k)
    ensures Reachable(data, remote, k) ==> Served(later, remote, k) == Served(data, remote, k)
  {
    assert k in later <==> k in data || k in keys;
  }

  lemma {:induction false} FillsOneMore(data: Entries, later: Entries, remote: Remote, keys: seq<string>, k: string)
    requires Fills(data, later, remote, keys)
    ensures Acquired(later, k, remote).result.Ok? <==> Reachable(data, remote, k)
    ensures Reachable(data, remote, k) ==>
              && Acquired(later, k, remote).result == Ok(Served(data, remote, k))
              && Fills(data, Acquired(later, k, remote).data, remote, keys + [k])
  {
    SameServed(data, later, remote, keys, k);
    var done := Acquired(later, k, remote);
    if Reachable(data, remote, k) {
      forall x
        ensures x in done.data <==> x in data || x in keys + [k]
        ensures x in done.data ==> Reachable(data, remote, x) && done.data[x] == Served(data, remote, x)
      {
        assert x in later <==> x in data || x in keys;
      }
    }
  }

  lemma {:induction false} AcquiredAllMore(data: Entries, keys: seq<string>, key: string, remote: Remote)
    ensures var before, all := AcquiredAll(data, keys, remote), AcquiredAll(data, keys + [key], remote);
            if before.result.Err? then all.result.Err?
            else
              var last := Acquired(before.data, key, remote);
              if last.result.Err? then all.data == last.data && all.result.Err?
              else all.data == last.data && all.result == Ok(before.result.value + last.result.value)
  {
    assert (keys + [key])[..|keys|] == keys;
  }

  lemma {:induction false} ConcatMore(pieces: seq<Bytes>, piece: Bytes)
    ensures Concat(pieces + [piece]) == Concat(pieces) + piece
  {
    assert (pieces + [piece])[..|pieces|] == pieces;
  }

  lemma {:induction false} AllReachableMore(data: Entries, remote: Remote, keys: seq<string>, key: string)
    ensures AllReachable(data, remote, keys + [key]) <==>
            AllReachable(data, remote, keys) && Reachable(data, remote, key)
  {
    hide Reachable;
    assert forall k :: k in keys + [key] <==> k in keys || k == key;
  }

  lemma {:induction false} ServedAllMore(data: Entries, remote: Remote, keys: seq<string>, key: string)
    requires AllReachable(data, remote, keys) && Reachable(data, remote, key)
    requires AllReachable(data, remote, keys + [key])
    ensures Concat(ServedAll(data, remote, keys + [key])) ==
            Concat(ServedAll(data, remote, keys)) + Served(data, remote, key)
  {
    hide Reachable, Served;
    assert (keys + [key])[..|keys|] == keys;
    ConcatMore(ServedAll(data, remote, keys), Served(data, remote, key));
  }

  /** Acquiring several keys succeeds exactly when all of them can be reached; it then returns their data in
      order and leaves all of it in the store. */
  lemma {:induction false} AllAcquiredIff(data: Entries, keys: seq<string>, remote: Remote)
    ensures var all := AcquiredAll(data, keys, remote);
            && (all.result.Ok? <==> AllReachable(data, remote, keys))
            && (all.result.Ok? ==> all.result == Ok(Concat(ServedAll(data, remote, keys)))
                                   && Fills(data, all.data, remote, keys))
  {
    if keys != [] {
      var front, last := keys[..|keys| - 1], keys[|keys| - 1];
      AllAcquiredIff(data, front, remote);
      AcquiredAllMore(data, front, last, remote);
      AllReachableMore(data, remote, front, last);
      assert keys == front + [last];
      var before := AcquiredAll(data, front, remote);
      hide AcquiredAll, Acquired, Fills, Reachable, AllReachable, Served, ServedAll, Concat;
      if before.result.Ok? {
        FillsOneMore(data, before.data, remote, front, last);
        if Reachable(data, remote, last) {
          ServedAllMore(data, remote, front, last);
        }
      }
    }
  }

  lemma {:induction false} NextUnreachable(data: Entries, keys: seq<string>, key: string, remote: Remote)
    requires AllReachable(data, remote, keys) && !Reachable(data, remote, key)
    ensures AcquiredAll(data, keys + [key], remote).result.Err?
    ensures Fills(data, AcquiredAll(data, keys + [key], remote).data, remote, keys)
  {
    var front := AcquiredAll(data, keys, remote);
    AllAcquiredIff(data, keys, remote);
    FillsOneMore(data, front.data, remote, keys, key);
    AcquiredAllMore(data, keys, key, remote);
    hide AcquiredAll, Fills;
  }

  /** It stops at the first key that cannot be reached; what came before stays in the store. */
  lemma {:induction false} StopsAtUnreachable(data: Entries, keys: seq<string>, i: nat, remote: Remote)
    requires i < |keys| && !Reachable(data, remote, keys[i])
    requires forall j :: 0 <= j < i ==> Reachable(data, remote, keys[j])
    ensures AcquiredAll(data, keys, remote).result.Err?
    ensures Fills(data, AcquiredAll(data, keys, remote).data, remote, keys[..i])
  {
    assert forall k :: k in keys[..i] ==> Reachable(data, remote, k);
    assert keys[..i] + [keys[i]] == keys[..i + 1];
    hide AcquiredAll, Reachable, Fills;
    NextUnreachable(data, keys[..i], keys[i], remote);
    StopsAtFailure(data, keys, i + 1, remote);
  }

  /** The keys that a download asks for: the metafile, and the chunks that it names if it can be read. */
  function Named(data: Entries, metahash: string, remote: Remote): seq<string> {
    [metahash] + if Reachable(data, remote, metahash) then ChunkKeys(Served(data, remote, metahash)) else []
  }

  /** A download fails exactly when the metafile or a chunk that it names is neither in the store nor served. */
  lemma {:induction false} DownloadFailsIff(data: Entries, metahash: string, remote: Remote)
    ensures Downloaded(data, metahash, remote).result.Err? <==>
            exists k :: k in Named(data, metahash, remote) && !Reachable(data, remote, k)
  {
    assert metahash in Named(data, metahash, remote);
    FillsNothing(data, remote);
    FillsOneMore(data, data, remote, [], metahash);
    if Reachable(data, remote, metahash) {
      var meta := Acquired(data, metahash, remote);
      var chunks := ChunkKeys(Served(data, remote, metahash));
      AllAcquiredIff(meta.data, chunks, remote);
      forall k
        ensures Reachable(meta.data, remote, k) <==> Reachable(data, remote, k)
      {
        SameServed(data, meta.data, remote, [] + [metahash], k);
      }
      hide Reachable, Served, AcquiredAll, Acquired, ChunkKeys, Fills;
      assert forall k :: k in Named(data, metahash, remote) <==> k == metahash || k in chunks;
    }
  }

  lemma {:induction false} FillsNothing(data: Entries, remote: Remote)
    ensures Fills(data, data, remote, [])
  {
  }

  lemma {:induction false} FillsTwice(data: Entries, mid: Entries, later: Entries, remote: Remote,
                                      first: seq<string>, second: seq<string>)
    requires Fills(data, mid, remote, first) && Fills(mid, later, remote, second)
    ensures Fills(data, later, remote, first + second)
  {
    forall k
      ensures k in later <==> k in data || k in first + second
      ensures k in later ==> Reachable(data, remote, k) && later[k] == Served(data, remote, k)
    {
      SameServed(data, mid, remote, first, k);
      assert k in mid <==> k in data || k in first;
      assert k in later <==> k in mid || k in second;
    }
  }

  lemma {:induction false} SameServedAll(data: Entries, later: Entries, remote: Remote, filled: seq<string>,
                                         keys: seq<string>)
    requires Fills(data, later, remote, filled) && AllReachable(data, remote, keys)
    ensures AllReachable(later, remote, keys)
    ensures ServedAll(later, remote, keys) == ServedAll(data, remote, keys)
  {
    forall k | k in keys
      ensures Reachable(later, remote, k) && Served(later, remote, k) == Served(data, remote, k)
    {
      SameServed(data, later, remote, filled, k);
    }
    hide Fills, Reachable, Served;
  }

  /** Otherwise it returns the chunks in the order in which the metafile names them, and all that was asked
      for is in the store. */
  lemma {:induction false} DownloadGives(data: Entries, metahash: string, remote: Remote)
    requires AllReachable(data, remote, Named(data, metahash, remote))
    ensures metahash in Named(data, metahash, remote)
    ensures var down, chunks := Downloaded(data, metahash, remote), ChunkKeys(Served(data, remote, metahash));
            && AllReachable(data, remote, chunks)
            && down.result == Ok(Concat(ServedAll(data, remote, chunks)))
            && Fills(data, down.data, remote, Named(data, metahash, remote))
  {
    assert metahash in Named(data, metahash, remote);
    MetafileAcquired(data, metahash, remote);
    var meta := Acquired(data, metahash, remote);
    var chunks := ChunkKeys(Served(data, remote, metahash));
    assert forall k :: k in chunks ==> k in Named(data, metahash, remote);
    hide Fills, AcquiredAll, Acquired, ChunkKeys, Reachable, Served;
    SameServedAll(data, meta.data, remote, [metahash], chunks);
    AllAcquiredIff(meta.data, chunks, remote);
    FillsTwice(data, meta.data, AcquiredAll(meta.data, chunks, remote).data, remote, [metahash], chunks);
  }

  lemma {:induction false} MetafileAcquired(data: Entries, metahash: string, remote: Remote)
    requires Reachable(data, remote, metahash)
    ensures var meta := Acquired(data, metahash, remote);
            && meta.result == Ok(Served(data, remote, metahash)) && Fills(data, meta.data, remote, [metahash])
  {
    FillsNothing(data, remote);
    FillsOneMore(data, data, remote, [], metahash);
    assert [] + [metahash] == [metahash];
  }

  lemma {:induction false} ChunkUnreachable(data: Entries, metahash: string, remote: Remote, chunks: seq<string>,
                                            i: nat)
    requires Reachable(data, remote, metahash) && chunks == ChunkKeys(Served(data, remote, metahash))
    requires i < |chunks| && !Reachable(data, remote, chunks[i])
    requires forall j :: 0 <= j < i ==> Reachable(data, remote, chunks[j])
    ensures var down := Downloaded(data, metahash, remote);
            down.result.Err? && Fills(data, down.data, remote, [metahash] + chunks[..i])
  {
    MetafileAcquired(data, metahash, remote);
    var meta := Acquired(data, metahash, remote);
    hide Fills, AcquiredAll, Acquired, ChunkKeys, Reachable, Served;
    forall k
      ensures Reachable(meta.data, remote, k) <==> Reachable(data, remote, k)
    {
      SameServed(data, meta.data, remote, [metahash], k);
    }
    StopsAtUnreachable(meta.data, chunks, i, remote);
    FillsTwice(data, meta.data, AcquiredAll(meta.data, chunks, remote).data, remote, [metahash], chunks[..i]);
  }

  /** Key number i of a list is the first one out of reach. */
  predicate StopsAt(data: Entries, remote: Remote, keys: seq<string>, i: nat) {
    i < |keys| && !Reachable(data, remote, keys[i]) && AllReachable(data, remote, keys[..i])
  }

  lemma {:induction false} StopsAtChunk(data: Entries, remote: Remote, first: string, chunks: seq<string>, i: nat)
    requires StopsAt(data, remote, [first] + chunks, i + 1)
    ensures Reachable(data, remote, first) && StopsAt(data, remote, chunks, i)
    ensures ([first] + chunks)[..i + 1] == [first] + chunks[..i]
  {
    hide Reachable;
    var front := ([first] + chunks)[..i + 1];
    assert front == [first] + chunks[..i];
    assert first in front && forall k :: k in chunks[..i] ==> k in front;
  }

  lemma {:induction false} ChunkStops(data: Entries, metahash: string, remote: Remote, chunks: seq<string>, i: nat)
    requires Reachable(data, remote, metahash) && chunks == ChunkKeys(Served(data, remote, metahash))
    requires StopsAt(data, remote, chunks, i)
    ensures var down := Downloaded(data, metahash, remote);
            down.result.Err? && Fills(data, down.data, remote, [metahash] + chunks[..i])
  {
    forall j | 0 <= j < i
      ensures Reachable(data, remote, chunks[j])
    {
      assert chunks[..i][j] == chunks[j];
    }
    hide Downloaded, Fills, Reachable, AllReachable;
    ChunkUnreachable(data, metahash, remote, chunks, i);
  }

  /** A download that fails leaves in the store what it asked for before the first key out of reach. */
  lemma {:induction false} FailedDownloadKeeps(data: Entries, metahash: string, remote: Remote, i: nat)
    requires StopsAt(data, remote, Named(data, metahash, remote), i)
    ensures var down := Downloaded(data, metahash, remote);
            down.result.Err? && Fills(data, down.data, remote, Named(data, metahash, remote)[..i])
  {
    var named := Named(data, metahash, remote);
    assert named[0] == metahash && named[..0] == [];
    if i == 0 {
      MetafileUnreachable(data, metahash, remote);
    } else {
      var chunks := named[1..];
      assert named == [metahash] + chunks;
      hide Fills, Downloaded, StopsAt;
      StopsAtChunk(data, remote, metahash, chunks, i - 1);
      assert chunks == ChunkKeys(Served(data, remote, metahash));
      hide Named, Reachable, Served, ChunkKeys;
      ChunkStops(data, metahash, remote, chunks, i - 1);
    }
  }

  lemma {:induction false} MetafileUnreachable(data: Entries, metahash: string, remote: Remote)
    requires !Reachable(data, remote, metahash)
    ensures var down := Downloaded(data, metahash, remote);
            down.result.Err? && down.data == data && Fills(data, down.data, remote, [])
  {
    FillsNothing(data, remote);
  }

  /** After a successful download the file is complete on this node, and downloading it again gives the same
      without looking anything up remotely, whatever the others hold by then. */
  lemma {:induction false} SecondDownload(data: Entries, metahash: string, remote: Remote, later: Remote)
    requires Downloaded(data, metahash, remote).result.Ok?
    ensures var down := Downloaded(data, metahash, remote);
            && FullMatch(down.data, metahash)
            && Downloaded(down.data, metahash, later) == Lookup(down.data, down.result, [])
  {
    DownloadFailsIff(data, metahash, remote);
    assert AllReachable(data, remote, Named(data, metahash, remote)) && metahash in Named(data, metahash, remote);
    hide Downloaded, ChunkKeys, AcquiredAll, Acquired, Reachable, Served, Fills, Named, FullMatch, AllReachable;
    DownloadGives(data, metahash, remote);
    FoundAgain(data, Downloaded(data, metahash, remote), metahash, remote, later);
  }

  lemma {:induction false} FoundAgain(data: Entries, down: Lookup, metahash: string, remote: Remote, later: Remote)
    requires Reachable(data, remote, metahash)
    requires var chunks := ChunkKeys(Served(data, remote, metahash));
             && AllReachable(data, remote, chunks)
             && down.result == Ok(Concat(ServedAll(data, remote, chunks)))
             && Fills(data, down.data, remote, Named(data, metahash, remote))
    ensures FullMatch(down.data, metahash)
    ensures Downloaded(down.data, metahash, later) == Lookup(down.data, down.result, [])
  {
    var chunks := ChunkKeys(Served(data, remote, metahash));
    forall k | k == metahash || k in chunks
      ensures k in down.data && down.data[k] == Served(data, remote, k)
    {
      assert k in Named(data, metahash, remote);
    }
    hide Fills, Named, Reachable, Served, ChunkKeys, Downloaded, Concat;
    LocalMetafile(down.data, metahash, later);
    AllFound(down.data, chunks, ServedAll(data, remote, chunks), later);
  }

  /** A hash without collisions, all of whose values have the same length. */
  ghost predicate Ideal(hash: Hash, size: nat) {
    && size > 0
    && (forall b {:trigger hash(b)} :: |hash(b)| == size)
    && (forall b, c {:trigger hash(b), hash(c)} :: hash(b) == hash(c) ==> b == c)
  }

  lemma {:induction false} DigestsIdentify(hash: Hash, size: nat, pieces: seq<Bytes>, others: seq<Bytes>)
    requires Ideal(hash, size) && Digests(hash, pieces) == Digests(hash, others)
    ensures pieces == others
  {
    if pieces != [] && others != [] {
      var a, b := Digests(hash, pieces[..|pieces| - 1]), Digests(hash, others[..|others| - 1]);
      var x, y := pieces[|pieces| - 1], others[|others| - 1];
      assert a + hash(x) == b + hash(y) && |hash(x)| == |hash(y)| == size;
      assert a == (a + hash(x))[..|a|] == (b + hash(y))[..|b|] == b;
      assert hash(x) == (a + hash(x))[|a|..] == (b + hash(y))[|b|..] == hash(y);
      DigestsIdentify(hash, size, pieces[..|pieces| - 1], others[..|others| - 1]);
      assert pieces == pieces[..|pieces| - 1] + [x] && others == others[..|others| - 1] + [y];
    }
  }

  /** The metahash identifies the chunks, all of them and in order. */
  lemma {:induction false} MetahashIdentifies(hash: Hash, size: nat, pieces: seq<Bytes>, others: seq<Bytes>)
    requires Ideal(hash, size)
    ensures MetaKey(hash, pieces) == MetaKey(hash, others) <==> pieces == others
  {
    if MetaKey(hash, pieces) == MetaKey(hash, others) {
      HexInjective(hash(Digests(hash, pieces)), hash(Digests(hash, others)));
      DigestsIdentify(hash, size, pieces, others);
    }
  }

  /** Every uploaded entry is in the store or served by others, and no other data under its key. */
  ghost predicate Offers(data: Entries, remote: Remote, entries: Entries) {
    forall k :: k in entries ==> Reachable(data, remote, k) && Served(data, remote, k) == entries[k]
  }

  lemma {:induction false} StoredOnly(hash: Hash, pieces: seq<Bytes>, k: string)
    requires k in Stored(hash, pieces)
    ensures k in Keys(hash, pieces)
  {
    var last := pieces[|pieces| - 1];
    assert Keys(hash, pieces)[|pieces| - 1] == Key(hash, last);
    if k != Key(hash, last) {
      StoredOnly(hash, pieces[..|pieces| - 1], k);
      assert Keys(hash, pieces)[..|pieces| - 1] == Keys(hash, pieces[..|pieces| - 1]);
    }
  }

  lemma {:induction false} PiecesStored(hash: Hash, pieces: seq<Bytes>)
    requires NoClash(hash, pieces)
    ensures forall i :: 0 <= i < |pieces| ==>
              Keys(hash, pieces)[i] in Chunked(hash, pieces)
              && Chunked(hash, pieces)[Keys(hash, pieces)[i]] == pieces[i]
  {
    forall i | 0 <= i < |pieces|
      ensures Keys(hash, pieces)[i] in Chunked(hash, pieces)
              && Chunked(hash, pieces)[Keys(hash, pieces)[i]] == pieces[i]
    {
      ChunkFound(map[], hash, pieces, i);
      hide Chunked;
      assert map[] + Chunked(hash, pieces) == Chunked(hash, pieces);
    }
  }

  /** The uploaded entries are the metafile and the pieces. */
  lemma {:induction false} ChunkedKeys(hash: Hash, pieces: seq<Bytes>)
    requires NoClash(hash, pieces) && pieces != []
    ensures var metahash, entries := MetaKey(hash, pieces), Chunked(hash, pieces);
            && (forall k :: k in entries ==> k in [metahash] + Keys(hash, pieces))
            && metahash in entries && ChunkKeys(entries[metahash]) == Keys(hash, pieces)
  {
    MetafileKeys(hash, pieces);
    forall k | k in Stored(hash, pieces)
      ensures k in Keys(hash, pieces)
    {
      StoredOnly(hash, pieces, k);
    }
    hide Stored, MetaKey, Metafile, ChunkKeys, NoClash;
  }

  /** A file that is not empty comes back from any mixture of local and remote chunks, and is complete on
      this node then. */
  lemma {:induction false} DownloadOffered(data: Entries, hash: Hash, pieces: seq<Bytes>, remote: Remote)
    requires NoClash(hash, pieces) && pieces != [] && Offers(data, remote, Chunked(hash, pieces))
    ensures var down := Downloaded(data, MetaKey(hash, pieces), remote);
            && down.result == Ok(Concat(pieces)) && FullMatch(down.data, MetaKey(hash, pieces))
            && (forall k :: k in Chunked(hash, pieces) ==> k in down.data && down.data[k] == Chunked(hash, pieces)[k])
  {
    var metahash, entries, keys := MetaKey(hash, pieces), Chunked(hash, pieces), Keys(hash, pieces);
    ChunkedKeys(hash, pieces);
    PiecesStored(hash, pieces);
    hide Chunked, MetaKey, Keys, ChunkKeys, NoClash, Downloaded, Concat, Fills, FullMatch;
    assert Reachable(data, remote, metahash) && Served(data, remote, metahash) == entries[metahash];
    assert Named(data, metahash, remote) == [metahash] + keys;
    SamePieces(data, remote, keys, pieces, entries);
    assert AllReachable(data, remote, [metahash] + keys);
    hide Named, Offers, Reachable, AllReachable, Served, ServedAll;
    DownloadGives(data, metahash, remote);
    SecondDownload(data, metahash, remote, remote);
    KeptBy(data, Downloaded(data, metahash, remote).data, remote, [metahash] + keys, entries);
  }

  lemma {:induction false} SamePieces(data: Entries, remote: Remote, keys: seq<string>, pieces: seq<Bytes>,
                                      entries: Entries)
    requires Offers(data, remote, entries) && |keys| == |pieces|
    requires forall i :: 0 <= i < |keys| ==> keys[i] in entries && entries[keys[i]] == pieces[i]
    ensures AllReachable(data, remote, keys)
    ensures ServedAll(data, remote, keys) == pieces
  {
  }

  lemma {:induction false} KeptBy(data: Entries, later: Entries, remote: Remote, keys: seq<string>, entries: Entries)
    requires Fills(data, later, remote, keys) && Offers(data, remote, entries)
    requires forall k :: k in entries ==> k in keys
    ensures forall k :: k in entries ==> k in later && later[k] == entries[k]
  {
  }
}
