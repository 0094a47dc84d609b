/** Files as chunks: upload through a reader with short reads, download by the metafile, and the check
    whether a file is complete on this node. */
module Chunks {
  import opened Common
  import opened BlockStore

  /** A hash of bytes; SHA-256 in the program. */
  type Hash = Bytes -> Bytes

  const METAFILE_SEP: char := '\n'

  // Strings and bytes.

  /** Every character is one byte, as in Go's strings. */
  predicate IsText(s: string) {
    forall i :: 0 <= i < |s| ==> s[i] as int < 256
  }

  function ToBytes(s: string): (b: Bytes)
    requires IsText(s)
    ensures |b| == |s| && forall i :: 0 <= i < |s| ==> b[i] == s[i] as int
  {
    if s == "" then [] else ToBytes(s[..|s| - 1]) + [s[|s| - 1] as int]
  }

  function ToText(b: Bytes): (s: string)
    ensures |s| == |b| && IsText(s) && forall i :: 0 <= i < |s| ==> s[i] as int == b[i]
  {
    if b == [] then "" else ToText(b[..|b| - 1]) + [b[|b| - 1] as char]
  }

  // Joining and splitting at a separator.

  function Join(parts: seq<string>, sep: char): string {
    if parts == [] then ""
    else if |parts| == 1 then parts[0]
    else Join(parts[..|parts| - 1], sep) + [sep] + parts[|parts| - 1]
  }

  function AddToLast(parts: seq<string>, t: string): (longer: seq<string>)
    requires |parts| >= 1
    ensures |longer| == |parts|
  {
    parts[..|parts| - 1] + [parts[|parts| - 1] + t]
  }

  /** The text before the first separator, and the parts after it. */
  function Split(s: string, sep: char): (parts: seq<string>)
    ensures |parts| >= 1
  {
    if s == "" then [""]
    else
      var before := Split(s[..|s| - 1], sep);
      if s[|s| - 1] == sep then before + [""] else AddToLast(before, [s[|s| - 1]])
  }

  lemma {:induction false} SplitChar(s: string, c: char, sep: char)
    ensures Split(s + [c], sep) == if c == sep then Split(s, sep) + [""] else AddToLast(Split(s, sep), [c])
  {
    assert (s + [c])[..|s|] == s;
  }

  lemma {:induction false} AddTwice(parts: seq<string>, t: string, u: string)
    requires |parts| >= 1
    ensures AddToLast(AddToLast(parts, t), u) == AddToLast(parts, t + u)
  {
    assert parts[|parts| - 1] + t + u == parts[|parts| - 1] + (t + u);
  }

  lemma {:induction false} AddNothing(parts: seq<string>, t: string)
    requires |parts| >= 1 && t == ""
    ensures AddToLast(parts, t) == parts
  {
    assert parts[|parts| - 1] + t == parts[|parts| - 1];
  }

  lemma {:induction false} SplitPlain(s: string, t: string, sep: char)
    requires sep !in t
    ensures Split(s + t, sep) == AddToLast(Split(s, sep), t)
  {
    hide Split, AddToLast;
    if t == "" {
      assert s + t == s;
      AddNothing(Split(s, sep), t);
    } else {
      var init, c := t[..|t| - 1], t[|t| - 1];
      SplitPlain(s, init, sep);
      assert s + t == (s + init) + [c] && init + [c] == t;
      SplitChar(s + init, c, sep);
      AddTwice(Split(s, sep), init, [c]);
    }
  }

  lemma {:induction false} SplitNothing(sep: char, last: string)
    ensures Split("", sep) == [""] && AddToLast([""], last) == [last]
  {
    assert "" + last == last;
  }

  lemma {:induction false} AddAfter(init: seq<string>, last: string)
    ensures AddToLast(init + [""], last) == init + [last]
  {
    assert "" + last == last;
  }

  /** Splitting undoes joining, unless there was nothing to join: then it gives one empty part. */
  lemma {:induction false} SplitJoin(parts: seq<string>, sep: char)
    requires forall i :: 0 <= i < |parts| ==> sep !in parts[i]
    ensures Split(Join(parts, sep), sep) == if parts == [] then [""] else parts
  {
    hide Split, AddToLast;
    if |parts| <= 1 {
      SplitNothing(sep, if parts == [] then "" else parts[0]);
      if parts != [] {
        SplitPlain("", parts[0], sep);
        assert "" + parts[0] == parts[0];
      }
    } else {
      var init, last := parts[..|parts| - 1], parts[|parts| - 1];
      SplitJoin(init, sep);
      SplitChar(Join(init, sep), sep, sep);
      SplitPlain(Join(init, sep) + [sep], last, sep);
      AddAfter(init, last);
      hide Join;
      assert init + [last] == parts;
    }
  }

  // Readers.

  datatype Status = More | EndOfFile | Failed

  /** What one call of Read delivers. */
  datatype Delivery = Delivery(bytes: Bytes, status: Status)

  /** A reader is what its next calls deliver, up to the end of the file or a failure. */
  class Reader {
    var script: seq<Delivery>

    constructor (script: seq<Delivery>)
      ensures this.script == script
    {
      this.script := script;
    }

    /** Fills the front of the buffer; the rest of the buffer may be overwritten, too. */
    method Read(buffer: array<byte>) returns (n: nat, status: Status)
      requires script != [] && |script[0].bytes| <= buffer.Length
      modifies this, buffer
      ensures script == old(script)[1..]
      ensures n == |old(script)[0].bytes| && status == old(script)[0].status
      ensures buffer[..n] == old(script)[0].bytes
    {
      var d := script[0];
      script := script[1..];
      n, status := |d.bytes|, d.status;
      for i := 0 to n
        invariant script == old(script)[1..] && d == old(script)[0]
        invariant forall j :: 0 <= j < i ==> buffer[j] == d.bytes[j]
      {
        buffer[i] := d.bytes[i];
      }
    }
  }

  /** A script that ends, with deliveries that fit the buffer. */
  ghost predicate Proper(script: seq<Delivery>, chunkSize: nat) {
    && script != []
    && |script[0].bytes| <= chunkSize
    && (script[0].status.More? ==> Proper(script[1..], chunkSize))
  }

  /** The non-empty deliveries up to the end, after some earlier ones; None when reading fails. */
  function PiecesFrom(before: seq<Bytes>, script: seq<Delivery>): Option<seq<Bytes>>
    decreases |script|
  {
    if script == [] || script[0].status.Failed? then None
    else
      var sofar := if script[0].bytes == [] then before else before + [script[0].bytes];
      if script[0].status.EndOfFile? then Some(sofar) else PiecesFrom(sofar, script[1..])
  }

  function Pieces(script: seq<Delivery>): Option<seq<Bytes>> {
    PiecesFrom([], script)
  }

  /** All bytes delivered up to the end. */
  function Content(script: seq<Delivery>): Bytes {
    if script == [] then []
    else script[0].bytes + if script[0].status.More? then Content(script[1..]) else []
  }

  function Concat(pieces: seq<Bytes>): Bytes {
    if pieces == [] then [] else Concat(pieces[..|pieces| - 1]) + pieces[|pieces| - 1]
  }

  lemma {:induction false} PiecesOfContent(before: seq<Bytes>, script: seq<Delivery>)
    requires PiecesFrom(before, script).Some?
    ensures Concat(PiecesFrom(before, script).value) == Concat(before) + Content(script)
    decreases |script|
  {
    var here := script[0].bytes;
    var sofar := if here == [] then before else before + [here];
    assert Concat(sofar) == Concat(before) + here by {
      assert (before + [here])[..|before|] == before;
    }
    if script[0].status.More? {
      PiecesOfContent(sofar, script[1..]);
      hide Concat;
      assert (Concat(before) + here) + Content(script[1..]) == Concat(before) + (here + Content(script[1..]));
    }
  }

  lemma {:induction false} PiecesNotEmpty(before: seq<Bytes>, script: seq<Delivery>)
    requires PiecesFrom(before, script).Some? && [] !in before
    ensures [] !in PiecesFrom(before, script).value
    decreases |script|
  {
    if script[0].status.More? {
      PiecesNotEmpty(if script[0].bytes == [] then before else before + [script[0].bytes], script[1..]);
    }
  }

  // Upload.

  function Key(hash: Hash, chunk: Bytes): string {
    Hex(hash(chunk))
  }

  function Keys(hash: Hash, pieces: seq<Bytes>): (keys: seq<string>)
    ensures |keys| == |pieces| && forall i :: 0 <= i < |keys| ==> keys[i] == Key(hash, pieces[i])
  {
    if pieces == [] then [] else Keys(hash, pieces[..|pieces| - 1]) + [Key(hash, pieces[|pieces| - 1])]
  }

  function Digests(hash: Hash, pieces: seq<Bytes>): Bytes {
    if pieces == [] then [] else Digests(hash, pieces[..|pieces| - 1]) + hash(pieces[|pieces| - 1])
  }

  function Stored(hash: Hash, pieces: seq<Bytes>): Entries {
    if pieces == [] then map[]
    else Stored(hash, pieces[..|pieces| - 1])[Key(hash, pieces[|pieces| - 1]) := pieces[|pieces| - 1]]
  }

  function MetaKey(hash: Hash, pieces: seq<Bytes>): string {
    Key(hash, Digests(hash, pieces))
  }

  lemma {:induction false} HexIsPlain(b: Bytes)
    ensures IsText(Hex(b)) && METAFILE_SEP !in Hex(b)
  {
    if b != [] {
      HexIsPlain(b[..|b| - 1]);
    }
  }

  lemma {:induction false} JoinIsText(parts: seq<string>)
    requires forall i :: 0 <= i < |parts| ==> IsText(parts[i])
    ensures IsText(Join(parts, METAFILE_SEP))
  {
    if |parts| > 1 {
      JoinIsText(parts[..|parts| - 1]);
    }
  }

  /** The text of the metafile: the keys of the chunks, one a line. */
  function Metafile(hash: Hash, pieces: seq<Bytes>): string {
    Join(Keys(hash, pieces), METAFILE_SEP)
  }

  lemma {:induction false} MetafileIsText(hash: Hash, pieces: seq<Bytes>)
    ensures IsText(Metafile(hash, pieces))
    ensures forall i :: 0 <= i < |pieces| ==> METAFILE_SEP !in Keys(hash, pieces)[i]
  {
    forall i | 0 <= i < |pieces|
      ensures IsText(Keys(hash, pieces)[i]) && METAFILE_SEP !in Keys(hash, pieces)[i]
    {
      HexIsPlain(hash(pieces[i]));
    }
    JoinIsText(Keys(hash, pieces));
  }

  function Chunked(hash: Hash, pieces: seq<Bytes>): Entries {
    MetafileIsText(hash, pieces);
    Stored(hash, pieces)[MetaKey(hash, pieces) := ToBytes(Metafile(hash, pieces))]
  }

  method Chunkify(chunkSize: nat, reader: Reader, hash: Hash) returns (result: Option<(Entries, string)>)
    requires Proper(reader.script, chunkSize)
    modifies reader
    ensures result == match Pieces(old(reader.script))
                      case None => None
                      case Some(pieces) => Some((Chunked(hash, pieces), MetaKey(hash, pieces)))
  {
    var buffer := new byte[chunkSize](_ => 0);
    var chunks: Entries := map[];
    var metafileKeyBytes: Bytes := [];
    var hashList: seq<string> := [];
    ghost var pieces: seq<Bytes> := [];
    var status := More;
    while status == More
      invariant fresh(buffer) && buffer.Length == chunkSize
      invariant !status.Failed? && (status.More? ==> Proper(reader.script, chunkSize))
      invariant chunks == Stored(hash, pieces)
      invariant metafileKeyBytes == Digests(hash, pieces) && hashList == Keys(hash, pieces)
      invariant PiecesFrom([], old(reader.script)) ==
                if status.EndOfFile? then Some(pieces) else PiecesFrom(pieces, reader.script)
      decreases if status.More? then |reader.script| + 1 else 0
    {
      var n;
      n, status := reader.Read(buffer);
      if status == Failed {
        return None;
      }
      if n > 0 {
        var chunk := CopyOf(buffer, n);
        OnePiece(hash, pieces, chunk);
        var chunkHashBytes := hash(chunk);
        var chunkHashHex := Hex(chunkHashBytes);
        chunks := chunks[chunkHashHex := chunk];
        metafileKeyBytes := metafileKeyBytes + chunkHashBytes;
        hashList := hashList + [chunkHashHex];
        pieces := pieces + [chunk];
      }
    }
    var metaFileKey := Hex(hash(metafileKeyBytes));
    MetafileIsText(hash, pieces);
    chunks := chunks[metaFileKey := ToBytes(Join(hashList, METAFILE_SEP))];
    return Some((chunks, metaFileKey));
  }

  lemma {:induction false} OnePiece(hash: Hash, pieces: seq<Bytes>, chunk: Bytes)
    ensures Stored(hash, pieces + [chunk]) == Stored(hash, pieces)[Key(hash, chunk) := chunk]
    ensures Digests(hash, pieces + [chunk]) == Digests(hash, pieces) + hash(chunk)
    ensures Keys(hash, pieces + [chunk]) == Keys(hash, pieces) + [Key(hash, chunk)]
  {
    assert (pieces + [chunk])[..|pieces|] == pieces;
  }

  /** Copies the front of the buffer byte by byte, since the buffer is reused. */
  method CopyOf(buffer: array<byte>, n: nat) returns (chunk: Bytes)
    requires n <= buffer.Length
    ensures chunk == buffer[..n]
  {
    chunk := [];
    for i := 0 to n
      invariant chunk == buffer[..i]
    {
      chunk := chunk + [buffer[i]];
    }
  }

  // Download.

  /** The store after some lookups, what they returned, and the keys that were not found locally. */
  datatype Lookup = Lookup(data: Entries, result: Result<Bytes, string>, misses: seq<string>)

  /** What the owners of the data would send for a key, if there are any. */
  type Remote = string -> Option<Bytes>

  function Acquired(data: Entries, key: string, remote: Remote): Lookup {
    if key in data then Lookup(data, Ok(data[key]), [])
    else
      match remote(key)
      case None => Lookup(data, Err("no way to access the chunk"), [key])
      case Some(bytes) => Lookup(data[key := bytes], Ok(bytes), [key])
  }

  /** The data under several keys, one after the other; it stops at the first failure. */
  function AcquiredAll(data: Entries, keys: seq<string>, remote: Remote): Lookup {
    if keys == [] then Lookup(data, Ok([]), [])
    else
      var before := AcquiredAll(data, keys[..|keys| - 1], remote);
      if before.result.Err? then before
      else
        var last := Acquired(before.data, keys[|keys| - 1], remote);
        if last.result.Err? then Lookup(last.data, last.result, before.misses + last.misses)
        else Lookup(last.data, Ok(before.result.value + last.result.value), before.misses + last.misses)
  }

  function ChunkKeys(metafile: Bytes): seq<string> {
    Split(ToText(metafile), METAFILE_SEP)
  }

  function Downloaded(data: Entries, metahash: string, remote: Remote): Lookup {
    var meta := Acquired(data, metahash, remote);
    if meta.result.Err? then meta
    else
      var rest := AcquiredAll(meta.data, ChunkKeys(meta.result.value), remote);
      rest.(misses := meta.misses + rest.misses)
  }

  /** The metafile and all chunks that it names are in the store. */
  predicate FullMatch(data: Entries, metahash: string) {
    metahash in data && forall k :: k in ChunkKeys(data[metahash]) ==> k in data
  }

  class DataLayer {
    const blobs: Store

    constructor ()
      ensures fresh(blobs) && blobs.data == map[]
    {
      blobs := new Store();
    }

    method Upload(chunkSize: nat, reader: Reader, hash: Hash) returns (metahash: Option<string>)
      requires Proper(reader.script, chunkSize)
      modifies reader, blobs
      ensures var pieces := Pieces(old(reader.script));
              if pieces.None? then metahash == None && blobs.data == old(blobs.data)
              else
                && metahash == Some(MetaKey(hash, pieces.value))
                && blobs.data == old(blobs.data) + Chunked(hash, pieces.value)
    {
      var result := Chunkify(chunkSize, reader, hash);
      if result == None {
        return None;
      }
      SaveAll(result.value.0);
      return Some(result.value.1);
    }

    /** Puts all entries into the store, in arbitrary order. */
    method SaveAll(chunks: Entries)
      modifies blobs
      ensures blobs.data == old(blobs.data) + chunks
    {
      var left := chunks.Keys;
      while left != {}
        invariant left <= chunks.Keys
        invariant blobs.data == old(blobs.data) + (chunks - left)
      {
        var h :| h in left;
        blobs.Write(h, chunks[h]);
        left := left - {h};
      }
      assert chunks - left == chunks;
    }

    method AcquireData(key: string, remote: Remote) returns (result: Result<Bytes, string>, ghost misses: seq<string>)
      modifies blobs
      ensures Lookup(blobs.data, result, misses) == Acquired(old(blobs.data), key, remote)
    {
      var chunk := blobs.Read(key);
      if chunk.Some? {
        return Ok(chunk.value), [];
      }
      var remoteData := remote(key);
      if remoteData == None {
        return Err("no way to access the chunk"), [key];
      }
      blobs.Write(key, remoteData.value);
      return Ok(remoteData.value), [key];
    }

    method Download(metahash: string, remote: Remote) returns (result: Result<Bytes, string>, ghost misses: seq<string>)
      modifies blobs
      ensures Lookup(blobs.data, result, misses) == Downloaded(old(blobs.data), metahash, remote)
    {
      result, misses := AcquireData(metahash, remote);
      if result.Err? {
        return;
      }
      ghost var start := blobs.data;
      ghost var first := misses;
      var recovered: Bytes := [];
      var chunkHashes := Split(ToText(result.value), METAFILE_SEP);
      ghost var later: seq<string> := [];
      for i := 0 to |chunkHashes|
        invariant Lookup(blobs.data, Ok(recovered), later) == AcquiredAll(start, chunkHashes[..i], remote)
      {
        assert chunkHashes[..i + 1][..i] == chunkHashes[..i];
        var chunk;
        ghost var missed;
        chunk, missed := AcquireData(chunkHashes[i], remote);
        later := later + missed;
        if chunk.Err? {
          StopsAtFailure(start, chunkHashes, i + 1, remote);
          return chunk, first + later;
        }
        recovered := recovered + chunk.value;
      }
      assert chunkHashes[..|chunkHashes|] == chunkHashes;
      return Ok(recovered), first + later;
    }

    /** Whether the file is complete on this node. */
    method IsFullMatchLocally(metahash: string) returns (full: bool)
      ensures full <==> FullMatch(blobs.data, metahash)
    {
      var chunks := GetLocalChunks(metahash);
      if chunks == None {
        return false;
      }
      for i := 0 to |chunks.value|
        invariant forall j :: 0 <= j < i ==> chunks.value[j].Some?
      {
        if chunks.value[i] == None {
          return false;
        }
      }
      return true;
    }

    /** The chunks named by a metafile, None for each that is not in the store. */
    method GetLocalChunks(metahash: string) returns (chunks: Option<seq<Option<Bytes>>>)
      ensures chunks.None? <==> metahash !in blobs.data
      ensures chunks.Some? ==> var keys := ChunkKeys(blobs.data[metahash]);
                               && |chunks.value| == |keys|
                               && forall i :: 0 <= i < |keys| ==>
                                    chunks.value[i] == if keys[i] in blobs.data then Some(blobs.data[keys[i]]) else None
    {
      var metafile := blobs.Read(metahash);
      if metafile == None {
        return None;
      }
      var chunkHashes := Split(ToText(metafile.value), METAFILE_SEP);
      var list: seq<Option<Bytes>> := [];
      for i := 0 to |chunkHashes|
        invariant |list| == i
        invariant forall j :: 0 <= j < i ==>
                    list[j] == if chunkHashes[j] in blobs.data then Some(blobs.data[chunkHashes[j]]) else None
      {
        var chunk := blobs.Read(chunkHashes[i]);
        list := list + [chunk];
      }
      return Some(list);
    }
  }

  lemma {:induction false} StopsAtFailure(data: Entries, keys: seq<string>, i: nat, remote: Remote)
    requires i <= |keys| && AcquiredAll(data, keys[..i], remote).result.Err?
    ensures AcquiredAll(data, keys, remote) == AcquiredAll(data, keys[..i], remote)
  {
    if i < |keys| {
      assert keys[..|keys| - 1][..i] == keys[..i];
      StopsAtFailure(data, keys[..|keys| - 1], i, remote);
    } else {
      assert keys[..i] == keys;
    }
  }

  // What a download gives.

  lemma {:induction false} OneMoreMiss(data: Entries, keys: seq<string>, key: string, remote: Remote)
    requires var before := AcquiredAll(data, keys, remote);
             before.misses == [] ==> before.data == data && before.result.Ok?
    ensures var before, all := AcquiredAll(data, keys, remote), AcquiredAll(data, keys + [key], remote);
            && (all.misses == [] <==> before.misses == [] && key in data)
            && (all.misses == [] ==> all.data == data && all.result.Ok?)
  {
    var before := AcquiredAll(data, keys, remote);
    assert (keys + [key])[..|keys|] == keys;
    if before.misses != [] {
      assert before.misses <= AcquiredAll(data, keys + [key], remote).misses;
    }
  }

  lemma {:induction false} NoMissesIff(data: Entries, keys: seq<string>, remote: Remote)
    ensures var all := AcquiredAll(data, keys, remote);
            && (all.misses == [] <==> forall k :: k in keys ==> k in data)
            && (all.misses == [] ==> all.data == data && all.result.Ok?)
  {
    if keys != [] {
      var front, last := keys[..|keys| - 1], keys[|keys| - 1];
      NoMissesIff(data, front, remote);
      assert keys == front + [last];
      hide AcquiredAll;
      OneMoreMiss(data, front, last, remote);
    }
  }

  /** A file is a full local match exactly when downloading it looks nothing up remotely, whatever the
      other nodes hold. */
  lemma {:induction false} FullMatchIff(data: Entries, metahash: string, remote: Remote)
    ensures FullMatch(data, metahash) <==> Downloaded(data, metahash, remote).misses == []
  {
    var meta := Acquired(data, metahash, remote);
    if meta.result.Ok? {
      NoMissesIff(meta.data, ChunkKeys(meta.result.value), remote);
    }
  }

  /** No two different chunks share a key, and none has the key of the metafile. */
  ghost predicate NoClash(hash: Hash, pieces: seq<Bytes>) {
    && (forall i, j :: 0 <= i < |pieces| && 0 <= j < |pieces| && Key(hash, pieces[i]) == Key(hash, pieces[j]) ==>
          pieces[i] == pieces[j])
    && (forall i :: 0 <= i < |pieces| ==> Key(hash, pieces[i]) != MetaKey(hash, pieces))
  }

  lemma {:induction false} StoredKeys(hash: Hash, pieces: seq<Bytes>, k: nat, i: nat)
    requires NoClash(hash, pieces) && i < k <= |pieces|
    ensures Key(hash, pieces[i]) in Stored(hash, pieces[..k])
    ensures Stored(hash, pieces[..k])[Key(hash, pieces[i])] == pieces[i]
  {
    assert pieces[..k][..k - 1] == pieces[..k - 1];
    if Key(hash, pieces[i]) != Key(hash, pieces[k - 1]) {
      StoredKeys(hash, pieces, k - 1, i);
    }
  }

  lemma {:induction false} ChunkFound(data: Entries, hash: Hash, pieces: seq<Bytes>, i: nat)
    requires NoClash(hash, pieces) && i < |pieces|
    ensures Key(hash, pieces[i]) in data + Chunked(hash, pieces)
    ensures (data + Chunked(hash, pieces))[Key(hash, pieces[i])] == pieces[i]
  {
    StoredKeys(hash, pieces, |pieces|, i);
    assert pieces[..|pieces|] == pieces;
  }

  lemma {:induction false} OneMoreFound(data: Entries, keys: seq<string>, key: string, found: Bytes, remote: Remote)
    requires AcquiredAll(data, keys, remote) == Lookup(data, Ok(found), []) && key in data
    ensures AcquiredAll(data, keys + [key], remote) == Lookup(data, Ok(found + data[key]), [])
  {
    assert (keys + [key])[..|keys|] == keys;
  }

  lemma {:induction false} AllFound(data: Entries, keys: seq<string>, pieces: seq<Bytes>, remote: Remote)
    requires |keys| == |pieces| && forall i :: 0 <= i < |keys| ==> keys[i] in data && data[keys[i]] == pieces[i]
    ensures AcquiredAll(data, keys, remote) == Lookup(data, Ok(Concat(pieces)), [])
  {
    if keys != [] {
      var last := |keys| - 1;
      AllFound(data, keys[..last], pieces[..last], remote);
      OneMoreFound(data, keys[..last], keys[last], Concat(pieces[..last]), remote);
      hide AcquiredAll;
      assert keys == keys[..last] + [keys[last]];
    }
  }

  lemma {:induction false} MetafileKeys(hash: Hash, pieces: seq<Bytes>)
    ensures IsText(Metafile(hash, pieces))
    ensures ChunkKeys(ToBytes(Metafile(hash, pieces))) == if pieces == [] then [""] else Keys(hash, pieces)
  {
    MetafileIsText(hash, pieces);
    var text := Metafile(hash, pieces);
    SameText(text);
    SplitJoin(Keys(hash, pieces), METAFILE_SEP);
  }

  lemma {:induction false} SameText(text: string)
    requires IsText(text)
    ensures ToText(ToBytes(text)) == text
  {
    forall i | 0 <= i < |text|
      ensures ToText(ToBytes(text))[i] == text[i]
    {
      assert ToText(ToBytes(text))[i] as int == text[i] as int;
    }
  }

  lemma {:induction false} LocalMetafile(data: Entries, metahash: string, remote: Remote)
    requires metahash in data
    ensures Downloaded(data, metahash, remote) == AcquiredAll(data, ChunkKeys(data[metahash]), remote)
  {
    hide AcquiredAll, ChunkKeys;
    var rest := AcquiredAll(data, ChunkKeys(data[metahash]), remote);
    assert [] + rest.misses == rest.misses;
  }

  lemma {:induction false} MetafileStored(data: Entries, hash: Hash, pieces: seq<Bytes>, remote: Remote)
    ensures var stored := data + Chunked(hash, pieces);
            Downloaded(stored, MetaKey(hash, pieces), remote) ==
            AcquiredAll(stored, if pieces == [] then [""] else Keys(hash, pieces), remote)
  {
    var stored := data + Chunked(hash, pieces);
    MetafileKeys(hash, pieces);
    assert MetaKey(hash, pieces) in stored && stored[MetaKey(hash, pieces)] == ToBytes(Metafile(hash, pieces));
    hide AcquiredAll, ToBytes, Metafile, MetaKey, Stored, ChunkKeys, Downloaded;
    LocalMetafile(stored, MetaKey(hash, pieces), remote);
  }

  lemma {:induction false} NonEmptyDownload(data: Entries, hash: Hash, pieces: seq<Bytes>, remote: Remote)
    requires NoClash(hash, pieces) && pieces != []
    ensures var stored := data + Chunked(hash, pieces);
            Downloaded(stored, MetaKey(hash, pieces), remote) == Lookup(stored, Ok(Concat(pieces)), [])
  {
    MetafileStored(data, hash, pieces, remote);
    hide Downloaded, AcquiredAll, Chunked, NoClash, Concat;
    var stored := data + Chunked(hash, pieces);
    forall i | 0 <= i < |pieces|
      ensures Keys(hash, pieces)[i] in stored && stored[Keys(hash, pieces)[i]] == pieces[i]
    {
      ChunkFound(data, hash, pieces, i);
    }
    AllFound(stored, Keys(hash, pieces), pieces, remote);
  }

  lemma {:induction false} EmptyDownload(data: Entries, hash: Hash, remote: Remote)
    requires "" !in data && remote("") == None && hash([]) != []
    ensures Downloaded(data + Chunked(hash, []), MetaKey(hash, []), remote).result.Err?
  {
    MetafileStored(data, hash, [], remote);
    assert MetaKey(hash, []) != "";
    assert [""][..0] == [];
  }

  /** Downloading what was uploaded gives the content back if and only if the content is not empty, and then
      it needs no remote help: the metafile of an empty file names one chunk with an empty key. */
  lemma {:induction false} DownloadUploaded(data: Entries, script: seq<Delivery>, hash: Hash, remote: Remote)
    requires Pieces(script).Some? && NoClash(hash, Pieces(script).value) && hash([]) != []
    requires "" !in data && remote("") == None
    ensures var pieces := Pieces(script).value;
            var down := Downloaded(data + Chunked(hash, pieces), MetaKey(hash, pieces), remote);
            && (down.result == Ok(Content(script)) <==> Content(script) != [])
            && (Content(script) != [] ==> down.misses == [])
  {
    var pieces := Pieces(script).value;
    PiecesOfContent([], script);
    PiecesNotEmpty([], script);
    assert Concat([]) + Content(script) == Content(script);
    if pieces == [] {
      EmptyDownload(data, hash, remote);
    } else {
      LastPieceStays(pieces);
      NonEmptyDownload(data, hash, pieces, remote);
    }
    hide Downloaded, Chunked, MetaKey, NoClash, Pieces, Content;
  }

  lemma {:induction false} LastPieceStays(pieces: seq<Bytes>)
    requires pieces != [] && [] !in pieces
    ensures Concat(pieces) != []
  {
    assert pieces[|pieces| - 1] in pieces;
  }
}
