/** A node's view: the rumors it saved, per origin and sequence number. */
module GossipViews {
  import opened Common

  datatype Address = Address(name: string)

  datatype Rumor = Rumor(origin: Address, sequence: nat, msg: string)

  type View = map<Address, map<int, Rumor>>

  /** The sequence numbers announced in a status message; -1 marks a blocked origin. */
  type SeqMap = map<Address, int>

  function SequenceOf(v: View, origin: Address): nat {
    if origin in v then |v[origin]| else 0
  }

  predicate Expects(v: View, origin: Address, sequence: int) {
    SequenceOf(v, origin) + 1 == sequence
  }

  function SavedIn(v: View, r: Rumor): View {
    v[r.origin := (if r.origin in v then v[r.origin] else map[])[r.sequence := r]]
  }

  function Sequences(v: View): SeqMap {
    map origin | origin in v :: SequenceOf(v, origin)
  }

  function LookUp(m: SeqMap, origin: Address): int {
    if origin in m then m[origin] else 0
  }

  /** What the remote node has and this node lacks. */
  function RemoteNews(mine: SeqMap, remote: SeqMap): SeqMap {
    map o | o in remote && LookUp(mine, o) < remote[o] :: remote[o]
  }

  /** What this node has and the remote node lacks, blocked origins aside. */
  function OwnNews(mine: SeqMap, remote: SeqMap): SeqMap {
    map o | o in mine && LookUp(remote, o) != -1 && (o !in remote || mine[o] > remote[o]) :: mine[o]
  }

  class PeerView {
    var rumorMap: View

    constructor ()
      ensures rumorMap == map[]
    {
      rumorMap := map[];
    }

    method GetSequence(peerAddr: Address) returns (n: int)
      ensures n == SequenceOf(rumorMap, peerAddr)
    {
      if peerAddr !in rumorMap {
        return 0;
      }
      return |rumorMap[peerAddr]|;
    }

    method DropViewFrom(addr: Address)
      modifies this
      ensures rumorMap == old(rumorMap) - {addr}
    {
      rumorMap := rumorMap - {addr};
    }

    method IsExpected(peerAddr: Address, givenSequence: int) returns (expected: bool)
      ensures expected <==> Expects(rumorMap, peerAddr, givenSequence)
    {
      var currSeq := GetSequence(peerAddr);
      return currSeq + 1 == givenSequence;
    }

    method SaveRumor(rumor: Rumor)
      modifies this
      ensures rumorMap == SavedIn(old(rumorMap), rumor)
    {
      if rumor.origin !in rumorMap {
        rumorMap := rumorMap[rumor.origin := map[]];
      }
      rumorMap := rumorMap[rumor.origin := rumorMap[rumor.origin][rumor.sequence := rumor]];
    }

    method GetSavedRumor(origin: Address, sequence: int) returns (r: Option<Rumor>)
      ensures r == if origin in rumorMap && sequence in rumorMap[origin] then Some(rumorMap[origin][sequence]) else None
    {
      if origin !in rumorMap {
        return None;
      }
      if sequence !in rumorMap[origin] {
        return None;
      }
      return Some(rumorMap[origin][sequence]);
    }

    method AsSequenceMap() returns (m: SeqMap)
      ensures m == Sequences(rumorMap)
    {
      m := map[];
      var left := rumorMap.Keys;
      while left != {}
        invariant left <= rumorMap.Keys
        invariant m == map k | k in rumorMap.Keys - left :: SequenceOf(rumorMap, k)
      {
        var k :| k in left;
        var n := GetSequence(k);
        m := m[k := n];
        left := left - {k};
      }
    }

    method Compare(remoteSequenceMap: SeqMap) returns (rmtNews: SeqMap, thsNews: SeqMap)
      ensures rmtNews == RemoteNews(Sequences(rumorMap), remoteSequenceMap)
      ensures thsNews == OwnNews(Sequences(rumorMap), remoteSequenceMap)
    {
      var mySeqMap := AsSequenceMap();
      rmtNews := FindRemoteNews(mySeqMap, remoteSequenceMap);
      thsNews := FindOwnNews(mySeqMap, remoteSequenceMap);
    }

    /** The first loop of Compare; the order in which it walks the map is arbitrary. */
    static method FindRemoteNews(mySeqMap: SeqMap, remoteSequenceMap: SeqMap) returns (rmtNews: SeqMap)
      ensures rmtNews == RemoteNews(mySeqMap, remoteSequenceMap)
    {
      rmtNews := map[];
      var left := remoteSequenceMap.Keys;
      while left != {}
        invariant left <= remoteSequenceMap.Keys
        invariant rmtNews == RemoteNews(mySeqMap, remoteSequenceMap) - left
      {
        var remotePeer :| remotePeer in left;
        var thisSeq := if remotePeer in mySeqMap then mySeqMap[remotePeer] else 0;
        if thisSeq < remoteSequenceMap[remotePeer] {
          rmtNews := rmtNews[remotePeer := remoteSequenceMap[remotePeer]];
        }
        left := left - {remotePeer};
      }
    }

    /** The second loop of Compare. */
    static method FindOwnNews(mySeqMap: SeqMap, remoteSequenceMap: SeqMap) returns (thsNews: SeqMap)
      ensures thsNews == OwnNews(mySeqMap, remoteSequenceMap)
    {
      thsNews := map[];
      var left := mySeqMap.Keys;
      while left != {}
        invariant left <= mySeqMap.Keys
        invariant thsNews == OwnNews(mySeqMap, remoteSequenceMap) - left
      {
        var thisPeer :| thisPeer in left;
        left := left - {thisPeer};
        var ok := thisPeer in remoteSequenceMap;
        var remoteSeq := if ok then remoteSequenceMap[thisPeer] else 0;
        if remoteSeq == -1 {
          continue;
        }
        if !ok || mySeqMap[thisPeer] > remoteSeq {
          thsNews := thsNews[thisPeer := mySeqMap[thisPeer]];
        }
      }
    }
  }
}
