/**
 The registry class of src/model/ServiceChildRecordedUseRegistry.ts. It indexes the leases
 by child and by recording, and every method is proved to do to the flat set of leases what
 `RecordedUse` says.
 */
module RecordedUseRegistry {
  import opened Options
  import opened RecordedUse
  import U = RecordedUse

  class ServiceChildRecordedUseRegistry {
    var currentPeer: Option<Peer>
    var leasesByRecordedId: map<int, set<Lease>>
    var leasesByPeer: map<Peer, map<int, Lease>>
    var lastReleasedRequestIds: map<Peer, int>
    var deletionTokens: map<int, Token>
    var deletionRecordedIds: map<Token, int>
    var observedPeers: set<Peer>
    var terminalListeners: set<Peer>
    var unknownLeases: set<Lease>
    var nextToken: Token
    ghost var leases: set<Lease>

    /** The index by recording lists exactly the leases in `all`, with no empty entry. */
    ghost predicate RecordedIndexOk(all: set<Lease>)
      reads this`leasesByRecordedId
    {
      && (forall l :: l in all ==> l.recordedId in leasesByRecordedId && l in leasesByRecordedId[l.recordedId])
      && (forall r :: r in leasesByRecordedId ==>
            leasesByRecordedId[r] != {} && forall l :: l in leasesByRecordedId[r] ==> l in all && l.recordedId == r)
    }

    ghost predicate Valid()
      reads this
    {
      && PeerIndexLists(leases) && RecordedIndexOk(leases)
      && (forall t :: t in deletionRecordedIds ==> t < nextToken)
    }

    ghost function View(): Uses
      reads this
    {
      Uses(currentPeer, leases, unknownLeases, lastReleasedRequestIds, deletionTokens, deletionRecordedIds,
           observedPeers, terminalListeners)
    }

    constructor ()
      ensures Valid() && View() == NO_USES
    {
      currentPeer, leasesByRecordedId, leasesByPeer, lastReleasedRequestIds := None, map[], map[], map[];
      deletionTokens, deletionRecordedIds, observedPeers, terminalListeners := map[], map[], {}, {};
      unknownLeases, nextToken, leases := {}, 0, {};
    }

    method RegisterPeer(peer: Peer)
      requires Valid()
      modifies this
      ensures Valid() && View() == Register(old(View()), peer)
    {
      currentPeer := Some(peer);
      if peer in observedPeers || !peer.observable { return; }
      observedPeers := observedPeers + {peer};
      terminalListeners := terminalListeners + {peer};
    }

    /** The index by child answers whether a request id is in use. */
    lemma IndexedByPeer(peer: Peer, requestId: int)
      requires PeerIndexLists(leases)
      ensures Holds(View(), peer, requestId) <==> peer in leasesByPeer && requestId in leasesByPeer[peer]
      ensures Holds(View(), peer, requestId) ==> Named(View(), peer, requestId) == {leasesByPeer[peer][requestId]}
    {
    }

    lemma IndexedByRecording(recordedId: int)
      requires RecordedIndexOk(leases)
      ensures HeldOn(View(), recordedId) == if recordedId in leasesByRecordedId then leasesByRecordedId[recordedId] else {}
    {
    }

    method Acquire(lease: Lease) returns (status: AcquireStatus)
      requires Valid()
      modifies this
      ensures Valid() && View() == U.Acquire(old(View()), lease)
      ensures status == AcquireStatusOf(old(View()), lease)
    {
      IndexedByPeer(lease.senderPeer, lease.requestId);
      if !IsSafeId(lease.requestId) || !IsSafeId(lease.recordedId) || lease.kind == OtherKind
         || currentPeer != Some(lease.senderPeer) {
        return UnknownSender;
      }
      if lease.senderPeer in leasesByPeer && lease.requestId in leasesByPeer[lease.senderPeer] { return UnknownSender; }
      if lease.recordedId in deletionTokens { return Blocked; }

      IndexByPeer(lease);
      IndexByRecording(lease, leases);
      lastReleasedRequestIds := lastReleasedRequestIds - {lease.senderPeer};
      leases := leases + {lease};
      return Granted;
    }

    /** The index by child lists exactly the leases in `all`. */
    ghost predicate PeerIndexLists(all: set<Lease>)
      reads this`leasesByPeer
    {
      && (forall l :: l in all ==>
            l.senderPeer in leasesByPeer && l.requestId in leasesByPeer[l.senderPeer]
            && leasesByPeer[l.senderPeer][l.requestId] == l)
      && (forall p, q :: p in leasesByPeer && q in leasesByPeer[p] ==>
            leasesByPeer[p][q] in all && leasesByPeer[p][q].senderPeer == p && leasesByPeer[p][q].requestId == q)
    }

    method IndexByPeer(lease: Lease)
      requires PeerIndexLists(leases) && !(lease.senderPeer in leasesByPeer && lease.requestId in leasesByPeer[lease.senderPeer])
      modifies this`leasesByPeer
      ensures PeerIndexLists(leases + {lease})
    {
      var peerLeases := if lease.senderPeer in leasesByPeer then leasesByPeer[lease.senderPeer] else map[];
      leasesByPeer := leasesByPeer[lease.senderPeer := peerLeases[lease.requestId := lease]];
    }

    method IndexByRecording(lease: Lease, ghost all: set<Lease>)
      requires RecordedIndexOk(all)
      modifies this`leasesByRecordedId
      ensures RecordedIndexOk(all + {lease})
    {
      var recordedLeases := if lease.recordedId in leasesByRecordedId then leasesByRecordedId[lease.recordedId] else {};
      leasesByRecordedId := leasesByRecordedId[lease.recordedId := recordedLeases + {lease}];
    }

    /** Takes one lease out of the index by recording; the set it is in must be there. */
    method Unindex(lease: Lease, ghost all: set<Lease>)
      requires lease in all && RecordedIndexOk(all)
      modifies this`leasesByRecordedId, this`unknownLeases
      ensures RecordedIndexOk(all - {lease}) && unknownLeases == old(unknownLeases) - {lease}
    {
      unknownLeases := unknownLeases - {lease};
      var recordedLeases := leasesByRecordedId[lease.recordedId] - {lease};
      if recordedLeases == {} {
        leasesByRecordedId := leasesByRecordedId - {lease.recordedId};
      } else {
        leasesByRecordedId := leasesByRecordedId[lease.recordedId := recordedLeases];
      }
    }

    method Release(peer: Peer, acquisitionRequestId: int) returns (status: ReleaseStatus)
      requires Valid()
      modifies this
      ensures Valid() && View() == U.Release(old(View()), peer, acquisitionRequestId)
      ensures status == ReleaseStatusOf(old(View()), peer, acquisitionRequestId)
    {
      IndexedByPeer(peer, acquisitionRequestId);
      if !IsSafeId(acquisitionRequestId) { return UnknownLease; }
      if peer !in leasesByPeer || acquisitionRequestId !in leasesByPeer[peer] {
        return if peer in lastReleasedRequestIds && lastReleasedRequestIds[peer] == acquisitionRequestId
               then AlreadyReleased else UnknownLease;
      }
      var lease := leasesByPeer[peer][acquisitionRequestId];
      if lease.recordedId !in leasesByRecordedId || lease !in leasesByRecordedId[lease.recordedId] { assert false; }

      UnindexByPeer(lease);
      Unindex(lease, leases);
      leases := leases - {lease};
      lastReleasedRequestIds := lastReleasedRequestIds[peer := acquisitionRequestId];
      return Released;
    }

    method UnindexByPeer(lease: Lease)
      requires PeerIndexLists(leases) && lease in leases
      modifies this`leasesByPeer
      ensures PeerIndexLists(leases - {lease})
    {
      leasesByPeer := leasesByPeer[lease.senderPeer := leasesByPeer[lease.senderPeer] - {lease.requestId}];
    }

    /** Releases every lease of an ended child. */
    method ReleasePeer(peer: Peer)
      requires Valid()
      modifies this
      ensures Valid() && View() == U.ReleasePeer(old(View()), peer)
    {
      var held := LeasesOf(peer);
      assert held == HeldBy(View(), peer);
      if peer !in leasesByPeer { return; }
      leasesByPeer := leasesByPeer - {peer};
      UnindexAll(held);
      leases := leases - held;
    }

    method UnindexAll(held: set<Lease>)
      requires RecordedIndexOk(leases) && held <= leases
      modifies this`leasesByRecordedId, this`unknownLeases
      ensures RecordedIndexOk(leases - held) && unknownLeases == old(unknownLeases) - held
    {
      var rest := held;
      while rest != {}
        invariant rest <= held
        invariant RecordedIndexOk(leases - (held - rest))
        invariant unknownLeases == old(unknownLeases) - (held - rest)
        decreases rest
      {
        var lease :| lease in rest;
        Unindex(lease, leases - (held - rest));
        assert leases - (held - rest) - {lease} == leases - (held - (rest - {lease}));
        rest := rest - {lease};
      }
      assert held - {} == held;
    }

    /** The first lifecycle event that ends a child. */
    method HandlePeerTerminal(peer: Peer)
      requires Valid()
      modifies this
      ensures Valid() && View() == Terminate(old(View()), peer)
    {
      if peer !in terminalListeners { return; }
      terminalListeners := terminalListeners - {peer};
      unknownLeases := unknownLeases + LeasesOf(peer);
      if currentPeer == Some(peer) { currentPeer := None; }
    }

    function LeasesOf(peer: Peer): (held: set<Lease>)
      requires PeerIndexLists(leases)
      reads this`leasesByPeer, this`leases
      ensures held == set l | l in leases && l.senderPeer == peer
    {
      if peer in leasesByPeer then set q | q in leasesByPeer[peer] :: leasesByPeer[peer][q] else {}
    }

    method TryAcquireDeletion(recordedId: int) returns (status: DeletionStatus)
      requires Valid()
      modifies this
      ensures Valid() && status == DeletionStatusOf(old(View()), recordedId, old(nextToken))
      ensures View() == TryDelete(old(View()), recordedId, old(nextToken))
    {
      IndexedByRecording(recordedId);
      if !IsSafeId(recordedId) || currentPeer.None? { return Unknown; }
      var held := if recordedId in leasesByRecordedId then leasesByRecordedId[recordedId] else {};
      if exists l :: l in held && l in unknownLeases {
        ghost var l :| l in held && l in unknownLeases;
        assert l in HeldOn(View(), recordedId) * unknownLeases;
        return Unknown;
      }
      assert held * unknownLeases == {};
      if recordedId in leasesByRecordedId || recordedId in deletionTokens { return Busy; }

      var token := nextToken;
      nextToken := nextToken + 1;
      deletionTokens := deletionTokens[recordedId := token];
      deletionRecordedIds := deletionRecordedIds[token := recordedId];
      return Deletion(token);
    }

    method ReleaseDeletion(token: Token)
      requires Valid()
      modifies this
      ensures Valid() && View() == U.ReleaseDeletion(old(View()), token)
    {
      if token !in deletionRecordedIds { return; }
      var recordedId := deletionRecordedIds[token];
      if recordedId !in deletionTokens || deletionTokens[recordedId] != token { return; }
      deletionTokens := deletionTokens - {recordedId};
    }
  }
}
