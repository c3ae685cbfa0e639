/**
 Leases on recordings held by service children, and the deletion tokens of the parent
 (src/model/ServiceChildRecordedUseRegistry.ts). This is the flat meaning: one set of leases and
 one map of tokens. `RecordedUseRegistry` holds the class with its indexes.
 */
module RecordedUse {
  import opened Options

  const MAX_SAFE_INTEGER := 0x1F_FFFF_FFFF_FFFF

  datatype Kind = Encoding | Delivery | OtherKind

  /** A child process. `observable` says whether it emits lifecycle events. */
  datatype Peer = Peer(id: nat, observable: bool)

  datatype Lease = Lease(kind: Kind, recordedId: int, requestId: int, senderPeer: Peer)

  /** Tokens are compared by identity only; the number stands for it. */
  type Token = nat

  datatype AcquireStatus = Granted | Blocked | UnknownSender
  datatype ReleaseStatus = Released | AlreadyReleased | UnknownLease
  datatype DeletionStatus = Deletion(token: Token) | Busy | Unknown

  predicate IsSafeId(id: int) {
    0 < id <= MAX_SAFE_INTEGER
  }

  datatype Uses = Uses(
    current: Option<Peer>,
    leases: set<Lease>,
    unknown: set<Lease>,
    lastReleased: map<Peer, int>,
    tokens: map<int, Token>,
    issued: map<Token, int>,
    watched: set<Peer>,
    listening: set<Peer>)

  const NO_USES := Uses(None, {}, {}, map[], map[], map[], {}, {})

  function HeldBy(u: Uses, peer: Peer): set<Lease> {
    set l | l in u.leases && l.senderPeer == peer
  }

  function HeldOn(u: Uses, recordedId: int): set<Lease> {
    set l | l in u.leases && l.recordedId == recordedId
  }

  predicate Holds(u: Uses, peer: Peer, requestId: int) {
    exists l :: l in u.leases && l.senderPeer == peer && l.requestId == requestId
  }

  function Named(u: Uses, peer: Peer, requestId: int): set<Lease> {
    set l | l in u.leases && l.senderPeer == peer && l.requestId == requestId
  }

  function Register(u: Uses, peer: Peer): Uses {
    if peer in u.watched || !peer.observable then u.(current := Some(peer))
    else u.(current := Some(peer), watched := u.watched + {peer}, listening := u.listening + {peer})
  }

  function AcquireStatusOf(u: Uses, l: Lease): AcquireStatus {
    if !IsSafeId(l.requestId) || !IsSafeId(l.recordedId) || l.kind == OtherKind || u.current != Some(l.senderPeer)
       || Holds(u, l.senderPeer, l.requestId) then UnknownSender
    else if l.recordedId in u.tokens then Blocked
    else Granted
  }

  function Acquire(u: Uses, l: Lease): Uses {
    if AcquireStatusOf(u, l) == Granted
    then u.(leases := u.leases + {l}, lastReleased := u.lastReleased - {l.senderPeer})
    else u
  }

  function ReleaseStatusOf(u: Uses, peer: Peer, requestId: int): ReleaseStatus {
    if !IsSafeId(requestId) then UnknownLease
    else if Holds(u, peer, requestId) then Released
    else if peer in u.lastReleased && u.lastReleased[peer] == requestId then AlreadyReleased
    else UnknownLease
  }

  function Release(u: Uses, peer: Peer, requestId: int): Uses {
    if ReleaseStatusOf(u, peer, requestId) == Released
    then u.(leases := u.leases - Named(u, peer, requestId), unknown := u.unknown - Named(u, peer, requestId),
            lastReleased := u.lastReleased[peer := requestId])
    else u
  }

  function ReleasePeer(u: Uses, peer: Peer): Uses {
    u.(leases := u.leases - HeldBy(u, peer), unknown := u.unknown - HeldBy(u, peer))
  }

  function Terminate(u: Uses, peer: Peer): Uses {
    if peer in u.listening
    then u.(unknown := u.unknown + HeldBy(u, peer), listening := u.listening - {peer},
            current := if u.current == Some(peer) then None else u.current)
    else u
  }

  function DeletionStatusOf(u: Uses, recordedId: int, token: Token): DeletionStatus {
    if !IsSafeId(recordedId) || u.current.None? || HeldOn(u, recordedId) * u.unknown != {} then Unknown
    else if HeldOn(u, recordedId) != {} || recordedId in u.tokens then Busy
    else Deletion(token)
  }

  /** `token` is the identity of the object created if the deletion is granted. */
  function TryDelete(u: Uses, recordedId: int, token: Token): Uses {
    if DeletionStatusOf(u, recordedId, token).Deletion?
    then u.(tokens := u.tokens[recordedId := token], issued := u.issued[token := recordedId])
    else u
  }

  function ReleaseDeletion(u: Uses, token: Token): Uses {
    if token in u.issued && u.issued[token] in u.tokens && u.tokens[u.issued[token]] == token
    then u.(tokens := u.tokens - {u.issued[token]})
    else u
  }

  /** What every operation keeps: no recording is leased and being deleted at once. */
  ghost predicate Exclusive(u: Uses) {
    && (forall l :: l in u.leases ==> l.recordedId !in u.tokens)
    && (forall l, m :: l in u.leases && m in u.leases && l.senderPeer == m.senderPeer && l.requestId == m.requestId ==> l == m)
    && u.unknown <= u.leases
    && (forall r :: r in u.tokens ==> u.tokens[r] in u.issued && u.issued[u.tokens[r]] == r)
  }

  datatype Operation =
    | OpRegister(peer: Peer)
    | OpAcquire(lease: Lease)
    | OpRelease(peer: Peer, requestId: int)
    | OpReleasePeer(peer: Peer)
    | OpTerminate(peer: Peer)
    | OpTryDelete(recordedId: int)
    | OpReleaseDeletion(token: Token)

  function Apply(u: Uses, op: Operation, minted: Token): Uses {
    match op
    case OpRegister(peer) => Register(u, peer)
    case OpAcquire(lease) => Acquire(u, lease)
    case OpRelease(peer, requestId) => Release(u, peer, requestId)
    case OpReleasePeer(peer) => ReleasePeer(u, peer)
    case OpTerminate(peer) => Terminate(u, peer)
    case OpTryDelete(recordedId) => TryDelete(u, recordedId, minted)
    case OpReleaseDeletion(token) => ReleaseDeletion(u, token)
  }

  lemma ApplyKeepsExclusive(u: Uses, op: Operation, minted: Token)
    requires Exclusive(u) && minted !in u.issued
    ensures Exclusive(Apply(u, op, minted))
  {
    match op
    case OpAcquire(lease) =>
      if AcquireStatusOf(u, lease) == Granted {
        assert forall l :: l in u.leases ==> !(l.senderPeer == lease.senderPeer && l.requestId == lease.requestId);
      }
    case OpTryDelete(recordedId) =>
      if DeletionStatusOf(u, recordedId, minted).Deletion? {
        assert forall l :: l in u.leases && l.recordedId == recordedId ==> l in HeldOn(u, recordedId);
      }
    case _ =>
  }

  /** Neither the served child nor the tokens nor what is watched changes. */
  ghost predicate OnlyLeases(u: Uses, v: Uses) {
    v.current == u.current && v.tokens == u.tokens && v.issued == u.issued && v.watched == u.watched && v.listening == u.listening
  }

  /** A request of the served child, under an id that none of its leases has, for something a recording is used for. */
  ghost predicate ProperRequest(u: Uses, l: Lease) {
    && 0 < l.requestId < 9007199254740992 && 0 < l.recordedId < 9007199254740992 && (l.kind.Encoding? || l.kind.Delivery?)
    && u.current == Some(l.senderPeer)
    && forall m :: m in u.leases && m.senderPeer == l.senderPeer ==> m.requestId != l.requestId
  }

  /** Such a request is granted exactly if the recording is not being deleted, and then only adds its lease. */
  lemma AcquireExactly(u: Uses, l: Lease)
    ensures AcquireStatusOf(u, l) == Granted <==> ProperRequest(u, l) && l.recordedId !in u.tokens
    ensures AcquireStatusOf(u, l) == Blocked <==> ProperRequest(u, l) && l.recordedId in u.tokens
    ensures var v := Acquire(u, l);
      if ProperRequest(u, l) && l.recordedId !in u.tokens
      then OnlyLeases(u, v) && v.unknown == u.unknown && v.leases == u.leases + {l} && v.lastReleased == u.lastReleased - {l.senderPeer}
      else v == u
  {
  }

  ghost predicate IsOf(l: Lease, peer: Peer, requestId: int) {
    l.senderPeer == peer && l.requestId == requestId
  }

  /** A release ends the lease of that child with that id and no other; the last one released is remembered. */
  lemma ReleaseExactly(u: Uses, peer: Peer, requestId: int)
    ensures ReleaseStatusOf(u, peer, requestId) == Released
       <==> 0 < requestId < 9007199254740992 && exists l :: l in u.leases && IsOf(l, peer, requestId)
    ensures ReleaseStatusOf(u, peer, requestId) == AlreadyReleased
       <==> && 0 < requestId < 9007199254740992 && (peer in u.lastReleased && u.lastReleased[peer] == requestId)
            && forall l :: l in u.leases ==> !IsOf(l, peer, requestId)
    ensures var v := Release(u, peer, requestId);
      if ReleaseStatusOf(u, peer, requestId) != Released then v == u
      else
        && OnlyLeases(u, v) && v.lastReleased == u.lastReleased[peer := requestId]
        && (forall l :: l in v.leases <==> l in u.leases && !IsOf(l, peer, requestId))
        && forall l :: l in u.leases ==> (l in v.unknown <==> l in u.unknown && !IsOf(l, peer, requestId))
  {
    assert Holds(u, peer, requestId) <==> exists l :: l in u.leases && IsOf(l, peer, requestId);
  }

  /** All leases of a child end together, and no other lease does. */
  lemma ReleasePeerExactly(u: Uses, peer: Peer)
    ensures var v := ReleasePeer(u, peer);
      && OnlyLeases(u, v) && v.lastReleased == u.lastReleased
      && (forall l :: l in v.leases <==> l in u.leases && l.senderPeer != peer)
      && forall l :: l in u.leases ==> (l in v.unknown <==> l in u.unknown && l.senderPeer != peer)
  {
  }

  /** With the child that ends its leases become unknown and stay; it is served no more, and heard only once. */
  lemma TerminateExactly(u: Uses, peer: Peer)
    ensures var v := Terminate(u, peer);
      if peer !in u.listening then v == u
      else
        && v.leases == u.leases && v.tokens == u.tokens && v.issued == u.issued && v.lastReleased == u.lastReleased
        && v.watched == u.watched && v.listening == u.listening - {peer}
        && v.current == (if u.current == Some(peer) then None else u.current)
        && forall l :: l in v.unknown <==> l in u.unknown || (l in u.leases && l.senderPeer == peer)
  {
  }

  /** A new child is served from now on; its end is listened for once, if it can be heard at all. */
  lemma RegisterExactly(u: Uses, peer: Peer)
    ensures var v := Register(u, peer);
      && v.current == Some(peer) && v.leases == u.leases && v.unknown == u.unknown && v.tokens == u.tokens && v.issued == u.issued
      && v.lastReleased == u.lastReleased
      && (forall q :: q in v.watched <==> q in u.watched || (q == peer && peer.observable))
      && (forall q :: q in v.listening <==> q in u.listening || (q == peer && peer.observable && peer !in u.watched))
  {
  }

  /**
   A recording may be deleted exactly if a child is served and neither a lease nor a token is on it.
   It is unknown whether it may if there is no child, or if the lease of a child that ended is on it.
   */
  lemma DeletionExactly(u: Uses, recordedId: int, token: Token)
    ensures DeletionStatusOf(u, recordedId, token) == Deletion(token)
       <==> && 0 < recordedId < 9007199254740992 && u.current.Some? && recordedId !in u.tokens
            && forall l :: l in u.leases ==> l.recordedId != recordedId
    ensures DeletionStatusOf(u, recordedId, token) == Unknown
       <==> !(0 < recordedId < 9007199254740992) || u.current.None?
            || exists l :: l in u.leases && l in u.unknown && l.recordedId == recordedId
    ensures var v := TryDelete(u, recordedId, token);
      if DeletionStatusOf(u, recordedId, token) != Deletion(token) then v == u
      else v == u.(tokens := u.tokens[recordedId := token], issued := u.issued[token := recordedId])
  {
    assert HeldOn(u, recordedId) == {} <==> forall l :: l in u.leases ==> l.recordedId != recordedId by {
      assert forall l :: l in HeldOn(u, recordedId) <==> l in u.leases && l.recordedId == recordedId;
    }
    assert HeldOn(u, recordedId) * u.unknown != {} <==> exists l :: l in u.leases && l in u.unknown && l.recordedId == recordedId by {
      assert forall l :: l in HeldOn(u, recordedId) * u.unknown <==> l in u.leases && l in u.unknown && l.recordedId == recordedId;
    }
  }

  /** A repeated release changes nothing and says so. */
  lemma ReleaseTwice(u: Uses, peer: Peer, requestId: int)
    requires ReleaseStatusOf(u, peer, requestId) == Released
    ensures var v := Release(u, peer, requestId);
      ReleaseStatusOf(v, peer, requestId) == AlreadyReleased && Release(v, peer, requestId) == v
  {
    var v := Release(u, peer, requestId);
    assert !Holds(v, peer, requestId) by {
      forall l | l in v.leases ensures !(l.senderPeer == peer && l.requestId == requestId) {
        assert l !in Named(u, peer, requestId);
      }
    }
  }

  /** Once released, a token can never release the token that later replaces it. */
  lemma StaleTokenReleasesNothing(u: Uses, recordedId: int, stale: Token, newer: Token)
    requires Exclusive(u) && stale in u.issued && u.issued[stale] == recordedId && newer !in u.issued
    requires DeletionStatusOf(u, recordedId, newer) == Deletion(newer)
    ensures var v := TryDelete(u, recordedId, newer);
      && ReleaseDeletion(v, stale) == v
      && ReleaseDeletion(v, newer).tokens == u.tokens
      && ReleaseDeletion(ReleaseDeletion(v, newer), newer) == ReleaseDeletion(v, newer)
  {
  }
}
