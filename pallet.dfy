/**
 * The proof-of-existence pallet: a registry that maps a byte string (the
 * proof) to the account that claimed it and the block in which it did.
 *
 * The state transitions are given twice: as pure step functions on a
 * `State` value (the specification), and as the methods of class `Pallet`,
 * which update the storage map and the event log in place and are proved to
 * agree with the step functions.
 */
module TemplatePallet {

  /** An account identifier supplied by the runtime; only equality is used. */
  type AccountId(==)

  /** The runtime's block counter. */
  type BlockNumber = nat

  newtype Byte = x: int | 0 <= x < 256

  /** The key of `Proofs`: any byte string, the empty one included. */
  type Proof = seq<Byte>

  /**
   * The origin of an extrinsic as `ensure_signed` sees it: signed by an
   * account, or any origin that is not signed (none, root), all of which
   * `ensure_signed` rejects alike.
   */
  datatype Origin = Signed(who: AccountId) | NotSigned

  /** The value stored under a proof: the owner and the block of the claim. */
  datatype Claim = Claim(owner: AccountId, block: BlockNumber)

  /** The events the pallet deposits, each carrying the sender and the proof. */
  datatype Event =
    | ClaimCreated(who: AccountId, proof: Proof)
    | ClaimRevoked(who: AccountId, proof: Proof)

  /** The pallet's own errors. */
  datatype Error = ProofAlreadyClaimed | NoSuchProof | NotProofOwner

  /** What a dispatchable can fail with: an origin that is not signed, or a pallet error. */
  datatype DispatchError = BadOrigin | Module(error: Error)

  datatype DispatchResult = Ok | Err(error: DispatchError)

  /** Everything a dispatchable can observe or change. */
  datatype State = State(proofs: map<Proof, Claim>, events: seq<Event>)

  /** The state after a dispatchable together with what it returned. */
  datatype Transition = Transition(state: State, result: DispatchResult)

  /** `m1` and `m2` hold the same entries on every key other than `p`. */
  ghost predicate AgreeExcept(m1: map<Proof, Claim>, m2: map<Proof, Claim>, p: Proof)
  {
    forall k :: k != p ==> (k in m1 <==> k in m2) && (k in m1 ==> m1[k] == m2[k])
  }

  /**
   * `create_claim`: an origin that is not signed fails first; a proof that is already
   * claimed fails next; otherwise the proof is stored with the sender and the
   * current block, and `ClaimCreated` is deposited. A failure changes nothing.
   */
  function CreateClaimStep(s: State, origin: Origin, proof: Proof, now: BlockNumber): (t: Transition)
    ensures t.result == Err(BadOrigin) <==> origin.NotSigned?
    ensures t.result == Err(Module(ProofAlreadyClaimed)) <==> origin.Signed? && proof in s.proofs
    ensures t.result == Ok <==> origin.Signed? && proof !in s.proofs
    ensures t.result.Err? ==> t.state == s
    ensures t.result.Ok? ==>
      && proof in t.state.proofs
      && t.state.proofs[proof] == Claim(origin.who, now)
      && AgreeExcept(s.proofs, t.state.proofs, proof)
      && t.state.events == s.events + [ClaimCreated(origin.who, proof)]
  {
    match origin
    case NotSigned => Transition(s, Err(BadOrigin))
    case Signed(sender) =>
      if proof in s.proofs then
        Transition(s, Err(Module(ProofAlreadyClaimed)))
      else
        var proofs := s.proofs[proof := Claim(sender, now)];
        Transition(State(proofs, s.events + [ClaimCreated(sender, proof)]), Ok)
  }

  /**
   * `revoke_claim`: an origin that is not signed fails first; then a proof that is not
   * claimed (whoever asks); then a sender who is not the stored owner.
   * Otherwise the entry is removed and `ClaimRevoked` is deposited. A failure
   * changes nothing.
   */
  function RevokeClaimStep(s: State, origin: Origin, proof: Proof): (t: Transition)
    ensures t.result == Err(BadOrigin) <==> origin.NotSigned?
    ensures t.result == Err(Module(NoSuchProof)) <==> origin.Signed? && proof !in s.proofs
    ensures t.result == Err(Module(NotProofOwner)) <==>
      origin.Signed? && proof in s.proofs && s.proofs[proof].owner != origin.who
    ensures t.result == Ok <==>
      origin.Signed? && proof in s.proofs && s.proofs[proof].owner == origin.who
    ensures t.result.Err? ==> t.state == s
    ensures t.result.Ok? ==>
      && proof !in t.state.proofs
      && AgreeExcept(s.proofs, t.state.proofs, proof)
      && t.state.events == s.events + [ClaimRevoked(origin.who, proof)]
  {
    match origin
    case NotSigned => Transition(s, Err(BadOrigin))
    case Signed(sender) =>
      if proof !in s.proofs then
        Transition(s, Err(Module(NoSuchProof)))
      else if sender != s.proofs[proof].owner then
        Transition(s, Err(Module(NotProofOwner)))
      else
        Transition(State(s.proofs - {proof}, s.events + [ClaimRevoked(sender, proof)]), Ok)
  }

  /** The pallet: the `Proofs` storage map and the events it has deposited. */
  class Pallet {
    var proofs: map<Proof, Claim>
    var events: seq<Event>

    /** A pallet at genesis: no claims, no events. */
    constructor ()
      ensures proofs == map[] && events == []
    {
      proofs := map[];
      events := [];
    }

    /** The pallet's storage and event log as a value. */
    function Snapshot(): State
      reads this
    {
      State(proofs, events)
    }

    /** The `create_claim` dispatchable; `now` is the current block number. */
    method CreateClaim(origin: Origin, proof: Proof, now: BlockNumber) returns (r: DispatchResult)
      modifies this
      ensures CreateClaimStep(old(Snapshot()), origin, proof, now) == Transition(Snapshot(), r)
      ensures r.Err? ==> proofs == old(proofs) && events == old(events)
      ensures r.Ok? ==>
        && proofs == old(proofs)[proof := Claim(origin.who, now)]
        && events == old(events) + [ClaimCreated(origin.who, proof)]
    {
      if origin.NotSigned? {
        return Err(BadOrigin);
      }
      var sender := origin.who;
      if proof in proofs {
        return Err(Module(ProofAlreadyClaimed));
      }
      var currentBlock := now;
      proofs := proofs[proof := Claim(sender, currentBlock)];
      events := events + [ClaimCreated(sender, proof)];
      return Ok;
    }

    /** The `revoke_claim` dispatchable. */
    method RevokeClaim(origin: Origin, proof: Proof) returns (r: DispatchResult)
      modifies this
      ensures RevokeClaimStep(old(Snapshot()), origin, proof) == Transition(Snapshot(), r)
      ensures r.Err? ==> proofs == old(proofs) && events == old(events)
      ensures r.Ok? ==>
        && proofs == old(proofs) - {proof}
        && events == old(events) + [ClaimRevoked(origin.who, proof)]
    {
      if origin.NotSigned? {
        return Err(BadOrigin);
      }
      var sender := origin.who;
      if proof !in proofs {
        return Err(Module(NoSuchProof));
      }
      var owner := proofs[proof].owner;
      if sender != owner {
        return Err(Module(NotProofOwner));
      }
      proofs := proofs - {proof};
      events := events + [ClaimRevoked(sender, proof)];
      return Ok;
    }
  }
}
