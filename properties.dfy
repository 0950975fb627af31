/**
 * Properties of the proof-of-existence pallet: what one dispatchable does
 * to the claims of other proofs, what a pair or triple of dispatchables
 * does, and invariants that hold along any sequence of dispatchables applied
 * one at a time, as the runtime applies the extrinsics of a block.
 */
module ClaimProperties {
  import opened TemplatePallet

  /** One extrinsic of this pallet with its origin (and, for a creation, the block number). */
  datatype Call =
    | CreateClaimCall(origin: Origin, proof: Proof, now: BlockNumber)
    | RevokeClaimCall(origin: Origin, proof: Proof)

  function Apply(s: State, c: Call): Transition
  {
    if c.CreateClaimCall? then CreateClaimStep(s, c.origin, c.proof, c.now)
    else RevokeClaimStep(s, c.origin, c.proof)
  }

  /** The state after applying `calls` in order, whatever each returns. */
  function Run(s: State, calls: seq<Call>): State
    decreases |calls|
  {
    if calls == [] then s else Run(Apply(s, calls[0]).state, calls[1..])
  }

  const Genesis: State := State(map[], [])

  /* ---------------------------------------------------------------------- */
  /* Single calls                                                           */
  /* ---------------------------------------------------------------------- */

  /**
   * A dispatchable on one proof never changes the entry, nor the presence,
   * of any other proof.
   */
  lemma StepIsolation(s: State, c: Call, other: Proof)
    requires other != c.proof
    ensures other in Apply(s, c).state.proofs <==> other in s.proofs
    ensures other in s.proofs ==> Apply(s, c).state.proofs[other] == s.proofs[other]
  {
  }

  /**
   * The lifecycle of a record: it is never changed in place; it appears only
   * through a successful `create_claim` on its proof, holding the sender and
   * the current block; it disappears only through a successful
   * `revoke_claim` on its proof by its owner.
   */
  lemma StepLifecycle(s: State, c: Call, p: Proof)
    ensures var s' := Apply(s, c).state;
      p in s.proofs && p in s'.proofs ==> s'.proofs[p] == s.proofs[p]
    ensures var t := Apply(s, c);
      p !in s.proofs && p in t.state.proofs ==>
        && c.CreateClaimCall? && c.proof == p && t.result == Ok
        && t.state.proofs[p] == Claim(c.origin.who, c.now)
    ensures var t := Apply(s, c);
      p in s.proofs && p !in t.state.proofs ==>
        && c.RevokeClaimCall? && c.proof == p && t.result == Ok
        && c.origin == Signed(s.proofs[p].owner)
  {
  }

  /** A successful call deposits exactly one event, naming its sender and proof. */
  lemma StepEvents(s: State, c: Call)
    ensures var t := Apply(s, c);
      t.state.events == if t.result.Err? then s.events
        else if c.CreateClaimCall? then s.events + [ClaimCreated(c.origin.who, c.proof)]
        else s.events + [ClaimRevoked(c.origin.who, c.proof)]
  {
  }

  /* ---------------------------------------------------------------------- */
  /* Short sequences                                                        */
  /* ---------------------------------------------------------------------- */

  /**
   * Claiming an unclaimed proof and then revoking it as the same account
   * both succeed and restore the original map; the log gains the two events.
   */
  lemma CreateThenRevokeRestores(s: State, a: AccountId, p: Proof, now: BlockNumber)
    requires p !in s.proofs
    ensures var t1 := CreateClaimStep(s, Signed(a), p, now);
      var t2 := RevokeClaimStep(t1.state, Signed(a), p);
      && t1.result == Ok && t2.result == Ok
      && t2.state.proofs == s.proofs
      && t2.state.events == s.events + [ClaimCreated(a, p), ClaimRevoked(a, p)]
  {
  }

  /**
   * Once a proof is claimed by `a`, a second claim by anybody (`a` included)
   * fails with `ProofAlreadyClaimed` and the record stays `(a, now)`.
   */
  lemma SecondClaimFails(s: State, a: AccountId, b: AccountId, p: Proof, now: BlockNumber, later: BlockNumber)
    requires p !in s.proofs
    ensures var t1 := CreateClaimStep(s, Signed(a), p, now);
      var t2 := CreateClaimStep(t1.state, Signed(b), p, later);
      && t2.result == Err(Module(ProofAlreadyClaimed))
      && t2.state == t1.state
      && t2.state.proofs[p] == Claim(a, now)
  {
  }

  /**
   * Once a proof is claimed by `a`, a revocation by another account fails
   * with `NotProofOwner` and changes nothing.
   */
  lemma RevokeByOtherFails(s: State, a: AccountId, b: AccountId, p: Proof, now: BlockNumber)
    requires p !in s.proofs && a != b
    ensures var t1 := CreateClaimStep(s, Signed(a), p, now);
      var t2 := RevokeClaimStep(t1.state, Signed(b), p);
      && t2.result == Err(Module(NotProofOwner))
      && t2.state == t1.state
  {
  }

  /**
   * After a claim and its revocation, anybody may claim the proof afresh,
   * and the new record holds the new owner and the new block.
   */
  lemma ReclaimAfterRevoke(s: State, a: AccountId, b: AccountId, p: Proof, t1: BlockNumber, t2: BlockNumber)
    requires p !in s.proofs
    ensures var r1 := CreateClaimStep(s, Signed(a), p, t1);
      var r2 := RevokeClaimStep(r1.state, Signed(a), p);
      var r3 := CreateClaimStep(r2.state, Signed(b), p, t2);
      && r3.result == Ok
      && r3.state.proofs[p] == Claim(b, t2)
  {
  }

  /**
   * A run of five calls on one proof: claim by `alice`, claim by `bob`,
   * revocation by `bob`, revocation by `alice`, revocation by `alice` again.
   */
  lemma ExampleRun(alice: AccountId, bob: AccountId, p: Proof, now: BlockNumber)
    requires alice != bob
    ensures var s1 := CreateClaimStep(Genesis, Signed(alice), p, now);
      var s2 := CreateClaimStep(s1.state, Signed(bob), p, now);
      var s3 := RevokeClaimStep(s2.state, Signed(bob), p);
      var s4 := RevokeClaimStep(s3.state, Signed(alice), p);
      var s5 := RevokeClaimStep(s4.state, Signed(alice), p);
      && s1.result == Ok && s1.state.events == [ClaimCreated(alice, p)]
      && s2.result == Err(Module(ProofAlreadyClaimed))
      && s3.result == Err(Module(NotProofOwner))
      && s4.result == Ok && s4.state.events == [ClaimCreated(alice, p), ClaimRevoked(alice, p)]
      && s5.result == Err(Module(NoSuchProof))
      && s5.state == State(map[], [ClaimCreated(alice, p), ClaimRevoked(alice, p)])
  {
  }

  /* ---------------------------------------------------------------------- */
  /* Any sequence of calls                                                  */
  /* ---------------------------------------------------------------------- */

  /** Calls that never name proof `p` leave the entry and presence of `p` alone. */
  lemma {:induction false} RunIsolation(s: State, calls: seq<Call>, p: Proof)
    requires forall i :: 0 <= i < |calls| ==> calls[i].proof != p
    ensures p in Run(s, calls).proofs <==> p in s.proofs
    ensures p in s.proofs ==> Run(s, calls).proofs[p] == s.proofs[p]
    decreases |calls|
  {
    if calls != [] {
      StepIsolation(s, calls[0], p);
      RunIsolation(Apply(s, calls[0]).state, calls[1..], p);
    }
  }

  /** The calls in `calls` that could remove a claim owned by `owner` on `p`. */
  predicate RevokedBy(calls: seq<Call>, owner: AccountId, p: Proof)
  {
    exists i :: 0 <= i < |calls| && calls[i] == RevokeClaimCall(Signed(owner), p)
  }

  /**
   * Nobody but the owner can take a claim away: if no call in `calls` is a
   * revocation of `p` signed by its owner, the record of `p` survives the
   * run unchanged.
   */
  lemma {:induction false} OnlyOwnerRemoves(s: State, calls: seq<Call>, p: Proof)
    requires p in s.proofs
    requires !RevokedBy(calls, s.proofs[p].owner, p)
    ensures p in Run(s, calls).proofs && Run(s, calls).proofs[p] == s.proofs[p]
    decreases |calls|
  {
    if calls != [] {
      var s' := Apply(s, calls[0]).state;
      StepLifecycle(s, calls[0], p);
      assert p in s'.proofs;
      assert !RevokedBy(calls[1..], s'.proofs[p].owner, p);
      OnlyOwnerRemoves(s', calls[1..], p);
    }
  }

  /* ---------------------------------------------------------------------- */
  /* The event log explains the map                                         */
  /* ---------------------------------------------------------------------- */

  /** The owner of every claim in `m`. */
  function Owners(m: map<Proof, Claim>): map<Proof, AccountId>
  {
    map p | p in m :: m[p].owner
  }

  /**
   * The owners implied by replaying an event log from an empty map:
   * `ClaimCreated` sets the owner, `ClaimRevoked` removes the proof.
   */
  function Replay(events: seq<Event>): map<Proof, AccountId>
    decreases |events|
  {
    if events == [] then map[]
    else
      var before := Replay(events[..|events| - 1]);
      var e := events[|events| - 1];
      if e.ClaimCreated? then before[e.proof := e.who] else before - {e.proof}
  }

  /** The event log accounts for exactly the claims in the map and their owners. */
  ghost predicate LogExplainsMap(s: State)
  {
    Owners(s.proofs) == Replay(s.events)
  }

  lemma ReplayAppend(events: seq<Event>, e: Event)
    ensures Replay(events + [e]) ==
      if e.ClaimCreated? then Replay(events)[e.proof := e.who] else Replay(events) - {e.proof}
  {
  }

  /** Every call keeps the map and the event log in step. */
  lemma StepKeepsLogExplainsMap(s: State, c: Call)
    requires LogExplainsMap(s)
    ensures LogExplainsMap(Apply(s, c).state)
  {
    var t := Apply(s, c);
    if t.result.Ok? {
      StepEvents(s, c);
      var e := t.state.events[|t.state.events| - 1];
      assert t.state.events == s.events + [e];
      ReplayAppend(s.events, e);
      if c.CreateClaimCall? {
        assert Owners(t.state.proofs) == Owners(s.proofs)[c.proof := c.origin.who];
      } else {
        assert Owners(t.state.proofs) == Owners(s.proofs) - {c.proof};
      }
    }
  }

  /** Along any run, the map stays what its event log says it is. */
  lemma {:induction false} RunKeepsLogExplainsMap(s: State, calls: seq<Call>)
    requires LogExplainsMap(s)
    ensures LogExplainsMap(Run(s, calls))
    decreases |calls|
  {
    if calls != [] {
      StepKeepsLogExplainsMap(s, calls[0]);
      RunKeepsLogExplainsMap(Apply(s, calls[0]).state, calls[1..]);
    }
  }

  /**
   * From genesis, after any sequence of calls, a proof is claimed exactly
   * when replaying the event log says so, and by the account the log names.
   */
  lemma RunFromGenesis(calls: seq<Call>, p: Proof)
    ensures var s := Run(Genesis, calls);
      && (p in s.proofs <==> p in Replay(s.events))
      && (p in s.proofs ==> s.proofs[p].owner == Replay(s.events)[p])
  {
    assert Owners(Genesis.proofs) == map[];
    RunKeepsLogExplainsMap(Genesis, calls);
  }

  /* ---------------------------------------------------------------------- */
  /* The pallet object                                                      */
  /* ---------------------------------------------------------------------- */

  /** The run of `ExampleRun`, on a pallet object, using only the methods' contracts. */
  method ExampleRunOnPallet(alice: AccountId, bob: AccountId, p: Proof, now: BlockNumber)
    requires alice != bob
  {
    var pallet := new Pallet();
    var r := pallet.CreateClaim(Signed(alice), p, now);
    assert r == Ok && pallet.proofs == map[p := Claim(alice, now)];
    r := pallet.CreateClaim(Signed(bob), p, now + 1);
    assert r == Err(Module(ProofAlreadyClaimed));
    r := pallet.RevokeClaim(NotSigned, p);
    assert r == Err(BadOrigin);
    r := pallet.RevokeClaim(Signed(bob), p);
    assert r == Err(Module(NotProofOwner));
    r := pallet.RevokeClaim(Signed(alice), p);
    assert r == Ok && pallet.proofs == map[];
    r := pallet.RevokeClaim(Signed(alice), p);
    assert r == Err(Module(NoSuchProof));
    assert pallet.events == [ClaimCreated(alice, p), ClaimRevoked(alice, p)];
  }
}
