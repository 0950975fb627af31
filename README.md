# Proof-of-existence pallet, modelled in Dafny

This project models the template pallet of a Substrate node: a proof-of-existence
registry. Its single storage map `Proofs` takes a byte string (the proof) to the
account that claimed it and the block number of the claim. Two dispatchables
change it:

- `create_claim` rejects an origin that is not signed, then a proof already in the map.
  Otherwise it stores `(sender, current block)` and deposits `ClaimCreated(sender, proof)`.
- `revoke_claim` rejects an origin that is not signed. It then rejects a proof not in the map
  (`NoSuchProof`), then a sender who is not the stored owner (`NotProofOwner`).
  Otherwise it removes the entry and deposits `ClaimRevoked(sender, proof)`.

Files:

- `pallet.dfy`, module `TemplatePallet`: the types (`Origin`, `Claim`, `Event`,
  `Error`, `DispatchError`, `DispatchResult`), and two pure step functions,
  `CreateClaimStep` and `RevokeClaimStep`, over a `State` value (map plus event log).
  The class `Pallet` holds the map and the event log as fields. Its methods
  `CreateClaim` and `RevokeClaim` update them in place, in the same order of checks
  as the dispatchables. Each method is proved to produce exactly the state and result
  of its step function.
- `properties.dfy`, module `ClaimProperties`: lemmas about single calls, short
  sequences of calls, and any sequence of calls (`Run`), applied one at a time as
  the runtime applies a block's extrinsics. It ends with the example run checked
  against a `Pallet` object.

The origin is `Origin = Signed(who) | NotSigned`. It stands for what `ensure_signed`
sees: `NotSigned` covers every origin that is not signed (none, root). Such an
origin yields `DispatchError.BadOrigin`. The pallet's own errors are wrapped as `DispatchError.Module(e)`, as FRAME does. The current block number is
a parameter `now` of `CreateClaim`, because it is read from the system pallet.

The duplicate-claim error is `ProofAlreadyClaimed` (pallets/template/src/lib.rs:44).
Both dispatchables call `ensure_signed` themselves (pallets/template/src/lib.rs:66, 91),
so `BadOrigin` is a modelled outcome.

## Model

| member | source | states |
|---|---|---|
| TemplatePallet.CreateClaimStep | pallets/template/src/lib.rs:58-81 | Fails with `BadOrigin` exactly when not signed, and with `ProofAlreadyClaimed` exactly when signed and the proof is present. Succeeds exactly when signed and the proof is absent. A failure leaves map and log unchanged. A success maps the proof to `(sender, now)`, keeps every other key's presence and entry, and appends exactly `ClaimCreated(sender, proof)`. |
| TemplatePallet.RevokeClaimStep | pallets/template/src/lib.rs:84-109 | Fails with `BadOrigin` exactly when not signed. Fails with `NoSuchProof` exactly when signed and the proof is absent, whoever the sender. Fails with `NotProofOwner` exactly when the proof is present and owned by someone else. Succeeds exactly when the sender is the stored owner. A failure changes nothing. A success removes exactly that key, keeps all other entries, and appends exactly `ClaimRevoked(sender, proof)`. |
| TemplatePallet.Pallet.constructor | pallets/template/src/lib.rs:28 | A fresh pallet has an empty `Proofs` map and no events. |
| TemplatePallet.Pallet.CreateClaim | pallets/template/src/lib.rs:58-81 | The in-place update yields the state and result of `CreateClaimStep`. On failure the fields are unchanged. On success `proofs` gets the new entry and `events` gets the one new event. |
| TemplatePallet.Pallet.RevokeClaim | pallets/template/src/lib.rs:84-109 | The in-place update yields the state and result of `RevokeClaimStep`. On failure the fields are unchanged. On success the key is removed from `proofs` and `events` gets the one new event. |
| ClaimProperties.StepIsolation | pallets/template/src/lib.rs:58-109 | A call on one proof never changes the presence or the entry of any other proof. |
| ClaimProperties.StepLifecycle | pallets/template/src/lib.rs:58-109 | A stored record is never changed in place. A record appears only through a successful `create_claim` on its proof, holding the sender and `now`. It disappears only through a successful `revoke_claim` on its proof, signed by its owner. |
| ClaimProperties.StepEvents | pallets/template/src/lib.rs:76-106 | A failed call deposits no event. A successful call deposits exactly one event naming its sender and proof. |
| ClaimProperties.CreateThenRevokeRestores | pallets/template/src/lib.rs:69-106 | From a state without `p`, `create_claim(a, p)` then `revoke_claim(a, p)` both succeed. The map returns to its original value and the log gains exactly the two events. |
| ClaimProperties.SecondClaimFails | pallets/template/src/lib.rs:68-75 | After a successful claim by `a`, a second claim by anyone, `a` included, fails with `ProofAlreadyClaimed`. State is unchanged and the record stays `(a, now)`. |
| ClaimProperties.RevokeByOtherFails | pallets/template/src/lib.rs:96-100 | After a claim by `a`, a revocation by `b != a` fails with `NotProofOwner` and changes nothing. |
| ClaimProperties.ReclaimAfterRevoke | pallets/template/src/lib.rs:69-103 | After a claim and its revocation by `a`, a claim by any `b` succeeds. The record is then `(b, t2)`, so no trace of the old claim remains in the map. |
| ClaimProperties.ExampleRun | pallets/template/src/lib.rs:58-109 | From genesis: alice claims (ok, one event); bob claims (`ProofAlreadyClaimed`); bob revokes (`NotProofOwner`); alice revokes (ok); alice revokes again (`NoSuchProof`). The map ends empty with exactly two events. |
| ClaimProperties.RunIsolation | pallets/template/src/lib.rs:58-109 | Any sequence of calls that never names `p` leaves the presence and the entry of `p` unchanged. |
| ClaimProperties.OnlyOwnerRemoves | pallets/template/src/lib.rs:93-103 | If no call in a sequence is a revocation of `p` signed by its current owner, the record of `p` survives the whole run unchanged. Nobody else can remove or overwrite a claim. |
| ClaimProperties.StepKeepsLogExplainsMap | pallets/template/src/lib.rs:72-106 | Every call preserves the invariant that the owners in the map equal the owners obtained by replaying the event log. |
| ClaimProperties.RunKeepsLogExplainsMap | pallets/template/src/lib.rs:72-106 | The same invariant holds along any sequence of calls. |
| ClaimProperties.RunFromGenesis | pallets/template/src/lib.rs:28-38 | From genesis and after any sequence of calls, a proof is claimed exactly when replaying the log of every event this pallet has deposited says so, by the account that log names. |

## Left out

- Signature checking inside `ensure_signed`: the origin is given already resolved, as `Signed(who)` or `NotSigned`.
- How the system pallet produces the block number: it is the parameter `now`. Nothing is assumed about monotonicity, so `ReclaimAfterRevoke` does not state that the new block is not earlier than the old one.
- Weights (`#[pallet::weight]`) and post-dispatch info: a call returns plain `Ok` or `Err`.
- Storage hashing (`Blake2_128Concat`), SCALE encoding and the `ValueQuery` default: the map is a Dafny `map`. The only read follows a membership check, so the default value is never observed.
- FRAME macro plumbing (`generate_store`, `generate_deposit`, the `Config` trait and event conversion): events are appended to the pallet's own `events` field, the log of every event this pallet has deposited. The system pallet's event store is not modelled: it is cleared every block and keeps no events while the block number is 0, whereas the model appends on every successful call, at block 0 too.
- Transactional rollback of the enclosing extrinsic: not needed, because every check runs before any write.
- Account identifiers are an abstract type with equality. Proofs are byte sequences of any length, the empty one included.
