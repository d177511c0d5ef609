# Verification of the vDex node's threshold ECDSA, the VTX contracts and the bytecode linker

Three parts of the repository, modelled in Dafny and proved correct:

1. **Threshold ECDSA** (`src/vDexNode/mpt`): distributed key generation over Feldman secret
   sharing, and ten-round signing with pairwise multiplicative-to-additive share conversion.
   The main theorems are about every interleaving of the parties' steps over the shared
   bulletin board: all parties agree, the output is an ECDSA signature under the group's key
   that the verifying operation accepts, sessions end, and the programs complete for every
   party exactly under a stated condition.
2. **The ledger contracts** (`volentixgsys`, `volentixstak`, `volentixvote`,
   `vtxdistribut`): whole-run invariants of contracts that update their tables in place.
3. **The linker** (`linker.js`): with which addresses its replace loop ends, and that it
   refines the simultaneous substitution of all labels.

## How it is organised

| file | contents |
|---|---|
| `Zq`, `Sums`, `Vss` | scalars modulo a prime, finite and double sums, Lagrange interpolation at 0 |
| `Feldman` | points, ideal proofs and commitments, the secret sharing scheme, share re-mapping |
| `Mta` | share conversion over an ideal additively homomorphic encryption |
| `Rounds` | any protocol of broadcast and point-to-point rounds over a write-once board, asynchronous and in lockstep |
| `KeyGen` | the phases of key generation, its five rounds as a protocol, and its theorems |
| `SignPhases` | the phases of signing and their algebra |
| `SignRun` | the ten signing rounds as a protocol, and its theorems |
| `Board`, `SignMain`, `KeyGenMain`, `Signup` | the store, the loops of the two programs, and the numbering of parties |
| `MapSum` | sums over the rows of a table |
| `Voting`, `Ranking`, `Rewards`, `Token`, `Staking` | the contracts |
| `Linker` | the linker |
| `Results` | the option type |

The protocol phases are pure in the source and are functions here.  The parts that work by
changing state (the programs' loops, the store, the contracts, the linker) are methods and
classes.  Each action of a contract is a function from state to state, a class method proved
to do exactly what that function says, and lemmas about runs of the functions.

## Conventions

- `None` is every way to fail: a returned error, a failed assertion, a panic on an unwrap, an
  aborted transaction.  An aborted contract action changes nothing.
- A curve point is its discrete logarithm to the generator; the x coordinate is an arbitrary
  function of the point, undefined at infinity.  The group order q is an arbitrary prime
  larger than the number of parties.  The message is an arbitrary natural number.
- The group and the channel are ideal: a zero scalar, the point at infinity as a message and
  a channel key that happens to have fewer than 32 bytes (`generate_key.rs:186-189`) are
  values like any other, where the libraries may refuse them.
- A proof of knowledge carries its witness, and verifying it checks the relation.  A hash
  commitment is the pair of value and blinding factor.  A ciphertext is its key and a
  plaintext modulo N.  The channel between two parties is keyed by the x coordinate of the
  sum of their points.
- All random choices (secrets, polynomials, nonces, masks, blinding factors) are parameters.
- In the protocol modules parties count from 0: index p is the party with number p + 1.
  Board rounds count from 0 as well.
- The contracts' amounts are integers with explicit 64-bit range checks; the 16-bit period
  count, the 32-bit unlock time and the 32-bit reward deadline wrap as in the source.
  Authorisation is a boolean.  Which symbols are well formed and which accounts exist is a
  parameter.
- Vote weights are reals, with an arbitrary non-negative function for the square root.

## What the proofs brought out

- Signing with threshold 0 always panics: phase 4 takes the first element of an empty vector
  (`key_gen_utils.rs:428`).  `SignRun.NoPanicIff` and `SignRun.StuckAt` state this.
- A session that passes all ten rounds still ends in a panic for every signer when
  m + r x = 0 (`SignRun.EveryoneSignsIff`).
- A share conversion whose plaintext wraps around N panics unless the lost multiple of N is 0
  modulo q (`Mta.AlphaExact`); the session then stops for that signer and so for everybody.
- Two parties whose public points cancel have no channel key and stop key generation
  (`KeyGen.NoPanicIff`).
- The phase 5 test is also passed by wrong shares when the rho's add up to zero, and by
  nothing else (`SignPhases.Phase5Exact`).
- `calcrewards` always applies rule 2, whatever the job (`vtxdistribut.cpp:36`), and
  `get_top_nodes` returns all producers, active or not.  The comment that a standby threshold
  of 0 disables standby rewards (`vtxdistribut.hpp:63`) is not what the code does: every
  producer from the rank threshold on gets the standby amount (`Rewards.StandbyIgnored`,
  `Rewards.StandbyCreditedIff`).  The memos of a rule are never used: each row's memo is
  overwritten (`vtxdistribut.cpp:73`).
- Inactive producers are listed by ascending votes, so an inactive producer without votes
  comes before one with votes; `get_rank` answers 0 for an unknown account.
- Unstaking when nothing is unlocked aborts, because the token contract refuses a transfer of
  0 (`Staking.UnstakeSucceedsIff`).
- After an unstake, the stored vote is re-cast with the liquid token balance
  (`volentixvote.cpp:172`), while `voteproducer` weighs by the staked amount.
- The linker accepts addresses with which its loop never ends.  An address is used as a
  replacement string, in which a dollar sign can put back the match: with `0x$&` the loop
  never ends wherever a label occurs (`Linker.MatchReplacementLoops`), nor does it with an
  address that is itself the label (`Linker.SelfReplacementLoops`).  `Linker.EndsIff` and
  `Linker.AlwaysEndsIff` say exactly which addresses do this, but for the form named under
  "Left out".
  Its comment says that names are truncated to 37 characters; the code truncates to 36.

## Model

| member | source | states |
|---|---|---|
| SignRun.EveryInterleavingSigns | src/vDexNode/mpt/src/bin/sign.rs:97-530 | In every interleaving of the ten rounds, every signer that finishes outputs the same (r, s) with r = x(R), R = k^-1 G and s = k(m + r x), for any secrets and any distinct signers in any order; the verifier accepts it, and there is no signature exactly when m + r x = 0 |
| SignRun.MaximalRunsSign | src/vDexNode/mpt/src/bin/sign.rs:97-530 | An honest session cannot get stuck: once no step is enabled, every signer has output that signature |
| SignRun.EveryoneSignsIff | src/vDexNode/mpt/src/bin/sign.rs:97-530 | The whole program: no signer panics in a round and every signer ends with a signature, if and only if there are at least two signers, every share conversion is lossless modulo q, both nonce sums are non-zero, and m + r x is not 0 |
| SignRun.NoPanicIff | src/vDexNode/mpt/src/bin/sign.rs:253-344 | No signer panics in any of the ten rounds if and only if there are at least two signers, every share conversion is lossless modulo q and both nonce sums are non-zero |
| SignRun.HonestPost | src/vDexNode/mpt/src/bin/sign.rs:106-512 | What a signer sends in each of the ten rounds after honest rounds, including the rounds in which it panics instead |
| SignRun.StuckAt | src/vDexNode/mpt/src/bin/sign.rs:253-341 | Where a session stops: at round 3 when a conversion is lossy, at round 4 when the nonce sum is zero, at round 5 with a single signer |
| SignRun.HonestOutput | src/vDexNode/mpt/src/bin/sign.rs:496-517 | The last round adds the others' shares to the own one and outputs (r, s) exactly when s is not zero; the result verifies |
| SignRun.DeltasSum | src/vDexNode/mpt/src/utils/key_gen_utils.rs:380-389 | The broadcast deltas add up to (sum k)(sum gamma), by matching each alpha with the peer's beta |
| SignRun.SigmasSum | src/vDexNode/mpt/src/utils/key_gen_utils.rs:391-400 | The sigmas add up to (sum k) times the group's secret key |
| SignRun.WeightsSum | src/vDexNode/mpt/src/utils/key_gen_utils.rs:341-348 | The re-mapped shares w_i of any t + 1 distinct signers add up to the secret that key generation shared |
| SignRun.WeightPointsSum | src/vDexNode/mpt/src/utils/key_gen_utils.rs:349-350 | The points g_w_i of those shares add up to the public key |
| SignRun.HonestSigners | src/vDexNode/mpt/src/bin/sign.rs:125-135 | Every signer reconstructs the same list of signer indices, in signing order |
| SignRun.HonestCommitment | src/vDexNode/mpt/src/bin/sign.rs:270-276 | The re-mapped public share commitment of every peer is the point of that peer's w_i, so the assertion on the proof's key holds whatever the order of the signers |
| SignRun.HonestAlphaMiu | src/vDexNode/mpt/src/bin/sign.rs:257-278 | The shares opened from one peer's reply, or a panic exactly when a conversion is lossy |
| SignRun.HonestDeltaSigma | src/vDexNode/mpt/src/bin/sign.rs:281-282 | Every signer derives its delta and sigma exactly when none of its conversions is lossy |
| SignRun.DeltaSumNonZero | src/vDexNode/mpt/src/utils/key_gen_utils.rs:402-405 | The sum of the deltas is invertible if and only if both nonce sums are non-zero, and then R (sum k) = G |
| SignRun.HonestDeltaInv | src/vDexNode/mpt/src/bin/sign.rs:300-307 | Every signer inverts the same sum of deltas, its own delta included once |
| SignRun.HonestGammas | src/vDexNode/mpt/src/bin/sign.rs:328-341 | Proofs, decommitments and commitments line up per peer after the own entries are removed |
| SignRun.HonestPhase4 | src/vDexNode/mpt/src/bin/sign.rs:335-344 | Every signer computes the same nonce point from the others' points and its own; with a single signer there is nothing to sum and it panics |
| SignRun.HonestLocal | src/vDexNode/mpt/src/bin/sign.rs:346-351 | All signers hold the same R, r, message and public key in their local signatures |
| SignRun.SignatureSum | src/vDexNode/mpt/src/utils/key_gen_utils.rs:442-462 | The signature shares add up to (sum k)(m + r x) |
| SignRun.HonestBalance | src/vDexNode/mpt/src/utils/key_gen_utils.rs:543-557 | (sum s) R = mG + rY: an honest session always meets the condition of the phase 5 test |
| SignRun.HonestSecond | src/vDexNode/mpt/src/bin/sign.rs:409-423 | Phase 5C succeeds for every honest signer, with the vectors lined up per peer |
| SignRun.HonestReleased | src/vDexNode/mpt/src/bin/sign.rs:477-486 | Phase 5D releases the share of every honest signer |
| SignRun.LoadsWhatKeyGenSaved | src/vDexNode/mpt/src/bin/sign.rs:79-89 | What a signer loads is what its key generation saved, in any interleaving of that run |
| SignRun.OutputIsEcdsa | src/vDexNode/mpt/src/bin/sign.rs:496-517 | Whatever the peers send: what a signer outputs meets the ECDSA equation for the group's secret key and the message |
| SignRun.SafeAmongOthers | src/vDexNode/mpt/src/bin/sign.rs:97-517 | In every interleaving with arbitrary peers, only such signatures come out, and once a signer's share is on the board every peer's openings of its nonce point and of both phase 5 commitments are there and match what that peer committed to |
| SignRun.RevealsOwn | src/vDexNode/mpt/src/bin/sign.rs:97-475 | With arbitrary peers, a signer opens its own commitments only after every signer has committed, and its nonce point with the value and randomness it committed to |
| SignRun.NonceChecked | src/vDexNode/mpt/src/utils/key_gen_utils.rs:407-440 | For arbitrary messages, a nonce point is computed only if every peer's opened point matches its commitment of round 1 and is the one proven in round 2 |
| SignRun.FirstChecked | src/vDexNode/mpt/src/utils/key_gen_utils.rs:501-578 | For arbitrary messages, phase 5C succeeds only if every peer's opening matches its commitment and its proof shows V = xR + rG and B = rA for the own nonce R |
| SignRun.ReleaseChecked | src/vDexNode/mpt/src/utils/key_gen_utils.rs:580-629 | For arbitrary messages, the share is released, unchanged, only if every peer's second opening matches its commitment and sum(t) + sum(B) = sum(u) |
| SignRun.ReplyUsesShare | src/vDexNode/mpt/src/bin/sign.rs:253-279 | For arbitrary replies, those accepted prove the peer's own re-mapped key share and give the proven combinations |
| SignPhases.Phase5Exact | src/vDexNode/mpt/src/utils/key_gen_utils.rs:464-629 | For arbitrary signature shares, the phase 5 test passes if and only if the rho's add up to zero or (sum s) R = mG + rY |
| SignPhases.Phase5Equation | src/vDexNode/mpt/src/utils/key_gen_utils.rs:536-557 | The same in scalars: with t_i over the others' A only, sum(t) + sum(b) = sum(u) exactly in these two cases |
| SignPhases.BalanceIff | src/vDexNode/mpt/src/utils/key_gen_utils.rs:611-621 | The biased sum equals the generator exactly when sum(t) + sum(b) = sum(u) |
| SignPhases.Phase5CSucceeds | src/vDexNode/mpt/src/utils/key_gen_utils.rs:501-578 | Phase 5C accepts what phase 5A made, and computes u_i and t_i from the folded V's and the others' A's |
| SignPhases.Phase5CLogs | src/vDexNode/mpt/src/utils/key_gen_utils.rs:543-557 | The scalars of u_i and t_i |
| SignPhases.ProofVerifies | src/vDexNode/mpt/src/utils/key_gen_utils.rs:476-487 | The proof made in phase 5B verifies against the statement that phase 5C builds |
| SignPhases.VerifyRecomputesR | src/vDexNode/mpt/src/utils/key_gen_utils.rs:642-651 | With y = xG, s = k(m + r x) and R = k^-1 G, the verifying operation recomputes R (SEC 1 version 2.0, section 4.1.4) |
| SignPhases.OutputAccepts | src/vDexNode/mpt/src/utils/key_gen_utils.rs:630-639 | output_signature returns the summed signature, and the verifier accepts it, exactly when the sum is not zero |
| SignPhases.VerifyIs | src/vDexNode/mpt/src/utils/key_gen_utils.rs:642-656 | For any signature, key and message: with y = xG and ws = m + rx, the verifying operation compares r with the x coordinate of wG, and fails when w is 0 |
| SignPhases.VerifyIff | src/vDexNode/mpt/src/utils/key_gen_utils.rs:642-656 | A signature is accepted if and only if s is not 0 and wG has x coordinate r for the w with ws = m + rx: the ECDSA equation |
| SignPhases.OutputIff | src/vDexNode/mpt/src/utils/key_gen_utils.rs:630-639 | For arbitrary shares of the others, a signature is output if and only if the summed s meets that equation, and then it is that one |
| SignPhases.Phase2Value | src/vDexNode/mpt/src/utils/key_gen_utils.rs:380-400 | A party's folded conversions are its own product plus its parts of all pairwise products |
| SignPhases.NonceIs | src/vDexNode/mpt/src/utils/key_gen_utils.rs:427-435 | The others' points and the own one, each scaled by the inverse, add up to the sum of all gammas scaled |
| SignPhases.NonceInverts | src/vDexNode/mpt/src/utils/key_gen_utils.rs:402-405 | Scaling sum(gamma) G by the inverse of delta gives the inverse of sum(k) times G |
| SignPhases.SharesAddUp | src/vDexNode/mpt/src/utils/key_gen_utils.rs:449-451 | Shares m k_i + r sigma_i add up to k(m + r x) when the sigmas add up to k x |
| Mta.AlphaExact | src/vDexNode/mpt/src/utils/sign_utils.rs:33-72 | For a reply built by b, the share is returned if and only if the multiple of N lost by wrapping is 0 modulo q, and it is then ab + beta_tag |
| Mta.ConversionCorrect | src/vDexNode/mpt/src/utils/sign_utils.rs:33-72 | An accepted conversion gives alpha + beta = ab modulo q |
| Mta.NoWrapLiftable | src/vDexNode/mpt/src/utils/sign_utils.rs:34-44 | A plaintext below N loses nothing |
| Mta.HonestCipher | src/vDexNode/mpt/src/utils/sign_utils.rs:24-44 | The reply decrypts to (ab + beta_tag) mod N |
| Mta.AcceptedReplyBinds | src/vDexNode/mpt/src/utils/sign_utils.rs:59-72 | Whatever the reply, an accepted share is the proven b times a plus the proven beta_tag |
| Mta.GetAlphaIff | src/vDexNode/mpt/src/utils/sign_utils.rs:59-72 | A reply is accepted if and only if it is a ciphertext under the own key, both proofs are valid, and the plaintext is modulo q the combination of the proven secrets; the share is then that plaintext modulo q |
| KeyGen.AcceptedKeyIsOnJointPolynomial | src/vDexNode/mpt/src/utils/key_gen_utils.rs:206-238 | For arbitrary received shares, acceptance means that y is the public point of the committed polynomials' sum and x_i its value at i; the proof is about x_i |
| KeyGen.CommitmentToXiIs | src/vDexNode/mpt/src/utils/key_gen_utils.rs:240-257 | The public commitments give the point of every party's share of that polynomial |
| KeyGen.CommitmentsToXiAre | src/vDexNode/mpt/src/utils/key_gen_utils.rs:240-257 | As a vector: entry i - 1 belongs to party i |
| KeyGen.UpdatedCommitmentIs | src/vDexNode/mpt/src/utils/key_gen_utils.rs:259-267 | Scaling a share commitment for a set of signers gives the point of the re-mapped share |
| KeyGen.EveryInterleavingAgrees | src/vDexNode/mpt/src/bin/generate_key.rs:96-329 | In every interleaving of the five rounds, every party that finishes saves its value of one and the same polynomial of degree t, and the same public key, schemes and Paillier keys as the others |
| KeyGen.MaximalRunsAgree | src/vDexNode/mpt/src/bin/generate_key.rs:96-329 | A completing key generation cannot get stuck: once no step is enabled every party has saved its file |
| KeyGen.CommitBeforeReveal | src/vDexNode/mpt/src/bin/generate_key.rs:100-146 | In every interleaving, no public point is on the board before every party's commitment is |
| KeyGen.SendsSharesIff | src/vDexNode/mpt/src/bin/generate_key.rs:148-210 | For arbitrary received messages: a party deals its shares if and only if every revealed point and blinding factor match the commitment of round 1, every Paillier proof is for the broadcast key, the threshold is below the number of parties, and no sum of its point with a peer's is the point at infinity |
| KeyGen.SharesFollowCommitments | src/vDexNode/mpt/src/bin/generate_key.rs:97-210 | In every interleaving with arbitrary peers, once a party has sent a share, every peer's revealed point is on the board, is the one committed to in round 1, and is the one the party uses |
| KeyGen.RevealsOwn | src/vDexNode/mpt/src/bin/generate_key.rs:97-146 | With arbitrary peers, a party reveals its point only after every party has committed, and with the value and randomness it committed to |
| KeyGen.SavedRestsOn | src/vDexNode/mpt/src/bin/generate_key.rs:148-329 | For arbitrary received messages, what a saved file rests on: openings that match, shares that open under the channel keys and fit the dealers' commitments, and valid proofs of every final share |
| KeyGen.CompletesIff | src/vDexNode/mpt/src/bin/generate_key.rs:151-178 | The condition in the secrets: the threshold is below the number of parties, and no two secrets add up to 0 modulo q |
| KeyGen.EveryoneSavesIff | src/vDexNode/mpt/src/bin/generate_key.rs:96-329 | The whole program: no party panics in a round and every party ends with its file saved, if and only if the threshold is below the number of parties and no two public points cancel |
| KeyGen.NoPanicIff | src/vDexNode/mpt/src/bin/generate_key.rs:151-178 | No party panics in any of the five rounds if and only if the threshold is below the number of parties and no two public points cancel (such a pair has no channel key) |
| KeyGen.HonestPost | src/vDexNode/mpt/src/bin/generate_key.rs:97-291 | What a party sends in each of the five rounds after honest rounds, and when it panics instead |
| KeyGen.HonestDealt | src/vDexNode/mpt/src/utils/key_gen_utils.rs:180-204 | The commitments and Paillier keys check out, and the shares dealt are the polynomial's values at 1 .. n |
| KeyGen.HonestSealed | src/vDexNode/mpt/src/bin/generate_key.rs:184-197 | What a party sends to a peer opens under the key that the peer derives |
| KeyGen.HonestOpened | src/vDexNode/mpt/src/bin/generate_key.rs:221-241 | Each received share opens to the sender's value for this party, in party order |
| KeyGen.HonestVss | src/vDexNode/mpt/src/utils/key_gen_utils.rs:218-236 | Honest shares are accepted, and give the sums of points and of shares |
| KeyGen.HonestProofs | src/vDexNode/mpt/src/utils/key_gen_utils.rs:269-284 | The final proofs verify |
| Feldman.RemappedSharesSum | src/vDexNode/mpt/src/utils/key_gen_utils.rs:341-348 | Any t + 1 or more distinct parties, in any order, hold re-mapped shares that add up to the shared secret |
| Feldman.MapShareIsLambda | src/vDexNode/mpt/src/utils/key_gen_utils.rs:347 | The re-mapping coefficient is the Lagrange coefficient at 0 over the signers' points |
| Vss.Interpolation | src/vDexNode/mpt/src/utils/key_gen_utils.rs:347 | Lagrange interpolation at 0 over Z_q: a polynomial is recovered at 0 from its values at any distinct points, as many as it has coefficients or more |
| Feldman.ValidShareIff | src/vDexNode/mpt/src/utils/key_gen_utils.rs:220-222 | A share is accepted if and only if it is the committed polynomial's value at the index |
| Feldman.PointCommitmentEvaluates | src/vDexNode/mpt/src/utils/key_gen_utils.rs:245 | get_point_commitment evaluates the committed polynomial in the exponent |
| Feldman.JointPolyEvaluates | src/vDexNode/mpt/src/utils/key_gen_utils.rs:232 | The sum of all dealers' values at a point is the value of the sum polynomial |
| Feldman.JointPolyConstant | src/vDexNode/mpt/src/utils/key_gen_utils.rs:229-231 | The constant term of the sum polynomial is the sum of all dealt secrets |
| Feldman.SumPointsIsSum | src/vDexNode/mpt/src/utils/key_gen_utils.rs:229-231 | Folding a non-empty vector of points from its first element sums it |
| Zq.InverseCorrect | src/vDexNode/mpt/src/utils/key_gen_utils.rs:404 | The inverse modulo a prime, by the extended Euclidean algorithm, inverts every non-zero scalar |
| Sums.InsertOwn | src/vDexNode/mpt/src/bin/sign.rs:533-549 | Inserting the own value among the polled ones puts party i's value at index i; removing the own index gives the polled vector back |
| Sums.PairwiseSum | src/vDexNode/mpt/src/utils/key_gen_utils.rs:380-400 | Over all parties, the pairwise conversions with their masks add up to the product of the two sums |
| Sums.SumPeers | src/vDexNode/mpt/src/bin/sign.rs:195-213 | Summing over everybody but oneself leaves out exactly the own term |
| Sums.FoldAddIsSum | src/vDexNode/mpt/src/utils/key_gen_utils.rs:403 | The scalar fold is the sum modulo q |
| Rounds.AsyncRefinesLockstep | src/vDexNode/mpt/src/bin/generate_key.rs:100-312 | On every interleaving, everything on the board and everything a party has read is what the lockstep execution of the programs produces |
| Rounds.BarrierOnEveryRun | src/vDexNode/mpt/src/bin/generate_key.rs:131-146 | On every run, two parties are at most one round apart, and nothing of a round is on the board before every party has broadcast in the round before |
| Rounds.RoundBarrier | src/vDexNode/mpt/src/bin/generate_key.rs:108-115 | A party cannot finish a round before every other party has reached it |
| Rounds.NoEarlyReveal | src/vDexNode/mpt/src/bin/generate_key.rs:131-146 | A message of the next round implies every broadcast of this one |
| Rounds.PostsAfterEarlier | src/vDexNode/mpt/src/bin/generate_key.rs:131-146 | A message of a round implies every broadcast of each earlier round |
| Rounds.PostedAfterReading | src/vDexNode/mpt/src/bin/generate_key.rs:97-146 | A message on the board is what its sender's program made of the messages that the sender had read in the rounds before |
| Rounds.ReadFromBoard | src/vDexNode/mpt/src/bin/generate_key.rs:108-146 | What a party has read in a round is on the board under its peers' keys |
| Rounds.SameVector | src/vDexNode/mpt/src/bin/generate_key.rs:117-129 | Parties that finish a broadcast round hold identical n-vectors |
| Rounds.Progress | src/vDexNode/mpt/src/bin/generate_key.rs:415-447 | Until everyone has finished, some party can step, when no program panics |
| Rounds.StepsAreBounded | src/vDexNode/mpt/src/bin/generate_key.rs:415-481 | Every step increases an effort with an upper limit |
| Rounds.EveryRunEnds | src/vDexNode/mpt/src/bin/generate_key.rs:100-312 | Every run is finite, and one that cannot be extended has finished all rounds for all parties |
| Rounds.ProgramsDetermineHistory | src/vDexNode/mpt/src/bin/generate_key.rs:100-312 | When every program sends what is expected of it, every party polls exactly that |
| Board.TupleInjective | src/vDexNode/mpt/src/bin/sign.rs:593-598 | Different messages, and messages of different sessions, never share a store key |
| Board.SetExtends | src/vDexNode/api/src/server.rs:53-69 | A write adds its message to the board of its own session and touches no other session |
| Board.SentContents | src/vDexNode/mpt/src/bin/sign.rs:609-631 | The messages sent to the peers are all in the store, none overwrites another, and nothing else changes |
| Board.SentIsPolled | src/vDexNode/mpt/src/bin/sign.rs:677-684 | A message sent to a peer is stored where that peer polls for it |
| Board.PollIsLockstep | src/vDexNode/mpt/src/bin/sign.rs:633-699 | A complete poll of a store that holds a reachable board is the vector that the lockstep execution delivers |
| Board.Store.Poll | src/vDexNode/mpt/src/bin/sign.rs:633-699 | The answers of all other parties in party order, exactly when all are present |
| Board.Store.Broadcast | src/vDexNode/mpt/src/bin/sign.rs:586-607 | Writes the one key of this sender, round and session |
| Board.Store.SendP2p | src/vDexNode/mpt/src/bin/sign.rs:609-631 | Writes the key that also carries the recipient |
| Board.Store.Set | src/vDexNode/api/src/server.rs:53-69 | Stores the entry |
| Board.Store.Get | src/vDexNode/api/src/server.rs:71-93 | The entry, or an error when there is none |
| Board.FormatVecFromReads | src/vDexNode/mpt/src/bin/sign.rs:533-549 | Appends the answers with the own value inserted at its position; panics exactly for a party number outside 1 .. n |
| SignMain.CollectSigners | src/vDexNode/mpt/src/bin/sign.rs:125-135 | The loop with its counter builds the list of signer indices, each reduced by one |
| SignMain.MakeReplies | src/vDexNode/mpt/src/bin/sign.rs:190-213 | The loop makes one reply per peer for gamma and for w, under the peer's key and to the peer's message, and keeps the own shares in peer order |
| SignMain.SendReplies | src/vDexNode/mpt/src/bin/sign.rs:215-230 | The loop sends the j-th pair of replies to the j-th peer |
| SignMain.OpenReplies | src/vDexNode/mpt/src/bin/sign.rs:253-279 | The loop opens all replies in peer order, or panics at the first that fails a check |
| KeyGenMain.CollectKeys | src/vDexNode/mpt/src/bin/generate_key.rs:148-167 | The loop lines up points and decommitments for all parties and channel keys for the peers, or panics at a pair without a key |
| KeyGenMain.SendShares | src/vDexNode/mpt/src/bin/generate_key.rs:181-210 | The loop with its two counters sends every peer its own share under its own channel key |
| KeyGenMain.OpenShares | src/vDexNode/mpt/src/bin/generate_key.rs:221-241 | The loop opens the received shares with the matching keys and inserts the own one; panics when one does not open |
| Signup.Server.Signup | src/vDexNode/api/src/server.rs:95-179 | The next number of the cohort, or number 1 of a new session |
| Signup.Server.constructor | src/vDexNode/api/src/server.rs:385-408 | The initial record |
| Signup.CohortNumbers | src/vDexNode/api/src/server.rs:95-179 | Each block of consecutive calls is answered with 1 .. n, once each, under one session identifier |
| Linker.LinkBytecode | src/eth_contract/solc-js-0.6.0/linker.js:8-55 | For addresses with which no label comes back, it ends; it fails exactly when the address of some name does not begin with 0x or is longer than 42 characters; otherwise the loops for all labels have run, and the length is unchanged for addresses that stand for themselves; for hexadecimal addresses and placeholders that do not overlap, every placeholder of a name, plain or hashed, has given way to that name's padded address, and nothing else has changed |
| Linker.ReplaceAll | src/eth_contract/solc-js-0.6.0/linker.js:30-52 | The loops for all labels end one after the other when no label comes back; for addresses that stand for themselves, have no underscores, and non-overlapping labels this is substituting them all at once, and leaves none behind |
| Linker.ReplaceLabel | src/eth_contract/solc-js-0.6.0/linker.js:41-48 | Whenever the label does not come back, the loop ends with the label gone; an address that stands for itself and has no underscores replaces every occurrence and leaves the occurrences of other labels alone |
| Linker.EndsIff | src/eth_contract/solc-js-0.6.0/linker.js:45-47 | For an address that uses neither what precedes nor what follows the match, or that uses the match: the loop ends on a bytecode if and only if the label does not come back with the replacement or does not occur |
| Linker.StopsIff | src/eth_contract/solc-js-0.6.0/linker.js:46 | The label does not come back, at every match alike, if and only if the address uses none of match, what precedes and what follows it, and is not the label itself but for doubled dollar signs |
| Linker.AlwaysEndsIff | src/eth_contract/solc-js-0.6.0/linker.js:45-47 | The loop ends on every bytecode if and only if the address uses neither the match nor what follows it, and is not the label itself but for doubled dollar signs; open only for an address that uses what precedes the match and neither of these |
| Linker.LinkingEndsIff | src/eth_contract/solc-js-0.6.0/linker.js:30-52 | For different labels, linking ends on every bytecode if and only if no label comes back with its own replacement; open for the same addresses |
| Linker.Round | src/eth_contract/solc-js-0.6.0/linker.js:46 | When the label does not come back, every replacement shortens the bytecode or keeps its length and moves it, read as a number, strictly one way |
| Linker.RoundDecreases | src/eth_contract/solc-js-0.6.0/linker.js:46 | Every replacement of a label by a different string of its length moves the bytecode, read as a number, strictly one way |
| Linker.ExpandContains | src/eth_contract/solc-js-0.6.0/linker.js:46 | A replacement that uses the match, what precedes it or what follows it contains just that |
| Linker.LiteralExpands | src/eth_contract/solc-js-0.6.0/linker.js:46 | A replacement without a special use of the dollar sign stands for itself |
| Linker.HexIsSound | src/eth_contract/solc-js-0.6.0/linker.js:31-48 | Every hexadecimal address meets the condition for linking |
| Linker.SpliceOccurrences | src/eth_contract/solc-js-0.6.0/linker.js:46 | Replacing an occurrence creates no occurrence of any label, and destroys exactly those it overlaps |
| Linker.SpliceDecreases | src/eth_contract/solc-js-0.6.0/linker.js:45-47 | For an address without underscores, every replacement removes underscores |
| Linker.SelfReplacementLoops | src/eth_contract/solc-js-0.6.0/linker.js:32-47 | An address that is itself a label passes the check on addresses, and then the loop never ends on a bytecode with that label |
| Linker.MatchReplacementLoops | src/eth_contract/solc-js-0.6.0/linker.js:32-47 | The address 0x$& passes the check, is no label, and with it the loop never ends on a bytecode with any label |
| Linker.TreatOne | src/eth_contract/solc-js-0.6.0/linker.js:41-52 | Treating one more label extends the substitution by exactly that label |
| Linker.OrderIrrelevant | src/eth_contract/solc-js-0.6.0/linker.js:30-52 | Two substitutions with the same address for each label give the same bytecode |
| Linker.LibrariesUnordered | src/eth_contract/solc-js-0.6.0/linker.js:12-52 | The same libraries in any order give the same bytecode, when no label is assigned two different addresses |
| Linker.IndexOf | src/eth_contract/solc-js-0.6.0/linker.js:45 | The first occurrence of the label, if there is one |
| Linker.LabelOf | src/eth_contract/solc-js-0.6.0/linker.js:42-44 | Two underscores, the first 36 characters of the name, and underscores up to 40 characters |
| Linker.Padded | src/eth_contract/solc-js-0.6.0/linker.js:35-37 | What follows the 0x, after as many zeros as make forty characters; without underscores for a hexadecimal address |
| Linker.LabelsDiffer | src/eth_contract/solc-js-0.6.0/linker.js:42-44 | Names of at most 36 characters that do not end in an underscore have different labels |
| Linker.SameLabelIff | src/eth_contract/solc-js-0.6.0/linker.js:42-44 | Two names have the same label if and only if their first 36 characters agree, with underscores for missing ones |
| Linker.HashedLabelIff | src/eth_contract/solc-js-0.6.0/linker.js:4-6 | The second placeholder is two underscores, a dollar sign, the first 34 digits of the name's hash, and the reverse |
| Linker.SubstitutionLinks | src/eth_contract/solc-js-0.6.0/linker.js:30-52 | The substitution, in terms of the bytecode: where a placeholder of a name stands, the result has that name's padded address, and all other characters are unchanged |
| Linker.ApartIsSeparate | src/eth_contract/solc-js-0.6.0/linker.js:30-52 | Hexadecimal addresses and placeholders that do not overlap are all that the loops need for this |
| Linker.AcceptedIff | src/eth_contract/solc-js-0.6.0/linker.js:32-34 | Every address passes the check if and only if the address of each name begins with 0x and has at most 42 characters |
| Linker.CompleteLooksUp | src/eth_contract/solc-js-0.6.0/linker.js:12-28 | Every name has the address of the last assignment to it, under the library's name, file and name, or the part after the colon |
| Linker.AssignLookup | src/eth_contract/solc-js-0.6.0/linker.js:17-27 | An assignment changes the value of its own name only |
| Linker.AfterColonIff | src/eth_contract/solc-js-0.6.0/linker.js:22-25 | A name is split at its first colon, if and only if something is on both sides and no line ends in what follows |
| Linker.BuildComplete | src/eth_contract/solc-js-0.6.0/linker.js:12-28 | The loop fills the table of all library names |
| Voting.VotesEqualRecount | src/contracts/volentixvote/volentixvote.cpp:4-178 | In every reachable state each producer's total is the recount over all voters, with multiplicity, and the grand total is the sum of sqrt(tokens) over the voters with a non-empty list |
| Voting.CastSucceeds | src/contracts/volentixvote/volentixvote.cpp:96-129 | A vote is cast if and only if the new list names only registered producers and not the voter: undoing the stored vote never fails |
| Voting.CastKeepsRecount | src/contracts/volentixvote/volentixvote.cpp:96-151 | Casting a vote keeps the recount |
| Voting.CastPasses | src/contracts/volentixvote/volentixvote.cpp:104-111 | A cast subtracts the stored vote and adds the new one, once per listing |
| Voting.EmptyListWithdraws | src/contracts/volentixvote/volentixvote.cpp:96-129 | Casting an empty list undoes a vote: every total is what it was before |
| Voting.AddedSucceeds | src/contracts/volentixvote/volentixvote.cpp:114-129 | A pass over a list succeeds if and only if every entry is registered and none is the voter |
| Voting.AddedEach | src/contracts/volentixvote/volentixvote.cpp:125-127 | A pass adds the weight once per listing and changes nothing else |
| Voting.ActionKeepsRecount | src/contracts/volentixvote/volentixvote.cpp:4-178 | Every action keeps the recount |
| Voting.VoteEffect | src/contracts/volentixvote/volentixvote.cpp:73-151 | A vote succeeds if and only if it lists at most 21 producers, all registered and none the voter, with at least 10000 whole tokens staked; it stores list, time and whole tokens staked, and each producer's total changes by their square root over the length of the list, once per listing, less the voter's earlier vote |
| Voting.UnstakeUpdateEffect | src/contracts/volentixvote/volentixvote.cpp:163-178 | An unstake update re-casts the stored list with the whole tokens left and keeps the time of the vote; without a vote, or with at most one token left, it changes nothing |
| Voting.RegisterEffect | src/contracts/volentixvote/volentixvote.cpp:4-32 | A registration succeeds if and only if all jobs are 1 or 2; it stores profile and jobs, makes the producer active and keeps its votes |
| Voting.ActiveFollowsActions | src/contracts/volentixvote/volentixvote.cpp:4-71 | On every run the registered producers are those with an accepted registration, and one is active if and only if it was registered, or re-activated, and not unregistered since |
| Voting.UnstakeUpdateSucceeds | src/contracts/volentixvote/volentixvote.cpp:168-178 | In every reachable state the update after unstaking succeeds |
| Voting.TotalsNonNegative | src/contracts/volentixvote/volentixvote.cpp:125-127 | No total is ever negative |
| Voting.Contract.RegProducer | src/contracts/volentixvote/volentixvote.cpp:4-32 | Registers or updates a producer, keeping its votes |
| Voting.Contract.CheckJobs | src/contracts/volentixvote/volentixvote.cpp:180-190 | The loop accepts exactly the lists of job identifiers 1 and 2 |
| Voting.Contract.SetActive | src/contracts/volentixvote/volentixvote.cpp:34-71 | Activates or deactivates a registered producer |
| Voting.Contract.UpdateProducers | src/contracts/volentixvote/volentixvote.cpp:114-129 | The loop makes the pass over the list |
| Voting.Contract.CastVote | src/contracts/volentixvote/volentixvote.cpp:96-151 | Undoes, casts and stores, or changes nothing |
| Voting.Contract.VoteProducer | src/contracts/volentixvote/volentixvote.cpp:73-94 | Casts with the staked amount as weight, for at most 21 producers and at least 10000 staked |
| Voting.Contract.OnUnstake | src/contracts/volentixvote/volentixvote.cpp:163-178 | Re-casts the stored list with the token balance as weight |
| Ranking.RankingOrder | src/contracts/volentixvote/volentixvote.hpp:134 | In index order, active producers come by non-increasing votes, inactive ones by non-decreasing votes, and an active one with votes before every inactive one |
| Ranking.ReachableRanking | src/contracts/volentixvote/volentixvote.hpp:87-118 | So it is in every reachable state, and get_rank inverts get_top_nodes there |
| Ranking.RankInverts | src/contracts/volentixvote/volentixvote.hpp:87-118 | The rank of the i-th node is i |
| Ranking.IndexExists | src/contracts/volentixvote/volentixvote.hpp:139-142 | Every table has an index by votes |
| Ranking.IndexUnique | src/contracts/volentixvote/volentixvote.hpp:139-142 | It has only one |
| Ranking.IndexListsOnce | src/contracts/volentixvote/volentixvote.hpp:139-142 | It lists every registered producer exactly once |
| Ranking.Rank | src/contracts/volentixvote/volentixvote.hpp:87-98 | The position of an account, and 0 for one that is not there |
| Ranking.GetRank | src/contracts/volentixvote/volentixvote.hpp:87-98 | The loop computes that position |
| Ranking.GetTopNodes | src/contracts/volentixvote/volentixvote.hpp:100-118 | The loop returns the whole index: neither the number of nodes nor the job limits it |
| Rewards.CreditedIsPaidOrPending | src/contracts/vtxdistribut/vtxdistribut.cpp:32-130 | Over every run, the rows credited to a node are those paid to it followed by those pending, in order, and so are their sums |
| Rewards.CalculationCredits | src/contracts/vtxdistribut/vtxdistribut.cpp:61-76 | One calculation over n nodes credits min(n, threshold) rewards and one standby amount for each of the others, in total over all nodes |
| Rewards.CreditsEachOnce | src/contracts/vtxdistribut/vtxdistribut.cpp:64-76 | Every ranked node gets exactly one row, with the amount of its rank; other nodes get none |
| Rewards.UptimeSettles | src/contracts/vtxdistribut/vtxdistribut.cpp:116-130 | A successful uptime call leaves no registered producer with anything pending |
| Rewards.UptimePaysProducers | src/contracts/vtxdistribut/vtxdistribut.cpp:116-130 | With the table and ranking of any reachable state of the voting contract, after any run: a successful uptime call comes from a registered producer, pays every registered producer all that was pending and its two new rows in order, and leaves none of them with a pending row |
| Rewards.CreditsPerWindow | src/contracts/vtxdistribut/vtxdistribut.cpp:49-57 | Over every run with an unchanged period and no 32-bit wrap, a job credits a node, and is calculated, at most 1 + T/period times in any window T, whatever payouts, other jobs and rankings come in between |
| Rewards.RunTimely | src/contracts/vtxdistribut/vtxdistribut.cpp:36-59 | On every such run, the calculations of a job, and the rows it credits to each node, are at least a period apart |
| Rewards.HistoryIsLast | src/contracts/vtxdistribut/vtxdistribut.cpp:39-59 | On every run, the history holds the time of the last calculation that went through, directly or by uptime |
| Rewards.CalculationAdds | src/contracts/vtxdistribut/vtxdistribut.cpp:32-88 | One calculation adds to each ranked node one row with the amount of its rank and a memo of job, position and time, adds none to other nodes, and changes nothing else but the time of the job |
| Rewards.ProducersCredited | src/contracts/vtxdistribut/vtxdistribut.cpp:61-76 | With the ranking of any reachable state of the voting contract, every registered producer is credited exactly once, and the total is that for as many nodes as are registered |
| Rewards.StandbyIgnored | src/contracts/vtxdistribut/vtxdistribut.cpp:61 | The standby threshold has no influence on any calculation |
| Rewards.StandbyCreditedIff | src/contracts/vtxdistribut/vtxdistribut.cpp:64-75 | A standby row is credited if and only if there are more nodes than the rank threshold, even with standby threshold 0 |
| Rewards.PaidOutBalanced | src/contracts/vtxdistribut/vtxdistribut.cpp:90-100 | Paying out a node moves all its pending rows to paid |
| Rewards.Contract.SetRewardRule | src/contracts/vtxdistribut/vtxdistribut.cpp:4-18 | Stores the rule under its number |
| Rewards.Contract.AddReward | src/contracts/vtxdistribut/vtxdistribut.cpp:81-88 | Adds one pending row for the node |
| Rewards.Contract.CalcRewards | src/contracts/vtxdistribut/vtxdistribut.cpp:32-79 | Fails without rule 2 or too early; otherwise records the time and credits every node by its rank |
| Rewards.Contract.Payout | src/contracts/vtxdistribut/vtxdistribut.cpp:90-113 | The loop pays and erases every pending row of the node, or changes nothing when a transfer is refused |
| Rewards.Contract.UptimeCall | src/contracts/vtxdistribut/vtxdistribut.cpp:116-130 | Calculates both jobs and pays every registered producer, or changes nothing |
| Rewards.CalculationIff | src/contracts/vtxdistribut/vtxdistribut.cpp:32-88 | After any run, calculating a job succeeds if and only if a rule was stored under number 2 and its period has passed since the job's last calculation, in 32-bit arithmetic; the node at position i then gets one row with the reward or standby amount of the rule last stored, and nobody else does |
| Rewards.UptimeIff | src/contracts/vtxdistribut/vtxdistribut.cpp:116-130 | After any run, an uptime call succeeds if and only if it is made for a registered producer, both jobs may be calculated again, and every producer with something to be paid takes the transfers |
| Rewards.PayoutEffect | src/contracts/vtxdistribut/vtxdistribut.cpp:90-113 | A payout succeeds if and only if nothing is pending or the node takes the transfers; it pays that node's rows in order and touches no other node's |
| Token.RunConserves | src/tokens/volentixgsys/volentixgsys.cpp:37-202 | Over every run, the supply of each symbol is the sum of its balances and within its maximum, no balance is negative, and every amount is in the 64-bit range |
| Token.ActionConserves | src/tokens/volentixgsys/volentixgsys.cpp:37-202 | Every action keeps this |
| Token.TransferSucceeds | src/tokens/volentixgsys/volentixgsys.cpp:114-173 | A transfer succeeds if and only if it is authorised, to another existing account, of a positive amount in range of the symbol as created, with a memo of at most 256 bytes, and the sender has the quantity: the sums never overflow |
| Token.IssueSucceeds | src/tokens/volentixgsys/volentixgsys.cpp:59-88 | An issue succeeds if and only if it is authorised, of a positive amount of the symbol as created, with a memo of at most 256 bytes, the quantity is still available under the maximum, and the recipient is the issuer or exists |
| Token.RetireSucceeds | src/tokens/volentixgsys/volentixgsys.cpp:90-112 | A retirement succeeds if and only if it is authorised, of a positive amount of the symbol as created, with a memo of at most 256 bytes, and the issuer has the quantity |
| Token.TransferMoves | src/tokens/volentixgsys/volentixgsys.cpp:145-146 | A transfer moves the quantity and changes no other balance |
| Token.TransferBack | src/tokens/volentixgsys/volentixgsys.cpp:114-147 | Sending the quantity back succeeds and restores every balance |
| Token.RetireUndoesIssue | src/tokens/volentixgsys/volentixgsys.cpp:59-112 | Retiring what was issued to the issuer succeeds and restores supply and balances |
| Token.BalanceWithinSupply | src/tokens/volentixgsys/volentixgsys.cpp:169-171 | Every balance is at most the supply of its symbol |
| Token.CreateEffect | src/tokens/volentixgsys/volentixgsys.cpp:37-56 | Creation succeeds if and only if it is authorised and the symbol is new, well formed and has a positive maximum in range; it stores that maximum and issuer with supply 0 |
| Token.MaximumHolds | src/tokens/volentixgsys/volentixgsys.cpp:37-202 | On every run from the creation of a symbol on: maximum and issuer are the ones given then, and the supply is everything issued less everything retired, between 0 and that maximum |
| Token.IssueMoves | src/tokens/volentixgsys/volentixgsys.cpp:59-88 | An issue raises the supply and the recipient's balance by the quantity, and changes no other balance |
| Token.RetireMoves | src/tokens/volentixgsys/volentixgsys.cpp:90-112 | A retirement lowers the supply and the issuer's balance by the quantity, and changes no other balance |
| Token.RowEffect | src/tokens/volentixgsys/volentixgsys.cpp:175-202 | When a row may be opened and closed, and that neither moves anything |
| Token.Contract.CreateToken | src/tokens/volentixgsys/volentixgsys.cpp:37-56 | Creates the symbol with supply 0, or changes nothing |
| Token.Contract.DoIssue | src/tokens/volentixgsys/volentixgsys.cpp:59-88 | Raises supply and the issuer's balance, then transfers to the recipient; all or nothing |
| Token.Contract.DoRetire | src/tokens/volentixgsys/volentixgsys.cpp:90-112 | Lowers supply and the issuer's balance, all or nothing |
| Token.Contract.DoTransfer | src/tokens/volentixgsys/volentixgsys.cpp:114-147 | Checks, then moves the quantity, all or nothing |
| Token.Contract.SubBalance | src/tokens/volentixgsys/volentixgsys.cpp:149-158 | Takes from a balance that covers the value |
| Token.Contract.AddBalance | src/tokens/volentixgsys/volentixgsys.cpp:160-173 | Adds to a balance, or opens the row |
| Token.Contract.OpenRow | src/tokens/volentixgsys/volentixgsys.cpp:175-192 | Opens an empty row for a known symbol unless there is one |
| Token.Contract.CloseRow | src/tokens/volentixgsys/volentixgsys.cpp:194-202 | Erases an empty row |
| Staking.StakingSolvency | src/contracts/volentixstak/volentixstak.hpp:115-146 | Over every run of both contracts, the staking account's balance minus everything outstanding is the funding received minus the subsidies granted, and the cached totals are exact |
| Staking.StepKeepsSolvent | src/contracts/volentixstak/volentixstak.cpp:3-102 | Every action of either contract keeps this |
| Staking.SubsidyCap | src/contracts/volentixstak/volentixstak.hpp:127-143 | 51 times the subsidies ever granted is at most the global limit of 10^15 |
| Staking.FundingSuffices | src/contracts/volentixstak/volentixstak.hpp:115-146 | Funding of floor(10^15 / 51) units covers everything outstanding in a state |
| Staking.FundingNeverFalls | src/contracts/volentixstak/volentixstak.cpp:8-12 | Along every run, the funding received never falls |
| Staking.FundedForever | src/contracts/volentixstak/volentixstak.hpp:115-146 | On every run, from the moment the funding has reached floor(10^15 / 51) units, every later state covers everything outstanding |
| Staking.UnstakeSucceedsIff | src/contracts/volentixstak/volentixstak.cpp:38-74 | With that funding an unstake succeeds if and only if it is authorised, the account exists, is not banned and not the contract itself, the token contract takes the transfer, and some stake is unlocked |
| Staking.KeptIsLocked | src/contracts/volentixstak/volentixstak.cpp:45-55 | The loop keeps exactly the stakes with a later unlock time |
| Staking.KeptInOrder | src/contracts/volentixstak/volentixstak.cpp:45-55 | It keeps them in order |
| Staking.StakeUnlocks | src/contracts/volentixstak/volentixstak.cpp:21-36 | A stake of p periods is paid back with its subsidy from 30 p days after staking on, and not before |
| Staking.SubsidyBound | src/contracts/volentixstak/volentixstak.hpp:115-123 | The subsidy is (1 + periods/10) percent of the stake rounded down, and at most 1/50 of it |
| Staking.PayablePositive | src/contracts/volentixstak/volentixstak.cpp:42-55 | The sum to pay is positive if and only if some stake is unlocked |
| Staking.SumsInRange | src/contracts/volentixstak/volentixstak.cpp:51-52 | No sum formed over an account's stakes leaves the 64-bit range |
| Staking.Contract.OnTransfer | src/contracts/volentixstak/volentixstak.cpp:8-19 | Stakes what users send, ignores the contract's own and the funding account's transfers, and fails on a memo that is not a number |
| Staking.Contract.AddStake | src/contracts/volentixstak/volentixstak.cpp:21-36 | Adds the row and raises the totals, or changes nothing |
| Staking.Contract.UpdateGlobals | src/contracts/volentixstak/volentixstak.hpp:127-146 | Lowers the staked total, or raises all three totals within the global limit |
| Staking.Contract.Sweep | src/contracts/volentixstak/volentixstak.cpp:44-55 | The loop erases the unlocked stakes in place, sums what they pay and lowers the staked total by their amounts |
| Staking.Contract.UnstakeUnlocked | src/contracts/volentixstak/volentixstak.cpp:38-67 | Fails for a banned account; otherwise the table and the sum of the loop |
| Staking.Contract.GetStakedAmount | src/contracts/volentixstak/volentixstak.hpp:59-69 | The loop sums the amounts of an account's stakes |
| Staking.SendTokens | src/contracts/volentixstak/volentixstak.cpp:8-19 | A transfer and the staking contract's handler, all or nothing over both contracts |
| Staking.UnstakeTokens | src/contracts/volentixstak/volentixstak.cpp:57-74 | Unstaking and its inline transfer, all or nothing over both contracts |
| Staking.StakeBySendingIff | src/contracts/volentixstak/volentixstak.cpp:8-36 | A user's transfer to the contract succeeds if and only if the token transfer does, the memo is a number that is at most 10 in 16 bits, the quantity is between 1000 and 10 million VTX, and the global limit holds |
| Staking.StakeBySending | src/contracts/volentixstak/volentixstak.cpp:8-36 | It appends one stake to the sender's: the amount sent, the subsidy for the memo's periods rounded down, unlocked that many times 30 days later, in 32 bits; the totals rise by these |
| Staking.OtherTransfers | src/contracts/volentixstak/volentixstak.cpp:8-12 | Other transfers stake nothing, and those from the funding account are funding |
| Staking.UnstakePays | src/contracts/volentixstak/volentixstak.cpp:38-74 | An unstake moves the amounts and subsidies of exactly the unlocked stakes from the contract to the account, keeps the other stakes in order, and touches no other account |
| Staking.StakeComesBack | src/contracts/volentixstak/volentixstak.cpp:8-74 | The whole way, with the contract funded: the staker gets back its tokens and the subsidy if and only if it unstakes at or after the end of the periods |
| Staking.StakeStays | src/contracts/volentixstak/volentixstak.cpp:8-112 | On every run, whatever others do, a stake stays until its own account unstakes at or after its unlock time |
| Staking.BanEffect | src/contracts/volentixstak/volentixstak.cpp:84-112 | A banned account cannot unstake and keeps its stakes; lifting the ban undoes it |
| Staking.IssueMatches | src/tokens/volentixgsys/volentixgsys.cpp:59-88 | Issuing with the notification does to the ledger what the token contract alone does, and stakes like a transfer from the issuer |
| Staking.InitGlobalEffect | src/contracts/volentixstak/volentixstak.cpp:3-6 | Initialising sets the totals to zero once |

## Left out

- The internals of the curve, Paillier, zero-knowledge and AEAD libraries: they are ideal
  functions here, with the laws above.
- Secrecy, unforgeability and probabilities.  That sessions complete and agree is proved for
  honest parties; with arbitrary peers, what is proved is what an honest party's checks
  establish (`SignRun.SafeAmongOthers`, `KeyGen.SharesFollowCommitments` and the lemmas beside
  them), not that different honest parties then agree.
- HTTP, retries, delays, JSON and files.  A message that does not parse is one of the wrong
  round's type.
- Board.Store.Poll: answers `None` where the program keeps polling; in `Rounds` a poll is a
  step that is enabled once the entry is there.
- KeyGen.EveryoneSavesIff: assumes of the secret sharing library that it draws a polynomial
  with t + 1 coefficients and refuses to share when the threshold is not below the number of
  parties (`key_gen_utils.rs:199`).
- SignRun.EveryoneSignsIff: assumes the same threshold in signing as in key generation, as both
  programs read it from one file.
- Signup.Server.Signup: the session identifier is a counter instead of a random UUID, and the
  party number is not limited to 32 bits.
- `PartyPrivate::refresh_private_key`, `update_private_key` and `to_encrypted_segment`:
  nothing in the two programs calls them.
- The rest of `server.rs`: chat, location, hash table and wallet endpoints.
- `unregprodall`, `deluserinfo`, `clearstakes`, `clearglobals` and `delhistory`: wipes that
  reset the accounts the invariants are about.
- Floating-point rounding of vote weights and of the subsidy; the latter is computed exactly
  and rounded down.
- Voting.VotesEqualRecount: for an empty list the source divides by zero; the weight stored
  then is an arbitrary parameter, which no total depends on.
- Rewards.Contract.Payout: whether the token contract takes a node's transfers is a function
  of the node, not of the distribution account's balance.
- Rewards.CreditedIsPaidOrPending: the logs `credited` and `paid` are kept by the
  model; the contract stores only what is pending.
- Row identifiers of pending rewards, the text form of memos, and the blacklist and uptime tables of
  `vtxdistribut`.
- Staking.StakingSolvency: holds for runs in which nobody else moves VTX out of the staking
  account, the account is not the token's issuer, and no administrative wipe takes place.
- Staking.UnstakeSucceedsIff: `auth` stands for every authorisation an unstake needs.  The
  source takes the owner's or the contract's own (`volentixstak.cpp:71`), but when the voting
  contract is notified it demands the owner's (`volentixvote.cpp:164`): an unstake authorised
  only by the staking contract aborts there.
- The identifier that a stake gets is one more than the last in the table; its 64-bit
  overflow is not modelled.
- The restriction table of the token contract, RAM payers and notifications to other
  contracts than the staking contract.
- Linker.AlwaysEndsIff: does not decide an address in which a dollar sign stands before a
  backquote (what precedes the match) and none before `&` or a quote.  The same addresses are
  open in Linker.LinkingEndsIff.
- Linker.EndsIff: does not say on which bytecodes the loop ends for an address with a dollar
  sign before a backquote or a quote (what follows the match) and none before `&`; for a
  quote, it never ends where the label occurs twice (`Linker.TwiceStays`).
- Linker.LinkBytecode: excludes the addresses of the two lines above.  When two names share
  a label, an address with which that label comes back is excluded although the loop for the
  other name may have removed the label before.
- Linker.LabelOf: counts Unicode characters, where the source counts UTF-16 units: a name with
  characters outside the basic plane gets another label there.
- Linker.BuildComplete: the table keeps insertion order; the engine moves keys that look like
  integers to the front.  This changes nothing unless two names with the same label, such as
  `1` and `1_`, are assigned different addresses (`Linker.LibrariesUnordered`).
- `findLinkReferences`, the other contracts (custodian, oracles, gateway), the drafts beside
  the contracts, and deployment scripts.
