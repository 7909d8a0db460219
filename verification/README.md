# ESDM in Dafny

ESDM (Entropy Source and DRNG Manager) pulls entropy from several sources, credits it in bits and
keeps a set of deterministic random number generators (DRNGs) seeded with it. This project models
its core and proves what every run of it keeps.

* **Seeding and accounting** (`Seeding`, `DrngAccounts`, `DrngManager`, `DrngRuns`, `PrProtocol`,
  `AuxPool`): the rules that make a DRNG fully seeded, the emergency reseed loop, seed levels, request
  accounts, the prediction resistance DRNG, the auxiliary pool. Entropy sources, seed and generate
  callbacks, sleepers, clock, allocation and pool lock are an environment. `DrngRuns` runs any sequence
  of calls from the constructor; `PrProtocol` interleaves prediction resistance requests with reseeds
  and resets.
* **Cryptography around opaque primitives** (`Sha512`, `HashDrbg`, `ChaCha20`, `ChaChaDrng`, `Keccak`,
  `Xor`): buffering, padding, counters, carries, alignment and aliasing, proved against FIPS 180-4,
  FIPS 202, NIST SP 800-90A Rev. 1 and RFC 7539. The SHA-512 compression function, the ChaCha20 block
  function and the Keccak permutation are function values. The host is 64-bit little-endian.
* **Concurrent protocols** (`JentRing`, `ThreadPool`, `IrqProtocol`): the ring of Jitter RNG blocks,
  the thread pool and the harvest of per-CPU events, as transition systems over all interleavings.
* **Kernel entropy source** (`IrqHarvest`, `Health`): the per-CPU harvest with put-back, and the
  SP 800-90B health tests as a fold over the readings.

`Octets`, `Lists`, `Sums`, `Options`, `Masks` and `Oversampling` hold shared definitions.
`dafny verify dfyconfig.toml` checks everything.

History variables (deliveries by DRNG, ledgers, published blocks, accepted jobs, block inputs drawn,
time stamps) carry the statements about runs. They are ghost fields of classes, or fields of a
transition system that no step reads to decide anything. A clause written `P == true` states P; so
written it is proved as a whole and not conjunct by conjunct.

Main results:

* `DrngRuns.Run`: from start-up on, prediction resistance output is covered by bits the sources
  delivered for it, each delivery credited to one DRNG; `PrProtocol.CoveredIff`: exactly when this
  survives concurrent requests.
* `DrngManager.Esdm.SeedEs` with `Seeding.GoingIff`, `Seeding.EndsIff`: what the reseed loop as coded
  computes, and exactly when it goes on and ends.
* `HashDrbg.RunFromNew`: a generator made for any sequence of calls answers, and ends in the state, as
  SP 800-90A says, exactly if no call deviates.
* `ChaChaDrng.Run`: output, rekeying, and exactly when no block input repeats.
* `Keccak.Hash`, `Sha512.Context.HashList`: any split, any alignment, any overlap gives the standard's
  hash, within exact limits.
* `JentRing.Safety`, `ThreadPool.Safety`, `ThreadPool.WaitIsComplete`, `IrqProtocol.RunKeeps`: safety
  in every state of every interleaving.
* `Health.Feed` with `Health.FailsIff`, `Health.StartupExact`: the counters as functions of the events,
  and exactly which runs fail.

Where code and intent differ, the model follows the code, and the exact condition is proved:

* The SHA-512 length field is right exactly under 2^61 octets (`Sha512.PaddingExact`).
* The Hash DRBG leaves SP 800-90A exactly at a seed shorter than the entropy it has to bring, an input
  above 2^32 octets, and a generate call before any seed, after 2^48 others, or for no octets
  (`HashDrbg.AgreesIff`; inputs: `HashDrbg.FirstCallDeviates`, `HashDrbg.RequestsConformIff`,
  `HashDrbg.NoOctetsDeviates`).
* ChaCha20 block inputs repeat exactly when a request exceeds 2^38 - 32 octets, which a comment excludes
  by a 32-bit length although the parameter is `size_t` (`ChaChaDrng.RunDistinct`).
* `thread_schedule` accepts one group too many and every identifier between the regular and the
  reserved ones (`ThreadPool.GroupTestExact`, `ThreadPool.SurplusGroupMeetsSpecial`).
* With sources that deliver, the emergency loop ends exactly if a seed callback succeeds from the first
  turn on that meets the rule (`Seeding.EndsIff`, `Seeding.NeverEnds`).
* The ESDM can be operational without a fully seeded initial DRNG. A seeding call causes it exactly when
  its entropy meets the rule and it is for another DRNG or its callbacks fail (`DrngRuns.BackedIff`),
  and forced seeding before there is a DRNG exactly when somebody is seen to sleep and advertised
  entropy meets the rule (`DrngRuns.ForcedEarly`). It cannot happen in runs without a failed seed
  callback, without a sleeper seen before the manager is available, and without requests that another
  node's DRNG may serve below the operational level (`DrngRuns.Run`). None of the three can be left
  out: `DrngRuns.FailedCallback`, `DrngRuns.AdvertisedOnly` and `DrngRuns.OtherDrng` are runs that meet
  the other two.
* Prediction resistance is conserved exactly with at most one request in flight or a strength below one
  byte (`PrProtocol.CoveredIff`).
* A claim of almost 2^32 bits makes the auxiliary credit wrap and fall (`AuxPool.CreditKeptIff`).
* The mask in the Jitter RNG ring visits the slots in turn exactly for powers of two
  (`Masks.RoundRobinIff`).

## Model

| member | source | states |
|---|---|---|
| `DrngRuns.Run` | esdm/esdm_drng_mgr.c:245-1120 | Any sequence of calls on a new manager: eight times the answered prediction resistance bytes, plus the strength while that DRNG is marked, never exceed the bits delivered for it, which are part of all bits delivered; answered bytes equal produced ones unless there was a fault; after guarded calls, if no seed callback failed and no sleeper was seen, operational implies a fully seeded initial DRNG; a run that begins with a successful initialization looks for no sleepers |
| `DrngRuns.BackedIff` | esdm/esdm_es_mgr.c:494-627 | A seeding call makes the manager operational without its initial DRNG exactly when its entropy meets the rule and it is for another DRNG or no callback succeeds in a turn that meets the rule |
| `DrngRuns.FailedCallback` | esdm/esdm_drng_mgr.c:371-416 | Initialization and new entropy with a failing callback reach such a state, no sleeper seen |
| `DrngRuns.OtherDrng` | esdm/esdm_drng_mgr.c:696-846 | So does an open request on another node after the initial DRNG ran over its limit, reached by calls from start-up with no failed callback and no sleeper seen |
| `DrngRuns.ForcedEarly` | esdm/esdm_drng_mgr.c:541-566 | For every configuration and environment, forced seeding makes a new manager operational before it has a DRNG exactly when a sleeper is seen and advertised entropy meets the rule |
| `DrngRuns.AdvertisedOnly` | esdm/esdm_drng_mgr.c:888-896 | An environment for it, followed by a successful initialization, with no seed callback asked |
| `DrngRuns.Perform` | esdm/esdm_drng_mgr.c:245-1120 | Each call keeps all invariants and adds exactly its bytes to the account of the prediction resistance DRNG |
| `Seeding.GoingIff` | esdm/esdm_drng_mgr.c:424-501 | For any sources and callbacks, the loop is going after n turns exactly if in each of them enough sources delivered and the callback did not succeed on a met rule |
| `Seeding.GoingUntilSuccess` | esdm/esdm_drng_mgr.c:424-501 | With delivering sources there is a turn, bounded by what was lacking, from which on the loop goes on exactly until a callback succeeds |
| `Seeding.EndsIff` | esdm/esdm_drng_mgr.c:424-501 | It ends exactly if one does |
| `Seeding.NeverEnds` | esdm/esdm_drng_mgr.c:424-501 | With delivering sources and a callback that always fails it never ends |
| `Seeding.NotSeededIff` | esdm/esdm_drng_mgr.c:424-501 | After n turns the totals are the sums of the deliveries, and the DRNG is fully seeded exactly if a callback succeeded in a turn that met the rule |
| `Seeding.MetInTime` | esdm/esdm_drng_mgr.c:424-501 | Delivering sources meet the rule within as many turns as bits are lacking |
| `Seeding.Terminates` | esdm/esdm_drng_mgr.c:424-501 | With a succeeding callback, turns plus what is still lacking never exceed what was lacking, for every source behaviour |
| `Seeding.TurnBound` | esdm/esdm_drng_mgr.c:424-501 | No more turns than the threshold has bits, or 240 per source in AIS 20/31 mode |
| `Seeding.TurnedByRule` | esdm/esdm_drng_mgr.c:424-501 | If the loop leaves a DRNG fully seeded, the entropy of this one call meets the rule |
| `Seeding.RuleCoversStrength` | esdm/esdm_es_mgr.c:435-453 | In either mode a DRNG turns fully seeded on no less entropy than the security strength |
| `Seeding.RuleGrows` | esdm/esdm_es_mgr.c:435-453 | A met rule stays met as more is delivered |
| `DrngAccounts.SeededExact` | esdm/esdm_drng_mgr.c:371-416 | A full or insufficient seeding keeps the request and bit counters equal to the history, modulo 2^32 and never above it |
| `DrngAccounts.CheckedExact` | esdm/esdm_drng_mgr.c:671-683 | Counting a checked request keeps requests since full seeding plus used-up requests equal to the checked ones, through the 32-bit wrap and never above them |
| `DrngAccounts.ProducedExact` | esdm/esdm_drng_mgr.c:798-801 | The bit counter stays eight times the bytes produced, modulo 2^32 |
| `DrngAccounts.ExactPlain` | esdm/esdm_drng_mgr.c:371-416 | Below 2^32 requests and bits since the last full seeding the counters are plain equalities |
| `DrngManager.CreditShared` | esdm/esdm_es_mgr.c:767-802 | No delivery is credited to two DRNGs |
| `DrngManager.Esdm.constructor` | esdm/esdm_drng_mgr.c:149-180 | The initial state satisfies seed levels, accounts and balance |
| `DrngManager.Esdm.Initialize` | esdm/esdm_drng_mgr.c:245-286 | The manager turns available exactly if allocation succeeds, once |
| `DrngManager.Esdm.Inject` | esdm/esdm_drng_mgr.c:371-416 | Only the seeded DRNG changes: a failed callback leaves counters and level and asks for a reseed, a success restarts the counters of its kind; accounts stay exact |
| `DrngManager.Esdm.InitOps` | esdm/esdm_es_mgr.c:494-627 | Operational and fully seeded coincide afterwards and imply minimally seeded; the level is reached exactly when injected, or advertised, entropy meets the rule; 128 bits make it minimally seeded |
| `DrngManager.Esdm.FillSeedBuffer` | esdm/esdm_es_mgr.c:767-802 | A fully seeded ESDM with too little advertised entropy pulls nothing unless forced; otherwise the buffer is the next delivery, booked for this DRNG |
| `DrngManager.Esdm.SeedRound` | esdm/esdm_drng_mgr.c:442-500 | One turn is the rule's turn on the next delivery and the next callback, and nothing else is consulted |
| `DrngManager.Esdm.SeedLoop` | esdm/esdm_drng_mgr.c:424-501 | The loop terminates in a fair environment and is the rule's turns on consecutive deliveries and callbacks |
| `DrngManager.Esdm.SeedEs` | esdm/esdm_drng_mgr.c:424-501 | The result is that of so many turns of the rule on exactly the deliveries and callbacks of this call, and no turn too many; unforced calls take one turn, forced ones go on to their end; dry sources are asked once; the bits are credited to this DRNG; levels, accounts and balance hold |
| `DrngManager.Esdm.FindUnseeded` | esdm/esdm_drng_mgr.c:569-591 | The first node DRNG that is not fully seeded, none skipped |
| `DrngManager.Esdm.SeedWork` | esdm/esdm_drng_mgr.c:541-603 | Exactly the first DRNG that is not fully seeded is reseeded, prediction resistance last, with the outcome of a seeding call; all nodes count as seeded exactly when every DRNG is; without DRNGs the level rises exactly if a sleeper is seen and advertised entropy meets the rule |
| `DrngManager.Esdm.ForceFullySeeded` | esdm/esdm_drng_mgr.c:888-896 | The same, forced to its end, unless all nodes are seeded; no DRNG loses its level |
| `DrngManager.Esdm.ForceAll` | esdm/esdm_drng_mgr.c:899-909 | With sources that deliver from some time on the loop ends, with all DRNGs seeded or too little entropy advertised; without DRNGs the level rises as in seed work |
| `DrngManager.Esdm.InitSources` | esdm/esdm_es_mgr.c:669-716 | Its last step seeds under the first threshold and keeps all invariants |
| `DrngManager.Esdm.UnsetFullySeeded` | esdm/esdm_es_mgr.c:468-491 | The DRNG has the mark afterwards only on a full strength of bits delivered to it in this call; the prediction resistance balance is re-established |
| `DrngManager.Esdm.MustReseed` | esdm/esdm_drng_mgr.c:671-683 | The request is counted; a reseed is due exactly at the request limit, on demand, at the bit limit or by time |
| `DrngManager.Esdm.ReseedIfDue` | esdm/esdm_drng_mgr.c:727-741 | One check is accounted; a reseed happens exactly if due and the pool is free, and is put off to the next request if due without it |
| `DrngManager.Esdm.AllowPr` | esdm/esdm_drng_mgr.c:756-785 | What a prediction resistance request may generate next, with all it produced before, is covered by delivered bits and at most the strength; none only if nothing was delivered |
| `DrngManager.Esdm.Generate` | esdm/esdm_drng_mgr.c:787-801 | No more than asked is produced, and counted for DRNG and history alike |
| `DrngManager.Esdm.GetPrChunk` | esdm/esdm_drng_mgr.c:743-808 | A chunk never exceeds the strength, is booked as produced, and leaves it covered by delivered bits, also when generating fails or nothing could be pulled |
| `DrngManager.Esdm.GetChunk` | esdm/esdm_drng_mgr.c:722-801 | An ordinary chunk makes progress, or the generate callback failed; exactly one check and its bytes are accounted, for this DRNG only; dry sources are asked at most once |
| `DrngManager.Esdm.Get` | esdm/esdm_drng_mgr.c:696-813 | An ordinary request returns all bytes or an error of the generate callback, a prediction resistance request what was covered; the bytes of the reply are those accounted, one check a chunk; a DRNG over its limit is fully seeded afterwards only by new bits; a pull for another DRNG than the initial one counts for the levels |
| `DrngManager.Esdm.GetSleep` | esdm/esdm_drng_mgr.c:815-846 | The same, whatever DRNG serves the request, initialization included |
| `DrngManager.Esdm.Request` | esdm/esdm_drng_mgr.c:924-1120 | Behind each gate: no bytes below its level, lengths modulo 2^32, the accounted bytes are the reply; prediction resistance waits for the operational level |
| `DrngManager.Esdm.Reset` | esdm/esdm_drng_mgr.c:851-883 | Every DRNG and every level is reset; what was pulled and produced stays on record |
| `DrngManager.Esdm.ForceReseed` | esdm/esdm_drng_mgr.c:637-669 | Fully seeded node DRNGs, or only the initial one when it is alone or over its limit, reseed next |
| `DrngManager.Esdm.AddEntropy` | esdm/esdm_es_mgr.c:731-764 | Seed work happens exactly if not all nodes are seeded, advertised entropy reaches the threshold and the pool is free, with the outcome of a seeding call |
| `DrngManager.Esdm.NodeAlloc` | esdm/esdm_node.c:82-149 | Unseeded node DRNGs become visible once, and all invariants stay |
| `DrngManager.Esdm.NodeFini` | esdm/esdm_node.c:151-159 | Withdrawing the node DRNGs keeps them |
| `PrProtocol.CoveredIff` | esdm/esdm_drng_mgr.c:696-883 | In every run with so many requests and reseeds in flight, resets and limits included, bytes handed out are covered by bits pulled exactly if there is at most one request or the strength is below one byte |
| `PrProtocol.Conserves` | esdm/esdm_drng_mgr.c:1041-1059 | With one request in flight, a full seed on top is covered while the mark is set outside the window before it is removed |
| `PrProtocol.TwoRequestsOverdraw` | esdm/esdm_drng_mgr.c:1062-1069 | For every strength of a byte or more and every number of places from two on, a run that hands out more than was pulled |
| `PrProtocol.NextInv` | esdm/esdm_drng_mgr.c:696-813 | Every interleaved step with one request in flight keeps coverage and lock ownership |
| `PrProtocol.RunInv` | esdm/esdm_drng_mgr.c:696-813 | So does every run |
| `AuxPool.CreditKeptIff` | esdm/esdm_es_aux.c:251-273 | An insertion lowers the credit exactly when the 32-bit sum wraps; otherwise the credit is the capped sum |
| `AuxPool.Pool.Insert` | esdm/esdm_es_aux.c:242-278 | Credit grows by no more than the data has bits, is capped by the digest, and is untouched on hash failure; the balance of credit and extractions holds |
| `AuxPool.Pool.Extract` | esdm/esdm_es_aux.c:309-380 | Returned bits are the smaller of request and advertised entropy, none on hash failure; surplus credit stays |
| `AuxPool.Pool.Get` | esdm/esdm_es_aux.c:382-399 | The backtracking re-insert mints no credit; over any run, bits returned plus credit left never exceed bits credited |
| `HashDrbg.RunFromNew` | crypto/drbg.c:32-88 | A generator made for any sequence of calls: its replies, and its replies with its state, are those of the SP 800-90A machine exactly if no call deviates |
| `HashDrbg.Drbg.constructor` | crypto/hash_drbg.c:291-319 | A new generator stands for the new, unseeded machine |
| `HashDrbg.Run` | crypto/drbg.c:32-88 | For every sequence of calls with inputs of any length, all replies and the state are those of the coded machine |
| `HashDrbg.AgreesIff` | crypto/drbg.c:32-88 | Over any sequence of calls to a new generator, replies and state are those of SP 800-90A exactly if no call deviates: short seed, long input, generate before a seed, after 2^48 others or for no octets |
| `HashDrbg.RepliesAgreeIff` | crypto/drbg.c:32-88 | Already the replies tell, for any two hashes that agree below 2^61 octets |
| `HashDrbg.StepAgreesIff` | crypto/drbg.c:32-88 | After a conforming run one more call is the standard's step, or is answered differently |
| `HashDrbg.FirstCallDeviates` | crypto/drbg.c:32-88 | Inputs: generate before a seed, a seed of one octet, a personalization string of 2^32 + 1 octets |
| `HashDrbg.RequestsConformIff` | crypto/drbg.c:63-88 | A seed and any requests behind it conform exactly up to 2^48 of them |
| `HashDrbg.NoOctetsDeviates` | crypto/drbg.c:63-88 | A request for no octets deviates |
| `HashDrbg.Drbg.Seed` | crypto/drbg.c:32-60 | Bad arguments are refused without effect; the first call instantiates, later ones reseed, as sections 10.1.1.2 and 10.1.1.3 say, for every length |
| `HashDrbg.Drbg.Generate` | crypto/drbg.c:63-88 | Requests out of bounds are refused without effect; otherwise output and state are those of section 10.1.1.4 under the counter modulo 2^64 |
| `HashDrbg.Drbg.GenerateInternal` | crypto/hash_drbg.c:229-262 | Output and next V, with the counter already advanced |
| `HashDrbg.Drbg.HashDfInto` | crypto/hash_drbg.c:97-130 | The output is Hash_df of section 10.3.1 although output and scratchpad are among the buffers read |
| `HashDrbg.Drbg.HashUpdate` | crypto/hash_drbg.c:133-164 | V and C of both seedings, V being input and output of Hash_df |
| `HashDrbg.Drbg.ProcessAddtl` | crypto/hash_drbg.c:167-190 | V takes the hash of additional input as in step 2, and is unchanged without any |
| `HashDrbg.Drbg.HashgenInto` | crypto/hash_drbg.c:193-226 | The buffer receives exactly the standard's Hashgen output for every length; V is unchanged |
| `HashDrbg.Drbg.StepV` | crypto/hash_drbg.c:245-258 | V becomes V plus its hash plus C plus the counter modulo 2^888 |
| `HashDrbg.AddBuf` | crypto/hash_drbg.c:52-79 | In place the destination becomes the sum modulo 256 to its length; the rest of the buffer is untouched |
| `HashDrbg.CarryHigh` | crypto/hash_drbg.c:71-78 | The carry loop completes the exact sum, stopping early only when nothing is left to add |
| `HashDrbg.AddOctetsExact` | crypto/hash_drbg.c:52-79 | Octet addition with carry is addition of the numbers modulo 256 to the length |
| `HashDrbgStandard.HashgenBlock` | crypto/hash_drbg.c:193-226 | Output block k of hashgen is the hash of V plus k modulo 2^888 |
| `HashDrbgStandard.HashgenDataIsCounter` | crypto/hash_drbg.c:193-226 | Repeated increments are one addition of the count |
| `Sha512.PaddingExact` | crypto/sha512.c:182-224 | The padding as coded is that of section 5.1.2 of FIPS 180-4 exactly for messages under 2^61 octets |
| `Sha512.HashExact` | crypto/sha512.c:182-224 | So the digest as coded is the standard's for them |
| `Sha512.FillIsTail` | crypto/sha512.c:145-147 | The fill level taken from the wrapped 64-bit counter is that of the true length |
| `Sha512.FinalBlocks` | crypto/sha512.c:182-224 | One or two last blocks, by fill level, complete the padded message |
| `Sha512.Context.Update` | crypto/sha512.c:142-180 | The context stands for the message extended by the input, for every split including empty ones |
| `Sha512.Context.CloseBlock` | crypto/sha512.c:150-171 | Completing a buffered block advances the fold by exactly that block |
| `Sha512.Context.AbsorbBlocks` | crypto/sha512.c:173-176 | Whole blocks of the input are folded in order |
| `Sha512.Context.FinalTransforms` | crypto/sha512.c:182-212 | The chain is the fold over the message padded as coded |
| `Sha512.Context.Final` | crypto/sha512.c:182-224 | The digest is that of the message padded as coded, for every length |
| `Sha512.Context.HashList` | crypto/hash_drbg.c:33-40 | Hashing a list of buffers hashes their concatenation, also when the digest overlaps an input |
| `Octets.ToBEOfValue` | crypto/hash_drbg.c:52-79 | An octet string is recovered from any number congruent to its value |
| `ChaChaDrng.Run` | crypto/chacha20_drng.c:79-149 | Any run from a fresh state hands out the specified octets and never gives the block function a nonce and counter pair twice, exactly when every request is at most 2^38 - 32 octets (up to 2^96 updates) |
| `ChaChaDrng.RunDistinct` | crypto/chacha20_drng.c:36-149 | Block inputs of a run are pairwise distinct exactly when every request is short enough |
| `ChaChaDrng.NoReuse` | crypto/chacha20_drng.c:36-149 | In at most 2^96 update periods no nonce and counter pair repeats, exactly when no period takes more than 2^32 blocks |
| `ChaChaDrng.DrawnBound` | crypto/chacha20_drng.c:112-149 | A request draws at most 2^32 blocks exactly up to 2^38 - 32 octets |
| `ChaChaDrng.RekeyBehindOutput` | crypto/chacha20_drng.c:36-53 | The eight words mixed into the key lie in one drawn block, wholly behind every word the caller got |
| `ChaChaDrng.RekeyIsFirstFit` | crypto/chacha20_drng.c:36-53 | They are the first such words |
| `ChaChaDrng.Drng.Generate` | crypto/chacha20_drng.c:112-149 | The output is a prefix of the keystream for every length and alignment, the key takes keystream behind it, and only the blocks of this period are drawn; nothing depends on the uninitialised buffer |
| `ChaChaDrng.Drng.Seed` | crypto/chacha20_drng.c:79-96 | The state is the chained injection of the seed's chunks, each with its own period of one block |
| `ChaChaDrng.Drng.Update` | crypto/chacha20_drng.c:36-64 | The key takes the keystream at the stated place, from the last block or a new one, and the period ends |
| `ChaChaDrng.Drng.IncrementNonce` | crypto/chacha20_drng.c:55-61 | The three-word carry is an exact increment modulo 2^96 |
| `ChaCha20.State.Crypt` | crypto/chacha20.c:170-192 | The output is the input exclusive-ored with the RFC 7539 keystream, in place or out of place, at any alignment |
| `ChaCha20.Involution` | crypto/chacha20.c:170-192 | From equal start states a second encryption undoes the first for every length |
| `ChaCha20.SplitAtBlocks` | crypto/chacha20.c:170-192 | Two calls equal one when the first takes whole blocks, in text and in counter |
| `ChaCha20.SplitInsideBlockSkips` | crypto/chacha20.c:170-192 | A first part that ends inside a block makes the second call skip to the next block |
| `ChaCha20.AdvanceStream` | crypto/chacha20.c:124-127 | Advancing the counter shifts the keystream by whole blocks, through the 32-bit wrap |
| `Xor.Xor64` | common/xor.h:97-106 | For every size and both alignments the result is the octet-wise exclusive-or |
| `Xor.Xor64Aligned` | common/xor.h:71-87 | The 64-bit loop with its 32-bit and octet tails does the same |
| `Xor.Xor32Aligned` | common/xor.h:43-59 | The word loop with its octet tail does the same |
| `Xor.XorLe64` | common/bitshift_le.h:33-56 | A lane assembled from octets and exclusive-ored as a word changes exactly these octets |
| `Xor.Le64ToPtr` | common/bitshift_le.h:33-56 | A lane stored octet by octet is its two halves |
| `Keccak.Hash` | crypto/sha3.c:284-397 | For every split of the message, every alignment and every cut of the output into multiples of the rate and a free last piece, the pieces are those of one sponge call of section 4 of FIPS 202 |
| `Keccak.Append` | crypto/sha3.c:284-341 | Appending to a message continues absorption from its state with the incomplete block in front |
| `Keccak.PaddedBlock` | crypto/sha3.c:350-367 | The last block with its padding completes absorption of the padded message |
| `Keccak.SqueezeSplit` | crypto/lc_hash.h:98-117 | After a multiple of the rate, squeezing goes on exactly where one long squeeze would |
| `Keccak.WholeIff` | crypto/lc_hash.h:98-117 | The sizes that allow it are those without remainder |
| `Keccak.Context.FillState` | crypto/sha3.c:256-264 | Lanes assembled from octets and exclusive-ored as words mix the block into the state octet by octet |
| `Keccak.Context.FillStateAligned` | crypto/sha3.c:273-282 | Word-wise mixing gives the same state |
| `Keccak.Context.Absorb` | crypto/sha3.c:284-341 | The context stands for the message extended by the input |
| `Keccak.Context.WritePadding` | crypto/sha3.c:353-358 | The partial block becomes the last padded block, also when one octet holds both padding bits |
| `Keccak.Context.WriteOut` | crypto/sha3.c:369-391 | Stores of lanes, of half a lane and of octets shifted out of the rest emit exactly the front of the state |
| `Keccak.Context.Squeeze` | crypto/sha3.c:368-392 | The output is that of the sponge from the current state, which advances by the blocks used |
| `Keccak.Context.Final` | crypto/sha3.c:343-397 | First and later calls give the output from where squeezing stands |
| `JentRing.Safety` | esdm/esdm_es_jent.c:128-215 | In every state of every interleaving no slot has two users, every delivered block has the data and bits its monitor stored, no round is delivered twice, and an undelivered round lies unchanged in exactly one slot |
| `JentRing.NextInv` | esdm/esdm_es_jent.c:128-215 | Every step of every filler and reader keeps ownership, contents and delivery history consistent |
| `JentRing.RunInv` | esdm/esdm_es_jent.c:128-215 | So does every run |
| `Masks.RoundRobinIff` | esdm/esdm_es_jent.c:178-180 | Masked tickets visit the slots in turn across the index wrap exactly for powers of two up to 2^32 |
| `Masks.PlaceIsResidue` | esdm/esdm_es_jent.c:178-180 | For a power of two the mask is the remainder |
| `ThreadPool.Safety` | common/threading_support.c:213-415 | In every state of every interleaving each accepted job is in a slot of its own group, starts and finishes at most once, and until finished is the one job of its slot |
| `ThreadPool.WaitIsComplete` | common/threading_support.c:420-469 | When thread_wait returns, every regular job of the caller is finished, although parent and pending flag are read without the lock |
| `ThreadPool.NextInv` | common/threading_support.c:213-469 | Every step of callers and workers keeps locks, slots, jobs and waits consistent |
| `ThreadPool.RunInv` | common/threading_support.c:213-469 | So does every run |
| `ThreadPool.InBounds` | common/threading_support.c:340-351 | The slot search stays inside the array |
| `ThreadPool.GroupsDisjoint` | common/threading_support.c:340-347 | Proper groups never share a slot |
| `ThreadPool.GroupTestExact` | common/threading_support.c:331-347 | Which groups the test accepts, and that of these exactly the proper ones, and the surplus one when enough slots are left over, have slots that no proper group shares |
| `ThreadPool.SurplusGroupMeetsSpecial` | common/threading_support.c:331-347 | With one group of 64 slots, group 1 is accepted and lands in a reserved slot that thread_wait never visits |
| `IrqProtocol.RunKeeps` | addon/linux_esdm_es/esdm_es_irq.c:311-460 | In every state of every interleaving of interrupts and harvests, each event is in one counter, in one harvest's hand, used or lost, and no harvest takes more than it was asked for |
| `IrqProtocol.NextKeeps` | addon/linux_esdm_es/esdm_es_irq.c:311-460 | So does every step: interrupt, exchange, put-back, failing update |
| `IrqHarvest.Pools.PoolHash` | addon/linux_esdm_es/esdm_es_irq.c:369-460 | Returned bits, used events and every counter are exact on success; no failure returns bits; over any run counters plus used events never exceed arrivals, and bits returned never outweigh events used |
| `IrqHarvest.Pools.HarvestAll` | addon/linux_esdm_es/esdm_es_irq.c:403-433 | The loop takes the smaller of request and supply and puts the surplus back; it stops at the first failing update, which leaves its counter empty and later ones untouched |
| `IrqHarvest.Pools.Avail` | addon/linux_esdm_es/esdm_es_irq.c:280-309 | The advertised entropy is the converted sum of capped counters of online pools, zero before start-up is complete |
| `IrqHarvest.HarvestBound` | addon/linux_esdm_es/esdm_es_irq.c:369-460 | The result exceeds neither the request nor the advertised entropy |
| `IrqHarvest.TakenSum` | addon/linux_esdm_es/esdm_es_irq.c:403-433 | Events taken over all CPUs are the smaller of request and supply, and what is taken and put back is what was found |
| `IrqHarvest.ReturnMore` | addon/linux_esdm_es/esdm_es_irq.c:439-449 | Bits handed out never outweigh the events used for them |
| `IrqHarvest.RoundTripLoses` | addon/linux_esdm_es/esdm_definitions.h:123-133 | Bits to events and back never gains, in spite of two roundings |
| `Health.Feed` | addon/linux_esdm_es/esdm_health.c:421-441 | For any run of events on any number of CPUs the log of both tests and of start-up is the fold of the events' readings, every result is that of its CPU's history, and the machine halts at the first reading that halts it |
| `Health.RunFromStart` | addon/linux_esdm_es/esdm_health.c:421-441 | The same from a fresh source, whose log is then what its last readings make of it |
| `Health.FailsIff` | addon/linux_esdm_es/esdm_health.c:204-351 | A run fails exactly if some window holds 325 repetitions of its base or 31 verdicts in a row are stuck, and the log of one that does not is known in closed form |
| `Health.StartupExact` | addon/linux_esdm_es/esdm_health.c:116-127 | Start-up of a run without failure is complete exactly from 1025 readings on |
| `Health.StartupTakes` | addon/linux_esdm_es/esdm_health.c:116-150 | After a failure it takes at least 513 samples |
| `Health.LogIsRecent` | addon/linux_esdm_es/esdm_health.c:204-351 | After any run the window is the last samples, its base the one before them, the verdicts the last ones |
| `Health.CountersMean` | addon/linux_esdm_es/esdm_health.c:204-351 | So the two counters are matches of the base and stuck verdicts among the last readings |
| `Health.ObservedSound` | addon/linux_esdm_es/esdm_health.c:204-351 | No run leaves 371 matches or 81 stuck verdicts uncleared |
| `Health.HaltedStays` | addon/linux_esdm_es/esdm_health.c:167-186 | A halted machine observes nothing more |
| `Health.SourceHealth.Test` | addon/linux_esdm_es/esdm_health.c:421-441 | Disabled tests pass everything; otherwise the log takes one step by the reading of the event, all counters agree with it, and the result is pass, use or drop by history and mode |
| `Health.SourceHealth.Stuck` | addon/linux_esdm_es/esdm_health.c:382-397 | An event is stuck exactly when a first, second or third difference of its CPU's time stamps is 0 modulo 2^32 |
| `Health.SourceHealth.AptInsert` | addon/linux_esdm_es/esdm_health.c:258-290 | Base, window, matches, cut-offs 325 and 371 and window closing follow the sample; outside FIPS mode nothing happens |
| `Health.SourceHealth.Rct` | addon/linux_esdm_es/esdm_health.c:321-351 | The count follows the verdict; 31 and 81 trigger failures |
| `Health.SourceHealth.PermanentFailure` | addon/linux_esdm_es/esdm_health.c:167-186 | The machine halts, or both tests restart |
| `Health.DiffAppend` | addon/linux_esdm_es/esdm_health.c:365-397 | Differences of stored differences are the second and third differences of the history |
| `Health.TrailingIsRun` | addon/linux_esdm_es/esdm_health.c:321-351 | The repetition count is the length of the current stuck run |

## Left out

- RPC client and server, CUSE devices, getrandom wrapper, OpenSSL and Botan frontends, SELinux and privileges: plumbing over other libraries.
- The rounds of SHA-512, Keccak-p and ChaCha20, other crypto backends and the jitterentropy library: kept as function values or outcomes.
- The atomic DRNG: a stub in this configuration, so no run of it is modelled.
- `esdm_get_seed`, `esdm_aux_switch_hash`, `esdm_set_digestsize` and `esdm_pool_set_entropy`: seed export adds easy members, hash switching is off by default and the setter mints credit by design.
- SHA-256, HMAC, the scheduler source, `cc20_setkey` and `cc20_setiv`, configuration setters: repeats or easy members.
- Thread shutdown and cancellation, failing thread creation, return codes of finished jobs, wake-ups and liveness of condition waits.
- Jitter RNG initialization and finalization, and what the synchronous fall-back returns: outside the ring.
- DrngManager.Esdm.SeedEs: the sums of a call are unbounded numbers, so a 32-bit wrap after more than a million failed seedings in one forced call is not modelled. Seed callbacks do not fail for good, without which the call need not end (`Seeding.EndsIff`).
- DrngManager.Esdm.ForceAll: its termination is shown for sources that deliver from some time on; with sources that never do it may spin.
- DrngManager.Esdm.GetPrChunk: waits for the pool lock instead of spinning on it.
- DrngManager.Esdm.Request: a blocking call that would sleep is modelled as one that returns without bytes at its gate, and may be called again; termination of the manager, which lets sleepers through their gate, is not modelled.
- DrngManager.Esdm.SeedWork: whether a sleeper is seen is an outcome of the environment, as it is a try for the lock of the wait queue.
- DrngRuns.Run: each call is one step; the interleaving of prediction resistance requests is in `PrProtocol`. The environment is fair as above, and runs with the calls of `ForceAll` or `InitSources` have delivering sources, so that every call ends.
- Keccak.Hash: messages under 2^64 octets, where the code's counter would wrap, and no absorbing after squeezing began, which the sponge does not define.
- IrqHarvest.Pools.PoolHash: the 32-bit products must be in range, as the rate and digest sizes in use make them.
- IrqProtocol.RunKeeps: counters are unbounded; their 32-bit wrap is in `IrqHarvest`.
- Health.SourceHealth.Test: one call is one step; races between CPUs on the shared counters are not modelled.
- ThreadPool.Safety: callers use groups `thread_init` provided for or the reserved identifiers; `ThreadPool.GroupTestExact` says what the others do.
- ChaChaDrng.Run: the output buffer starts aligned; `ChaChaDrng.Drng.Generate` covers every alignment.
