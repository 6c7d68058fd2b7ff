# A verified model of the drive unlockers

These modules model the protocols by which the host unlocks an optical drive, and prove what they
promise over every behaviour of the drive. The drive is an arbitrary environment: it may answer
anything, refuse any command, drop off the bus at any moment, let only part of a write land, and the
host may be stopped between any two calls. Such an environment is a record of functions of the
history, so "for every drive and every moment of cancellation" is a plain universal quantifier.

- **The Pioneer runtime hook** (`Ram`, `Renesas`, `Transaction`): installation, activation,
  verification and unwinding as a transaction on drive RAM. The invariant of every state, torn writes
  included, is `Recoverable`; `Safe` says which write keeps it when, and so carries the argument for
  the order of the steps. A drive keeps the sequence of commands it was sent, and its RAM is a function
  of that sequence, of what it held before and of the environment. Every operation follows a plan, the
  commands it sends when nothing fails, and stops somewhere along it when something does; so success and
  unwinding are statements about the command history.
- **The code the hook installs** (`H8s`, `Wrapper`, `VidWrapper`): the emitted H8S program as a
  datatype with a step function, run block by block. OEM routines are arbitrary functions on the
  machine that keep the calling convention `Conventional`. What the proofs track is a view of the
  machine: registers, the words on the stack, and the memory a command may care about (`Seen`).
  `VidWrapper.FixtureMeets` meets every assumption on placement and calls with the sites of the
  operations tests. `Serves`, the assumption of the transaction that a served command leaves pointers,
  write path and payload alone, is derived in `Service` from runs of the two wrappers and from the
  calling convention of the OEM routines.
- **The AACS handshake** (`Modular`, `Curve`, `Bytes`, `Ecdsa`, `Cmac`, `Handshake`, `HandshakeRun`,
  `Ledger`, `Pacing`, `Authentic`, `Sessions`, `Honest`): arithmetic from extended Euclid to the CMAC
  subkey, the authentication and the certificate loop as functions of the history with their imperative
  twins, the AGID ledger as an automaton every run is accepted by, what success and each kind of failure
  require of the drive's answers, and the run against a drive that follows the protocol. `Authentic` and
  `Sessions` read this off the history for every drive, with signatures, shared key and MAC stated by
  their equations instead of by the checks that decide them. The
  primality of p and n, the associativity of the group law and the order of the generator are the named
  hypotheses `Field`, `Group` and `Hypotheses`; closure, commutativity, inverses and all above are
  proved from the code. `SmallCurve.HypothesesMet` shows that the hypotheses can all be met at once, on
  a curve of seven points, for every hash and every key width from 16 bytes on; `SmallSession.SessionMet`
  builds on that curve a drive and a host for which the assumptions of the honest run hold, and
  `SmallSession.SessionRuns` lets them finish.
- **The MT1959 unlock** (`Ld`): unlock read, upload, settle and re-confirm, readiness poll, calibration,
  and the unlocker around them. Time is a function of the history, with waits taking at least their
  length. Initialisation, poll, calibration and whole run are grammars of the history, so each result is
  fixed by what the drive answered.
- **CSS** (`Css`): the key stream of the bus authentication, the exchange and the session's AGID.
- **The profile catalog** (`Catalog`): the two-pass lookup.

`Scsi` is the transport they share: cancellation takes effect between calls, never inside a critical
span, and a clean-up command always reaches the drive.

Where code and documentation differ the model follows the code. The comment on `Profiles::get`
(src/ld/profile.rs:20-22) describes two passes per platform section, the second without the firmware
date; `find_by_drive_id` makes both passes over all sections and compares the date in both. Its promise
of a unique match holds when the drive names a product; `Catalog.OrderIrrelevant` gives the exact
condition under which the order of the catalog cannot matter.

`dafny verify dfyconfig.toml` checks the whole project.

## Model

| member | source | states |
|---|---|---|
| Renesas.RecoverableMeaning | src/freemkv/renesas.rs:833-887 | In a recoverable RAM an installed READ BUFFER pointer implies the installed VID pointer, which implies the payload; the allocation differs from the payload only while both pointers, the security slot and all guards read as OEM |
| Renesas.WriteRegion | src/freemkv/renesas.rs:429-458 | A write into one region, whole or torn, leaves what every other ownership check reads as it was, and every cell beyond |
| Renesas.TornRecoverable | src/freemkv/renesas.rs:951-993 | For each of the four regions, when a write torn at any byte passes only through recoverable states: the order of install and unwind in one condition per region |
| Renesas.Drive.Write | src/freemkv/renesas.rs:422-458 | A diagnostic write lands some prefix, all of it if it succeeds; the command is appended to the history, and the states the write passes through to the trace |
| Renesas.Drive.WriteVerified | src/freemkv/renesas.rs:951-971 | Write, read back, compare: exactly those two commands, cut short only by a fault; success exactly when neither faults; the region then holds the bytes; from a safe state no passing state breaks recoverability |
| Renesas.Drive.Serve | src/freemkv/mod.rs:133-177 | A served command is appended to the history and may change RAM as the drive likes; the host writes nothing |
| Transaction.Guards | src/freemkv/renesas.rs:472-491 | Reads the guards in order and stops at the first that fails; succeeds exactly when no read faults and every guard holds; fails dead exactly when the last read met a dead bus |
| Transaction.CheckPrepared | src/freemkv/renesas.rs:900-950 | Reads guards, security slot, READ BUFFER pointer, write path, VID pointer and allocation in this order; succeeds exactly when no read faults and all are owned; a dead bus is told apart from a declined check |
| Transaction.Stage | src/freemkv/renesas.rs:951-993 | Payload, VID pointer, READ BUFFER pointer, each written and read back, in this order; every state is recoverable; succeeds exactly when no command faults; then all three are in place and nothing outside the regions moved |
| Transaction.RestorePolicy | src/freemkv/renesas.rs:995-1020 | Reads the slot and rewrites it only if it holds our table; succeeds exactly when no command faults and the slot held the OEM table or ours; then it holds the OEM table |
| Transaction.Detach | src/freemkv/renesas.rs:833-868 | Both pointers go back to OEM, the READ BUFFER pointer first, through recoverable states only |
| Transaction.Cleanup | src/freemkv/renesas.rs:833-887 | The unwind follows its plan: pointers, write path and guards, policy, allocation. It succeeds exactly when none of its own commands faults and guards, write path and security slot are owned; then all four regions hold their contents from before installation; no other cell ever changed |
| Transaction.VerifyResident | src/freemkv/renesas.rs:1021-1053 | Succeeds exactly when no read faults and policy, guards, both pointers, write path and payload are all ours |
| Transaction.VerifyState | src/freemkv/renesas.rs:823-832 | Succeeds exactly when no read faults and loaded, checked, result read 0, 1, 0 |
| Transaction.SetChecked | src/freemkv/mod.rs:133-177 | Exactly one SET is sent. It succeeds exactly on a GOOD reply of 64 bytes, all zero; it is NotApplicable exactly when the drive refuses it on a live bus; all else is Transport; the hook cells survive it |
| Transaction.Activate | src/freemkv/mod.rs:336-360 | Region, Unrestricted and Encryption SETs in that order, cut short only by a failure; succeeds exactly when the first two were each confirmed by 64 zero bytes or refused on a live bus and the last was confirmed; errors are Transport or VidUnavailable only |
| Transaction.Backend.Install | src/freemkv/renesas.rs:163-176 | Touched exactly when the hook was prepared, no check faulted and the RAM of that moment was owned; succeeds exactly when, from there, no command faults; untouched means nothing but reads; an existing runtime is never written; the error is Transport once touched, on a resident runtime or on a dead bus, else NotApplicable |
| Transaction.Backend.Verify | src/freemkv/renesas.rs:194-198 | Succeeds exactly when activation state and residence both verify without a fault |
| Transaction.Backend.Finish | src/freemkv/renesas.rs:199-213 | An untouched backend does nothing; a touched one succeeds exactly after a successful run whose residence checks meet no fault and hold, and then changes nothing; else it fails as Transport, and a fresh runtime is unwound from there on, detached first, completely whenever no command of the unwind faults and its guards are owned |
| Transaction.ActivateBackend | src/freemkv/mod.rs:325-334 | Follows its plan: three SETs, state and residence checks, Volume ID read; succeeds exactly when the SETs were accepted, no check faulted, state and residence held in the RAM the SETs left, and the drive answered the Volume ID read, whose answer is the result |
| Transaction.InstallAndActivate | src/freemkv/mod.rs:264-280 | The closure in the critical span follows install, probe (fresh runtimes only), activation; succeeds exactly when the whole plan does, each part judged in the RAM its predecessors left; untouched means only reads and unchanged RAM; the Volume ID is the drive's answer to the last command |
| Transaction.UnlockBackend | src/freemkv/mod.rs:264-295 | A whole run, as an if and only if: success exactly when the host was not stopped, every step of the span succeeded on the RAM the commands before it left, and the tuning was accepted; then the history is the plan of the span and the tuning. Every RAM state since the first write is recoverable; a resident runtime is never written; an untouched run leaves only reads and unchanged RAM; which error is reported is fixed; a fresh touched run that fails inside the span ends in an unwind that starts where the span broke off, and if that completes, the four regions hold what they held before the run |
| H8s.SeenElsewhere | src/freemkv/renesas/operations_tests.rs:8-39 | A store into one area of memory is seen only there, and never moves the saved stack |
| H8s.PushSeen | src/freemkv/renesas.rs:1208-1224 | A push adds one word to the stack and changes nothing else that is seen |
| Wrapper.Labels | src/freemkv/renesas.rs:2782-2982 | Every branch target of the emitted program resolves to the block emitted under that label |
| Wrapper.GoOne | src/freemkv/renesas/operations_tests.rs:174-300 | Running one block: fall through, branch to a label, tail call or return |
| Wrapper.InvalidExec | src/freemkv/renesas.rs:2982-2993 | The rejection returns with ER2-ER6 and SP as on entry and R0L = 1 |
| Wrapper.RefusedRun | src/freemkv/renesas.rs:2965-2967 | A refused transition restores all seven saved registers before rejecting |
| Wrapper.TransferRun | src/freemkv/renesas.rs:2943-2957 | The transfer helper is handed exactly the ER3 bytes at the ER2 offset with R1L clear, its verdict stays in R0, and the stack is level afterwards |
| Wrapper.ReplyRun | src/freemkv/renesas.rs:2943-2964 | The reply sends 64 payload bytes and returns the helper's R0, with ER2-ER6 and SP as on entry |
| Wrapper.CopyBufferRun | src/freemkv/renesas.rs:2871-2881 | A buffer reset leaves the sixteen vector bytes in that buffer and nothing else changed |
| Wrapper.DispatchCall | src/freemkv/renesas.rs:2882-2927 | The dispatcher is called with zero in ER0 and ER2 and the 00CF0000 descriptor in ER1, and the stack is level afterwards |
| Wrapper.DispatchRun | src/freemkv/renesas.rs:2882-2939 | After the dispatcher the acquisition slot holds the OEM table, on success and refusal alike; then the low byte of R0 the dispatcher returned decides between refusal and acknowledgement |
| Wrapper.ReinitializeRun | src/freemkv/renesas.rs:2871-2940 | The OEM initialisation runs once with both buffers reset; the command is acknowledged exactly when it answers zero and rejected exactly when it does not, with the slots as stated |
| Wrapper.OwnedPolicyRun | src/freemkv/renesas.rs:2859-2871 | The security slot holds the table the state byte asks for before the initialisation, the acquisition slot the temporary table exactly for OFF |
| Wrapper.ReadIdleRun | src/freemkv/renesas.rs:2833-2859 | The transition goes ahead exactly when acquisition, reset and security slots are all owned |
| Wrapper.DelayRun | src/freemkv/renesas.rs:2813-2832 | One delay of ten ticks: back to the loop with one fewer left, or refused by patience or by the scheduler |
| Wrapper.WaitRun | src/freemkv/renesas.rs:2792-2832 | The wait loop ends for every scheduler, after at most 500 delays, each taken while the read engine was busy |
| Wrapper.TransitionRun | src/freemkv/renesas.rs:2782-2797 | A transition saves every register it may need and ends as the wait loop decides |
| Wrapper.IdentityRun | src/freemkv/renesas.rs:2969-2980 | The identity request answers with the payload's 64 identity bytes exactly for a well-framed CDB |
| Wrapper.EntryRun | src/freemkv/renesas.rs:2747-2781 | The gate decides on the CDB alone, with ER2 saved and nothing else touched |
| Wrapper.Requests | src/freemkv/renesas.rs:3176-3185 | The gate's byte tests are the namespace, the identity frame and the SET frame |
| Wrapper.WrapperRun | src/freemkv/renesas.rs:2737-2993 | For every CDB, memory and OEM routine that keeps the convention the wrapper ends: outside the 3C 0E C0 DE namespace in the OEM routine with ER0-ER7 as they came, otherwise at its caller with ER2-ER6 and SP restored, having done what the request asks; a policy switch that got through to the OEM initialisation is acknowledged exactly when that succeeded |
| Wrapper.SlotsSafe | src/freemkv/renesas.rs:2754-2938 | Acquisition slot, reset slot, payload, pointer slots and write path end as they were; the security slot changes only for a well-formed Encryption SET that owned all slots and found the engine idle within 500 delays, and then holds the requested table; buffers change only when the OEM initialisation ran |
| Wrapper.CallbackRun | src/freemkv/renesas.rs:2999-3045 | The borrowed callback returns zero with the cache checked and its result clear, and writes nothing else |
| VidWrapper.Labels | src/freemkv/renesas.rs:2585-2710 | Every branch target of the VID wrapper resolves to the block emitted under that label |
| VidWrapper.MaskLow | src/freemkv/renesas.rs:2541-2552 | The AGID byte's mask is its value modulo 64 |
| VidWrapper.StoreSeen | src/freemkv/renesas.rs:2619-2633 | A byte stored into the payload changes that byte alone |
| VidWrapper.CopyVidRun | src/freemkv/renesas.rs:2608-2634 | The sixteen copies put the hardware Volume ID at offset 4 of the reply area |
| VidWrapper.ClearVidRun | src/freemkv/renesas.rs:2669-2681 | The sixteen clears put zeros back there |
| VidWrapper.StagedReply | src/freemkv/renesas.rs:2608-2681 | Staged, the reply area is 00 22 00 00, the Volume ID and zeros; cleared, the payload is bit for bit what it was |
| VidWrapper.SendRun | src/freemkv/renesas.rs:2635-2682 | The first ER3 bytes of the reply are sent and the payload is back before control returns |
| VidWrapper.StatusRun | src/freemkv/renesas.rs:2585-2607 | An answer is sent exactly when the hardware ready bit is set |
| VidWrapper.LengthRun | src/freemkv/renesas.rs:2560-2584 | The allocation length is clamped to 36; zero goes straight to the empty reply |
| VidWrapper.EntryRun | src/freemkv/renesas.rs:2528-2559 | The gate's decision on opcode, format, policy, AGID and reserved fields |
| VidWrapper.VidRun | src/freemkv/renesas.rs:2528-2714 | For every CDB, memory and OEM routine the wrapper ends; an answered request got the first min(length, 36) bytes of the reply; payload, slots, pointers and buffers are as before; a foreign CDB reaches the OEM routine with all registers as they came |
| VidWrapper.PayloadImmutable | src/freemkv/renesas.rs:1043-1051 | From a payload as built on, every run of the wrapper in a session of any length is served, and the payload before and after each is the one before the first, so the residence comparison stays true |
| Service.WrapperKeepsHook | src/freemkv/renesas.rs:2737-2993 | For every CDB and every RAM the READ BUFFER wrapper, the OEM routine behind it included, ends with pointer slots, write path and payload as they were |
| Service.VidKeepsHook | src/freemkv/renesas.rs:2528-2714 | So does the READ DISC STRUCTURE wrapper from any RAM whose payload is as built |
| Service.ServesHook | src/freemkv/renesas.rs:1021-1053 | A drive whose commands are served by the wrappers or by OEM routines keeps what the transaction assumes of served commands |
| Modular.EuclidRun | src/aacs/handshake.rs:197-216 | Through the whole run of extended Euclid the cofactors stay bounded with alternating signs, old_r |s| + r |old_s| = m |
| Modular.ModInvCorrect | src/aacs/handshake.rs:196-225 | An inverse exists exactly when a and m are coprime, lies in [0, m) and is the only one there |
| Modular.ModInvLoop | src/aacs/handshake.rs:197-225 | The loop terminates for every m >= 1 and computes that inverse, one addition fixing the sign |
| Modular.PrimeInverse | src/aacs/handshake.rs:197-225 | Below a prime every nonzero argument has an inverse |
| Curve.PointOnCurveMeaning | src/aacs/handshake.rs:361-369 | The check passes exactly for reduced coordinates that satisfy the curve equation |
| Curve.ChordAdd | src/aacs/handshake.rs:258-287 | For distinct x the no-inverse exit is never taken and the slope is the chord's |
| Curve.TangentDouble | src/aacs/handshake.rs:290-335 | For nonzero y the no-inverse exit is never taken and the slope is the tangent's |
| Curve.DoubleOnCurve | src/aacs/handshake.rs:290-335 | Doubling stays on the curve, reduced |
| Curve.AddOnCurve | src/aacs/handshake.rs:227-288 | Addition stays on the curve, reduced |
| Curve.AddCommutes | src/aacs/handshake.rs:227-288 | Addition commutes |
| Curve.AddInverse | src/aacs/handshake.rs:236-256 | A point and its reflection add to infinity, and only they do |
| Curve.EcMulLoop | src/aacs/handshake.rs:338-359 | The double-and-add loop computes the scalar multiple |
| Curve.TimesPlus | src/aacs/handshake.rs:338-359 | k-fold addition is additive in k, given associativity |
| Curve.EcMulMeaning | src/aacs/handshake.rs:338-359 | Double-and-add equals k-fold addition for every k, and stays on the curve |
| Bytes.ToBytesValue | src/aacs/handshake.rs:371-384 | Padding and truncating to len bytes keeps the number modulo 256^len |
| Ecdsa.TimesMod | src/aacs/handshake.rs:338-359 | Scalars act on the generator modulo its order |
| Ecdsa.TimesNonzero | src/aacs/handshake.rs:338-359 | No scalar outside the multiples of n sends the generator to infinity |
| Ecdsa.Sign | src/aacs/handshake.rs:387-437 | The signing loop signs with the first usable draw |
| Ecdsa.SigningPossible | src/aacs/handshake.rs:396-435 | When the loop can end: some nonce is usable exactly when private key and hash are not both multiples of n, given two nonces whose points differ in x |
| Ecdsa.NeverSigns | src/aacs/handshake.rs:396-435 | If both are multiples of n no nonce is usable: the loop never ends |
| Ecdsa.SignVerify | src/aacs/handshake.rs:439-487 | Round trip of sections 4.1.3 and 4.1.4 of SEC 1: what signing returns verifies under the matching public key, for every message, nonce and key |
| Ecdsa.VerifyMeaning | src/aacs/handshake.rs:439-487 | Verification accepts exactly what section 4.1.4 of SEC 1 asks for, stated without inversion: a public key on the curve, r and s in range, and scalars u = z/s and v = r/s modulo n whose combination has x-coordinate r |
| Ecdsa.VerifyNonce | src/aacs/handshake.rs:439-487 | Under the public key of d it accepts exactly the pairs that have a nonce: some k with s k = z + r d modulo n and k G of x-coordinate r |
| Ecdsa.KeyPairMatchesMeaning | src/aacs/handshake.rs:701-719 | The stored-pair check passes exactly for the public key of the private key |
| Ecdsa.BusKeyMeaning | src/aacs/handshake.rs:723-757 | For every received point: a bus key exists exactly when it lies on the curve and the scalar does not send it to infinity, and is the x-coordinate of the product modulo 2^128 |
| Ecdsa.BusKeyValue | src/aacs/handshake.rs:723-757 | The bus key is the shared x-coordinate modulo 2^128 |
| Ecdsa.BusKeyAgreement | src/aacs/handshake.rs:723-757 | For all scalars in [1, n) both sides derive the same bus key |
| Cmac.SubkeyLoop | src/aacs/handshake.rs:845-860 | The in-place shift loop computes the subkey |
| Cmac.SubkeyDoubles | src/aacs/handshake.rs:845-860 | The byte-wise subkey is doubling in GF(2^128) with the 0x87 reduction |
| Cmac.Cmac16Loop | src/aacs/handshake.rs:838-870 | The in-place loops compute the one-block CMAC |
| Cmac.CmacMeaning | src/aacs/handshake.rs:838-870 | It is the one-complete-block case of section 6.1 of NIST SP 800-38B, AES uninterpreted |
| HandshakeRun.RunAuthenticate | src/aacs/handshake.rs:1052-1189 | The imperative authentication is the functional one, commands and result alike |
| HandshakeRun.RunAke | src/aacs/handshake.rs:1020-1048 | Success hands over an armed guard for the AGID; failure has released it |
| HandshakeRun.RunFinishAuth | src/aacs/handshake.rs:1492-1585 | The imperative finish is the functional one, commands and result alike, and every exit releases the AGID |
| HandshakeRun.RunAttempt | src/aacs/handshake.rs:1604-1675 | One certificate's attempt, with its fallback to the P-256 pair |
| HandshakeRun.RunCertHandshake | src/aacs/handshake.rs:1682-1805 | The certificate loop with its counters, its attempt's precondition met at every call |
| Ledger.AuthenticateKept | src/aacs/handshake.rs:1052-1189 | The authentication sends no allocation or release and respects a dead bus |
| Ledger.AkeKept | src/aacs/handshake.rs:1020-1048 | One authentication allocates at most one AGID and holds it exactly on success |
| Ledger.FinishAuthKept | src/aacs/handshake.rs:1492-1585 | Finishing releases the held AGID, once |
| Ledger.AttemptKept | src/aacs/handshake.rs:1604-1675 | An attempt starts and ends with no AGID held |
| Ledger.HandshakeRules | src/aacs/handshake.rs:1682-1805 | For every drive, list and cancellation the ledger accepts the whole run, ends holding nothing, and NoUsableHostCert is reported exactly when nothing was sent |
| Ledger.SilentAfterDeath | src/scsi_mock_tests.rs:248-339 | After the bus dies outside the invalidate sweep only the release is sent |
| Ledger.NoV1AfterBadCert | src/aacs/handshake.rs:1699-1805 | No 1.0 certificate is sent after the drive's own 1.0 certificate failed |
| Ledger.GrantsReleased | src/scsi.rs:119-195 | Conservation: grants and releases balance, up to an AGID still held |
| Pacing.AkeSends | src/aacs/handshake.rs:1020-1189 | One authentication sends its own certificate at most once and no other |
| Pacing.AttemptSends | src/aacs/handshake.rs:1604-1675 | One entry's attempt sends no certificate but that entry's 1.0 and P-256 ones, each at most once |
| Pacing.CertLoopPaced | src/aacs/handshake.rs:1699-1805 | The history of the loop is at most three attempts over successive usable entries of the list, each sending its own entry's certificates only, with exactly one backoff pause between two; a refused pause ends it |
| Pacing.PacedCap | src/aacs/handshake.rs:1699-1712 | Such a history, counted: at most three certificates of either scheme reach the drive, with fewer pauses than attempts |
| Ledger.UnusableCertsIgnored | src/aacs/handshake.rs:1587-1598 | Dropping certificates unusable on the host side changes neither commands nor result |
| Authentic.WireLayout | src/aacs/handshake.rs:640-700 | Certificates and key messages of both generations taken apart give back what they were put together from |
| Authentic.CheckMeaning | src/aacs/handshake.rs:1088-1110 | A drive certificate passes exactly if it has the scheme's type and the authority's signature; it is the drive's fault exactly if the 1.0 exchange shows the other type or an unsigned one |
| Authentic.AuthenticateMeaning | src/aacs/handshake.rs:1052-1189 | For every drive: authentication succeeds exactly when the history is the four commands in order, each answered GOOD and in full, with a certified drive certificate, a drive signature over the host's nonce and the drive's point, a host signature that verifies, and the shared key of both points |
| Authentic.AkeMeaning | src/aacs/handshake.rs:1020-1048 | The same for the exchange around it, sweep and allocation included; a failed one gave its AGID back, and whether the drive's certificate, a dead bus or something else ended it is read off the history |
| Authentic.FinishMeaning | src/aacs/handshake.rs:1367-1388 | For every drive: a Volume ID is returned exactly when the full GOOD answer to its read carries the one-block CMAC of it under the bus key; FinishVidMac exactly when the answer is full and GOOD and the MAC is not that; a dead bus is told apart; the data-key read under bus encryption decides the rest |
| Sessions.AttemptMeaning | src/aacs/handshake.rs:1604-1675 | One entry, read off the history: the P-256 certificate is tried exactly when there is one and the 1.0 one was not tried, was rejected on a live bus or ended in a wrong MAC; and what the outcomes of both mean together |
| Sessions.LoopMeaning | src/aacs/handshake.rs:1682-1805 | The certificate loop, read off the history: usable entries in order, at most three, a backoff between two, a rejection goes on to the next and every other outcome is the result |
| Sessions.LoopServed | src/aacs/handshake.rs:1682-1805 | A Volume ID the loop returns is never taken on trust: the history ends in a mutual authentication with an entry of the list and a read whose MAC is valid under the key agreed there |
| Honest.AuthenticateHonest | src/aacs/handshake.rs:1052-1189 | Against a drive that follows the protocol, and a signer that can sign under keys that are no multiples of n, authentication succeeds with the drive's own bus key |
| Honest.AkeHonest | src/aacs/handshake.rs:1020-1048 | So does the exchange around it, sweep and allocation included |
| Honest.FinishHonest | src/aacs/handshake.rs:1367-1388 | Against such a drive the finish succeeds and returns its own Volume ID; that a wrong MAC is refused is Authentic.FinishMeaning |
| Honest.HonestRun | src/aacs/handshake.rs:1682-1805 | A list whose first usable certificate the drive's authority signed runs to Ok with the drive's own Volume ID |
| Honest.SelfVerifyNeverTrips | src/aacs/handshake.rs:1146-1160 | A pair that passes the stored-pair check never trips the self-verify guard, whatever the drive sends |
| SmallSession.SessionMet | src/aacs/handshake.rs:1052-1189 | The assumptions of the honest run can be met, for every hash and every Volume ID |
| SmallSession.SessionRuns | src/aacs/handshake.rs:1682-1805 | On that drive the certificate loop comes back with the drive's own Volume ID |
| Scsi.Transport.Execute | src/scsi.rs:32-60 | A command reaches the drive unless the host was stopped outside a critical span |
| Scsi.ExecutedMeaning | src/scsi.rs:32-60 | A stop is final: outside a critical span nothing more reaches the drive and the caller sees a dead bus; inside one, and before the stop, every command does |
| Scsi.AgidGuard.Drop | src/scsi.rs:172-195 | An armed guard releases its AGID even after a stop; a defused one sends nothing |
| Ld.JudgedMeaning | src/ld/platform/mt1959/mod.rs:175-239 | An unlock answer is accepted exactly if it is GOOD, long enough and carries signature and primary marker; another drive's signature and a dead bus are told apart |
| Ld.RestartMeaning | src/ld/platform/mt1959/mod.rs:629-637 | Which senses tell of a restart: UNIT ATTENTION, and 02/04 with any qualifier but 02 and 03 |
| Ld.Mt1959.DoUnlock | src/ld/platform/mt1959/mod.rs:175-239 | The flags are set only by a GOOD, long enough answer with signature and primary marker, and unlocked says whether the secondary one was there; any other answer leaves them |
| Ld.Mt1959.UnlockRead | src/ld/platform/mt1959/mod.rs:415-443 | The re-confirm read repeats once a second while the drive says it restarts, and gives that answer back only after a minute; the result is the verdict on the last read; nothing else is sent |
| Ld.Mt1959.LoadFirmware | src/ld/platform/mt1959/variant_a.rs:16-102 | The history of one load: refused before or at the begin of the critical span, or a span that runs whole, from its begin over upload and commit commands in order to its end, every command reaching the drive and only the last one failing, then the unlock reads if none failed; the result is what the deciding answer is judged to be; at most one upload |
| Ld.Mt1959.ReadAfterUpload | src/ld/platform/mt1959/variant_b.rs:136-152 | Variant A reads once and B up to six times, each read but the last a retryable rejection; the result is the verdict on the deciding read, one confirming read follows a success, and nothing is uploaded |
| Ld.Mt1959.Reload | src/ld/platform/mt1959/mod.rs:358-401 | An upload that went through, confirmed or answered with a restart sense, is followed by the settle with no command in between; every upload of the stretch lies in the loads recorded |
| Ld.Mt1959.RunInit | src/ld/platform/mt1959/mod.rs:297-413 | The whole initialisation as a grammar of its history: rounds of one unlock read and, if it was rejected on a live bus by this drive, one load; the read after a settle repeats while the drive restarts; an accepted read ends it, after a settle with the readiness poll; and the result is fixed by the round it ends in. At most three loads, every upload in one of them, each that went through settled and read again |
| Ld.AwaitMediaReady | src/ld/platform/mt1959/mod.rs:699-806 | Terminates for every stream of answers if waits advance the clock, and is the run of an automaton over polls, START STOP UNIT and pauses that fixes the result: the unit is started once, on 02/04/02. Stalled only when 60 s of the clock have passed since an event of the run after which every answer had been heard before it, START STOP UNIT included; NoMedium only after ten consecutive 02/3A with no 02/04/01, Err only for a senseless fault |
| Ld.PollMeaning | src/ld/platform/mt1959/mod.rs:699-806 | What every reachable state of the poll's automaton satisfies: answers heard, progress made, the unit started at most once, and what each end means |
| Ld.EmptyRunMeaning | src/ld/platform/mt1959/mod.rs:727-741 | The counter of empty answers counts answers at the end of the history |
| Ld.Shrinks | src/ld/platform/mt1959/mod.rs:785-790 | A new answer leaves strictly fewer unheard ones: the outer component of the termination measure |
| Ld.Mt1959.RunProbe | src/ld/platform/mt1959/mod.rs:453-583 | Before an unlock was accepted the first command is the unlock read, and its rejection the result; from there it is a calibration and nothing else; success leaves the drive probed and initialised |
| Ld.Mt1959.Calibrate | src/ld/platform/mt1959/mod.rs:453-583 | The calibration is the run of an automaton: capacity, start address by disc size, up to five checks, coarse and fine pass, speed; only a dead bus, a failed check or a rejected coarse read ends it early |
| Ld.CalibrationSweeps | src/ld/platform/mt1959/mod.rs:519-583 | A calibration that succeeds has read every coarse address in order, each with a GOOD answer of four bytes, and set the speed last |
| Ld.CalibrationDies | src/ld/platform/mt1959/mod.rs:453-583 | It ends in a transport failure exactly when the bus died on its last command, the speed setting apart |
| Ld.Mt1959.ProbeDisc | src/ld/platform/mt1959/mod.rs:821-831 | A no-op before init or once probed; otherwise a calibration, with the unlock flags as they were |
| Ld.Mt1959.Init | src/ld/platform/mt1959/mod.rs:812-817 | A no-op once complete, else as run_init |
| Ld.Mt1959.ReconfirmUnlock | src/ld/platform/mt1959/mod.rs:841-848 | The result is the verdict on the last read just made: true exactly if it was accepted and shows the extended-access state |
| Ld.Mt1959.ReconfirmAfterFault | src/ld/mod.rs:187-228 | Nothing is sent for the settle, the next command is the unlock read, nothing is uploaded, and the result is fixed by the last answer: Ok exactly if it was accepted and shows the extended-access state |
| Ld.ReadOemVid | src/ld/mod.rs:74-123 | Sends the profile's own command if it has one; the Volume ID is returned exactly when the answer is GOOD, full and carries the header, and only a failed command is an error; unlock answer and upload count stand |
| Ld.FirmwareUnlock | src/ld/mod.rs:128-175 | The whole run as a grammar of its history, with the result fixed at every point: initialisation, extended-access state, calibration, after a dead bus the silence and the re-confirmation, Volume ID. At most three loads hold every upload, each that went through is settled |
| Ld.UnlockStands | src/ld/mod.rs:128-228 | If an unlock is reported, then since the drive was last seen in the extended-access state, by the initialisation or, after a calibration fault, by the re-confirmation, no command met a dead bus, the speed setting apart |
| Css.Next0Live | src/css/mod.rs:511-512 | The first register stays within 25 bits and is never zero |
| Css.Next1Live | src/css/mod.rs:514-515 | The second stays within 17 bits and is never zero |
| Css.SeedsLive | src/css/mod.rs:498-504 | Both seeds are live, whatever the key bytes |
| Css.SeedFields | src/css/mod.rs:498-504 | Where each key byte and each spliced bit sits in its register |
| Css.SeedsInjective | src/css/mod.rs:498-502 | Different key bytes seed different registers |
| Css.Recurrences | src/css/mod.rs:508-516 | The outputs obey the linear recurrences of x^25 + x^12 + x^4 + x^3 + 1 and x^17 + x^14 + 1 |
| Css.StreamBits | src/css/mod.rs:508-520 | Bit k of a stream is the complement of the k-th output of its register |
| Css.AddsStep | src/css/mod.rs:508-520 | One bit of the loop keeps bytes, bits and carry equal to the sum of the two complemented streams |
| Css.KeyStream | src/css/mod.rs:498-522 | The thirty bytes, index 29 least significant, are the sum of the two complemented streams modulo 2^240 |
| Css.StepMeaning | src/css/mod.rs:18-47 | A step succeeds exactly on a GOOD answer that is long enough, and only a dead bus is reported as one |
| Css.Authenticate | src/css/mod.rs:364-431 | The exchange as a grammar of its history: which commands go out with which data, where it stops and with which error; the key sent answers the drive's challenge under the first variant that explains the drive's own key, and a key no variant explains ends it |
| Css.EstablishSession | src/css/mod.rs:314-341 | The session as a grammar of its history: the sweep, the allocation, the exchange; a granted AGID is released on every failure, once and last, even after a stop; on success it stays held; one never granted is never released |
| Catalog.NextFilter | src/ld/profile.rs:340-360 | The iterator's find and next walk the filtered catalog |
| Catalog.FindCandidate | src/ld/profile.rs:317-363 | The profile of the answer is the first candidate: exact matches if a product is named and there are any, else the unique four-field match, else, without a product, any four-field match |
| Catalog.AnswerFields | src/ld/profile.rs:317-363 | An answer has the drive's vendor, revision, specific and date, surrounding white space apart, and its product too whenever some entry has all five |
| Catalog.TrimMeaning | src/ld/profile.rs:317-339 | Trimming takes white space off both ends, as much as there is, and nothing else |
| Catalog.NonExactUnique | src/ld/profile.rs:350-358 | With a product named, an answer that is not exact is the only entry of the whole catalog with its four fields |
| Catalog.StableWhenNamed | src/ld/profile.rs:317-363 | With a product named and at most one exact match the profile is the same under any permutation within or across sections, and the whole answer, platform included, under any permutation within sections |
| Catalog.FindContender | src/ld/profile.rs:317-363 | The same as FindCandidate for the whole answer, platform included |
| Catalog.OrderWithin | src/ld/profile.rs:317-363 | The answer, platform included, ignores the order within the sections exactly when no two different entries compete in the first section that has a candidate |
| Catalog.OrderIrrelevant | src/ld/profile.rs:317-363 | The answer ignores the order of the catalog exactly when no two different entries compete |
| Catalog.NamelessOrder | src/ld/profile.rs:350-358 | Without a product two entries with the same fields and different contents answer by order: the property does not extend to that case |

## Left out

- Transaction.UnlockBackend: takes the prepared hook as given. `prepare`, the firmware signature discovery behind it and the selection between unlockers in `full_unlock_with_drive` are not modelled; `Layout` states what preparation leaves behind.
- Renesas.Drive.Write: a diagnostic transfer is one step of which any prefix may land; its split into SCSI commands belongs to a library that is not part of this model. Reads are taken not to change RAM.
- Transaction.ActivateBackend: the Volume ID read and the speed tuning after it are single served commands with an arbitrary outcome.
- Wrapper.WrapperRun: the program is built as a value, block by block in the order of emission, not appended to a byte vector; instruction encoding, relocation of the five markers and the image hash are not modelled, and addresses inside the payload are parameters. Return addresses are not pushed by a call, as in the interpreter of the operations tests.
- VidWrapper.VidRun: assumes the reply area of the payload as built; the OEM table copies inside the payload are opaque bytes.
- Ecdsa.Sign: assumes that a usable nonce is drawn after finitely many draws. `Ecdsa.SigningPossible` says when there can be one. SHA-1, SHA-256 and AES are arbitrary functions, random numbers arbitrary inputs.
- Honest.HonestRun: for the 1.0 scheme, with a signer that answers under every key that is no multiple of n. The P-256 scheme shares every function but has no honest drive of its own.
- Service.ServesHook: takes each served command to be one run of a handler with its CDB in ER1 and an empty frame; how the firmware dispatches commands is not modelled.
- Ledger.GrantsReleased: an AGID counts as granted when the host sees it, in a GOOD allocation answer of full length; one granted in a short answer is lost to the host, as in the code.
- Css.EstablishSession: the six table rounds of `crypt_key` are an arbitrary function here; only its key stream is modelled.
- Ld.Mt1959.LoadFirmware: captured vendor commands are assumed to differ from the unlock read and from the upload.
- Catalog.FindByDriveId: trims ASCII white space only.
- The MediaTek live loader, the preinstalled backend, the disc-key read after a CSS session and the DVD profile probe: they would add straight-line members only.
- Authentic.AkeMeaning: tells success, the drive's own certificate, a dead bus and other failures apart, as the loop does; which other error was logged is not stated.
- CDB builders beyond those used, error codes, tracing, zeroizing, debug output, JSON, hex and base64 parsing, INQUIRY plumbing.
- `FirmwareControl`, recipes, capability descriptors and identity parsing.
