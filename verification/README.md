# A verified model of the LastPass SSH agent

The agent serves SSH keys kept in a LastPass vault. It holds no private key: every signature fetches one through
`lpass`, and on the way may ask the user to approve the request, to type the vault's master password, or to type
a key's passphrase. This project models the parts of it where a mistake would matter most and proves what they
promise, for all inputs, all runs and all interleavings.

Check it with `dafny verify dfyconfig.toml` (Dafny 4.11).

## How it is laid out

**The signing protocol.** `Approvals`, `Unlock`, `Interaction`, `Master` and `LpassCli` model the shared state
and the calls on it, as classes whose methods are proved against functions on values. `Protocol` puts them
together: `sign` as a step system in which any number of connections, the screen watcher, the idle sweep and the
refresher's vault calls interleave at every await. The runtime has one thread, so a request moves from one await
to the next in a single step. A few boundaries the code does not have are added (before a finished vault call is
looked at, before a request settles); that only adds interleavings, so what holds here holds there. Steps carry
whatever the world answered. A run begins with any vault and any clock, because a start with nothing remembered
scans the vault first and may have asked, kept or dropped a password by the time the agent listens.
`ProtocolInvariant` proves the inductive invariant, over the state and over the log of everything that happened;
`ProtocolTheorems` draws the results from it; `ProtocolCalls` shows that the vault calls of the step system are
the sequential ones taken apart.

**Session bindings.** `Signing` has the wire readers (strings of section 5 of RFC 4251, requests of section 7 of
RFC 4252 and OpenSSH's host-bound form) and proves each reads exactly the messages it is for. `Binding` has the
per-connection chain and the guard a signature passes on a bound connection.

**Encodings.** `Text`, `Requester`, `Confirm` and `Prompt` carry untrusted names into the prompt and into the
question an approval is remembered under, and `Words` says what the one tells of the other. `Enclave` has the
padded block and the stored file, `Terminal` the two readers of the controlling terminal, `VaultLock` the screen
watcher.

**Sets that have to agree.** `KnownHosts` names hosts, `KeyStore` builds the served set from the vault or from
the remembered file, `Refresh` replaces it while the agent runs, `Discovery` finds SSH keys with a bounded
window of concurrent probes, and `Passphrase` decides where a passphrase comes from and when one is kept.

`Basics`, `Strings` and `Buffers` are shared vocabulary; `Buffers` counts reallocations, because a buffer that
holds a secret must never move.

## What is taken as given

Cryptography and the parsing and printing of keys are function-valued parameters (`Signing.Crypto`,
`KeyStore.Codec`, `Passphrase.Ciphers`). One axiom about them is needed, `KeyStore.PrintsFaithfully`: a key read
from trimmed text prints as trimmed text that reads back as that key. The process table, the parsed keys of
`known_hosts` and each answer of `lpass`, the passphrase store, the user and the clock are parameters, so every
statement holds whatever they say. Questions are compared for contexts as the code builds them
(`Confirm.WellBuilt`): requester text escaped, executable paths non-empty, and recorded host names non-empty,
which `KnownHosts.NamesAreNotEmpty` proves. Fingerprints of host keys are taken to be non-empty where that is
needed. The clock is an integer that does not run backwards. The epoch counters are unbounded, and lengths on
the wire are 32-bit as the format says.

## Where the code and its comments differ

`src/confirm/mod.rs:202` says the same words on screen are the same question. Three things make that false. The
question goes by paths where the prompt shows ancestors by name; it goes by both key and name of a host where
the prompt shows one of them; and it holds the whole of a key's name where the prompt cuts a long one. Besides,
a requester called "unknown process" reads like one that could not be identified, which has no question.
`Words.SameWordsAreOneQuestionExactly` says, for all pairs of requests that read the same, when they are one
question; `Words.WordsSettleTheQuestionExactly` says for which requests the words settle it against every other;
and `Confirm.SameWordsMayBeTwoQuestions` has a pair for every context. The direction that matters for safety
does hold throughout (`Confirm.SameQuestionSameWords`).

## Model

| member | source | states |
|---|---|---|
| `ProtocolTheorems.RememberedSignatureIsCovered` | src/agent.rs:389-449 | Over every run, from whatever vault the start left, of any number of requests, screen locks, idle sweeps, refused passwords and refresher probes: a signature released on a remembered answer was preceded by the user's yes to the same question, from a request that itself signed, with no lock between that yes and this settlement except the one the approving request's own ask stood for |
| `ProtocolTheorems.EverySignatureIsApproved` | src/agent.rs:522-603 | Every signature released for a key that needs confirming was approved: by a yes to that very request's question, or by a remembered answer covered as above |
| `ProtocolTheorems.NoSecondPromptWithoutALock` | src/agent.rs:410-430 | The converse, with remembering on: once a yes has signed, the same identifiable question is put to the user for another request only after a lock that is not the approving request's own ask; a request queued at the gate therefore takes the answer given meanwhile |
| `ProtocolTheorems.InteractionsFormBlocks` | src/interaction.rs:1-48 | In every run, everything one request shows (confirmation, master password, passphrase store, passphrase prompt) is one block: another request shows something only after the first has ended |
| `ProtocolTheorems.AskedMeansAskedByItself` | src/agent.rs:300-322 | The ask counter read before and after the asking fetch differs exactly when this request itself asked for the master password, in every interleaving |
| `ProtocolTheorems.SomeoneCanAlwaysStep` | src/interaction.rs:37-48 | In every reachable state an unfinished request can step, or it waits for the one holder of the gate, who can: gate and held-password mutex are never waited for in a circle |
| `ProtocolTheorems.PromptsAreNeverContended` | src/confirm/tty.rs:36-50 | In every reachable state at most one request is at a prompt, so the prompts' own serialising mutexes are never waited for and cannot add a circle |
| `ProtocolTheorems.RequestsEnd` | src/agent.rs:522-603 | No request takes more than 33 steps of its own in any run, so requests neither stall nor loop |
| `ProtocolInvariant.RunsAreSound` | src/agent.rs:300-449 | The inductive invariant holds in every state reachable from any vault and clock the agent starts to listen with: gate and mutex have at most one holder who is where the code says, every logged event was justified by its past, and memory holds exactly the answers filed in the current epoch |
| `ProtocolInvariant.StepKeepsInv` | src/approvals.rs:111-163 | Every atomic segment of a request, the screen watcher, the idle sweep and the refresher keeps that invariant |
| `ProtocolInvariant.AskFits` | src/unlock.rs:114-143 | The one step that counts an ask is taken by the holder of the gate and puts the master-password prompt up |
| `ProtocolCalls.AnUndisturbedCallIsACall` | src/lpass/cli.rs:170-188 | Every run from the start of a vault call to its return in which nothing but that call and the clock moves ends as one call of `run` does, for some answers of an honest world within the time it took: same verdict, held password, locks and asks |
| `ProtocolCalls.EveryCallHasARun` | src/lpass/cli.rs:170-188 | The other half: for all answers of an honest world, however long they take, some undisturbed run of the step system ends as that call of `run` does |
| `Approvals.GivenAnswerStandsExactly` | src/approvals.rs:111-163 | After settling an answer its question stands exactly when remembering is on, the request signed and no lock but its own ask came in between, or it stood before and the request did not ask |
| `Approvals.SettlementKeepsWhatStands` | src/approvals.rs:111-163 | No settlement that did not ask takes away an answer that stands in the current epoch |
| `Approvals.Approvals.Settle` | src/approvals.rs:111-133 | The whole new state of the map and both counters, and whether the answer still covers the request |
| `Approvals.Approvals.RememberedIn` | src/approvals.rs:138-146 | An answer is honoured exactly when it was filed in the current epoch |
| `Approvals.Approvals.RememberIn` | src/approvals.rs:151-163 | Files only while remembering is on and the epoch is still current, and drops what earlier epochs left |
| `Approvals.LockEpoch.Bump` | src/approvals.rs:36-40 | Counts one lock and leaves the asks alone |
| `Approvals.LockEpoch.Unlocked` | src/approvals.rs:42-46 | Counts one ask and leaves the locks alone |
| `Unlock.LedgerBalances` | src/unlock.rs:114-204 | For every sequence of operations: locks counted are exactly the drops of a held password plus the forgets with nothing held, each ask is counted once, and passwords taken equal passwords dropped plus the one still held |
| `Unlock.OneAskPerHold` | src/unlock.rs:114-143 | Between two asks of which the first was answered there is a drop, so there is at most one prompt per hold |
| `Unlock.HeldUntilDropped` | src/unlock.rs:114-204 | Until a drop the same secret from the same source stays held, last used when last touched |
| `Unlock.IdleTimeRunsFromTheLastTouch` | src/unlock.rs:45-204 | A sweep drops a held password exactly when the configured idle time has passed since it was taken or last touched |
| `Unlock.RejectedStoreIsNeverReadAgain` | src/unlock.rs:159-176 | Once a password from the store was rejected, no later ask in any run reads the store, and what is taken comes from the prompt |
| `Unlock.Unlock.Password` | src/unlock.rs:114-143 | Serves what is held, asks only when allowed, counts the ask before asking, holds what was answered, and leaves the state alone otherwise |
| `Unlock.Unlock.TouchNow` | src/unlock.rs:151-157 | Restamps the held password and nothing else |
| `Unlock.Unlock.RejectHeld` | src/unlock.rs:159-176 | Drops whatever is held, as one lock, and bars the store if that was its source |
| `Unlock.Unlock.ForgetNow` | src/unlock.rs:178-184 | Drops what is held and counts a lock even with nothing held |
| `Unlock.Unlock.ExpireIfIdle` | src/unlock.rs:187-204 | Drops what is held exactly when an idle time is configured and has passed |
| `Interaction.InteractionGate.Enter` | src/interaction.rs:43-48 | One poll of the wait: granted when the mutex is free or already this request's, and otherwise nothing changes; the step system grants by the same rule |
| `Interaction.InteractionGate.Drop` | src/interaction.rs:31-48 | Only the end of the request that holds the mutex frees it, by the rule the step system uses |
| `Master.ResolutionsAreAnswers` | src/master.rs:146-188 | A failed or empty prompt is never an answer, a stored value over the cap is never used, and a barred store is never the source |
| `Master.OnlyWhatOpenedIsKept` | src/master.rs:66-92 | Over any run of attempts the stored password is the original or the last candidate that opened the vault and could be written |
| `LpassCli.RunLpass` | src/lpass/cli.rs:170-188 | The two-attempt protocol: what is fed, when it asks, when a refused password is dropped and when use renews the idle time |
| `LpassCli.OnlyALockedVaultIsAskedFor` | src/lpass/cli.rs:170-188 | A call asks exactly once, and exactly when it may ask, nothing is held and the first run found the vault locked; an asking call never reports a locked vault |
| `LpassCli.HeldOnlyIsQuiet` | src/lpass/cli.rs:26-85 | A call fed only what is held never asks, never renews the idle time, and at most drops a refused password |
| `LpassCli.RefusedPasswordIsDropped` | src/lpass/cli.rs:182-184 | A password `lpass` refused is not held after the call, and that is one lock |
| `LpassCli.ReadOutput` | src/lpass/cli.rs:345-363 | However a pipe's bytes are split into reads, the outcome is that of the whole: too large past the cap, an error if the pipe breaks, else the bytes; and a field-sized read never reallocates |
| `LpassCli.ParseInvertsListing` | src/lpass/cli.rs:376-387 | A line parses to an item exactly when it is that item's printed line, trailing blanks aside, whatever markers the name contains |
| `LpassCli.LastMarkerEndsTheName` | src/lpass/cli.rs:374-387 | The last marker in a printed line is the one before the id |
| `Signing.ReadStringIsExact` | src/signing.rs:169-189 | A string is read exactly when RFC 4251's encoding of it is there, so its value and remainder are unique |
| `Signing.Wire.TakeString` | src/signing.rs:178-189 | The cursor moves past what it returned, or stays put |
| `Signing.Wire.TakeByte` | src/signing.rs:172-177 | The cursor moves past one byte, or stays put at the end |
| `Signing.SessionIsExact` | src/signing.rs:60-81 | A session id is found exactly in data that is, whole, a public-key userauth request for this key (section 7 of RFC 4252), plain or host-bound to this host key; so no data is a request for two sessions |
| `Signing.UserauthSessionId` | src/signing.rs:60-81 | The cursor-stepping reader computes that |
| `Signing.BindIsExact` | src/signing.rs:113-134 | A binding is read from exactly the messages that carry it, with one flag byte and nothing after |
| `Signing.ParseSessionBind` | src/signing.rs:113-134 | The cursor-stepping reader computes that |
| `Binding.RunsAreWellBound` | src/agent.rs:160-262 | After every run of bind requests: at most 16 bindings of pairwise distinct sessions within both size caps, each proven by a request whose host signature verified, all but the last forwarding |
| `Binding.ChainOnlyGrows` | src/agent.rs:160-262 | The chain only grows by appending, and is frozen after the first hop that does not forward |
| `Binding.ReplaysChangeNothing` | src/agent.rs:160-262 | A binding that succeeded stays; sent again it changes nothing, and is refused only once the chain is closed |
| `Binding.SuccessIsExact` | src/agent.rs:160-262 | Binding succeeds exactly for an acceptable message on an open chain that is a replay, or a new session with room |
| `Binding.OneDestinationPerRequest` | src/agent.rs:530-562 | Data that two bound connections may both have signed means both are bound to the same session |
| `Binding.SignaturesAreForTheBoundSession` | src/agent.rs:522-562 | Over every run of one connection's bind and sign requests: a signature on a bound connection is over a userauth request by that key for the session bound last at that moment, whose host proved itself in an earlier bind request |
| `Binding.ADestinationIsFinal` | src/agent.rs:160-262 | Once a signature was made at a hop that does not forward, every later signature of the connection is for that same session |
| `Binding.Connection.HandleExtension` | src/agent.rs:160-262 | The whole new chain and the answer, for the query, for binding, and for any other extension |
| `Binding.Connection.NamedBindings` | src/agent.rs:265-283 | Each binding with the name looked up for it, in order, as far as the lookup reached |
| `Binding.Connection.Admits` | src/agent.rs:530-562 | A bound connection has data signed exactly if it is a userauth request for the last binding's session; an unbound one always |
| `Binding.Connection.Sign` | src/agent.rs:530-562 | A signing request leaves the chain alone and goes through exactly if it may be signed there |
| `Text.EscapeForDisplay` | src/text.rs:19-38 | Computes the escaping the lemmas below are about |
| `Text.EscapedIsInert` | src/text.rs:1-38 | Escaped text has no control or invisible character, and is empty only for empty text |
| `Text.EscapingIsIdempotent` | src/text.rs:19-38 | Escaping twice is escaping once |
| `Text.EscapingIsNotInjective` | src/text.rs:19-38 | A witness: two texts that escape alike |
| `Text.EscapingLosesNothingExactly` | src/text.rs:19-38 | No other text escapes like this one exactly when escaping changes nothing in it and it spells out no escape of a character that would be escaped |
| `Text.BoundedIsInert` | src/text.rs:40-66 | Cutting to the bound never brings back what escaping removed, and text within the bound is shown whole |
| `Requester.OriginChainFrom` | src/requester.rs:138-165 | The loop computes the walk of at most eight readable ancestors below pid 1, adjacent repeats collapsed |
| `Requester.ChainIsTheCollapsedWalk` | src/requester.rs:124-165 | That walk is the escaped paths, collapsed, each named by its own path |
| `Requester.OriginIsWellDescribed` | src/requester.rs:118-165 | For every process table the origin is bounded, inert, without adjacent repeats, and names are a function of paths |
| `Confirm.ApprovalQuestion` | src/confirm/mod.rs:209-265 | Builds the question piece by piece, and none for an unidentifiable requester |
| `Confirm.QuestionsAreUnambiguous` | src/confirm/mod.rs:199-265 | Two questions are equal exactly when the escaped key fields, requester, uid, ancestor paths, and every hop's escaped fingerprint, name and forwarding flag are equal |
| `Confirm.SameQuestionSameWords` | src/confirm/mod.rs:119-265 | Requests with the same question read the same in the prompt but for the pid, so a remembered answer never stands for words the user has not seen |
| `Confirm.SameNamesAreOneQuestionIfTheirFilesAre` | src/confirm/mod.rs:199-252 | Requests that differ in nothing but ancestors of the same names read the same, and are one question exactly when the ancestors are the same files |
| `Confirm.SameWordsMayBeTwoQuestions` | src/confirm/mod.rs:199-204 | The same words need not be the same question: for every context, two ancestor paths that read alike and ask anew |
| `Words.ShownFieldsAreRecovered` | src/confirm/mod.rs:119-197 | From equal words under one pid the item id, fingerprint, requester and uid are recovered, in any two requests of known requesters |
| `Words.SameWordsAreOneQuestionExactly` | src/confirm/mod.rs:199-252 | For all pairs of requests of known requesters with equal words under one pid: the question is one exactly when the ancestors' paths, the whole escaped key names, and each hop's escaped fingerprint, name and forwarding flag agree |
| `Words.WordsSettleTheQuestionExactly` | src/confirm/mod.rs:199-204 | The same words are the same question, whatever else might be asking, exactly for a request with no ancestors, no hops, a key name within the bound, and a requester not called "unknown process"; for any other there is one that reads alike and differs in an ancestor's directory, a host key of the same form or a host named by it, a long name's end, or in being unidentified |
| `Confirm.Describe` | src/confirm/mod.rs:125-197 | Builds the text of the prompt, with the warning ahead of the hops exactly when some hop forwards |
| `Prompt.UntrustedTextIsHarmless` | src/confirm/mod.rs:119-197 | Whatever a vault item, a process, a path or a host is called, the prompt's text has no control or invisible character in it but its own line breaks |
| `Enclave.PaddingIsUndone` | src/enclave.rs:149-185 | Every secret up to the cap comes back from its block, and every block has the same size |
| `Enclave.UnpadIsExact` | src/enclave.rs:173-185 | A block unpads to a secret exactly when it holds that secret behind its length; every other block is refused |
| `Enclave.UnpadIgnoresThePadding` | src/enclave.rs:173-185 | The padding bytes are not checked, so distinct blocks may unpad alike |
| `Enclave.PadSecret` | src/enclave.rs:153-165 | Pads into one allocation that never moves |
| `Enclave.UnpadInPlace` | src/enclave.rs:173-185 | Shifts and truncates within the same allocation, and leaves a refused block alone |
| `Enclave.IsNotAuthenticated` | src/enclave.rs:103-112 | Finds a code exactly if it is one of the seven listed |
| `Enclave.EmptyExactlyWhenPastSaving` | src/enclave.rs:80-225 | An unwrap reads as an empty store exactly when the key or box is past saving or the contents were never put there by this program; a declined fingerprint never does; and what was padded comes back |
| `Enclave.Encode` | src/enclave.rs:261-276 | Writes magic, then each length-prefixed part, into one allocation that never moves; refuses oversized parts |
| `Enclave.TakeIsABoundedRead` | src/enclave.rs:300-311 | A field is the wire string at the front, refused if longer than allowed |
| `Enclave.DecodeIsExact` | src/enclave.rs:283-296 | A file decodes to a value exactly when it is that value's encoding |
| `Enclave.LoadIsExact` | src/enclave.rs:318-355 | Reading a bounded front of the file accepts it exactly when the whole file is an encoding |
| `Terminal.SplitsAtTheFirstNewline` | src/passphrase/tty.rs:189-203 | Input splits into a newline-free line, its newline and a rest in exactly one way |
| `Terminal.ReadsTakeSuccessiveLines` | src/passphrase/tty.rs:189-203 | The n-th read finds the n-th line typed, whatever the lines before it held |
| `Terminal.Terminal.ReadLine` | src/confirm/tty.rs:94-110 | For any input and cap: consumes exactly through the first newline, never holds more than the cap nor reallocates, and yields the line exactly if it fits; with no line, takes nothing from a terminal that hands over lines |
| `Terminal.ReadPassphrase` | src/passphrase/tty.rs:44-214 | Only what is typed while the prompt is up answers it; type-ahead after the line survives; an unfinished entry is discarded; what is not a terminal is refused with its input as it was; every failure to open, hide, write or wait is its own error; the terminal's mode is restored on every path |
| `Terminal.TerminalMode.HideInput` | src/passphrase/tty.rs:88-115 | Echo off, canonical mode with return ending the line, and the old mode remembered; refused, with nothing changed, for what is not a terminal |
| `Terminal.TerminalMode.Drop` | src/passphrase/tty.rs:138-158 | Restores the mode, and discards queued input unless entry finished |
| `Terminal.YesIsTheWholeLine` | src/confirm/tty.rs:111-115 | A line is a yes exactly when it is that word with nothing but ASCII white space around it |
| `Terminal.PromptOnTty` | src/confirm/tty.rs:42-115 | Approves exactly on a finished line of at most 64 bytes that is a yes, on a device that opened and showed the prompt; on a terminal that line was typed after the prompt; says what stays queued in every case |
| `VaultLock.Watch` | src/vaultlock.rs:93-154 | Over any stream of readings the key is told to forget exactly once per rise from unlocked to locked among the readable ones, until the first reading fails or three in a row do |
| `VaultLock.LocksIsExact` | src/vaultlock.rs:71-73 | The places told are exactly those where a locked reading follows an unlocked one (or nothing), each once, in order |
| `VaultLock.EveryLockIsCaught` | src/vaultlock.rs:117-154 | A screen read as locked has been acted on, with nothing since reading unlocked, even across unreadable samples |
| `VaultLock.OneForgetPerLock` | src/vaultlock.rs:65-73 | Between two forgets the screen was read unlocked |
| `KnownHosts.SpacingDoesNotMatter` | src/knownhosts.rs:194-230 | A line is read by its fields alone, whatever white space separates or surrounds them |
| `KnownHosts.RevocationCountsHoweverSpaced` | src/knownhosts.rs:199-230 | Every line whose first field is the revocation marker revokes its key, whatever the spacing and whatever follows |
| `KnownHosts.Index.Add` | src/knownhosts.rs:152-169 | The index agrees with everything read so far, and counts the lines whose host is a hash |
| `KnownHosts.Index.NameFor` | src/knownhosts.rs:141-149 | No name for a revoked or unnamed key, else its distinct host fields in first-seen order |
| `KnownHosts.NamesFor` | src/knownhosts.rs:56-89 | One name per fingerprint in the order given over all readable files, or none at all if the lookup did not finish |
| `KnownHosts.FilesReadAsOne` | src/knownhosts.rs:172-180 | Several files, the unreadable left out, say what one file of all their lines would |
| `KnownHosts.NamelessExactlyWhenRevokedOrUnknown` | src/knownhosts.rs:141-149 | A key has no name exactly when some line revokes it or none names it, and its names are the recorded host fields, each once |
| `KnownHosts.NamesAreNotEmpty` | src/knownhosts.rs:141-180 | Over any files a host is never named by empty text, so in a question no name and an empty name cannot be confused |
| `KnownHosts.NamesKeepTheirOrder` | src/knownhosts.rs:152-169 | Names stand in the order first recorded: reading more only appends |
| `KnownHosts.OrderDoesNotMatter` | src/knownhosts.rs:152-180 | Over any files: reordering lines, moving them between files and repeating them changes neither whether a key has a name nor which names it has |
| `KnownHosts.FileOrderDoesNotMatter` | src/knownhosts.rs:172-180 | Nor does reordering or repeating whole files, or unreadable ones among them |
| `KeyStore.ServedKeysAreDistinct` | src/keystore.rs:194-309 | No two entries of any store, however it was built, share key data |
| `KeyStore.ServedKeysComeFromTheirItems` | src/keystore.rs:178-190 | Every served key was read from its own item and is of a kind the agent can sign with |
| `KeyStore.LookupIsUnique` | src/keystore.rs:412-416 | A lookup finds an entry exactly when it is the one with that key data |
| `KeyStore.Seen.Unique` | src/keystore.rs:194-209 | A key is let in once; the second item is refused and told the first |
| `KeyStore.InspectKeys` | src/keystore.rs:82-115 | Every wanted key is judged: usable exactly if accepted and first with its key data, a later one named as the duplicate of the first |
| `KeyStore.Load` | src/keystore.rs:315-365 | The first duplicate or shut vault decides; otherwise exactly the usable keys are served, and none is an error |
| `KeyStore.LoadComplete` | src/keystore.rs:377-402 | A store exactly when some key is served and every wanted key is served or ruled out by the vault's own verdict |
| `KeyStore.FromRemembered` | src/keystore.rs:244-293 | Serves, and misses, exactly what the rules of a fresh fetch make of what was remembered |
| `KeyStore.RememberingIsUndone` | src/keystore.rs:244-309 | For distinct ids, what a scan served is rebuilt from the file alone: same entries, same order, missing exactly the pinned keys the scan left out |
| `KeyStore.Served.Replace` | src/keystore.rs:167-172 | The served set is replaced whole |
| `Refresh.RunsAreSound` | src/refresh.rs:56-123 | In every run: at most one scan in flight, scans begun by signatures at least an interval apart, and a served set that is not empty and names each key once |
| `Refresh.SignatureScansExactlyWhenDue` | src/refresh.rs:58-101 | A signature begins a scan exactly when none is in flight and none was begun by a signature within the interval; one landing during a scan spends nothing |
| `Refresh.RefreshIsAllOrNothing` | src/refresh.rs:103-123 | A finished scan changes neither set nor file, or installs a non-empty set in which every wanted key is served or ruled out by the vault; a file written from it starts the next agent with that very set |
| `Refresh.Refresher.AfterSignature` | src/refresh.rs:58-66 | The step a signature takes, running checked before the throttle |
| `Refresh.Refresher.AtStartup` | src/refresh.rs:73-75 | Begins a scan outside the throttle |
| `Refresh.Refresher.Spawn` | src/refresh.rs:78-88 | Begins a scan unless one is in flight |
| `Refresh.Refresher.BeginIfDue` | src/refresh.rs:91-101 | Stamps the attempt exactly if one is due |
| `Refresh.Refresher.RefreshNow` | src/refresh.rs:106-123 | The step a finished scan takes |
| `Discovery.Discover` | src/lpass/mod.rs:159-196 | For every order in which probes finish: at most 8 in flight, each candidate probed at most once, an error exactly if some probe really failed, and otherwise the one list sorted by name and id |
| `Discovery.ResultListsTheKeysInOrder` | src/lpass/mod.rs:159-197 | That list is sorted and holds exactly the candidates whose note type says SSH key |
| `Discovery.SortedIsUnique` | src/lpass/mod.rs:195-196 | A list sorted by name and id is determined by what is in it, so completion order cannot show |
| `Discovery.DiscoverSshKeyItems` | src/lpass/mod.rs:132-197 | A failed listing is the result with nothing probed; otherwise the items whose name has the needle decide: an error exactly if one of their probes really failed, else the one sorted list of those that are SSH keys |
| `Passphrase.ReadSecret` | src/passphrase.rs:154-170 | However a helper's output is split into reads, the outcome is that of the whole: too long past the cap, an error if the pipe breaks, else the bytes; in one allocation |
| `Passphrase.OneLineEndingIsStripped` | src/passphrase.rs:189-198 | At most one line ending goes, and anything else stays |
| `Passphrase.StripLineEnding` | src/passphrase.rs:189-198 | Strips in place |
| `Passphrase.TheVaultDecidesAlone` | src/passphrase.rs:281-290 | A non-empty vault field decides the outcome by itself, right or wrong, with neither store nor user reached |
| `Passphrase.TouchesAreGuarded` | src/passphrase.rs:312-404 | The gate is held before store or user is reached and entered once; the user is asked at most once; what is written opens the key and is filed under its fingerprint |
| `Passphrase.AStaleSaveIsNotFinal` | src/passphrase.rs:351-404 | When the saved passphrase no longer works, a typed one that does unlocks the key and replaces it |
| `Passphrase.TheSecondSignatureNeedNotAsk` | src/passphrase.rs:336-404 | Once a typed passphrase was kept, an unlock of that key succeeds from the store without asking for as long as no other program writes under that fingerprint |
| `Passphrase.WritesAreVerified` | src/agent.rs:349-380 | A passphrase is written only for the encrypted key just fetched from the vault, which it opens, whose public half is the advertised one, and under that fingerprint |
| `Passphrase.Unlocker.Unlock` | src/passphrase.rs:269-309 | The outcome, every touch in order, and the store afterwards, for one unlock, whatever other programs write to the store while the user types |
| `Passphrase.Unlocker.UnlockFromStore` | src/passphrase.rs:336-404 | The same for the store half: the gate, the saved passphrase, else a typed one, verified before it is saved over whatever others wrote while the user typed |
| `Passphrase.Unlocker.Ask` | src/passphrase.rs:312-333 | Enters the gate unless the request holds it already; a dismissed prompt and an empty answer are both errors |
| `Passphrase.Unlocker.SignWith` | src/agent.rs:325-384 | Over every run of requests sharing one store with other programs, which may write between requests and during one: whatever in it is the agent's own opens a key the vault returned, filed under that key's fingerprint; a signature comes only from the advertised key; remembered identities are given up exactly when the vault contradicts them |
| `Passphrase.Unlocker.UnlockFetched` | src/agent.rs:375-380 | Unlocking the key just fetched keeps that true of the store |

## Left out

- ProtocolTheorems.RequestsEnd: bounds a request's own steps; how long the world takes to answer one is not modelled, nor are the deadlines that cut a prompt short (an expired prompt is a prompt that answered with an error).
- ProtocolTheorems.SomeoneCanAlwaysStep: says nothing of fairness between requests waiting at the gate.
- ProtocolTheorems.NoSecondPromptWithoutALock: speaks of requests with an identifiable requester; one without is asked every time by design.
- ProtocolCalls.AnUndisturbedCallIsACall: the step system reports verdicts without the item id that an error message would name.
- Unlock.IdleTimeRunsFromTheLastTouch: speaks of takings and touches, not of signatures; a signature fetches through the quiet client, which does not touch.
- Terminal.Terminal.ReadLine: the two loops of the source are alike and are modelled once; the end-of-file character, which hands over a line without its newline, is not modelled.
- KnownHosts.Index.Add: takes a file as its lines; splitting text into lines and the size limit on a file are not modelled.
- Words.WordsSettleTheQuestionExactly: takes host-key fingerprints to be non-empty, as their format makes them.
- Discovery.Discover: which of several failures is reported depends on the order; what the parsing of a listing makes of a line is `LpassCli.ParseInvertsListing`, and lower-casing is taken as given.
- Passphrase.Unlocker.SignWith: says that the remembered identities are given up; removing the file is not modelled.
- KeyStore.RememberingIsUndone: needs distinct ids, which the configuration check (`src/config.rs:242`) and the vault guarantee, and treats the file as a value that is present or absent.
- Enclave.EmptyExactlyWhenPastSaving: keeps the outcome of a failed call where the code keeps its wording.
- The scan before the agent listens is sequential and no part of the step system; runs begin from every vault it could leave.
- Subprocesses, pipes, timeouts, the environment `lpass` is given, and killing it: a call is an answer.
- The Keychain, the secret service, logind, the Swift shim and the graphical prompts: an answer each.
- Sockets, file permissions, atomic writes, TOML, configuration and command line: easy members that no property here needs.
- Log lines, wiping of memory beyond buffers that never move, and `u64` overflow of the counters.
