# Decoda evidence tooling: a verified model

This project models the parts of the Decoda repository whose correctness other people rely on, and proves what they
promise. It is self-contained Dafny: `dafny verify dfyconfig.toml` checks everything.

- **Offline evidence verifier** (`Json`, `Canonical`, `Merkle`, `Archive`, `Manifest`, `Verifier`, `TamperEvidence`,
  `Authenticity`, `KeyTrust`, `EntryPoint`, `Packaging`, `PathOrder`, `PathTwins`): the canonical JSON printer and the
  duplicate-rejecting parser, the bottom-up Merkle loop, the budgeted archive reader, the file loop with suffix
  matching, the signature check, and `verify_package` as a whole; its counterpart, what the sealing side puts into a
  package; and how far the manifest digest fixes what a package says.
  SHA-256 is an arbitrary function to 32 bytes; where a statement needs collision resistance, the lemma returns the
  two colliding byte strings instead.
- **Alert stream client** (`AlertStream`, `Delivery`): the incremental event-stream reader and the reconnect loop as a
  class, against the server's own framing, with connections cut at any character.
- **Release attestations** (`ReleaseAttestation`): the write-once store, with crashes in the middle of `create`, and
  the create/verify round trip through indented JSON files.
- **Text and record transformations** (`ConflictResolver`, `Redaction`, `PrintedSecrets`, `LiveEvidence`,
  `EvidenceProofs`, `ChainFiles`, `NamelessChain`, `ServiceStore`): the two merge-conflict resolvers, secret redaction
  against the validator of the printed artifact, the live-evidence chain validator with the two proof builders, and
  the two-table service store.

`Wrappers`, `Bytes`, `Ordering`, `Records` and `PyText` hold the shared vocabulary: results, bytes with hex and UTF-8,
sorting, dictionaries with fixed keys, and Python's string operations.

Objects the source updates in place are classes (`Archive`, `Report`, `AlertStreamClient`, `AttestationStore`, `Store`),
loops are methods proved against specification functions, and the properties are lemmas about those functions. Python
exceptions are `Result` failures.

## What the proofs found

Where the code and its documentation differ, the model follows the code.

- A flat package (with `manifest.json` at the top level) does not raise `PackageError`: line 363 takes the name itself
  as the root, and reading `manifest.json/manifest.json` raises `KeyError`. `FlatArchiveRaisesKeyError` gives the exact
  condition.
- `verify_package` promises a report for every package that can be read. A malformed digest in a listed file raises as
  soon as a Merkle root is checked; `VerifyRoot` and `VerifyPackage` state exactly when a report comes back.
- A path given as a JSON object reaches the report through `str()`, which shows key order, while the manifest digest
  does not. So the digest, and a signature over it, binds contents without any condition, but a path exactly when no
  object with two keys is inside it: `PlainPathIff`. `VerifiedPathsCanDiffer` gives two archives that open, come back
  verified under one manifest digest, and list `{'a': 1, 'b': 2}` and `{'b': 2, 'a': 1}`. Python's `repr` of a string
  is a parameter here; the condition is exact when no such text begins with the text of another string, which holds in
  Python because the text ends at its closing quote (`JsonLiteralsApart` proves it for JSON's literals).
- A corrupt deflate stream raises `zlib.error`, which is none of the three exceptions line 306 turns into
  `PackageError`. `VerifyPackage` states exactly when: in the manifest, in the first listed file that cannot be read,
  in the seal, or in the bundled keyring when it is needed.
- Suffix matching takes a file for a candidate of every path it ends with. In a verified package two listed files share
  an entry exactly when one path ends with "/" and the other. In a package as the builder lays it out, both files have
  their own entry, and then the same coincidence makes an intact, correctly sealed package fail:
  `SealedVerifiesIff` gives the exact condition and `SameNameInFolderFails` an example, `incidents.json` beside
  `old/incidents.json`. Such a package still gets its report, which says failed: `SealedPackageReports`, `BuiltReports`.
- A bundled keyring whose `keys` is a number other than zero, or true, raises `TypeError`, which no handler turns into
  `PackageError`; `VerifyPackage` states exactly when.
- The alert client keeps only the last `data` line of an event, treats a field literally named `comment` as a comment
  (`CommentFieldIsComment`), and can never report the status `disconnected`.
- The deployed server starts a connection without `Last-Event-ID` at the end of the stream
  (`services/api/app/main.py` line 8034), so what a client sees is a gapless stretch of the log from where its first
  successful connection started. It is a prefix of the log for a server that replays from the beginning.
- Redaction works on the values and the validator scans the printed file. An escape written by the JSON printer can
  complete a match that no value contains: `EscapesCanLookSecret`. `RedactedArtifactPasses` says for every value when
  the artifact passes: every key prints clean, and no string has a character whose escape ends in the digit a before
  KIA and sixteen letters or digits that redaction leaves alone.
- Both proof builders copy `detection_name` and drop `detection_type`. A chain that names its detection only by type is
  accepted, and the ready proof built from it is refused: `NamelessChainFails`. The proofs pass exactly for chains with
  a `detection_name`.
- The release `verify` takes the public key from `signature.json` itself, so it accepts a pair of documents signed with
  any key whatever: `AnySignerAccepted`. What it does bind is that one signature file fits one attestation only.
- A `create` that dies after making the directory blocks that commit and deployment for good: `SameRootRetry`.
  Nothing stored before is ever changed.
- `seed_service` commits the service row before it replaces the metrics, so a refused seeding leaves the new row with
  the old metrics.
- The conflict scripts read in text mode, so the carriage-return parts of the second pattern never apply.

## Model

| member | source | states |
|---|---|---|
| Json.LoadsUndoesPut | tools/decoda_evidence_verifier/verifier.py:132-153 | reading what the printer wrote, compact or indented and with either rule for repeated keys, gives back exactly the value, for every value of null, booleans, integers, strings, arrays and objects with distinct keys |
| Canonical.CanonicalRoundTrip | tools/decoda_evidence_verifier/verifier.py:116-153 | parsing canonical text never fails and gives a value equal to the printed one in Python's sense, where key order does not count |
| Canonical.CanonicalDecidesEquality | tools/decoda_evidence_verifier/verifier.py:116-129 | canonical bytes of two values are equal if and only if the values are equal up to key insertion order at every depth |
| Canonical.NormIdempotent | scripts/release_attestation.py:49-52 | sorting the keys of a value with sorted keys changes nothing |
| Canonical.LoadsWellFormed | tools/decoda_evidence_verifier/verifier.py:132-153 | whatever the parser accepts has distinct keys in every object, with either rule for repeated keys |
| Merkle.LeafBytesInjective | tools/decoda_evidence_verifier/verifier.py:167-180 | the bytes hashed for a leaf determine the path and the normalised digest |
| Merkle.NextLevelKeepsTreeHash | tools/decoda_evidence_verifier/verifier.py:206-212 | one round of pairing with promotion of the odd node keeps the recursive hash that splits at the largest power of two below the size |
| Merkle.SplitIsPowerOfTwo | tools/decoda_evidence_verifier/verifier.py:206-212 | the split point is a power of two, below the size and at least half of it, as in section 2.1 of RFC 6962 |
| Merkle.RoundsToRoot | tools/decoda_evidence_verifier/verifier.py:206-213 | r rounds leave one node exactly when there are at most 2^r nodes, and that node is the tree hash |
| Merkle.HashLevels | tools/decoda_evidence_verifier/verifier.py:206-213 | the outer loop ends with the tree hash after exactly ceil(log2 n) rounds |
| Merkle.HashPairs | tools/decoda_evidence_verifier/verifier.py:207-212 | the inner loop computes one level |
| Merkle.HashLeaves | tools/decoda_evidence_verifier/verifier.py:205-205 | all leaves are hashed in order, or the first malformed digest raises |
| Merkle.ComputeMerkleRoot | tools/decoda_evidence_verifier/verifier.py:183-213 | the loops compute the recursive root over the leaves sorted by UTF-8 path, with the same refusals: no path, duplicate path, malformed digest, and no root for no entries |
| Merkle.MerkleRootForgetsOrder | tools/decoda_evidence_verifier/verifier.py:192-205 | any permutation of the entries gives the same root, or both orders are refused |
| Merkle.TreeHashBinds | tools/decoda_evidence_verifier/verifier.py:158-213 | equal tree hashes over any two leaf lists, of any two lengths, mean equal paths and digests leaf by leaf, or yield two byte strings with one SHA-256 |
| Merkle.MerkleRootBinds | tools/decoda_evidence_verifier/verifier.py:158-213 | two accepted entry lists with one root hold the same set of path and normalised digest pairs, or a collision is exhibited |
| Merkle.DuplicationForges | tools/decoda_evidence_verifier/verifier.py:186-190 | duplicating the odd node instead would give every odd level a longer twin with the same parents |
| Merkle.DuplicatedRootsCollide | tools/decoda_evidence_verifier/verifier.py:186-190 | with duplication up to the root, every list of odd length from three on and its extension by its last leaf have one root, which promotion rules out (MerkleRootBinds) |
| Archive.Archive.Stream | tools/decoda_evidence_verifier/verifier.py:275-308 | succeeds exactly when the member is plausible, undamaged, within its limit and within the budget; then digest, size and bytes are those of the whole member for any chunking, and budget plus bytes served stays 512 MiB |
| Archive.OpenArchive | tools/decoda_evidence_verifier/verifier.py:311-374 | opens exactly the acceptable archives: entry count, distinct safe names, no links, plausible sizes, total size, one manifest root |
| Verifier.Report.Count | tools/decoda_evidence_verifier/verifier.py:651-693 | every outcome keeps total = verified + failed + missing, with the two path lists of exactly those lengths and disjoint |
| Verifier.JudgeFile | tools/decoda_evidence_verifier/verifier.py:654-693 | one listed file is verified, failed or missing exactly as its unique matching entry, digest and size say, and its read is charged to the budget |
| Verifier.VerifyFiles | tools/decoda_evidence_verifier/verifier.py:635-693 | the loop returns exactly when the listing is in order and every located file can be read with what earlier files left of the budget, and otherwise zlib.error exactly when the first file it cannot get past is a corrupt one, else PackageError; on return the counters add up, the failed and missing lists hold exactly the paths so judged in listing order, and the matched set holds exactly the entries some listed path matches |
| Verifier.NoteUnexpected | tools/decoda_evidence_verifier/verifier.py:695-705 | matched and unexpected entries partition the artifacts, and every other entry is a known file or extra, never both |
| Verifier.VerifyListing | tools/decoda_evidence_verifier/verifier.py:630-705 | a report for exactly the listings that can be read, which accounts for every listed file and every entry; for the others the one exception they raise |
| Verifier.VerifyManifest | tools/decoda_evidence_verifier/verifier.py:604-628 | the manifest read is the one the archive holds, its digest is recomputed from the canonical body, and each failure is the source's |
| Verifier.VerifyRoot | tools/decoda_evidence_verifier/verifier.py:707-722 | raises exactly when a root is checked and some listed digest is malformed; gives nothing when none is checked, and else the recomputed root and whether it is the declared one |
| Verifier.Decide | tools/decoda_evidence_verifier/verifier.py:724-732 | integrity is verified exactly when digest, counters, unexpected entries and root all agree |
| Verifier.VerifyIntegrity | tools/decoda_evidence_verifier/verifier.py:595-740 | returns exactly for reportable packages, raises KeyError exactly when the manifest entry is absent and otherwise the one exception the package raises; the report then says what the package is: files, roots, verdict, package number and audit anchor |
| Verifier.NoFailures | tools/decoda_evidence_verifier/verifier.py:725-731 | empty failed and missing lists mean that every listed file verified, and conversely |
| TamperEvidence.IntegritySound | tools/decoda_evidence_verifier/verifier.py:635-732 | verified means that each listed path has exactly one matching entry with the declared digest and size, and every entry under artifacts/ is the match of a listed path |
| TamperEvidence.SharedEntryIffCovered | tools/decoda_evidence_verifier/verifier.py:654-661 | in a verified package two listed files share an entry exactly when one path ends with "/" followed by the other; so matching is one-to-one exactly when no path covers another |
| TamperEvidence.FlatArchiveRaisesKeyError | tools/decoda_evidence_verifier/verifier.py:362-374 | an acceptable archive raises KeyError exactly when manifest.json lies flat and no manifest.json/manifest.json exists |
| TamperEvidence.ContainerIsNoDigest | tools/decoda_evidence_verifier/verifier.py:158-164 | the text of a list or an object is never a digest |
| TamperEvidence.VerifiedPackagesAgree | tools/decoda_evidence_verifier/verifier.py:618-732 | two verified packages with one recomputed manifest digest list equally many files with the same bytes, one by one, or a collision is exhibited |
| TamperEvidence.VerifiedPathsAgree | tools/decoda_evidence_verifier/verifier.py:618-732 | when no path holds an object with two keys, they hold the same bytes under every logical path, or a collision is exhibited; PathOrder.PlainPathIff and PathTwins.AmbiguousPathsDiffer show that this condition is the exact one |
| PathOrder.PlainPathIff | tools/decoda_evidence_verifier/verifier.py:644-644 | for every listed file: every entry with the same canonical bytes has the same path if and only if no object with two keys is inside the path |
| PathOrder.UnambiguousIff | tools/decoda_evidence_verifier/verifier.py:644-644 | str() of a value is the same for every order of its keys, at every depth, if and only if no object with two keys is inside |
| PathTwins.OneFileVerifies | tools/decoda_evidence_verifier/verifier.py:561-732 | an archive with one file, filed under the text of any list or object that can name a file, opens and comes back verified, and lists that text as the path |
| PathTwins.TwinPackages | tools/decoda_evidence_verifier/verifier.py:618-732 | two such archives for values that are equal up to key order have one manifest digest |
| PathTwins.AmbiguousPathsDiffer | tools/decoda_evidence_verifier/verifier.py:618-732 | every path with an object of two keys inside gives two verified packages with one manifest digest and different paths, as long as both texts can name a file |
| PathTwins.VerifiedPathsCanDiffer | tools/decoda_evidence_verifier/verifier.py:618-732 | a concrete pair, with any contents: both archives open, both come back verified, one manifest digest, two different paths |
| Authenticity.LoadKeyring | tools/decoda_evidence_verifier/verifier.py:383-417 | accepts exactly the files that parse to a list of objects with key id and material and distinct ids, and yields one key for each entry, under its id, and no other |
| Authenticity.KeyringKeysIff | tools/decoda_evidence_verifier/verifier.py:406-417 | the entry loop accepts exactly the sound lists, keeps one key for each entry, and refuses with PackageError |
| Authenticity.VerifyAuthenticity | tools/decoda_evidence_verifier/verifier.py:798-900 | the verdict and every failure are those of the specification, on the budget the integrity steps left |
| Authenticity.ResolveKeys | tools/decoda_evidence_verifier/verifier.py:762-795 | explicit key, then keyring file, then the bundled keyring only when allowed |
| KeyTrust.AuthenticIff | tools/decoda_evidence_verifier/verifier.py:798-900 | verified if and only if the package's own seal names a signature document of the supported kind that holds a signature over the recomputed digest under material the caller trusts for the key id in that document |
| KeyTrust.ResolvedIffTrusted | tools/decoda_evidence_verifier/verifier.py:762-795 | a key resolved for an id is exactly the pinned one, else an entry of the given keyring, else, only when opted in, the last usable entry of the bundled one |
| KeyTrust.VerdictIff | tools/decoda_evidence_verifier/verifier.py:798-900 | a verdict is given exactly when the seal can be read and, if its signature is to be checked, the keys can; TypeError exactly for a numeric bundled keyring that is needed, zlib.error exactly for a corrupt seal or a corrupt keyring that is needed, and never KeyError |
| Authenticity.NothingToCheckIsUnavailable | tools/decoda_evidence_verifier/verifier.py:819-865 | a legacy seal, or a run without any key source, is never verified and never failed |
| Authenticity.PayloadBindsDigest | tools/decoda_evidence_verifier/verifier.py:218-228 | the signed payload has a fixed length and is equal for two digests only if the digests are |
| Authenticity.SignedPayloadBindsFiles | tools/decoda_evidence_verifier/verifier.py:218-228 | two verified packages with the same signed payload hold the same files, or a collision is exhibited |
| EntryPoint.VerifyPackage | tools/decoda_evidence_verifier/verifier.py:561-592 | a report comes back if and only if the archive is acceptable, steps 1 to 5 can report and the seal and the keys it needs can be read; KeyError, TypeError and zlib.error are each raised exactly under a condition on the archive and the options, and whatever remains is PackageError (or a document this model does not read, again exactly characterised); the report and the verdict are the specified ones |
| Packaging.SealedVerifiesIff | tools/decoda_evidence_verifier/verifier.py:641-732 | an intact sealed package, filed as the builder does, verifies if and only if no logical path ends with "/" followed by another |
| Packaging.SameNameInFolderFails | tools/decoda_evidence_verifier/verifier.py:654-667 | a concrete pair of paths for which an intact sealed package fails |
| Packaging.SealedPackageReports | tools/decoda_evidence_verifier/verifier.py:595-740 | a sealed package filed as the builder does, within the size limits, always gets a report, which says verified if and only if no logical path ends with "/" followed by another |
| Packaging.PinnedKeyDecides | tools/decoda_evidence_verifier/verifier.py:762-900 | with a key pinned and a supported signature document in the seal, the verdict is unavailable if the key is pinned under another id than the document names, and otherwise verified if and only if the signature holds over the recomputed digest, and failed if not |
| Packaging.SignedPackageVerifies | tools/decoda_evidence_verifier/verifier.py:561-592 | a package that is sealed, filed, within the limits, free of such paths and signed gets a report with integrity and authenticity both verified |
| Packaging.BuiltIsSealed | services/api/app/evidence_archive.py:483-516 | from a body that lists the documents, the sorted and indented manifest the builder stores is read back as a sealed manifest that lists them, and its digest is the one that was signed |
| Packaging.BuiltVerifiesIff | services/api/app/evidence_archive.py:483-516 | what the builder writes verifies if and only if no logical path covers another |
| Packaging.BuiltReports | services/api/app/evidence_archive.py:483-516 | within the limits what the builder writes always gets a report, also when it has to say failed |
| Packaging.BuiltSignedVerifies | services/api/app/evidence_archive.py:483-516 | a built and signed package within the limits comes back with integrity and authenticity both verified |
| Packaging.ManifestReadsBack | services/api/app/evidence_archive.py:483-485 | the manifest written into the archive, indented or not, is read back by the verifier member for member |
| Packaging.SealingSeals | services/api/app/evidence_signing.py:357-412 | hashing the body and adding the digest to it gives a manifest whose own digest checks |
| Packaging.DigestForgetsOrder | services/api/app/evidence_signing.py:405-412 | the manifest digest is the same for every order of the keys, so sorting them for the archive keeps the seal |
| Packaging.FiledApart | services/api/app/evidence_archive.py:501-514 | documents with different logical paths get different archive entries |
| AlertStream.ChunkIndependence | apps/web/app/alert-stream-client.ts:94-149 | for every way of cutting the text, and any leftover, the client makes the same callbacks and ends in the same state as on the whole text at once; the leftover never holds a newline |
| AlertStream.AlertStreamClient.ReadChunk | apps/web/app/alert-stream-client.ts:118-149 | the inner loop consumes exactly the complete lines of the buffer |
| AlertStream.AlertStreamClient.ConnectOnce | apps/web/app/alert-stream-client.ts:62-160 | one connection attempt, in all its endings, has exactly the specified effect |
| AlertStream.AlertStreamClient.Loop | apps/web/app/alert-stream-client.ts:162-178 | the reconnect loop runs the specified turns against any sequence of attempts |
| AlertStream.DelayBounded | apps/web/app/alert-stream-client.ts:29-31 | delays stay within 3000 and 60000 and never fall as attempts accumulate |
| AlertStream.RefusalsBackOff | apps/web/app/alert-stream-client.ts:162-174 | n failed attempts in a row sleep exactly the next n delays and change nothing else |
| AlertStream.OpenedResetsDelay | apps/web/app/alert-stream-client.ts:86-92 | after an established connection is lost the next sleep is 3000 again |
| AlertStream.NeverDisconnected | apps/web/app/alert-stream-client.ts:175-177 | no run reports the status disconnected |
| Delivery.CutWireDispatches | apps/web/app/alert-stream-client.ts:118-149 | from a connection cut at any character exactly the first j events of its frames are dispatched, and all of them when nothing is cut |
| Delivery.SessionDelivers | apps/web/app/alert-stream-client.ts:62-160 | a connection extends the delivered stretch at its end, without gap or repeat, and reaches the end of the log when it is not cut |
| Delivery.RunDelivers | apps/web/app/alert-stream-client.ts:59-138 | over every run of connections the dispatched blocks are one gapless, repeat-free stretch of the server's log as of the last connection reached, the client's id marks its end, it starts where an opened connection started, and it reaches the end of the log when the last connection is not cut |
| Delivery.FreshRunSees | apps/web/app/alert-stream-client.ts:59-138 | for a fresh client, over every run of the reconnect loop, onEvent is called for exactly the valid members of that stretch, in order |
| Delivery.ReplayDeliversPrefix | apps/web/app/alert-stream-client.ts:59-138 | against a server that replays everything when the header is absent, a fresh client has dispatched exactly a prefix of the server's log, all of it when the last connection is not cut, and onEvent saw exactly the valid members of that prefix |
| Delivery.SessionsAreRuns | apps/web/app/alert-stream-client.ts:162-174 | the sessions of the delivery statements are exactly runs of the reconnect loop |
| Delivery.OnEventSeesValidBlocks | apps/web/app/alert-stream-client.ts:124-137 | over every run onEvent is called for exactly the dispatched blocks with valid JSON, in order |
| Delivery.FrameRuns | services/api/app/main.py:7973-7996 | each frame the server writes is read as the one event, heartbeat or preamble it stands for |
| Delivery.LaterDataOverwrites | apps/web/app/alert-stream-client.ts:145-147 | of several data lines only the last survives |
| Delivery.CommentFieldIsComment | apps/web/app/alert-stream-client.ts:139-147 | a line of a field literally named comment has exactly the effect of the comment line with the same text |
| ReleaseAttestation.AttestationStore.Create | scripts/release_attestation.py:404-431 | succeeds if and only if the input is accepted, the path is free and nothing cuts it off; takes the path exactly when it gets past making the directory; leaves exactly the specified files, complete or cut, and changes nothing stored before |
| ReleaseAttestation.AttestationStore.Write | scripts/release_attestation.py:421-429 | the file-system part, for every place where it can be cut off: which directories and which whole or partial files there are afterwards |
| ReleaseAttestation.AttestationStore.CreateAll | scripts/release_attestation.py:400-431 | over every sequence of create calls with any faults, no stored file changes or disappears |
| ReleaseAttestation.AttestationStore.CreateAndVerify | scripts/release_attestation.py:404-466 | create succeeds exactly under that condition, and whatever it writes, verify accepts |
| ReleaseAttestation.RetrySucceedsIff | scripts/release_attestation.py:400-431 | after any run of create calls, a create succeeds if and only if its input is accepted, it is not cut off, its path was free at the start, and no earlier call with accepted input that found its own path free left a directory or a file in the way |
| ReleaseAttestation.SameRootRetry | scripts/release_attestation.py:400-431 | below one root that means: no earlier call for that commit and deployment with accepted input got past making the directory |
| ReleaseAttestation.CreatedVerifies | scripts/release_attestation.py:303-466 | the documents create stores are accepted by verify with the same commit, deployment and image, although they were sorted, indented, written, read and parsed in between |
| ReleaseAttestation.FileLoads | scripts/release_attestation.py:424-437 | a stored file reads back as the value with sorted keys, whose canonical form is unchanged |
| ReleaseAttestation.LayoutDoesNotMatter | scripts/release_attestation.py:383-397 | an accepted pair of documents stays accepted in any layout and any key order |
| ReleaseAttestation.AnySignerAccepted | scripts/release_attestation.py:383-397 | an attestation signed with any usable key is accepted exactly when its own fields name the strict mode, the commit, the deployment and the image asked for, and it lies in the directory of that commit and deployment |
| ReleaseAttestation.SignatureBindsAttestation | scripts/release_attestation.py:383-397 | two attestations accepted with one signature file are equal up to key order, or their canonical bytes collide |
| ConflictResolver.MatchIffBlock | resolve_all_conflicts_keep_main.py:9-12 | the matcher finds a match at a position exactly when a conflict block starts there |
| ConflictResolver.NoMatchMeansNoBlock | resolve_all_conflicts_keep_main.py:18-22 | the stopping condition means that no conflict block starts anywhere |
| ConflictResolver.SubNShrinks | resolve_all_conflicts_keep_main.py:18-22 | each pass shortens the text by at least 25 characters a replacement, 24 where a newline is put back |
| ConflictResolver.SubNZero | resolve_all_conflicts_keep_main.py:21-22 | a pass replaces nothing exactly when there is no match, and then changes nothing |
| ConflictResolver.Resolve | resolve_all_conflicts_keep_main.py:14-22 | the loop terminates, its result contains no match, is the fixpoint of the pass, and is shorter by the replacements counted |
| ConflictResolver.ResolveFile | resolve_remaining_conflicts_keep_main.py:14-26 | what is written is that fixpoint of the text read with universal newlines |
| ConflictResolver.UniversalNewlines | resolve_remaining_conflicts_keep_main.py:15-15 | the pattern never meets a carriage return |
| ConflictResolver.ResolvesDocument | resolve_remaining_conflicts_keep_main.py:9-23 | a file rendered from marker-free lines and conflicts becomes those lines with each conflict's second side, and the count is the number of conflicts |
| Redaction.ReplacedIsToken | scripts/generate_staging_launch_proof.py:49-52 | the matcher replaces at a position exactly the text the pattern describes there, with the longest run of token characters |
| Redaction.RedactCleans | scripts/generate_staging_launch_proof.py:59-60 | after redaction no position of the text matches the pattern, not even across a replacement |
| Redaction.RedactExact | scripts/generate_staging_launch_proof.py:59-60 | redaction leaves a text alone exactly when it is clean |
| Redaction.CleanPassesValidator | scripts/validate_staging_launch_proof.py:34-38 | a clean text passes the validator's narrower pattern |
| Redaction.RedactObjCleans | scripts/generate_staging_launch_proof.py:63-70 | every string value at every depth is clean afterwards, with shape, keys and other values unchanged |
| Redaction.RedactObjExact | scripts/generate_staging_launch_proof.py:63-70 | a value is left alone exactly when all its string values are clean |
| Redaction.RedactObjIdempotent | scripts/generate_staging_launch_proof.py:63-70 | a second pass changes nothing |
| PrintedSecrets.RedactedArtifactPasses | scripts/validate_staging_launch_proof.py:128-133 | for every value and layout, the printed redacted artifact passes the validator's scan if and only if every key prints clean and no string value exposes a key through an escape |
| PrintedSecrets.ValuePasses | scripts/validate_staging_launch_proof.py:128-133 | the scan of a printed value accepts exactly when each string literal in it, key or value, prints clean: numbers, words, punctuation and white space never take part in a match |
| PrintedSecrets.CleanPrints | scripts/generate_staging_launch_proof.py:59-60 | a string without a match prints clean exactly when no escape ending in a stands before a key tail |
| PrintedSecrets.RedactedCompletes | scripts/generate_staging_launch_proof.py:59-60 | which escapes still complete a key after redaction, read off the string before it |
| PrintedSecrets.PlainArtifactPasses | scripts/validate_staging_launch_proof.py:128-133 | when no character needs a hex escape, the artifact passes exactly when the validator accepts every key |
| PrintedSecrets.EscapesCanLookSecret | scripts/validate_staging_launch_proof.py:128-133 | a value without any match whose printed artifact is refused |
| LiveEvidence.PresentedAgain | scripts/generate_live_evidence_proof.py:248-338 | an accepted chain shown again with its normalised parts is accepted exactly when the detection it names still qualifies |
| LiveEvidence.NormalizedView | scripts/generate_live_evidence_proof.py:339-344 | normalising makes the four mappings explicit and changes nothing else the validator reads |
| LiveEvidence.ValidateIdempotent | scripts/generate_live_evidence_proof.py:248-344 | validating a validated chain succeeds and gives it back unchanged |
| EvidenceProofs.GeneratedProofPasses | scripts/generate_live_evidence_proof.py:624-740 | the ready proof of the generator passes the enterprise check if and only if the accepted chain has a non-empty detection_name |
| EvidenceProofs.RegeneratedProofPasses | scripts/regenerate_live_evidence_proof.py:309-415 | the same for the regenerator |
| EvidenceProofs.ShownAccepted | scripts/validate_live_evidence_proof.py:64-100 | whatever shows the ids, evidence and detector of an accepted chain is accepted exactly when that chain has a detection_name |
| EvidenceProofs.BuildersShow | scripts/generate_live_evidence_proof.py:603-740 | the candidate the check assembles from either proof shows the chain the proof was built from |
| ChainFiles.ChainFileAccepted | scripts/regenerate_live_evidence_proof.py:441-475 | the chain file, written indented and read back, is the same value, and the validator accepts it again if and only if the chain has a non-empty detection_name |
| NamelessChain.NamelessChainFails | scripts/generate_live_evidence_proof.py:301-318 | a concrete chain that names its detection only by detection_type is accepted while both ready proofs built from it are refused |
| ServiceStore.RunSound | phase1_local/dev_support.py:57-130 | over every run of upserts, replacements and seedings both primary keys stay unique |
| ServiceStore.RunShowsLastReplacement | phase1_local/dev_support.py:110-130 | after any run a service shows exactly the rows of the last acceptable replacement; refused ones leave no trace |
| ServiceStore.RunShowsLastRow | phase1_local/dev_support.py:93-107 | after any run a service has the row given last, even by a seeding whose metrics were refused |
| ServiceStore.ReplacedRows | phase1_local/dev_support.py:110-130 | a replacement shows exactly the new rows and leaves every other service alone |
| ServiceStore.FindUpserted | phase1_local/dev_support.py:93-107 | after an upsert the service has the new row and every other service the row it had |
| ServiceStore.UpsertedUnique | phase1_local/dev_support.py:93-107 | an upsert never makes two rows of one service |
| ServiceStore.Store.ReplaceMetrics | phase1_local/dev_support.py:110-130 | commits the whole replacement exactly when every metric has its fields and the keys are distinct; otherwise changes nothing and raises KeyError for a missing field, IntegrityError for a repeated key |
| ServiceStore.BuildRows | phase1_local/dev_support.py:119-129 | the rows are built before any is inserted, and a missing field raises |
| ServiceStore.InsertMany | phase1_local/dev_support.py:114-130 | inserting one by one succeeds exactly when no key repeats |
| ServiceStore.Store.LoadService | phase1_local/dev_support.py:133-158 | None exactly for an unknown name; otherwise its row and its metrics, all of them, in label order |
| ServiceStore.GroupByService | phase1_local/dev_support.py:174-176 | grouping in one pass gives every service its rows in the order read |
| ServiceStore.Store.LoadAllServices | phase1_local/dev_support.py:161-187 | every service once, in port order, each with all its metrics in label order |
| ServiceStore.ListingsAgree | phase1_local/dev_support.py:142-150 | two listings of one service hold the same rows and the same labels in the same places, and are equal when labels are distinct |
| ServiceStore.LoadersAgree | phase1_local/dev_support.py:133-187 | each entry of load_all_services is what load_service returns for that name, up to the name column and the order of equal labels |
| ServiceStore.Store.SeedService | phase1_local/dev_support.py:190-196 | succeeds exactly for acceptable metrics and then shows the seeded row and rows; its own RuntimeError cannot happen |
| ServiceStore.DashboardCards | phase1_local/dev_support.py:199-211 | one card per metric of each service in turn, under its own service |
| ServiceStore.CardsShowRegistered | phase1_local/dev_support.py:199-211 | the dashboard shows each stored metric of a registered service exactly as often as it is stored, and no metric of an unregistered one |

## Left out

- SHA-256, Ed25519, base64, PEM and ZIP decompression are parameters or fields of the input; Ed25519 is only assumed to
  accept its own signatures.
- JSON floats, NaN and the infinities, and lone surrogates: the parser reports a text that needs them as not modelled,
  and no value of the model holds them. Python's limits on integer digits and recursion depth.
- LiveEvidence.Mapping: a string that parses to an object with a float in it gives no mapping here, where Python gives
  that object.
- ReleaseAttestation.AttestationStore.Create: evidence files with floats in them are refused here as not modelled.
- Error and reason texts, and the report fields package_id, schema versions, algorithm names and errors; unexpected and
  extra paths are sets, not sorted lists.
- The case that the cryptography package is not installed.
- On the sealing side: normalising values for hashing, the reports and helper files of the archive, the HMAC seal, and
  the refusal of unsafe path segments and of secrets. The manifest and its file entries may hold any further members.
- str.lower is modelled on ASCII letters in `PyText`, which is exact for comparing hex digests; in `LiveEvidence` it is
  a parameter, assumed only to leave lower-case ASCII words alone.
- The clock, freshness and measurement conditions of validate_evidence are one arbitrary predicate, the parameter
  policy; the theorems hold for every choice of it. Its other conditions are modelled.
- Of the two proofs: the alert and incident sub-records, the readiness flags, and every other field the enterprise check
  does not read. The records it does read are datatypes with the fields it reads.
- The chain-independent steps of the two builders: RPC calls, environment variables and failed results.
- JavaScript's UTF-16 strings and the streaming UTF-8 decoder: chunks are texts. JSON.parse is a parameter. Exceptions
  thrown by callbacks other than onEvent, and closing the client during a sleep, which ends the loop as an aborted fetch
  does.
- Trimming of the server's stream: the delivery statements assume that the entry after Last-Event-ID is still there.
- Secrets in object keys: redaction does not look at keys, and neither does the model.
- SQLite itself: each statement is a function on tables, and ORDER BY returns any order of equal keys. Column types, NOT
  NULL and the file path are not modelled.
- load_env_file, resolve_sqlite_path and the mode and URL fields of the dashboard.
- The readiness generators, cross-artifact checks, React screens, proxy and CSP code.
