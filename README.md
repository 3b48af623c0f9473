# bytecode-crosschain-soundness, modelled in Dafny

The program checks that a contract deployed at one address on two chains (a
source and a destination) carries the same bytecode. It reads the code from
each chain's JSON-RPC endpoint at a chosen block and reduces it to a keccak
hex digest. Empty code, or any exception while reading, counts as "absent".
It compares the two digests after lowering both, prints a verdict, and under
`--json` also prints a structured record. It exits 0 on a match. It exits 1
when the address is rejected or an endpoint does not connect. It exits 2 when
a side is absent or the digests differ.

The model is pure. The foreign pieces are parameters:

- `CodeFetcher.Web3` holds the address check (`Web3.is_address`), checksum
  normalisation (`Web3.to_checksum_address`, `None` when it raises) and the
  hex keccak digest.
- `CodeFetcher.Endpoint` is one chain node as a run sees it: the answer of its
  connectivity probe, and its answer to a code read (bytes, or raised).

`Orchestrator.Execute` is `main`. It returns a `Run` with four parts: the
endpoint operations in order (building a provider counts as one, though it
sends nothing), the diagnostics printed, the record if one is emitted, and the
exit status. Modules:

- `Effects`: chains, endpoint operations, printed lines.
- `Comparator`: the case-folding comparison.
- `CodeFetcher`: `get_code_hash`.
- `Orchestrator`: `main`.
- `Wrappers`: `Option`.

Three facts about the flow shape the model:

- Both chains are read before either is checked for absence (app.py:67-75).
- A failed read and empty code both become `None` (app.py:20-25).
  `FailureIndistinguishableFromEmpty` proves that the exit status, the record
  and the final diagnostic are then the same. Only the error line printed for
  the failed read differs.
- A failed source probe exits before the destination is probed (app.py:52-57).

app.py:89 normalises the address again, outside any handler. In the model an
exception there reaches the interpreter (`Traceback`, exit 1). `Execute`
proves this never happens. The same normalisation has already run inside
`get_code_hash`. Had it raised there, the source hash would be absent, and the
run would have exited with 2 before line 89.

## Model

| member | source | states |
|---|---|---|
| Comparator.LowerChar | app.py:80 | a lowered character is never an upper-case letter, and a character changes only if it is one, to the letter 32 code points above |
| Comparator.Lower | app.py:80 | lowering keeps the length of the string |
| Comparator.LowerAt | app.py:80 | each character of the lowered string is the lowered character at the same position |
| Comparator.LowerIsLowerCase | app.py:80 | a lowered string has no upper-case letter, and lowering it again changes nothing |
| Comparator.LowerFixesLowerCase | app.py:80 | lowering leaves an already lower-case string unchanged |
| Comparator.LowerEqualIffSameUpToCase | app.py:80 | two strings lower to the same string exactly when they differ only in letter case |
| Comparator.Matches | app.py:80 | the comparison `a.lower() == b.lower()`: equal hashes match, and matching hashes have the same length |
| Comparator.MatchesReflexive | app.py:80 | every hash matches itself |
| Comparator.MatchesSymmetric | app.py:80 | swapping the two hashes does not change the verdict |
| Comparator.MatchesTransitive | app.py:80 | the match relation is transitive, so with the two above it is an equivalence |
| Comparator.MatchesIgnoresCase | app.py:80 | changing only the letter case of either argument leaves the verdict unchanged |
| Comparator.MatchesIffSameUpToCase | app.py:80 | a match holds exactly when the two hashes differ only in letter case |
| Comparator.MatchesOnLowerCaseIsEquality | app.py:80 | on two lower-case digests a match is plain string equality |
| Comparator.MatchesMixedCaseDigest | app.py:80 | `0xAB01` matches `0xab01`, and `0xab01` does not match `0xab02` |
| CodeFetcher.Observed | app.py:17-19 | bytes are seen exactly when normalisation succeeded and the read of the normalised address at the block returned them; nothing is seen when either raised |
| CodeFetcher.GetCodeHash | app.py:13-25 | the hash is absent exactly when something raised or the code is empty; otherwise it is the digest of exactly the bytes returned; one code read of the normalised address at the given block, none if normalisation raised; one error line exactly when something raised, naming the raw address if normalisation raised and the normalised one if the read raised |
| CodeFetcher.EmptyCodeIsAbsent | app.py:19-21 | zero-length code gives absent and prints no error |
| CodeFetcher.SameBytesSameHash | app.py:19-22 | the same non-empty bytes always give the same hash, whatever endpoint, address or block served them |
| CodeFetcher.FailureLooksLikeEmpty | app.py:17-25 | a fetch that raised gives its caller the same value as a fetch of empty code |
| Orchestrator.Opened | app.py:49-50 | two providers are built, source then destination, each with its own URL and the common timeout; no operation reads anything |
| Orchestrator.SrcFetch | app.py:67 | the source fetch reads at most once, on the source chain at the source block, and has a hash exactly when that chain returned non-empty code |
| Orchestrator.DstFetch | app.py:68 | the destination fetch reads at most once, on the destination chain at the destination block, and has a hash exactly when that chain returned non-empty code |
| Orchestrator.Execute | app.py:40-101 | the exit status is 0, 1 or 2. It is 1 exactly when the address is rejected or a probe fails. It is 0 exactly when both hashes are present and match. It is 2 exactly when the gates pass and a side is absent or the hashes differ. The second normalisation never raises |
| Orchestrator.InvalidAddressStopsEverything | app.py:44-50 | a rejected address gives exit 1 with one diagnostic, no record, and no provider built, probed or read |
| Orchestrator.SourceProbedFirst | app.py:49-54 | after both providers are built, the source is probed first; if it fails the run stops with exit 1, without probing the destination or reading code |
| Orchestrator.DestinationProbedSecond | app.py:52-57 | after a good source probe, a failed destination probe ends the run with exit 1, before any code read |
| Orchestrator.NoReadBeforeConnectivity | app.py:45-68 | unless the address is accepted and both probes succeed, no code is read and no record is emitted |
| Orchestrator.BothFetchesBeforeAbsenceChecks | app.py:66-75 | past the gates, the source fetch and then the destination fetch are both issued, whatever either returns |
| Orchestrator.SourceAbsenceWins | app.py:70-72 | an absent source ends the run with exit 2 and the source's no-code diagnostic, even when the destination is absent too |
| Orchestrator.DestinationAbsence | app.py:73-75 | an absent destination beside a present source ends with exit 2 and the destination's no-code diagnostic, and no verdict is printed |
| Orchestrator.VerdictPrinted | app.py:77-82 | a verdict line appears exactly when both hashes are present, and it carries the comparison result |
| Orchestrator.RecordEmission | app.py:87-99 | a record is emitted exactly when `--json` is set and both hashes are present. It holds the normalised address, the endpoints and blocks as given, and both hashes unchanged. Its match field equals the comparison, and so whether the exit status is 0 |
| Orchestrator.IdenticalCodeExitsZero | app.py:67-101 | identical non-empty code on both chains always gives exit 0 |
| Orchestrator.FetchFailureExitsTwo | app.py:67-75 | a fetch that raises after the gates leads to exit 2 with no record, never to exit 1 |
| Orchestrator.FailureIndistinguishableFromEmpty | app.py:17-25 | a destination whose read raises and one that returns empty code, probed alike, give the same exit status, the same (absent) record and the same final diagnostic; only the error line differs |
| Orchestrator.ExitZeroIffSameBytes | app.py:80-101 | if the digest is printed in lower case and never collides, exit 0 means exactly that both chains returned the same non-empty bytes |

## Left out

- Network I/O: the HTTP provider, the real `is_connected` and the real `get_code` (app.py:49-57, 19). Each endpoint is a fixed probe answer plus a code-read function. Each is asked at most once per run, so a fixed answer loses nothing.
- Keccak-256 and the `.hex()` rendering (app.py:22): a parameter from bytes to text. Nothing is assumed about it, except where a lemma states its assumption (lower case, no collisions).
- `Web3.is_address` and the EIP-55 checksum `Web3.to_checksum_address` (app.py:18, 45, 89): abstract parameters.
- CodeFetcher.GetCodeHash: does not model an exception raised by the keccak call or `.hex()`. Hashing bytes is taken to succeed. Only normalisation and the read can raise.
- Comparator.Lower: lowers ASCII letters only, while `str.lower` also lowers other Unicode letters. A hex digest holds only ASCII.
- Argument parsing and environment defaults (app.py:10-11, 27-38): the model starts from parsed `Args`.
- Timing (app.py:41, 84-85, 97): the `Completed` line and the record leave out the elapsed seconds, a floating-point wall-clock value.
- Message text, emoji and JSON serialisation (app.py:46-99): a `Line` names which diagnostic is printed, not how. `FetchError` keeps the address shown but not the exception text.
- Uncaught exceptions elsewhere (from the probe or from printing): not modelled. The one at app.py:89 is modelled and proved impossible.
