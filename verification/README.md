# SPG: a verified model of the durable write path and the algorithms beside it

This project models the hardest parts of SPG and proves what they promise:

- the write-ahead log: leader-follower group commit, the versioned record
  codec with torn tails and damage, snapshot-plus-floor recovery, the
  transaction buffer with its savepoints, the statement splitter that replays
  a transaction, and the single-slot checkpoint worker;
- the byte-level algorithms under it: CRC-32 and CRC-32C, LZSS, the BLAKE3
  tree, the hash-chained audit log;
- two query-side rewrites: a bare `GROUP BY` turned into a `DISTINCT`, and the
  BRIN bound reader;
- the race guard that elects one leader per key.

Code that mutates state step by step is imperative here: the mutex-guarded
structs are classes whose methods are tied to functions of the old state, and
the loops of the source are loops with invariants. Threads are transition
systems with one step per critical section, and the safety statements are about
every run of such a system. `dafny verify dfyconfig.toml` checks everything.

## How to read it

| files | subject |
|---|---|
| `Wrappers`, `Bytes`, `BitStrings` | optional values, little-endian fields, bit strings |
| `Crc`, `CrcTable`, `CrcOnce` | checksum as polynomial division, table-driven loop, once-initialised table |
| `Lzss`, `LzssCodec` | token semantics and decoder, the two loops of the codec |
| `WalFormat`, `WalCodec`, `WalDamage` | record formats and parser, round trip and torn tails, damage |
| `GroupCommit`, `GroupCommitSafety`, `GroupCommitRuns` | fields and steps, invariants, theorems over runs |
| `Recovery`, `RecoveryLog`, `RecoveryExact`, `RecoveryRuns` | boot, logs as records, history, runs with crashes |
| `EndToEnd` | group commit under recovery |
| `Splitter`, `SplitterLoop`, `SplitterJoin`, `SplitterRoundTrip` | tokens and scan, the loop, scanning inside a longer text, join and split |
| `TxBuffer`, `TxRefinement`, `TxReplay` | buffer and its classifier, marks against copies, what a commit logs |
| `TxEngine`, `TxWords`, `TxNames`, `TxSession`, `TxSessionCases`, `TxLogExact` | the engine's reading of a text, words against tokens, savepoint names, whole sessions, sessions that break, the log alone |
| `CheckpointWorker`, `RaceGuard` | two more state machines |
| `AuditLog`, `AuditProofs` | the log and its file, tamper evidence and canonicity |
| `BareGroup`, `Brin`, `BrinSlots`, `Blake3Tree` | query rewrites, hash tree |

## Where the code falls short of what it promises

Each of these is a proved statement, with the exact condition beside it.

- `flush_now` requires exclusivity in its comment, and nothing in it enforces
  that. Under the contract every theorem on group commit holds. Against it, a
  `flush_now` that runs without interruption breaks the promise if and only if
  some other thread's batch is not all in the file (`GroupCommitRuns.OverlapBreaks`),
  and its Ok over an empty buffer is false if and only if such a batch is not
  synced (`OverlapFlushesNothing`); a leader still in its commit delay does no
  harm. `OverlapReachable` is a nine-step run to a false promise. `flush_now` is
  called from the checkpoint worker (`lib.rs` line 1058) and the background
  flusher (line 3213).
- A leader that panics after it took its batch makes the next leader publish a
  false number if and only if that batch was not all in the file
  (`PanicAfterTakeLosesBatch`).
- Between the snapshot rename and the durable marker, a crash replays commits
  the snapshot already holds. For an engine that records every effect,
  `RecoveryRuns.WindowExactly` says exactly when that is harmless and
  `WindowReachable` is a four-step run where it is not; for an engine that
  absorbs a repeated replay it always is (`AbsorbingIsExact`). A checkpoint that
  fails after its rename leaves this window open until a later marker.
- `compress` saturates its length header, so inputs of 2^32 bytes and more do
  not decode back (`LzssCodec.Compress`, an if-and-only-if).
- A v3 to v6 record whose payload reaches 2^29 bytes spills into the flag bits
  of the length word and is not read back (`WalCodec.ReadableIffSmall`).
- `parse_wal_records` does not check the CRC of v2 to v5 records: no parse of
  such a record depends on the checksum field (`WalDamage.ChecksumIgnored`), so
  a damaged payload is handed out as written (`V3DamageUnseen`, `V4DamageUnseen`).
- Joining and splitting a transaction is exact if and only if every statement
  that a semicolon follows, its own or the separator's, is complete and no COPY
  head (`SplitterRoundTrip.JoinSplits`, and `StandardJoinSplits` for the program's
  own splitter); a trailing line comment merges two statements
  (`TrailingCommentMerges`). Semicolons a text brings along are dropped.
- The transaction buffer classifies a statement by its words, the engine by its
  tokens. For every text the buffer takes the right step if and only if the two
  classes fit (`TxSession.StepExactly`). Texts in plain words always fit
  (`TxWords.PlainAgrees`). A transaction statement behind a comment, classified as
  a write, is a wrong step from some buffer (`TxSessionCases.CommentedStepWrong`;
  classified as a read, all but a RELEASE are), and a COMMIT there is executed and
  not logged (`CommentedCommitLoses`).
- The buffer keys savepoints by the lower-cased word, the engine by identifier
  without schema. The buffer follows the engine if and only if both tell the
  same spellings apart (`TxRefinement.FollowsIffCoherent`). Bare identifiers are
  safe, and `TxNames.NamesFollowIff` gives the exact condition on any other
  spelling beside them: a schema (`SchemaBreaks`), a comment written against the
  name (`GluedCommentBreaks`) and quotes (`AliasBreaks`, `CaseBreaks`) violate it.
- A statement is clean if it is not a BEGIN that meets an open transaction with
  work or a savepoint (`TxSessionCases.NestedBeginLoses`), not a COMMIT that meets
  an aborted one with work (`AbortedCommitLogs`), and does not fail with its
  transaction dropped (`FailedCommitHides`). The first two are guards on the state
  before the statement; the third is an outcome, that of a COMMIT whose deferred
  checks fail (`transaction.rs` lines 695-720) or of a caught panic. In a session
  whose statements both sides classify and name alike, log and buffer together,
  marks included, agree with the engine at every point if and only if every
  statement is clean (`TxSession.SessionInStep`). For the log alone cleanness is
  sufficient and, for one session, not necessary (`TxLogExact.UncleanMayStayExact`:
  the lost work may be rolled back). It is necessary for what may follow: the log
  holds exactly the committed transactions at every point and after every clean
  continuation from there if and only if every statement is clean
  (`TxLogExact.SessionLogExact`).
- A BRIN column of dates bounded by a timestamp literal, or the reverse,
  compares raw days with raw microseconds. `Brin.SoundIffFaithful` gives the
  exact condition on the literal; `BrinSlots.CrossKindLosesRow` a lost row.
- The BRIN reader matches a column by its name alone. A column of that name in
  another relation bounds this one soundly if and only if the two numbers are
  equal (`Brin.NameBoundsIff`).
- A second `publish_and_remove`, which its documentation calls harmless, keeps
  the table right if and only if its key has no entry
  (`RaceGuard.SecondRemovalHarmlessIff`); otherwise it deletes the entry of the
  next generation (`SecondRemovalBreaks`), and `SecondRemovalReachable` is a run
  to that point.

## Model

| member | source | states |
|---|---|---|
| `Crc.TableStep` | crates/spg-crypto/src/crc32c.rs:45-48 | eight shifts of a register equal one table entry xor the register shifted by a byte, by linearity |
| `Crc.ChecksumIsRemainder` | crates/spg-crypto/src/crc32c.rs:62-70 | the checksum is the complement of the GF(2) remainder of the message times x^32, first 32 bits complemented, for every byte string and both generators |
| `Crc.PolynomialsInvertible` | crates/spg-crypto/src/crc32c.rs:21-21 | both reflected polynomials have their top bit, which makes the shift step invertible |
| `Crc.BurstDetected` | crates/spg-crypto/src/crc32c.rs:62-70 | two messages of one length that differ only within 32 consecutive bits and have the same checksum are equal |
| `CrcTable.BuildEntry` | crates/spg-crypto/src/crc32c.rs:44-48 | the inner loop computes eight shifts of its index |
| `CrcTable.BuildTable` | crates/spg-crypto/src/crc32.rs:43-49 | after the nested loop every slot of the array holds its entry |
| `CrcTable.TableLookup` | crates/spg-crypto/src/crc32c.rs:65-66 | one lookup and byte shift equals eight single-bit shifts |
| `CrcTable.TableChecksum` | crates/spg-crypto/src/crc32.rs:62-70 | the table-driven loop equals the bit-at-a-time checksum and the polynomial remainder for every input |
| `CrcOnce.StepKeepsInv` | crates/spg-crypto/src/crc32c.rs:34-58 | each step of any thread keeps: one builder at most, filled prefix correct, READY only with the whole table |
| `CrcOnce.ReadersSeeFullTable` | crates/spg-crypto/src/crc32c.rs:34-58 | in every interleaving a caller that returned from `ensure_table` sees the finished table |
| `Lzss.DecodeSound` | crates/spg-crypto/src/lzss.rs:106-157 | on arbitrary bytes a successful decode has exactly the declared length and is the expansion of a token list whose references stay in bounds |
| `Lzss.DecodeAllSound` | crates/spg-crypto/src/lzss.rs:106-157 | the same for a whole stream, the length read from its header |
| `Lzss.DecodeEncoded` | crates/spg-crypto/src/lzss.rs:106-157 | a framed token list decodes to its expansion if and only if the length fits 32 bits, overlapping references included |
| `Lzss.FramesSize` | crates/spg-crypto/src/lzss.rs:59-103 | the frames never exceed the bytes they stand for plus one flag byte per eight tokens |
| `LzssCodec.LongestMatchUnique` | crates/spg-crypto/src/lzss.rs:164-191 | the longest match with the farthest offset is unique, so the search is determined |
| `LzssCodec.FindLongestMatch` | crates/spg-crypto/src/lzss.rs:164-191 | the nested loop returns the longest match in the window, the farthest among equals, or none |
| `LzssCodec.GreedyExpands` | crates/spg-crypto/src/lzss.rs:59-103 | the greedy parse of any input expands back to that input |
| `LzssCodec.Compress` | crates/spg-crypto/src/lzss.rs:59-103 | the output decodes to the input if and only if the input is shorter than 2^32 bytes, is at most 4 + n + ceil(n/8) bytes, and is the framed greedy parse |
| `LzssCodec.Decompress` | crates/spg-crypto/src/lzss.rs:106-157 | the loop over flag bytes and bits equals the specified decoder on every input, errors included |
| `WalFormat.ParseWalRecords` | crates/spg-embedded/src/lib.rs:2361-2546 | the cursor loop equals the recursive parser: records up to a stop, or the first corruption |
| `WalCodec.ParseEncoded` | crates/spg-embedded/src/lib.rs:1962-2000 | every writable v3, v4, v4-marker and v6 record is read back with its LSN, timestamp, previous LSN and payload, whatever follows it |
| `WalCodec.ReadableIffSmall` | crates/spg-embedded/src/lib.rs:1904-1925 | a well-shaped record is read back if and only if its payload is shorter than 2^29 bytes |
| `WalCodec.ParseTorn` | crates/spg-embedded/src/lib.rs:2097-2161 | every proper prefix of a record stops the parser without an error |
| `WalCodec.TornTail` | crates/spg-embedded/src/lib.rs:2361-2546 | parsing any byte prefix of a mixed log gives exactly the records wholly inside it |
| `WalDamage.ChecksumCatches` | crates/spg-embedded/src/lib.rs:2110-2161 | two bodies that differ within four consecutive bytes never share a CRC-32C |
| `WalDamage.DamageStops` | crates/spg-embedded/src/lib.rs:2110-2161 | a v6 record with such a changed body stops the parser |
| `WalDamage.DamageContained` | crates/spg-embedded/src/lib.rs:2374-2383 | the parser then returns exactly the records before the damaged one |
| `WalDamage.ChecksumIgnored` | crates/spg-embedded/src/lib.rs:2361-2546 | from v2 to v5 what is parsed depends neither on the checksum field nor on any checksum function |
| `WalDamage.V3DamageUnseen` | crates/spg-embedded/src/lib.rs:2361-2546 | a v3 record whose payload was replaced by any other of its length parses to the damaged payload |
| `WalDamage.V4DamageUnseen` | crates/spg-embedded/src/lib.rs:2361-2546 | so does a v4 or v5 record, LSN and time stamp included |
| `GroupCommit.WalGroupState.Enqueue` | crates/spg-embedded/src/lib.rs:571-576 | appends the record, counts it and returns its ticket |
| `GroupCommit.WalGroupState.Check` | crates/spg-embedded/src/lib.rs:580-612 | the verdict for a ticket in the order of the tests, electing a leader when it says so |
| `GroupCommit.WalGroupState.TakeBatch` | crates/spg-embedded/src/lib.rs:614-617 | hands over the whole buffer with the last sequence number and leaves it empty |
| `GroupCommit.WalGroupState.DropGuard` | crates/spg-embedded/src/lib.rs:514-528 | clears only the leader flag |
| `GroupCommit.WalGroupState.Publish` | crates/spg-embedded/src/lib.rs:640-662 | publishes the flushed number or poisons the group, and clears the flag for a leader |
| `GroupCommitSafety.KeepsControl` | crates/spg-embedded/src/lib.rs:571-719 | every step keeps: one thread in its I/O window, the leader flag exact, lock owners exact, tickets in range, parked followers have a waker |
| `GroupCommitSafety.KeepsAccounted` | crates/spg-embedded/src/lib.rs:571-719 | every step keeps the byte invariant that places each record in the file, the batch in flight or the buffer |
| `GroupCommitRuns.Conservation` | crates/spg-embedded/src/lib.rs:571-710 | in every run written bytes, the batch in flight and the buffer are together all records in order |
| `GroupCommitRuns.AckedSurvivesCrash` | crates/spg-embedded/src/lib.rs:580-662 | whatever a crash keeps between synced and written is a prefix of the log that holds every acknowledged record |
| `GroupCommitRuns.OkMeansSynced` | crates/spg-embedded/src/lib.rs:580-612 | `wait_flushed` answers Ok only for a record that is synced |
| `GroupCommitRuns.FlushOkMeansSynced` | crates/spg-embedded/src/lib.rs:668-710 | `flush_now`, under its contract, answers Ok only when all it covered is synced |
| `GroupCommitRuns.PoisonIsSticky` | crates/spg-embedded/src/lib.rs:580-710 | after a failed flush neither `wait_flushed` nor `flush_now` is ever answered Ok again, and nothing more is published |
| `GroupCommitRuns.LeaderCoversItself` | crates/spg-embedded/src/lib.rs:613-662 | a leader whose flush succeeded covers its own ticket, which is never led again |
| `GroupCommitRuns.FileHolderMoves` | crates/spg-embedded/src/lib.rs:618-631 | the thread that holds the file lock can always go on without the state lock |
| `GroupCommitRuns.RunNeverStuck` | crates/spg-embedded/src/lib.rs:514-719 | in every reachable state with a blocked thread some thread can move: no deadlock, no lost wakeup |
| `GroupCommitRuns.OverlapBreaks` | crates/spg-embedded/src/lib.rs:668-710 | an uninterrupted `flush_now` over a non-empty buffer makes a false promise if and only if another thread's batch is not all in the file |
| `GroupCommitRuns.OverlapFlushesNothing` | crates/spg-embedded/src/lib.rs:668-680 | its Ok over an empty buffer is false if and only if another thread's batch is in flight and not synced |
| `GroupCommitRuns.OverlapReachable` | crates/spg-embedded/src/lib.rs:571-710 | nine steps from the start, one of them against the contract, reach a false promise |
| `GroupCommitRuns.PanicAfterTakeLosesBatch` | crates/spg-embedded/src/lib.rs:514-528 | after a panic between take and publication the next leader publishes a false number if and only if the lost batch was not all in the file |
| `Recovery.ScanFloor` | crates/spg-embedded/src/lib.rs:3089-3105 | the highest LSN of a checkpoint marker in any readable chunk |
| `Recovery.ReplayFiltered` | crates/spg-embedded/src/lib.rs:1314-1455 | applies, in order, exactly the data records above the floor |
| `Recovery.OpenPath` | crates/spg-embedded/src/lib.rs:3089-3124 | floor over all chunks, then replay chunk by chunk |
| `RecoveryLog.BootsFromImage` | crates/spg-embedded/src/lib.rs:3089-3124 | booting from cut chunks replays the surviving records above their floor |
| `RecoveryExact.ReplayIsApplyAbove` | crates/spg-embedded/src/lib.rs:1314-1455 | replaying a well-formed log applies the commits above the floor, each once, in order |
| `RecoveryRuns.KeepsInv` | crates/spg-embedded/src/lib.rs:948-1082 | every step of commits, syncs and the checkpoint job, a job that fails after its rename included, keeps log, snapshot and floor consistent |
| `RecoveryRuns.RecoveryIsExact` | crates/spg-embedded/src/lib.rs:948-1082 | for every engine, run and crash that keeps the snapshot's marker, recovery is the state after commits 1..m with m covering every acknowledged one |
| `RecoveryRuns.WindowExactly` | crates/spg-embedded/src/lib.rs:988-1058 | for the engine that records every effect and distinct commits: recovery is a committed prefix if and only if the floor equals the snapshot's LSN or nothing above the floor was kept |
| `RecoveryRuns.WindowReachable` | crates/spg-embedded/src/lib.rs:988-1058 | commit, sync, capture, rename, then a crash that loses nothing: that engine recovers to no committed prefix |
| `RecoveryRuns.AbsorbingIsExact` | crates/spg-embedded/src/lib.rs:988-1058 | an engine that absorbs a repeated replay recovers, from every crash, to the later of the snapshot and the kept commits |
| `RecoveryRuns.CollectorAbsorbs` | crates/spg-embedded/src/lib.rs:1314-1455 | such engines exist: one that only adds |
| `EndToEnd.StepLinks` | crates/spg-embedded/src/lib.rs:571-719 | every step of group commit is a commit, marker, sync, acknowledgement or rotation of the log of records, or none of it |
| `EndToEnd.AnsweredCommitsSurvive` | crates/spg-embedded/src/lib.rs:571-719 | over every joint run of threads, checkpoints and rotations: whatever bytes a crash keeps between synced and written, booting from the chunk files gives commits 1..m with m covering every answered ticket, when the marker is kept |
| `EndToEnd.OpenWhole` | crates/spg-embedded/src/lib.rs:618-719 | while the file lock is free and no flush has failed, the open chunk ends with a whole record and all of it is synced, which is what makes a rotation safe |
| `SplitterLoop.EndOfString` | crates/spg-embedded/src/lib.rs:5922-5952 | the closing quote of a plain or escape string, doubled quotes and backslashes skipped |
| `SplitterLoop.EndOfBlock` | crates/spg-embedded/src/lib.rs:5991-6014 | the end of a nested block comment |
| `SplitterLoop.CopyBlock` | crates/spg-embedded/src/lib.rs:6037-6058 | the data lines of a COPY up to its terminator line or the end |
| `SplitterLoop.SplitStatements` | crates/spg-embedded/src/lib.rs:5899-6082 | the whole index loop equals the token-by-token scan on every script |
| `SplitterJoin.LexSeated` | crates/spg-embedded/src/lib.rs:5913-6081 | a token that ends inside a statement is the same token when the statement stands in a longer script; an open one runs past it |
| `SplitterJoin.StatementIffWhole` | crates/spg-embedded/src/lib.rs:5899-6082 | a text without COPY head comes back whole if and only if it has content and no separator or meta-command |
| `SplitterRoundTrip.JoinSplits` | crates/spg-embedded/src/lib.rs:3986-3986 | splitting the joined script of texts, their own semicolons and blanks included, gives their statements if and only if all that a semicolon follows are complete and not COPY heads, dialect switches followed |
| `SplitterRoundTrip.PlainJoinSplits` | crates/spg-embedded/src/lib.rs:5899-6082 | the same for texts that do not switch the dialect, statement by statement |
| `SplitterRoundTrip.StandardJoinSplits` | crates/spg-embedded/src/lib.rs:5899-6082 | for the program's own COPY and dialect tests: split gives the statements of the joined texts if and only if all that a semicolon follows are complete and not COPY heads, when no statement turns the dialect on |
| `SplitterRoundTrip.LedAt` | crates/spg-embedded/src/lib.rs:3986-3986 | the expected list has the statements in order, each but the first behind one line feed |
| `SplitterRoundTrip.TrailingCommentMerges` | crates/spg-embedded/src/lib.rs:5986-5990 | in the program's own splitter a trailing line comment makes the split differ |
| `TxBuffer.Session.AfterOk` | crates/spg-embedded/src/lib.rs:3969-4035 | the buffer and the logged record after an accepted statement, auto-commit included |
| `TxWords.PlainNext` | crates/spg-sql/src/lexer.rs:559-800 | in a text of plain words the next token is the next word of the buffer's classifier |
| `TxWords.PlainAgrees` | crates/spg-embedded/src/lib.rs:2709-2741 | on every such text the buffer's class is the engine's reading, names included |
| `TxNames.KeyOfSavepoint` | crates/spg-embedded/src/lib.rs:2715-2724 | `SAVEPOINT w` for any text `w`: the engine reads the identifier in it, the buffer its first word |
| `TxNames.KeyOfRollback` | crates/spg-embedded/src/lib.rs:2726-2736 | the same for `ROLLBACK TO SAVEPOINT w` |
| `TxNames.KeyOfShortRollback` | crates/spg-embedded/src/lib.rs:2726-2736 | the same for `ROLLBACK TO w`, unless the word is the keyword |
| `TxNames.SessionTakesStep` | crates/spg-embedded/src/lib.rs:3997-4035 | on each such text the session's buffer takes exactly the step that the refinement is about |
| `TxSession.StepExactly` | crates/spg-embedded/src/lib.rs:3997-4035 | for every statement text the buffer's step and record are right on every buffer if and only if its class fits what the engine reads |
| `TxSession.StepStays` | crates/spg-embedded/src/lib.rs:3969-4035 | one statement keeps engine, buffer and log in step if and only if it is clean: no dropped transaction, no BEGIN over work, no COMMIT of aborted work |
| `TxSession.SessionInStep` | crates/spg-engine/src/execute.rs:2143-2163 | over whole sessions with nested, aborted and dropped transactions: log and buffer together, marks included, agree with the engine at every point if and only if every statement is clean |
| `TxLogExact.CleanIffExact` | crates/spg-embedded/src/lib.rs:3969-4035 | from a point in step, the log stays exact over every clean continuation after one more statement if and only if that statement is clean |
| `TxLogExact.SessionLogExact` | crates/spg-engine/src/execute.rs:2143-2163 | the log holds exactly the committed transactions at every point of a session and after every clean continuation from there if and only if every statement is clean, when each savepoint can be rolled back to |
| `TxLogExact.PlainLogExact` | crates/spg-embedded/src/lib.rs:3969-4035 | the same for every session in plain words, without a condition on names |
| `TxLogExact.UncleanMayStayExact` | crates/spg-engine/src/execute.rs:3195-3237 | BEGIN, statement, BEGIN, ROLLBACK: the second BEGIN is not clean and the log is exact throughout |
| `TxSessionCases.PlainSession` | crates/spg-embedded/src/lib.rs:3969-4035 | log and buffer together, for every session in plain words, without a condition on names |
| `TxSessionCases.OrdinaryAgrees` | crates/spg-embedded/src/lib.rs:2709-2741 | a statement that opens with any other word is ordinary to both sides |
| `TxSessionCases.NestedBeginLoses` | crates/spg-engine/src/execute.rs:3195-3237 | BEGIN, statement, BEGIN, COMMIT: committed and not logged |
| `TxSessionCases.AbortedCommitLogs` | crates/spg-engine/src/execute.rs:2150-2160 | BEGIN, statement, failed statement, COMMIT: rolled back and logged |
| `TxSessionCases.FailedCommitHides` | crates/spg-engine/src/transaction.rs:695-720 | after a COMMIT that failed the next statement is committed and not logged |
| `TxSessionCases.CommentHides` | crates/spg-sql/src/lexer.rs:592-680 | the engine reads through a leading comment, the buffer classifies nothing behind it |
| `TxSessionCases.CommentedStepWrong` | crates/spg-embedded/src/lib.rs:3997-4035 | behind a comment the buffer's step or record is wrong on some buffer if and only if the statement is a transaction statement, and, for a RELEASE, is classified as a write |
| `TxSessionCases.CommentedCommitLoses` | crates/spg-embedded/src/lib.rs:3997-4035 | a COMMIT behind a comment: committed and not logged |
| `TxRefinement.RunRelated` | crates/spg-engine/src/transaction.rs:1205-1311 | over every run the live savepoints are, in order, among the marks and every copy is the prefix its mark gives |
| `TxRefinement.FollowsIffCoherent` | crates/spg-embedded/src/lib.rs:2691-2741 | the buffer equals what full copies restore, over all runs, if and only if keys and names tell the same spellings apart |
| `TxReplay.EngineIsFold` | crates/spg-engine/src/transaction.rs:1205-1311 | at every point the engine's state is its base with the surviving statements applied |
| `TxReplay.CommitLogsSurvivors` | crates/spg-embedded/src/lib.rs:3978-3995 | COMMIT logs exactly the surviving statements joined, and applying them to the base gives the committed state |
| `TxNames.NamesFollowIff` | crates/spg-sql/src/parser.rs:2110-2157 | all bare names and any other accepted spellings follow if and only if the others are told apart alike and each that meets a bare name on one side has that name on both |
| `TxNames.BareNamesFollow` | crates/spg-sql/src/parser.rs:2110-2157 | with unreserved identifiers alone the buffer always follows |
| `TxNames.SchemaBreaks` | crates/spg-sql/src/parser.rs:2135-2157 | a name with and without a schema breaks it |
| `TxNames.GluedCommentBreaks` | crates/spg-embedded/src/lib.rs:2710-2713 | a name with and without a comment written against it breaks it |
| `TxNames.AliasBreaks` | crates/spg-embedded/src/lib.rs:2715-2741 | a bare spelling and its quoted one break it |
| `TxNames.CaseBreaks` | crates/spg-embedded/src/lib.rs:2715-2741 | two quoted spellings that differ in case break it |
| `CheckpointWorker.CheckpointState.TryEnqueue` | crates/spg-embedded/src/lib.rs:875-887 | delivers a stored error first, skips when busy, accepts otherwise |
| `CheckpointWorker.CheckpointState.CheckIdle` | crates/spg-embedded/src/lib.rs:891-901 | one pass of `wait`: keep waiting while busy, else take the error |
| `CheckpointWorker.CheckpointState.Take` | crates/spg-embedded/src/lib.rs:921-935 | parks, exits or takes the pending job in flight |
| `CheckpointWorker.CheckpointState.Finish` | crates/spg-embedded/src/lib.rs:936-944 | clears the flight and stores a failure |
| `CheckpointWorker.CheckpointState.Close` | crates/spg-embedded/src/lib.rs:904-911 | sets the shutdown flag and nothing else |
| `CheckpointWorker.KeepsInv` | crates/spg-embedded/src/lib.rs:834-946 | every step, spurious wakeups included, keeps order, errors and wakeups |
| `CheckpointWorker.JobsRunOnceInOrder` | crates/spg-embedded/src/lib.rs:834-946 | finished jobs are a prefix of accepted ones, at most one behind, and all of them once the worker exits |
| `CheckpointWorker.ShutdownDrains` | crates/spg-embedded/src/lib.rs:904-935 | a job pending at shutdown is done before the worker exits |
| `CheckpointWorker.WaitMeansDone` | crates/spg-embedded/src/lib.rs:891-901 | when `wait` returns every accepted job is done and every failure received |
| `CheckpointWorker.FailuresReachACaller` | crates/spg-embedded/src/lib.rs:871-944 | failures are received in order, at most one outstanding and only while the worker is idle |
| `CheckpointWorker.WorkerNeverStuck` | crates/spg-embedded/src/lib.rs:834-946 | while anyone waits the worker can step, and each step brings it closer to idle |
| `AuditLog.Log.Append` | crates/spg-audit/src/lib.rs:103-116 | adds one entry with the text, time and returned hash, and keeps the chain |
| `AuditLog.Log.Verify` | crates/spg-audit/src/lib.rs:122-141 | Ok if and only if every link holds, else the first fault |
| `AuditLog.Log.Serialize` | crates/spg-audit/src/lib.rs:144-152 | header and every entry in order |
| `AuditProofs.TamperEvident` | crates/spg-audit/src/lib.rs:201-208 | two verifying logs with the same last hash are equal, or two of their entries collide and all after those agree |
| `AuditProofs.ChangeShows` | crates/spg-audit/src/lib.rs:122-141 | if no entry of the one collides with an entry of the other, two different verifying logs end in different hashes |
| `AuditProofs.Deserialize` | crates/spg-audit/src/lib.rs:171-198 | the offset loop equals the specified reader, errors included |
| `AuditProofs.DecodeEncoded` | crates/spg-audit/src/lib.rs:210-256 | an encoded entry is read back whatever follows |
| `AuditProofs.EncodeDecoded` | crates/spg-audit/src/lib.rs:220-256 | whatever is read was written by the encoder |
| `AuditProofs.Canonical` | crates/spg-audit/src/lib.rs:171-198 | a file reads as a log if and only if it is that log's serialisation and the log verifies |
| `AuditProofs.AppendIsReserialise` | crates/spg-audit/src/lib.rs:154-158 | appending one encoded entry equals writing the longer log |
| `AuditProofs.CutFile` | crates/spg-audit/src/lib.rs:171-256 | a cut inside the header is refused, a cut between entries leaves the log up to it, any other cut gives Truncated |
| `BareGroup.AsDistinct` | crates/spg-engine/src/baregroup.rs:36-89 | rewrites if and only if the gate holds, changing two fields |
| `BareGroup.RewriteKeepsMeaning` | crates/spg-engine/src/baregroup.rs:36-89 | for every table and deterministic meaning both spellings return the same rows in the same order |
| `BareGroup.NoRepeats` | crates/spg-engine/src/baregroup.rs:85-88 | no two result rows agree in every column |
| `BareGroup.SortKeysConstant` | crates/spg-engine/src/baregroup.rs:76-84 | every ORDER BY key, position or expression, is constant on a group |
| `BareGroup.AllKeysNeeded` | crates/spg-engine/src/baregroup.rs:69-74 | when only keys are projected the spellings agree on all tables if and only if every key is projected |
| `Brin.ReadBounds` | crates/spg-engine/src/brin.rs:56-96 | the stack walk ends and computes the tightest bounds of the AND-chain, in whatever order |
| `Brin.SoundIffFaithful` | crates/spg-storage/src/lib.rs:5366-5375 | a literal's scalar bounds a column soundly if and only if it is faithful to the column's kind |
| `Brin.NameBoundsIff` | crates/spg-engine/src/brin.rs:99-118 | comparisons with a same-named column of another relation bound this one soundly if and only if the two numbers are equal |
| `Brin.BoundsAreSound` | crates/spg-engine/src/brin.rs:56-119 | a row on which the predicate is TRUE in three-valued logic has its scalar within the bounds, when every bounding comparison is with this column |
| `BrinSlots.SummariesFor` | crates/spg-storage/src/table.rs:2614-2634 | summaries cover every scalar of their block and both ends are attained |
| `BrinSlots.Insert` | crates/spg-storage/src/table.rs:1746-1757 | widening keeps the summaries covering |
| `BrinSlots.CandidateSlots` | crates/spg-storage/src/table.rs:930-964 | the ranges are ascending, separate and hold exactly the rows of kept blocks |
| `BrinSlots.NoMatchPruned` | crates/spg-engine/src/brin.rs:33-48 | no matching row is in a pruned block, NULLs included |
| `BrinSlots.CrossKindLosesRow` | crates/spg-engine/src/brin.rs:56-96 | a date column against a timestamp literal loses a matching row |
| `Blake3Tree.HashChunk` | crates/spg-crypto/src/lib.rs:320-352 | the block loop makes the specified calls with their lengths, counters and flags |
| `Blake3Tree.LargestPowerOfTwo` | crates/spg-crypto/src/lib.rs:390-394 | r is the power of two with r <= n < 2r |
| `Blake3Tree.LeavesAreChunks` | crates/spg-crypto/src/lib.rs:375-387 | the leaves of the recursion are the consecutive 1024-byte chunks with counters 0, 1, 2, ... |
| `Blake3Tree.BuiltIsBalanced` | crates/spg-crypto/src/lib.rs:375-387 | every left subtree has a power of two of chunks, no fewer than its non-empty right sibling |
| `Blake3Tree.BalancedUnique` | crates/spg-crypto/src/lib.rs:369-387 | the leaves determine such a tree |
| `Blake3Tree.HashIsTreeHash` | crates/spg-crypto/src/lib.rs:397-413 | the hash is that of the one left-balanced tree over the chunks (section 2.1 of the BLAKE3 specification), compressions included |
| `Blake3Tree.OneRoot` | crates/spg-crypto/src/lib.rs:397-413 | exactly one compression carries ROOT, the last |
| `RaceGuard.Guard.LookUp` | crates/spg-embedded-tokio/src/race_guard.rs:178-193 | the existing entry, or a new generation that is registered and counted |
| `RaceGuard.Guard.Remove` | crates/spg-embedded-tokio/src/race_guard.rs:201-206 | drops the entry of one key and nothing else |
| `RaceGuard.KeepsInv` | crates/spg-embedded-tokio/src/race_guard.rs:178-206 | the entries are exactly the unfinished races, one per key |
| `RaceGuard.OneLeaderPerKey` | crates/spg-embedded-tokio/src/race_guard.rs:178-193 | a key never has two unfinished leaders; first plus existing lookups are all lookups |
| `RaceGuard.RemovalIsOwn` | crates/spg-embedded-tokio/src/race_guard.rs:201-206 | a removal never deletes another generation's entry |
| `RaceGuard.SubscribersAgree` | crates/spg-embedded-tokio/src/race_guard.rs:112-125 | what a subscriber returns is the value its own generation's leader sent |
| `RaceGuard.SecondRemovalHarmlessIff` | crates/spg-embedded-tokio/src/race_guard.rs:195-206 | repeating the removal of a finished generation keeps the table right if and only if its key has no entry |
| `RaceGuard.SecondRemovalBreaks` | crates/spg-embedded-tokio/src/race_guard.rs:195-206 | otherwise the next lookup elects a second leader beside the one at work |
| `RaceGuard.SecondRemovalReachable` | crates/spg-embedded-tokio/src/race_guard.rs:195-206 | a run reaches such a state |

## Left out

- Files, fsync, rename, clocks, environment variables, thread spawning, logging and metrics: the disk is a byte sequence with a synced prefix, time stamps are parameters.
- `Engine::execute`, the redo codec, snapshot serialisation and cold segments: the engine is a deterministic `apply` on an abstract state.
- `Recovery.ReplayFiltered`: statements that fail on replay, redo decode errors, non-UTF-8 scripts and quarantine are not modelled, because the engine is a total `apply`.
- `Recovery.OpenPath`: the same, for the boot that calls it.
- `replay_wal_into_engine`, the old single-file log, retention, archive and path locks.
- `CrcOnce.StepKeepsInv`: steps are sequentially consistent; that the release store of READY publishes the relaxed stores before it is assumed.
- `CrcOnce.ReadersSeeFullTable`: assumes the same pairing of release and acquire.
- `GroupCommit.WalGroupState.Publish`: the `written_len` counter, which only feeds the auto-checkpoint trigger.
- `GroupCommitRuns.RunNeverStuck`: runs respect the exclusivity contract of `flush_now`, and a leader panics only before it takes its batch; both limits are shown to be needed.
- `RecoveryRuns.RecoveryIsExact`: one crash only, since `open_path` appends after a torn tail instead of cutting it.
- `EndToEnd.StepLinks`: no rotation after a failed flush, when the file may end inside a record (the default policy stops the process there).
- The auto-checkpoint trigger and its adaptive threshold.
- `SplitterRoundTrip.StandardJoinSplits`: whether the COPY parser claims a statement is a parameter; the lowering of COPY data to INSERTs is not modelled.
- `TxSession.SessionInStep`: the PostgreSQL dialect only, where a nested BEGIN is a no-op; whether a statement succeeds, and whether its text is classified as a read, are parameters. The prepared path, which classifies a rendering of the statement instead of its text, is not modelled.
- `TxNames.NamesFollowIff`: optimiser-hint comments and the list of reserved words are parameters.
- `SET LOCAL` undo marks, role shadows and rebasing of transactions.
- `CheckpointWorker.KeepsInv`: a job that panics instead of failing.
- `AuditLog.Log.Serialize`: the length-overflow error, which needs an offset beyond the address space; the hash is any function to 32 bytes, UTF-8 validity any predicate.
- `Blake3Tree.HashIsTreeHash`: the compression function itself, the keyed and derive-key modes, the conversion of words to bytes.
- `BareGroup.RewriteKeepsMeaning`: volatile expressions; LIMIT and the order among equal sort keys.
- `Brin.BoundsAreSound`: a column is matched by name alone, as in the code, so the theorem asks that the bounding comparisons mean this column, which `Brin.NameBoundsIff` shows to be needed; the 64-bit overflow of lifting a far date to a timestamp is not modelled.
- `BrinSlots.NoMatchPruned`: bounding comparisons mean this column, as in `Brin.BoundsAreSound`; not modelled are updates in place and deletions, which leave summaries wide.
- `RaceGuard.SubscribersAgree`: delivery. Whether a value reaches a channel without receivers is a property of the channel library, so each send may or may not be heard.
- SHA-256, HMAC, PBKDF2, base64, access control, byte budgets, the typed-row macros and the rest of the async wrapper: only easy members would be added.
