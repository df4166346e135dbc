# A verified model of the GoodiesDB server

GoodiesDB is an in-memory key-value server that speaks RESP2, keeps an append-only log of its
changes, and carries publish/subscribe messages. This project models three connected parts of it
and proves, for every input and every run, what they promise.

**Store, log and recovery.** Each mutating operation changes one of sixteen maps of typed values
and sends normalised entries into a bounded channel, from which a writer appends them to a file.
On start the file is parsed and every entry is carried out on an empty store. `Keyspace` states
each operation as a function of a database and the time; `StoreHeap` has the same operations as
methods over `Value` objects and list windows on shared backing arrays, proved against those
functions. `Simulation` and `Recovery` relate a live run to the replay of its log; `LogFile` and
`Durability` carry that down to bytes, torn files and crashes, `TornAppend` and `TornSwallow` to
what is appended after a crash; `Restart`, `Idempotence` and `SecondStart` say what a start from the log does to the
file and when a second start completes and is harmless.

**RESP2 codec.** `Resp` is the printer and the recursive parser as functions, `RespCodec` the
writer and reader as methods over a byte stream, and `RespTorn` the parser on encodings cut short.
The header reader accepts blanks, a sign, digits, blanks and then a newline *or the end of the
input*, as the formatted scan it models does.

**Publish/subscribe.** `Subscriptions`, `Publishing` and `PubSub` are the broker: two tables of
subscriber sets and one bounded delivery channel per connection. `Connections` is a step system in
which many handlers run command scripts while publishers and writers interleave; `ConnectionRuns`
and `ConnectionCommands` state what every run keeps and what a finished command has done.

| file | contents |
|---|---|
| `Base`, `Decimal`, `Fields`, `Entries` | 64-bit arithmetic, decimal numerals, field maps as sorted pairs, log entries |
| `Keyspace`, `StoreLaws`, `Slices`, `StoreHeap` | the operations as functions, what each of them does, slices, the store as objects |
| `FormatLaws` | decimals, names, entries and the wire spelled out |
| `Replay`, `AofFile` | decoding and dispatching entries, as functions and as methods |
| `Simulation`, `Recovery`, `MovingClock` | live run against replay, at one instant and under a moving clock |
| `Resp`, `RespTorn`, `RespCodec` | the wire format |
| `LogFile`, `Durability`, `TornAppend`, `TornSwallow`, `Restart`, `Idempotence`, `SecondStart` | files, crashes, restarts |
| `EndToEnd` | live store, file, crash and rebuilt store as objects |
| `ListLaws`, `HashLaws`, `Scan` | laws of lists, hashes, counters and SCAN |
| `PushFrames`, `Subscriptions`, `Publishing`, `PubSub` | the broker |
| `Connections`, `ConnectionRuns`, `ConnectionCommands` | subscriber mode and delivery over whole runs |

A byte is a number below 256 and a Go string a sequence of bytes. Time is an argument of each
operation; a deadline is an optional point in time. Where the system panics (a database index out
of range in a log, a negative length on the wire, slice bounds in SCAN, a send on a closed
channel) the model has an outcome for it, and the proofs say when it is reached. Map iteration is
a choice of any order.

## Where the code and its promises differ

* The architecture notes say the log replays losslessly. There are two exceptions. When HSET or HDEL
  meets an expired key the old value is dropped without an entry, so replay keeps it or its deadline:
  `Recovery.RecoveryExactly` gives the exact condition and `Recovery.ExpiredHashReturns` a concrete
  run. And a PX so large that its seconds, read back, wrap into the past while the live time to live
  does not leaves a key that is live in one store and expired in the other; the data is still equal,
  but a RENAME then makes it differ (`Recovery.BackdatedDiverges`, concretely
  `Recovery.HugePxDiverges`). The opposite wrap, into the past on the live side only, is harmless and
  covered by the theorems. `Simulation.StepExactly` says that these two are the only ways out of step.
* Recovery runs before anything drains the log channel, so it blocks on a log of more than 100
  entries (`Restart.BootsExactly`), and a successful start appends as many entries again, the log
  itself unless a time to live does not fit a duration (`Restart.RestartDoublesFile`). A second start
  therefore blocks on a log of more than 50 SETs (`SecondStart.SecondStartBlocks`), and where it
  completes it changes logs of counters, lists and deadlines; `Idempotence` and `SecondStart` prove
  when it completes and restores the data for overwriting logs, with counterexamples outside them.
* The writer appends after whatever a crash left, and the next start reads on across the cut. What is
  appended is read back as it was written exactly when the cut fell between two entries
  (`TornSwallow.AppendExactly`). Otherwise appended entries are lost, and the cut entry can come out
  complete with bytes of the next one in it: a SET three bytes short sets its key to a value nobody
  wrote (`TornSwallow.CorruptValue`). So "never part of an entry" holds for one session's file
  (`LogFile.TornFile`) and not across sessions.
* An EXPIRE entry comes back unchanged only if its seconds fit a duration in nanoseconds
  (`Restart.ExpireEntryStable`).
* PUBLISH is documented to return the number of connections reached. A connection that has only
  pattern subscriptions is counted once per matching pattern that enqueued
  (`Publishing.PublishBounds` says exactly when the number is the documented one).
* SCAN with a cursor inside the range and a count so large that their sum wraps is a panic
  (`Scan.PanicsExactly`); following the cursor from 0 with one count never reaches it.
* The broker's integer printer is wrong for the least 64-bit integer (`PushFrames.FormatInt`);
  lengths never are that.

## Model

| member | source | states |
|---|---|---|
| Recovery.LogRestoresData | internal/persistence/aof/aof.go:41-153 | for every good run (validated arguments, a clock that does not go back, no hash command on an expired key, no backdated SET), replaying its log on an empty store at any fixed clock gives the same keys, types and data, and the same keys carry a deadline |
| Recovery.RestoredKeyByKey | internal/persistence/aof/aof.go:41-153 | the same told for one key of one database: present or absent, the same data, and a deadline or none |
| Recovery.RecoveryExactly | internal/core/store/hash.go:14-16 | a good run extended by any valid operation, a backdated SET included, still recovers if and only if the rebuilt store does not miss that a hash command found an expired value: HDEL always misses it, HSET unless the rebuilt store takes the key for expired too |
| Recovery.RecoveryForward | internal/core/store/hash.go:86-99 | when no time to live in the log is negative, that condition is: the operation is not HSET or HDEL on an expired key |
| Recovery.BackdatedDiverges | internal/core/store/commands.go:52-55 | after any good run, any SET whose logged seconds wrap into the past while its live time to live does not leaves the data equal but has, for every new name and every instant before its live deadline, a RENAME after which live and recovered data differ |
| Recovery.HugePxDiverges | internal/core/store/commands.go:52-55 | SET with PX 18446744073710 and a RENAME at the same instant: live data and recovered data differ |
| Simulation.StepExactly | internal/core/store/hash.go:94-97 | for one valid operation on any live database and any replica in step: the data is restored if and only if the replica does not miss an expired hash value, and the replica stays in step if and only if moreover the operation is not a backdated SET |
| Recovery.ExpiredHashReturns | internal/core/store/hash.go:86-99 | HSET, EXPIRE of one second, HDEL two seconds later: live data and recovered data differ |
| Recovery.ReplayRepeatsLog | internal/core/store/store_utils.go:10-15 | replaying a log sends as many entries again, and sends exactly that log if and only if every SET of the run that took a time to live recorded seconds that fit a duration |
| Recovery.Rebuild | internal/persistence/aof/aof.go:109-153 | the replica after replay tracks the live store: same data, and whatever it takes for expired the live store takes for expired; it sends as many entries as it read, the same ones if and only if the times to live are exact |
| MovingClock.MovingClockRestores | internal/persistence/aof/aof_internal.go:63-72 | recovery with an instant of its own for every entry: if from one logged operation to the next the clock advances no more than the live clock did, does not go back within an operation, and no time to live is shortened by the log, the data is restored and every deadline is at least as far away as the live one |
| MovingClock.WholeSecondsKept | internal/core/store/commands.go:49-55 | EX of any amount, and PX and EXPIRE in whole seconds of up to 292 years, are not shortened |
| MovingClock.ReplayEachAtOnce | internal/persistence/aof/aof.go:61-77 | with one instant for all entries this is the replay at that instant |
| MovingClock.InStepPair | internal/core/store/commands.go:46-55 | a SET and its EXPIRE replayed at two instants: the later EXPIRE only moves the deadline further away |
| Recovery.RenameStep | internal/core/store/store.go:525-551 | where a live key is expired on the replica, as under a replay clock that runs ahead, a RENAME of it makes the data differ |
| Simulation.SimulateStep | internal/persistence/aof/aof_internal.go:10-133 | for every valid operation, if a replica is in step before and does not miss an expired hash value, the decoded entries restore its data and re-emit as many entries, the same ones if and only if the time to live is exact; it stays in step if and only if the operation is not a backdated SET |
| Simulation.LogDecodes | internal/persistence/aof/aof_internal.go:10-133 | every entry any valid operation sends is decoded by its replay handler into the intended operation: normalised LTRIM bounds, clamped pop counts, NX/XX/SETNX as a plain SET |
| Simulation.ReplayedTtl | internal/core/store/commands.go:46-55 | the seconds recorded for a SET's time to live are read back as written if and only if they fit a duration, for every EX and PX |
| Simulation.BackdatedPx | internal/core/store/commands.go:52-55 | only a PX above 9223372036854 without an EX can be backdated |
| Simulation.SimulateSet | internal/core/store/commands.go:11-58 | SET with any options restores the data, and keeps the replica in step if and only if it is refused or not backdated |
| Simulation.SimulateRename | internal/core/store/store.go:525-551 | RENAME keeps the replica in step, a rename of a key to itself (which removes it) included |
| Simulation.SimulateTrim | internal/core/store/store.go:475-523 | LTRIM keeps the replica in step although only normalised bounds, or a DEL, are logged |
| Simulation.SimulateListStep | internal/core/store/store.go:273-430 | LPUSH, RPUSH, LPOP and RPOP keep the replica in step, whether they change the list, find nothing or fail, although a pop logs only the clamped count; an emptied list stays |
| Simulation.SimulateCount | internal/core/store/store.go:210-256 | INCR and DECR keep the replica in step, on expired values too |
| Simulation.SimulateExpire | internal/core/store/store.go:196-208 | EXPIRE keeps the replica in step for every duration, negative ones included |
| Simulation.SimulateHSet | internal/core/store/hash.go:8-45 | HSET keeps the replica in step unless it meets an expired value that is alive on the replica |
| Simulation.SimulateHashStep | internal/core/store/hash.go:8-121 | HSET and HDEL on missing, expired, wrong-typed and live keys keep the replica in step unless the replica misses an expired value; a deletion that removes nothing logs nothing |
| Replay.ReplayAppend | internal/persistence/aof/aof.go:61-77 | replaying two logs in a row is replaying their concatenation, panics included |
| Replay.DecodeEntry | internal/persistence/aof/aof.go:109-163 | an entry with a database index decodes to that database and to what its handler makes of the arguments |
| Entries.ParseNameExactly | internal/persistence/aof/aof.go:119-152 | the dispatch on a command's name takes some bytes for a name if and only if they are its spelling |
| LogFile.TornFile | internal/persistence/aof/aof.go:41-78 | reading any byte prefix of a log file applies exactly the entries that lie wholly in it, never part of one |
| LogFile.FileRestoresData | internal/persistence/aof/aof.go:17-78 | encoding the log of a good run to bytes, parsing it back and dispatching it restores the data |
| LogFile.EntryRoundTrip | internal/persistence/aof/aof.go:80-107 | an entry encoded as an array of bulk strings reads back as that entry, whatever bytes it holds and whatever follows |
| LogFile.EntryTorn | internal/persistence/aof/aof.go:61-77 | an entry cut short anywhere does not parse at all |
| Durability.AlwaysInOrder | internal/persistence/aof/aof.go:28-37 | in every reachable state the file, the one entry the writer has received and not yet flushed, the channel and the sender together are the log in lock order, and the file is the encoding of what was flushed |
| Durability.CrashConsistency | internal/persistence/aof/aof.go:17-78 | whatever happened and wherever the file is cut, what is read back is the data of the first n operations, or of those and the next SET before its own EXPIRE |
| Durability.CutLog | internal/core/store/commands.go:41-58 | every prefix of a log is the log of a prefix of the run, perhaps with one SET stripped of its EXPIRE |
| Durability.LogShape | internal/core/store/commands.go:41-58 | an operation logs at most two entries; when it logs two, the first is its SET without the time to live |
| Durability.BoundedLoss | internal/persistence/aof/aof.go:28-37 | at most 103 entries are missing from the file: the channel's 100, the one in the writer's hand and the two of one operation; and the file replays as that prefix of the log |
| Durability.LossReached | internal/core/server/server.go:48 | and 103 are reached: a slow flush, 100 more SETs and a SET with a time to live under way |
| TornAppend.AppendAtBoundary | internal/persistence/aof/aof.go:17-39 | a file cut between entries and appended to by a next session reads as the kept entries followed by the new ones |
| TornAppend.AppendInHeader | internal/persistence/aof/aof.go:17-39 | a file cut within the first line of an entry and then appended to reads as the kept entries alone: everything appended is lost |
| TornAppend.AppendedSetIsLost | internal/persistence/aof/aof.go:17-78 | one byte of any entry left by a crash, then a logged SET: the key is missing from the rebuilt store |
| TornSwallow.AppendExactly | internal/persistence/aof/aof.go:17-78 | for every log, every cut of its file and every store: whatever is appended next is read as it was written if and only if the cut left no part of an entry |
| TornSwallow.CutInsideLoses | internal/persistence/aof/aof.go:41-78 | for every cut inside an entry there are one or two commands (SET, or RPUSH and SET) whose appending is not read back |
| TornSwallow.CutEntry | internal/protocol/resp2/parsers.go:36-71 | the frame of an entry cut anywhere and followed by more: it does not parse, or becomes no command, or the entry with a last part that holds the first byte of what follows |
| TornSwallow.CorruptValue | internal/persistence/aof/aof.go:41-78 | a crash three bytes before the end of any SET and a next session: the key is set to the value with a star for its last byte, which nobody wrote, and the appended entries are lost |
| TornSwallow.BulkSwallows | internal/protocol/resp2/parsers.go:36-51 | a bulk string that lacks m bytes takes them from what follows, line end included, or fails if there are fewer |
| TornAppend.CutShape | internal/persistence/aof/aof.go:61-77 | a cut file is the encoding of the kept entries followed by a proper prefix of the next one |
| EndToEnd.Serve | internal/core/store/store.go:144-613 | over any run of operations, whatever spare capacity each allocation leaves, the heap of value objects, slices and shared arrays holds exactly what the plain model of the run holds, and the entries sent are its log |
| EndToEnd.CrashAndRecover | internal/persistence/aof/aof.go:17-78 | on objects, from a live store through the written file cut at any byte to a rebuilt store: the rebuilt data is that of the first n operations, or of those and the next SET before its EXPIRE; with the whole file it is the live data |
| EndToEnd.CutFile | internal/persistence/aof/aof.go:41-78 | the same for the plain model |
| Restart.BootsExactly | internal/core/server/server.go:64-82 | recovery with the 100-slot channel and no writer completes if and only if the log has at most 100 entries |
| Restart.RestartDoublesFile | internal/core/server/server.go:64-82 | a recovery that completes has restored the data and sends as many entries again, and the file then holds the log twice if and only if every recorded time to live fits a duration |
| Restart.ExpireEntryStable | internal/persistence/aof/aof_internal.go:63-72 | an EXPIRE entry is sent again unchanged if and only if its seconds fit a duration |
| Idempotence.TwiceIsOnce | internal/persistence/aof/aof_internal.go:92-133 | a log of SET, DEL, HSET, HDEL, FLUSHDB and FLUSHALL replayed twice leaves the store that one replay leaves, from any store without deadlines |
| SecondStart.SecondRestart | internal/core/server/server.go:48-82 | for a good run whose log is of overwriting commands and fits the channel: the first start completes and doubles the file; a second start from it, with no writer on the 100-slot channel, completes if and only if what the doubled log sends fits the channel, and when it completes the data of the run is restored |
| SecondStart.SecondStartRoom | internal/core/server/server.go:48-82 | what a caller can check without a replay: a second start completes if the log has at most 50 entries, and for logs of SET or of HSET entries beside DEL and the flushes if and only if it has |
| SecondStart.SecondStartBlocks | internal/core/server/server.go:48-82 | with 51 to 100 SETs the first start completes and the second blocks |
| SecondStart.OverwritingIsExact | internal/core/store/store_utils.go:10-15 | a log without EXPIRE entries is sent again unchanged |
| Idempotence.DoubledLogRestores | internal/persistence/aof/aof_internal.go:92-133 | replaying the doubled log of such a run on a store of its own restores the data of the run |
| Idempotence.ReplayFate | internal/core/store/hash.go:8-121 | such a log acts on every key either by fixing its value or by a set of field edits, computed from the log alone |
| Idempotence.PushTwiceDiffers | internal/persistence/aof/aof_internal.go:43-51 | one RPUSH replayed twice pushes twice |
| Idempotence.IncrTwiceDiffers | internal/persistence/aof/aof_internal.go:74-78 | one INCR replayed twice counts twice |
| Idempotence.ExpireTwiceDiffers | internal/persistence/aof/aof_internal.go:63-72 | the log of HSET, EXPIRE, HDEL, HSET of another field replayed twice leaves a deadline that one replay does not |
| AofFile.RebuildStore | internal/persistence/aof/aof.go:41-78 | the reading loop on objects: state and entries sent are those of the file's replay, an empty or old-format file changes nothing, a panic is reported |
| AofFile.DispatchAof | internal/persistence/aof/aof.go:109-153 | one entry carried out on the store object has exactly the effect of its decoding |
| AofFile.WriteEntries | internal/persistence/aof/aof.go:17-39 | the writer's loop appends the encoding of each entry taken, in order |
| AofFile.HandleEntry | internal/persistence/aof/aof_internal.go:10-121 | each handler's arity test and conversions, HSET's loop included, written out step by step, give the operation the decoding names |
| AofFile.CollectFields | internal/persistence/aof/aof_internal.go:104-114 | the loop over alternating parts builds the map in which a later pair for a field wins |
| Resp.RoundTrip | internal/protocol/resp2/resp2.go:14-53 | for arbitrarily nested values without newlines in simple or error strings, parsing the encoding followed by anything gives the normal form and leaves exactly the rest |
| Resp.RoundTripExactly | internal/protocol/resp2/parsers.go:11-25 | a representable value survives the wire if and only if no simple or error string in it holds a newline |
| Resp.PrefixFree | internal/protocol/resp2/encoders.go:10-55 | no encoding is a proper prefix of another, up to normal form |
| Resp.SameEncoding | internal/protocol/resp2/encoders.go:25-55 | two values print alike if and only if their normal forms agree: Null and the nil bulk string, nil and empty arrays |
| Resp.StreamRoundTrip | internal/protocol/resp2/resp2.go:14-34 | concatenated frames are read back as the original sequence |
| Resp.ScanItoa | internal/protocol/resp2/parsers.go:27-45 | the header reader takes a printed number and its line end, and leaves the rest |
| FormatLaws.WireFormat | internal/protocol/resp2/encoders.go:10-55 | every kind of value byte by byte, markers and line ends included |
| FormatLaws.HeaderWithBlanks | internal/protocol/resp2/parsers.go:27-34 | blanks before a number and before its newline are skipped, and the carriage return is not needed |
| FormatLaws.NegativeLengths | internal/protocol/resp2/parsers.go:36-71 | a length of -1 is a nil bulk string or array, every other negative length a panic |
| FormatLaws.Lines | internal/protocol/resp2/parsers.go:11-25 | a line without a newline fails and a lone newline panics |
| RespTorn.Torn | internal/protocol/resp2/parsers.go:36-71 | cut short anywhere, an encoding does not parse unless the value ends in a header, and if it parses nothing is left over; it never panics |
| RespTorn.TornExactly | internal/protocol/resp2/parsers.go:36-71 | some proper prefix of a value's encoding parses if and only if the value ends in a header |
| RespTorn.MissingNewline | internal/protocol/resp2/parsers.go:27-71 | without its last byte such an encoding still parses, to the same normal form, because end of input stands for the newline |
| RespCodec.Writer.Write | internal/protocol/resp2/resp2.go:36-53 | the recursive writer appends exactly the encoding |
| RespCodec.Writer.WriteArray | internal/protocol/resp2/encoders.go:43-55 | header, then the items in order |
| RespCodec.Reader.ReadValue | internal/protocol/resp2/resp2.go:14-34 | the reader's outcome is the parser's, and success leaves the parser's remainder unread |
| RespCodec.Reader.ReadArray | internal/protocol/resp2/parsers.go:53-71 | the filling loop reads as many values as the header says, stopping at the first failure; -1 is the nil array, other negative lengths panic |
| RespCodec.Reader.ReadBulk | internal/protocol/resp2/parsers.go:36-51 | length, contents and line end are consumed together or the read fails |
| RespCodec.Reader.ReadLine | internal/protocol/resp2/parsers.go:11-25 | the text up to the newline less two bytes; a lone newline panics |
| RespCodec.Reader.ScanNumber | internal/protocol/resp2/parsers.go:27-34 | blanks, sign, digits, blanks, then newline or end of input |
| StoreHeap.Store.NoSharing | internal/core/store/store.go:273-325 | in every valid store two keys share neither a value object nor a backing array |
| StoreHeap.Store.TagsAgree | internal/core/store/types.go:32-100 | a value's tag matches its data, so a tested tag makes the type assertion safe |
| StoreHeap.Store.Put | internal/core/store/store.go:273-300 | storing an object no key holds changes that key alone |
| StoreHeap.Store.Assign | internal/core/store/store.go:302-325 | replacing a value's data, by a window on its own array or on an unused one, changes that key alone |
| StoreHeap.Store.Set | internal/core/store/commands.go:11-58 | NX, XX, EX, PX: the new state, one or two entries, and the answer are those of the operation's function |
| StoreHeap.Store.SetNX | internal/core/store/store.go:185-194 | sets only a key that is absent or expired |
| StoreHeap.Store.Del | internal/core/store/store.go:144-150 | removes the key and always logs |
| StoreHeap.Store.Expire | internal/core/store/store.go:196-208 | sets the deadline in place, on expired keys too, and logs whole seconds |
| StoreHeap.Store.Count | internal/core/store/store.go:210-256 | INCR and DECR in place, wrapping at 64 bits, failing on other types and non-numerals without change |
| StoreHeap.Store.RPush | internal/core/store/store.go:302-325 | appending may overwrite spare capacity of the key's own array; every other key's list is as before |
| StoreHeap.Store.LPush | internal/core/store/store.go:273-300 | reverses the arguments in place and puts them in front; the entry holds them unreversed |
| StoreHeap.Store.LPop | internal/core/store/store.go:328-377 | moves the window's start, returns the elements from the left, leaves an empty list behind |
| StoreHeap.Store.RPop | internal/core/store/store.go:380-430 | moves the window's end, returns the elements from the right in list order |
| StoreHeap.Store.LTrim | internal/core/store/store.go:475-523 | narrows the window to the normalised bounds or deletes the key |
| StoreHeap.Store.LRange | internal/core/store/store.go:433-472 | the elements between two bounds, without change to the store, never slicing out of bounds |
| StoreHeap.Store.GetRange | internal/core/store/store.go:112-142 | the bytes between two bounds, for any text and bounds, never slicing out of bounds |
| StoreHeap.Store.Rename | internal/core/store/store.go:525-551 | the same object under the new name; nothing when the key is missing or expired |
| StoreHeap.Store.HSet | internal/core/store/hash.go:8-45 | drops an expired value, writes the fields, logs sorted pairs, returns how many were new |
| StoreHeap.Store.HDel | internal/core/store/hash.go:86-121 | removes fields, repeated names counted once, deletes an emptied key, logs only a real removal |
| StoreHeap.Store.FlushDb | internal/core/store/store.go:595-602 | empties one database and no other |
| StoreHeap.Store.FlushEverything | internal/core/store/store.go:604-613 | empties every database and logs one entry |
| Slices.Reverse | internal/utils/slice/slice.go:16-20 | the two-pointer loop reverses the array in place |
| Slices.Append | internal/core/store/store.go:302-325 | the result holds both sequences; it reuses the array only when capacity suffices, and then writes only beyond the window |
| Fields.SortedUnique | internal/core/store/hash.go:206-218 | any ascending listing of a field set is the one the model uses, so the logged order does not depend on map iteration |
| Fields.SortedAscends | internal/core/store/hash.go:206-218 | and that listing is ascending without repetition |
| Fields.ReadFlatten | internal/core/store/hash.go:206-218 | a field map turned into sorted pairs and read back by the replay loop is the same map |
| Fields.WriteFields | internal/core/store/hash.go:35-44 | the writing loop, in any iteration order, yields the union and the number of new fields |
| Fields.DropFields | internal/core/store/hash.go:104-118 | the deleting loop yields the map without the names and the number of fields that were there |
| Decimal.AtoiItoa | internal/core/store/store.go:224-231 | every 64-bit integer survives printing and reading back |
| StoreLaws.LiveExactly | internal/core/store/types.go:146-151 | a key is live until its deadline has passed, and still at the very instant of it |
| StoreLaws.SetStores | internal/core/store/commands.go:11-58 | NX on a live key and XX on a missing or expired one change, log and store nothing and answer false; every other SET stores the string with the deadline EX or else PX asks for or none, logs SET and then the seconds, answers true, and leaves every other key alone |
| StoreLaws.SetNXStores | internal/core/store/store.go:185-194 | answers 1 and stores a plain string where no live key was, 0 and nothing where one is |
| StoreLaws.CountStores | internal/core/store/store.go:210-256 | INCR and DECR store and answer the number one up or one down, from 0 if the key is missing, keep the deadline, ignore whether it has passed, and fail without change on anything that is no integer |
| StoreLaws.WrapsAround | internal/core/store/store.go:224-227 | one past the largest 64-bit integer is the least, and the other way round |
| StoreLaws.DelRemoves | internal/core/store/store.go:144-150 | the key is gone, every other key is as before, and the removal is logged in any case |
| StoreLaws.ExpireSets | internal/core/store/store.go:196-208 | any present key gets the deadline and keeps its data, and the answer is whether it was there |
| StoreLaws.RenameMoves | internal/core/store/store.go:525-551 | the value of a live key with its deadline is found under the new name, whatever that held, and the old name is gone; renamed to itself a key is gone; a missing key is an error, an expired one nothing; every other key is as before |
| StoreLaws.FlushDbEmpties | internal/core/store/store.go:595-602 | the database is empty |
| StoreLaws.FlushAllEmpties | internal/core/store/store.go:604-613 | every database is empty |
| StoreLaws.OneDatabase | internal/core/store/store.go:24-33 | of sixteen databases an operation touches its own |
| StoreLaws.LPushAdds | internal/core/store/store.go:273-300 | the values stand in front, the last one first, before what was there; the answer is the length then stored; the deadline stays |
| StoreLaws.RPushAdds | internal/core/store/store.go:302-325 | the values stand behind what was there, in order; the answer is the length then stored; the deadline stays |
| StoreLaws.LPopTakes | internal/core/store/store.go:340-377 | from a live list: one element without a count, else as many as the count or as there are, from the front and in order; the rest stays, even if it is none; the number taken is what is logged |
| StoreLaws.RPopTakes | internal/core/store/store.go:393-430 | the same from the end, answered in list order |
| StoreLaws.PopFails | internal/core/store/store.go:328-366 | missing, expired and empty lists answer nil, a negative count is an error before the wrong type is, and nothing changes |
| StoreLaws.RangeElements | internal/core/store/store.go:433-472 | LRANGE answers each element between the bounds once, in list order, and no other |
| StoreLaws.TrimKeeps | internal/core/store/store.go:475-523 | LTRIM leaves what LRANGE answers, with its deadline, or no key if that is nothing; logs the positions kept, or a DEL |
| StoreLaws.HSetWrites | internal/core/store/hash.go:8-45 | the fields written are those given over those of a live hash, the answer is how many were new, an expired value is replaced without its deadline |
| StoreLaws.HDelRemoves | internal/core/store/hash.go:86-121 | the named fields are gone and no other, the key with them if none is left; answer and log tell what was really taken |
| StoreLaws.HDelElse | internal/core/store/hash.go:86-103 | nothing for a missing key, an unlogged removal for an expired one, an error for another type |
| FormatLaws.DigitByDigit | internal/core/store/store.go:224-228 | a number is printed as its tens and then its ones, a negative one with a minus in front |
| FormatLaws.TenDigits | internal/core/server/pubsub.go:258-275 | the ten digits are those of ASCII |
| FormatLaws.ReadsSigned | internal/core/store/store.go:219-223 | an integer is read with either sign or none and with leading zeros |
| FormatLaws.ReadsNothingElse | internal/core/store/store.go:219-223 | anything else, and what does not fit 64 bits, is no integer |
| FormatLaws.SpelledOut | internal/persistence/aof/aof.go:119-152 | the sixteen names letter by letter |
| FormatLaws.FieldsSpelled | internal/core/store/hash.go:206-218 | a field map is logged field, value, field, value, the fields in ascending order |
| FormatLaws.OrderOfBytes | internal/core/store/hash.go:206-218 | that order is decided by the first byte that differs, or by the end |
| FormatLaws.Arities | internal/persistence/aof/aof_internal.go:10-127 | how many arguments each handler acts on, and which also need an integer |
| FormatLaws.RareEntries | internal/persistence/aof/aof_internal.go:16-23 | SETNX, which no run logs, and LTRIM with malformed or oversized bounds |
| FormatLaws.Ignored | internal/persistence/aof/aof.go:109-163 | an unknown name, a missing or malformed database and a wrong arity change nothing |
| FormatLaws.NoSuchDatabase | internal/persistence/aof/aof.go:155-163 | an entry its handler takes panics if and only if its database is not one of the sixteen |
| FormatLaws.OldFormat | internal/persistence/aof/aof.go:41-60 | a file that does not begin with a star is not read |
| FormatLaws.PartOf | internal/persistence/aof/aof.go:88-107 | which values can be parts of a command |
| ListLaws.Conservation | internal/core/store/store.go:273-430 | over any run of pushes and pops on a key without deadline, what was there and what was pushed is what was popped and what remains, as multisets |
| ListLaws.FirstInFirstOut | internal/core/store/store.go:302-377 | with RPUSH and LPOP only, pops in order then the remaining list equal the initial list then pushes in order |
| ListLaws.PushManyIsPushEach | internal/core/store/store.go:273-300 | an LPUSH of n values equals n single LPUSHes |
| ListLaws.PopItems | internal/core/store/store.go:328-430 | what a pop returns was at its end of the list and nothing else moved |
| ListLaws.TrimThenRange | internal/core/store/store.go:433-523 | LTRIM k a b then LRANGE k 0 -1 shows what LRANGE k a b showed before; an empty window leaves no key |
| ListLaws.WindowSelects | internal/core/store/store.go:451-471 | a normalised window holds exactly the positions between the two bounds, negative ones counted from the end |
| ListLaws.WindowStable | internal/core/store/store.go:492-519 | normalised bounds denote the same window again, so replaying a logged LTRIM trims alike |
| ListLaws.SubstringBytes | internal/core/store/store.go:112-142 | GETRANGE returns each byte between the bounds, once and in order, and no other |
| HashLaws.HashAccounting | internal/core/store/hash.go:35-118 | over any run of HSET and HDEL, the number of fields is the initial one plus the HSET results minus the HDEL results |
| HashLaws.HLenIsBalance | internal/core/store/hash.go:128-141 | from a missing key, HLEN is that balance and the key exists if and only if it is positive |
| HashLaws.CounterSum | internal/core/store/store.go:210-256 | any interleaving of INCR and DECR leaves the canonical decimal of start plus ups minus downs, wrapped at 64 bits, and every other key alone |
| Scan.ScanKeys | internal/core/store/store.go:615-668 | the method over the store returns the page of the live keys, for any iteration order, cursor, count and pattern |
| Scan.PanicsExactly | internal/core/store/store.go:634-639 | a page is sliced out of bounds if and only if the cursor lies inside and cursor plus count passes 63 bits |
| Scan.TenKeys | internal/core/store/store.go:632-634 | without a positive count a page is ten keys |
| Scan.FollowEnds | internal/core/store/store.go:629-667 | following the cursor from 0 ends after the ceiling of n/count calls (one if n is 0) and the pages before matching hold n keys, even if each call enumerates differently |
| Scan.FollowJoins | internal/core/store/store.go:640-667 | the pages from a cursor on, joined, are the matching keys from that position on, in order |
| Scan.ScanIsComplete | internal/core/store/store.go:615-668 | with a repeating enumeration a full scan returns every live matching key exactly once and nothing else |
| PushFrames.EncodeArray | internal/core/server/pubsub.go:243-256 | the hand-written encoder yields byte for byte what RESP2 encoding yields on the array of bulk strings |
| PushFrames.FormatInt | internal/core/server/pubsub.go:258-275 | the division loop prints every int64 but the least one correctly |
| PushFrames.FramesParse | internal/core/server/pubsub.go:230-256 | frames written one after the other parse back to their parts in order |
| PushFrames.EncodeMessage | internal/core/server/pubsub.go:230-234 | a message push is the encoding of its three parts |
| PushFrames.EncodePMessage | internal/core/server/pubsub.go:236-240 | a pattern push is the encoding of its four parts |
| Publishing.PayloadReads | internal/core/server/pubsub.go:230-240 | a delivered payload reads as "message", channel, text, or "pmessage", pattern, channel, text, and nothing more, whatever follows |
| Subscriptions.EnterExactly | internal/core/server/pubsub.go:55-67 | subscribing adds one name to one connection and changes nobody else |
| Subscriptions.LeaveExactly | internal/core/server/pubsub.go:71-87 | unsubscribing takes one name from one connection and keeps no empty set |
| Subscriptions.LeaveAllExactly | internal/core/server/pubsub.go:185-202 | unsubscribing from everything leaves no name for that connection and changes nobody else |
| Subscriptions.EnterCount | internal/core/server/pubsub.go:215-228 | the count grows by one exactly for a new subscription |
| Subscriptions.LeaveCount | internal/core/server/pubsub.go:215-228 | the count falls by one exactly for an existing subscription |
| PubSub.PubSubBroker.Subscribe | internal/core/server/pubsub.go:55-67 | the index gains the subscription, a channel is made if there was none, and the integer returned is the true cardinality |
| PubSub.PubSubBroker.PSubscribe | internal/core/server/pubsub.go:91-103 | the same for patterns |
| PubSub.PubSubBroker.Unsubscribe | internal/core/server/pubsub.go:71-87 | the index loses the subscription; the channel is closed and dropped exactly when the true cardinality returned is 0 |
| PubSub.PubSubBroker.PUnsubscribe | internal/core/server/pubsub.go:107-123 | the same for patterns |
| PubSub.PubSubBroker.UnsubscribeAll | internal/core/server/pubsub.go:185-204 | the connection is gone from every set, its channel closed and dropped, all else unchanged |
| PubSub.PubSubBroker.CountSubscriptions | internal/core/server/pubsub.go:215-228 | the two loops count the connection's exact and pattern subscriptions |
| PubSub.PubSubBroker.Deliver | internal/core/server/pubsub.go:170-182 | a payload is enqueued if and only if there is a channel with room; nothing else changes and nothing blocks |
| PubSub.PubSubBroker.Publish | internal/core/server/pubsub.go:128-166 | for any iteration order, some complete fan-out of the message is delivered, each delivery once and exact ones first; queues and result are what that fan-out makes of them |
| PubSub.PubSubBroker.CloseAndRemoveConnChan | internal/core/server/pubsub.go:206-211 | only an open channel is closed, and it leaves the map |
| Publishing.QueueAfter | internal/core/server/pubsub.go:128-182 | each queue takes the payloads addressed to its owner, in order, until it is full |
| Publishing.WhatArrives | internal/core/server/pubsub.go:128-166 | a connection with room receives one payload for its subscription to the channel, first, one for each of its patterns that matches, and nothing else |
| Publishing.EnqueuedExactly | internal/core/server/pubsub.go:128-182 | whatever the iteration order, a queue grows by the number of ways its owner is addressed, as far as there is room |
| Publishing.PublishCount | internal/core/server/pubsub.go:128-166 | the number returned is the same for every iteration order: a sum with one for each exact subscriber with room and one for each payload enqueued for others |
| Publishing.PublishBounds | internal/core/server/pubsub.go:125-166 | it lies between connections reached and payloads enqueued, and equals the former if and only if no non-exact connection took more than one payload |
| Connections.StepKeeps | internal/core/server/server.go:141-334 | every enabled step of any handler, publisher or writer keeps the invariant relating modes, scripts, indexes, channels and writers |
| Connections.KeepsUnsub | internal/core/command/unsubscribe.go:29-43 | the part of it for one argument of UNSUBSCRIBE or PUNSUBSCRIBE: at count 0 the channel closes and the mode change comes next |
| Connections.KeepsFlip | internal/core/server/server.go:312-334 | the part of it for a mode change: the writer starts exactly when the mode turns to subscriber |
| Connections.KeepsSub | internal/core/command/subscribe.go:26-39 | the part of it for one argument of SUBSCRIBE or PSUBSCRIBE |
| Connections.KeepsUnsubAll | internal/core/command/unsubscribe.go:17-28 | the part of it for the commands without arguments and for disconnecting |
| ConnectionRuns.ModeAgrees | internal/core/server/server.go:312-334 | between commands of every run: subscriber mode if and only if at least one subscription if and only if an open channel, which then has exactly one writer |
| ConnectionRuns.ChannelsSafe | internal/core/server/pubsub.go:128-211 | at every point of every run: no send on or second close of a closed channel, never two writers on a channel, at most 64 waiting, open if and only if owned |
| ConnectionRuns.NoTrace | internal/core/server/server.go:150-158 | a connection that is gone is in no set and owns no channel, and no empty set is kept |
| ConnectionRuns.DeliveredInOrder | internal/core/server/server.go:325-329 | over any run, what a channel's writer wrote then what waits is what was offered in order, less exactly the offers that found 64 waiting |
| ConnectionRuns.WrittenReads | internal/core/server/server.go:325-329 | over any run, the bytes a writer wrote read back as one array for each accepted delivery, in order, with "message", channel and text or "pmessage", pattern, channel and text |
| ConnectionRuns.RunTakes | internal/core/server/server.go:325-329 | from any state, a run adds to what a channel has taken exactly the offers accepted during it |
| ConnectionRuns.LostOnlyToOverflow | internal/core/server/pubsub.go:170-182 | a delivery under way always finds an open channel, so only a full queue loses it |
| ConnectionRuns.ClosedOverRun | internal/core/server/pubsub.go:206-211 | over any run, a closed channel stays closed, is offered nothing more, and has taken nothing more |
| ConnectionRuns.Drains | internal/core/server/server.go:325-329 | a channel that has a writer can always be emptied, closed or not, and then all it took has been written |
| ConnectionCommands.CommandEffect | internal/core/command/unsubscribe.go:17-43 | when a command has finished, its connection is subscribed to exactly what it promises, however others interleaved |
| ConnectionCommands.SubscriptionsAfter | internal/core/command/psubscribe.go:26-37 | the same name by name, for each of the four commands with and without arguments |
| ConnectionCommands.DisconnectEnds | internal/core/server/server.go:150-158 | hanging up first leaves every channel and pattern, then the server |
| ConnectionCommands.WillOverRun | internal/core/command/subscribe.go:26-39 | what a connection will be subscribed to after its pending steps is the same all through a run until its next command |
| ConnectionCommands.PublishReachesAll | internal/core/command/publish.go:26-30 | a publish delivers once to everyone subscribed when it took the lock, and to nobody else, however others interleave |
| ConnectionCommands.PublishReturns | internal/core/server/pubsub.go:128-166 | however writers, other publishers and everyone else interleave, the number a publish comes to is that of its payloads enqueued by exact subscription, or through a pattern to a connection that had none when the lock was taken |
| ConnectionCommands.PublishFromIssue | internal/core/command/publish.go:26-30 | both from the command on: a PUBLISH outside subscriber mode delivers one fan-out of its own message and comes to the number of those that count |
| ConnectionCommands.PublishRefused | internal/core/server/server.go:176-194 | in subscriber mode it is refused and nothing happens |
| ConnectionCommands.LockFreezes | internal/core/server/pubsub.go:128-130 | nobody's subscription or channel changes while a publisher delivers |
| ConnectionCommands.AlwaysProgress | internal/core/server/pubsub.go:170-182 | no deadlock: while any handler has steps left, some handler can take its next one |
| ConnectionCommands.WaitingGetsTurn | internal/core/server/pubsub.go:128-130 | in every reachable state finitely many deliveries of the publishers that hold the lock enable the step of any handler that waits for it |
| ConnectionCommands.LockReleases | internal/core/server/pubsub.go:128-166 | the publishers that hold the lock can finish, one delivery each time, after which it is free and nobody else has moved |

## Left out

- RDB snapshots: their format is a library that is not part of this model, and snapshots share value objects.
- Sockets, flushes, logging, configuration, authentication and the single-branch commands; a connection is an opaque identity.
- ConnectionCommands.WaitingGetsTurn: that the lock can be had, not that a scheduler that keeps starting new publishes ever grants it.
- `parseSetOptions`: options arrive parsed, with 0 for an absent EX or PX as the code has it.
- Values other than strings passed to SET, and raw values: no command reaches them.
- `path.Match` and the regular expressions of SCAN: an arbitrary predicate, with a malformed pattern as a separate case for SCAN and as no match for the broker; KEYS is left out.
- HGET, HGETALL, HKEYS, HVALS, HMGET, TTL, TYPE, EXISTS, STRLEN: readers that would only add easy members.
- Recovery.LogRestoresData: deadlines are compared as present or absent, because EXPIRE replays relative to the time of replay and PX is truncated to seconds. The clock is fixed during replay here; `MovingClock.MovingClockRestores` has the moving one.
- Recovery.RecoveryExactly: the if-and-only-if is for the operation after a good run; what later operations do to a store that has already parted ways is open, but for the RENAME after a backdated SET.
- AofFile.WriteEntries: failures to open, write or flush the log file, which end the writer in the source.
- Durability.CrashConsistency: the file is one writing session from an empty file.
- TornSwallow.AppendExactly: says when everything appended survives; which part of a particular continuation survives a cut inside an entry is stated for cuts in the first line and for SETs three bytes short only.
- SecondStart.SecondStartRoom: for logs that hold HDEL, or both SET and HSET, the exact condition is that of `SecondStart.SecondRestart`, which counts what the doubled log sends.
- StoreHeap.Store.SetNX: the existence test and the SET take the lock separately in the source; nothing runs in between here, so nothing is claimed about two clients racing.
- StoreHeap.Store.LRange: the slice returned shares the list's array in the source; here the reply is its contents at that moment.
- StoreHeap.Store.HSet: the Go map inside a hash value is a map value in the object's field, so updates in place of that inner map are assignments of the field.
- StoreHeap.Store.Set: the log channel is the sequence of entries sent; its bound and its blocking are in `Durability` and `Restart`.
- Slices.Append: the capacity Go picks when it allocates is an arbitrary parameter.
- RespCodec.Reader.ReadValue: end of input and malformed input are one failure, and no limit is set on the memory a length may ask for.
- Resp.ScanItoa: blanks are the ASCII ones; the scan's treatment of other Unicode spaces is not modelled.
- Wire input other than encoder output and its byte prefixes has an outcome in the model but no theorem, apart from reader and parser agreeing on it.
- Whole seconds of a duration are exact; the floating-point rounding of the conversion in the source is not modelled.
- The reply to PING in subscriber mode, which announces three elements and writes two, is outside every statement about frames.
- Replies written by SUBSCRIBE and UNSUBSCRIBE to the connection: the integers are proved at the broker's methods, the frames are not in the step system.
- ConnectionRuns.DeliveredInOrder: a write to a connection always succeeds; the source ignores failures and goes on.
- PubSub.PubSubBroker.Publish: one atomic step of the broker object; the interleaving of deliveries with writers and other publishers is in `Connections`, whose number (`ConnectionCommands.PublishReturns`) is not bounded by the connections reached: a writer may make room between a refused exact payload and a pattern one.
