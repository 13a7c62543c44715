# Verification of the base3 library

A Dafny model of the algorithms in `src/base3` that have a specification worth proving: the
descriptor shuffle, the read/write lock, MD5, environment rewriting, the binary serializer, the
consistent-hashing ring with its two hash functions, and the printers and parsers.
`dafny verify dfyconfig.toml` checks the whole project.

Code that updates things step by step is modelled by methods over arrays and by classes with the
source's fields; each method is proved against a specification function, and what the source promises
is proved about that function, for all inputs.

| file | models |
|---|---|
| `FileDescriptorShuffle.dfy`, `FileDescriptorRuns.dfy`, `FileDescriptorTable.dfy` | the in-place parallel assignment over a domain with fresh elements; what its runs keep whichever temporaries they get; and what that means for the descriptor table of a process, where `dup()` may return any descriptor that is not open |
| `ReadWriteLock.dfy` | the writer-preferring lock: the critical sections as atomic steps of any number of threads, and the class that performs them |
| `Words.dfy`, `Md5Rounds.dfy`, `Md5.dfy`, `Md5Operations.dfy`, `Md5Answers.dfy` | words and byte orders; the 64 unrolled steps of the transform; buffering, bit count, padding, output; known answers of RFC 1321, operation by operation |
| `AlterEnvironment.dfy` | the sizing pass, the two filling passes, and what the resulting block means |
| `PickleFormat.dfy`, `Pickle.dfy`, `PickleExamples.dfy` | the layout of a payload and its readers; the class that allocates, writes, trims and reads; the bytes of a small payload |
| `ConsistentHash.dfy` | the ring, its lookup, its distribution, and what moves when servers change |
| `Hashing.dfy`, `HashAnswers.dfy` | `MurmurHash2`, `mix` and `doobs_hash` on bit vectors |
| `CommandLine.dfy`, `CommandExamples.dfy` | Windows quoting and the parsing rules that it follows |
| `StringEncode.dfy`, `StringCodecs.dfy`, `HtmlEncode.dfy`, `StringExamples.dfy` | what the text codecs write and read, UTF-8 included; their loops over char buffers; the HTML encoder; short texts spelled out |
| `NumberConversions.dfy` | decimal printing and parsing of 32-bit and 64-bit integers |
| `StringTokenizer.dfy` | the quick and the full tokenizer |
| `Basics.dfy` | C strings, and picking from a set |

## What the proofs found

- **Shuffle.** With fresh temporaries, a list is carried out as a parallel assignment, and closes what it
  should, exactly when no identity arc keeps in place a descriptor whose close is requested after its last
  reader (`ParallelAssignmentIff`, `ClosesIff`; `IdentityLost` is a list where a destination ends closed:
  identity arcs are skipped by the code that hands a close request on). A run makes one temporary for
  each arc that overwrites a descriptor still to be read; the first sixteen are closed, the others stay
  open, as the log message in the source says.
- **Shuffle with dup().** The delegate that the library passes takes what `dup()` returns, which may be a
  destination that is still to come. With descriptors 0 to 3 open and the arcs 3 to 1 and 1 to 4, `dup(1)`
  returns 4, the second arc becomes an identity, and the last loop closes 4 (`DupLosesDestination`). For a
  list with open sources, every run is a parallel assignment if and only if the condition on identity arcs
  holds and, behind each arc that makes one of the first sixteen temporaries, no destination can be handed
  out: each is open from the start, or negative (`DupSafeIff`). Later temporaries do no harm, because they
  are never closed. Where the condition holds, the open set is right as well (`CoveredRunsWell`). What the
  arcs close is right in every run, covered or not, if and only if the condition on identity arcs holds
  (`DupClosesIff`). A source that is not open may be handed out, too, and is then closed twice
  (`ClosedSourceTaken`).
- **Read/write lock.** Besides the safety properties, every waiter is served once new arrivals stop, and
  from every state there is a run that serves all. With two writers that take turns, a reader may wait for
  ever without a notification (`ReaderStarves`).
- **MD5.** `MD5Final` ends with a `memset` of the context, in case it is sensitive. It is given the size of
  a pointer, so that only the first two registers are cleared (with 64-bit pointers).
  The second half of the digest, the bit count and the last block of the message stay behind, and that
  block is never zero (`Md5.Context.Final`, `NotCleared`). The comment at `byteReverse` says that it is
  harmless on little-endian machines; the model takes the machine as a parameter and the digest is the
  standard one on both.
- **Environment.** For given keys, the sizing pass is exact whatever the values are if and only if no
  key that is both set and changed is twice among the entries or twice among the changes
  (`SizesExactIff`). With two
  entries of the same key it prices only the first one: nine bytes are allocated and ten are written
  (`AmbiguousSizesDiffer`). What a key is set to in the result is known for every input
  (`AlteredLookup`); it is the intended override when the changes have distinct keys without an equals
  sign (`AlteredMeaning`).
- **Quoting.** Quoting is undone by parsing exactly when no argument is empty and none contains a tab
  without also containing a space, a quote or a backslash (`QuotingIff`, `LostArguments`): the
  condition under which the source adds quotes does not look at tabs.
- **utf8_encode and xml_decode.** `src/base3/stringencode.h:46-47` promises to return 0 when the encoding
  is longer than `buflen - 1`; the code compares with `buflen`. So a character reference of several
  bytes may fill the buffer to its last byte, and `xml_decode` then puts its NUL behind it. `FilledIff`
  says exactly when; decoding into a buffer longer than the source never does.
- **encode.** The header says that hexadecimal digits should not be illegal characters.
  `IllegalRemovedIff` gives the exact condition: neither the escape character nor a digit that is
  actually written may be in the list.
- **html_encode.** The round trip holds exactly on texts whose characters are all in shortest form, up to
  0x1FFFFF (`HtmlRoundTripIff`); a byte that starts no valid sequence is written as a number and comes
  back as two bytes (`Latin1Changes`).

## Model

| member | source | states |
|---|---|---|
| FileDescriptorShuffle.ParallelAssignmentIff | src/base3/file_descriptor_shuffle.cc:23-67 | for distinct destinations and open sources: every destination ends with the object its source had at the start if and only if no identity arc is followed by a reader whose close request reaches it; cycles and fan-out included |
| FileDescriptorShuffle.ClosesIff | src/base3/file_descriptor_shuffle.cc:34-70 | the run discards exactly the flagged sources that are no destinations, under the same if-and-only-if condition; it always discards at least those |
| FileDescriptorShuffle.OpenAtEnd | src/base3/file_descriptor_shuffle.cc:23-67 | temporaries apart, the open descriptors at the end are the ones open before and the destinations, without the discarded ones |
| FileDescriptorShuffle.UnmentionedUnchanged | src/base3/file_descriptor_shuffle.cc:23-67 | a descriptor that no arc mentions keeps its object |
| FileDescriptorShuffle.DiscardedIff | src/base3/file_descriptor_shuffle.cc:51-66 | which descriptors are closed: a non-destination if it is a flagged source, a destination only if it is clobbered through an identity arc |
| FileDescriptorShuffle.ClobberedIff | src/base3/file_descriptor_shuffle.cc:32-66 | the condition on identity arcs is the absence of a clobbered destination |
| FileDescriptorShuffle.IdentityLost | src/base3/file_descriptor_shuffle.cc:32-66 | a concrete list whose identity destination ends closed |
| FileDescriptorShuffle.PendingStep | src/base3/file_descriptor_shuffle.cc:34-58 | invariant of the close requests: after round i the request for a descriptor is still pending if and only if it was and a later arc reads it |
| FileDescriptorShuffle.CloseStep | src/base3/file_descriptor_shuffle.cc:51-66 | an arc closes its source if and only if that source is to be discarded and has no later reader; so each is closed once |
| FileDescriptorShuffle.RoundCount | src/base3/file_descriptor_shuffle.cc:34-49 | a temporary is made if and only if a later arc reads what a non-identity arc overwrites |
| FileDescriptorShuffle.TableInvStep | src/base3/file_descriptor_shuffle.cc:23-67 | the invariant of the table (done destinations, live originals, temporaries) is kept by a round |
| FileDescriptorShuffle.RoundStep | src/base3/file_descriptor_shuffle.cc:23-67 | the whole run invariant is kept by a round, with the temporary appended |
| FileDescriptorShuffle.RunEnd | src/base3/file_descriptor_shuffle.cc:23-67 | the invariant at the end of the outer loop gives the final table in terms of the arcs as they were given |
| FileDescriptorShuffle.FreshRun | src/base3/file_descriptor_shuffle.cc:23-67 | every run that draws fresh temporaries satisfies the run invariant at every arc |
| FileDescriptorShuffle.RunAsSpecified | src/base3/file_descriptor_shuffle.cc:23-70 | a finished run whose temporaries are fresh ends in the table of the specification: number of temporaries, which of them stay open, what was closed |
| FileDescriptorShuffle.RunKeepsOpen | src/base3/file_descriptor_shuffle.cc:23-67 | in any run from open sources every rewritten source stays open, so that no move and no duplication meets a closed descriptor |
| FileDescriptorShuffle.ScanLaterArcs | src/base3/file_descriptor_shuffle.cc:34-58 | the inner loop, in the order of the code; unless the temporary is the source of the arc itself, later readers of the overwritten descriptor are diverted to it, it is made only when there is one, and close requests move on |
| FileDescriptorShuffle.ScanToIs | src/base3/file_descriptor_shuffle.cc:34-58 | what the turns of the inner loop, one after the other, do to each later arc |
| FileDescriptorShuffle.CarryOutArc | src/base3/file_descriptor_shuffle.cc:23-67 | one round: scan, move, close; its effect on list, table, closes and temporaries; it fails exactly when a call of the delegate fails, and with open sources only when the system refuses; a failed round has done nothing but, perhaps, make its temporary |
| FileDescriptorShuffle.RunRounds | src/base3/file_descriptor_shuffle.cc:21-67 | the outer loop is a run, whatever descriptors the delegate hands out; the first sixteen are remembered; it fails exactly when a call of the delegate fails, behind so many complete rounds |
| FileDescriptorShuffle.CloseExtra | src/base3/file_descriptor_shuffle.cc:69-70 | closes the remembered temporaries, each once, and nothing else |
| FileDescriptorShuffle.PerformInjectiveMultimapDestructive | src/base3/file_descriptor_shuffle.cc:15-73 | for any delegate: the table and the closes are those at the end of a run with the descriptors that were handed out; if these are fresh, the final table, the exact multiset of closes, the number of temporaries, and that precisely those beyond sixteen stay open; false exactly when a call of the delegate has failed, with open sources exactly when the system has refused one, and then nothing is done behind the failed call |
| FileDescriptorShuffle.PerformInjectiveMultimap | src/base3/file_descriptor_shuffle.cc:75-79 | the given list is not changed; for any delegate the table is that at the end of a run; with fresh temporaries the promise to callers in one place: parallel assignment, open set, closes, unmentioned descriptors unchanged; true and false as there |
| FileDescriptorShuffle.InjectionDelegate.Duplicate | src/base3/file_descriptor_shuffle.h:33-36 | a fresh element for the same object, not open and not reserved; or failure and no change. With nothing reserved this is dup(); a failure is recorded |
| FileDescriptorShuffle.InjectionDelegate.Move | src/base3/file_descriptor_shuffle.cc:86-88 | the destination refers to the object of the source, which stays open; or failure, which is recorded, and no change |
| FileDescriptorShuffle.InjectionDelegate.Close | src/base3/file_descriptor_shuffle.cc:90-93 | the descriptor is no longer open, and the close is recorded |
| FileDescriptorTable.ShuffleFileDescriptors | src/base3/file_descriptor_shuffle.h:77-80 | on the descriptor table of a process: for any list with distinct destinations the table and the closes are those of a run with what dup() returned; a parallel assignment with the right open set when sources are open and the condition holds; true exactly when no call has failed, with open sources exactly when the system has refused none |
| FileDescriptorRuns.CarriedStep | src/base3/file_descriptor_shuffle.cc:23-67 | a round keeps: every remaining arc finds, wherever it reads now, the object its source had at the start |
| FileDescriptorRuns.SameOriginStep | src/base3/file_descriptor_shuffle.cc:34-50 | a round keeps: arcs that read the same descriptor were given the same source |
| FileDescriptorRuns.OwnStep | src/base3/file_descriptor_shuffle.cc:34-50 | a round keeps: an arc reads its own source until an earlier arc overwrites that |
| FileDescriptorRuns.FlagsJustifiedStep | src/base3/file_descriptor_shuffle.cc:49-57 | a round keeps: a flagged arc reads its own source, and the flag stems from an arc with that source and no write to it in between |
| FileDescriptorRuns.NoFlagStep | src/base3/file_descriptor_shuffle.cc:51-66 | a round keeps, exactly because of the condition on identity arcs: no remaining arc asks to close a finished destination |
| FileDescriptorRuns.FinishedStep | src/base3/file_descriptor_shuffle.cc:60-66 | a round keeps: finished destinations hold their objects |
| FileDescriptorRuns.ClosesOnce | src/base3/file_descriptor_shuffle.cc:51-66 | with any temporaries, a round closes its source if and only if that is a flagged non-destination without later readers |
| FileDescriptorRuns.BalancedStep | src/base3/file_descriptor_shuffle.cc:23-67 | a round keeps the account of open descriptors: the given ones, destinations and temporaries, without what was closed |
| FileDescriptorRuns.EarlyTempsStep | src/base3/file_descriptor_shuffle.cc:34-48 | a round keeps: as long as the list is covered, temporaries are no destinations and as many as specified |
| FileDescriptorRuns.RunKeeps | src/base3/file_descriptor_shuffle.cc:23-67 | every run with dup() keeps all this at every arc |
| FileDescriptorTable.CoveredRunsWell | src/base3/file_descriptor_shuffle.cc:15-84 | if behind each arc that makes one of the first sixteen temporaries every destination is open from the start or negative, and identities are kept, any run with dup() is a parallel assignment, and what is open at the end is what should be and the temporaries beyond sixteen; their number is the specified one up to sixteen, and in all when the whole list is covered |
| FileDescriptorTable.OthersUnchanged | src/base3/file_descriptor_shuffle.cc:15-84 | in every run with dup() a descriptor that no arc mentions keeps its object |
| FileDescriptorTable.ClosesInRun | src/base3/file_descriptor_shuffle.cc:51-70 | every close of a run with dup(), as often as it happens |
| FileDescriptorTable.UncoveredRun | src/base3/file_descriptor_shuffle.cc:36-70 | otherwise dup() may return a destination that is not open yet, and there is a run that ends with it closed |
| FileDescriptorTable.UnkeptRun | src/base3/file_descriptor_shuffle.cc:32-66 | when identities are not kept there is a run that loses a destination and closes something else |
| FileDescriptorTable.DupSafeIff | src/base3/file_descriptor_shuffle.cc:15-84 | for open sources and distinct destinations: all runs with dup() are parallel assignments if and only if identities are kept and the first sixteen temporaries are covered; no bound on their number |
| FileDescriptorTable.DupClosesIff | src/base3/file_descriptor_shuffle.cc:51-66 | all runs with dup() close by their arcs exactly the flagged non-destinations, once each, if and only if identities are kept |
| FileDescriptorTable.ClosedSourceTaken | src/base3/file_descriptor_shuffle.cc:36-70 | a concrete run whose closed source is handed out as a temporary, read, and closed twice |
| FileDescriptorTable.DupLosesDestination | src/base3/file_descriptor_shuffle.cc:34-70 | a concrete run: 0 to 3 open, arcs 3 to 1 and 1 to 4, and 4 ends closed |
| ReadWriteLock.StepKeeps | src/base3/rwlock.h:20-63 | every atomic step of every thread keeps the invariant: counters equal holders and waiters, a writer is alone, no wakeup is lost, waiting readers are notified when no writer writes or waits |
| ReadWriteLock.ReadLockKeeps | src/base3/rwlock.h:20-25 | entering or starting to wait as a reader keeps the invariant |
| ReadWriteLock.ReadWakeKeeps | src/base3/rwlock.h:24-30 | waking up as a reader, spuriously or not, keeps the invariant |
| ReadWriteLock.ReadUnlockKeeps | src/base3/rwlock.h:33-39 | leaving as a reader keeps the invariant, and the counter does not go below zero |
| ReadWriteLock.WriteLockKeeps | src/base3/rwlock.h:41-45 | entering or starting to wait as a writer keeps the invariant |
| ReadWriteLock.WriteWakeKeeps | src/base3/rwlock.h:45-52 | waking up as a writer, spuriously or not, keeps the invariant |
| ReadWriteLock.WriteUnlockKeeps | src/base3/rwlock.h:55-63 | leaving as a writer keeps the invariant, whichever writer notify_one picks |
| ReadWriteLock.NotifyOneWakes | src/base3/rwlock.h:37-38 | after notify_one with a waiting writer, some waiting writer is awake and no role has changed |
| ReadWriteLock.CountersFollow | src/base3/rwlock.h:20-63 | when one thread changes its role, the counts of all roles change accordingly, and stay inside the unsigned range |
| ReadWriteLock.ExecutionKeeps | src/base3/rwlock.h:20-63 | the invariant holds in every state of every execution |
| ReadWriteLock.MutualExclusion | src/base3/rwlock.h:20-63 | at every moment of every execution, while a thread writes no other thread reads or writes |
| ReadWriteLock.NoLostWakeup | src/base3/rwlock.h:20-63 | while nobody holds the lock and somebody waits, some thread is notified and its loop guard lets it enter |
| ReadWriteLock.WriterPreference | src/base3/rwlock.h:22-26 | while a writer waits, no thread becomes a reader |
| ReadWriteLock.DrainingIsBounded | src/base3/rwlock.h:20-63 | without new arrivals an execution can take only as many effective steps as a measure of its first state |
| ReadWriteLock.DrainedMeansServed | src/base3/rwlock.h:20-63 | when no such step is possible, every thread is idle and all counters are zero |
| ReadWriteLock.DrainStep | src/base3/rwlock.h:20-63 | every step that may happen without an arrival can be taken: it is never blocked |
| ReadWriteLock.RunsDry | src/base3/rwlock.h:20-63 | from every state that satisfies the invariant there is a run without arrivals that ends where no such step is possible |
| ReadWriteLock.WaiterHolds | src/base3/rwlock.h:20-53 | a thread that no longer waits has held the lock in the mode it waited for |
| ReadWriteLock.EveryWaiterIsServed | src/base3/rwlock.h:20-63 | from any state of any execution on, if nobody new arrives the run ends within the bound and every waiter has held the lock |
| ReadWriteLock.EveryWaiterCanBeServed | src/base3/rwlock.h:20-63 | from every state of every execution such a run exists, and in it the waiter has held the lock |
| ReadWriteLock.ReaderStarves | src/base3/rwlock.h:20-63 | for any number of threads from three on and of turns, an execution in which that many writers are served one after the other while a reader waits throughout, unnotified |
| ReadWriteLock.ReadWriteLock.ReadLock | src/base3/rwlock.h:20-31 | the code up to the wait is the reader's step, keeps the invariant, and reports whether the lock is held |
| ReadWriteLock.ReadWriteLock.ReadWake | src/base3/rwlock.h:24-30 | the code behind a wakeup is the reader's waking step and keeps the invariant |
| ReadWriteLock.ReadWriteLock.ReadUnlock | src/base3/rwlock.h:33-39 | is the releasing step, with its notification, and keeps the invariant |
| ReadWriteLock.ReadWriteLock.WriteLock | src/base3/rwlock.h:41-53 | the code up to the wait is the writer's step and keeps the invariant |
| ReadWriteLock.ReadWriteLock.WriteWake | src/base3/rwlock.h:45-52 | the code behind a wakeup is the writer's waking step and keeps the invariant |
| ReadWriteLock.ReadWriteLock.WriteUnlock | src/base3/rwlock.h:55-63 | is the releasing step, one writer or else all readers notified, and keeps the invariant |
| ReadWriteLock.ReadWriteLock.NotifyOneWriter | src/base3/rwlock.h:38 | notifies any one of the writers that wait and changes nothing else |
| Md5Rounds.F1IsF | src/base3/md5.cc:47-48 | the optimized F1 is F of section 3.4 of RFC 1321 on all words |
| Md5Rounds.F2IsG | src/base3/md5.cc:49 | F2, which is F1 with its arguments turned, is G of section 3.4 of RFC 1321 |
| Md5Rounds.Advance | src/base3/md5.cc:54-55 | one macro call with the word, constant and shift that the standard schedules continues the standard's operations by one, in rotated registers |
| Md5Rounds.MD5Transform | src/base3/md5.cc:62-142 | the 64 unrolled calls compute the four rounds of section 3.4 of RFC 1321, given there by formulas for word index and shift over the table of its 64 constants |
| Md5.FoldAppend | src/base3/md5.cc:162-206 | the transform may be folded over a message in aligned parts |
| Md5.BitCount | src/base3/md5.cc:169-172 | the two words of the bit count, with the carry recognized by wrap-around, are 8 times the total length modulo 2^64 |
| Md5.ByteReverse | src/base3/md5.cc:36-44 | in place, each word is turned from low-order-byte-first into the byte order of the machine, and the bytes behind are unchanged |
| Md5.NativeIsLittle | src/base3/md5.cc:186-200 | behind byteReverse the machine reads the words that section 2 of RFC 1321 means, whatever its byte order |
| Md5.ReorderedStore | src/base3/md5.cc:248-249 | a register that has been through byteReverse lies in memory low-order byte first |
| Md5.PaddedLength | src/base3/md5.cc:217-245 | the padding of sections 3.1 and 3.2 of RFC 1321 has 9 to 72 bytes and completes a block |
| Md5.DigestOfRest | src/base3/md5.cc:212-251 | the digest of a message is the fold over its complete blocks and then over the buffered rest with the padding |
| Md5.Context.constructor | src/base3/md5.cc:148-156 | a context that represents the empty message |
| Md5.Context.AddToCount | src/base3/md5.cc:169-174 | counts the new bytes, and tells how many are buffered |
| Md5.Context.ProcessChunks | src/base3/md5.cc:195-201 | the block loop folds complete blocks and leaves less than one |
| Md5.Context.Update | src/base3/md5.cc:162-206 | the context represents the message so far followed by the data: folded registers, bit count and buffered rest |
| Md5.Context.Pad | src/base3/md5.cc:217-240 | mark and zeros, with one block more when the length does not fit |
| Md5.Context.AppendLength | src/base3/md5.cc:241-247 | the last block holds the bit count low-order word first, on either machine |
| Md5.Context.Emit | src/base3/md5.cc:248-249 | the registers leave in the byte order of section 3.5 of RFC 1321 |
| Md5.Context.Final | src/base3/md5.cc:212-251 | yields the RFC 1321 digest of everything passed to Update; of the context only the first two registers are cleared: the other two still determine the second half of the digest, the bit counts are unchanged, and the buffer, which is not zero, holds the last block of the padded message |
| Md5.NotCleared | src/base3/md5.cc:217-250 | memory that holds the words of the last padded block is not all zero, whatever the message |
| Md5.MD5Sum | src/base3/md5.cc:268-273 | yields the RFC 1321 digest of the data |
| Md5.DigestInParts | src/base3/md5.cc:148-251 | however a message is cut into parts, the digest is that of the whole, on either machine |
| Md5Answers.EmptyDigest | src/base3/md5.cc:62-251 | the digest of the empty message as literal bytes, as section A.5 of RFC 1321 has it |
| Md5Answers.AbcDigest | src/base3/md5.cc:62-251 | the same for "abc": length words and byte order |
| Md5Answers.LettersDigest | src/base3/md5.cc:62-251 | the same for the sixty-two letters and digits: two blocks, all sixteen words of the first different |
| AlterEnvironment.Measure | src/base3/process_util_posix.cc:362-403 | the sizing pass in unsigned arithmetic computes the slots and bytes of its specification |
| AlterEnvironment.SizesExact | src/base3/process_util_posix.cc:362-475 | for unambiguous input the count and size of pass one are the number of entries and of bytes that the filling passes write |
| AlterEnvironment.SizesExactIff | src/base3/process_util_posix.cc:362-475 | for given keys of changes and entries: pass one is exact for all values if and only if the keys are unambiguous |
| AlterEnvironment.RewrittenStep | src/base3/process_util_posix.cc:371-396 | one more change alters count and size of the result by what pass one subtracts and adds for it |
| AlterEnvironment.DistinctIsUnambiguous | src/base3/process_util_posix.cc:362-403 | distinct keys on both sides, none of the changes with an equals sign, make the input unambiguous |
| AlterEnvironment.AmbiguousSizesDiffer | src/base3/process_util_posix.cc:371-396 | a duplicated key for which pass one computes fewer bytes than are written |
| AlterEnvironment.FillRewritten | src/base3/process_util_posix.cc:411-445 | the second pass writes the kept and rewritten entries in order, pointers and bytes, or stops where it would leave the priced block |
| AlterEnvironment.FillAdditions | src/base3/process_util_posix.cc:447-475 | the third pass appends the changes whose key is new, in their order, or stops in the same way |
| AlterEnvironment.AlterEnvironment | src/base3/process_util_posix.cc:360-479 | for any input: the block has the priced sizes; it is filled without leaving it if and only if slots and bytes of the entries and the final NULL fit, and then every slot points to its entry; for unambiguous input they fit, with no byte to spare |
| AlterEnvironment.ReadBack | src/base3/process_util_posix.cc:405-475 | the C string at the place a slot points to is the entry |
| AlterEnvironment.AlteredMeaning | src/base3/process_util_posix.cc:411-475 | for changes with distinct keys without an equals sign: looking up any key in the result gives the old environment overridden by the changes, where an empty value removes the key |
| AlterEnvironment.OthersKept | src/base3/process_util_posix.cc:411-445 | entries that no change names, those without an equals sign included, stay as they are and in order; others like them come in if and only if a new key itself contains an equals sign |
| AlterEnvironment.AlteredLookup | src/base3/process_util_posix.cc:411-475 | for any changes: the setting of any key in the result |
| AlterEnvironment.RewrittenAllLookup | src/base3/process_util_posix.cc:411-445 | the second pass alone: a key that is set gets the value of its first change, or is removed; a key that is not stays unset |
| AlterEnvironment.AdditionsLookup | src/base3/process_util_posix.cc:447-475 | the third pass alone sets exactly the changed keys that are new and not empty, the first one in each case |
| PickleFormat.AlignIntRoundsUp | src/base3/pickle.h:209-212 | both alignments in use give the next multiple |
| PickleFormat.LaidAppend | src/base3/pickle.cc:288-323 | appending at the aligned end of a laid-out payload lays out one chunk more, whatever is in the gap |
| PickleFormat.LaidTrim | src/base3/pickle.cc:372-387 | shortening the last chunk and rewriting the length in front of it gives the layout of the shorter data |
| PickleFormat.ReadAllBack | src/base3/pickle.cc:99-286 | from any chunk boundary, reading the kinds of the values laid out there gives those values and stops at the next boundary |
| PickleFormat.RoundTrip | src/base3/pickle.cc:99-350 | reading the kinds that were written, in order, gives exactly the values, and a further ReadInt fails |
| PickleFormat.ReadsStayInPayload | src/base3/pickle.cc:259-273 | on any bytes: a read that succeeds returns a part of the payload, and the iterator stays inside it |
| PickleFormat.RejectedYieldsNothing | src/base3/pickle.cc:42-59 | a rejected pickle yields no value of any kind, save the empty run of raw bytes |
| PickleFormat.Int64RoundTrip | src/base3/pickle.cc:180-192 | a signed 64-bit integer is the one its eight bytes were made from |
| PickleFormat.WideRoundTrip | src/base3/pickle.cc:224-257 | a string of four-byte characters is the one its bytes were made from |
| PickleExamples.Integers | src/base3/pickle.h:89-113 | integers as literal bytes, the low byte first and negative ones included |
| PickleExamples.Payload | src/base3/pickle.cc:288-350 | the sixteen bytes of a payload of an integer, a string of three bytes and a bool |
| Pickle.Pickle.constructor | src/base3/pickle.cc:31-40 | an empty owned pickle whose header size is rounded up |
| Pickle.Pickle.FromData | src/base3/pickle.cc:42-59 | arbitrary bytes are accepted if and only if the payload fits and leaves a header that is a positive multiple of four; then header and payload make up the data |
| Pickle.UnsignedSize | src/base3/pickle.cc:47-56 | the unsigned subtraction of a payload that is too large is recognized by its wrap-around |
| Pickle.Pickle.Copy | src/base3/pickle.cc:61-70 | an owned pickle of the same contents in memory of its own |
| Pickle.Pickle.Assign | src/base3/pickle.cc:77-97 | an owned pickle of the contents of the other, which is unchanged, whatever it was before; assigning it to itself does nothing; failure exactly when an allocation is refused |
| Pickle.Pickle.Resize | src/base3/pickle.cc:389-400 | a capacity that is a multiple of 64 with the old contents; or the allocation is refused, which is recorded, and nothing changes |
| Pickle.Pickle.BeginWrite | src/base3/pickle.cc:288-303 | an aligned place with room for data and padding inside the allocation, the old payload kept; or failure and no change; failure exactly when an allocation is refused, and never while the data fit the capacity |
| Pickle.Pickle.EndWrite | src/base3/pickle.cc:305-310 | zeros up to the next aligned offset and nothing else |
| Pickle.RoomForPadding | src/base3/pickle.cc:288-310 | because capacity and offsets are multiples of four, the padding of the last write lies inside the allocation |
| Pickle.Pickle.WriteBytes | src/base3/pickle.cc:312-323 | the payload is the old one, an alignment gap, and the data; or failure and no change; failure exactly when an allocation is refused, never while the data fit the capacity |
| Pickle.Pickle.WriteCounted | src/base3/pickle.cc:325-350 | a length and the bytes it announces are laid out as two chunks; failure exactly when an allocation is refused, never while both fit |
| Pickle.Pickle.Write | src/base3/pickle.h:89-113 | every typed write lays out the chunks of its value; failure exactly when an allocation is refused, never while the value fits |
| Pickle.Pickle.BeginWriteData | src/base3/pickle.cc:352-370 | a counted buffer at the end of the payload, and the remembered place of its length; a negative length is refused; otherwise failure exactly when an allocation is refused, never while the buffer fits |
| Pickle.Pickle.TrimWriteData | src/base3/pickle.cc:372-387 | a valid new length leaves the layout of the shortened data, and the payload ends that much earlier, also when later writes have followed; any other length leaves the payload alone |
| Pickle.Pickle.WriteInPlace | src/base3/pickle.cc:352-387 | reserving, filling and trimming lays out the kept part; a length that is out of range keeps everything; failure exactly when an allocation is refused, never while the buffer fits |
| Pickle.WriteOp | src/base3/pickle.cc:288-387 | a typed write or an in-place one lays out the chunks of the value that was meant; failure as there |
| Pickle.Pickle.ReadBytes | src/base3/pickle.cc:259-273 | on owned and read-only pickles, reads as the specification over the visible bytes does, iterator included |
| Pickle.Pickle.ReadInt | src/base3/pickle.cc:110-125 | the same for integers |
| Pickle.Pickle.ReadLength | src/base3/pickle.cc:143-147 | the same for lengths: a negative one fails |
| Pickle.Pickle.ReadString | src/base3/pickle.cc:208-222 | the same for strings |
| Pickle.Pickle.ReadWString | src/base3/pickle.cc:224-257 | the same for wide strings |
| Pickle.WriteAll | src/base3/pickle.cc:288-387 | any sequence of typed writes and at most one in-place one, anywhere among them, within the size limits, reads back as what was meant and then no further; it fails exactly when an allocation is refused, and not when everything fits the capacity |
| Pickle.CopyAndRead | src/base3/pickle.cc:61-70 | a copy reads back the same values |
| Pickle.Reopen | src/base3/pickle.cc:42-59 | a read-only pickle over data() and size() is accepted and shows the same contents |
| Pickle.FindNextOfPickle | src/base3/pickle.cc:403-416 | in bytes that begin with a complete pickle its end is found; in any shorter beginning nothing is |
| ConsistentHash.RemovalMovesOnlyItsOwn | src/base3/consistenthash.h:23-106 | without clashing labels: after a server is removed, every hash that was not located at it keeps its server |
| ConsistentHash.AdditionMovesOnlyToIt | src/base3/consistenthash.h:23-106 | after a server is added or its capacity raised, a hash that moves, moves to it |
| ConsistentHash.OwnerUnique | src/base3/consistenthash.h:65-106 | without clashes the owner of a hash depends on the servers only, not on the order of equal points |
| ConsistentHash.IndexIsNearest | src/base3/consistenthash.h:27-34 | the located point is the clockwise nearest one on the ring modulo 2^32 |
| ConsistentHash.LocatedStretch | src/base3/consistenthash.h:132-140 | a stretch of hashes with one location adds its length to that server and nothing to others |
| ConsistentHash.PointOwnsItself | src/base3/consistenthash.h:27-34 | a hash that is a point of the ring is located at that point |
| ConsistentHash.HexReads | src/base3/consistenthash.h:86 | the digits of a label denote its number, without superfluous zeros |
| ConsistentHash.LabelReads | src/base3/consistenthash.h:86 | server and number can be read from a label: different points never have the same one |
| ConsistentHash.Continuum.Add | src/base3/consistenthash.h:47-51 | sets the capacity; the ring in use is unchanged |
| ConsistentHash.Continuum.Remove | src/base3/consistenthash.h:52-57 | forgets the server; the ring in use is unchanged |
| ConsistentHash.Continuum.Clear | src/base3/consistenthash.h:58-62 | no servers; the ring in use is unchanged |
| ConsistentHash.Continuum.TotalPoint | src/base3/consistenthash.h:67-72 | the sum of the capacities modulo 2^32 |
| ConsistentHash.Continuum.CollectPoints | src/base3/consistenthash.h:83-94 | exactly one point for each label of each server: the hash of the chars that snprintf leaves in the buffer, as many as it says |
| ConsistentHash.Continuum.Rebuild | src/base3/consistenthash.h:65-106 | a sorted ring of exactly the points of the servers; false and no change if and only if the sum is zero modulo 2^32 |
| ConsistentHash.Continuum.Locate | src/base3/consistenthash.h:23-38 | the server of the first point not below the hash, or of the first point; empty for an empty ring |
| ConsistentHash.Continuum.LocateOwns | src/base3/consistenthash.h:23-38 | on a ring that was built from the servers, Locate names the owner of the hash |
| ConsistentHash.Continuum.Dump | src/base3/consistenthash.h:124-140 | each server's share is the number of hashes in 1..2^32-1 located at it, and the shares add up to 2^32-1 |
| ConsistentHash.LocateAcrossRemove | src/base3/consistenthash.h:23-106 | the removal theorem on the class: Locate, Remove, Rebuild, Locate |
| ConsistentHash.LocateAcrossAdd | src/base3/consistenthash.h:23-106 | the addition theorem on the class: Locate, Add, Rebuild, Locate |
| Hashing.MurmurHash2 | src/base3/hash.h:24-65 | the block loop and the fall-through switch compute the recursive definition over blocks and tail |
| Hashing.MurmurSeparatesBlocks | src/base3/hash.h:37-65 | keys of one length that differ inside one aligned four-byte block have different hashes, for every seed |
| Hashing.MurmurSeparatesTails | src/base3/hash.h:51-65 | keys of one length that differ only behind the last block have different hashes |
| Hashing.MixBijective | src/base3/doobs_hash.cc:37-48 | mix has an inverse on three words, from both sides |
| Hashing.MixWords | src/base3/doobs_hash.cc:37-48 | the nine lines of the macro, which updates its arguments in turn |
| Hashing.CharsInjective | src/base3/doobs_hash.cc:62-64 | the sum of sign-extended chars still determines the four chars |
| Hashing.DoobsHash | src/base3/doobs_hash.cc:50-90 | the block loop and the fall-through switch compute the recursive definition, and the hash is its third word |
| Hashing.DoobsSeparatesBlocks | src/base3/doobs_hash.cc:60-87 | keys of one length that differ inside one block of twelve leave different words a, b, c |
| Hashing.DoobsSeparatesTails | src/base3/doobs_hash.cc:70-87 | keys of one length that differ only behind the last block of twelve leave different words a, b, c |
| HashAnswers.MurmurAnswer | src/base3/hash.h:24-65 | the value for a key of seven bytes and a seed, as a literal |
| HashAnswers.DoobsAnswer | src/base3/doobs_hash.cc:50-90 | the three words for a key of twenty-three chars, some of them negative, as literals |
| CommandLine.WindowsStyleQuote | src/base3/command_line.cc:363-403 | the loops build the quoted form that the parsing theorem is about |
| CommandLine.ScanBody | src/base3/command_line.cc:371-400 | inside the added quotes the parser reads back exactly the argument: 2n and 2n+1 backslashes before a quote |
| CommandLine.ParseLine | src/base3/command_line.cc:361-403 | a line of quoted arguments, each behind a space, parses to the arguments found one by one |
| CommandLine.QuotingIff | src/base3/command_line.cc:361-403 | a list of arguments is read back as it was if and only if each is non-empty and free of tabs or quoted |
| CommandLine.LostArguments | src/base3/command_line.cc:366-369 | the empty argument disappears, an argument with a bare tab splits in two |
| CommandLine.CommandLine.AppendArgNative | src/base3/command_line.cc:423-427 | the command line stays the program followed by the quoted arguments |
| CommandLine.CommandLine.ArgumentsArrive | src/base3/command_line.cc:423-427 | a program that parses what follows its name gets the appended arguments |
| CommandExamples.Quoted | src/base3/command_line.cc:363-365 | an example of the page that the source cites, parsed: a quoted argument |
| CommandExamples.Inside | src/base3/command_line.cc:363-365 | the same: quotes inside an argument, and backslashes that no quote follows |
| CommandExamples.Odd | src/base3/command_line.cc:363-365 | the same: an odd number of backslashes before a quote |
| CommandExamples.Even | src/base3/command_line.cc:363-365 | the same: an even number |
| CommandExamples.Written | src/base3/command_line.cc:371-400 | what is written for an argument with a blank, a quote behind a backslash, and a backslash at the end |
| StringEncode.RoundTrip | src/base3/stringencode.cc:64-224 | for escape, encode, url_encode, xml_encode and UrlQueryEscape, every text and every list of illegal characters: the matching decoder gives the text back |
| StringEncode.LongestIsLongest | src/base3/stringencode.cc:72-80 | a prefix has an encoding that fits if and only if it is not longer than the one written |
| StringEncode.CutRoundTrip | src/base3/stringencode.cc:64-224 | what is decoded from a cut output is the longest prefix of the text whose encoding fits |
| StringEncode.IllegalRemovedIff | src/base3/stringencode.cc:112-125 | encode removes the illegal characters from all texts if and only if neither the escape character nor a digit it writes is illegal |
| StringEncode.EncodedHarmless | src/base3/stringencode.cc:161-200 | url_encode and UrlQueryEscape write only characters that are plain in a URL, besides percent and plus signs; xml_encode writes no markup |
| StringEncode.TablesAre | src/base3/stringencode.cc:161-174 | exactly which characters the three tables mark |
| StringEncode.Utf8Iff | src/base3/stringencode.cc:261-285 | utf8_encode writes the one well-formed sequence of the right length whose bits are the value |
| StringEncode.Utf8Order | src/base3/stringencode.cc:261-285 | byte strings are in the order of the values |
| StringEncode.Utf8Examples | src/base3/stringencode.cc:261-285 | the examples of section 7 of RFC 3629 as literal bytes, each length among them |
| StringEncode.HexReadBack | src/base3/stringencode.cc:53-62 | both digits of a byte, in lower or upper case, are combined to the byte again |
| StringEncode.HexPairOfDigits | src/base3/stringencode.cc:140-141 | on digits, shift and bitwise or is sixteen times the one plus the other |
| StringEncode.DecodedPrefix | src/base3/stringencode.cc:136-148 | a buffer that is too small cuts the output of a decoder but does not change it, and a single-byte decoder then fills it up to the terminator |
| StringEncode.FilledIff | src/base3/stringencode.cc:385-435 | xml_decode leaves no byte for the terminator if and only if a character reference of several bytes ends at the end of the buffer |
| StringEncode.FilledExample | src/base3/stringencode.cc:261-285 | two bytes are written into a buffer of two |
| StringCodecs.Escape | src/base3/stringencode.cc:64-84 | the buffer holds the encoding of the longest prefix that fits, then NUL, and is unchanged behind |
| StringCodecs.Encode | src/base3/stringencode.cc:105-128 | the same for encode |
| StringCodecs.UrlEncode | src/base3/stringencode.cc:176-200 | the same for url_encode; without a buffer, a sufficient size |
| StringCodecs.XmlEncode | src/base3/stringencode.cc:345-376 | the same for xml_encode |
| StringCodecs.UrlQueryEscape | src/base3/escape.h:122-151 | the C string read from the local buffer is the whole encoding: no NUL is in it and it fits |
| StringCodecs.Unescape | src/base3/stringencode.cc:86-103 | the buffer holds what the text decodes to, then NUL, and is unchanged behind, also when it is the source |
| StringCodecs.Decode | src/base3/stringencode.cc:130-149 | the same for decode, also in place |
| StringCodecs.UrlDecode | src/base3/stringencode.cc:202-224 | the same for url_decode, also in place; without a buffer, a sufficient size |
| StringCodecs.XmlDecode | src/base3/stringencode.cc:378-437 | the same for xml_decode, also in place; a NUL follows if the buffer is not full, which only a reference of several bytes can make it |
| StringCodecs.DecodeTurn | src/base3/stringencode.cc:386-433 | one turn writes what the text at this position stands for, or stops without a change |
| StringCodecs.Utf8Encode | src/base3/stringencode.cc:261-285 | writes the shortest form if it fits, otherwise nothing |
| StringCodecs.HtmlDecode | src/base3/stringencode.cc:339-343 | as xml_decode |
| StringCodecs.Unread | src/base3/stringencode.h:57-58 | in place, what is still to be read has not been overwritten |
| StringCodecs.SUrlEncode | src/base3/stringencode.cc:485-492 | the buffer that s_transform allocates is large enough for the whole encoding |
| StringCodecs.SUrlDecode | src/base3/stringencode.cc:485-492 | and for the whole decoding |
| StringCodecs.UrlThereAndBack | src/base3/stringencode.h:121-126 | s_url_decode undoes s_url_encode and UrlQueryEscape on every string |
| StringCodecs.CutThereAndBack | src/base3/stringencode.cc:345-437 | encoding into a buffer of any size and decoding in place leaves the longest prefix whose encoding fits |
| HtmlEncode.HtmlRoundTripIff | src/base3/stringencode.cc:287-343 | html_decode undoes html_encode on a text if and only if it is a sequence of shortest forms of values up to 0x1FFFFF |
| HtmlEncode.HtmlEncodedPlain | src/base3/stringencode.h:86-88 | html_encode writes ASCII without markup, whatever the text |
| HtmlEncode.HtmlReadBack | src/base3/stringencode.cc:287-437 | on every text: what comes back is each character in its shortest form |
| HtmlEncode.NormalIff | src/base3/stringencode.cc:226-285 | a text is its own normal form if and only if it is a sequence of shortest forms |
| HtmlEncode.Utf8RoundTrip | src/base3/stringencode.cc:226-285 | utf8_decode reads back the value and length of what utf8_encode wrote, whatever follows |
| HtmlEncode.Utf8DecodeIff | src/base3/stringencode.cc:226-259 | what utf8_decode reads from any bytes: a well-formed sequence, overlong or not, and its bits, or nothing |
| HtmlEncode.Utf8Local | src/base3/stringencode.cc:226-259 | cutting the text behind the bytes that are used does not change what is read |
| HtmlEncode.ReadHtmlUnit | src/base3/stringencode.cc:295-332 | every unit that html_encode writes is one turn of the decoder, entities and decimal references alike |
| HtmlEncode.ReferenceFits | src/base3/stringencode.cc:318-327 | no reference needs more than the eleven chars set aside for it |
| HtmlEncode.Latin1Changes | src/base3/stringencode.cc:323-326 | a text that does not come back |
| HtmlEncode.HtmlCut | src/base3/stringencode.cc:294-334 | what is written is the encoding of a prefix that ends between characters, and one more character would not fit |
| HtmlEncode.HtmlEncode | src/base3/stringencode.cc:287-337 | the buffer holds that encoding, then NUL, and is unchanged behind |
| HtmlEncode.HtmlThereAndBack | src/base3/stringencode.cc:287-343 | with room for the whole, encoding and decoding in place gives the text back if and only if it is in shortest form |
| StringExamples.XmlWritten | src/base3/stringencode.cc:353-360 | the five entities of xml_encode, spelled out |
| StringExamples.HtmlWritten | src/base3/stringencode.cc:298-308 | those of html_encode, where the apostrophe is a number |
| StringExamples.UrlWritten | src/base3/stringencode.cc:184-196 | url_encode of a slash and a space, in lower case |
| StringExamples.QueryWritten | src/base3/escape.h:133-146 | UrlQueryEscape of a slash, a space and a plus sign, in upper case |
| StringExamples.EscapeWritten | src/base3/stringencode.cc:72-125 | escape and encode of a listed character and of the escape character |
| StringExamples.LessRead | src/base3/stringencode.cc:386-433 | one entity name read alone |
| StringExamples.GreaterRead | src/base3/stringencode.cc:386-433 | one entity name read alone |
| StringExamples.AmpersandRead | src/base3/stringencode.cc:386-433 | one entity name read alone |
| StringExamples.QuotesRead | src/base3/stringencode.cc:386-433 | two entity names, each read alone |
| StringExamples.UrlRead | src/base3/stringencode.cc:210-222 | digits in either case, and the plus sign |
| StringExamples.CutOff | src/base3/stringencode.cc:86-224 | an escape that is cut off stands for itself |
| StringExamples.Stops | src/base3/stringencode.cc:386-433 | the text in front of an ampersand that cannot be read |
| StringExamples.EuroRead | src/base3/stringencode.cc:386-433 | the three bytes of the euro sign from its decimal number |
| StringExamples.EuroReadHex | src/base3/stringencode.cc:386-433 | and from its hexadecimal number |
| StringExamples.EuroWritten | src/base3/stringencode.cc:318-327 | html_encode of these bytes |
| NumberConversions.Invoke | src/base3/string_number_conversions.cc:176-200 | true if and only if the text is an optional sign and digits with a value in range; the output is the clamped value of the first run of digits behind white space and sign |
| NumberConversions.InvokeDigits | src/base3/string_number_conversions.cc:208-244 | the same for either sign behind the sign; no intermediate value leaves the type |
| NumberConversions.CheckBoundsPositive | src/base3/string_number_conversions.cc:248-256 | without computing it, whether ten times the output plus the digit exceeds the maximum |
| NumberConversions.CheckBoundsNegative | src/base3/string_number_conversions.cc:264-272 | the same below the minimum, with division truncating toward zero |
| NumberConversions.IntToString | src/base3/string_number_conversions.cc:64-96 | the decimal notation, the minimum included, written from the right into a buffer that never fills up |
| NumberConversions.Fits | src/base3/string_number_conversions.cc:65-71 | three chars a byte and one more are room for all digits, a sign and one char |
| NumberConversions.WrapAndCast | src/base3/string_number_conversions.cc:39-44 | negating the minimum and converting to unsigned gives its magnitude |
| NumberConversions.DecimalReads | src/base3/string_number_conversions.cc:64-96 | decimal notation denotes the number it was made from |
| NumberConversions.NoLeadingZero | src/base3/string_number_conversions.cc:78-88 | no zero in front of the digits |
| NumberConversions.SpacesAre | src/base3/string_number_conversions.cc:157-159 | which characters are white space |
| NumberConversions.PrintAndParse | src/base3/string_number_conversions.cc:64-276 | parsing what was printed succeeds and gives the value back, for all values of both types |
| StringTokenizer.TokensMeaning | src/base3/string_tokenizer.h:170-239 | with RETURN_DELIMS the tokens make up the text; without, the text less the delimiters of one run over the whole of it |
| StringTokenizer.NextMeaning | src/base3/string_tokenizer.h:187-206 | each token is one delimiter of that run, or a longest stretch without one; what is skipped are delimiters |
| StringTokenizer.TokenEndMeaning | src/base3/string_tokenizer.h:203-204 | a token ends at the next delimiter outside quotes, or at the end |
| StringTokenizer.BreakIff | src/base3/string_tokenizer.h:224-239 | what ends a token is exactly the delimiters outside quotations, where a quotation ends at the next instance of the character that opened it, save those that a backslash hides |
| StringTokenizer.QuotationEnds | src/base3/string_tokenizer.h:224-239 | no character of a quotation breaks, and behind its end the automaton is outside again |
| StringTokenizer.Tokenizer.AdvanceOne | src/base3/string_tokenizer.h:224-239 | one step of the quote automaton; false for a delimiter outside quotes |
| StringTokenizer.Tokenizer.QuickGetNext | src/base3/string_tokenizer.h:170-184 | without quotes and options, the same token as the full version gives |
| StringTokenizer.Tokenizer.FullGetNext | src/base3/string_tokenizer.h:187-206 | the next token of the specification |
| StringTokenizer.Tokenizer.GetNext | src/base3/string_tokenizer.h:127-132 | the next token of the specification on either path |
| StringTokenizer.Tokenize | src/base3/string_tokenizer.h:127-206 | running to the end yields all tokens, whose concatenation is the text or what is kept of it |

## Left out

- FileDescriptorTable.DupSafeIff: for open sources. A negative destination counts as harmless: dup2() refuses it, so that such a list has no run.
- FileDescriptorShuffle.PerformInjectiveMultimapDestructive: destinations are distinct, as the source asserts.
- ReadWriteLock: threads that take the lock twice, and the memory order of the hardware; each critical section is one atomic step.
- ReadWriteLock.EveryWaiterIsServed: fairness is "nobody new arrives"; ReaderStarves shows that more cannot be promised.
- Md5.Context.Update: lengths are below 2^64, as size_t requires; MD5DigestToBase16 and MD5String are formatting.
- AlterEnvironment.AlterEnvironment: the source makes one allocation for pointers and bytes; here they are two arrays, and pointers are offsets. Where the source would write outside the priced sizes the model stops and says so; what such a write overwrites is not modelled.
- AlterEnvironment.AlteredMeaning: for distinct keys without an equals sign; AlteredLookup is the statement for all lists.
- CloseSuperfluousFds and the rest of process_util_posix.cc are process control.
- Pickle: sizes are within the 32-bit integers of the format; longer writes wrap in the source. The reads of bool, long, size_t and the other integer types are modelled on values, by the readers of PickleFormat.
- Pickle.Pickle.Assign: a pickle is not assigned a read-only view of its own buffer.
- ConsistentHash.Continuum.Rebuild: labels of more than 21 chars, for which the source hashes what lies behind its buffer of 21 bytes (with exactly 21, the NUL is hashed in place of the last char), and the choice among equal points that std::sort leaves open; the capacities may wrap modulo 2^32.
- ConsistentHash.Continuum.CollectPoints: the same labels.
- ConsistentHash.LocateAcrossRemove: the same labels.
- ConsistentHash.LocateAcrossAdd: the same labels.
- ConsistentHash.Continuum.Dump: the text and the variance; the locking, which takes the read lock a second time in size().
- ConsistentHash.RemovalMovesOnlyItsOwn: labels of different servers must not have the same hash; with a clash the order of equal points decides.
- Hashing.MurmurSeparatesBlocks: keys below 4 GB, as the 32-bit length says; little-endian reads.
- Hashing.DoobsSeparatesBlocks: about the three final words; the hash is only one of them and may collide.
- CommandLine: the parsing rules are those the source cites, for arguments behind the program name; switches and the POSIX variant are simple containers.
- StringEncode.ReadReference: strtoul is a run of digits; white space, a sign or a second prefix in front of them is not modelled. That it may read past the source is cut off at the end of the source, which gives the same result.
- StringCodecs.XmlDecode: where FilledIff applies, the source puts its NUL behind the buffer; the model puts none where there is no cell.
- StringCodecs.HtmlDecode: the same.
- StringCodecs.Unescape: buffer and source are the same array or different ones; other overlaps are not allowed by the header either.
- StringCodecs.SUrlEncode: the buffer is a fresh array; the stack allocation of the source is not modelled.
- hex_encode and hex_decode of whole strings, transform and make_char_safe_for_filename would add easy members.
- UrlQueryEscape keeps its lengths in int; texts of 700 MB and more are not modelled.
- NumberConversions: HexStringToInt, whose accumulator becomes negative so that its bound check fails, and the conversions of floating point.
- NumberConversions.ToUnsigned: negating the minimum is undefined in the source language; the model wraps it, as compilers do.
- cache.h, messagequeue.h, scoped pointers, string_split, pathops, string_piece and jdbcurl are not part of this model.
- Calls into the operating system, logging, bindings and thread wrappers are not part of this model.
