# hisat read input and ordered output, modelled in Dafny

This project models two parts of the hisat aligner.

The first is the read input layer of `pat.cpp`. It covers:

- the per-read random seed (`genRandSeed`);
- the per-thread dispenser (`finalize`, `finalizePair`, `nextReadPair`);
- the solo and dual composers, which walk a list of read sources;
- the file-backed source's `nextBatch`, which rotates through input files;
- the FASTA light batcher and parser;
- the FASTQ raw batcher and parser;
- the command-line (`VectorPatternSource`) trimming and padding;
- the tab-delimited `parseName` and `parseSeq`;
- the SRA ring of read pairs (`SRA_Data`).

The second is the ordered output queue of `outq.cpp` (`OutputQueue`).
Worker threads announce a read, hand over its output, and flush. In reorder
mode the output comes out in read-id order. Otherwise each thread's buffer is
written out whole when it fills.

Files:

- `common.dfy`: shared types. A `Byte` is a character below 256 and a `Nuc` is a code 0..4. It also holds the lookup tables, `Option`/`Result`, `Scan` and `TrimEnd`.
- `seed.dfy`: `genRandSeed` on 32-bit words.
- `read.dfy`: the read record and the per-thread dispenser.
- `source.dfy`: the file source's `nextBatch`.
- `composer.dfy`: the solo and dual composers.
- `fasta.dfy`: the FASTA batcher and parser.
- `fastq.dfy`: the FASTQ batcher and parser.
- `vector.dfy`: the command-line source.
- `tabbed.dfy`: the tab-delimited field parsers.
- `sra.dfy`: the SRA ring.
- `outq.dfy`: the output queue as a value with functions.
- `outq_class.dfy`: the `OutputQueue` object with fields and arrays, proved against those functions.
- `outq_scenarios.dfy`: the two scenarios of the file's built-in test, call by call.

Stateful code is modelled as classes whose methods update fields. This
covers the file, FASTA, FASTQ and tabbed sources, the composers, the
dispenser, the SRA ring and the output queue. Each method's `ensures` ties
its new state to a specification function. The properties are proved as
lemmas about those functions. Per-character parsing loops stay loops with
invariants.

## Model

| member | source | states |
|---|---|---|
| RandSeed.StartIsChain | pat.cpp:57 | The folded start constant equals `(seed + 101)` times the seven primes, in 32-bit arithmetic |
| RandSeed.Shift8Agrees | pat.cpp:71 | The case split on `k` is the shift by `(i & 3) << 3` |
| RandSeed.ShiftSplit | pat.cpp:63-64 | The byte step and the 2-bit step of a nucleotide term together shift by `2 * m` for every offset `m < 16` |
| RandSeed.NucTermShift | pat.cpp:63-64 | Base `i` enters the seed as one left shift of its code by `(i & 15) << 1`, cut to 32 bits |
| RandSeed.NameLen | pat.cpp:76-83 | The name loop takes exactly the bytes before the first '/', or all bytes if there is none |
| RandSeed.GenRandSeedLoops | pat.cpp:57-84 | The three loops in order give the seed: start value xor the nucleotide, quality and name folds |
| RandSeed.XorNucs | pat.cpp:60-65 | The nucleotide loop xors in `qry[i] << 2*(i%16)` for every position |
| RandSeed.XorQuals | pat.cpp:68-73 | The quality loop xors in one term per quality byte, over the sequence's length |
| RandSeed.XorName | pat.cpp:76-83 | The name loop xors in one term per name byte before the first '/' |
| RandSeed.NameLenUnique | pat.cpp:77-79 | The name length is the only count that stops at the first '/' |
| RandSeed.NameAfterSlashIgnored | pat.cpp:79 | Two names that agree before their first '/' give the same seed |
| RandSeed.MatesShareSeed | pat.cpp:76-83 | Mates named "r/1" and "r/2" with equal sequence and qualities get equal seeds |
| RandSeed.NAtTopOffsetVanishes | pat.cpp:63-64 | At positions with `i % 16 == 15` an N (code 4) shifts out of 32 bits and contributes nothing |
| RandSeed.QualityByteMatters | pat.cpp:68-73 | Changing one quality byte inside the sequence's length always changes the seed |
| RandSeed.ByteFoldsDiffer | pat.cpp:68-73 | Two byte folds over a stretch that differ at one covered byte are different |
| RandSeed.ByteFoldOneChange | pat.cpp:68-73 | The folds of two strings that differ at one position differ by exactly that position's two terms |
| Reads.Read.SetParsed | pat.cpp:1201-1204 | A successful parse stores the fields, marks the read parsed and moves the raw cursor by the bytes consumed |
| Reads.Bases | pat.cpp:845-857 | The sequence text's nucleotides are at most as many as its bytes |
| Reads.Drop | pat.cpp:851 | The 5' trim keeps all but the first `n` elements, or none |
| Reads.DropStep | pat.cpp:851-853 | Applying the `nchar++ >= trim5` rule one base at a time builds the 5'-trimmed sequence |
| Reads.DefaultQuals | pat.cpp:861-863 | A FASTA read's qualities are one 'I' per base |
| Reads.NameLine | pat.cpp:830-840 | The name is the bytes up to the first newline; reading past the text fails |
| Reads.SkipNewlines | pat.cpp:834-836 | The newline run after the name ends at the first other byte, which must exist |
| Reads.SeqLoopBases | pat.cpp:845-857 | The sequence loop ends holding the count and the 5'-trimmed bases of the whole line |
| Reads.SequenceLine | pat.cpp:843-859 | The sequence loop returns the line's letter count and 5'-trimmed nucleotides, with the cursor past the stop byte |
| Reads.ReadPairOutcome | pat.cpp:157-191 | `(false, true)` exactly when a new batch was needed and came back `(true, 0)`; success exactly when the parse succeeded otherwise; `done` only on the last read of a last batch |
| Reads.EndOfSourcesEndsReads | pat.cpp:159-163 | Once the composer's index has passed every source, an exhausted buffer gets `(false, true)` |
| Reads.PatternSourcePerThread.Finalize | pat.cpp:122-130 | An unpaired read becomes mate 1 with the buffer's read id and its own seed; the parsed fields are unchanged |
| Reads.PatternSourcePerThread.FinalizePair | pat.cpp:137-149 | The mates become 1 and 2, share the read id, and each gets the seed of its own fields |
| Reads.PatternSourcePerThread.NextReadPair | pat.cpp:157-191 | The result is ReadPairOutcome; the last-batch fields follow a new batch; a read with a mate is finalized as a pair, otherwise alone, and only on success |
| FileSource.FromFile | pat.cpp:437-439 | One call on the open file gives its next result, or `(true, 0)` once its list of results is used up, a convention of the model |
| FileSource.Drain | pat.cpp:436-440 | The do-while stops on a result that is done or has reads, and consumes no more results than exist |
| FileSource.DrainSpec | pat.cpp:436-440 | The do-while consumes a prefix of skipped results and then one kept result, or the whole file with every result skipped |
| FileSource.RotateAsWritten | pat.cpp:441-448 | The outer loop as written keeps the file list and counter, only moves forward and never returns a skipped result |
| FileSource.RetryAsWritten | pat.cpp:441-446 | A file that ends without reads moves on to the next file and retries |
| FileSource.NextBatchAsWritten | pat.cpp:423-454 | The batch's base read id is the counter on entry, and the counter grows by exactly the reads returned |
| FileSource.Rotate | pat.cpp:441-448 | The corrected loop reports `done` only once every file has been opened |
| FileSource.NextBatch | pat.cpp:423-454 | The corrected `nextBatch` has the same id bookkeeping, and `done` only at the end of the file list |
| FileSource.RotateAgrees | pat.cpp:441-448 | The as-written and corrected loops return the same reads and reach the same state; only `done` differs |
| FileSource.DoneWithFilesLeft | pat.cpp:441-448 | With a second file left, a first file ending with one read makes the as-written batch report done; the corrected one does not |
| FileSource.BatchesGapless | pat.cpp:434-452 | Successive batches get read ids without gaps or overlaps, and the counter ends past the last batch |
| FileSource.BatchesAsWrittenGapless | pat.cpp:434-452 | The as-written batches get the same read ids and sizes as the corrected ones, so they too start where the previous batch ended, the first at the counter's value |
| FileSource.FilePatternSource.NextBatchFromFile | pat.cpp:437-439 | One call takes the open file's next result and changes nothing else |
| FileSource.FilePatternSource.DrainFile | pat.cpp:436-440 | The do-while loop computes Drain of the open file |
| FileSource.FilePatternSource.NextBatch | pat.cpp:423-454 | The method computes NextBatchAsWritten, returning the base read id for `setReadId` |
| Composer.SoloNext | pat.cpp:198-221 | The solo composer's walk keeps one result list per source |
| Composer.SoloNextSpec | pat.cpp:198-221 | The index never goes back and stops at the source count; `(true, 0)` exactly at the end; otherwise the stopping source's batch, with reads |
| Composer.SoloNextFrame | pat.cpp:200-216 | Every source passed over had no reads left and is now at its end; other sources are untouched |
| Composer.DualNextSpec | pat.cpp:228-286 | The corrected dual composer never returns a batch short on one mate; a count mismatch is the error; `(true, 0)` exactly at the end |
| Composer.DualNextAsWrittenSpec | pat.cpp:228-286 | The dual composer as written also never returns a batch short on one mate: a count mismatch is the error, a pair's mates agree in count, and the index never goes back. Passing every source gives `(true, 0)`, but a spent unpaired source can give it earlier |
| Composer.UnpairedSourceNotPassedOver | pat.cpp:232-245 | As written, an exhausted unpaired source stops the walk before a later source that still has a read; the corrected walk returns that read |
| Composer.SoloPatternComposer.SourceNextBatch | pat.cpp:203-208 | One source call takes that source's next result and leaves the other sources alone |
| Composer.SoloPatternComposer.NextBatch | pat.cpp:198-221 | The method computes SoloNext, moving the shared index only forward |
| Composer.DualPatternComposer.NextBatch | pat.cpp:228-286 | The method computes the as-written dual walk, whose promises DualNextAsWrittenSpec proves; a mate-count mismatch is the error result |
| Fasta.Records | pat.cpp:803-815 | A call takes at most `maxBuf` records; a done call ends at the end of input; one that is not done took exactly `maxBuf` |
| Fasta.RecordsShape | pat.cpp:803-815 | Every record starts with '>' and holds no other '>' |
| Fasta.RecordsRoundTrip | pat.cpp:803-815 | The records laid end to end are '>' and every byte consumed except a final '>', which opens the next call's first record |
| Fasta.EofGivesEmptyRecord | pat.cpp:800-816 | As written, a call at end of input reports done with one record ">"; the corrected batcher reports done with none |
| Fasta.BatchDropsOnlyEmptyTail | pat.cpp:783-817 | The corrected batcher fails exactly when the as-written one does and differs only by dropping an empty final ">" record |
| Fasta.FastaPatternSource.ReadRecord | pat.cpp:805-812 | The inner loop reads one record up to the next '>' or the end of input |
| Fasta.FastaPatternSource.SkipToFirstRecord | pat.cpp:789-799 | The first call skips blank lines and succeeds exactly when a '>' follows |
| Fasta.FastaPatternSource.ReadRecords | pat.cpp:803-815 | The outer loop computes Records from the file position |
| Fasta.FastaPatternSource.NextBatchFromFile | pat.cpp:783-817 | The method computes the as-written batch: the format error, or `done` and the records |
| Fasta.ParseRecord | pat.cpp:819-875 | A parsed FASTA record has one 'I' quality per base |
| Fasta.FieldsAt | pat.cpp:858-870 | The fields of a record have one 'I' per base, whatever name and trims apply |
| Fasta.TrimsAccountForBases | pat.cpp:851-859 | The sequence is the line's nucleotides less `trimmed5` in front and `trimmed3` behind, and each amount is what was asked unless the read ran out |
| Fasta.ParseFields | pat.cpp:826-870 | One record's parse gives ParseRecord's fields, or fails where it fails |
| Fasta.ParseOne | pat.cpp:819-870 | One mate's parse fills the read from its raw text as ParseRecord says and leaves the raw text alone |
| Fasta.BothEmptyNeverEnds | pat.cpp:871-873 | When both mates trim to empty sequences, the as-written recursion never ends |
| Fasta.EmptyFirstMateParsedTwice | pat.cpp:871-873 | When only the first mate trims to empty, the as-written recursion parses it a second time |
| Fasta.NonEmptyFirstMateParsedOnce | pat.cpp:871-873 | Otherwise each mate with raw text is parsed once, first A, then B |
| Fasta.ShortMatesTrimToEmpty | pat.cpp:843-859 | A 2-base read with a 5' trim of 2 parses to an empty sequence, so the empty-mate case is reachable |
| Fasta.Parse | pat.cpp:819-875 | The corrected parse parses each mate with raw text exactly once, as ParseRecord says |
| Fastq.FillCount | pat.cpp:1008-1014 | The fill loop stops at `maxRaw` bytes in the buffer or at the end of input |
| Fastq.Tail | pat.cpp:1021-1056 | The tail loop stops at the headroom, at the end of input, or after the next record's four lines |
| Fastq.Watch | pat.cpp:1045-1055 | A new record is seen once a line starting with '@' is followed by a line starting with a letter, '*' or '-' |
| Fastq.ReadRaw | pat.cpp:976-1092 | Only the first call can fail the '@' check |
| Fastq.RawReadShape | pat.cpp:994-1060 | The buffer gets the bytes read, in file order, after a '@' on the first call, and never more than `maxRaw + overrun` |
| Fastq.RawBatchLengthIsFilled | pat.cpp:1084 | The corrected length is the number of bytes put in the buffer, and never exceeds its size |
| Fastq.RawLengthCountsUnreadByte | pat.cpp:1084 | On "@x" with a 1-byte buffer and 5 bytes of overrun, the as-written length is 3 while the buffer holds 2 |
| Fastq.FastqPatternSource.SkipToFirstRecord | pat.cpp:994-1005 | The first call skips blank lines and succeeds exactly when a '@' follows |
| Fastq.FastqPatternSource.Fill | pat.cpp:1008-1014 | The fill loop stores FillCount file bytes after those already in the buffer and nothing else |
| Fastq.FastqPatternSource.FinishRecord | pat.cpp:1021-1056 | The tail loop takes Tail's steps and stores those bytes after the filled ones |
| Fastq.FastqPatternSource.FillAndFinish | pat.cpp:1008-1060 | The fill loop, the tail loop and the last byte's store fill the buffer with the next file bytes |
| Fastq.FastqPatternSource.NextBatchFromFile | pat.cpp:976-1092 | The method computes the as-written batch, and the buffer gets exactly ReadRaw's bytes with nothing past them changed |
| Fastq.FastqPatternSource.ReadBatch | pat.cpp:1006-1091 | After the '@' check, the batch is the as-written one |
| Fastq.BufferAfter | pat.cpp:1008-1059 | A buffer written from the end of its head up to `n` holds the head and those file bytes, and its rest is as before |
| Fastq.LayoutFrom | pat.cpp:1109-1193 | A record found in the text fits in it; "no record" comes only from the '@' search |
| Fastq.Outcome | pat.cpp:1186-1204 | A successful parse has exactly as many qualities as bases and consumes some of the text |
| Fastq.NoLayoutWithoutAt | pat.cpp:1109-1118 | The '@' search fails exactly when no '@' comes before the last byte |
| Fastq.NoRecordWithoutAt | pat.cpp:1109-1118 | The parse reports no record exactly when no '@' comes before the last byte |
| Fastq.FindRecord | pat.cpp:1109-1118 | The do-while stops just past the first '@', or at the end |
| Fastq.SkipLine | pat.cpp:1154-1158 | The do-while skips the rest of the '+' line past its newline |
| Fastq.SkipBlankLines | pat.cpp:1159-1161 | The blank lines before the qualities are skipped, stopping at the last byte |
| Fastq.QualLoopPhred | pat.cpp:1172-1185 | The quality loop keeps the Phred values of the whole line past the 5' trim point |
| Fastq.QualLineValues | pat.cpp:1168-1185 | The line's first byte and then the loop give the 5'-trimmed Phred values of the whole line |
| Fastq.QualLine | pat.cpp:1164-1185 | The quality loop fails exactly on a space, and otherwise ends at the line's end with those values |
| Fastq.ParseFields | pat.cpp:1104-1200 | One record's parse gives ParseFastq's fields and byte count, or its error |
| Fastq.ParseOne | pat.cpp:1097-1204 | One mate's parse fills the read as ParseFastq says; with no record the cursor moves to the text's end |
| Fastq.Parse | pat.cpp:1097-1207 | This mate is parsed, then the other once if it has raw text and is not parsed yet. Each parsed mate's cursor moves past its record, to the text's end with no record, and stays put on other errors. The other mate is untouched when it is not parsed |
| Vector.TrimBoth | pat.cpp:582-589 | The two erases remove exactly `trim5` characters in front and `trim3` behind |
| Vector.Fit | pat.cpp:607-616 | The qualities are padded with 'I' or cut to exactly the sequence's length, keeping those given |
| Vector.InstallChars | pat.cpp:617-618 | Each character becomes its nucleotide code |
| Vector.ShortReadVanishes | pat.cpp:578-616 | A read no longer than both trims is cleared, qualities included |
| Vector.LongReadTrimmed | pat.cpp:581-590 | A longer read keeps exactly `read[trim5 .. len - trim3]` |
| Vector.QualsMatchRead | pat.cpp:607-616 | The stored qualities are as long as the stored sequence |
| Vector.MissingQualsAreI | pat.cpp:592-610 | Without qualities every position gets 'I' |
| Vector.MatchingQualsTrimAlike | pat.cpp:597-616 | Qualities given one per base are trimmed exactly like the bases |
| Vector.FitQuals | pat.cpp:607-616 | The padding loop and the truncation compute Fit |
| Vector.VectorSource.constructor | pat.cpp:560-626 | Every entry is stored trimmed, with fitted qualities, its trims and its index as name; the cursor starts at `skip` |
| Tabbed.NameEnd | pat.cpp:1374-1387 | The name loop stops at the first `upto` or line end, and none comes before it |
| Tabbed.NameField | pat.cpp:1365-1396 | The name parse returns -1 or the name's length |
| Tabbed.NameFieldAt | pat.cpp:1365-1396 | A name ended by `upto` with no line end before it is parsed, whatever follows |
| Tabbed.NameFieldFails | pat.cpp:1374-1387 | The name parse fails exactly when a line end or the end of the text comes before any `upto` |
| Tabbed.UptoEnd | pat.cpp:1414-1426 | The sequence loop stops at the first `upto`, and none comes before it |
| Tabbed.Letters | pat.cpp:1415-1422 | A field's letters are at most as many as its characters |
| Tabbed.SeqField | pat.cpp:1404-1429 | The sequence parse returns -1 or the sequence's length |
| Tabbed.SeqFieldFails | pat.cpp:1414-1426 | The sequence parse fails exactly when no `upto` is left |
| Tabbed.SeqFieldTrims | pat.cpp:1414-1428 | A parsed sequence is the field's letters less exactly `trim5` in front and `trim3` behind, or nothing when they are too few |
| Tabbed.TabbedSource.ParseName | pat.cpp:1365-1396 | The loop reads NameField's name into the read and its mate, and its return value and position |
| Tabbed.TabbedSource.ParseSeq | pat.cpp:1404-1429 | The loop reads SeqField's sequence, return value and position, and counts the letters read |
| Sra.SlotsDiffer | pat.cpp:1701-1704 | Two counts less than the ring's size apart fall in different slots |
| Sra.WindowKeptByWrite | pat.cpp:1701-1714 | Storing into the write slot of a ring that is not full leaves every unread pair alone |
| Sra.WindowGrows | pat.cpp:1711-1714 | Counting one more write appends the pair in the next slot to the unread pairs |
| Sra.WindowShrinks | pat.cpp:1706-1709 | Counting one more read drops the oldest unread pair |
| Sra.SraData.constructor | pat.cpp:1674-1682 | A new ring is empty and has `nthreads * 4096` slots, as `open` sizes it (pat.cpp:1890-1891) |
| Sra.SraData.IsFull | pat.cpp:1684-1688 | Full exactly when every slot holds an unread pair |
| Sra.SraData.IsEmpty | pat.cpp:1690-1694 | Empty exactly when no pair is unread |
| Sra.SraData.GetPairForRead | pat.cpp:1696-1699 | The pair read is the oldest unread one |
| Sra.SraData.GetPairForWrite | pat.cpp:1701-1704 | The write slot follows the unread pairs and holds none of them |
| Sra.SraData.Store | pat.cpp:1733 | Filling the write slot leaves the unread pairs unchanged |
| Sra.SraData.AdvanceReadPos | pat.cpp:1706-1709 | The unread pairs lose their oldest |
| Sra.SraData.AdvanceWritePos | pat.cpp:1711-1714 | The unread pairs gain the pair in the write slot at their end |
| Sra.SraData.Push | pat.cpp:1733-1781 | One producer step appends its pair to the unread pairs |
| Sra.SraData.Pop | pat.cpp:1844-1860 | One consumer step returns the oldest unread pair and removes it |
| OutQueueSpec.WriteOne | outq.cpp:155-164 | A write succeeds exactly when all bytes fit; a short write keeps what was written |
| OutQueueSpec.WriteAllSpec | outq.cpp:126-130 | A list of writes succeeds exactly when all its bytes fit, and then appends the list in order |
| OutQueueSpec.WriteAllAppend | outq.cpp:126-130 | Writing `a + b` is writing `a` and then, if that succeeded, `b` |
| OutQueueSpec.Run | outq.cpp:118-122 | The count is the length of the all-finished prefix |
| OutQueueSpec.RunUnique | outq.cpp:118-122 | That length is the only count with those two properties |
| OutQueueSpec.BeginRingSpec | outq.cpp:31-47 | After beginRead the read's slot exists, is started and not finished; the lists grow only that far; other slots keep flags and payloads |
| OutQueueSpec.FlushReorderSpec | outq.cpp:118-137 | A reorder flush writes exactly the finished head run in order, erases it and advances `cur`; below the threshold and not forced it does nothing; a failed write keeps the lists |
| OutQueueSpec.FlushIdempotent | outq.cpp:118-137 | A second flush right after a successful one writes and changes nothing |
| OutQueueSpec.OrderedBegin | outq.cpp:27-48 | beginRead keeps the ordering invariant: output 0 holds the payloads of ids below `cur`, in order and each once |
| OutQueueSpec.OrderedFinish | outq.cpp:62-74 | finishRead keeps the ordering invariant and records the payload of its id |
| OutQueueSpec.OrderedFlush | outq.cpp:118-137 | A flush keeps the ordering invariant |
| OutQueueSpec.OrderedShift | outq.cpp:126-136 | Moving a finished head run to output 0 keeps the ordering invariant |
| OutQueueSpec.ForcedFlushDrains | outq.cpp:118-137 | Once every announced read has finished, a successful forced flush leaves nothing pending and output 0 holds every payload below `cur`, once each, in id order |
| OutQueueSpec.FinishUnorderedSpec | outq.cpp:75-91 | Without reordering, a record joins its thread's buffer; a full buffer is first written whole to output `tid % nOutputs` |
| OutQueueSpec.DrainUpToSpec | outq.cpp:109-115 | Draining threads `0 .. t-1` writes their buffers to output 0 in thread order and stops at the first failed write |
| OutQueueSpec.FlushUnorderedSpec | outq.cpp:108-116 | Without reordering, a flush succeeds exactly when all buffered bytes fit, and then every buffer is empty and numFlushed grows by the records written |
| OutQueue.BeginLists | outq.cpp:31-47 | The list update on the object's sequences computes BeginRing |
| OutQueue.CountRun | outq.cpp:118-122 | The loop computes the finished head run's length |
| OutQueue.OutputQueue.constructor | outq.cpp:176-179 | A new queue is the empty queue: nothing started, finished or flushed |
| OutQueue.OutputQueue.BeginRead | outq.cpp:27-57 | The object's new state is BeginRead of its old state |
| OutQueue.OutputQueue.FinishRead | outq.cpp:62-102 | The object's new state and result are FinishRead of its old state |
| OutQueue.OutputQueue.FinishOrdered | outq.cpp:64-74 | Storing the payload and then a non-forced flush, on the object |
| OutQueue.OutputQueue.FinishUnordered | outq.cpp:75-91 | The buffered branch of FinishRead, on the object |
| OutQueue.OutputQueue.Flush | outq.cpp:107-150 | The object's new state and result are Flush of its old state |
| OutQueue.OutputQueue.FlushOrdered | outq.cpp:118-137 | The reorder branch of Flush, on the object |
| OutQueue.OutputQueue.FlushBuffers | outq.cpp:108-116 | The non-reorder branch of Flush, on the object |
| OutQueue.OutputQueue.WriteString | outq.cpp:155-164 | The object's output gets WriteOne's result |
| OutQueue.OutputQueue.WriteLines | outq.cpp:126-130 | The write loop computes WriteAll on the output |
| OutQueueScenarios.C1Start | outq.cpp:175-179 | The test's new queue has counters (0, 0, 0) |
| OutQueueScenarios.C1a | outq.cpp:180-183 | `beginRead(1)` gives counters (0, 1, 0) |
| OutQueueScenarios.C1b | outq.cpp:184-187 | `beginRead(3)` gives (0, 2, 0) |
| OutQueueScenarios.C1c | outq.cpp:188-191 | `beginRead(2)` gives (0, 3, 0) |
| OutQueueScenarios.C1d | outq.cpp:192-195 | A flush with nothing finished changes nothing |
| OutQueueScenarios.C1e | outq.cpp:196-199 | `beginRead(0)` gives (0, 4, 0) |
| OutQueueScenarios.C1f | outq.cpp:200-203 | A flush still changes nothing |
| OutQueueScenarios.C1g | outq.cpp:204-207 | `finishRead(0)` gives (0, 4, 1) and writes nothing below the threshold |
| OutQueueScenarios.C1h | outq.cpp:208-211 | A non-forced flush of a run of 1 writes nothing |
| OutQueueScenarios.C1i | outq.cpp:212-215 | The forced flush writes read 0: (1, 4, 1) |
| OutQueueScenarios.C1j | outq.cpp:216-219 | `finishRead(2)` gives (1, 4, 2) |
| OutQueueScenarios.C1k | outq.cpp:220-223 | A forced flush with read 1 unfinished writes nothing |
| OutQueueScenarios.C1l | outq.cpp:224-227 | `finishRead(1)` gives (1, 4, 3) |
| OutQueueScenarios.C1m | outq.cpp:228-231 | The forced flush writes reads 1 and 2: (3, 4, 3) |
| OutQueueScenarios.C2a | outq.cpp:239 | `beginRead(0)` on the second queue |
| OutQueueScenarios.C2b | outq.cpp:240 | `beginRead(1)` |
| OutQueueScenarios.C2c | outq.cpp:241 | `beginRead(2)` |
| OutQueueScenarios.C2d | outq.cpp:242 | `beginRead(3)` |
| OutQueueScenarios.C2e | outq.cpp:243-245 | `beginRead(4)`: five started, none finished |
| OutQueueScenarios.C2f | outq.cpp:251 | `finishRead(4)` stores "E" and writes nothing |
| OutQueueScenarios.C2g | outq.cpp:252 | `finishRead(1)` stores "B" and writes nothing |
| OutQueueScenarios.C2h | outq.cpp:253 | `finishRead(0)` stores "A" |
| OutQueueScenarios.C2i | outq.cpp:254 | `finishRead(2)` stores "C" and flushes once the threshold allows |
| OutQueueScenarios.C2j | outq.cpp:255 | `finishRead(3)` stores "D" |
| OutQueueScenarios.C2k | outq.cpp:256-259 | The forced flush leaves (5, 5, 5) and output 0 holds the five payloads in id order |
| OutQueueScenarios.FlushAllFive | outq.cpp:256 | A flush of five finished reads writes all five in id order |

## Left out

- Locks and threads: `ThreadSafe`, the per-output mutexes and the SRA worker threads. Each method models one call made while the lock is held.
- `open()`, file handles and gzip input. A file is its whole byte sequence, and the file source sees each file as its list of `nextBatchFromFile` results.
- The SRA download (`SRA_IO_Worker`, `readPair`, the `ngs` calls). The ring is modelled on its own, with the worker's and reader's calls as Push and Pop.
- Sources whose `nextBatchFromFile` or `parse` only `throw 1`, and the unimplemented `intQuals_` branch of the FASTQ quality loop.
- Error messages written to stderr. A `throw 1` becomes an error result or `ok == false`.
- `fwrite` is a Sink that accepts up to `room` bytes; a longer write is a short write.
- `asc2dna`, `charToPhred33` and `itoa10` live in headers that are not part of this model. They are the function-valued fields of `Tables`.
- `installChars` is taken to be the `asc2dna` map, because its header is not part of this model.
- `tokenize` is not part of this model, so the command-line entries arrive already split at their first ':'.
- The tab-delimited source's `parseQuals` and `nextBatchFromFile`.
- Read::finalize and `fixMateName` (read.h): not part of this model. Finalize and FinalizePair set only mate, read id and seed.
- FileSource.FromFile: once a file's list of results is used up, every further call returns `(true, 0)`. This is a convention of the model. At end of input the FASTA batcher as written returns `(true, 1)` with a ">" record (pat.cpp:800-816), and the FASTQ batcher returns `done` with the previous batch's length (pat.cpp:1014-1016, 1090).
- Fasta.ParseRecord: where a record's text ends inside the name or sequence loop, the source only asserts and a release build reads on past the text. The model returns `Truncated` there. This covers a last record with no final newline.
- Fastq.LayoutFrom: where the FASTQ loops run past the record's text, the source only asserts (`assert_lt`) and reads on. The model returns `Truncated` there.
- OutQueueScenarios: the two test scenarios run in reorder mode with NFLUSH_THRESH > 2, the only setting in which the test's expectations (outq.cpp:209, 220-233) hold, although the test passes `false` as the constructor's second argument (outq.cpp:176, 238). outq.h, which names that argument, is not part of this model, so the scenarios do not show what the test does in the mode that `false` selects.
- Negative `gTrim5`/`gTrim3` values: trims are natural numbers.
- Tabbed.TabbedSource.ParseName: `upto` is compared as an unsigned byte. This agrees with the source for ASCII separators.
- Tabbed.TabbedSource.ParseName: requires the read and its mate to be distinct objects; the source never passes the same read twice.
- Read ids and counters are unbounded; wrap-around after 2^64 is not modelled.
- Tabbed.TabbedSource.ParseSeq: the `assert(c != upto)` at the start of `parseSeq` is modelled as a release build runs, so an empty field gives 0.
- Fasta.CallsAsWritten: counts the as-written recursion's calls within a fuel bound; `None` stands for a recursion that does not end within that bound.
- Composer.DualNext: the composers run over per-source lists of batch results rather than over the file sources themselves.
- The per-thread read buffer of pat.h is not part of this model. What `nextReadPair` asks of it (exhausted, last, current read id) is a parameter.
- Reads.PatternSourcePerThread.NextReadPair: the format's parse result is a parameter. The parsers themselves are modelled in Fasta and Fastq.

## Findings

| source | as written | input that shows it | evidently intended | confidence | as-written member | corrected member |
|---|---|---|---|---|---|---|
| pat.cpp:232-245 | An unpaired source is passed over only when it returns `(false, 0)`. A spent source that returns `(true, 0)` ends the walk, although later sources may still hold reads. The vector source's `nextBatch` returns `(true, 0)` on every call (pat.cpp:636-653). A file source returns it in this model once its results are used up (FileSource.FromFile), which the FASTA and FASTQ batchers do not match at end of input. | Two unpaired sources: the first returns `(true, 0)`, the second has one read. As written the composer reports `(true, 0)`. | Pass over an unpaired source that returns no reads, as the solo composer does | not executed | Composer.UnpairedSourceNotPassedOver | Composer.DualNextSpec |
| pat.cpp:800-816 | A call at end of input still stores a record holding only ">" and counts it as one read, every time it is called | A later call at the end of the input returns `(true, [">"])` | Report done with no reads | not executed | Fasta.EofGivesEmptyRecord | Fasta.BatchDropsOnlyEmptyTail |
| pat.cpp:871-873 | An empty `patFw` serves as the "not parsed yet" test for the other mate. A mate that trims to an empty sequence is parsed again. | Two mates ">a\nAC\n" with a 5' trim of 2: the recursion never ends. Only the first trimming to empty: it is parsed twice. | Track "parsed" explicitly, as the FASTQ parser does | not executed | Fasta.BothEmptyNeverEnds | Fasta.Parse |
| pat.cpp:1084 | The raw length adds 1 whenever the tail loop ran, even when the last byte was not stored at end of input | "@x" with a 1-byte buffer and 5 bytes of overrun: length 3, buffer holds "@x" | The number of bytes stored | not executed | Fastq.RawLengthCountsUnreadByte | Fastq.RawBatchLengthIsFilled |
| pat.cpp:441-448 | When a file ends with reads and files remain, `nextBatch` returns `done` true | Two files with one read each: the first batch reports done while a file remains. The doc comments say `done` means "whether we're totally done" (pat.cpp:418-419) and "completely done" (pat.cpp:462-463). | `done` only after the last file | not executed | FileSource.DoneWithFilesLeft | FileSource.RotateAgrees |
