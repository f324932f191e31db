# Verification of the data core of daqd

`src/daqd` moves detector data from front-end computers into frame files. Four pieces of it decide
whether the data that comes out is the data that went in, and this project models them in Dafny and
proves what they promise:

1. **The circular buffer** (`circ.cc`, `circ.hh`, `cmask_t.h`): one producer, up to 127 consumers and
   a ring of blocks, each with a mask of the consumers that still need it. `CircProtocol` is a step
   relation over the critical sections, with the copy, the publication of `busy`, the publication of a
   16th part, the reading outside the lock, the clearing of a bit and the advance of an index as
   separate steps; `CircInvariant` to `CircProduction` find and preserve its invariant; `CircTheorems`,
   `CircBlocks` and `CircFree` say what follows for every run. `CircBuffer` is the object with its methods and loops;
   `CircSerial` shows that every method that puts, gets, unlocks, adds or deletes is a run of the protocol.
   `ConsumerMask` refines the two-word bit mask to the set of numbers the other modules use.
2. **The block layout** (`comm_impl.cc`, `daqd.cc`, `circ.cc`): the channel table is loaded
   (`ChannelConfig`), sorted and numbered (`ChannelTable`), one loop lays channels out (`Layout`,
   `LayoutLoops`), another rebuilds a copy plan from what it left behind, the scatter writer copies sixteen
   slices of every vector and ORs status words (`Scatter`, `ScatterTheorem`), and the framer reads it all
   back (`Framer`). `LayoutSound` and `LayoutExact` say exactly when the two loops agree, `LayoutFigures` where
   everything is and how big, `ReadBack` composes planner, writer and framer, `DataPath` puts the circular
   buffer between writer and framer, and `FrontEnd` tells the whole way without the copy plan: every sample in
   a frame is the one that was fed and put, whatever the other threads did.
3. **The index of saved files** (`filesys.cc`, `filesys.hh`): chains of time ranges (`TimeRanges`) in a
   ring of directories (`FileIndex`, `FileSys`), and their rebuilding from file names (`FileScan`),
   measured against the plain list of saved files.
4. **The CRC-32** (`checksum_crc32.cc`): the byte-reversed, alignment-dependent, eight-octets-at-a-time
   form, proved equal to the one-octet form for every buffer (`CrcLinear`, `Crc32`) and to the polynomial
   division of the POSIX `cksum` utility (`Gf2`, `CrcSteps`, `CrcStandard`; POSIX.1-2017, IEEE Std 1003.1,
   Shell & Utilities, section 4, "cksum"); `CrcWrap` says for which lengths that is what it computes.

`dafny verify dfyconfig.toml` checks the whole project.

## Where the code does less than it is said to do

- `delete_consumer` (src/daqd/circ.hh:366-411) does not check that its argument is registered:
  `UnregisterKeepsRegistry` shows that the counters stay right exactly when it is.
- `_update_dir` extends the current range by the length of the range, not of the new file
  (src/daqd/filesys.cc:194-201). `LookupExact` shows that, for files saved in order, the directories answer
  every second as the kept files would exactly when kept files that touch inside one directory are equally
  long; a new directory starts a new chain, so files of different length may touch across directories.
- `scan` cuts the last file of a range of several down to the object's period
  (src/daqd/filesys.cc:456-481): `RebuildExactForFiles` shows that the index of a steady directory is
  rebuilt as it was exactly when no period is set or every file that touches the one before it has that
  length, and `RebuildLoses` names two files of which 15 seconds are lost.
- A file in a gap whose name gives no length still has `scan` trim the range before it, which is trimmed again
  by the next such file and at the end (src/daqd/filesys.cc:456-493, 525-551): `TrimmedTwice` names four files of
  which 30 seconds are lost instead of 15.
- The 32-bit length of the checksum wraps (src/daqd/checksum_crc32.cc:572). `ServedExactly`: of the lengths
  below 2^64, those for which every file of that length is given its `cksum` value are exactly those below
  4 GiB. `WrapLeavesStandard` names a file, of 4 GiB of zero octets. Nothing is said of one given longer file,
  for which the two values may be the same.
- A look-back whose period holds second 0 finds blocks that have never been stored, because a fresh ring is
  zeroed (src/daqd/circ.hh:320-343), and such a period can be asked for: a net-writer passes its start time on
  as it is given, 0 with a length included (src/daqd/net_writer.cc:1513, 1732). `LookBackFindsStored`: every
  block found has been stored if and only if the period does not hold second 0 or at least all but one of the
  ring's blocks have been stored; `LookBackFindsEmpty` is the search that finds one. What is found is still
  delivered in order and unchanged (`LookBackDelivers`).
- The layout loop does not check that the data of a DCU fits the room set aside for it: it takes the
  difference away from the offset (src/daqd/comm_impl.cc:88-95). `ConfiguredSoundExactly` shows that the
  layout is sound exactly when, in whatever order the files list the channels, no Myrinet DCU has more data
  than its room. It rests on what the code does before: the sort makes the channels of a DCU stand together
  (`SortedGroups`; src/daqd/daqd.cc:370-374), and aliases are made of channels of test-point DCUs only
  (src/daqd/daqd.cc:465-466). And it rests on an assumption about the files: **every channel that is copied
  names a rate and a known data type**, itself or in its `default` section.
- That assumption is not checked. A rate is looked at only where it is named (src/drv/param.c:287-304), a data
  type never (src/daqd/daqd.hh:496-513). `SizeExact`: a channel the parser lets through has data that divides
  into sixteenths if and only if it names both. Without a rate it has a size of -2, -4 or -8 bytes, the
  initial -1 (src/drv/param.c:19) times the sample size, and between two others of its DCU the second is laid
  over the end of the first although everything fits (`NoRateOverlaps`). Without a known data type it has no
  bytes: the layout stays sound where it was (`LayoutSoundness` covers it), but whether an overfull DCU of
  such channels is unsound is not stated.

## Model

| member | source | states |
|---|---|---|
| ConsumerMask.Mask.Get | src/daqd/cmask_t.h:27-32 | true exactly for the numbers of the set the two words stand for |
| ConsumerMask.Mask.Set | src/daqd/cmask_t.h:34-39 | the set gains the number and nothing else |
| ConsumerMask.Mask.Clear | src/daqd/cmask_t.h:41-46 | the set loses the number and nothing else |
| ConsumerMask.Mask.ClearAll | src/daqd/cmask_t.h:48-55 | the set becomes empty |
| ConsumerMask.Mask.Empty | src/daqd/cmask_t.h:57-66 | true exactly when the set is empty, whatever word a bit is in |
| ConsumerMask.Mask.DifferenceWith | src/daqd/cmask_t.h:68-77 | a new mask that stands for the set difference |
| CircState.LowestFree | src/daqd/circ.hh:244-245 | the slot search ends below MAX_CONSUMERS at the lowest number not in use |
| CircState.RegisterKeepsRegistry | src/daqd/circ.hh:232-261 | adding keeps the masks nested and every counter the size of its mask; the new consumer is a regular one, and a fast one exactly if that was asked for |
| CircState.RegisterTransientKeepsRegistry | src/daqd/circ.hh:351-357 | so does adding a transient consumer |
| CircState.UnregisterKeepsRegistry | src/daqd/circ.hh:366-388 | deleting keeps them if and only if the number was registered |
| CircState.RegistryBound | src/daqd/circ.hh:238-239 | there are never more than 127 consumers |
| CircInvariant.InitInv | src/daqd/circ.cc:27-80 | a fresh buffer satisfies the invariant of the protocol |
| CircTheorems.StepKeepsInv | src/daqd/circ.cc:229-375 | every critical section of every thread, look-backs for any period included, in any order, keeps the invariant |
| CircTheorems.RunKeepsInv | src/daqd/circ.cc:381-420 | so does every run |
| CircTheorems.ReachableInv | src/daqd/circ.cc:27-80 | the invariant holds in every state reachable from a fresh buffer |
| CircProduction.PublishBusyKeeps | src/daqd/circ.cc:405-406 | setting busy to cmask under the buffer lock keeps the invariant although consumers run meanwhile |
| CircProduction.PublishPartKeeps | src/daqd/circ.cc:355-368 | publishing a part after the whole-block mask keeps the invariant |
| CircSteps.UnlockKeeps | src/daqd/circ.cc:744-753 | clearing a bit before the index moves keeps the invariant |
| CircSteps.AdvanceKeeps | src/daqd/circ.cc:763-763 | moving the index outside the lock keeps the invariant |
| CircSteps.Unlock16Keeps | src/daqd/circ.cc:715-739 | clearing all 17 bits keeps the invariant |
| CircMembership.AddKeeps | src/daqd/circ.hh:232-261 | adding a consumer while the producer fills a block keeps the invariant |
| CircMembership.DeleteSlotKeeps | src/daqd/circ.hh:390-407 | cleaning block after block keeps the invariant |
| CircMembership.MarkSlotKeeps | src/daqd/circ.hh:320-343 | marking one more block of a look-back search keeps the invariant |
| CircTheorems.NoOverwrite | src/daqd/circ.cc:388-415 | the block the producer is copying into has an empty busy mask until it is published, and nobody holds it |
| CircTheorems.StepKeepsHeld | src/daqd/circ.cc:624-641 | no step but its own unlock or deletion changes a block somebody holds |
| CircTheorems.HeldBlockNeverWritten | src/daqd/circ.cc:624-641 | over any run a block got and not unlocked stays in place and unchanged |
| CircTheorems.FilledBlockStays | src/daqd/circ.cc:395-408 | no step of anybody else between the copy and its publication touches the block, its number or the history |
| CircTheorems.PutStores | src/daqd/circ.cc:395-408 | over any run of the others between copy and publication, put adds one block to the log: the bytes and properties it was given, numbered by the puts before |
| CircTheorems.PutPartStores | src/daqd/circ.cc:243-368 | the same for a part, though the sixteenth part of a block is published after the block |
| CircBlocks.PutBlockStores | src/daqd/circ.cc:337-368 | from the first part of a block to its publication, over any run of the others: sixteen parts are filled, and the block added to the log has them in order, as many bytes as they have together and the properties given with the first, numbered by the puts before |
| CircBlocks.BlockReadsParts | src/daqd/circ.cc:337-352 | in every reachable state every stored block reads the properties of its first part and counts the bytes of its sixteen |
| CircTheorems.PutIsGot | src/daqd/circ.cc:624-641 | however much later, whoever gets that position of the log gets what put was given |
| CircTheorems.LosslessFifo | src/daqd/circ.cc:624-641 | a regular consumer has read log[origin..pos] exactly, all of it stored since the ring was fresh; next_block_in and next_block_out are the positions modulo the ring size; its bit is set exactly on the blocks it has not read |
| CircTheorems.GetReturnsNext | src/daqd/circ.cc:624-641 | get returns log[pos], data and properties |
| CircTheorems.DropAccounting | src/daqd/circ.cc:478-516 | puts equals blocks stored plus blocks dropped |
| CircTheorems.GapsAreDrops | src/daqd/circ.cc:499-515 | between consecutive stored blocks the seq_num difference minus one is the number of drops between them |
| CircTheorems.Membership | src/daqd/circ.hh:498-561 | whenever the buffer lock is free: masks nested and counted, busy masks inside tcmask, part masks inside cmask16th |
| CircTheorems.FastSequence | src/daqd/circ.cc:587-606 | a fast consumer has been given exactly the parts published from its registration on, in order; when it may take part 15 its whole-block bit is set |
| CircTheorems.FastNext | src/daqd/circ.cc:587-606 | get16th returns the next part of that sequence |
| CircTheorems.PartStays | src/daqd/net_writer.cc:446-468 | the part get16th has given is what was published, and nobody is replacing it |
| CircTheorems.GivenPartNeverWritten | src/daqd/net_writer.cc:446-468 | over any run of the other threads it stays in place and unchanged, so that it may be read after the call has returned |
| CircTheorems.LogIsParts | src/daqd/circ.cc:355-368 | part j of a stored block is the part published for it |
| CircTheorems.LookBackFindsNothing | src/daqd/circ.hh:346-349 | a look-back that finds nothing leaves no bit behind, and finds nothing only if nothing matches |
| CircTheorems.LookBackFindsRun | src/daqd/circ.hh:320-357 | the marked blocks are those of the newest n-1 with gps <= time < gps + delta, bstart and blast the times of the first and the last and, with time ordered from the first on, they are a contiguous run of the log; for any period |
| CircTheorems.LookBackFindsStored | src/daqd/circ.hh:320-343 | every block found has been stored if and only if the period does not hold second 0 or at most one block of the ring is still fresh |
| CircTheorems.TransientReads | src/daqd/circ.hh:273-364 | the transient consumer reads the marked run, one block after the other, unchanged |
| CircTheorems.TransientGet | src/daqd/circ.cc:624-641 | while marks are left, get returns the next marked block |
| CircTheorems.RunKeepsMarks | src/daqd/circ.cc:405-406 | no later put marks a block for a transient consumer |
| CircTheorems.LookBackDelivers | src/daqd/circ.hh:273-364 | however far the producer runs, a finished transient consumer has read exactly the matching run |
| CircFree.FreeForIsRoom | src/daqd/circ.hh:162-176 | for one consumer, what the index arithmetic yields in terms of its outstanding blocks, equal indices included |
| CircFree.FreeSpaceExact | src/daqd/circ.hh:154-182 | bfree is the least room over the consumers, the ring size if there are none, and the next put_nowait drops if and only if it is 0 |
| CircBuffer.Circ.constructor | src/daqd/circ.cc:27-80 | zeroed ring, first numbers registered, block size the least multiple of 8 that is big enough |
| CircBuffer.Circ.Put | src/daqd/circ.cc:380-420 | one block stored: properties, bytes, number, busy = cmask, index and count advanced |
| CircBuffer.Circ.PutNowait | src/daqd/circ.cc:478-516 | stores if the block is free, otherwise counts a drop and returns -1 |
| CircBuffer.Circ.Put16th | src/daqd/circ.cc:229-375 | one part stored; the sixteenth publishes the block |
| CircBuffer.Circ.Get16th | src/daqd/circ.cc:587-606 | block and part number packed in the result; the part index advances |
| CircBuffer.Circ.Unlock | src/daqd/circ.cc:744-764 | bit cleared, index advanced |
| CircBuffer.Circ.Noop | src/daqd/circ.cc:770-796 | a get and an unlock in one |
| CircBuffer.Circ.Unlock16th | src/daqd/circ.cc:715-739 | all 17 bits cleared, both indices moved |
| CircBuffer.Circ.AddConsumer | src/daqd/circ.hh:232-261 | the lowest free number registered at the current index, or -1 when all are taken |
| CircBuffer.Circ.DeleteConsumer | src/daqd/circ.hh:366-411 | masks and counters updated, every block cleaned of the number |
| CircBuffer.Circ.AddTransientConsumer | src/daqd/circ.hh:273-364 | -1, -2 or the number of a consumer marked on the matching blocks, with the first and last time found |
| CircBuffer.Circ.Bfree | src/daqd/circ.hh:154-182 | the least free count over the registered consumers |
| CircBuffer.Circ.Invariant | src/daqd/circ.hh:463-562 | true exactly when the fields are consistent at the level asked for |
| CircBuffer.ConsistentMeans | src/daqd/circ.hh:463-562 | what invariant() and invariant(1) check, told of the masks as sets: indices inside the ring, consumers counts regular and transient ones, no block too long or wanted by anybody not registered |
| CircSerial.PutIsRun | src/daqd/circ.cc:380-420 | an undisturbed put is the run begin, finish, publish busy, advance of the protocol |
| CircSerial.DropIsRun | src/daqd/circ.cc:502-512 | an undisturbed dropping put_nowait is a run of the protocol |
| CircSerial.PutPartIsRun | src/daqd/circ.cc:229-375 | an undisturbed put16th_dpscattered is a run of the protocol |
| CircSerial.GetIsRun | src/daqd/circ.cc:624-641 | get is a step of the protocol: it changes no field, and the block returned is the next position of the log modulo the ring size |
| CircSerial.NowaitFinds | src/daqd/circ.cc:690-711 | get_nowait returns a block exactly when get would not wait: a regular consumer when a block of the log is left to it, a transient one when its position is marked; and the block holds that position of the log |
| CircSerial.Get16IsRun | src/daqd/circ.cc:587-606 | get16th is a step of the protocol: the next part of the sequence of its consumer |
| CircSerial.NoopIsRun | src/daqd/circ.cc:770-796 | an undisturbed noop is the run get, unlock, advance: one block of the log skipped |
| CircSerial.UnlockIsRun | src/daqd/circ.cc:744-764 | an undisturbed unlock is a run of the protocol |
| CircSerial.Unlock16thIsRun | src/daqd/circ.cc:715-739 | an undisturbed unlock16th is a run of the protocol |
| CircSerial.AddIsRun | src/daqd/circ.hh:232-261 | add_consumer is a step of the protocol: the lowest free number, fast or not as asked, starting at the next block to be stored |
| CircSerial.DeleteIsRun | src/daqd/circ.hh:366-411 | an undisturbed delete_consumer is a run of the protocol |
| CircSerial.AddTransientIsRun | src/daqd/circ.hh:273-364 | an undisturbed add_transient_consumer, for any period, is a run of the protocol |
| CircSerial.LookBackFindsEmpty | src/daqd/circ.hh:320-343 | one block stored in a ring of four, seconds 0 to 99 asked for: a block that was never stored is found |
| CircSerial.InvariantAlwaysHolds | src/daqd/circ.hh:463-562 | invariant() holds in every reachable state, invariant(1) in every one where the lock is free |
| LayoutLoops.Daqd.Configure | src/daqd/comm_impl.cc:42-150 | offsets, tables and block size as laid out; refuses DCU ids outside the standard range unless told otherwise |
| LayoutLoops.Daqd.CloseDcu | src/daqd/comm_impl.cc:68-103 | finishing a DCU: its test-point room, offsets and sizes |
| LayoutLoops.Daqd.PlaceChannel | src/daqd/comm_impl.cc:107-138 | one channel placed; an alias takes no space |
| LayoutLoops.Daqd.InitializeVmpic | src/daqd/daqd.cc:1693-1818 | move-buffer size and copy plan from the tables of the first loop |
| LayoutLoops.Daqd.AddTestPoints | src/daqd/daqd.cc:1736-1770 | as many test points as fit the room, at most 64 |
| LayoutSound.SizeSoFar | src/daqd/comm_impl.cc:124-135 | until its DCU is finished, dcuSize is the data of the DCU |
| LayoutSound.TablesKept | src/daqd/comm_impl.cc:68-103 | with channels grouped, the tables of a finished DCU are never written again |
| LayoutSound.OffsetsKept | src/daqd/comm_impl.cc:119-130 | a channel keeps its offsets |
| LayoutSound.PlanPacked | src/daqd/daqd.cc:1728-1817 | the copy plan follows the layout: vectors in order, and the data area ends at status_ptr |
| LayoutSound.LayoutSoundness | src/daqd/daqd.cc:1722-1817 | for grouped channels that fit: no two planned extents or status areas meet, data in front of the status words, everything inside the block |
| LayoutSound.BoundsAlwaysHold | src/daqd/circ.cc:255-257 | the assertion of the scatter loop holds for every vector and part, and all parts fit the block |
| LayoutSound.RmPaid | src/daqd/comm_impl.cc:132-137 | status words pay for the four bytes in front of EXC data |
| LayoutSound.MoveBufferCovers | src/daqd/daqd.cc:1710-1713 | every planned read, EXC status words included, is inside the move buffer and no two overlap |
| LayoutSound.ChannelIsPlanned | src/daqd/daqd.cc:1776-1812 | every channel but an alias has its vector in the plan |
| LayoutExact.OverfullOverlaps | src/daqd/comm_impl.cc:88-95 | a Myrinet DCU with more data than its room: the next copied channel, or the status words, overwrite a channel of it |
| LayoutExact.NoRateOverlaps | src/daqd/comm_impl.cc:107-111 | a channel that names no rate moves the offset back: between two channels of its DCU it makes the layout unsound, whatever room there is |
| LayoutExact.SoundExactly | src/daqd/comm_impl.cc:68-138 | for grouped channels of which every copied one has data that divides into sixteenths, the layout is sound if and only if every Myrinet DCU fits its room |
| LayoutFigures.TruncatesToZero | src/daqd/daqd.cc:1741-1743 | integer division drops the fraction, whatever the sign |
| LayoutFigures.NextToEachOther | src/daqd/comm_impl.cc:119-137 | channels of a DCU follow one another without a gap, in the move buffer with four bytes in front of every channel of an EXC DCU |
| LayoutFigures.RoomTaken | src/daqd/comm_impl.cc:68-96 | however much data it has, a Myrinet DCU moves the offsets on by two DCU blocks a sixteenth |
| LayoutFigures.SizesOfDcu | src/daqd/comm_impl.cc:68-103 | the two sizes left for a DCU are the data of its channels and what it takes of the move buffer |
| LayoutFigures.TestPointsPlanned | src/daqd/daqd.cc:1736-1770 | as many test points as there is room for behind the data of the DCU, at most 64; without a gap, without a status, never zeroed |
| LayoutFigures.BlockSizeExact | src/daqd/comm_impl.cc:42-150 | block size: 32 DCU blocks for every Myrinet DCU, the data of the other channels, 68 bytes for every channel of the table |
| ChannelTable.SortedGroups | src/daqd/daqd.cc:195-206 | any result of the sort has the channels of a DCU together |
| ChannelTable.FileOrderKept | src/daqd/daqd.cc:191-206 | the sort leaves the DCUs in ascending order and within a DCU keeps the order of the files |
| ChannelTable.SortUnique | src/daqd/daqd.cc:370-374 | the sort has one possible result although it is not stable |
| ChannelTable.Renumber | src/daqd/daqd.cc:376-378 | afterwards the sequence number of a channel is its place, and nothing else has changed |
| ChannelTable.DataKept | src/daqd/daqd.cc:370-374 | the data of a DCU does not depend on the order of the channels |
| ChannelTable.ConfiguredSoundExactly | src/daqd/comm_impl.cc:53-138 | from such channels in the order of the files: the layout of the sorted table is sound if and only if no Myrinet DCU has more data than its room |
| ChannelConfig.CheckRate | src/drv/param.c:287-304 | a named rate passes if and only if it is a power of two from 16 to 512 * 1024 |
| ChannelConfig.SizeExact | src/daqd/daqd.cc:429-453 | a channel the parser lets through has data that divides into sixteenths if and only if it names a rate and a known data type; without a type it has none, without a rate less than none |
| ChannelConfig.BytesExact | src/daqd/daqd.hh:495-513 | a channel with a rate has exactly its samples, 16 bits for a short, 32 for an integer, a float or an unsigned, 64 for a long, a double or a complex of two floats; none for an unknown type; an alias is a test point of a test-point DCU |
| Scatter.PutPart | src/daqd/circ.cc:249-335 | all vectors of one part written to the block, and their total length |
| Scatter.StoreStatus | src/daqd/circ.cc:305-331 | status assigned in part 0, ORed after, and kept per part |
| Scatter.OrTo | src/daqd/circ.cc:299-303 | the OR of four bytes in place |
| ScatterTheorem.LoopDoesPart | src/daqd/circ.cc:249-335 | for vectors that keep apart, a part puts every slice and status in place and touches nothing else |
| ScatterTheorem.EarlierKept | src/daqd/circ.cc:249-335 | a part leaves the slices and statuses of earlier parts alone |
| ScatterTheorem.SixteenParts | src/daqd/circ.cc:249-335 | after sixteen parts every extent is its slices in order, zeroed where bad, and word 0 the OR of words 1 to 16 |
| ScatterTheorem.StoredByte | src/daqd/circ.cc:260-296 | byte by byte: what the move buffer has, or zero if bad data is to be zeroed and some byte of the status word is set |
| ScatterTheorem.OutsideKept | src/daqd/circ.cc:249-335 | a byte of no vector is never changed |
| ScatterTheorem.PlanIsSafe | src/daqd/circ.cc:255-257 | planned vectors keep apart and stay inside both buffers |
| ScatterTheorem.ChannelGathered | src/daqd/circ.cc:249-335 | a planned channel holds its sixteen slices at the offset the layout gave it |
| Framer.Run | src/daqd/daqd.cc:1182-1386 | first frame at a multiple of the file length, then frame after frame until an empty block |
| Framer.MakeFrame | src/daqd/daqd.cc:1197-1349 | one frame from blocks_per_frame blocks, or end of file at the first empty one |
| Framer.RowsExact | src/daqd/daqd.cc:1248-1268 | a frame has, in the order of the table and each once, exactly the channels that are active and, for a science frame, have bit 1 of active set |
| Framer.CopyChannel | src/daqd/daqd.cc:1269-1308 | one second of one channel: its bytes, and its validity, cleared at the first second |
| Framer.ValidMeans | src/daqd/daqd.cc:1289-1308 | DataValid is set exactly when some second had a status in its low half |
| Framer.VectorSecond | src/daqd/daqd.cc:1272-1274 | second k of a vector is the extent of block k |
| Framer.FrameTiling | src/daqd/daqd.cc:1206-1220 | frames start at multiples of their length and follow without gap or overlap; the first starts at a multiple of frames_per_file * blocks_per_frame, and no block before it does |
| Framer.FrameContent | src/daqd/daqd.cc:1197-1349 | every second of every channel of a frame is that channel in the block of that second |
| Framer.FrameHolds | src/daqd/daqd.cc:1197-1349 | one vector for each of these rows, as long as the seconds of the frame; second k of it is the extent of the row in the block of that second |
| Framer.FrameHeader | src/daqd/daqd.cc:1231-1244 | time, nanoseconds and run of the frame are those of its first block, its number counts files by sixteen cycles a second |
| Framer.FrameValid | src/daqd/daqd.cc:1289-1308 | DataValid of a queued frame against the stored status words |
| Framer.FrameValidIsLast | src/daqd/daqd.cc:1301-1309 | a DataValid that is set is the status of the last second of the frame that has one |
| ReadBack.FramerReadsSlices | src/daqd/daqd.cc:1272-1287 | the framer reads the sixteen slices of a channel and the low half of the OR; the slices are its whole extent if and only if 16 divides its size |
| ReadBack.FrameIsWhatWasFed | src/daqd/daqd.cc:1197-1349 | table, layout, writer and framer composed: second k of a channel in frame f is the sixteen slices that the feeds of that second brought for it, nothing missing and nothing else |
| ReadBack.FrameFlagIsWhatWasFed | src/daqd/daqd.cc:1788-1806 | its DataValid is set if and only if in one of the seconds of the frame a sixteenth brought a low half that is not zero: of the status of its DCU, or of the word in front of its data for an EXC DCU; never for another test-point DCU |
| ReadBack.LayoutShapes | src/daqd/daqd.cc:1272-1287 | what the framer reads of a channel and its status lies inside the block |
| DataPath.ReadPartIs | src/daqd/circ.cc:249-335 | a part of the block is what a feed brought if and only if every vector has its slice in place |
| DataPath.WriterFillsPart | src/daqd/circ.cc:249-335 | a call of the writer on bytes is the filling of a part in the protocol: of the sixteen parts one is replaced, by what the feed brought |
| DataPath.LogBrought | src/daqd/circ.cc:355-368 | part j of a stored block is what the feed of that part brought |
| DataPath.BlockWasPut | src/daqd/circ.cc:337-368 | a stored block is sixteen feeds, the properties put with the first and sixteen times the bytes of the plan |
| DataPath.FrameIsWhatWasPut | src/daqd/daqd.cc:1197-1349 | with the buffer in between: second k of a channel in frame f is what the sixteen feeds brought that were put as the parts of that block, whatever the producer and the other consumers did |
| DataPath.SecondIsPut | src/daqd/circ.cc:337-368 | every second the framer reads has the times, run and cycle put with the first part of its block, sixteen times the bytes of the plan, and in every extent what the sixteen feeds brought |
| DataPath.HeaderIsWhatWasPut | src/daqd/daqd.cc:1231-1244 | time, nanoseconds and run of a frame are those put with the first part of its first block |
| DataPath.NoneEmpty | src/daqd/daqd.cc:1222-1228 | a block put in parts ends the framer exactly if the plan copies nothing |
| FrontEnd.FrameBytesFed | src/daqd/circ.cc:260-296 | without the plan: byte x of sixteenth p of second k of a channel is byte x of what feed p of that second brought for it, or zero if bad data is to be zeroed and its status says so |
| FrontEnd.FrameBytesPut | src/daqd/daqd.cc:1272-1274 | the same of the feeds that were put through the buffer |
| FrontEnd.FrameSamples | src/daqd/daqd.cc:1197-1349 | from the configuration file to the frame: every second of a channel is exactly `rate` samples of the width of its data type, each as it was put |
| FrontEnd.VectorOfSamples | src/daqd/daqd.cc:1272-1274 | and its vector is those samples for every second of the frame and nothing else |
| TimeRanges.ChainAgrees | src/daqd/filesys.cc:180-222 | ranges of steady files cover exactly their seconds and give back start and length |
| TimeRanges.TouchingDiffer | src/daqd/filesys.cc:194-201 | a file that touches one of another length is looked up with the length of that one, by every range that has it and whatever is saved later |
| TimeRanges.BlocksFull | src/daqd/filesys.cc:204-222 | a block of ranges is filled up before another is started |
| TimeRanges.AgreesExactlyWhenSteady | src/daqd/filesys.cc:180-222 | for files in order, the chain of one directory agrees with its files if and only if files that touch are equally long |
| FileSys.FileMap.ChooseDir | src/daqd/filesys.hh:504-522 | the next directory when the current one is full |
| FileSys.FileMap.UpdateDir | src/daqd/filesys.cc:118-227 | the index holds what it must for one more file; a directory being entered was empty |
| FileSys.FileMap.CleanDir | src/daqd/filesys.cc:159-170 | a directory emptied block by block |
| FileSys.FileMap.PutRange | src/daqd/filesys.cc:180-222 | the current range extended, or a range or a block started |
| FileSys.FileMap.FindRange | src/daqd/filesys.hh:236-256 | a range that covers the second, or none does |
| FileSys.FileMap.DirNumber | src/daqd/filesys.hh:219-260 | an answer that a directory and range covering the second give, whatever the hint; the answer of a linear search over the kept files when kept files that touch inside one directory are equally long; outputs untouched when there is none |
| FileIndex.AfterUpdate | src/daqd/filesys.cc:118-227 | directories, minimum and maximum after one more file |
| FileIndex.HeldAfterEnter | src/daqd/filesys.cc:149-170 | the directory entered was empty and the one after it is emptied |
| FileIndex.NewFirst | src/daqd/filesys.cc:174-177 | the minimum is looked for where the oldest kept files are |
| FileIndex.KeptIsSuffix | src/daqd/filesys.cc:147-178 | the directories not cleaned hold, in the order they were entered, exactly the newest files saved: at most (num_dirs - 1) * files per directory and, once the ring is full, more than (num_dirs - 2) * files per directory |
| FileIndex.OthersEmpty | src/daqd/filesys.cc:159-170 | all other directories are empty |
| FileIndex.TimesAreExtremes | src/daqd/filesys.cc:223-223 | min_time and max_time are the extremes over the kept files |
| FileIndex.LookupIsSearch | src/daqd/filesys.hh:219-260 | then every answer the directories can give is that of the linear search |
| FileIndex.LookupExact | src/daqd/filesys.hh:219-260 | for files saved in order: every answer, for every second and hint, is that of the linear search if and only if kept files that touch inside one directory are equally long; otherwise some second has only wrong answers |
| FileScan.ScanDir | src/daqd/filesys.cc:389-577 | the range loop of scan on sorted time stamps |
| FileScan.ScanTrims | src/daqd/filesys.cc:389-550 | rebuilding trims every range of several files that replaying would leave |
| FileScan.ScanRuns | src/daqd/filesys.cc:456-551 | every rebuilt range is a run of its files that ends, for several files, the period after the start of the last, and for one its length after its start |
| FileScan.ScanStarts | src/daqd/filesys.cc:400-513 | whatever lengths the names give, every rebuilt range starts at a file that has one and takes its length from it |
| FileScan.TouchingLengthUnread | src/daqd/filesys.cc:445-454 | a file that touches the current range counts for the length of that range, whatever its name says |
| FileScan.TrimmedTwice | src/daqd/filesys.cc:456-493 | three files of 16 seconds and one without a length, scanned with a period of 1: 30 seconds are lost instead of 15 |
| FileScan.RebuildIsReplayExactly | src/daqd/filesys.cc:456-481 | rebuilt and replayed chains are equal if and only if no period is set or every range of several files has files of that length |
| FileScan.RebuildExactForFiles | src/daqd/filesys.cc:456-481 | told of the files: a steady directory is rebuilt as it was if and only if no period is set or every file that touches the one before it has that length |
| FileScan.RebuildLoses | src/daqd/filesys.cc:456-550 | two files of 16 seconds scanned with a period of 1: the last 15 seconds are lost |
| FileScan.RebuildRestores | src/daqd/filesys.cc:552-577 | with files of the period's length a directory is rebuilt as it was |
| Crc32.Tables.constructor | src/daqd/checksum_crc32.cc:38-39 | entry i of the constant table is eight polynomial shifts of i << 24 |
| Crc32.Tables.Init | src/daqd/checksum_crc32.cc:457-488 | the eight tables after initialisation |
| Crc32.Tables.FillColumn | src/daqd/checksum_crc32.cc:468-481 | tables 1 to 7, each from the one before and table 0 |
| Crc32.Tables.Calc | src/daqd/checksum_crc32.cc:503-538 | for every buffer, length, alignment and start value the octets one by one |
| Crc32.Tables.Finish | src/daqd/checksum_crc32.cc:541-556 | the length octets fed, the register reversed and complemented |
| Crc32.Checksum.Add | src/daqd/checksum_crc32.cc:569-573 | the state stands for all data added so far |
| Crc32.Checksum.Reset | src/daqd/checksum_crc32.cc:576-581 | no data |
| Crc32.Checksum.Result | src/daqd/checksum_crc32.cc:584-587 | however the data was split, the checksum of all of it; the cksum value below 4 GiB |
| CrcLinear.SliceStep | src/daqd/checksum_crc32.cc:468-481 | the recurrence that builds the tables |
| CrcLinear.RoundAbsorbs | src/daqd/checksum_crc32.cc:518-529 | eight lookups do the work of eight octets for every linear update |
| Crc32.FeedLinear | src/daqd/checksum_crc32.cc:492-500 | feeding a zero octet is linear and only shifts while the low octet is zero |
| CrcSteps.FoldOrder | src/daqd/checksum_crc32.cc:442-453 | the little-endian register is at all times the byte reverse of the big-endian one |
| CrcSteps.OctetIsEightBits | src/daqd/checksum_crc32.cc:498-499 | the table update by an octet is eight steps of the division |
| CrcSteps.FoldIsRemainder | src/daqd/checksum_crc32.cc:492-500 | the register is the remainder of the data times x^32 modulo G(x) |
| Crc32.AbsorbedIsFinished | src/daqd/checksum_crc32.cc:541-556 | reversing and complementing the little-endian register gives the big-endian checksum of data and length |
| CrcStandard.LengthRoundTrip | src/daqd/checksum_crc32.cc:544-547 | the length octets are the length, least significant first, and as few as possible |
| CrcStandard.CksumUnique | src/daqd/checksum_crc32.cc:541-556 | the standard determines the checksum |
| CrcStandard.FinishedIsCksum | src/daqd/checksum_crc32.cc:541-556 | the complemented register is the cksum value |
| CrcStandard.EmptyFile | src/daqd/checksum_crc32.cc:544-544 | no length octet or one zero octet make no difference for an empty file |
| Gf2.RemainderUnique | src/daqd/checksum_crc32.cc:492-500 | division by G(x) has one remainder |
| Crc32.WrapLeavesStandard | src/daqd/checksum_crc32.cc:569-573 | with the 32-bit length wrapped the result for 4 GiB of zero octets is not the cksum value |
| CrcWrap.WrappedFails | src/daqd/checksum_crc32.cc:569-573 | for every length that has wrapped there is data of that length whose result is not the cksum value |
| CrcWrap.ServedExactly | src/daqd/checksum_crc32.cc:541-573 | of the lengths below 2^64, all data of that length is given its cksum value if and only if the length is below 4 GiB |

## Left out

- Waiting: condition variables are steps that are not enabled yet, so nothing is said about wakeups,
  fairness or termination of a wait; safety only. The block locks are left out, so the protocol has more
  interleavings than the code. The hardware memory model and tearing between the two mask words are not
  modelled.
- Client discipline, taken from how daqd calls the buffer: one thread per consumer number, `unlock` only after
  `get`, `unlock16th` only after part 15, a fast consumer never calls `get`, a consumer deleted by its own
  thread, one family of put calls per buffer, one producer.
- Of the properties of a block only run, GPS seconds and nanoseconds, cycle and sequence number are modelled.
- The `delta == 0` playback branch of `add_transient_consumer`, which depends on the block period.
- `put_pscattered`, `put_nowait_scattered` and `put16th_dpscattered_lost` differ from the modelled puts in how
  the bytes are gathered only; `timed_get` is `get` with an exit.
- The 64-bit masks appear in the protocol as sets of numbers; `ConsumerMask` proves the operations on words
  to be the operations on sets. Blocks of data are values there: `Scatter` has the writer on bytes, and
  `WriterFillsPart` ties the two.
- Widths of C integers other than the CRC and its length: indices, sizes, counters and times are unbounded.
- Byte swapping under `DATA_CONCENTRATOR`, shared-memory construction, `MAX_BLOCKS` and memory exhaustion.
- The sort of the channel table is the relation `Sorted` (some permutation without a descent), not an
  algorithm; reading the configuration files but for the check of a rate, and the check for duplicate names,
  are left out.
- The DCU macros and `DAQ_DCU_BLOCK_SIZE` are parameters. Recording the TP offset of TP DCUs, a second
  ifo, activation by the broadcast list, trends and channel hashes are not modelled; nor is what the layout
  loop reads beyond the channel table for its first and last turn. The last turn of both loops is written
  after the loop.
- Alias channels get no vector; what a frame holds for an active alias is not stated.
- `Framer.Run` sees the blocks as a finite sequence in the order its consumer gets them; an EPICS
  display, the frame file library, MD5 sums and the 8-bit CRC of fast data are left out, and so are the auxiliary
  validity vectors.
- Range blocks and directory entries are values held in fields, so sharing of a block between lists is not
  captured. File names, directories on disk, the wiper thread, the reading of directory contents and the sort
  in front of the range loop of `scan`, its sums over directories, and a map with fewer than two directories
  are left out.
- FileMap.UpdateDir: covers the directory that `getDirFileNames` chooses, not an arbitrary number passed by a caller.
- The literal CRC tables are not compared entry by entry: entry i of the constant table is defined as eight
  polynomial shifts of `i << 24`, and the other eight tables as `crc32_init` generates them.
