# camogm: recording to a raw disk, the movie header, and the disk index

camogm records JPEG frames from a camera's circular image buffer. This project models the parts of it where bytes
can get lost or misplaced, and proves what they keep:

- **The raw-disk pipeline.** A frame is a packet of byte chunks. `align_frame` turns it into whole 512-byte sectors
  made of 32-byte aligned buffers, inserts a JPEG stuffing segment, and carries what is left over into the next frame.
  `update_lba` moves a ring pointer over the partition. A main thread and a writer thread hand the prepared buffers
  over with one mutex, two condition variables and a flag. The result is one end-to-end statement: after a stop, the
  writes of the session are the frames that were submitted, in order, whatever the interleaving of the two threads and
  however often the ring was gone around; every write that no later one overlaps is still on the device, and how many
  of the last ones these certainly are is exact.
- **The movie header.** A small template language is compiled, in two passes and with back-patched lengths, into the
  atoms of a QuickTime file; its sample tables must lead to frames that were written before the header existed. The
  result is a player that reads nothing but the file and finds every frame whose chunk begins below 4 GiB.
- **The disk index.** A doubly linked list of files in the order of their time stamps, and the search that probes the
  middle of a shrinking range of disk offsets. The result is the exact length from which on a recording is found, on a
  disk of files in time order that leaves no search window empty before or between the files, from a directory that
  knows no file in time and whose nearest entry has no neighbour of its own time on the side of the target; an empty
  directory is one of these.
- **The command pipe.** The splitter that gives the same commands however the pipe cuts them.

## How it is laid out

The algorithms that work in place appear twice: as a class with the source's own fields, arrays and loops, and as a
function on values that its methods are proved against. Building a packet and starting a recording are modelled on
values only. The theorems are about the functions and about the runs of a step system.

| files | content |
|---|---|
| `Bytes`, `BigEndian`, `SparseFile` | byte strings, big-endian numbers, a file under `lseek` and `write` |
| `Capture`, `FrameAlignment`, `AlignBuffers` | the packet builder, `align_frame` on values and in place |
| `AlignmentTheorems`, `PartialTakes`, `StuffingSegment` | what one call of `align_frame` guarantees, and when it does not |
| `Handshake`, `HandshakeTheorems` | the two threads as a step system, its safety and its progress |
| `RingPointer`, `Delivery`, `SessionLog`, `Survival` | invariants over whole runs, end to end |
| `Reachability`, `StopOutcomes`, `Retries`, `Overruns` | runs that exist: recordings, the ways a stop can end, frames after a failed write, writes that overwrite each other |
| `Recording` | the critical sections in place |
| `Template`, `TemplateCompiler` | the header compiler on values and in place, for any text |
| `Literals`, `TemplateGrammar`, `TemplateErrors` | what a quote stands for, the compiler on well-formed text, and on text it does not understand |
| `Boxes`, `TemplateAtoms` | the atom tree and a walker that goes by the lengths alone |
| `MovHeader`, `MovLayout` | the two passes, the gap before the data |
| `Sketches`, `QtSource`, `QtLayouts` | templates without their layout, the shipped template, and its layouts |
| `MovFile`, `MovPlayer`, `QtTables`, `QtPaths`, `MovReader`, `WholeFile` | the recorded file, a player, and what it finds |
| `SketchOffsets`, `HeaderFields` | the numbers in the header, as a player reads them |
| `IndexList`, `DiskSearch` | the disk index and the search |
| `DiskContents`, `Requests` | what the search finds on a disk with files on it, and what a sequence of requests finds |
| `CommandPipe` | the command splitter |

Where code and documentation differ, the model follows the code. `find_disk_index` is documented to return nothing
only if there is no close file; the code can also miss one. `Requests.RequestSpanIsExact` says from which length on it
cannot, as long as no search window is empty before or between the files, these are in time order, and the directory
is as above; from other directories it can: when nothing in time is known, exactly when the nearest entry has a
neighbour of its own time on the side of the target (`Requests.RequestFindsExactly`), and the third of three identical
requests can find nothing on a full disk of files in time (`Requests.ThirdRequestMisses`). Behind an empty window it
misses recordings of any span up to nearly half the disk (`DiskContents.NoSpanIsSure`, and
`DiskContents.SearchCanMiss` for a single file), and behind a newer lap around the ring the older recordings
(`DiskContents.HiddenByNewLap`, `DiskContents.OldLapIsMissed`). When the ring pointer stands at the end of the
partition, `camogm_end_jpeg` has no room for the last block, with which the end of the last frame is lost
(`StopOutcomes.LastBlockLost`, `StopOutcomes.LastBlockCanMiss`); a remainder of 513 bytes ends in a fault
(`StopOutcomes.StopCanFault`). After a failed write the common buffer grows with every frame that is offered
(`Retries.RetriesExceedExactly`). The length of the data atom is written without the atom's own eight bytes
(`MovFile.DataAtomIsShort`), so that a reader of the whole file fails on its last eight bytes unless they happen to
look like an atom (`WholeFile.WholeFileWalk`). The times in the header are Unix times plus 2082801600, which is twelve
hours short of the seconds from 1904 to 1970 (section 8.2.2 of ISO/IEC 14496-12 counts from 1904;
`HeaderFields.HeaderSays` reads what is written). A template that is not understood to its end gives a header that
begins with a zero length (`TemplateErrors.UnknownSpoils`). A short frame can lose bytes when its padding ends inside a
vector, which `PartialTakes.PreservedExactlyWithoutPartialTake` makes exact, `PartialTakes.PartialTakeLoses` says byte
by byte, and `PartialTakes.PartialTakeHappens` shows on a frame.

## Model

| member | source | states |
|---|---|---|
| Capture.CircReadParts | src/camogm.c:656-677 | the one or two bitstream chunks joined are the bytes at (rp + k) modulo the buffer size, split exactly when the frame goes over the end |
| Capture.BuildPacket | src/camogm.c:637-679 | the packet has the layout alignment needs; its frame is marker, Exif, header, the circular read and the end marker, and a split leaves the first part 32-byte aligned |
| Capture.RemapKeepsPacket | src/camogm_align.c:110-141 | in both layouts the slots remap_vectors fills, joined, are the packet's chunks after the type byte |
| FrameAlignment.StuffingLen | src/camogm_align.c:293-303 | the stuffing makes the head a multiple of 32 and is 0, 4 to 31 or 33 to 35 bytes long |
| AlignmentTheorems.GatherCollectsHead | src/camogm_align.c:275-311 | the common buffer collects remainder, leader, Exif, stuffing and header in that order, aligned, and nothing of the stream is lost |
| AlignmentTheorems.SplitTrailerCutInRange | src/camogm_align.c:381-402 | when the end marker would be parted, 510 bytes of bitstream are impossible because the common buffer is a multiple of 32, so 511 - data1 never exceeds data 0 |
| AlignmentTheorems.CutFrameSplits | src/camogm_align.c:359-428 | on the main path the stream is cut at a sector boundary, never inside the end marker, and every slot stays aligned |
| AlignmentTheorems.ShortFrameLengths | src/camogm_align.c:313-356 | the short-frame path emits whole sectors and keeps the length modulo 512 |
| AlignmentTheorems.AlignFrameLengths | src/camogm_align.c:240-435 | for every frame: check_chunks finds no error, lengths add up, the remainder is the reference residue, and nothing is emitted exactly for a delayed frame |
| AlignmentTheorems.AlignFrameSplitsStream | src/camogm_align.c:240-435 | without a partial take one call cuts the stream of remainder and stuffed frame at one place: the front is emitted, the rest is kept |
| AlignmentTheorems.DelayKeeps | src/camogm_align.c:249-273 | a delayed frame goes to the remainder whole |
| AlignmentTheorems.ResidueBounded | src/camogm_align.c:313-428 | the remainder is at most 511 or exactly 513 |
| PartialTakes.PreservedExactlyWithoutPartialTake | src/camogm_align.c:316-349 | frames of a shape are preserved whatever their bytes are if and only if no vector is taken in part |
| PartialTakes.PartialTakeHappens | src/camogm_align.c:316-349 | a packet the capture side can build, with 623 bytes of header and 400 of bitstream, on which the padding ends inside a vector and bytes are lost |
| PartialTakes.PartialTakeLoses | src/camogm_align.c:316-349 | when the sector is filled with num bytes of a vector that has more, for each of the three vectors: what is emitted and what is kept, byte by byte; the sector gets the first num bytes of the vector, and its last num bytes are lost |
| StuffingSegment.StuffingIsOneSegment | src/camogm_align.c:283-311 | a marker reader that starts after SOI lands exactly on the header bytes, and taking the APP15 segment out gives the captured frame (sections B.1.1.4 and B.2.4.6 of ITU-T T.81) |
| StuffingSegment.App15Head | src/camogm_align.c:304-305 | the stuffing byte by byte: marker, length and zeros, and for more than 32 bytes what follows the array in memory |
| AlignBuffers.Aligner.RemapVectors | src/camogm_align.c:110-141 | in place: the slots point at the packet, the remainder moves to its second buffer |
| AlignBuffers.Aligner.DelayShortData | src/camogm_align.c:313-356 | in place: the short-frame path is the function ShortFrame, partial takes included |
| AlignBuffers.Aligner.CutAtSector | src/camogm_align.c:359-428 | in place: the five cuts of the main path are the function CutFrame |
| AlignBuffers.Aligner.AlignFrame | src/camogm_align.c:240-435 | in place, on buffers of the allocated sizes and without leaving them: the whole call is the function AlignFrame |
| AlignBuffers.CommonBufferSuffices | src/camogm_align.h:39 | with a remainder of at most 513 bytes the common buffer and the ALIGN slot stay below the allocated size, for any maximum Exif size |
| AlignBuffers.Aligner.AdvanceLba | src/camogm_align.c:452-467 | in place: update_lba moves the pointer over the emitted sectors or restarts it |
| AlignBuffers.Aligner.GetDataBuffers | src/camogm_align.c:470-491 | the loop returns the non-empty slots in order, -1 if they do not fit |
| AlignBuffers.Aligner.Reset | src/camogm_align.c:438-449 | in place: all slots are emptied, the remainder only on request |
| AlignBuffers.Aligner.PrepareLastBlock | src/camogm_align.c:494-513 | in place, for any remainder: up to a sector becomes one sector with zeros behind it, more is reported as the fault of a negative fill |
| HandshakeTheorems.BuffersOfFrame | src/camogm_align.c:470-491 | one to four buffers for a frame that is not delayed, none for one that is |
| Handshake.RunSafe | src/camogm_jpeg.c:320-481 | over every interleaving, any frames and any write results: the mutex, flag and slots invariant holds, and transactions are served once and in order |
| HandshakeTheorems.SlotsExclusive | src/camogm_jpeg.c:320-481 | main changes the slots only while data_ready is false and nothing is pending, the writer only while it is true and one transaction is pending |
| HandshakeTheorems.NeverBothWaiting | src/camogm_jpeg.c:320-481 | the threads are never both in a condition wait, and the writer leaves nothing pending when it ends |
| HandshakeTheorems.Progress | src/camogm_jpeg.c:320-481 | no deadlock: while the main thread has work or a transaction is pending, some thread can step |
| HandshakeTheorems.QuietIsServed | src/camogm_jpeg.c:320-481 | where no thread can step by itself, everything that was handed over has been served and main is between jobs |
| HandshakeTheorems.InternalRunsEnd | src/camogm_jpeg.c:320-481 | every job ends: the number of steps without new input is bounded by a rank |
| HandshakeTheorems.WriteOutcome | src/camogm_jpeg.c:445-477 | a write counts as done exactly when something was mapped and all of it was written; otherwise the remainder is dropped; the device takes the bytes writev reports, at its offset, and no others |
| HandshakeTheorems.FlushOutcome | src/camogm_jpeg.c:371-390 | the flush writes the remainder and zeros up to a sector, byte by byte as far as writev gets; the pointer moves on exactly if all of it was written, and the remainder is gone either way |
| HandshakeTheorems.FailureIsFinal | src/camogm_jpeg.c:337-345 | after a failed write nothing is handed over again |
| HandshakeTheorems.EmptyTransactionIsFinal | src/camogm_jpeg.c:464-471 | over every run: once an empty transaction is ready, nothing more is handed over, and when the writer has taken it the recording has failed |
| Retries.RetriesGrow | src/camogm_align.c:275-311 | frames offered after a failed write, none of which finds reset slots, each add at least their head to the common buffer |
| Retries.RetriesExceedExactly | src/camogm_align.h:39 | for one frame that keeps coming, the number of calls after which the common buffer would exceed its allocated size, exactly, for any maximum Exif size |
| Retries.RetriesGoOn | src/camogm_jpeg.c:328-345 | a run exists in which a write fails and then any frames are offered, and the slots are what aligning them without a reset gives |
| Recording.DelayedFrameStopsRecording | src/camogm_jpeg.c:320-471 | a delayed frame is handed over as an empty transaction; over every run from there no other frame is handed over, and when the writer has taken it, the recording has failed for good |
| Recording.Device.Write | src/camogm_jpeg.c:452-459 | in place: the first n bytes of the joined buffers land at the offset, which moves by n |
| Recording.Recorder.FrameSection | src/camogm_jpeg.c:320-341 | in place: the critical section of camogm_frame_jpeg is align, advance and publish of the step system |
| Recording.Recorder.WriterSection | src/camogm_jpeg.c:445-477 | in place: one round of jpeg_writer is the write step, for any number of bytes the device took |
| Recording.Recorder.EndSection | src/camogm_jpeg.c:371-390 | in place: the critical section of camogm_end_jpeg is the flush step, whatever number of bytes writev takes and with the fault of too long a remainder |
| RingPointer.UpdateLbaStaysInside | src/camogm_align.c:452-467 | the pointer stays in the partition if and only if the transaction is not larger than it |
| RingPointer.PendingFits | src/camogm_jpeg.c:445-463 | a pending transaction fills contiguous whole sectors behind the device offset and never reaches over the end |
| RingPointer.LastBlockFits | src/camogm_jpeg.c:371-390 | the last block stays inside if and only if the pointer has not reached the end, which the flush does not look at |
| RingPointer.RunCoupled | src/camogm_jpeg.c:320-481 | in every reachable state: offset plus counted bytes is the pointer, extents are adjacent or start a lap, total_rec_len is the sum of what was written |
| Delivery.RunDelivered | src/camogm_jpeg.c:287-481 | in every reachable state: what is on the device since the start of the lap, then the pending slots, then the remainder, is the rest of the session's stream |
| Delivery.StoppedSessionIsOnDisk | src/camogm_jpeg.c:287-481 | after a stop the device holds, from the start of the session or of its last lap, the frames submitted, in order, each with its stuffing segment, zero-padded to a sector |
| Delivery.StoppedTookAll | src/camogm_jpeg.c:287-341 | in every run, whatever failed on the way, when the recording is closed, the frames of the session are those submitted since it was started, in order |
| Reachability.CanRecord | src/camogm_jpeg.c:287-481 | whatever the frames, if each fills a sector, fits the partition and has no partial take, some run records them all |
| SessionLog.WritesAreKept | src/camogm_jpeg.c:445-463 | every write of a good run that no later write overlaps is on the device at the end, laps around the ring included |
| SessionLog.StoppedSessionIsKept | src/camogm_jpeg.c:287-481 | after a stop the writes of the session, joined, are the frames submitted, in order, with their stuffing segments, zero-padded to a sector, over all laps; each write of the run that is not overlapped later is on the device |
| Survival.RecentWritesAreKept | src/camogm_align.c:452-467 | the last writes of a run, as long as they take together at most the partition plus one sector, less the longest of them or half the partition, whichever is less, are all on the device |
| Survival.SurvivalBoundIsExact | src/camogm_align.c:452-467 | that bound is exact for every size of partition and every longest write |
| Overruns.OverrunHappens | src/camogm_align.c:452-467 | one sector beyond that bound a run exists whose last write overwrites its first one |
| StopOutcomes.StopFaultsExactly | src/camogm_align.c:502-505 | prep_last_block computes a negative fill if and only if the last frame of the main path left one byte over a sector |
| StopOutcomes.StopCanFault | src/camogm_align.c:502-505 | a run from an empty partition exists, with one frame, in which every possible flush ends in that fault |
| StopOutcomes.LastBlockWrittenExactly | src/camogm_jpeg.c:371-390 | a flush that succeeds is possible if and only if there is no remainder or the pointer has not reached the end |
| StopOutcomes.LastBlockLost | src/camogm_jpeg.c:376-390 | with the pointer at the end every flush fails: the remainder is dropped and the device keeps the stream without its end |
| StopOutcomes.LastBlockCanMiss | src/camogm_jpeg.c:371-390 | a run from an empty partition exists, with one frame that fills it, whose end marker is the remainder and cannot be written |
| BigEndian.EncodeFour | src/camogm_mov.c:225-234 | the last l of the four bytes putBigEndian prepares are the big-endian number, negative ones in two's complement |
| BigEndian.DecodeTruncates | src/camogm_mov.c:225-234 | reading a number back gives it modulo 256 to the number of bytes, for every integer |
| TemplateCompiler.Compiler.PutBigEndian | src/camogm_mov.c:225-234 | in place: the number goes to the file offset |
| TemplateCompiler.Compiler.PutChunkTable | src/camogm_mov.c:299-307 | the one walk over all frames emits the offset of every chunk and nothing else |
| TemplateCompiler.Compiler.PutDataSize | src/camogm_mov.c:312-332 | in place: the skip atom over a gap of at least 8 bytes, an error for 1 to 7, then the sum of the frame lengths |
| TemplateCompiler.Compiler.ParseSpecial | src/camogm_mov.c:251-340 | in place: the word, its cursor and its output for every word, known or not |
| TemplateCompiler.Compiler.SfGets | src/camogm_mov.c:237-249 | the line up to the newline, at most 1023 characters, and where the cursor stops |
| TemplateCompiler.Compiler.ReadNumber | src/camogm_mov.c:376-382 | the digit loop: value, digit count and the delimiter it swallows after fewer than 8 digits |
| TemplateCompiler.Compiler.Parse | src/camogm_mov.c:342-409 | in place and for any text: parse terminates and does what the function Parse says, length patch included |
| TemplateCompiler.Compiler.CompileTemplate | src/camogm_mov.c:412-451 | in place: both passes |
| Literals.LiteralIsUnique | src/camogm_mov.c:366-375 | a quote puts out the one word with which its line begins so that blanks and tabs up to the end, a comment or a carriage return follow, and which does not end in a blank or a tab |
| Literals.WordIsWritten | src/camogm_mov.c:366-375 | a word, any blanks and tabs, and nothing, a comment or a carriage return: the word alone is put out |
| TemplateErrors.WordIs | src/camogm_mov.c:260-261 | the name of a special ends at the first blank, tab, line end or NUL, which is used up, and has at most 255 characters, behind which one more is used up |
| TemplateErrors.LineIs | src/camogm_mov.c:237-249 | a line ends before its newline, or before the last character of a text without one; at most 1023 characters of it are read |
| TemplateErrors.UnknownCharacter | src/camogm_mov.c:355-393 | a character that is no blank, no digit and none of the four marks ends parse with an error and puts out nothing |
| TemplateErrors.SpecialAccepted | src/camogm_mov.c:251-340 | parse_special succeeds exactly for its twelve names, for data_size only without a gap of 1 to 7 bytes, and otherwise puts out nothing |
| TemplateErrors.LengthOrZero | src/camogm_mov.c:353-409 | for any text: an atom that is understood to its end begins with its length, one that is not begins with zero, and nothing in front of it changes |
| TemplateErrors.UnknownSpoils | src/camogm_mov.c:342-451 | one unknown character anywhere in the first atom, with anything behind it: the compiled file begins with a zero length, which no reader gets past |
| TemplateErrors.UnknownSkipped | src/camogm_mov.c:442 | outside of all atoms the same character is skipped: the pass goes on and writes what the rest stands for |
| TemplateGrammar.CompilesHex | src/camogm_mov.c:376-385 | a number puts out its bytes; one of fewer than eight digits uses up the character behind it, also a closing brace |
| TemplateGrammar.Compiles | src/camogm_mov.c:342-409 | wherever a well-formed text stands, parse crosses it and puts out the bytes it stands for, every atom behind the length of the whole atom |
| TemplateGrammar.PassEmits | src/camogm_mov.c:442 | one pass over a well-formed template writes its bytes |
| TemplateGrammar.SameItemsSameBytes | src/camogm_mov.c:355-373 | blanks, comments and delimiters do not matter |
| Boxes.WalkSerialize | src/camogm_mov.c:402-407 | a walker that goes by lengths alone recovers the atoms from their bytes (section 4.2 of ISO/IEC 14496-12) |
| Boxes.SerializeWalk | src/camogm_mov.c:402-407 | what the walker returns is all that was there |
| TemplateAtoms.WalkerRecoversTemplate | src/camogm_mov.c:342-409 | from the compiled bytes of any well-formed template of tagged atoms the walker recovers the template's tree |
| TemplateAtoms.TreeIgnoresLayout | src/camogm_mov.c:355-373 | the tree of a text is the same for every layout of its items |
| MovHeader.SecondPassChangesNothing | src/camogm_mov.c:438-448 | with the data start given, pass 2 rewrites exactly the bytes of pass 1, for every text and a fixed clock |
| MovHeader.EmitLength | src/camogm_mov.c:292-309 | the length of the header depends on the number of frames and chunks only |
| MovLayout.TwoPassFixedPoint | src/camogm_mov.c:438-448 | without a data start pass 2 has the length of pass 1, no skip atom, and chunk offsets from the true header end |
| MovLayout.HeaderAlwaysFits | src/camogm_mov.c:128 | the gap is at least 8 for all frame counts up to the limit and all chunk sizes if and only if the fixed part is at most 0x300 - 4 bytes |
| MovLayout.HeaderMeetsData | src/camogm_mov.c:312-332 | the skip atom spans the gap, the data atom's head ends exactly where the frames begin, and no byte from there on changes |
| Sketches.SketchExact | src/camogm_mov.c:342-409 | the text written out from a sketch is well formed and has the size and the tables the sketch was measured to have |
| Sketches.LaysExactly | src/camogm_mov.c:355-385 | a text writes the items of a sketch in their order, with blanks, comments and line ends between them, if and only if it is the written-out sketch but for its layout |
| QtSource.QtHeaderExact | src/qt_source:1-158 | the shipped template, in any layout, has one table of each kind and 665 fixed bytes before the data length |
| QtSource.QtHeaderAlwaysFits | src/qt_source:1-158 | with the shipped template, in any layout, the header always fits and the output ends at frame_data_start |
| QtLayouts.NotedIsShipped | src/qt_source:1-158 | the template with a comment behind every item, and a carriage return and a newline at the end of every line, is one of its layouts |
| QtLayouts.NotedLines | src/qt_source:57-61 | the lines of a literal and of a number in that layout, character by character |
| QtTables.DigitAt | src/qt_source:1-158 | the numbers of the template stand there digit by digit, the most significant one first |
| MovFile.RecordedNext | src/camogm_mov.c:144-159 | one more frame is appended and no earlier one is touched |
| MovFile.HeaderHeld | src/camogm_mov.c:312-332 | with a fitting template the file begins with the movie atom, then the head of a skip atom over the gap, and the head of the data atom is right before frame_data_start |
| MovFile.DeclaredIffListed | src/camogm_mov.c:296-309 | the declared chunk count is the number of entries if and only if there is a frame or each frame is a chunk |
| MovFile.IndexedIsWritten | src/camogm_mov.c:292-309 | chunk offset plus the sizes of the earlier samples of the chunk is the place frame i was written to |
| MovFile.FramesAreIndexed | src/camogm_mov.c:168-216 | after the header was compiled into the file, every frame is where the tables say |
| MovFile.DataAtomIsShort | src/camogm_mov.c:326-330 | the data atom's length ends it 8 bytes before the last frame ends |
| MovFile.MovRecorder.SendFrame | src/camogm_mov.c:138-161 | in place: the frame-count guard, the vector without the packet type, a short or failed write closes the file, also a closed one, a full one extends file and length table |
| MovFile.MovRecorder.EndMov | src/camogm_mov.c:168-216 | in place: the header is compiled with the recorded lengths, with a fitting template all frames are indexed; a file closed by a failed write stays as it is |
| HeaderFields.HeaderSays | src/camogm_mov.c:251-340 | for any layout of the template: at the offsets of sections 8.2.2, 8.3.2, 8.4.2, 8.5.2 and 8.6.1.2 of ISO/IEC 14496-12 a player reads width, height, time scale, duration, frame count, frame duration and the times the compiler was given, modulo their widths |
| HeaderFields.EndShippedMov | src/camogm_mov.c:168-216 | in place: after camogm_end_mov with the shipped template a player reads its arguments and the number of recorded frames in the file |
| HeaderFields.DataStartRead | src/camogm_mov.c:265-267 | the special mdata puts out where the tables place the first frame, in 32 bits |
| SketchOffsets.DropLeads | src/camogm_mov.c:342-409 | the bytes of an atom from an offset on are those of the items that begin there |
| QtTables.NumberEmits | src/camogm_mov.c:376-385 | a number written in k digits is put out in half as many bytes and with its value |
| MovReader.PathToTables | src/qt_source:1-158 | moov, trak, mdia, minf, stbl: walking the shipped header, in any layout, leads to its sample tables |
| MovReader.TablesFound | src/qt_source:1-158 | from the bytes of the shipped header, in any layout, a player takes exactly the contents of its three sample tables |
| MovReader.TablesAgree | src/camogm_mov.c:292-309 | what a player reads in stsc, stsz and stco is what the compiler was given, of the offsets the low 32 bits (sections 8.7.3 to 8.7.5 of ISO/IEC 14496-12) |
| MovReader.TopLevelAtoms | src/camogm_mov.c:312-332 | for any layout of the template: the heads of the three atoms of the file, movie, skip over the reserved room and data, are where the length of the one before ends, and the first frame is behind the last head |
| WholeFile.WholeFileWalk | src/camogm_mov.c:312-332 | a walk over the whole file by the lengths of its atoms fails if and only if there are fewer than 8 bytes of data or the last 8 do not begin with the number 8; otherwise it gives the template's tree, the skip atom, the data without its last 8 bytes, and one atom more |
| MovReader.PlayerFindsFrames | src/camogm_mov.c:168-216 | for any layout of the template: a player that walks the atoms at the start of the file finds usable tables with the length of every recorded frame, and they lead to the frame if and only if its chunk begins below 4 GiB |
| MovReader.ChunkBeyond32 | src/camogm_mov.c:303 | two frames of 32-bit length of which the second begins behind 4 GiB |
| IndexList.InsertKeepsSorted | src/index_list.c:72-94 | inserting before the first later time goes behind all equal ones, and the list is sorted afterwards if and only if it was before |
| IndexList.NearestBrackets | src/camogm_read.c:932-950 | the target lies between the nearest entry and its neighbour on that side if and only if the two have different times |
| IndexList.NearestIsUnique | src/index_list.c:171-190 | the rule for ties leaves no choice |
| IndexList.TiesAsCoded | src/index_list.c:171-190 | of two equally near entries the second of the list is taken before the first, but further on the earlier one |
| IndexList.DiskIdir.AddNode | src/index_list.c:50-64 | in place: links, ends and size fit the sequence with the node at its end |
| IndexList.DiskIdir.InsertPrev | src/index_list.c:104-120 | in place: the node goes before its parent |
| IndexList.DiskIdir.InsertNext | src/index_list.c:129-145 | in place: the node goes behind its parent |
| IndexList.DiskIdir.InsertNode | src/index_list.c:72-94 | in place: exactly this node is added, in time order and behind equal times |
| IndexList.DiskIdir.FindByOffset | src/index_list.c:153-164 | the first node with the offset, or none if there is none |
| IndexList.DiskIdir.FindNearestByTime | src/index_list.c:171-190 | a node no other is nearer than, chosen by the rule for ties |
| IndexList.DiskIdir.RemoveNode | src/index_list.c:198-225 | in place: exactly this node is taken out; nothing happens for NULL; the only node of a list leads to the null pointer the code writes through |
| DiskSearch.GetSearchWindow | src/camogm_read.c:869-878 | in place, with 64-bit arithmetic for every range; on disk offsets there is a window exactly for ranges of at least 4 MiB |
| DiskSearch.WindowInNumbers | src/camogm_read.c:869-878 | on disk offsets the window is 2 MiB on either side of the middle, its start down to a multiple of 8192 bytes |
| DiskSearch.WindowWraps | src/camogm_read.c:874-876 | for a range whose ends add up to more than 64 bits the window lies below the range altogether |
| DiskSearch.WindowSplits | src/camogm_read.c:869-878 | the window starts less than a page below the range, ends in it, and what is left on either side is at most half the range, rounded up, less 2 MiB |
| DiskSearch.FewWindows | src/camogm_read.c:954-976 | n windows need a range of about 2 to the n windows: the search is logarithmic |
| DiskSearch.OnlyTheLastHits | src/camogm_read.c:957-974 | a hit is the last file looked at and within 60 s; all others are further off |
| DiskSearch.FilesAreProbed | src/camogm_read.c:954-976 | every file looked at was found in a window of 4 MiB and less than a page, which lies in the range but for less than a page below it |
| DiskContents.FindsLongRecording | src/camogm_read.c:954-976 | the loop, from a range of a disk of files in time order that leaves no search window empty before or between the files: a recording in it that is in time and spans a little less than two windows is always hit |
| DiskContents.SureSpanIsExact | src/camogm_read.c:954-976 | the loop, for every length d: recordings in the range that span at least d are hit on all such disks if and only if d is at least two windows and a page, less 2, less the shortest file |
| DiskContents.LostBehindGap | src/camogm_read.c:972-975 | files that all begin behind an empty first window are never found |
| DiskContents.NoSpanIsSure | src/camogm_read.c:972-975 | behind an empty first window a recording of any span up to nearly half the disk is missed |
| DiskContents.HiddenByNewLap | src/camogm_read.c:957-970 | if all files that begin before the end of the first window are too late, nothing is found, whatever lies behind them |
| DiskContents.OldLapIsMissed | src/camogm_read.c:957-970 | a disk of which forty files are a newer lap: 23 MiB of the older one, in time and without a gap, are missed |
| DiskContents.SearchCanMiss | src/camogm_read.c:972-975 | on a disk with gaps the search can return nothing although its only file begins in the range and is in time |
| DiskSearch.FindDiskIndex | src/camogm_read.c:923-982 | in place: the search starts next to the nearest entry, the list afterwards is the old one with one new node for each file found, inserted one after the other behind all nodes of its time or an earlier one, the result is the node of the hit, within 60 s, and the rounds of the loop that open a window are logarithmically many |
| Requests.RequestKeeps | src/camogm_read.c:923-982 | a request adds files of the disk only and keeps a sorted directory sorted |
| Requests.RequestFindsPart | src/camogm_read.c:932-976 | from any directory of files of the disk: if the part of the recording that begins in the range the directory leaves is long enough, it is found, and what is found is in time and begins in that range, but for less than a page |
| Requests.SearchesBetween | src/camogm_read.c:932-950 | in a directory of different times, whatever is in time, the search goes from the last entry earlier than the target, or the start of the partition, to the first entry that is not, or the end of the partition |
| Requests.RequestFindsBetween | src/camogm_read.c:932-976 | a recording that is long enough between these two places is found |
| Requests.RequestFindsExactly | src/camogm_read.c:923-982 | when nothing in time is known, find_disk_index finds a recording that is long enough if and only if the nearest entry has no neighbour of its own time on the side of the target |
| Requests.FindsAfterRequests | src/camogm_read.c:1114-1131 | the same after any sequence of requests that began with an empty directory and found nothing in time |
| Requests.RequestSpanIsExact | src/camogm_read.c:923-982 | for every length d: find_disk_index finds recordings that span at least d on all such disks from all such directories if and only if d is at least that span |
| Requests.ThirdRequestMisses | src/camogm_read.c:932-950 | on a full disk of 64 files of the wanted time the first two identical requests find a file each and the third finds none |
| Requests.FindFile | src/camogm_read.c:1114-1131 | in place: the find_file command takes the nearest entry of a full index, and without one does what the function Request says to the sparse directory |
| CommandPipe.CommandsAppend | src/camogm.c:1306-1315 | more bytes only add commands behind the complete ones, the first of them beginning with the old rest |
| CommandPipe.CuttingDoesNotMatter | src/camogm.c:1289-1324 | however the same bytes are cut into reads, the same commands are returned and the same bytes left |
| CommandPipe.SplitsLess | src/camogm.c:1311-1316 | taking the last byte of an incomplete command back leaves the commands of the stream without that byte |
| CommandPipe.CommandIsUnique | src/camogm.c:1316-1320 | there is one way only to read the first command off the pending bytes |
| CommandPipe.CommandReader.GetLine | src/camogm.c:1289-1324 | in place: the bytes before the first semicolon or newline, from the first that is neither a space nor a tab, if there is such an end, and a read only if none was pending; the commands returned and pending are those of all bytes read; a read that fails takes the last byte back, or writes in front of an empty buffer |

## Left out

- AlignFrameSplitsStream: excludes partial takes, for which the code loses bytes; the exact condition is PreservedExactlyWithoutPartialTake.
- RunCoupled: grants that no frame is delayed, none is larger than the partition, and writes are complete; what happens otherwise is DelayedFrameStopsRecording, UpdateLbaStaysInside, LastBlockLost, WriteOutcome and FailureIsFinal.
- AlignFrame: asks for idle slots, which FrameSection and EndSection pass on. After a failed write the main loop only counts the error and offers the frame again (src/camogm.c:1657-1660), so that align_frame meets slots nobody reset; how the common buffer then grows is in RetriesGrow and RetriesExceedExactly, on values, where the ALIGN slot keeps its bytes although in place they are overwritten.
- FrameSection: see AlignFrame.
- EndSection: see AlignFrame.
- StoppedSessionIsOnDisk: speaks of the last lap around the ring only; StoppedSessionIsKept and RecentWritesAreKept speak of all laps.
- DataAtomIsShort: states what the code writes, not what section 4.2 of ISO/IEC 14496-12 asks for.
- ShippedHeader: the text of the shipped file is not a literal of the model; it is any well-formed text that writes its items in their order, with blanks, comments and line ends anywhere between them.
- PlayerFindsFrames: grants that the lengths of frames, their number and the size of the header room fit 32 bits, as they do in the code; the length of the data atom is truncated likewise, which the player does not read.
- BuildPacket: is on values; the array of chunks the source refills for each frame is not modelled in place.
- WholeFileWalk: asks for a file below 4 GiB.
- EndShippedMov: takes the frame duration and the time scale as camogm_end_mov has computed them from the frame period; the division of floats there is not part of this model.
- UnknownSpoils: grants that the start of the data is given, as camogm_end_mov does.
- RequestFindsExactly: speaks of directories in which nothing is in time yet; with an entry in time the search looks on one side of it only: RequestFindsPart says what it then finds, and ThirdRequestMisses shows what can come of it. The direction that it misses asks for files of at least a page, because a window can begin that much below the range.
- FindDiskIndex: asks for offsets below 0x7fffffffff000000, so that the sum of two of them does not wrap around; GetSearchWindow does not.
- GetLine: covers bytes other than NUL; a command of more than 1022 bytes fills the buffer and is never returned.
- Sizes, offsets and sector numbers are unbounded; the 64-bit arithmetic of the search window and the two's complement of put-out numbers are written out.
- A failed or short `writev` of the flush is modelled, the state of the slots after it only as the code leaves it.
- Clocks: the time put into the header is the same in both passes.
- The constant-size variant of the sample tables, used when there is no table of lengths, which no caller asks for.
- The reader's other commands: building and sending the full index, reading files by offset, and next_file.
- Device files, `mmap`, `ioctl`, sockets, the creation and destruction of threads, and the debugging read of the writer thread.
- Building the index by scanning the disk, and finding markers in it: `find_in_window` is a function of the window.
- Recording to separate files, the Ogg and KML output, GPS, the Exif device, the state file and its text.
- Frame skipping, time lapse, segment limits, command dispatch and status output: case distinctions without a property of their own.
