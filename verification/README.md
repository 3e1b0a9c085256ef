# A verified model of DeltaCFS

DeltaCFS keeps a client's files in step with a server. It sends either the writes
themselves or a delta computed by a modified librsync. This project models the parts of
that system whose correctness is hard to see, and proves what they are for.

**The delta pipeline** (`librsync-mod/`). Four jobs, signature, load, delta and patch, are
resumable state machines over one `Job` object (`Job.dfy`). Input comes through a scoop and
output leaves through a tube, and a job can block at any byte. Each job carries a ghost
`goal`, fixed when it starts, and every state keeps "what was sent, what is queued, and
what the rest of the input still yields, make up the goal". Two results follow for every
job. `Work.JobWork` and `Drive.RunSchedule` say that the bytes produced do not depend on how
input and output were portioned out. `Drive.JobDrive` says that the file drivers terminate
with exactly that outcome. The goals are plain functions: `SigSpec.SignatureOf`,
`SigSpec.LoadOf`, `DeltaSpec.DeltaOf` and `PatchSpec.PatchOf`, which give an outcome to
every byte string, malformed ones included. Some jobs never end and some are stopped for making
no progress, and `Streams` reads off the bytes which. A load never ends exactly for a file cut
inside a field, and is never stopped (`LoadBlocksIff`, `LoadNeverStops`). A patch never ends
exactly for a delta cut inside its magic number or inside a parameter the job gets to, or with a
copy of no bytes that the job gets to and that is the last there is; with a byte behind such a
copy it is stopped (`PatchBlocksIff`). `Drive.JobIter` shows that the error strikes exactly there,
and `Drive.JobDriveFor` bounds the rounds of every other job. Every list of commands that ends,
with all copies non-empty and inside the basis, is carried out (`PatchOfWellFormed`).

What those functions mean is told without them. `Opcodes` goes through the delta language
opcode by opcode, in bytes: whatever stands before an encoder or behind a decoder, a byte from 1
to 64 announces that many literal bytes, 0x41 to 0x44 a longer literal, 0x45 to 0x54 a copy, and
there are no others. `DeltaShape` reads the commands back from a delta's bytes. No copy is
continued by the next command, two literals stand side by side only if the first fills the output
buffer, and with a safe last block every command is greedy: a byte is literal only where the window
that starts at it is no block of the old file, and a copy begins at a block and copies the same
bytes (`DeltaIsUnsplit`, `DeltaIsGreedy`). A file whose blocks have distinct sums becomes one copy
of its whole length against itself (`DeltaOfItself`).

The round trip is proved about those functions. This fork compares bytes instead of strong
sums, so the question is not one of probability: `Meaning.PatchOfDelta` shows that patching
gives the new file if and only if no accepted hit reaches past the end of the old file, and
that it stops with an error otherwise. When that can happen is settled by block length
and file length alone. A read of a short last block leaves old bytes behind it in the search
buffer, and 230 extra bytes are just enough to leave both halves of the weak sum unchanged.
`Overreach.RoundTripIffSafe` gives the exact condition: the round trip holds for every old file
of a given length, every new file and every content of the buffer if and only if the last
block is complete or lacks fewer than 230 bytes.

The buffer is uninitialised memory, so what it holds may depend on everything that ran before,
the schedule included. With a safe last block that makes no difference:
`RoundTrip.DeltaIgnoresStale` shows that the delta is a function of the signature, the new
file and the size of the output buffer. Otherwise two runs that differ in the buffer only can
write different deltas (`Overreach.DeltaDependsOnStale`), one of which loses the new file. Some
files even fail for every content of the buffer: a block read earlier in the same search leaves
the deceptive bytes behind. `Decoy.DoomedIffBlock` says which unsafe lengths have such files, if
the last block has at least three bytes: exactly those with a complete block.
`Whole.Synchronise` runs all four jobs.

The optional check of the rolling sum fails for sound jobs: it is right for every content
exactly when no literal is queued (`Paranoia.GuardIsExact`), and `Paranoia.CheckFails` runs a
job, for any block length and any output buffer size, into a state where it fails although the
rolling sum is that of the window.

**The client's state** (`client/`). `ChecksumStore` keeps one weak sum per 2 KiB block right
through every sequence of writes and truncates. `WriteLog` and `PackWrite` rebuild the file
before a batch from the logged old bytes. `WriteLog.UndoIffUndoable` gives the exact condition
on offsets and sizes under which that works: the log may hold overlapping writes, or writes
that leave a gap or straddle the end, and then it does not. `EditLog.UndoIffReversible` does
the same for batches that truncate as well: a truncated byte comes back exactly when one
write, and only one, went over it first. `WriteBatch` and `DeltaMessage` serialise a batch and
have the server carry it out, with the exact condition under which the server reads what was
sent. `Client.ShipEdits` follows one batch of writes and truncations to the server's new version:
if a delta is sent, the server patches its own old version with it, and if the writes are sent,
the server reads them as they were meant exactly when no truncation is among them.

`SyncQueue` and `RelationQueue` are the two rings with their indexes. Client calls may come
before every step of a round, as the locks allow, and a round still handles exactly the nodes
that were waiting when it began; a full ring is never drained. Renames and unlinks keep the
relations free of cycles. `ClientQueues` puts both together: every node is packed with the
relations of that moment, which calls and expiries change in between, and following them ends.

`QueueSpec` says what the sync queue is as a list, and each method leaves exactly the list it
should. What those lists hold is then said per node. A call adds one node, its own, behind the
others if it has something to send and there is room, and otherwise none (`CallAdds`); it changes
only the node under its path, and when it packs also those that its path leads to
(`CallChanges`, `PackingIs`). Over whole runs and rounds, behind the nodes that were waiting stand
those of the calls, in order (`CallsBring`, `RoundBrings`). The relations are a list as well:
`AfterRename`, `AfterUnlink` and `AfterExpiry` say what a lookup of any path then finds.
`Packing` says what a packed node is for: sent as it says, it makes the server's new version
the client's file, from the related file's version for a new file and from the node's own base
version for a batch of writes. `ClientQueues.MovedAndMadeAnew` shows when a file moved away and
made anew goes out as such a delta.

**The digest** (`mdfour.c`). `Md5` proves the buffering against RFC 1321, sections 3.1, 3.2, 3.3
and 3.5, and `Md5Block` the 64 unrolled lines of the compression against the steps of section 3.4.
`Md5Vectors` pins that definition: the starting words byte by byte, and the digests of the empty
message and of "abc" that the test suite in appendix A.5 gives.

Code that works in place is modelled in place: `Job`, `Signature`, `Rollsum`, `Store`,
`Queue`, `Context` and `Server` are classes. `Buffers` carries out the moves of the scoop and
the tube on arrays, and `Coupling` shows that arrays and job stay in step. Every such method is
proved against a function of its input and old state.

Where the code and its comments disagree, the model follows the code: a literal is broken up
at the size of the output buffer (delta.c:320), not at the block length; the calls that keep the
checksum store up to date are commented out in the client (deltacfs_client_gearman.c:677-685,
777-779, 842-843), and `ChecksumStore.WatchedFile` follows them as they stand there; the
header comment on the MD5 counters says bits where the code counts bytes; and the optional
check of the rolling sum (delta.c:165-175) compares with the bytes at the scan position, which
are not the window while a literal is still queued.

## Model

| member | source | states |
|---|---|---|
| Checksums.CalcWeakSum | librsync-mod/checksum.c:44-62 | the 4-way unrolled 32-bit loop returns the sum of the offset bytes and their weighted sum, modulo 2^16 each, for every buffer |
| Checksums.Rollsum.Update | librsync-mod/rollsum.c:32-52 | the 16-way unrolled 64-bit loop with its offset correction covers the window extended by the buffer |
| Checksums.Do16 | librsync-mod/rollsum.c:25-30 | sixteen unrolled steps add the raw sums of sixteen bytes with their weights |
| Checksums.Rollsum.constructor | librsync-mod/rollsum.h:47-49 | a fresh sum covers the empty window |
| Checksums.Rollsum.Init | librsync-mod/rollsum.h:47-49 | after a reset the sum covers the empty window |
| Checksums.Rollsum.Rotate | librsync-mod/rollsum.h:51-54 | the sum of a window becomes that of the window one byte on, as if computed from scratch |
| Checksums.Rollsum.Rollin | librsync-mod/rollsum.h:56-60 | the sum covers the window with a byte appended |
| Checksums.Rollsum.Rollout | librsync-mod/rollsum.h:62-66 | the sum covers the window without its first byte |
| Checksums.Rollsum.DigestIsWeakSum | librsync-mod/rollsum.h:68 | truncated to 32 bits, the digest of a rolling sum is the weak sum that signatures store for the same bytes |
| Checksums.SumsOfConcat | librsync-mod/rollsum.h:51-66 | how the two sums of a concatenation arise from those of its parts |
| Checksums.ZeroBlockSum | client/syncchecksum.c:9 | the constant for a block of zeros is that block's weak sum |
| NetInt.BigEndian | librsync-mod/netint.c:88-109 | the loop writes the low bytes of the value in network order |
| NetInt.FromBigEndian | librsync-mod/netint.c:121-143 | the loop reads a network-order number as a signed 64-bit value |
| NetInt.IntLenIsLeast | librsync-mod/netint.c:171-184 | the chosen length is the least of 1, 2, 4, 8 that holds the value, which is read back |
| NetInt.IntFits | librsync-mod/netint.c:121-143 | a non-negative long survives being sent in its chosen length |
| NetInt.SignedTransport | librsync-mod/netint.c:113-117 | a 32-bit word passed as a signed int is sent with its own bytes |
| Commands.DecodeOfEncodeHead | librsync-mod/prototab.c:18-274 | opcode and parameters of every command are decoded to the command that was encoded |
| Commands.ParseOfEncodeAll | librsync-mod/emit.c:64-156 | parsing the bytes of any sequence of commands gives back the sequence |
| Opcodes.FourBytes | librsync-mod/netint.c:88-143 | a four-byte word is sent, and read, most significant byte first |
| Opcodes.MagicBytes | librsync-mod/protocol.h:44-45 | the bytes that open a delta are 72 73 02 36, and those that open a signature 72 73 01 36 |
| Opcodes.WrongMagicIff | librsync-mod/patch.c:262-285 | a delta is refused as such exactly when it does not begin with its four bytes; otherwise the rest is decoded |
| Opcodes.OpcodeEnd | librsync-mod/prototab.c:19 | byte 0 ends the delta with success, whatever follows |
| Opcodes.OpcodeShortLiteral | librsync-mod/prototab.c:20-83 | a byte from 1 to 64 and that many bytes are one literal: they are written, and what follows is carried out |
| Opcodes.ShortLiteralDelta | librsync-mod/prototab.c:20-83 | magic, a length from 1 to 64, that many bytes and 0 give those bytes and success, for every basis |
| Opcodes.OpcodeLiteral | librsync-mod/prototab.c:84-87 | 0x41 to 0x44, a length in 1, 2, 4 or 8 bytes and that many bytes are one literal |
| Opcodes.OpcodeLongLiteral | librsync-mod/prototab.c:87 | 0x44 reads eight bytes: a length with the top bit set is corrupt, and others are narrowed to 32 bits, below zero aborted, and else so many bytes are written |
| Opcodes.OpcodeCopy | librsync-mod/prototab.c:88-103 | 0x45 to 0x54, an offset and a length, each in 1, 2, 4 or 8 bytes, copy that part of the basis, or run out of it |
| Opcodes.OpcodeReserved | librsync-mod/prototab.c:104-274 | every byte from 0x55 on is corrupt |
| Opcodes.HeaderDecides | librsync-mod/readsums.c:127-191 | the three words of a signature file decide in this order: a wrong magic number, a bad block length or strong length, or loading goes on |
| Jobs.Job.CatchupWrite | librsync-mod/tube.c:74-108 | a prefix of the write buffer moves to the output, as much as fits, and the rest stays in order |
| Jobs.Job.CopyFromScoop | librsync-mod/tube.c:116-143 | moving queued bytes from the scoop leaves "sent and queued" and the input beyond unchanged |
| Jobs.Job.BuffersCopy | librsync-mod/stream.c:112-144 | the first bytes of the input, as many as both sides allow, are appended to the output |
| Jobs.Job.CatchupCopy | librsync-mod/tube.c:154-176 | sending a queued copy loses and reorders nothing, and never touches the raw input while the literal lies in the scoop |
| Jobs.Job.Catchup | librsync-mod/tube.c:184-209 | catching up never changes "sent and queued"; each of its results is characterised by the state it leaves, for negative lengths too |
| Jobs.Job.TubeCopy | librsync-mod/tube.c:235-240 | the queued length is the argument narrowed to an int |
| Jobs.Job.TubeWrite | librsync-mod/tube.c:252-264 | data is appended to the write buffer, whose 20 bytes the caller must not exceed |
| Jobs.Job.ScoopInput | librsync-mod/scoop.c:79-118 | scoop and input together keep their bytes, and the scoop holds as many as asked for or available |
| Jobs.Job.ScoopAdvance | librsync-mod/scoop.c:130-149 | exactly the given number of bytes is consumed, from the scoop or from the input, never from both |
| Jobs.Job.ScoopReadahead | librsync-mod/scoop.c:166-216 | success exactly when enough bytes have arrived, and then with the next bytes of the input; nothing is lost otherwise |
| Jobs.Job.ScoopRead | librsync-mod/scoop.c:230-239 | the next bytes are taken, or everything stays in place |
| Jobs.Job.ScoopReadRest | librsync-mod/scoop.c:247-254 | all bytes that have arrived are taken |
| Jobs.Job.SquirtNetint | librsync-mod/netint.c:88-109 | the encoded integer is appended to the tube |
| Jobs.Job.SquirtN4 | librsync-mod/netint.c:113-117 | four bytes of a 32-bit word are appended to the tube |
| Jobs.Job.SuckNetint | librsync-mod/netint.c:121-143 | an integer is read from the next bytes, or nothing is consumed |
| Jobs.Job.SuckByte | librsync-mod/netint.c:146-156 | the next byte becomes the opcode, or nothing is consumed |
| Jobs.Job.SuckN4 | librsync-mod/netint.c:159-168 | four bytes are read as a signed int, or nothing is consumed |
| Buffers.Move | librsync-mod/scoop.c:90-103 | copying between arrays, or towards the front of one, moves exactly the named bytes |
| Buffers.Memory.Gather | librsync-mod/scoop.c:86-104 | growing the buffer or moving its data to the front keeps the scooped bytes and makes room |
| Buffers.Memory.ScoopInput | librsync-mod/scoop.c:79-118 | on arrays, the scoop gains the first input bytes, and its allocation is never exceeded |
| Buffers.Memory.ScoopAdvance | librsync-mod/scoop.c:130-149 | moving the cursors drops the first bytes of scoop or input |
| Buffers.Memory.TubeWrite | librsync-mod/tube.c:252-264 | the fixed 20-byte array holds the queued bytes followed by the new ones |
| Buffers.Memory.CatchupWrite | librsync-mod/tube.c:74-108 | on arrays, a prefix of the write buffer is stored and the rest moved to the front |
| Buffers.Memory.CopyFromScoop | librsync-mod/tube.c:116-143 | on arrays, the first bytes of the scoop are stored in the output buffer |
| Buffers.Memory.BuffersCopy | librsync-mod/stream.c:112-144 | on arrays, the first bytes of the input are stored in the output buffer |
| Buffers.Memory.ScoopReadahead | librsync-mod/scoop.c:166-216 | on arrays, looking ahead gives the result, the bytes, the scoop and the input that the function of the byte strings gives |
| Coupling.LookAheadBoth | librsync-mod/scoop.c:166-216 | strings and arrays answer the same look ahead with the same result and the same bytes |
| Coupling.Run | librsync-mod/scoop.c:79-216 | whatever buffer routines and file drivers are called, in whatever order, the arrays hold what the job's byte strings say, and everything delivered is the job's output |
| MkSum.RunHeader | librsync-mod/mksum.c:65-76 | after the header state the signature still to be produced is the goal's remainder |
| MkSum.DoBlock | librsync-mod/mksum.c:83-107 | a block puts its weak sum and strong-sum bytes into the empty tube, 20 bytes at most |
| MkSum.RunGenerate | librsync-mod/mksum.c:113-138 | each step advances by one block, the last one short, and ends only with the whole signature sent |
| SigSpec.SignatureRoundTrip | librsync-mod/readsums.c:54-191 | loading a written signature gives its block length, strong length and block entries, and succeeds |
| SigSpec.EntriesOf | librsync-mod/mksum.c:113-138 | there is one entry per block, the length divided by the block length and rounded up |
| SigSpec.EntryAt | librsync-mod/readsums.c:54-86 | entry i has number i + 1 and the weak sum of the i-th block |
| SigSpec.SignatureAt | librsync-mod/mksum.c:65-107 | behind twelve bytes every block has the same room, with the four bytes of its weak sum first and its strong-sum bytes next |
| ReadSums.RunMagic | librsync-mod/readsums.c:174-191 | a wrong magic number ends the job as the specification says, for every input |
| ReadSums.RunBlockLen | librsync-mod/readsums.c:153-171 | a block length below one is corrupt; otherwise what remains to be loaded is unchanged |
| ReadSums.RunStrongLen | librsync-mod/readsums.c:127-150 | a strong length outside 0 to 16 is corrupt; otherwise what remains to be loaded is unchanged |
| ReadSums.RunWeak | librsync-mod/readsums.c:89-107 | the only state in which the input may end well, and then all promised entries are there |
| ReadSums.AddSum | librsync-mod/readsums.c:54-86 | one entry, numbered from one, is appended |
| ReadSums.RunStrong | librsync-mod/readsums.c:111-123 | with the strong sum read, the entries so far and those still to come are the promised ones |
| Search.BuildHashTable | librsync-mod/search.c:67-103 | the index lists every block under its tag in tag order, and each table entry is the first target of its tag |
| Search.FillTable | librsync-mod/search.c:94-99 | the descending loop leaves, for each tag, the first target that has it, or none |
| Search.QSort | librsync-mod/search.c:89-91 | only a tag-sorted permutation is relied on |
| Search.SearchForBlock | librsync-mod/search.c:116-202 | the loop with its reads from the old file finds what the reference search finds |
| Search.ProbeSound | librsync-mod/search.c:138-176 | a hit names a block with the wanted sum whose bytes agree with the window as far as the file goes |
| Search.ProbeComplete | librsync-mod/search.c:122-201 | a block with equal sum and bytes is reached, whatever stands before it under the same tag |
| Search.FindAgreesWithScan | librsync-mod/search.c:116-202 | for any order of equal tags and any buffer content, every matching block is found and what is found agrees with the file |
| Search.HitIffMatch | librsync-mod/search.c:116-202 | when the file is a whole number of blocks there is a hit exactly when some block matches, for any signature entries |
| Search.IndexExists | librsync-mod/search.c:67-103 | for every list of blocks there is an index |
| Search.StrongSumsIgnored | librsync-mod/search.c:138-176 | the outcome does not depend on the strong sums |
| Delta.EmitDeltaHeader | librsync-mod/emit.c:54-59 | the magic number is queued |
| Delta.EmitLiteralCmd | librsync-mod/emit.c:64-91 | the literal's opcode and length are queued |
| Delta.EmitCopyCmd | librsync-mod/emit.c:98-145 | the copy's opcode and both parameters are queued, at most 17 bytes |
| Delta.EmitEndCmd | librsync-mod/emit.c:149-156 | the end opcode is queued |
| Delta.GetInput | librsync-mod/delta.c:237-244 | all input is in the scoop, and nothing else has changed |
| Delta.FindMatch | librsync-mod/delta.c:257-278 | the rolling sum is that of the window, and the search result is the reference one |
| Delta.MissInScan | librsync-mod/delta.c:160-164 | after a miss the rolling sum is that of the window one byte on, and the total delta is unchanged, blocked or not |
| Delta.ParanoiaCheck | librsync-mod/delta.c:165-175 | the comparison with a sum from scratch always agrees when no literal is queued, also while a command's head is; otherwise it is with other bytes |
| Paranoia.GuardIsExact | librsync-mod/delta.c:165-175 | the bytes the check reads have the window's sum for every content of the scoop if and only if no literal byte is queued |
| Paranoia.CheckFails | librsync-mod/delta.c:165-175 | for every block length and every output buffer size, a run from the start of a job to a state in which the check fails although the rolling sum is that of the window |
| Delta.MissInFlush | librsync-mod/delta.c:211-216 | likewise for the shrinking window at the end of the file |
| Delta.AppendMatch | librsync-mod/delta.c:284-306 | what is sent, queued, pending and still to come adds up to the same delta, blocked or not; that a continued match is one copy is `DeltaShape.DeltaIsUnsplit` |
| Delta.AppendMiss | librsync-mod/delta.c:315-326 | likewise for one unmatched byte, with a flush after a match or a full literal |
| Delta.AppendFlush | librsync-mod/delta.c:332-350 | the pending item is queued with its command, and nothing else is lost |
| Delta.ProcessMatch | librsync-mod/delta.c:363-369 | matched bytes leave the scoop without being sent |
| Delta.ProcessMiss | librsync-mod/delta.c:385-390 | the literal is queued in front of what is scanned next |
| Delta.RunScan | librsync-mod/delta.c:140-190 | the scan keeps the total delta constant and moves on only at the end of input |
| Delta.RunFlush | librsync-mod/delta.c:193-227 | the remaining bytes are scanned with shrinking windows, keeping the total delta |
| Delta.RunEnd | librsync-mod/delta.c:230-234 | with the end command queued, everything of the delta is sent or queued |
| Delta.RunHeader | librsync-mod/delta.c:422-439 | with the header queued, the rest of the delta is still to come |
| DeltaSpec.ScanIsSensible | librsync-mod/delta.c:284-390 | no copy has length zero, literals fit the output buffer, and only the last command ends the delta |
| DeltaSpec.DeltaIgnoresStrongSums | librsync-mod/mksum.c:83-107 | signatures that differ in strong sums only give the same delta |
| DeltaSpec.DeltaIsShort | librsync-mod/delta.c:284-390 | a delta has at most 18 bytes for each byte of the new file, and 5 more |
| DeltaShape.CommandsOfDelta | librsync-mod/delta.c:140-276 | the commands read back from the bytes of a delta end once, at its end, with no byte left over |
| DeltaShape.DeltaIsUnsplit | librsync-mod/delta.c:284-326 | in the bytes of every delta, no copy is continued by the next command, and a literal is followed by a literal only if it has the size of the output buffer |
| DeltaShape.MissedIsNoBlock | librsync-mod/delta.c:257-276 | where the search finds nothing, no block of the old file has the bytes of the window |
| DeltaShape.DeltaIsGreedy | librsync-mod/delta.c:140-276 | with a safe last block, every command read back is greedy at its position: a literal byte only where the window is no block, a copy only of the same bytes, beginning at a block; the end comes at the end of the file |
| DeltaShape.DeltaOfItself | librsync-mod/delta.c:284-306 | a file whose blocks have distinct sums gives one copy of its whole length against its own signature, or no command but the end if it is empty |
| PatchSpec.DecodeByOpcode | librsync-mod/patch.c:62-115 | reading the opcode first and the parameters later comes to the same outcome |
| Patch.RunHeader | librsync-mod/patch.c:262-283 | the outcome ahead stays the goal's remainder, or the wrong magic number is reported |
| Patch.RunCmdByte | librsync-mod/patch.c:62-83 | reading an opcode keeps the outcome ahead |
| Patch.RunParams | librsync-mod/patch.c:90-115 | reading the parameters keeps the outcome ahead, or nothing is consumed |
| Patch.RunRun | librsync-mod/patch.c:122-143 | every kind of command leads to the state that carries it out, or to the error the specification gives |
| Patch.RunLiteral | librsync-mod/patch.c:149-168 | the literal is queued, or a negative length is corrupt |
| Patch.RunCopy | librsync-mod/patch.c:172-203 | negative parameters are corrupt, otherwise the copy begins |
| Patch.RunCopying | librsync-mod/patch.c:210-256 | each fetch, however short, keeps the outcome ahead; past the end of the basis the input is ended |
| Patch.FileCopyCb | librsync-mod/buf.c:204-225 | any positive number of the wanted bytes, as long as the basis has some |
| Patch.CopyInParts | librsync-mod/patch.c:210-256 | a copy fetched in pieces comes to the same as in one |
| Streams.DecodeIsPerform | librsync-mod/patch.c:62-256 | decoding any byte string is carrying out the commands that can be read from it, and then decoding the bytes behind them, which cannot be read unless an end came first |
| Streams.PerformBlocksIff | librsync-mod/patch.c:210-256 | a list of commands never ends exactly when a copy of no bytes is reached as the last of everything, or all commands pass and what follows them never ends; it is stopped exactly when a copy of no bytes is reached with something behind it, or all pass and what follows is stopped |
| Streams.PatchBlocksIff | librsync-mod/patch.c:62-283 | the patch job never ends exactly for a delta cut inside its magic number or inside a parameter the job gets to, or with a copy of no bytes that it gets to at the very end; it is stopped exactly for a delta with a copy of no bytes that it gets to and at least one byte behind it |
| Streams.PerformWellFormed | librsync-mod/patch.c:122-256 | carrying out a well-formed list of commands gives the contents of all of them |
| Streams.PatchOfWellFormed | librsync-mod/patch.c:62-283 | every delta whose commands end, with all copies non-empty and inside the basis, is done and gives the contents of its commands |
| Streams.EmptyCopyFate | librsync-mod/patch.c:210-256 | a copy of no bytes behind any commands that pass: with nothing behind it the job never ends, with anything behind it the job is stopped for making no progress |
| Streams.CutCopyHangs | librsync-mod/patch.c:90-115 | a delta cut between the two parameters of a copy never ends |
| Streams.SumsBlockIff | librsync-mod/readsums.c:89-123 | the entries of a signature are never finished exactly when their bytes are neither whole entries nor lack just the last strong sum |
| Streams.LoadBlocksIff | librsync-mod/readsums.c:89-191 | the load never ends exactly for a file cut inside a field the loader gets to |
| Streams.LoadNeverStops | librsync-mod/readsums.c:54-191 | no load is stopped for making no progress |
| Work.CatchUp | librsync-mod/job.c:175-179 | catching up keeps any job's invariant, or ends it with its goal |
| Work.RunState | librsync-mod/job.c:187-193 | every state of every job keeps its invariant, makes progress when it asks to go on, and ends only with the goal |
| Work.JobComplete | librsync-mod/job.c:105-124 | a job is done only when its queued output is out |
| Work.JobWork | librsync-mod/job.c:161-195 | the loop terminates, and stops blocked with the invariant, or with exactly the goal; at a copy of no bytes it moves nothing, and it does not get there without consuming or producing something |
| Drive.JobIter | librsync-mod/job.c:137-158 | the "no progress" error strikes if and only if the job stood at a copy of no bytes, with input and with room for output, and then it is what the goal says |
| Drive.RunSchedule | librsync-mod/job.c:137-195 | whatever chunks of input and room for output the caller offers, a job that ends, be it by being stopped, has produced its goal |
| Drive.InfilebufFill | librsync-mod/buf.c:100-151 | the job gets the next bytes of the file or learns that it has ended, and its invariant holds |
| Drive.OutfilebufDrain | librsync-mod/buf.c:159-198 | all output so far is in the file and the buffer is empty |
| Drive.Round | librsync-mod/job.c:232-250 | a round without result brings any job that can finish nearer to its end, by a count of bytes and flags, and nothing but the beginning of the goal's output is ever written |
| Drive.JobDrive | librsync-mod/job.c:226-253 | the driver terminates for every job that can finish or is stopped, with its result, and the output file is the goal's output, or its beginning after an error |
| Drive.JobDriveFor | librsync-mod/job.c:226-253 | for any job and any number of rounds, a result is the goal's; a job that cannot finish runs for ever, and any other has its result after a number of rounds that depends on the input and output left |
| Meaning.LiteralMeans | librsync-mod/patch.c:149-168 | a literal decodes to its bytes followed by the rest |
| Meaning.CopyMeans | librsync-mod/patch.c:172-256 | a copy command decodes to the copy with the same parameters |
| Meaning.DecodeOfCommands | librsync-mod/patch.c:62-256 | decoding the bytes of any list of commands comes to carrying out the list in one go, for lists that fail or hang as well |
| Meaning.ScanMeans | librsync-mod/delta.c:140-390 | at every moment the rest of the delta denotes the pending item followed by the unscanned bytes, or an error |
| Meaning.OverreachIsFatal | librsync-mod/patch.c:210-256 | a match past the end of the old file can only grow, and always ends the patch job with an error |
| Meaning.PatchOfDelta | librsync-mod/delta.c:140-390 | patching with the delta gives the new file if and only if no accepted hit overreaches, and fails cleanly otherwise |
| RoundTrip.LoadedIsOk | librsync-mod/search.c:67-103 | a loaded and indexed signature meets what the delta job demands, with the right sum for every block |
| RoundTrip.RulesAreFaithful | librsync-mod/search.c:148-176 | whatever is in the search buffer, a hit agrees with the old file |
| RoundTrip.ExtensionShows | librsync-mod/search.c:138-176 | fewer than 230 extra bytes always change the weak sum |
| RoundTrip.HitsStayInside | librsync-mod/search.c:148-162 | with a safe last block no hit reaches past the end of the old file |
| RoundTrip.HitIffMatchWhenSafe | librsync-mod/search.c:116-202 | with a safe last block there is a hit exactly when some block has the window's sum and bytes, whatever the buffer holds |
| RoundTrip.FindIgnoresStale | librsync-mod/search.c:116-202 | with a safe last block the search finds the same whatever the buffer holds |
| RoundTrip.DeltaIgnoresStale | librsync-mod/delta.c:140-390 | with a safe last block the delta is a function of signature, new file and output buffer size, whatever the buffer holds at each search |
| RoundTrip.RoundTripWhenSafe | librsync-mod/search.c:116-202 | with a safe last block the round trip holds for every new file and every buffer content |
| Overreach.ExtraIsInvisible | librsync-mod/search.c:138-147 | behind a short block of any length there are 230 bytes that leave its weak sum unchanged |
| Overreach.FindOverreaches | librsync-mod/search.c:148-162 | the search accepts a hit longer than the short block exactly when the extra bytes are left over in the buffer, and finds nothing otherwise |
| Overreach.RoundTripFailsWhenUnsafe | librsync-mod/search.c:148-162 | for every length that is not safe there are files for which the patch job ends with an error |
| Overreach.RoundTripOtherwise | librsync-mod/search.c:148-162 | without the extra bytes in the buffer the same files come through |
| Overreach.DeltaDependsOnStale | librsync-mod/search.c:148-162 | for every length that is not safe there are files and two contents of the buffer that lead to two different deltas |
| Overreach.RoundTripIffSafe | librsync-mod/search.c:116-202 | the round trip holds for every old file of a length, every new file and every content of the buffer if and only if that length is safe |
| Decoy.OneFits | librsync-mod/rollsum.h:51-60 | padding of any length from 230 on can be adjusted to go unnoticed behind one of two plain sums |
| Decoy.PaddingIsInvisible | librsync-mod/search.c:138-147 | adjusted padding leaves the weak sum as it was |
| Decoy.NoGuise | librsync-mod/checksum.c:44-62 | one or two bytes are determined by their weak sum and number |
| Decoy.SameWeakSums | librsync-mod/search.c:138-147 | decoy block, short block and new file have one weak sum |
| Decoy.DecoyHit | librsync-mod/search.c:122-180 | whatever the buffer holds, the search reads a decoy, and then accepts the short block for a whole window, if a decoy is listed first |
| Decoy.DecoyAlwaysFails | librsync-mod/search.c:122-180 | for every block length, every number of decoys and every unsafe last block of at least three bytes, the patch ends with an error for every content of the buffer |
| Decoy.DecoyExists | librsync-mod/search.c:67-103 | with at least one decoy there is such an index |
| Decoy.TelltaleNeverOverreaches | librsync-mod/search.c:122-180 | without a complete block, some content of the buffer at each search keeps every hit inside the old file |
| Decoy.DoomedIffBlock | librsync-mod/search.c:122-201 | for every unsafe length whose last block has at least three bytes: there are files of that length that fail for every content of the buffer if and only if the length has a complete block |
| Whole.SigBySchedule | librsync-mod/mksum.c:65-156 | a finished signature job has written the signature of the file, whatever the schedule |
| Whole.LoadBySchedule | librsync-mod/readsums.c:54-220 | a finished load has the specified result and entries, whatever the schedule |
| Whole.DeltaBySchedule | librsync-mod/delta.c:140-468 | no schedule makes a delta job fail; a finished one has written the delta for what the buffer held at each search, and with a safe last block that is the one reference delta, whatever the schedule and the buffer |
| Whole.PatchBySchedule | librsync-mod/patch.c:62-325 | a finished patch job has the specified output and result, whatever the schedule, and no schedule stops it for making no progress unless the delta has a byte behind a copy of no bytes that it gets to |
| Whole.SigBegin | librsync-mod/mksum.c:145-156 | a new signature job's goal is the signature of its input |
| Whole.LoadSigBegin | librsync-mod/readsums.c:204-220 | a new load's goal is what loading its input yields |
| Whole.DeltaBegin | librsync-mod/delta.c:445-468 | a new delta job's goal is the delta of its input |
| Whole.PatchBegin | librsync-mod/patch.c:312-325 | a new patch job's goal is the outcome of decoding its input |
| Whole.WholeRun | librsync-mod/whole.c:67-91 | a job that can finish, run between two files, ends with its goal |
| Whole.WholeRunFor | librsync-mod/whole.c:67-91 | any job run between two files: a result is its goal's, one that cannot finish never has one, and any other has one after twice the input plus the output plus 5 rounds |
| Whole.SigFile | librsync-mod/whole.c:105-119 | the signature file is the signature of the old file |
| Whole.LoadSigFile | librsync-mod/whole.c:128-141 | a signature file that is not cut inside a field is loaded as what it denotes, or its error is returned |
| Whole.LoadSigFileFor | librsync-mod/whole.c:128-141 | loading any file, watched for some rounds: still running for ever exactly when the file is cut inside a field, never stopped for making no progress, and otherwise the specified result within a bounded number of rounds |
| Whole.DeltaFile | librsync-mod/whole.c:145-162 | the delta file is the reference delta |
| Whole.PatchFile | librsync-mod/whole.c:166-182 | any delta that does not hang gives the new file it denotes, or its error, with the beginning of the output written; the error is that of no progress exactly when the delta has a byte behind a copy of no bytes it gets to |
| Whole.PatchFileFor | librsync-mod/whole.c:166-182 | patching with any delta, watched for some rounds: still running for ever exactly when the delta hangs, stopped for no progress exactly when it stops, and otherwise the specified result within a bounded number of rounds |
| Whole.PatchCommands | librsync-mod/whole.c:166-182 | every well-formed list of commands, as a file, is patched to the end and gives its contents |
| Whole.ComputeDelta | client/syncdelta.c:16-101 | signature, load, index and delta in a row give the delta of the new file against a loaded signature of the old one; with a safe last block, patching the old file with it gives the new one |
| Whole.Synchronise | client/syncdelta.c:15-101 | signature, load, index, delta and patch in a row give the new file if and only if no hit overreaches, and always when the last block is safe |
| Whole.SynchroniseUnsafe | librsync-mod/search.c:148-162 | run on the files that defeat it, the same sequence of jobs ends with an error, for every block length and every unsafe length |
| Files.Pwrite | client/deltacfs_client_gearman.c:839 | the written bytes are in place, a gap reads as zeros, and all other bytes are as before |
| Files.WordRoundTrip | server/deltacfs_server_gearman.cpp:198-199 | a 2-, 4- or 8-byte word is read back from its little-endian bytes |
| Files.FourLe | server/deltacfs_server_gearman.cpp:198-199 | a four-byte word of a message is written, and read, least significant byte first |
| ChecksumStore.KeysDiffer | client/syncchecksum.c:36-64 | no two blocks share a key, whatever their paths |
| ChecksumStore.KeysAreNoPaths | client/synctimestamp.c:5-21 | below 32 GiB no block key is the key of a file's timestamp |
| ChecksumStore.Store.Refresh | client/syncchecksum.c:74-87 | laying the written bytes over the block that was read gives the block's own sum |
| ChecksumStore.Store.UpdateWhole | client/syncchecksum.c:102-116 | whole blocks taken from the buffer get the sums of the file's blocks |
| ChecksumStore.Store.Update | client/syncchecksum.c:32-134 | every touched block has the sum of its present content, and no other key changes |
| ChecksumStore.Store.Enlarge | client/syncchecksum.c:136-159 | the blocks behind the old end get the sum of a zero block, and no other key changes |
| ChecksumStore.Store.Shrink | client/syncchecksum.c:161-194 | the last remaining block gets the sum of its zero-padded rest, and no other key changes |
| ChecksumStore.Store.Check | client/syncchecksum.c:196-318 | the verdict is the first that is not acceptance among the touched blocks, missing sums included |
| ChecksumStore.AcceptedIffRight | client/syncchecksum.c:196-318 | acceptance means exactly that every touched block has its right sum |
| ChecksumStore.VerdictOfFirst | client/syncchecksum.c:196-318 | otherwise the verdict is about the first touched block that is not right: `Rejected` if it has a stored sum, `NoSum` if it has none |
| ChecksumStore.WriteHolds | client/syncchecksum.c:32-134 | after a write, also past the end, every block within the file has its right sum |
| ChecksumStore.EnlargeHolds | client/syncchecksum.c:136-159 | after enlarging, the sums are right up to the new size |
| ChecksumStore.ShrinkHolds | client/syncchecksum.c:161-194 | after shrinking, every block of the shorter file has its right sum |
| ChecksumStore.OtherFilesHold | client/syncchecksum.c:32-194 | the sums of other files in the same store stay right |
| ChecksumStore.WatchedFile.Write | client/deltacfs_client_gearman.c:764-848 | one write keeps all sums right and writes the bytes |
| ChecksumStore.WatchedFile.Truncate | client/deltacfs_client_gearman.c:677-691 | one truncate keeps all sums right and resizes the file |
| ChecksumStore.WatchedFile.Read | client/deltacfs_client_gearman.c:739-762 | every non-empty read within the file is accepted |
| ChecksumStore.WatchedFile.Run | client/syncchecksum.c:32-194 | any sequence of writes and truncates keeps all sums right |
| WriteLog.OldBytes | client/deltacfs_client_gearman.c:796-798 | the saved bytes are the file's, and past its end whatever the heap held |
| WriteLog.LengthOfUndo | client/syncqueue.c:331-374 | the rebuilt file has the old length exactly when all writes stay inside, or one starts at the old end before any other extends it |
| WriteLog.UndoRestores | client/syncqueue.c:366-374 | an undoable batch is undone, whatever was written and whatever the heap held |
| WriteLog.OverlapIsFatal | client/syncqueue.c:368-372 | a byte written twice defeats the log for some data, whatever the file |
| WriteLog.UndoIffUndoable | client/syncqueue.c:331-374 | for every file and every list of offsets and sizes, the log restores the file whatever is written if and only if the list is undoable |
| EditLog.LengthUndone | client/syncqueue.c:324-374 | with truncations too, the rebuilt file has the old length exactly when the first append is at the old end, or there is none and neither the last length nor a write differs from it |
| EditLog.UndoneIfReversible | client/syncqueue.c:324-374 | a reversible batch of writes and truncations is undone, whatever was written and whatever the heap held |
| EditLog.LostByteIsFatal | client/syncqueue.c:324-374 | a byte first touched by a truncation, or written twice, defeats the log for some file and some data |
| EditLog.UndoIffReversible | client/syncqueue.c:324-374 | for every length and every list of writes and truncations, the log restores every file of that length, whatever is written, if and only if the list is reversible |
| EditLog.ReversibleWrites | client/syncqueue.c:324-374 | for batches without truncations the two conditions are the same |
| PackWrite.PendingFile.Write | client/deltacfs_client_gearman.c:783-808 | a write is logged with the bytes it replaces and carried out |
| PackWrite.PendingFile.Truncate | client/deltacfs_client_gearman.c:646-660 | a truncation leaves only a marker in the log |
| PackWrite.PendingFile.WriteAll | client/deltacfs_client_gearman.c:764-848 | a batch of writes leaves the file and the log that the writes define |
| PackWrite.PendingFile.EditAll | client/deltacfs_client_gearman.c:634-691 | a batch of writes and truncations leaves the file and the log that they define |
| PackWrite.PendingFile.Scan | client/syncqueue.c:331-347 | the loop finds the least offset of an append |
| PackWrite.PendingFile.Counters | client/syncqueue.c:324-347 | the loop counts writes, appends and written bytes, the last in an int |
| PackWrite.PendingFile.Pack | client/syncqueue.c:307-399 | the writes are sent exactly when they pay; otherwise the base of the delta is the undone file |
| PackWrite.WhenWritesPay | client/syncqueue.c:307-358 | a batch goes out as writes exactly when more than half of its writes start at the file's end or behind it, or their total, as a signed 32-bit word, is less than half of the final length |
| PackWrite.PackBatch | client/syncqueue.c:307-399 | for an undoable batch the base of the delta is the file as it was |
| PackWrite.PackEdits | client/syncqueue.c:307-399 | for a reversible batch of writes and truncations the base of the delta is the file as it was |
| WriteBatch.SendWrite | client/syncsend.c:168-214 | the buffer is exactly filled with the message |
| WriteBatch.LogRoom | client/syncsend.c:176-187 | the computed size is that of the serialised log |
| WriteBatch.PutEntry | client/syncsend.c:201-211 | one entry is appended, without bytes when it marks a truncation |
| WriteBatch.EntryLayout | client/syncsend.c:200-211 | a write is sent as its offset, its size and its bytes, a truncation as two words; both words least significant byte first |
| WriteBatch.ReplayLog | server/deltacfs_server_gearman.cpp:195-202 | the loop applies exactly the writes in the message, or runs past its end |
| WriteBatch.Server.FuncWrite | server/deltacfs_server_gearman.cpp:161-209 | for every message, the new version is the old one with the parsed writes applied, or the failure is named, the failed assertion on version zero before any later overrun |
| WriteBatch.ParseOfLogBytes | server/deltacfs_server_gearman.cpp:195-202 | without truncation markers the server finds exactly the writes of the log |
| WriteBatch.ParsesBackIff | server/deltacfs_server_gearman.cpp:195-202 | the server finds the entries of the log if and only if no truncation to a non-zero size is among them |
| WriteBatch.HeadRoundTrip | server/deltacfs_server_gearman.cpp:166-184 | versions and name length are read back, and the log begins where it should |
| WriteBatch.SameWrites | client/syncsend.c:168-214 | replaying the logged writes gives the file after the writes |
| WriteBatch.DeliverWrites | server/deltacfs_server_gearman.cpp:161-209 | a batch serialised, parsed and replayed gives the server the client's file |
| DeltaMessage.SendDeltaFile | client/syncsend.c:226-274 | the buffer is exactly filled with the message |
| DeltaMessage.DeltaHeadRoundTrip | server/deltacfs_server_gearman.cpp:221-231 | versions, name length and delta length are read back, and the delta begins where it should |
| DeltaMessage.ParseDeltaBytes | server/deltacfs_server_gearman.cpp:221-236 | the server finds the base version, the new version and the delta that were sent |
| DeltaMessage.FuncDelta | server/deltacfs_server_gearman.cpp:215-267 | for every message, the new version is what patching the server's own base version gives, or the failure is named, with the beginning of the output written; it goes on for ever exactly when the delta hangs, and no other version changes |
| Client.DeliverDelta | client/syncqueue.c:355-399 | a delta computed against a file that the server holds, sent, and patched there into that version, gives the client's file as the new version and changes no other; a message too long for its 32-bit size is not sent |
| Client.LogOfEditsFits | client/deltacfs_client_gearman.c:646-660 | the log of a batch can be sent, and holds a non-empty marker exactly when the batch truncates |
| Client.DeliverLog | client/syncsend.c:168-214 | sent as writes, a batch gives the server the client's file if it holds no truncation, and is misread if it holds one |
| Client.ShipEdits | client/syncqueue.c:307-399 | a reversible batch of writes and truncations gives the server the client's file, unless it goes out as writes with a truncation among them, which the server misreads |
| Client.ShipBatch | client/syncqueue.c:307-399 | sent as writes or as a delta against the server's own old version, an undoable batch gives the server the client's file |
| Packing.HowItGoesOut | client/syncqueue.c:206-401 | a live node goes out whole exactly if it is a new file without a relation or with one that does not fit any more, as writes exactly if it is a batch that pays, and else as a delta under its own name; its time stays |
| Packing.DeliverMade | client/syncqueue.c:219-264 | for a new file with a fitting relation, the delta against the related file, delivered under the base version, time and name of the packed node to a server that has the related file under its version, makes the server's new version the new file |
| Packing.DeliverEdited | client/syncqueue.c:307-399 | for a batch, the packed node's own base version is the one the server holds: sent as the packed node says, the batch gives the client's file, unless it goes out as writes with a truncation among them |
| QueueSpec.PackingTouches | client/syncqueue.c:206-417 | packing a path packs the node waiting there, and otherwise only live nodes that relations lead to; every other node stays as it is |
| QueueSpec.PackingIs | client/syncqueue.c:206-417 | with relations free of cycles it packs exactly the nodes waiting under the path and under the paths it leads to, through relations of new files that wait themselves |
| QueueSpec.HeadIs | client/deltacfs_client_gearman.c:165-195 | so does a step of a round that finds its node waiting, and what it sends is that node packed |
| QueueSpec.CallAdds | client/deltacfs_client_gearman.c:262-294 | a call adds at most one node, at the end, with its own operation, paths, time and base version: exactly if it has something to send and there is room; a write that joins, a deletion, a truncation to nothing and packing add none |
| QueueSpec.CallChanges | client/syncqueue.c:145-185 | an operation that is only queued and a write change no waiting node; deletion and truncation to nothing change only the one under their path, packing only those that relations lead to |
| QueueSpec.NothingWaits | client/syncqueue.c:145-185 | after a path was packed, deleted or truncated to nothing, no node waits under it any more |
| QueueSpec.CallsBring | client/deltacfs_client_gearman.c:262-515 | after any calls, the nodes that they bring stand behind those that were there, in order, each as it was, deleted, emptied or packed |
| QueueSpec.StepsBring | client/deltacfs_client_gearman.c:165-196 | after any steps with calls between them, what was sent and what is left are the nodes that were there and those of the calls, in order, and no sent node is live |
| QueueSpec.RoundBrings | client/deltacfs_client_gearman.c:151-198 | the same for a round with calls before it |
| SyncQueue.Queue.constructor | client/deltacfs_client_gearman.c:86-96 | the empty queue is consistent |
| SyncQueue.Queue.Push | client/syncqueue.c:31-43 | the node is appended, and the ring is the cyclic window one longer |
| SyncQueue.Queue.Enqueue | client/syncqueue.c:23-87 | succeeds unless all slots are used, appends exactly the node as given, and indexes it if writes can join it |
| SyncQueue.Queue.Dequeue | client/syncqueue.c:92-125 | the oldest node leaves, and the index stays right |
| SyncQueue.Queue.Find | client/syncqueue.c:189-203 | the answer is that of a plain lookup, cache or not |
| SyncQueue.Queue.IndexFinds | client/syncqueue.c:189-203 | the index leads to the one node of the queue that waits under the path, or there is none |
| SyncQueue.Queue.OneWaits | client/syncqueue.c:23-87 | at most one node waits under a path |
| SyncQueue.Queue.Delete | client/syncqueue.c:145-160 | the node waiting under the path, and no other, is marked and leaves the index |
| SyncQueue.Queue.DeleteWrite | client/syncqueue.c:163-185 | likewise, except that a new file stays as an empty one |
| SyncQueue.Queue.PackWrite | client/syncqueue.c:206-401 | packing keeps ring, index and cache right, changes exactly the nodes that the list of `QueueSpec` says, and never drops an index entry in use by a caller; what a packed node means is `Packing.HowItGoesOut`, `Packing.DeliverMade` and `Packing.DeliverEdited` |
| SyncQueue.Queue.PackRelated | client/syncqueue.c:222-241 | the node under a related path is packed and leaves the index |
| SyncQueue.Queue.PackWritePath | client/syncqueue.c:403-417 | afterwards no write can join the path, and the queue is the list with that path packed, of which `QueueSpec.PackingIs` says which nodes have changed |
| SyncQueue.Queue.Snapshot | client/deltacfs_client_gearman.c:159-160 | the recorded tail covers all waiting nodes, unless the ring is full, when it covers none |
| SyncQueue.Queue.ExecuteOne | client/deltacfs_client_gearman.c:165-195 | the oldest node is sent packed or as it was, and the others move up |
| SyncQueue.Queue.Step | client/deltacfs_client_gearman.c:165-195 | after any calls, each in its own world, the node that was the oldest is sent, packed in the world of the step if it was live, and the others are what the calls and the packing make of them |
| SyncQueue.Queue.Drain | client/deltacfs_client_gearman.c:165-196 | with any calls before each step, each call in its own world, the nodes up to the recorded tail leave in order, none of them live; what is sent and what is left is exactly what those steps give on the list |
| SyncQueue.Queue.Do | client/deltacfs_client_gearman.c:262-294 | every operation keeps the queue consistent and the waiting nodes in their places; if it has something to send and there is room it adds exactly one node at the end, with its operation, paths, time and version, and otherwise none |
| SyncQueue.Queue.DoAll | client/deltacfs_client_gearman.c:262-515 | any sequence of operations, each in a world of its own, keeps the queue consistent and leaves exactly the list that the calls give, one after another |
| SyncQueue.Queue.Round | client/deltacfs_client_gearman.c:151-198 | with any calls while it sleeps and before each of its steps, a round sends exactly the nodes waiting when it began, in order, each as it was, deleted, emptied or packed; behind them stand the nodes that those calls bring, in order; with a full ring it sends none |
| RelationQueue.Queue.Enqueue | client/syncrelation.c:9-52 | the new relation supersedes an older one of the same source and is the one found |
| RelationQueue.Queue.Dequeue | client/syncrelation.c:54-75 | the oldest node expires, and a superseded one leaves its replacement in the index |
| RelationQueue.Queue.FindIsRelation | client/syncrelation.c:77-94 | the index finds the newest node of a source if it is live, and nothing otherwise |
| RelationQueue.Queue.LinksAre | client/syncrelation.c:77-94 | the relations that the index finds are those of the list |
| RelationQueue.AfterRename | client/deltacfs_client_gearman.c:501-513 | after a rename a lookup of the old path finds the new one with the given version, if there was room; one of the new path finds nothing, and every other lookup what it found before |
| RelationQueue.AfterUnlink | client/deltacfs_client_gearman.c:336-354 | after an unlink a lookup of the path finds the temporary name, a path that led to it finds nothing, and every other lookup what it found before |
| RelationQueue.AfterExpiry | client/syncrelation.c:54-75 | after the oldest relation expired, every lookup finds what it found before, unless that was the oldest |
| RelationQueue.CallsMake | client/deltacfs_client_gearman.c:336-513 | behind the relations there were stand those of the calls, in order, as many as there is room for |
| RelationQueue.Queue.DeleteEntry | client/syncrelation.c:96-107 | no node of the source is live any more, and no other node changes |
| RelationQueue.Queue.DeleteSource | client/syncrelation.c:109-121 | likewise, whether or not there was a relation |
| RelationQueue.Queue.DeleteTarget | client/syncrelation.c:123-135 | no node of the target is live any more, no other node changes, and exactly the relations that led to it are gone |
| Relations.FewerAcyclic | client/syncrelation.c:96-135 | dropping relations closes no cycle |
| Relations.IntoSink | client/deltacfs_client_gearman.c:501-513 | a rename closes no cycle, since the target's own relation is dropped before |
| Relations.FromSource | client/deltacfs_client_gearman.c:336-354 | an unlink closes no cycle, since the relations from and to the path are dropped before |
| RelationQueue.Queue.Rename | client/deltacfs_client_gearman.c:501-513 | the relations stay free of cycles; the list is the one of which `AfterRename` says what lookups find |
| RelationQueue.Queue.Unlink | client/deltacfs_client_gearman.c:336-354 | the relations stay free of cycles; the list is the one of which `AfterUnlink` says what lookups find |
| RelationQueue.Queue.DoAll | client/deltacfs_client_gearman.c:336-513 | any renames and unlinks leave exactly the list that they give, one after another, free of cycles |
| RelationQueue.Queue.ExpireOne | client/deltacfs_client_gearman.c:140-146 | after any calls, the relation that was the oldest before them expires, and the others keep their places |
| RelationQueue.Queue.Expire | client/deltacfs_client_gearman.c:140-146 | with any calls before each step, the nodes up to the recorded tail expire, in order; what has expired and what is left is exactly what those steps give on the list |
| RelationQueue.Queue.Round | client/deltacfs_client_gearman.c:127-148 | with any renames and unlinks while it sleeps and before each of its steps, a round expires exactly the relations waiting when it began, in order, and the relations stay free of cycles; with a full ring it expires none |
| ClientQueues.Queues.constructor | client/deltacfs_client_gearman.c:74-96 | the two empty queues are consistent, and no relation leads in a circle |
| ClientQueues.MovedAndMadeAnew | client/syncqueue.c:219-264 | after a rename with room, a new file under the old path goes out as a delta exactly if the new path still has the version it was moved with; that is its base version, and the old path its name |
| ClientQueues.RemovedAndMadeAnew | client/syncqueue.c:219-264 | likewise after an unlink, against the temporary name |
| ClientQueues.Queues.Now | client/syncqueue.c:219-249 | the world that packing meets: the relations there are, and which of them fit the versions of the moment |
| ClientQueues.Queues.Do | client/syncqueue.c:219-249 | one call of either queue or one expiry changes exactly the queue it is about, as its list says; packing meets the relations there are, and both queues stay consistent |
| ClientQueues.Queues.DoAll | client/deltacfs_client_gearman.c:262-515 | the same for any sequence of calls and expiries: the sync queue takes its calls in order, each with the relations of its moment |
| ClientQueues.Queues.Step | client/deltacfs_client_gearman.c:165-195 | after anything that happens to both queues, the node that was the oldest is sent, packed with the relations of that moment if it is live |
| ClientQueues.Queues.Drain | client/deltacfs_client_gearman.c:165-196 | with anything happening to both queues before each step, the nodes up to the recorded tail leave in order, and both queues hold what those steps give on the lists |
| ClientQueues.Queues.Round | client/deltacfs_client_gearman.c:127-198 | whatever happens to both queues while a round sleeps and between its steps, it sends exactly the nodes waiting when it began, in order, or none if the ring was full; behind them stand the nodes that the calls made meanwhile bring; nothing is assumed of the relations, which stay free of cycles |
| Md5Block.FIsF1 | librsync-mod/mdfour.c:109 | the short form of the first auxiliary function is the one of RFC 1321 |
| Md5Block.GIsF2 | librsync-mod/mdfour.c:129 | likewise the second |
| Md5Block.PIsLine | librsync-mod/mdfour.c:105-107 | the macro adds, rotates and adds as a step of RFC 1321 does |
| Md5Block.OneStep | librsync-mod/mdfour.c:105-109 | a line of the code with the words in their places is the next step |
| Md5Block.Round1 | librsync-mod/mdfour.c:109-126 | the first sixteen lines take the words from step 0 to step 16 of RFC 1321, section 3.4 |
| Md5Block.Round2 | librsync-mod/mdfour.c:128-146 | the second sixteen lines take the words from step 16 to step 32 of RFC 1321, section 3.4 |
| Md5Block.Round3 | librsync-mod/mdfour.c:148-166 | the third sixteen lines take the words from step 32 to step 48 of RFC 1321, section 3.4 |
| Md5Block.Round4 | librsync-mod/mdfour.c:168-186 | the last sixteen lines take the words from step 48 to step 64 of RFC 1321, section 3.4 |
| Md5Block.Process | librsync-mod/mdfour.c:79-194 | processing a chunk is the compression of RFC 1321, section 3.4, for every chunk and chaining words |
| Md5.PadSizeIsLeast | librsync-mod/mdfour.c:245-248 | the padding is the shortest non-empty one that leaves eight bytes in the last chunk |
| Md5.CarryIsRight | librsync-mod/mdfour.c:206-210 | the comparison after the wrapping addition detects exactly the carry |
| Md5.BitLength | librsync-mod/mdfour.c:238-243 | the two length words are the low 64 bits of eight times the byte count |
| Md5.Context.constructor | librsync-mod/mdfour.c:68-77 | a new context stands for the empty message |
| Md5.Context.Update | librsync-mod/mdfour.c:196-228 | the context stands for the message extended by the input |
| Md5.Context.Chunks | librsync-mod/mdfour.c:220-224 | whole chunks are folded straight from the input |
| Md5.Context.Result | librsync-mod/mdfour.c:232-255 | the digest is that of the padded message of RFC 1321 |
| Md5.DigestOfParts | librsync-mod/mdfour.c:196-255 | however a message is split into updates, the digest is that of the whole |
| Md5.GetMd5 | librsync-mod/mdfour.c:257-263 | the one-call digest is that of the message |
| Md5Vectors.StartBytes | librsync-mod/mdfour.c:68-77 | the starting words, low-order byte first, are 01 23 45 67 89 ab cd ef fe dc ba 98 76 54 32 10 (RFC 1321, section 3.3) |
| Md5Vectors.EmptyDigest | librsync-mod/mdfour.c:257-263 | the digest of the empty message is d41d8cd98f00b204e9800998ecf8427e, as in RFC 1321, appendix A.5 |
| Md5Vectors.AbcDigest | librsync-mod/mdfour.c:257-263 | the digest of "abc" is 900150983cd24fb0d6963f7d28e17f72, as in RFC 1321, appendix A.5 |

## Left out

- The stream structure is folded into `Job`: `input` is next_in[..avail_in], `output` is everything ever stored through next_out. In `Job` the scoop and the write buffer are the byte strings they hold; `Coupling` shows that the array operations behind them agree with them at every call of a buffer routine, but the job's states call the routines on strings, and running them on the arrays is not shown.
- The ghost fields `rest`, `unread` and `goal` of `Job` are the input still to come and the promised outcome; no result of a state depends on them.
- Bytes taken from uninitialised memory are parameters: the strong sums (mksum.c:91), the search buffer behind a short block (search.c:148-162), and the saved bytes past the end of a file (deltacfs_client_gearman.c:796-798). The theorems hold for all of them, and the counterexamples choose them. `Env.staleOf` gives the buffer at each scan position; since a run searches once at each position, whatever the buffer held at each search of a run is one such function, and different schedules may have different ones.
- Drive.JobDrive: is about jobs whose goal is not `Blocked`; `Streams` says from the bytes which loads and patches these are, and `Drive.JobDriveFor` covers the others, which run for ever. `Whole.WholeRun`, `Whole.LoadSigFile` and `Whole.PatchFile` are the same for jobs that end, and their `...For` forms for all.
- Search.HitIffMatch: covers signatures of files of whole blocks, with any entries; `RoundTrip.HitIffMatchWhenSafe` covers every safe length, for signatures that were loaded.
- Decoy.DoomedIffBlock: leaves open last blocks of one or two bytes, which no other bytes of the same sum can stand in for (`Decoy.NoGuise`). Files that always fail need an order of equal elements in the index that lists a decoy before the short block, as a sort gives that keeps their order.
- Whole.Synchronise: requires block lengths up to 16000, the size of the search buffer, and old files below 2^31 bytes including one block, because the offset passed to fseek is computed as an `int` (search.c:148).
- DeltaSpec.ScanIsSensible: `rs_outbuflen` is taken to be below 2^31, so that a literal's length fits the `int` parameter of emit.c:65.
- Patch.FileCopyCb: seeking past the range of a C `long` is not modelled; a position behind the end gives no bytes.
- Search.QSort: an insertion sort stands for the library's qsort; only a sorted permutation is used.
- Delta.ParanoiaCheck: is not part of the scan loop of the model, since the option is off unless the command-line tool sets it.
- The slack delta (delta.c:397-416) cannot be reached with a loaded signature and is not modelled.
- Statistics, tracing, memory allocation, its failure, and I/O errors are not modelled.
- WatchedFile: file offsets are below 2^32, as the 32-bit cursors of syncchecksum.c demand; a missing sum, which the C code dereferences, is the verdict `NoSum`.
- PackWrite.PendingFile.Pack: the two ratios are compared as real numbers, not as `float` and `double`.
- WriteLog.UndoIffUndoable: covers batches without truncation markers and offsets below INF; `EditLog.UndoIffReversible` covers truncations, for all files of a length instead of for each file.
- WriteBatch.Server.FuncWrite: after `Overrun` the server's files are not described further, since the C code has then read or written outside its buffers.
- WriteBatch.ReplayLog: takes 8 + size for what it is, where the server's 32-bit addition (deltacfs_server_gearman.cpp:200) wraps for entries of 4 GiB less 8 bytes and more, which only messages of 4 GiB and more can hold.
- WriteBatch.SendWrite: messages of 4 GiB and more, whose size wraps in a 32-bit word, are excluded.
- Client.ShipEdits: does not describe what the server makes of a batch it misreads. The server must hold the old version, and the new version must be another; the call that sends is commented out in the client (deltacfs_client_gearman.c:192), and the method stands for the intended exchange.
- DeltaMessage.FuncDelta: where base and target are the same version, the base file has been emptied by then and is written while it is read; the outcome is only named. After `StillRunning` and `PatchFails` the target holds some beginning of the output, depending on how much had been drained.
- SyncQueue.Queue.Enqueue: is one step; the compare-and-swap loops and their ABA problem (syncqueue.c:30), locks and sleeps are not modelled. The payload of a node (parameters, buffers) is reduced to its time and base version.
- SyncQueue.Queue.PackWrite: opening the packed file succeeds. The ghost `rank` says that following relations ends; a round asks only that the relations each call meets have no cycle, and `ClientQueues.Queues.Round` asks nothing, since the relation queue keeps them so.
- RelationQueue.Queue.Rename: a rename of a path to itself, and a temporary name that is the path, are excluded; each would relate a path to itself.
- RelationQueue.Queue.DeleteTarget: the C loop steps on from an entry it has just freed; the model iterates over the entries there are at the start.
- Packing.DeliverMade: the message of a node that goes out whole, and what the server makes of it (deltacfs_server_gearman.cpp:121-152), is not part of this model.
- Md5Block.T: is the table of RFC 1321 as it stands there; that its entries are sines is not part of this model.
- FUSE callbacks other than the parts named above, Gearman, LevelDB, Redis and threads are not part of this model.
