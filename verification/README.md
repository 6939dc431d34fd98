# Barst: a verified model of its protocols

Barst is a Windows server that gives clients access to laboratory hardware over
named pipes. This project models, in Dafny, the parts of it where a mistake
would be hard to see, and proves what they promise:

- **The ADC stream decoder.** Raw samples of the eight pins of a USB bus are
  searched for start pairs and complemented pairs; the groups of bits they carry
  are placed by a lookup table in a buffer that is filled from its top down, cut
  into samples, and packed by channel. The device's side of the wire is written
  here as the specification (`AdcWire`, `AdcDelivery.Transmit`); the main results
  are that what the device sends is what arrives (`AdcRoundTrip.RoundTrip`,
  `AdcDelivery.EndToEnd`), for all widths 2 to 8, 16 and 24 bits and both bit
  orders, also through the threads, the ring of buffers between them and the other
  devices on the bus (`AdcStream.DeviceToPackets`), and that the decoder finds its
  way back to the cycles after any bytes (`AdcRoundTrip.Resynchronises`), and to the
  samples exactly under a condition on widths and distances (`AdcResync`).
- **The named pipe server.** One worker, many clients, overlapped I/O that may
  complete, pend or fail at any point, and a byte quota shared by all servers. A
  step of the model is a region of code that runs under the pipe lock;
  `ProcessData` runs between two regions, outside the lock. The results hold for
  every interleaving (`PipeRuns`, `PipeOutcomes`).
- **The FTDI channel.** All peripherals of a channel write to one transmit
  buffer, each only its pins; shift register waveforms are proved against
  simulated 74HC595 and 74HC165 chains; the sizes of the buffer and of the
  transfers, the requests of clients and the claimed read buffers are proved over
  all runs.

`AdcSpec`, `AdcDecoder`, `PipeModel`, `WriteRequests`, `ReadRequests`,
`FtScheduler` and `ReadBuffers` say what is computed, on values, and prove
invariants of it; `AdcReport`, `PipeOutcomes` and `ReadRounds` say what that means
to the clients. `AdcTable`, `AdcMemory`, `AdcPackets`, `AdcPeripheral`,
`AdcConfig`, `AdcClock`, `CplQueue`, `PipeServer`, `MemRing`, `MultiWrite`,
`MultiRead`, `PinWrite` and the class of `FtScheduler` hold the objects and loops of
the program, proved to compute just that.

A byte is the list of the levels of its eight pins, lowest first (`Bits`); words
of other widths likewise. Environment assumptions of the pipe server: senders use
an id that `ProcessData` gave them, or -1, and the worker has ended when `Close`
empties the pipes. The ADC decoder is modelled for configurations that make
sense (`AdcSpec.AdcInit.Fits`): the data pins lie in the byte, the clock is another
pin, packets are not empty; none of the three is checked by the program. Where it
writes to a byte of the transmit buffer and steps its index in one expression
(`cpl ft adc.cpp` lines 277, 289 and 340), the byte read is taken to be the one
written.

## Where the code does not do what one might expect

- `cpl defs.h` (lines 245-255) numbers shift register outputs from the board
  furthest from the computer; the code numbers them from the nearest. The model
  follows the code; `ShiftRegisters.DocumentedOrder` shows that both agree for all
  data exactly when there is one board.
- A shift register request with an index out of range is refused, but the
  entries in range are stored and go out with the next accepted request
  (`MultiWrite.RefusedRequestsAreKept`).
- The channel resets the event of its updates after draining them. An update
  that arrives in between is forgotten until an error or a device that is still
  changing sets the event again (`FtScheduler.UpdateForgotten`); over a whole run
  everybody who waits is heard if and only if nobody asks in between
  (`FtScheduler.UpdatesAreHeard`).
- The transmit buffer is allocated with all pins low. A shift register writer that
  is shut down before its first wave raises its latch on such a buffer, so that the
  chain shows whatever its registers hold (`MultiRounds.EarlyShutdown`); in all
  other runs the outputs are those of the last wave (`MultiRounds.RoundsShowLast`).
- Cancelling a read strikes out one request. A client of a reader that is not
  continuous may have several; it is out of the list exactly when it had no more
  than one (`ReadRequests.CancelLeaves`), and hears no more exactly when none of the
  others is still to be served (`ReadRequests.SilencedExactly`).
- When a cycle is lost, nothing moves the place where the next one is stored
  (`cpl ft adc.cpp` lines 548-571). At widths where samples straddle cycles all
  later samples may then be cut at the wrong bits, until the ADC is activated again;
  `AdcResync.RealignsExactly` and `WhenRealigned` say exactly when they are not.
- The run-length form of a pin update pads with its last run even if that run is
  empty; the raw form pads with its last byte. `PinWrite.FormsAgree` says exactly
  when the two do the same.

## Model

| member | source | states |
|---|---|---|
| Bits.ByteIndex | Barst/cpl ft adc.cpp:132-134 | every byte is an index below 256, and the index gives the byte back |
| AdcSpec.Shape | Barst/cpl ft adc.cpp:45-46 | for every width and both sample sizes, groups times width is eight times the block, and the buffer is a whole number of blocks and of samples |
| AdcSpec.MaskPins | Barst/cpl ft adc.cpp:38-41 | the mask leaves exactly the clock and the data pins; the configuration bit is the pin of the first bit |
| AdcSpec.ClassifyMeaning | Barst/cpl ft adc.cpp:545-566 | the masked comparisons, read pin by pin: start, complement and idle hold if and only if the pins of the two bytes relate as the protocol says |
| AdcDecoder.SampleInMemory | Barst/cpl ft adc.cpp:630-635 | the sample at the top of little-endian memory is the first sample of its bits read from the top down |
| AdcDecoder.AcceptAllAppend | Barst/cpl ft adc.cpp:584-663 | accepting two lists of samples in turn is accepting them as one |
| AdcDecoder.AddGroupValid | Barst/cpl ft adc.cpp:572-586 | a group keeps the counts of groups and cycles in range and the stored bits in step with them |
| AdcDecoder.Step | Barst/cpl ft adc.cpp:541-586 | any two bytes, garbage included, leave a valid decoder state |
| AdcDecoder.Decode | Barst/cpl ft adc.cpp:541-579 | so does any buffer |
| AdcTable.GroupWindow | Barst/cpl ft adc.cpp:127-131 | the 16-bit window of a group holds the whole group and lies inside its block |
| AdcTable.ReversedPins | Barst/cpl ft adc.cpp:135-139 | reversing the byte and shifting it back mirrors the data pins in place |
| AdcTable.AlignPins | Barst/cpl ft adc.cpp:134-140 | the aligned byte has the first bit of the group on top, in either bit order |
| AdcTable.WindowOfWord | Barst/cpl ft adc.cpp:142-146 | the 16 bits taken from the shifted word are the bits of the group where its window wants them |
| AdcTable.BuildOffsets | Barst/cpl ft adc.cpp:127-131 | the loop fills the offsets of all groups |
| AdcTable.BuildColumn | Barst/cpl ft adc.cpp:132-146 | the entries of one byte, for all groups, place its bits; other entries stay |
| AdcTable.BuildTable | Barst/cpl ft adc.cpp:116-147 | every entry of the table places the bits of its group in its window |
| AdcTable.LookupTable.Lookup | Barst/cpl ft adc.cpp:556-572 | a lookup gives the window of the group and an entry that places the bits of the byte |
| AdcMemory.GroupInMemory | Barst/cpl ft adc.cpp:572-572 | or'ing an entry into its window adds the group to the stream behind the groups before it and changes no other bit |
| AdcMemory.FirstGroup | Barst/cpl ft adc.cpp:554-556 | clearing the block and storing the first entry leaves just that group in it, whatever was there |
| AdcPackets.Packetiser.Snapshot | Barst/cpl ft adc.cpp:592-605 | what is sent describes the counts and the valid prefixes of both channel regions |
| AdcPackets.Packetiser.SendPacket | Barst/cpl ft adc.cpp:590-629 | the packet goes to the packets sent and an empty one with the next number takes its place |
| AdcPackets.Packetiser.StorePoint | Barst/cpl ft adc.cpp:642-661 | a point is stored inside the region of its channel, behind the points before it, and the other region is untouched |
| AdcPackets.Packetiser.AcceptSample | Barst/cpl ft adc.cpp:587-662 | one sample: a full packet is sent first, the status decides channel, error bits and whether it counts as a bad read |
| AdcPeripheral.DrainAcceptsAll | Barst/cpl ft adc.cpp:587-635 | walking the buffer down from its top accepts the samples of its bit stream in order |
| AdcPeripheral.AdcPeripheral.constructor | Barst/cpl ft adc.cpp:116-161 | the table, an empty set and an empty packet |
| AdcPeripheral.AdcPeripheral.JoinGroup | Barst/cpl ft adc.cpp:572-584 | a group joins its cycle; the last one of a set empties the buffer into packets |
| AdcPeripheral.AdcPeripheral.EmitSamples | Barst/cpl ft adc.cpp:587-662 | the loop over a full buffer accepts every sample of it once, from the top down |
| AdcPeripheral.AdcPeripheral.StepByte | Barst/cpl ft adc.cpp:545-586 | two bytes change the peripheral as the bit-level decoder says |
| AdcPeripheral.AdcPeripheral.ExtractData | Barst/cpl ft adc.cpp:541-665 | a buffer and the byte behind it: table, reassembly buffer and packet memory together compute the decoding of its bits |
| AdcWire.SplitInvariance | Barst/cpl ft adc.cpp:540-545 | buffers that end with the clock high can be decoded one by one, and the spare byte behind them plays no part |
| AdcWire.DecodeJoin | Barst/cpl ft adc.cpp:541-545 | decoding may stop at any byte, garbage included: the rest is decoded from the state that is left |
| AdcWire.ReadsAsOne | Barst/cpl ft adc.cpp:526-545 | so any number of buffers, each with its own spare byte behind it, are decoded as if they were one |
| AdcWire.CycleStored | Barst/cpl ft adc.cpp:545-579 | a whole cycle that arrives while none is under way is stored, whatever idle bytes lie between its groups |
| AdcWire.CycleLost | Barst/cpl ft adc.cpp:548-571 | a whole cycle that arrives while another is under way is lost with it, one bad read a group, and nothing else changes |
| AdcWire.BadReadsCount | Barst/cpl ft adc.cpp:548-551 | bad reads are counted one by one in 16 bits, and nothing else changes |
| AdcWire.PartKept | Barst/cpl ft adc.cpp:545-579 | a cycle that has arrived only in part is kept group by group and delivers nothing |
| AdcWire.CorruptDrops | Barst/cpl ft adc.cpp:558-571 | a pair whose data pins change under a low clock, but not to a complement, ends the cycle under way and is one bad read; the stored cycles, points and packets stay |
| AdcWire.CycleSpoiled | Barst/cpl ft adc.cpp:545-571 | a cycle with a corrupt pair in it delivers nothing: the groups before the pair are dropped, the pair and every group behind it is a bad read |
| AdcRoundTrip.Resynchronises | Barst/cpl ft adc.cpp:541-586 | from any state and after any bytes, or none, at most one whole cycle is lost, exactly when a cycle was under way; all others are stored |
| AdcResync.StoredAreTaken | Barst/cpl ft adc.cpp:572-635 | the samples accepted from any state are those of the bits in the buffer and of the cycles stored behind them, as far as they fill whole sets |
| AdcResync.LateSamples | Barst/cpl ft adc.cpp:548-579 | if it has, they are a stretch of the samples sent, and by how many it has moved |
| AdcResync.LateSamplesWrong | Barst/cpl ft adc.cpp:548-579 | if it has not, there are samples of which every one behind those cycles comes out wrong |
| AdcResync.RealignsExactly | Barst/cpl ft adc.cpp:548-579 | whatever is sent, all samples behind the cycles in the buffer are right, if and only if the stream has moved by whole samples |
| AdcResync.WhenRealigned | Barst/cpl ft adc.cpp:45-46 | a loss never matters if a cycle holds whole samples, as at the even widths; else the next cycle has to continue the set where it stopped, or at width 6 be off by an even number |
| AdcResync.SamplesAfterGarbage | Barst/cpl ft adc.cpp:541-586 | from any state and after any bytes, just the samples of the cycles stored are accepted; if the first of these realigns the stream, all behind the cycles that were in the buffer are right |
| AdcRoundTrip.EncodeRoundTrip | Barst/cpl ft adc.cpp:580-635 | cutting the bits of a list of samples gives the samples back |
| AdcRoundTrip.RoundTrip | Barst/cpl ft adc.cpp:127-661 | the samples of all complete sets that the device sent are accepted, in order, also where samples straddle cycles and when the last cycle has arrived only in part |
| AdcDelivery.AcceptAllDelivers | Barst/cpl ft adc.cpp:587-661 | per channel, the points in packets sent and in the current one are those of the samples accepted, in order |
| AdcDelivery.AcceptAllWellSent | Barst/cpl ft adc.cpp:590-629 | packets are numbered consecutively, every one sent has a full channel, no channel is overfull |
| AdcDelivery.DecodeWellSent | Barst/cpl ft adc.cpp:541-661 | nothing that is decoded breaks the packets |
| AdcDelivery.EndToEnd | Barst/cpl ft adc.cpp:541-661 | of the samples sent, the complete sets that have arrived are delivered on the channel their status names, in order |
| AdcReport.PacketsTell | Barst/cpl ft adc.cpp:587-661 | the samples accepted are cut into parts, each ending with the sample that makes a packet full; packet by packet, points, bad reads, overflows and error bits are those of its part |
| AdcReport.ReportMeaning | Barst/cpl ft adc.cpp:636-661 | a status made of channel, overflow and errors is taken for just that |
| AdcReport.PacketsArrive | Barst/cpl ft adc.cpp:541-663 | so do the packets that the stream of the device ends up in |
| AdcClock.WriteClock | Barst/cpl ft adc.cpp:338-343 | the loop writes a clock that goes high and low and ends high, on the ADC's pins only |
| AdcClock.ReadBackIsClocked | Barst/cpl ft adc.cpp:540-541 | what is read back while the clock runs, each byte before it is written, has every low clock followed by a high one and ends high, and the next buffer begins so too |
| AdcClock.PriorEndsHigh | Barst/cpl ft adc.cpp:264-343 | from the reset on, through its configuration and the turns of other devices, the clock is high at the end of the buffer |
| AdcClock.DialogueKeepsEnd | Barst/cpl ft adc.cpp:284-335 | the configuration and the end of the reset are shorter than the buffer and on own pins |
| AdcClock.SentClocks | Barst/cpl ft adc.cpp:336-343 | every buffer sent after the clock was written carries it, whatever turns the other devices have had |
| AdcClock.ReadsEndHigh | Barst/cpl ft adc.cpp:336-545 | so all buffers that are read then are clocked and end with the clock high |
| AdcStream.DeviceToPackets | Barst/cpl ft adc.cpp:391-665 | under every interleaving of the threads, whatever the other devices do to their pins and wherever the last buffer ends, once an ADC has caught up its packets hold the samples that the device sent in the buffers that were read while its clock ran and handed round while it was active |
| AdcDelivery.TransmitSends | Barst/cpl ft adc.cpp:545-566 | any groups can be sent by the device, whatever the other pins do |
| AdcConfig.ConfigLength | Barst/cpl ft adc.cpp:287-309 | the configuration takes 162 bytes, the word starts at byte 114 |
| AdcConfig.SequencesAreOwn | Barst/cpl ft adc.cpp:274-335 | the sequences of an ADC stay off the pins of others |
| AdcConfig.WriteReset | Barst/cpl ft adc.cpp:274-283 | the loops write the reset sequence and hold the clock high behind it, on the own pins only |
| AdcConfig.WriteResetDone | Barst/cpl ft adc.cpp:331-335 | after it, its bytes are taken back |
| AdcConfig.WriteConfig | Barst/cpl ft adc.cpp:286-310 | the loops write reset, synchronisation and the bits of the word from its highest, on the own pins only |
| AdcConfig.ConfigArrives | Barst/cpl ft adc.cpp:286-310 | a device that samples the configuration pin at the rising edges of the clock reads the ones of the reset and then the word, from its highest bit |
| AdcConfig.SyncArrives | Barst/cpl ft adc.cpp:286-303 | between the reset and the word the configuration pin falls ten times under a high clock, and never else before the word |
| AdcConfig.ResetArrives | Barst/cpl ft adc.cpp:274-335 | a reset clocks ones in and then holds clock and pin high, and so does what replaces it; a device that is shut down is left with the clock high and the pin low |
| AdcConfig.WriteIdle | Barst/cpl ft adc.cpp:313-319 | an ADC that is shut down leaves its clock high over the whole buffer |
| CplQueue.CQueue.Push | Barst/cpl queue.h:26-32 | the item goes last; the event is set if the queue was empty, and else stays as it was |
| CplQueue.CQueue.Front | Barst/cpl queue.h:38-50 | the first item, removed on request; nothing for an empty queue |
| CplQueue.CQueue.ResetIfEmpty | Barst/cpl queue.h:59-64 | the event is reset exactly when the queue is empty |
| PipeServer.Quota.Increase | Barst/named pipes.cpp:18-31 | a size is counted if and only if it fits under the limit; without a limit everything fits and nothing is counted |
| PipeServer.Quota.Decrease | Barst/named pipes.cpp:33-40 | a size is taken off, unless there is no limit |
| PipeServer.PipeResource.ClearQueue | Barst/named pipes.h:61-76 | everything queued is failed once, in order, and the sizes add up to the result |
| PipeServer.PipeResource.ResetResource | Barst/named pipes.h:78-90 | the instance is as new, but for its id and its queue |
| PipeServer.CPipeServer.EventOf | Barst/named pipes.cpp:222-223 | the index arithmetic picks the instance, and which of its events, that the entry of the wait list belongs to |
| PipeServer.CPipeServer.ErasePipe | Barst/named pipes.cpp:248-250 | after an erasure the wait list is still the done event and both events of every instance, in order |
| PipeServer.CPipeServer.DiscardPipe | Barst/named pipes.cpp:239-309 | a failed instance is reset under a new id or deleted, its queue failed and taken off the quota, as the model says |
| PipeServer.CPipeServer.OpenAnother | Barst/named pipes.cpp:170-203 | the region before the wait |
| PipeServer.CPipeServer.WaitReturned | Barst/named pipes.cpp:205-396 | the region after the wait, for every entry of the wait list and all answers of the system |
| PipeServer.CPipeServer.ReadReturned | Barst/named pipes.cpp:315-353 | the region after ProcessData for a read that was pending |
| PipeServer.CPipeServer.NextReadReturned | Barst/named pipes.cpp:323-324 | the region after ProcessData for a read that completed at once |
| PipeServer.CPipeServer.ServeWrites | Barst/named pipes.cpp:359-394 | the head of the queue is finished, or written and finished, or left pending |
| PipeServer.CPipeServer.SendData | Barst/named pipes.cpp:437-465 | the message joins the queue of the instance with its id if there is one and the quota has room; the result tells |
| PipeServer.CPipeServer.Init | Barst/named pipes.cpp:75-161 | an idle server starts with one instance, already connecting; otherwise nothing happens |
| PipeServer.CPipeServer.StartClose | Barst/named pipes.cpp:405-412 | senders are turned away and the done event is set |
| PipeServer.CPipeServer.FinishClose | Barst/named pipes.cpp:420-434 | everything left is failed in order and taken off the quota |
| PipeOutcomes.TrueOutcomes | Barst/named pipes.cpp:208-434 | in any step: a message is reported as sent if and only if it is the head of the queue whose write event woke the worker and its write has finished with all its bytes, or was done at once; all else that is completed has failed, and nothing else is written |
| PipeOutcomes.PendingWriteOutcome | Barst/named pipes.cpp:359-370 | with a write under way just the head is completed, well if and only if it finished with all its bytes |
| PipeOutcomes.NextWriteOutcome | Barst/named pipes.cpp:371-394 | with none, the head is handed to WriteFile once, and completed as that says, unless it is left pending |
| PipeOutcomes.SessionOutcome | Barst/named pipes.cpp:223-355 | an instance is given up, and its queue failed, exactly when a call for it has failed; otherwise its session goes on to the next status, and to ProcessData if something was read |
| PipeOutcomes.NextReadOutcome | Barst/named pipes.cpp:317-353 | after ProcessData the next read is issued, and only if that fails the session ends |
| PipeOutcomes.OpenOutcome | Barst/named pipes.cpp:170-203 | an instance is added, under a new id, exactly when all are connected, there may be more and none has failed to be created |
| PipeOutcomes.StartOutcome | Barst/named pipes.cpp:75-161 | a server starts with one instance, connecting or waiting for its first call under the next id |
| PipeOutcomes.CloseOutcome | Barst/named pipes.cpp:405-434 | closing turns senders away and wakes the worker, which ends on that; then everything queued fails, instance by instance and in order |
| PipeInvariant.FinishBalanced | Barst/named pipes.cpp:368-393 | completing the first messages of an instance keeps accepted equal to completed and queued, for every id |
| PipeInvariant.RemoveBalanced | Barst/named pipes.cpp:246-250 | so does deleting an instance with nothing queued |
| PipeSteps.OnPipeStep | Barst/named pipes.cpp:223-355 | the region of an instance's event keeps the invariant, whatever the system answers |
| PipeSteps.OnWriteStep | Barst/named pipes.cpp:356-395 | so does the region of its write event |
| PipeSteps.OnWaitPays | Barst/named pipes.cpp:208-396 | what a region takes out of the queues is what it takes off the quota |
| PipeSteps.OnWaitCounts | Barst/named pipes.cpp:208-396 | a region keeps the counter of connected instances and the number of instances right |
| PipeRuns.Safety | Barst/named pipes.cpp:75-465 | every state that any number of servers can reach satisfies the invariant |
| PipeRuns.QuotaConserved | Barst/named pipes.cpp:18-40 | with a limit, the bytes counted are the bytes queued over all pipes of all servers, between 0 and the limit |
| PipeRuns.ExactlyOnce | Barst/named pipes.cpp:285-465 | for every id, the messages completed are the first of those accepted, in order, the rest is queued; after Close nothing is left |
| PipeRuns.SendOutcome | Barst/named pipes.cpp:437-465 | exactly when a message is taken, and that one turned down leaves no trace |
| PipeRuns.Isolation | Barst/named pipes.cpp:240-300 | ids are distinct; only reading instances have anything queued; what is queued or written is addressed to the session it is queued for or written to |
| PipeRuns.NeverReused | Barst/named pipes.cpp:139-343 | between any two states of a run an id is new or still names the session that had it |
| PipeRuns.NoLostWakeup | Barst/named pipes.cpp:358-394 | a non-empty queue has its event signalled or a write pending; a pending write is that of the head; an instance at rest has its event signalled or a call pending |
| PipeRuns.Listening | Barst/named pipes.cpp:172-205 | the counter of connected instances is right; at the wait an instance is free, unless the maximum is reached or one could not be created; at most 64 handles |
| MemRing.CMemRing.GetFree | Barst/mem pool.cpp:57-81 | the first buffer without claims, a new one if there is none and there may be more, else nothing; claims do not change |
| MemRing.CMemRing.GetIndexMemory | Barst/mem pool.cpp:26-37 | the buffer, with one more claim |
| MemRing.CMemRing.GetIndexMemoryUnsafe | Barst/mem pool.cpp:39-47 | the buffer, with no more claims |
| MemRing.CMemRing.ReleaseIndex | Barst/mem pool.cpp:49-55 | one claim less |
| ReadBuffers.ClaimsAreSafe | Barst/ftdi device.cpp:925-928 | under every interleaving claims are the places in the queues and hands of the ADCs, a buffer about to be filled has none, what is extracted and held is what was delivered, in order, and a thread is woken exactly while there is something for it |
| ReadBuffers.DeliveredWasRead | Barst/ftdi device.cpp:924-929 | what an ADC was handed is, in order, what the reads that succeeded have read, whenever it was active at its turn; failed reads reach nobody |
| ReadBuffers.NoReadIsMissed | Barst/ftdi device.cpp:924-929 | an ADC that was active at every turn was handed everything that was read |
| ReadBuffers.LookOutcome | Barst/mem pool.cpp:57-81 | the thread of the channel finds the first buffer without claims, else a new one while there may be more, else nothing |
| ReadBuffers.TakeOutcome | Barst/cpl ft adc.cpp:478-501 | a thread that wakes takes the first entry of its queue, or goes back to sleep |
| ReadBuffers.FillKeeps | Barst/ftdi device.cpp:925-926 | filling a buffer disturbs no entry of any ADC |
| ReadBuffers.HandKeeps | Barst/cpl ft adc.cpp:391-398 | nor does handing it over, with one claim for each ADC that is active |
| ReadBuffers.ReleaseKeeps | Barst/cpl ft adc.cpp:485-501 | nor does releasing it |
| FtPins.WriteUnit | Barst/cpl ft io.cpp:137-140 | one inner loop: the wave goes on by so many copies of a byte, on the device's pins only |
| FtPins.MaskedIsPass | Barst/cpl ft io.cpp:124-146 | what such loops leave in the buffer is the pass of the device |
| AdcClock.ClockIsOwn | Barst/cpl ft adc.cpp:338-343 | the clock stays off the pins of others |
| MultiWrite.WaveIsOwn | Barst/cpl ft io.cpp:131-146 | so does the wave of a shift register writer |
| MultiRead.ReadWaveIsOwn | Barst/cpl ft io.cpp:365-377 | that of a reader |
| PinWrite.SentWaveIsOwn | Barst/cpl ft io.cpp:672-678 | and the waveform of a pin writer |
| FtPins.Isolation | Barst/ftdi device.cpp:917-921 | after all devices, every owned pin is what its owner alone would have written, and the others are unchanged |
| FtPins.OrderIndependent | Barst/ftdi device.cpp:917-921 | the order of the devices makes no difference |
| ShiftRegisters.DriveStretch | Barst/cpl ft io.cpp:137-146 | stretching the clock makes no difference to a chain |
| ShiftRegisters.WaveIsShown | Barst/cpl ft io.cpp:131-146 | a wave loads the outputs once, with the data, for any number of boards and either clock edge |
| ShiftRegisters.ShownAt | Barst/cpl ft io.cpp:131-146 | where each output of each board is shown |
| ShiftRegisters.LastUpdateIsShown | Barst/cpl ft io.cpp:126-179 | over any transmitted buffers the outputs are those of the last update |
| ShiftRegisters.DocumentedOrder | Barst/cpl defs.h:245-255 | the documented order of outputs is the code's, for all data, if and only if there is one board |
| ShiftRegisters.InputsAreRead | Barst/cpl ft io.cpp:365-439 | the data pin at byte (3 + 2 i) * clkPerData, read before it is written, is input i in shift order |
| WriteRequests.EveryRequestOnce | Barst/cpl ft io.cpp:82-250 | accepted requests are answered at most once, in order, none is left when inactive, and the event is set exactly while a wave is due |
| WriteRequests.StateFollows | Barst/cpl ft io.cpp:82-103 | over any run the peripheral is what it was told last, and inactive from the next write on if that was to be inactive |
| WriteRequests.AcceptedInTime | Barst/cpl ft io.cpp:214-231 | just the requests made while it was active are accepted |
| WriteRequests.AnsweredWereWritten | Barst/cpl ft io.cpp:147-178 | the requests answered after a write are those that had asked when the wave was made, all of them and no others, in order, with the error of the write |
| WriteRequests.NoWaveNoAnswer | Barst/cpl ft io.cpp:154-178 | a write that carried no wave answers nobody |
| WriteRequests.ClosedAreTold | Barst/cpl ft io.cpp:98-122 | everybody who waits at a shutdown is told that it closes |
| WriteRequests.WaitersGetAWave | Barst/cpl ft io.cpp:126-153 | an accepted request is part of a wave or one is due for it |
| WriteRequests.LostIsRedone | Barst/cpl ft io.cpp:87-96 | after the device was lost the last data goes out again, before the next write |
| WriteRequests.WriteQueue.Shutdown | Barst/cpl ft io.cpp:98-122 | everybody who waits is told once that the peripheral closes |
| WriteRequests.WriteQueue.Respond | Barst/cpl ft io.cpp:156-178 | those who were counted when the wave was made get the outcome, in order |
| MultiWrite.LastEntryCounts | Barst/cpl ft io.cpp:219-225 | an output has the level of the last entry for it, or keeps its own |
| MultiWrite.RefusedRequestsAreKept | Barst/cpl ft io.cpp:219-231 | a refused request leaves all data alone if and only if it names no output that exists |
| MultiWrite.WriteBits | Barst/cpl ft io.cpp:131-142 | the nested loops write every bit for a high and a low clock, in the order sent |
| MultiWrite.CMultiWPeriph.MakeWave | Barst/cpl ft io.cpp:131-146 | the loops write the wave of the current data on the device's pins |
| MultiWrite.CMultiWPeriph.BeforeWrite | Barst/cpl ft io.cpp:98-153 | before a write: the wave if one is due, the defaults when shutting down, else nothing |
| MultiWrite.CMultiWPeriph.AfterWrite | Barst/cpl ft io.cpp:154-179 | after a write: answers, and the pins at rest |
| MultiWrite.CMultiWPeriph.ProcessData | Barst/cpl ft io.cpp:214-250 | entries are stored while active; the request is accepted if and only if all outputs exist |
| MultiWrite.BufferCarries | Barst/cpl ft io.cpp:126-153 | the buffer then carries a wave for the data if one was due, and rest levels behind it |
| MultiWrite.BufferRests | Barst/cpl ft io.cpp:174-178 | and is at rest after the write |
| MultiRounds.RoundsShowLast | Barst/ftdi device.cpp:915-922 | over any writes of the channel, of any part of the buffer that holds the wave, whatever the other devices do to their pins, from a zeroed buffer too, the chain shows the data of the last wave of its writer; only a shutdown before the first wave may differ |
| MultiRounds.PassIsOther | Barst/ftdi device.cpp:917-921 | the pass of a device that owns none of the writer's pins leaves them as they are |
| MultiRounds.PassesAreOther | Barst/ftdi device.cpp:917-921 | and so do the passes of any list of such devices |
| MultiRounds.EarlyShutdown | Barst/cpl ft io.cpp:98-122 | a shutdown before the first wave, on a buffer that was never written to, shows the registers; without it the outputs stay |
| MultiRounds.Starts | Barst/ftdi device.cpp:649-656 | the zeroed buffer of the constructor is a start of such writes, and so is one at rest |
| ReadRequests.ListIsSound | Barst/cpl ft io.cpp:330-531 | processed never exceeds the list; a continuous reader has no client twice; nobody waits when inactive; the event is set exactly while somebody is listed |
| ReadRequests.SilentAfterCancel | Barst/cpl ft io.cpp:518-531 | after a client of a continuous reader cancelled, nothing but confirmations of cancellations goes to it until it asks again, whatever it was sent before |
| ReadRequests.SilencedExactly | Barst/cpl ft io.cpp:385-531 | for every reader: whatever happens, a client that cancelled hears nothing more until it asks again, if and only if the reader is continuous or none of its other requests is still to be served |
| ReadRequests.CancelLeaves | Barst/cpl ft io.cpp:518-530 | one request is struck out; the client is out if and only if it had no more |
| ReadRequests.ToldAtMostOnce | Barst/cpl ft io.cpp:330-463 | a client of a reader that is not continuous is told at most once for each time it asked |
| ReadRequests.NoneIsDropped | Barst/cpl ft io.cpp:330-531 | and each time it asked is answered, cancelled or still pending |
| ReadRounds.RoundOfData | Barst/cpl ft io.cpp:417-461 | whatever clients do meanwhile, a round sends the data once for every request that was counted, in order, to its client unless it has cancelled |
| ReadRounds.RoundOfFailure | Barst/cpl ft io.cpp:381-413 | so it is with the error, after a failed write |
| ReadRounds.BeforeOutcome | Barst/cpl ft io.cpp:330-365 | a wave is made if and only if somebody is listed, and its round is for all who are; at a shutdown they are told so |
| ReadRounds.EndOutcome | Barst/cpl ft io.cpp:405-461 | after a round there is no other until the next wave; single requests have left the list, and after data also whoever cancelled or could not be reached |
| ReadRounds.ContinuousGoesOn | Barst/cpl ft io.cpp:381-531 | a client of a continuous reader stays listed, and the channel told to go on, as long as it does not cancel, is reached and the reader stays active |
| ReadRounds.EveryRoundTells | Barst/cpl ft io.cpp:417-461 | a listed client of a continuous reader is sent the data once in every round |
| ReadRounds.EveryFailureTells | Barst/cpl ft io.cpp:381-413 | and the error of the write once in every round that failed |
| MultiRead.ShareRestRuns | Barst/cpl ft io.cpp:422-445 | the replies of a round are the run of its single steps, one for each request counted, as the runs of `ReadRequests` have them |
| MultiRead.ReportRestRuns | Barst/cpl ft io.cpp:385-405 | and so are the reports of a failure |
| MultiRead.ReadQueue.FailAll | Barst/cpl ft io.cpp:385-413 | after a failed write everybody counted is told; single requests leave the list |
| MultiRead.ReadQueue.ShareAll | Barst/cpl ft io.cpp:422-461 | everybody counted gets the data; clients out of reach and finished requests leave the list |
| MultiRead.ReadQueue.EraseNobody | Barst/cpl ft io.cpp:450-457 | the loop erases exactly the cancelled entries |
| MultiRead.ReadQueue.Trigger | Barst/cpl ft io.cpp:500-517 | a request is taken while active, from a continuous reader's client only once |
| MultiRead.ReadQueue.Cancel | Barst/cpl ft io.cpp:518-531 | the first request of the client is struck out and confirmed |
| MultiRead.WriteReadWave | Barst/cpl ft io.cpp:365-377 | the loops write the load pulse and the clock pairs on the device's pins |
| MultiRead.ExtractLevels | Barst/cpl ft io.cpp:438-439 | the levels of the data pin at the positions of the outputs |
| MultiRead.ExtractsInputs | Barst/cpl ft io.cpp:365-439 | if the chain drives the data pin, what is extracted are its inputs |
| MultiRead.RestIsStill | Barst/cpl ft io.cpp:412-415 | at rest the chain neither loads nor shifts |
| MultiRead.CMultiRPeriph.BeforeWrite | Barst/cpl ft io.cpp:330-380 | before a write: the wave of a read if anybody waits, the defaults when shutting down |
| MultiRead.CMultiRPeriph.AfterWrite | Barst/cpl ft io.cpp:381-416 | after a write: failures, and the pins at rest |
| MultiRead.CMultiRPeriph.AfterRead | Barst/cpl ft io.cpp:417-463 | after a read: the levels go to everybody who waits |
| MultiRead.CPinRPeriph.AfterRead | Barst/cpl ft io.cpp:976-1022 | after a read: the active pins of every byte used go to everybody who waits |
| PinWrite.LastUpdateCounts | Barst/cpl ft io.cpp:780-804 | a pin of a byte has the level of the last update that covers the byte and selects the pin, or keeps its own |
| PinWrite.RunsMean | Barst/cpl ft io.cpp:780-795 | every position belongs to one run, the last if it is behind all; its pins get the value where that run selects them |
| PinWrite.BytesMean | Barst/cpl ft io.cpp:797-804 | in the raw form each position has its byte, or the last |
| PinWrite.WaveLevels | Barst/cpl ft io.cpp:665-804 | the same for the waves that are sent: else the level at the end of the previous wave |
| PinWrite.StaysInActive | Barst/cpl ft io.cpp:787-803 | stored bytes stay within the active pins |
| PinWrite.FormsAgree | Barst/cpl ft io.cpp:780-804 | the run-length form does to all data what the raw form does if and only if their padding agrees |
| PinWrite.LastRunNotEmpty | Barst/cpl ft io.cpp:790-803 | which is so whenever the last run is not empty |
| PinWrite.PutRuns | Barst/cpl ft io.cpp:782-795 | the nested loops update every byte by the run it belongs to |
| PinWrite.PutRaw | Barst/cpl ft io.cpp:798-803 | the loops update every byte by its byte, or the last one |
| PinWrite.CPinWPeriph.MakeWave | Barst/cpl ft io.cpp:670-678 | the waveform goes out, padded with its last byte, and becomes that byte |
| PinWrite.CPinWPeriph.BeforeWrite | Barst/cpl ft io.cpp:637-685 | before a write: the waveform if one is due, the last levels when shutting down |
| PinWrite.CPinWPeriph.AfterWrite | Barst/cpl ft io.cpp:686-690 | after a write: the bytes used stay at the last level |
| PinWrite.CPinWPeriph.ProcessData | Barst/cpl ft io.cpp:750-810 | a well-formed update that fits changes the waveform while active; any other changes nothing |
| FtSizing.AdcSizeFits | Barst/ftdi device.cpp:440-445 | however the machine rounds single precision numbers, an ADC gets whole packets, three at least, no more than the largest buffer |
| FtSizing.AdcSizeIsShare | Barst/ftdi device.cpp:440-445 | all of the largest buffer from a hundred percent on, three packets for a small share, else the most whole packets within the share |
| FtSizing.RoundIsLeast | Barst/ftdi device.cpp:460-461 | rounding gives the least whole number of packets that is enough |
| FtSizing.RoundMax | Barst/ftdi device.cpp:460-480 | the maximum of rounded sizes is the rounded maximum |
| FtSizing.PassesAgree | Barst/ftdi device.cpp:355-656 | the buffer allocated is the size every device was told, fits the largest transfer and has room for every device |
| FtSizing.BufferIsNeeded | Barst/ftdi device.cpp:355-461 | the buffer is the least whole number of packets for some device |
| FtSizing.DevicesFit | Barst/ftdi device.cpp:473-606 | every device gets the bytes that its class demands: a whole wave, or its pin bytes |
| FtSizing.AdcSequencesFit | Barst/cpl ft adc.cpp:264-343 | the reset, configuration and clock that an ADC writes stay inside the buffer, the configuration short of its end |
| FtSizing.LargestWrite | Barst/ftdi device.cpp:355-461 | the first pass finds the largest need, or that a device needs too much |
| FtSizing.SecondPass | Barst/ftdi device.cpp:473-632 | the second pass gives every device its size and finds the largest |
| FtSizing.SizeChannel | Barst/ftdi device.cpp:355-656 | what is refused, more than 61 devices among it, and that what is allocated is what was told |
| FtScheduler.TransfersFit | Barst/ftdi device.cpp:872-929 | at every transfer, after any activations, errors and recoveries, every device in use has the bytes it needs and they fit in the buffer |
| FtScheduler.SettlesOnLeast | Barst/ftdi device.cpp:872-893 | and what is set up is the least whole number of packets that does |
| FtScheduler.ShutdownHappens | Barst/ftdi device.cpp:905-947 | what becomes of every device in a transfer: one told to become inactive is, an ADC may be through with starting, no other changes |
| FtScheduler.DrainTells | Barst/ftdi device.cpp:834-862 | once the updates are drained a device is what the last that names it asked for, and else as it was, but for ADCs that start over after an error |
| FtScheduler.AsksAreKept | Barst/ftdi device.cpp:844-947 | over any run, once no update waits, a device is active, or an ADC at least starting, if and only if that was asked for last |
| FtScheduler.TransfersFollow | Barst/ftdi device.cpp:863-947 | at rest nothing is changing and the size of the transfers is that of the devices now in use |
| FtScheduler.TransferOutcome | Barst/ftdi device.cpp:915-947 | a transfer that fails leaves an error to recover from; updates are looked at again after it, and as soon as nothing is changing any more |
| FtScheduler.SettleOutcome | Barst/ftdi device.cpp:863-911 | after the updates their event is reset; the next transfer is made at once if a device is changing |
| FtScheduler.UpdateForgotten | Barst/ftdi device.cpp:853-864 | an update that arrives between draining and reset is forgotten |
| FtScheduler.UpdatesAreHeard | Barst/ftdi device.cpp:853-864 | over every run, those who wait are heard in all its states if and only if nobody asked between draining and reset |
| FtScheduler.SizesStart | Barst/ftdi device.cpp:355-656 | the sizes of the constructor are a start of such runs |
| FtScheduler.CChannelFTDI.PushUpdate | Barst/ftdi device.cpp:798-812 | an update goes last; the event is set if none was waiting |
| FtScheduler.CChannelFTDI.DrainUpdates | Barst/ftdi device.cpp:834-862 | after a recovery, if there was an error, all updates are applied in order; nothing happens while the device cannot be opened |
| FtScheduler.CChannelFTDI.SetUp | Barst/ftdi device.cpp:863-911 | the transfer is the rounded maximum over the devices in use, and is made at once if any is changing |
| FtScheduler.CChannelFTDI.Transfer | Barst/ftdi device.cpp:915-947 | one write and read: what becomes of the devices, the error and the event of the updates |

## Left out

- Windows itself: handles, overlapped structures and the driver calls are outcomes (done, pending, failed) and event flags; forced thread termination is not modelled, joins are assumed clean.
- `mcdaq_device.cpp`, `rtv device.cpp`, `serial device.cpp`, the managers in `Barst.cpp` and all `GetInfo` functions: repeats of the queue and mask patterns here, or struct filling.
- Timestamps and the statistics fSpaceFull, fTimeWorked, fDataRate, dwSpaceUsed, dwChan1S and dwChan2S: no contract to prove.
- The table of reversed bytes (`cpl ft adc.cpp` lines 5-23) is the function `Bits.Reverse`.
- The error word of a packet is kept as its two 16-bit halves, bad reads and overflows.
- The timing of the ADC's configuration dialogue, the check of what is read back then and its reset event: what it writes is modelled; decoder runs start from a settled active state.
- The bytes of a data point are kept as they are in memory; packing them into a 32-bit word is not modelled.
- Failure to allocate memory or create handles, except for further instances of a pipe; logging; wrap-around of sizes supplied by clients (they are assumed to fit).
- The pool that `PoolAcquire` stands for only calls malloc: memory of requests and packets is not modelled.
- FtSizing.AdcSizeFits: the percentage of the buffer is a number; a NaN, which the program does not refuse, is not modelled.
- Malformed client messages are answered with an error before anything changes; only their contents, not their headers, are modelled.
- Peripherals' constructors that refuse their parameters (wrong sizes, no boards, no pins): the classes are built from parameters that are accepted, and for shift registers from three different pins.
- The baud rate, bit mode and output pin settings of a channel.
- MultiRounds.RoundsShowLast: a write that fails is not a write of its runs; how much of it reaches a chain is not modelled.
- WriteRequests.AnsweredWereWritten: says which requests are answered after a write; that the transfer itself reached the device is the driver's word.
