# liblaser: verified model of the transport, retry, registry and disc layers

liblaser drives optical discs over USB Bulk-Only Transport from user space. These
Dafny modules model its protocol stack, from the wire up, and prove what it
promises against a device that answers as it likes:

- `UsbDevice` is the device: a state machine over its two bulk pipes that may stall,
  time out, send short, send too much or hold a CSW back. Each bus action is a total
  function of the device and of a choice the device makes, and the libusb calls of
  `Entries.Entry` draw that choice freely, so what is proved holds of every device.
- `Exchanges` is the log of a handle: for every CBW issued, what it asked for, whether the
  device took it, and each transfer behind it as libusb answered it, with the packets it took
  off the pipe. The libusb calls of `Entry` write it and nothing else does; contracts state
  codes, statuses, sense, data and clocks against it, so they are those of the transfers made.
- `Bot` is one transaction with its Reset Recovery, and runs of transactions
  (USB Mass Storage Class Bulk-Only Transport rev 1.0, sections 5.3.4, 6.3, 6.6 and 6.7).
- `Retry` is the retry policy as a function of what the attempts came back with, with
  the lemmas about it; `Records` reads such a history off the log; `Css` tells the commands that
  change the authentication state; `Scsi` is the loop that carries the policy out on an entry.
- `SpinUp` is the START STOP UNIT ladder and the wait for the medium.
- `Discs` is the two read commands and the bytes of the disc they ask for (`Span` and `Whole`
  are the source's `*` and `/` on blocks, in a form that keeps the proofs linear), `Chunks` the
  transfer-size negotiation as a function of what the commands came back with, and `Reads` the
  loop that carries it out.
- `Registry` is the table of devices with its ledger of held resources; `Threads` is
  any number of threads on one entry, step by step, in any interleaving, and `ThreadRuns` what
  they can and cannot come to over whole runs.
- `IsoRecords` and `Iso` are the directory records of ECMA-119 section 9.1 and the walk over
  them; `Label` is the truncation of UTF-8 (RFC 3629, section 4).

A loop of the source is a method with a loop here; what it computes is a function of
its inputs or of the log, and the main results are lemmas about that function for every
history. Methods that only pass a contract on begin with `hide`, which takes function bodies
out of their proofs and changes nothing in what is stated.

## How hypotheses appear

What the device cannot do, in `UsbDevice`:

- A payload packet never decodes as a CSW, and a CSW carries the tag of the CBW it answers.
- A command gets one CSW, and nothing is sent for it after that. One of status 02h leaves the
  device deaf to any CBW until it is reset.
- Data bytes that arrive after the CSW was queued leave Bulk-Out clean.
- A CBW of which libusb counts fewer than 31 bytes, none included, is not taken for a command.

What a result needs beyond that is recorded in the state or on the log, and the result says so:

- `Device.defiant`: a reset or clear-halt request went unanswered, and no Reset Recovery since
  then was answered in full. `Quiet` (in step with the host, or off the bus, or defiant) is what
  every transaction leaves, and a recovery that is answered brings any device back in step.
- `Exchange.defied`: the device was defiant when the CBW was issued. What is said of the data of
  an exchange is said of one that was not; that the device was in step then is proved, of every
  trace of failures and recoveries before it. `Device.unanswered` counts the requests that went
  unanswered: over any commands in which it does not grow, a device that was not defiant at the
  start is not so at any of them (`Exchanges.Answering`, which every contract up to
  `Scsi.Command` and `Reads.ReadChunked` carries).
- `Device.lateErrors`: CBWs taken whole although libusb reported an error other than a
  timeout. Only those can add a delivery to the ones the host knows of.
- `Bot.Honest`, of an exchange on the log: the read either moved the disc's own bytes only, or
  padded a transfer that was short on the wire and said so in its residue.
  `Bot.PaddingNeverCounted` shows that this is exactly what the residue rule needs.
- `Reads.Faithful`, of the commands of one read: the transactions of theirs that passed are
  honest and were not defied. Nothing is asked of any other exchange on the handle.
- `Within`: the oldest CBW whose packets or CSW the device still holds or owes.
- `Device.life`: how many bus transfers the device still answers before it leaves the bus.
  It is any number and bounds no answer; it is why the retry loop, as a method, ends. What
  bounds it on a device that never leaves is `Retry.RoundsBounded`, by the becoming-ready
  episodes, and `Retry.AlternationNeverEnds` shows that nothing bounds those.

## Where the code differs from what is said of it

- `src/scsi.c:1014-1025` says that 28h/00h is retried "once only". A later 02h/04h raises the
  flag again, and neither spends an attempt. It is true exactly of the commands that must not
  be repeated: `Retry.OnceOnlyExactly`, an equivalence.
- `src/scsi.c:1085-1097` stops a command that must not be sent twice, and is not enough in two
  cases. The 28h/00h retry comes before it, so it may be delivered twice with `not_ready`
  raised; and `src/bot.c:176-193` calls a CBW not sent although all 31 bytes arrived, when
  libusb reports an error other than a timeout (`Bot.LateErrorDeliversTwice`). There is no
  third: `Retry.OnceExactly`, an equivalence.
- `src/scsi.c:378` says that LOEJ never goes out with the tray open; the ladder does not look
  at the sense qualifier: `SpinUp.LoadIsIssued`.
- `src/scsi.c:899` tests `device_gone` before queueing and never again:
  `ThreadRuns.GoneUnseenInTheQueue`, and `ThreadRuns.WhoStillSends` says exactly who may still send.
- `src/registry.c:640-643` says that a thread queued on `io_lock` sees the cancellation and does
  not touch libusb. That holds of commands. `src/scsi.c:638-654` tests `cancelled` before it
  queues and never again, and `src/scsi.c:507` takes `io_lock` without a test, so a wait for the
  drive may send on the closed handle while the entry is still registered:
  `ThreadRuns.SettleSendsOnTheClosedHandle`, and `ThreadRuns.WhoSendsOnTheClosedHandle` says
  exactly which threads can.
- `src/registry.c:593-603` answers a timeout without looking at `css_open`:
  `ThreadRuns.TimeoutUnseen`. `ThreadRuns.TimeoutTellsTruth` says of every run when the
  answer is untrue, and when the session it blames is the one the begin met.
- `src/scsi.c:1371-1376` lays the size that is kept to the bridge, since a scratch inside the range
  that failed would fail the smaller reads too. One just behind the range may do it as well, since
  the smaller commands may reach past its end: `Chunks.ScratchBehindTheRange`, and
  `Chunks.KeptCapIsLarge` says what else bounds the cap from below.
- `src/disc.c:315` wraps for a directory length within 2047 bytes of 2^32: `Iso.SectorsWrap`.
- `src/registry.c:643-645` leaves use of a freed slot to the caller;
  `ThreadRuns.FreedSlotIsTheCallersBusiness` shows what happens then.

## Model

| member | source | states |
|---|---|---|
| UsbDevice.SendCbwSound | src/bot.c:157-193 | whatever the device does with the 31 bytes of a CBW, it is taken as a command at most once, and exactly once when all of it went through to a device in step with the host |
| UsbDevice.ReadInSound | src/bot.c:198-278 | a Bulk-In transfer in the middle of a command reads only packets sent for that command, in order, and leaves nothing behind a CSW it swallowed |
| UsbDevice.RecoverSound | src/usb.c:177-195 | whatever state the device is in, a Reset Recovery leaves both pipes clean and the device waiting for a CBW, unless a request of it went unanswered; one answered in full makes up for all that went unanswered before |
| Bot.PaddingNeverCounted | src/bot.c:353-371 | padding is never counted as data if and only if the transfer carries genuine bytes only, or is short on the wire and its residue disowns the rest |
| Bot.CountedIsGenuine | src/bot.c:353-371 | against such a transfer, what is counted is a prefix of what was asked for |
| Bot.CommandPhase | src/bot.c:157-193 | the transfer of the CBW is on the log as libusb answered it; the phase goes on if and only if all 31 bytes went out, reports the device gone if and only if libusb did, and otherwise resets the device exactly when part of the CBW went out or Bulk-Out stalled |
| Bot.Deposit | src/bot.c:198-201 | a transfer changes the caller's buffer at its offset and nowhere else |
| Bot.DataPhase | src/bot.c:195-255 | by the one transfer it logs, the data phase goes on to the CSW if and only if that succeeded, stalled, or timed out complete; then both halts are clear, what arrived is what the device pushed for this CBW and lies in the buffer, and a swallowed CSW leaves the pipe empty |
| Bot.ReadCsw | src/bot.c:256-278 | one stall before the CSW is cleared and the read repeated, both reads on the log; a second stall is the device's own, not the first one left standing |
| Bot.StatusPhase | src/bot.c:256-324 | the status reported is that of the packet the last logged transfer took off the pipe, if that is a whole CSW with the right signature and tag, and else none; the phase ends well if and only if it is also no Phase Error; a Phase Error that was not reset would leave the device out of step; and the status was sent for this CBW unless the device holds one of 2^32 commands ago |
| Bot.CodeIsByWire | src/bot.c:157-375 | read off the raw transfers in the order of the protocol, bytes, signature, tag, residue and status by their numbers: which code a transaction gives, and that a Reset Recovery comes exactly after a CBW sent in part or stalled, a disputed end of the data phase, and a CSW that is invalid or of status 02h |
| Bot.Send | src/bot.c:121-378 | one exchange more on the log, in the order of the protocol; each return code is given if and only if its condition on those transfers holds, a Phase Error with its Reset Recovery included; every return leaves the device in step with the host, gone or defiant; a Reset Recovery is the last bus action exactly where one is due, once, and there is none elsewhere; the data counted is what the data phase took off the pipe, pushed for this very CBW unless a request was unanswered before it, and for a read the disc's; the buffer outside the request stays |
| Bot.RunResynchronises | src/bot.c:113-378 | over any run of transactions on a device that starts in step, it is in step after each one or gone or defiant, recoveries are exactly those called for, and no CBW is taken twice |
| Bot.RecoveryRestoresStep | src/bot.c:171-324 | over any run on any device, halts, queues and unanswered requests at its start included: from the first Reset Recovery on, the device is in step after each transaction or gone, or has a request unanswered that no recovery has made up for since |
| Bot.NoForeignStatus | src/bot.c:148-314 | over any run that stays within 2^32 commands of the oldest one the device remembers, defiant or not and whatever CSWs are queued, every status reported is that of the CBW it was asked for |
| Bot.TagReaches | src/bot.c:296-314 | a CSW that was held back is accepted as another command's if and only if that is a multiple of 2^32 commands ago |
| Bot.LateErrorDeliversTwice | src/bot.c:176-193 | a CBW that arrives whole while libusb reports an error is called not sent and followed by a Reset Recovery; the same command, sent again, is then taken twice |
| Exchanges.DeliveriesAreTaken | src/bot.c:148-157 | the CBWs for a command among those the device took since some CBW are those the log since then marks as taken |
| Records.DeliveredIsTaken | src/scsi.c:954-998 | counted in rounds of the policy or in CBWs on the log, deliveries of a command are the same |
| Discs.CdbRoundTrip | src/scsi.c:1499-1542 | the CDBs of READ(10) and READ CD decode to the LBA always, and to the block count if and only if it fits 16 or 24 bits |
| Css.HandshakeChangesState | src/registry.c:509-540 | of the key commands a host may issue, whatever the grant id, exactly the steps of the handshake, the AGID requests and the structures past the first two change the authentication state |
| Records.SenseReadsBack | src/scsi.c:810-829 | fixed-format sense data laid out with any other bytes reads back as the key, code and qualifier the drive reported |
| Records.ShortSenseSaysNothing | src/scsi.c:816-823 | a REQUEST SENSE that failed or counts fewer than 14 bytes says nothing, whatever is in the buffer |
| Retry.NeverSentIsCounted | src/scsi.c:937-1124 | while the loop goes on, attempts whose CBW never left are fewer than attempts made, and every pass is a counted attempt, a wait or an immediate retry |
| Retry.AtMostOnce | src/scsi.c:937-1097 | a command that must not be repeated is taken by the drive at most once, or twice if 28h/00h answered it while the drive counted as not ready, and besides only when libusb reports the failure of a CBW that arrived |
| Retry.OnceExactly | src/scsi.c:1011-1097 | of all runs, it is taken at most once if and only if the drive does not start out not ready and libusb reports no failure of a CBW that arrived |
| Retry.TallyWhileGoing | src/scsi.c:1099-1117 | at most 60 waits per becoming-ready episode, and at most one immediate retry per episode and one for an initial not-ready |
| Retry.RoundsBounded | src/scsi.c:937-1140 | with a clock that advances by each sleep, at most 6 counted attempts plus 61 passes per becoming-ready episode, plus one for an initial not-ready |
| Retry.AlternationNeverEnds | src/scsi.c:1011-1117 | a drive that alternates 02h/04h and 28h/00h keeps the loop going for any number of passes on its first attempt, every second one an immediate retry |
| Retry.OnceOnlyExactly | src/scsi.c:1011-1117 | 28h/00h is retried at once at most once in every run if and only if the command must not be repeated |
| Retry.StatusHasEvidence | src/scsi.c:956-1182 | every status is backed by the code and sense of the last attempt; NO_DEVICE at the end of the budget means that all six counted attempts failed before the CBW left, and IO that at least one was sent and, of a repeatable command, that all six were spent |
| Retry.SenseDecides | src/scsi.c:1000-1117 | for every sense a drive can report, by its numbers: which ends a command and as what, which is waited out for thirty seconds, which is retried at once, and which spends one of six attempts |
| Scsi.RequestSense | src/scsi.c:810-829 | exactly one REQUEST SENSE goes on the log, and the sense is read from the bytes its data phase took off the pipe, or none |
| Scsi.Attempt | src/scsi.c:954-998 | one CBW with the command, then a REQUEST SENSE exactly after a CSW of status 01h, and nothing else on the log; code and sense are theirs; the drive took a CBW called not sent only if libusb reported the failure of one that arrived |
| Scsi.AfterFailure | src/scsi.c:1000-1140 | the order of the tests is the retry policy; a wait and a counted retry but for an event come after a full sleep; and not_ready is lowered by an immediate retry alone |
| Scsi.OneRound | src/scsi.c:937-1140 | one pass of the loop logs one attempt, and its code, sense and delivery are the round that the policy judges; device_gone is raised if and only if that ends in NO_DEVICE |
| Scsi.Pass | src/scsi.c:942-949 | no attempt follows once cancelled is seen; otherwise one round more, in the history and on the log |
| Scsi.RetryLoop | src/scsi.c:937-1140 | however it goes, the log since the start is the rounds, and the loop ended as the policy has it for them, or cancelled between two of them; not_ready is lowered by the first immediate retry among them and by nothing else |
| Scsi.Attempts | src/scsi.c:903-1186 | the status after the loop rests on the rounds: its evidence is the last of them, and there are no more than the becoming-ready episodes account for; device_gone is raised with NO_DEVICE, also when no CBW of any attempt ever left, and with no other status |
| Scsi.Command | src/scsi.c:836-1186 | refusals send nothing and are given exactly for their reasons; once cancelled or gone, nothing is sent; otherwise the log since is the rounds and nothing else, the status is the policy's verdict on them with its evidence in the last, their number is bounded by the becoming-ready episodes, device_gone is raised with NO_DEVICE and never else, not_ready is lowered by the first immediate retry and never raised, a command that must not be repeated was taken by the device once (twice on a drive not ready, and once more for each late libusb error), and the data of any data-in command is what its last transaction read, for that very CBW and of a read the disc's, whatever failed before it, unless the device was left defiant; a device that owed no answer and leaves none unanswered is not, at any of its transactions |
| Scsi.SenseIsReported | src/scsi.c:974-1083 | from the sense data on the wire to the caller: no disc, whatever its qualifier, is MEDIA_GONE, a scrambled sector and an unknown opcode are told apart, and a medium error is IO after six attempts |
| SpinUp.StartStopUnit | src/scsi.c:287-315 | the CDB of the wanted shape goes out, followed by a REQUEST SENSE exactly after CHECK CONDITION, and the answer is the status and sense of those exchanges |
| SpinUp.SpinUpDrive | src/scsi.c:382-425 | what it logs is these requests with these answers and nothing else: the plain request, once more after a UNIT ATTENTION, then at most one other shape chosen by the last plain answer |
| SpinUp.LoadIsIssued | src/scsi.c:382-425 | by the bytes on the log: every START STOP UNIT has START set and the first IMMED too and LOEJ not; one has LOEJ set if and only if the last plain request met a refusal that is none of three (05h/20h, 02h/04h, 05h/24h), an open tray included; one has IMMED clear if and only if it met the third; the plain request is repeated after a UNIT ATTENTION |
| SpinUp.WaitEnds | src/scsi.c:515-627 | by the numbers of the senses and the clock: an open tray ends a wait at once, a missing medium after four seconds, and anything but one of four events after fifteen seconds, or thirty once the drive has said that it is becoming ready |
| SpinUp.Weigh | src/scsi.c:565-627 | by the clock it read, a failed poll ends the wait if and only if the tray is open or a ceiling reached, is repeated at once if and only if it is one of the first four UNIT ATTENTIONs, and else after a full sleep |
| SpinUp.WaitIsBounded | src/scsi.c:515-627 | whatever the drive answers, a wait that goes on has polled at most four times at once and as often as its ceiling holds half seconds, 64 times in all |
| SpinUp.WaitUntilReady | src/scsi.c:497-633 | the log since is the ladder, then polls, each when it was due, and the media-status query if it gave up without a medium; it ends at the first poll that leaves nothing to wait for, by the code and sense of that poll and the clock; and not_ready is down if and only if the last TEST UNIT READY passed |
| SpinUp.Settle | src/scsi.c:638-654 | nothing is sent once cancelled or gone; otherwise one TEST UNIT READY, and if and only if the drive answered that it is not ready all that follows on the log is the ladder, the due polls up to the first that leaves nothing to wait for, and the media-status query; a drive that is ready leaves not_ready as it was, else it is down if and only if the last poll passed |
| Chunks.ChunkIsQuotient | src/scsi.c:1414-1431 | a command asks for as many whole blocks as cap and trial size leave room for, at least one and no more than are left |
| Chunks.AnswerIsWhatArrived | src/scsi.c:1443-1496 | MEDIA_GONE, NO_DEVICE and CANCELLED are answered whatever was read before; otherwise the answer is the number of whole blocks that arrived, and a failure, of the last command, only if there are none |
| Chunks.StepDecreases | src/scsi.c:1413-1496 | every command lowers (blocks left, effective cap), even while other threads shrink the cap |
| Chunks.FailuresLowerTheLevel | src/scsi.c:1449-1464 | after k failures no transfer above 64, 32, 16 or 8 KiB can still be halved |
| Chunks.FourFailuresAtMost | src/scsi.c:1413-1496 | one read issues at most four failing commands, however large it is |
| Chunks.TrialInProgress | src/scsi.c:1452-1464 | while a size is being tried, some command of a larger size failed on the range, and every command since was smaller |
| Chunks.TrialIsHalf | src/scsi.c:1456-1464 | the size being tried is half of the command that failed last, but not below 8192 bytes, and everything since was read |
| Chunks.KeptForCause | src/scsi.c:1488-1493 | the cap is lowered, to at least 8192, only after a range that failed at F bytes was read whole in transfers smaller than F, and to less than F |
| Chunks.TriedSizeFits | src/scsi.c:1416-1464 | on a bridge of some limit the first command after a halving is full size, so a size that gets through fits the bridge |
| Chunks.KeptCapFits | src/scsi.c:1488-1493 | on such a bridge a cap kept never produces too large a command again for that block size |
| Chunks.KeptWhenRead | src/scsi.c:1488-1493 | the size is kept if and only if all that the failed command asked for has been read since |
| Chunks.KeptCapIsLarge | src/scsi.c:1452-1464 | on a bridge of some limit a cap kept is 8192 or at least half of that limit, unless the command that failed last covered a defect |
| Chunks.ScratchBehindTheRange | src/scsi.c:1414-1493 | such a read is built step by step: a scratch just behind the range that failed holds the device to 8192 bytes |
| Chunks.DoneIsClean | src/scsi.c:1488-1496 | blocks done are blocks without a defect |
| Chunks.StopsOnlyNearDefect | src/scsi.c:1413-1497 | on a bridge that fails exactly what is too large or covers a bad block, all blocks are read if and only if all are good; otherwise the good ones up to less than 8192 bytes before a bad one, or IO if a bad one lies in the first 8192 bytes |
| Reads.LowerTransferCap | src/scsi.c:1328-1346 | the cap only ever goes down, and stays within its bounds |
| Reads.HoldsAll | src/scsi.c:1438-1441 | a buffer holds the blocks one by one if and only if its bytes are those of the range |
| Reads.JoinBlocks | src/scsi.c:1438-1488 | whole blocks that arrive right behind those read join them |
| Reads.NextChunk | src/scsi.c:1414-1431 | the next command is sized by the cap found now and the size being tried, is never empty and stays inside the request |
| Reads.ReadChunk | src/scsi.c:1435-1441 | one command for the chunk's blocks, on the log with the rounds its status rests on; blocks read before stay, and what arrives joins them, if its transactions that passed are honest and were not defied |
| Reads.Issue | src/scsi.c:1414-1441 | one command of the read, sized by the cap found now and backed by the log, behind whatever other threads sent; it keeps the blocks read and adds those that arrived |
| Reads.AfterCommand | src/scsi.c:1443-1493 | what the result leads to is the negotiation's step, and the cap kept is what the step keeps |
| Reads.Turn | src/scsi.c:1413-1494 | one turn adds one command that the log backs, leaves the cap that the commands so far make the negotiation keep, keeps the buffer faithful and lowers the measure, or ends with an answer that is never 0 blocks |
| Reads.ReadChunked | src/scsi.c:1392-1497 | the read ends if each of its commands does; every command it took is on the log, in order, for the chunk the negotiation asks for at that point, with the status and count recorded; it answers MEDIA_GONE, NO_DEVICE or CANCELLED if and only if the last one did, whatever was read before, and otherwise what arrived, and the cap it leaves is the one they make it keep (so Chunks.KeptForCause and Chunks.KeptCapFits hold of it); and when it answers n > 0 blocks, n is at most what was asked for and, whatever failed, stalled or was retried on the way, the buffer starts with exactly blocks lba to lba + n - 1 of the disc if its transactions that passed are honest and were not defied, as none was on a device that owed no answer before the read and left no request unanswered during it |
| Reads.SincereIsFaithful | src/scsi.c:1413-1494 | on a device that owed no answer before the read and left no request unanswered during it, by whichever thread, no transaction of the read was defied: honesty is all that is assumed of it |
| Registry.Table.Lookup | src/registry.c:150-166 | the first published entry of the token, or none |
| Registry.Table.ReserveSlot | src/registry.c:194-218 | the first free slot, zeroed but for its token; none if and only if the token is published or the table full |
| Registry.Table.MakeCondition | src/registry.c:306-324 | whichever call fails, the attributes are destroyed again |
| Registry.Table.SetUpDevice | src/registry.c:365-460 | everything from the open handle to publication, with what is held at each way out, and one reset of the device exactly once its interface is claimed |
| Registry.Table.Unwind | src/registry.c:467-486 | from any label, everything held is given back in reverse order, once, and a driver that was taken off is offered back once |
| Registry.Table.Register | src/registry.c:272-487 | for every point of failure the table and the ledger are as before, and a declined device that was detached is offered back exactly once |
| Registry.Table.Acquire | src/registry.c:695-734 | a claim on a published entry is refused if and only if its descriptor no longer names its device; a refusal changes nothing; any other claim publishes a device that holds the whole ladder |
| Registry.Table.Teardown | src/registry.c:646-675 | everything is given back in reverse order, and a device known to be gone is not reset |
| Registry.Table.Release | src/registry.c:736-775 | the last claim empties slot and ledger, any other only lowers its count; an unknown token changes nothing; a published entry without a claim does not occur |
| Registry.Serve | src/registry.c:695-775 | over any run of claims and releases by any threads, with devices lost, caps lowered and descriptors recycled in between: each call changes table, ledger, kernel driver and history as it should and nothing else does; a release counts exactly while the token is claimed, an entry is published if and only if acquires outnumber releases, and what is held is exactly the ladders of published entries |
| Registry.RecycledIsRefused | src/registry.c:281-287 | over any run: of an entry registered under a descriptor that named some device, and published ever since, a later claim is denied if and only if the descriptor no longer names that device; one that could not be told is never denied |
| Registry.FirstClaim | src/registry.c:714-726 | a first claim keeps the table consistent with the history of claims |
| Registry.LastClaim | src/registry.c:756-774 | so does giving back the last one |
| Threads.ApplyKeepsInv | src/registry.c:498-506 | every step of every thread keeps both locks exclusive, the life of the entry in order and sessions bracketed |
| Threads.EveryReachableState | src/registry.c:636-675 | in every interleaving up to the freeing of the slot: no command and no teardown sends on a closed handle, no CSS command is sent unless a session was open when checked, and the session flag is up exactly while it is owned |
| ThreadRuns.AtMostOneMoreAttempt | src/scsi.c:942-949 | once cancelled is up, a thread makes at most one more attempt at a command, and only if it was past the check |
| ThreadRuns.StopsTheRest | src/scsi.c:893-949 | over every run, a thread that is not free to send when device_gone or cancelled is raised sends nothing |
| ThreadRuns.WhoStillSends | src/scsi.c:638-654 | once device_gone or cancelled is raised, some run in which a thread sends exists if and only if it is in a command past the test of device_gone that the cancellation does not stop, or in a settle call past its two tests |
| ThreadRuns.WhoSendsOnTheClosedHandle | src/registry.c:636-659 | of the closed handle, before the slot is free: some run in which a thread sends on it exists if and only if the thread is in a settle call past its two tests |
| ThreadRuns.SettleSendsOnTheClosedHandle | src/scsi.c:638-654 | such a state is reached: the drive is waited for on the handle that the last release closed |
| ThreadRuns.GoneUnseenInTheQueue | src/scsi.c:899-903 | a state is reached in which the device was found gone and a queued command may still send |
| ThreadRuns.FreedSlotIsTheCallersBusiness | src/registry.c:643-645 | after the slot is freed, a command still queued sends on the closed handle |
| ThreadRuns.LatecomersStayOut | src/scsi.c:893-897 | over every run, a call that comes to its test after the cancellation never queues for io_lock |
| ThreadRuns.LostIsTheLast | src/scsi.c:977-986 | over every run, the attempt that finds the device gone is the last thing its thread sends |
| ThreadRuns.GoneIsNotReset | src/registry.c:646-659 | over every run, no teardown resets a device found gone |
| ThreadRuns.LastClaimTakesDown | src/registry.c:736-775 | in every reachable state a teardown is under way if and only if the first claim and all made since are given back, and nothing is cancelled before |
| ThreadRuns.SessionsExclude | src/registry.c:565-634 | between the beginnings of two sessions lies the end of the first, by its own owner |
| ThreadRuns.BeginMeans | src/registry.c:567-609 | NULL and an owner who has the session are turned away and change nothing, so nobody waits for himself; a free session is opened; only another's is waited for |
| ThreadRuns.OnlyItsOwnerEndsIt | src/registry.c:565-634 | over every run from an open session, whatever else begins, fails to begin, times out or ends in it: the session is over if and only if an end by its owner is among the steps, and until then it is open, its owner's, and the only one |
| ThreadRuns.TimeoutTellsTruth | src/registry.c:587-603 | over every run from where a begin met an open session to where it times out, it fails with IO; it would have been let in had it looked if and only if the last session event is an end that came during the run; and the session it met is the one still open, leaked, if and only if no end by that session's owner is among the steps |
| ThreadRuns.TimeoutUnseen | src/registry.c:587-603 | a state is reached in which it is not: the begin that times out fails although it would succeed if it looked |
| ThreadRuns.EveryCallCanFinish | src/registry.c:498-506 | no deadlock and no dead end: from every reachable state, for every thread, waiting for io_lock, for g_registry_lock, for a session or for nothing, some run brings its call to its end or frees the slot |
| ThreadRuns.OvertakenInTheQueue | src/scsi.c:903 | no bound on the steps of other threads holds for it: for every n, a run in which a command waits for io_lock while n others go through with it, one after the other, the lock free in between |
| IsoRecords.NamedMeans | src/disc.c:278-303 | a name is the one wanted if and only if both agree but for the case of ASCII letters up to the end or the first semicolon |
| IsoRecords.RecordLayout | src/disc.c:241-248 | the fields of a record stand where ECMA-119 has them, numbers low byte first |
| IsoRecords.RecordReadsBack | src/disc.c:329-355 | a record laid out as ECMA-119 has it reads back field by field |
| IsoRecords.ScanFindsFirst | src/disc.c:324-359 | the scan of a sector finds the first record of the wanted kind and name, or nothing if there is none |
| IsoRecords.FirstIs | src/disc.c:345-352 | what the walk is measured against is the first record of that name that is a directory, or a file, as wanted |
| IsoRecords.MasteredIsLaidOut | src/disc.c:329-338 | any records that fit can be laid out so |
| Iso.NameMatches | src/disc.c:278-303 | names are compared without case and without their version |
| Iso.ScanSector | src/disc.c:324-359 | every access stays in the sector, the scan ends, on any bytes, and finds what the specification of the scan finds |
| Iso.FindChild | src/disc.c:311-363 | the walk over a directory, in 32-bit arithmetic and under its ceiling |
| Iso.SectorsWrap | src/disc.c:315-317 | the sector count is the true one, up to four, if and only if the length is at most 2^32 - 2048 |
| Iso.UnreadableEndsTheWalk | src/disc.c:319-323 | a sector that cannot be read ends the walk |
| Iso.ChildIsFound | src/disc.c:305-363 | on any directory laid out within four sectors, the extent of the first wanted record, or nothing if there is none |
| Iso.DetectIsoVideo | src/disc.c:402-476 | the verdict, and the label trimmed of blanks, refused whole unless printable ASCII, terminated inside the buffer |
| Iso.VerdictIsTrue | src/disc.c:402-456 | on a disc with a descriptor 16 sectors into the track, byte by byte, the verdict is Video CD if and only if VCD/INFO.VCD exists and opens with VIDEO_CD, and Super Video CD if and only if SVCD/INFO.SVD opens with SUPERVCD and the former does not; and the label is that of the descriptor |
| Iso.NothingWithoutDescriptor | src/disc.c:402-416 | without a readable sector that begins with 1 and CD001 and has a root, there is no verdict |
| Iso.LabelMeans | src/disc.c:458-473 | the label is what stands before the spaces and zeros at the end of the field, or nothing if any byte of that is not printable |
| Label.TextIsWellFormed | src/disc.c:77-80 | text in any script, encoded as RFC 3629 has it, is well formed |
| Label.PrefixWellFormed | src/disc.c:81-94 | a prefix of well-formed UTF-8 is well formed if and only if the byte behind it does not continue a character |
| Label.CutIsLongest | src/disc.c:81-94 | the label kept is the longest well-formed prefix of at most 32 bytes |
| Label.CopyVolumeId | src/disc.c:81-94 | the copy is that prefix, terminated inside 33 bytes |

## Left out

- Logging, the flags that log a quirk once, and throughput sampling: no effect on results. The media-status query is issued as the source does, and its answer is for the log alone.
- Timeout lengths, and real time beyond a clock that advances by at least each sleep.
- The packed layout of CBW and CSW; the bytes of the CDBs are modelled, as the drive reads those.
- libusb, pthread and fstat beyond the outcomes of their calls; memory ordering of the unlocked reads of `cancelled` and `device_gone`, taken as atomic steps.
- The UDF probe (`src/disc.c:147-218`), a thin walk over a library that is not part of this model.
- The LUN probe (`src/scsi.c:712-806`): its verdict is any of the four in `Registry`; that it answers NO_ANSWER whenever unit 0 is silent and no other says CD/DVD is not stated.
- READ TOC, GET CONFIGURATION, region and profile helpers, token parsing and the endpoint scan: they add only easy members.
- A medium swapped in the middle of a read: the disc of an entry stays the same.
- The 32-bit width of `refs`: claims are counted without a bound.
- Registry.Table.Register: does not model the commands that set the device up; those are `SpinUp` and the left-out LUN probe, here a free outcome.
- Threads.ApplyKeepsInv: covers one entry between its publication and the freeing of its slot; registration and the table are `Registry`, and a thread that lowers the transfer cap, which holds `io_lock` and sends nothing, is not among the threads.
- ThreadRuns.EveryCallCanFinish: says that some schedule brings a call to its end. No schedule bound is stated: a mutex promises no order, and `ThreadRuns.OvertakenInTheQueue` shows that without one there is none; a waiting begin may be woken for no reason any number of times.
- Reads.ReadChunked: does not model another thread changing the cap in the middle of a command; it does so between commands, with the same result.
