# Verified model of the low-latency LTE testbed

A Dafny model of the parts of the repository that carry most of its logic, with proofs about every
input, run or interleaving:

* **Downlink transport block** (`eNB_scheduler_dlsch.c`). `RlcUmd` reads UMD PDUs the way a receiver
  does; `RlcHeader`, `RlcMeaning` and `RlcMerge` rebuild several of them into one; `DlGather` and `DlGates` poll the
  bearers; `RlcReassembly`, `DlStream` and `DlExact` follow the data through whole runs, from the bearers to what
  the UE reads on air; `RlcFailures` and `DlFailures` hold failing inputs;
  `MacHeader` and `MacPdu` print and read the MAC header; `RbSearch` sizes the block; `TransportBlock`
  and `Scheduler` put one pass together, which `DlJoin` ties to the runs; `Harq`,
  `PowerControl` and `InterSlice` model the state around it.
* **ITTI message bus** (`intertask_interface.cpp`). `IttiBus` is a state machine with the source's
  lock, insert, eventfd and sleep steps; `IttiWakeup`, `IttiTokens` and `IttiMirror` prove it never loses a
  wake-up, a token or a message; `IttiTimers` and `IttiTimerRuns` model the timers.
* **TEID path** (`icm.c`, `packet_terminal.h`). `TeidMap` and `PacketTerminal`.
* **E-RAB setup messages** (`drb.c`). `ERabBuilder`.

Code that updates buffers, lists or fields in place is modelled by methods on arrays and by classes, each
proved against a specification function; protocols with several threads are state machines. `Bytes` holds
what all modules share. `dafny verify dfyconfig.toml` checks everything.

## Where the code falls short of what it is for

The members named prove these, with the exact condition where one exists:

* The merge writes outside its 100-octet header buffer if and only if a block has no data field or more
  than 65 (`RlcMerge.MergeBlock`, `RlcFailures.TooManyFields`, `RlcFailures.NoFieldAtAll`, lines 1546 and 1606-1681).
* A data field of 2048 octets or more cannot be held by the rebuilt header unless it is the last one and does not
  carry into the length before it (`RlcMeaning.MergeMeaning`, `RlcFailures.LongLastField`,
  `RlcFailures.LongFirstField`, `DlFailures.LongSduSpoiled`, line 1629). Lengths under 2048 are always read back.
* With signalling data in the block its octets are counted twice (lines 1714 and 1717,
  `RlcFailures.SignallingExact`, `RlcFailures.SignallingCountedTwice`), and the UE finds as many zeros behind the
  last data field (`Scheduler.UeGetsSignalling`).
* FI is read from a stale octet if and only if RLC returns no octet for the last bearer polled (line 1576,
  `RlcFailures.LastFiExact`, `RlcFailures.StaleFi`).
* The header length is not recomputed after the merge. When at most two octets are spare and several PDUs
  were merged, the UE takes the unused octets as part of the last data field (`TransportBlock.UeReads`,
  `DlFailures.TwoPdusSpoiled`, lines 1719-1722), on dedicated bearers too (`DlFailures.DedicatedBearersSpoiled`).
* The default bearer is never moved ahead in the poll order (line 1313), so its unfinished SDU can be joined
  to another bearer's (`DlFailures.DefaultBearerMixes`). `DlExact.RunExact` and `DlExact.DeliveryExact` say exactly
  when these and unrepresentable lengths spoil a run; two of them in one block can cancel
  (`DlFailures.TwoWrongsCancel`).
* `timer_setup` looks for a free id before it takes the lock (lines 401-420), so two threads can choose the
  same one, and the first timer is lost (`IttiTimerRuns.ClashHappens`, `IttiTimerRuns.ClashLosesTimer`);
  if no id is chosen twice at a time this does not happen (`IttiTimerRuns.FreshRunsAreFree`).
* The scan erases a map element and then increments the same iterator (lines 223-245), which C++ does not
  define: exactly when a one-shot has expired (`IttiTimers.TimerTask.Scan`, `IttiTimerRuns.DefinedExactly`,
  `IttiTimerRuns.OneShotIsUndefined`). What is proved beyond that is for a loop that goes on with the next timer.
* Before the first TEID the terminal writes an uninitialised table entry into packets from the three ports
  (`TeidMap.OnePacket`, `TeidMap.UninitialisedEntry`).
* The second and third E-RAB message reuse the outer lengths of the first, which is right if and only if
  their NAS messages are as long (`ERabBuilder.MessageRoundTrip`, `ERabBuilder.ShorterSecondMessage`).

## Model

| member | source | states |
|---|---|---|
| `RlcUmd.ParseSound` | openairinterface5g/openair2/LAYER2/MAC/eNB_scheduler_dlsch.c:1585-1636 | a UMD PDU read by the independent 4-bit-stream parser of section 6.2.1.3 of TS 36.322 is exactly header plus data, its fields are non-empty and all but the last have the length their LI gives |
| `RlcUmd.SplitConcat` | openairinterface5g/openair2/LAYER2/MAC/eNB_scheduler_dlsch.c:1619-1636 | cutting concatenated fields at their own lengths gives the fields back |
| `RlcUmd.ChainSound` | openairinterface5g/openair2/LAYER2/MAC/eNB_scheduler_dlsch.c:1590-1603 | the E chain lists the 11-bit LI of consecutive 12-bit fields up to the first with E clear |
| `RlcHeader.PutAllReadsBack` | openairinterface5g/openair2/LAYER2/MAC/eNB_scheduler_dlsch.c:1606-1617 | E/LI entries written alternately octet-aligned and half-octet-aligned, each over the half left by the one before, are all read back with E set when the lengths are under 2048 |
| `RlcHeader.DropEven` | openairinterface5g/openair2/LAYER2/MAC/eNB_scheduler_dlsch.c:1667-1672 | with an even count, taking out the last entry closes the chain at the entry before it, whose length is read plus the carry of a last length of 2048 or more |
| `RlcHeader.DropOdd` | openairinterface5g/openair2/LAYER2/MAC/eNB_scheduler_dlsch.c:1673-1681 | with an odd count, taking out the last entry closes the chain at the entry before it and leaves every length as it was |
| `RlcMeaning.MergeMeaning` | openairinterface5g/openair2/LAYER2/MAC/eNB_scheduler_dlsch.c:1573-1709 | main result: a receiver reads the merged PDU as the announced FI and SN and all data fields, whole, in order and nothing else, if and only if the lengths are representable |
| `RlcMeaning.RepresentableReadsBack` | openairinterface5g/openair2/LAYER2/MAC/eNB_scheduler_dlsch.c:1573-1709 | representable lengths: the merged PDU parses to exactly the fields |
| `RlcMeaning.LengthsOnlyIfRepresentable` | openairinterface5g/openair2/LAYER2/MAC/eNB_scheduler_dlsch.c:1606-1681 | even if only the lengths of all fields but the last are read back, from a merged PDU with any octets behind it, the lengths are representable |
| `RlcMeaning.ReadsBackOnlyIfRepresentable` | openairinterface5g/openair2/LAYER2/MAC/eNB_scheduler_dlsch.c:1606-1681 | whatever parses to exactly the fields had all lengths but the last under 2048 and no carry into the entry before the last |
| `RlcMeaning.ShortIsRepresentable` | openairinterface5g/openair2/LAYER2/MAC/eNB_scheduler_dlsch.c:1606-1616 | fields under 2048 octets, up to 65 of them, are always representable |
| `RlcMeaning.HeadersShrink` | openairinterface5g/openair2/LAYER2/MAC/eNB_scheduler_dlsch.c:1573-1681 | the headers of the merged PDUs are together at least as long as the one that replaces them |
| `RlcMeaning.MergeNeverGrows` | openairinterface5g/openair2/LAYER2/MAC/eNB_scheduler_dlsch.c:1448-1717 | the merged PDU is never longer than the PDUs it replaces, so the size chosen before the merge is large enough |
| `RlcMeaning.MergeOfOne` | openairinterface5g/openair2/LAYER2/MAC/eNB_scheduler_dlsch.c:1638-1717 | merging a single PDU keeps its length and its fields |
| `RlcMerge.ReadField` | openairinterface5g/openair2/LAYER2/MAC/eNB_scheduler_dlsch.c:1591-1602 | the two-way reading of an E/LI field in place equals the field of the 4-bit stream |
| `RlcMerge.WriteLi` | openairinterface5g/openair2/LAYER2/MAC/eNB_scheduler_dlsch.c:1606-1617 | one entry goes into the 100-octet header buffer with `unsigned char` truncation, unless the buffer is full, which is exactly at the 66th field |
| `RlcMerge.CopyLis` | openairinterface5g/openair2/LAYER2/MAC/eNB_scheduler_dlsch.c:1586-1618 | the E-bit loop appends exactly the PDU's length indicators to the header and sums them up, for both parities at the start |
| `RlcMerge.CopyPdu` | openairinterface5g/openair2/LAYER2/MAC/eNB_scheduler_dlsch.c:1575-1659 | one PDU: the header gains the lengths of all its fields (the last one by subtraction), the data buffer gains their octets in order |
| `RlcMerge.CopySrbs` | openairinterface5g/openair2/LAYER2/MAC/eNB_scheduler_dlsch.c:1557-1567 | signalling SDUs move to the front of the new buffer unchanged |
| `RlcMerge.CopyPdus` | openairinterface5g/openair2/LAYER2/MAC/eNB_scheduler_dlsch.c:1571-1663 | the loop over all PDUs, empty ones skipped, gathers exactly all their fields; it leaves its header buffer exactly with more than 65 fields; FI comes from where the last SDU starts |
| `RlcMerge.TrimHeader` | openairinterface5g/openair2/LAYER2/MAC/eNB_scheduler_dlsch.c:1665-1681 | the last entry is taken out in place; with no field at all the source would write before its buffer |
| `RlcMerge.WriteFixedPart` | openairinterface5g/openair2/LAYER2/MAC/eNB_scheduler_dlsch.c:1697-1703 | FI, E and SN go into the first two octets |
| `RlcMerge.PrependHeader` | openairinterface5g/openair2/LAYER2/MAC/eNB_scheduler_dlsch.c:1705-1707 | header in front of the data, behind the signalling SDUs; the overlapping copy is a move |
| `RlcMerge.Replace` | openairinterface5g/openair2/LAYER2/MAC/eNB_scheduler_dlsch.c:1708-1709 | the block buffer is cleared and takes the merged block |
| `RlcMerge.MergeBlock` | openairinterface5g/openair2/LAYER2/MAC/eNB_scheduler_dlsch.c:1543-1717 | the whole in-place merge: signalling SDUs, merged PDU and zeros, next sn, fi_ind naming the bearer that was cut, and the two lengths the source goes on with, which count signalling octets twice; it leaves its header buffer exactly with 0 or more than 65 fields |
| `RlcMerge.BlockMeaning` | openairinterface5g/openair2/LAYER2/MAC/eNB_scheduler_dlsch.c:1543-1716 | what a receiver reads in the merged block of any buffer: FI, SN and the fields of all its PDUs if and only if the lengths are representable |
| `RlcMerge.BlockFits` | openairinterface5g/openair2/LAYER2/MAC/eNB_scheduler_dlsch.c:1705-1717 | the merged block ends no later than the gathered one |
| `RlcMerge.GatheredPdus` | openairinterface5g/openair2/LAYER2/MAC/eNB_scheduler_dlsch.c:1573-1577 | PDUs gathered back to back are found again by their lengths, and FI is the last one's |
| `RlcFailures.TooManyFields` | openairinterface5g/openair2/LAYER2/MAC/eNB_scheduler_dlsch.c:1546-1617 | failing input: two readable PDUs with 65 fields and one make the merge write behind its header buffer |
| `RlcFailures.NoFieldAtAll` | openairinterface5g/openair2/LAYER2/MAC/eNB_scheduler_dlsch.c:1571-1681 | failing input: one bearer that returned nothing makes the merge write before its header buffer |
| `RlcFailures.LongLastField` | openairinterface5g/openair2/LAYER2/MAC/eNB_scheduler_dlsch.c:1622-1681 | failing input: behind a field of one octet, a last field of 2048 is read as 2047, its first octet as part of the field before |
| `RlcFailures.LongFirstField` | openairinterface5g/openair2/LAYER2/MAC/eNB_scheduler_dlsch.c:1643-1681 | failing input: a field of 2049 octets before the last one is read as one octet, the rest as part of the last |
| `RlcFailures.SignallingExact` | openairinterface5g/openair2/LAYER2/MAC/eNB_scheduler_dlsch.c:1714-1717 | the length that the merged PDU counts for, and the total, are right if and only if there are no signalling octets |
| `RlcFailures.SignallingCountedTwice` | openairinterface5g/openair2/LAYER2/MAC/eNB_scheduler_dlsch.c:1714-1717 | failing input: one signalling octet and a data PDU of three count for five octets |
| `RlcFailures.LastFiExact` | openairinterface5g/openair2/LAYER2/MAC/eNB_scheduler_dlsch.c:1573-1583 | FI is that of the last PDU with octets, whatever lies behind the block, if and only if the last length is positive |
| `RlcFailures.StaleFi` | openairinterface5g/openair2/LAYER2/MAC/eNB_scheduler_dlsch.c:1576-1695 | failing input: two blocks with the same PDUs, the last one empty, get different FI and fi_ind from what lies behind them |
| `DlGather.GatherBlock` | openairinterface5g/openair2/LAYER2/MAC/eNB_scheduler_dlsch.c:979-1425 | the polling loops put PDUs back to back into the buffer with their lengths and LCIDs, exactly as the abstract gathering, and never beyond the transport block |
| `DlGather.GatherFits` | openairinterface5g/openair2/LAYER2/MAC/eNB_scheduler_dlsch.c:979-1425 | whatever RLC answers within its offers, timing advance, subheaders and SDUs fit at every point, and every LCID comes from the order |
| `DlGather.GateShares` | openairinterface5g/openair2/LAYER2/MAC/eNB_scheduler_dlsch.c:1197-1309 | the gate control list: any 20 subframes in a row, aligned or not, give bearers 4, 5 and 6 four, two and one of them and the default bearer the other 13 |
| `DlGather.GatesWrap` | openairinterface5g/openair2/LAYER2/MAC/eNB_scheduler_dlsch.c:1197-1309 | the gates do not shift when the frame number wraps |
| `DlGates.HighestFirst` | openairinterface5g/openair2/LAYER2/MAC/eNB_scheduler_dlsch.c:1198-1321 | of LCIDs 8 to 13, the highest one that holds data supplies the first PDU of a round, whatever the subframe |
| `DlGates.UnfinishedServed` | openairinterface5g/openair2/LAYER2/MAC/eNB_scheduler_dlsch.c:1312-1321 | if none of these holds data, a dedicated bearer with an unfinished SDU does |
| `DlGates.GatedServed` | openairinterface5g/openair2/LAYER2/MAC/eNB_scheduler_dlsch.c:1281-1321 | else the bearer that the gate control list names for the subframe does if it holds data, and otherwise at most the default bearer |
| `DlGates.DedicatedTurns` | openairinterface5g/openair2/LAYER2/MAC/eNB_scheduler_dlsch.c:1281-1321 | in any 20 such subframes in a row LCIDs 4, 5 and 6 supply the first PDU exactly four times, twice and once, if they hold data when it is their turn |
| `DlGates.AllTurns` | openairinterface5g/openair2/LAYER2/MAC/eNB_scheduler_dlsch.c:1281-1321 | and if every gated bearer holds data, the default bearer the other 13 times |
| `RlcReassembly.ReceiveJoined` | openairinterface5g/openair2/LAYER2/MAC/eNB_scheduler_dlsch.c:1683-1695 | two runs of fields that meet at an SDU boundary can be received as one PDU |
| `RlcReassembly.ReceiveOne` | openairinterface5g/openair2/LAYER2/MAC/eNB_scheduler_dlsch.c:1319-1425 | one PDU of a bearer under RLC's contract delivers its complete SDUs whole and leaves the begun one in the buffer |
| `RlcReassembly.PollIsGather` | openairinterface5g/openair2/LAYER2/MAC/eNB_scheduler_dlsch.c:1319-1425 | the polls of the stream model are those of the gathering loop |
| `RlcReassembly.PollFresh` | openairinterface5g/openair2/LAYER2/MAC/eNB_scheduler_dlsch.c:1319-1425 | a round that starts at an SDU boundary: all its PDUs meet at boundaries, only the last may end inside an SDU, and the receiver gets exactly the SDUs completed |
| `RlcReassembly.PollOpen` | openairinterface5g/openair2/LAYER2/MAC/eNB_scheduler_dlsch.c:1312-1425 | a round that starts inside an SDU does the same if that SDU's bearer supplies the first PDU |
| `RlcReassembly.PollConserves` | openairinterface5g/openair2/LAYER2/MAC/eNB_scheduler_dlsch.c:1319-1425 | no SDU is lost between a bearer's queue and what was handed over |
| `RlcReassembly.ReceiveMerged` | openairinterface5g/openair2/LAYER2/MAC/eNB_scheduler_dlsch.c:1573-1703 | PDUs that meet at boundaries are received alike one by one or merged into one |
| `DlStream.BlockFi` | openairinterface5g/openair2/LAYER2/MAC/eNB_scheduler_dlsch.c:1683-1697 | the FI written says exactly whether an SDU was open before the block and whether one is open after it |
| `DlStream.HearAny` | openairinterface5g/openair2/LAYER2/MAC/eNB_scheduler_dlsch.c:1543-1796 | what the UE takes out of the printed block of any round of up to 65 fields: the merged PDU, with header length less one zero octets behind it exactly when several PDUs leave at most two octets spare |
| `DlStream.HearBlock` | openairinterface5g/openair2/LAYER2/MAC/eNB_scheduler_dlsch.c:1543-1796 | if the lengths are representable, it reads all fields from it, with those zeros behind the last one |
| `DlStream.ReceiveBlock` | openairinterface5g/openair2/LAYER2/MAC/eNB_scheduler_dlsch.c:1543-1796 | if not, hearing the transport block is receiving its PDUs one by one |
| `DlStream.SendKeeps` | openairinterface5g/openair2/LAYER2/MAC/eNB_scheduler_dlsch.c:1312-1796 | a block polled with the unfinished SDU's bearer first, with representable lengths and without such zeros keeps the stream intact: whole SDUs only, per bearer nothing lost, doubled or reordered, UE in step |
| `DlStream.EveryRunIntact` | openairinterface5g/openair2/LAYER2/MAC/eNB_scheduler_dlsch.c:1312-1796 | after every run of such blocks the UE has delivered exactly the SDUs handed over, in order |
| `DlStream.DedicatedContinues` | openairinterface5g/openair2/LAYER2/MAC/eNB_scheduler_dlsch.c:1312-1321 | with data on LCIDs 4 to 6 only, the bearer of the unfinished SDU does supply the first PDU |
| `DlStream.DedicatedRunIntact` | openairinterface5g/openair2/LAYER2/MAC/eNB_scheduler_dlsch.c:1312-1796 | main result: with data on LCIDs 4 to 6 only, RLC's contract, no loss, and in every block representable lengths of up to 65 fields and one PDU or more than two spare octets, every run delivers every SDU whole and never interleaved |
| `DlFailures.DefaultBearerMixes` | openairinterface5g/openair2/LAYER2/MAC/eNB_scheduler_dlsch.c:1312-1316 | a run of four events from the initial state: LCID 3 is never moved ahead, and half of its SDU is joined to LCID 4's SDU |
| `DlFailures.DedicatedBearersSpoiled` | openairinterface5g/openair2/LAYER2/MAC/eNB_scheduler_dlsch.c:1719-1796 | a run of four events from the initial state with data on LCIDs 4 and 5 only: the open SDU is continued first, and yet LCID 4's SDU comes out with two zeros |
| `DlFailures.LongSduSpoiled` | openairinterface5g/openair2/LAYER2/MAC/eNB_scheduler_dlsch.c:1606-1681 | a run of three events from the initial state, with data on LCID 4 only, nothing unfinished and room to spare: [1, 0] and 2047 octets come out for [1] and 2048, because the lengths are not representable |
| `DlFailures.TwoWrongsCancel` | openairinterface5g/openair2/LAYER2/MAC/eNB_scheduler_dlsch.c:1312-1717 | a run from the initial state in which LCID 3 loses its turn and a length is not representable in the same block, and the UE is back in step |
| `DlFailures.TwoPdusSpoiled` | openairinterface5g/openair2/LAYER2/MAC/eNB_scheduler_dlsch.c:1719-1796 | failing input: two PDUs of one octet in a block of nine octets, where the UE reads [9, 0, 0] for [9] |
| `DlExact.PollFirst` | openairinterface5g/openair2/LAYER2/MAC/eNB_scheduler_dlsch.c:1319-1425 | the first PDU of a round comes from the first bearer polled that holds data, once a header and an octet can be offered |
| `DlExact.ContinuesExactly` | openairinterface5g/openair2/LAYER2/MAC/eNB_scheduler_dlsch.c:1312-1425 | the unfinished SDU is continued exactly if its bearer is the first one polled that holds data, or nothing can be sent |
| `DlExact.WrongFirst` | openairinterface5g/openair2/LAYER2/MAC/eNB_scheduler_dlsch.c:1312-1703 | whenever another bearer comes first, an SDU comes out wrong in that block, or the UE holds more octets than any bearer has sent of its SDU |
| `DlExact.TooLittleSpare` | openairinterface5g/openair2/LAYER2/MAC/eNB_scheduler_dlsch.c:1719-1796 | so it is whenever several PDUs leave at most two octets spare |
| `DlExact.GarbledHeard` | openairinterface5g/openair2/LAYER2/MAC/eNB_scheduler_dlsch.c:1606-1796 | a block whose lengths are not representable never makes the UE deliver what its fields would: it reads nothing, another number of fields, or a field of another length before the last |
| `DlExact.IllegibleStep` | openairinterface5g/openair2/LAYER2/MAC/eNB_scheduler_dlsch.c:1606-1796 | so such a block spoils the delivery at once |
| `DlExact.SameCount` | openairinterface5g/openair2/LAYER2/MAC/eNB_scheduler_dlsch.c:1312-1796 | every block with representable lengths completes as many SDUs at the UE as at the bearers |
| `DlExact.LostStep` | openairinterface5g/openair2/LAYER2/MAC/eNB_scheduler_dlsch.c:1312-1796 | a surplus stays through every later block with representable lengths until an SDU is completed, and that SDU comes out wrong |
| `DlExact.StepExact` | openairinterface5g/openair2/LAYER2/MAC/eNB_scheduler_dlsch.c:1312-1796 | a block of up to 65 fields keeps the stream intact and in step if and only if the unfinished SDU's bearer is first in line (or nothing can be sent), the lengths are representable, and one PDU is sent or more than two octets are spare; unless it fails in the first two ways at once |
| `DlExact.RunExact` | openairinterface5g/openair2/LAYER2/MAC/eNB_scheduler_dlsch.c:1312-1796 | main result: a whole run, default bearer included, from the queues to what the UE reads on air, is intact and in step throughout if and only if every block meets these conditions; unless the first failing block fails in the first two ways at once |
| `DlExact.KeptRuns` | openairinterface5g/openair2/LAYER2/MAC/eNB_scheduler_dlsch.c:1312-1796 | without that exception: blocks that meet the conditions keep every run in step |
| `DlExact.DeliveryExact` | openairinterface5g/openair2/LAYER2/MAC/eNB_scheduler_dlsch.c:1312-1796 | main result: at the end of a run the UE has delivered exactly what was handed over if and only if every block met the conditions, or no SDU was completed from the first failing one on; with the same exception, and with representable lengths in the blocks behind it |
| `DlJoin.StepIsPass` | openairinterface5g/openair2/LAYER2/MAC/eNB_scheduler_dlsch.c:977-1425 | everything that the pass asks of RLC's answers and of fi_ind holds in every step of a run |
| `DlJoin.PassIsStep` | openairinterface5g/openair2/LAYER2/MAC/eNB_scheduler_dlsch.c:977-1796 | the blocks of these runs are the octets that one pass of the scheduler prints, with the same sn and fi_ind |
| `MacHeader.PrintedReadsBack` | openairinterface5g/openair2/LAYER2/MAC/eNB_scheduler_dlsch.c:133-295 | a UE reads back every subheader with LCID and length, in order, whatever follows, and stops exactly at the end |
| `MacHeader.Advance` | openairinterface5g/openair2/LAYER2/MAC/eNB_scheduler_dlsch.c:229-240 | the E bit of a subheader is set only when the next one is written |
| `MacHeader.PutSdu` | openairinterface5g/openair2/LAYER2/MAC/eNB_scheduler_dlsch.c:242-264 | short form under 128 octets, else the long form, whose fourth octet is overwritten later |
| `MacHeader.PutFront` | openairinterface5g/openair2/LAYER2/MAC/eNB_scheduler_dlsch.c:135-220 | padding, DRX, timing advance and contention resolution subheaders in this order |
| `MacHeader.PutSdus` | openairinterface5g/openair2/LAYER2/MAC/eNB_scheduler_dlsch.c:224-265 | all SDU subheaders behind the ones written so far |
| `MacHeader.Close` | openairinterface5g/openair2/LAYER2/MAC/eNB_scheduler_dlsch.c:284-295 | a padding subheader closes the list, or the last subheader loses its length field |
| `MacHeader.GenerateHeader` | openairinterface5g/openair2/LAYER2/MAC/eNB_scheduler_dlsch.c:117-309 | the whole routine: the returned offset is exactly the end of subheaders and control elements, whose octets are given; with nothing to print it returns one octet nobody wrote |
| `MacPdu.TakeConcat` | openairinterface5g/openair2/LAYER2/MAC/eNB_scheduler_dlsch.c:1786-1796 | SDUs laid out back to back are cut again at the announced lengths |
| `MacPdu.FrontCes` | openairinterface5g/openair2/LAYER2/MAC/eNB_scheduler_dlsch.c:166-220 | control elements are as long as their subheaders announce |
| `MacPdu.PaddedReadsBack` | openairinterface5g/openair2/LAYER2/MAC/eNB_scheduler_dlsch.c:284-309 | with final padding every SDU comes back exactly and the fill is padding |
| `MacPdu.OpenReadsBack` | openairinterface5g/openair2/LAYER2/MAC/eNB_scheduler_dlsch.c:292-309 | without it the last SDU comes back with whatever fills the block |
| `MacPdu.FixedReadsBack` | openairinterface5g/openair2/LAYER2/MAC/eNB_scheduler_dlsch.c:133-309 | control elements alone, without final padding, come back and nothing behind them is taken for an SDU |
| `MacPdu.HeaderRoundTrip` | openairinterface5g/openair2/LAYER2/MAC/eNB_scheduler_dlsch.c:117-309 | main result: whenever something is printed, a reader that uses the LCIDs of TS 36.321 gets elements, control elements, LCIDs and SDUs back; the SDUs exactly if and only if there is final padding, no fill or no SDU; and what is padding |
| `MacPdu.FrontLcids` | openairinterface5g/openair2/LAYER2/MAC/eNB_scheduler_dlsch.c:135-220 | which fixed subheaders stand in front: short padding, DRX, timing advance and contention resolution, by the LCIDs of TS 36.321 |
| `MacPdu.ControlsReadBack` | openairinterface5g/openair2/LAYER2/MAC/eNB_scheduler_dlsch.c:166-309 | the control elements that a reader finds by LCID are the timing advance on 29 and the contention resolution on 28 |
| `RbSearch.FindRbs` | openairinterface5g/openair2/LAYER2/MAC/eNB_scheduler_dlsch.c:1440-1463 | resource blocks are added until the block fits or all are used; one group less would not do, and if the starting size (four at MCS 0, else one group) fits it is kept |
| `RbSearch.WalkMcs` | openairinterface5g/openair2/LAYER2/MAC/eNB_scheduler_dlsch.c:1488-1501 | the MCS walk ends at the least sufficient size among all MCS up to the initial one, or says exactly when none is sufficient |
| `RbSearch.ChooseSize` | openairinterface5g/openair2/LAYER2/MAC/eNB_scheduler_dlsch.c:1440-1501 | both searches: nb_rb within what is available, MCS no higher than initially, the block fits in the least sufficient size |
| `RbSearch.SelectForNewData` | openairinterface5g/openair2/LAYER2/MAC/eNB_scheduler_dlsch.c:1469-1486 | the loop picks the shortest prefix of the UE's own groups that covers nb_rb PRBs, or all |
| `RbSearch.SelectForRetransmission` | openairinterface5g/openair2/LAYER2/MAC/eNB_scheduler_dlsch.c:811-829 | so does the retransmission loop, which corrects the short last group afterwards |
| `RbSearch.CarrierTotals` | openairinterface5g/openair2/LAYER2/MAC/eNB_scheduler_dlsch.c:1477-1481 | the groups of carriers with 25, 50 and 100 PRBs, the short last one counted, add up to these |
| `RbSearch.CoverUnique` | openairinterface5g/openair2/LAYER2/MAC/eNB_scheduler_dlsch.c:807-829 | there is only one shortest cover, so both loops choose the same groups |
| `RbSearch.WholeMaskIsCover` | openairinterface5g/openair2/LAYER2/MAC/eNB_scheduler_dlsch.c:1465-1468 | the whole mask is the shortest cover of its PRB total |
| `RbSearch.SelectGroups` | openairinterface5g/openair2/LAYER2/MAC/eNB_scheduler_dlsch.c:1465-1486 | both branches together: copying the whole mask agrees with the loop when `pre_nb_available_rbs` is the mask's PRB total |
| `TransportBlock.CountedIsOpen` | openairinterface5g/openair2/LAYER2/MAC/eNB_scheduler_dlsch.c:1429-1433 | the header counted while gathering is the size of the header without the last length field |
| `TransportBlock.GatheredNeed` | openairinterface5g/openair2/LAYER2/MAC/eNB_scheduler_dlsch.c:1429-1450 | what was gathered needs no more than the transport block it was gathered for |
| `TransportBlock.BlockFits` | openairinterface5g/openair2/LAYER2/MAC/eNB_scheduler_dlsch.c:1516-1522 | header offset plus SDUs fit for every list of SDUs, and without final padding exactly the overcounted header stays unused |
| `TransportBlock.MergedBlockFits` | openairinterface5g/openair2/LAYER2/MAC/eNB_scheduler_dlsch.c:1719-1796 | a merged block fits, with equality exactly up to the header counted for the PDUs before the merge |
| `TransportBlock.ParseExtended` | openairinterface5g/openair2/LAYER2/MAC/eNB_scheduler_dlsch.c:1793-1796 | octets behind a UMD PDU become part of its last field |
| `TransportBlock.UeTakes` | openairinterface5g/openair2/LAYER2/MAC/eNB_scheduler_dlsch.c:1712-1796 | the SDU that a UE takes out of a merged block, whatever its octets, and that it is on LCID 3 |
| `TransportBlock.UeReads` | openairinterface5g/openair2/LAYER2/MAC/eNB_scheduler_dlsch.c:1719-1796 | a UE reads the merged PDU exactly if and only if more than two octets are spare or the counted header is one octet; otherwise zeros are appended to the last field, and how many |
| `TransportBlock.UeReadsTa` | openairinterface5g/openair2/LAYER2/MAC/eNB_scheduler_dlsch.c:166-188 | the UE gets the timing advance of a block that carries nothing else |
| `Scheduler.FillBlock` | openairinterface5g/openair2/LAYER2/MAC/eNB_scheduler_dlsch.c:1786-1796 | SDU octets behind the header, zeros up to the transport block size |
| `Scheduler.PrintBlock` | openairinterface5g/openair2/LAYER2/MAC/eNB_scheduler_dlsch.c:1719-1796 | padding choice, header and payload of a merged block are the octets on air |
| `Scheduler.PrintTaOnly` | openairinterface5g/openair2/LAYER2/MAC/eNB_scheduler_dlsch.c:1516-1522 | a block with only a timing advance |
| `Scheduler.MergeData` | openairinterface5g/openair2/LAYER2/MAC/eNB_scheduler_dlsch.c:1543-1717 | a gathered block without signalling becomes the merged PDU of its bearers' fields, with the next sn and fi_ind |
| `Scheduler.ScheduleNewData` | openairinterface5g/openair2/LAYER2/MAC/eNB_scheduler_dlsch.c:977-1796 | main result: gather in the source's poll order, size, merge and print as one pass; what is sent is within the grant, holds the gathered data, and is header, merged PDU and zeros, with the next sn and fi_ind; nothing is sent only if there is nothing to send |
| `Scheduler.UeGetsFields` | openairinterface5g/openair2/LAYER2/MAC/eNB_scheduler_dlsch.c:977-1796 | main result: from gathered PDUs to the UE, which finds one SDU on LCID 3 and reads exactly their data fields in it if and only if more than two octets are spare or one PDU was gathered |
| `Scheduler.SignallingSent` | openairinterface5g/openair2/LAYER2/MAC/eNB_scheduler_dlsch.c:1705-1796 | the octets sent for a block with signalling: the merged PDU is followed by as many zeros as there are signalling octets |
| `Scheduler.UeGetsSignalling` | openairinterface5g/openair2/LAYER2/MAC/eNB_scheduler_dlsch.c:1705-1796 | what the UE reads in such a block with final padding: the signalling SDUs, and those zeros behind the last field; exact if and only if there are no signalling octets |
| `Harq.HarqUe.Pass` | openairinterface5g/openair2/LAYER2/MAC/eNB_scheduler_dlsch.c:772-1970 | one pass for a process: retransmission with stored NDI, MCS and size if they fit, else a new block with toggled NDI; nb_rb is stored before the control channel check that may drop the block |
| `Harq.StepKeeps` | openairinterface5g/openair2/LAYER2/MAC/eNB_scheduler_dlsch.c:772-1970 | stored state and last DCI stay in agreement through every pass and every feedback |
| `Harq.HarqAgreement` | openairinterface5g/openair2/LAYER2/MAC/eNB_scheduler_dlsch.c:858-1970 | main result: over every run each DCI toggles its process's NDI exactly if its block is new, and while a block is outstanding the stored MCS, NDI and nb_rb are those of the last DCI |
| `Harq.SentInOrder` | openairinterface5g/openair2/LAYER2/MAC/eNB_scheduler_dlsch.c:774-1970 | every DCI of a run comes from a pass of its own, in order: a retransmission within what was available, a new block with the MCS, size and redundancy version 0 asked for |
| `Harq.AfterFeedback` | openairinterface5g/openair2/LAYER2/MAC/eNB_scheduler_dlsch.c:772-860 | the round that feedback leaves decides about the next pass: the redundancy version of a retransmission, or a new block at 8 |
| `PowerControl.TestOnClock` | openairinterface5g/openair2/LAYER2/MAC/eNB_scheduler_dlsch.c:1855-1858 | the two-branch test on frame and subframe numbers is distance at least 10 modulo one turn of the counter |
| `PowerControl.Template.Command` | openairinterface5g/openair2/LAYER2/MAC/eNB_scheduler_dlsch.c:1850-1886 | the command and the state it leaves: an update needs the spacing and a new measurement, and only then differs from no change |
| `PowerControl.CommandsSpaced` | openairinterface5g/openair2/LAYER2/MAC/eNB_scheduler_dlsch.c:1853-1886 | over every run of an unbounded clock updates are at least 10 subframes apart, across every wrap |
| `PowerControl.CommandsUseMeasurements` | openairinterface5g/openair2/LAYER2/MAC/eNB_scheduler_dlsch.c:1859-1862 | every update uses up a measurement of its own |
| `PowerControl.PendingIsUsed` | openairinterface5g/openair2/LAYER2/MAC/eNB_scheduler_dlsch.c:1857-1862 | and a measurement is used at the first chance that the spacing allows |
| `InterSlice.Carrier.BuildFreeMap` | openairinterface5g/openair2/LAYER2/MAC/eNB_scheduler_dlsch.c:2072-2092 | used groups are marked, free ones carry the first slice that owns them |
| `InterSlice.Carrier.HasTraffic` | openairinterface5g/openair2/LAYER2/MAC/eNB_scheduler_dlsch.c:2094-2107 | slices with a UE that still wants resource blocks |
| `InterSlice.Carrier.BuildMask` | openairinterface5g/openair2/LAYER2/MAC/eNB_scheduler_dlsch.c:2124-2140 | exactly the free groups of slices that are not isolated |
| `InterSlice.Carrier.TryGrant` | openairinterface5g/openair2/LAYER2/MAC/eNB_scheduler_dlsch.c:2162-2204 | a group changes hands exactly if all checks pass, and then all six fields move together |
| `InterSlice.Carrier.ServeUe` | openairinterface5g/openair2/LAYER2/MAC/eNB_scheduler_dlsch.c:2154-2206 | all groups for one UE extend the list of lawful grants, and no group may be granted to it any more |
| `InterSlice.Carrier.ServeSlice` | openairinterface5g/openair2/LAYER2/MAC/eNB_scheduler_dlsch.c:2119-2207 | all UEs of a slice, with a fresh mask; none of them may be granted anything more |
| `InterSlice.Carrier.Multiplex` | openairinterface5g/openair2/LAYER2/MAC/eNB_scheduler_dlsch.c:2072-2208 | the loop nest performs a list of grants, each permitted when it is made, and afterwards no grant to any UE that was in line is still permitted |
| `InterSlice.Conservation` | openairinterface5g/openair2/LAYER2/MAC/eNB_scheduler_dlsch.c:2186-2202 | per UE, remaining over all slices plus available is conserved, and available grows by exactly the PRBs granted, short last group included |
| `InterSlice.GroupFate` | openairinterface5g/openair2/LAYER2/MAC/eNB_scheduler_dlsch.c:2125-2204 | a group is granted at most once, never if used on entry or of an isolated slice; used afterwards exactly if used before or granted |
| `InterSlice.UeGets` | openairinterface5g/openair2/LAYER2/MAC/eNB_scheduler_dlsch.c:2179-2195 | a UE holds a group exactly if it did before or was granted it |
| `InterSlice.PowerFate` | openairinterface5g/openair2/LAYER2/MAC/eNB_scheduler_dlsch.c:2182-2199 | the power offset is set to 1 exactly for UEs in transmission mode 5 that were granted something |
| `InterSlice.NeverFarOver` | openairinterface5g/openair2/LAYER2/MAC/eNB_scheduler_dlsch.c:2170-2202 | a UE that was granted something exceeds what some slice requires for it by less than a group |
| `IttiWakeup.ConsumerKeepsCovered` | openairinterface5g/common/utils/ocp_itti/intertask_interface.cpp:209-336 | every step of a receiving task keeps tokens and messages balanced at each program point |
| `IttiWakeup.SenderKeepsLock` | openairinterface5g/common/utils/ocp_itti/intertask_interface.cpp:136-185 | every step of a sending thread keeps the lock and what is owed in agreement |
| `IttiWakeup.StepKeepsAwake` | openairinterface5g/common/utils/ocp_itti/intertask_interface.cpp:93-336 | the invariant is kept by every step of any task or thread |
| `IttiWakeup.NeverSleepsOnMessage` | openairinterface5g/common/utils/ocp_itti/intertask_interface.cpp:209-321 | main result: in every interleaving of senders, timer set-ups and both consumer loops, a task asleep has a token for each waiting message, unless a thread holding its lock is just about to write the missing one |
| `IttiWakeup.RunKeepsAwake` | openairinterface5g/openair3/UDP/udp_eNB_task.c:338-478 | the same for all run lengths, tasks that receive and then call get_events included |
| `IttiWakeup.NothingOnlyIfEmpty` | openairinterface5g/common/utils/ocp_itti/intertask_interface.cpp:303-335 | a receive or poll returns without a message only if none waits |
| `IttiWakeup.WokenReceives` | openairinterface5g/common/utils/ocp_itti/intertask_interface.cpp:256-321 | a task woken in a receive takes one token and the oldest message and goes on as its loop says |
| `IttiWakeup.WokenByOther` | openairinterface5g/common/utils/ocp_itti/intertask_interface.cpp:297-321 | a receive woken by another descriptor returns without a message if it has other descriptors, and sleeps again if not |
| `IttiWakeup.WokenByEvents` | openairinterface5g/openair3/UDP/udp_eNB_task.c:338-478 | so does one woken in get_events, with the next receive |
| `IttiTokens.TokenBalance` | openairinterface5g/common/utils/ocp_itti/intertask_interface.cpp:108-276 | over every run the writes to a task's eventfd are exactly what was read from it and what is still in it |
| `IttiTokens.OneWriteEach` | openairinterface5g/common/utils/ocp_itti/intertask_interface.cpp:108-428 | every message and every timer set-up comes with exactly one write |
| `IttiTokens.TokensAreMessages` | openairinterface5g/common/utils/ocp_itti/intertask_interface.cpp:108-428 | so tokens read and left are the messages that came and the timers set up, less a write about to be made |
| `IttiMirror.ConsumerFifo` | openairinterface5g/common/utils/ocp_itti/intertask_interface.cpp:311-333 | taking from the back of the vector keeps what entered equal to what was taken and what waits |
| `IttiMirror.OwnStep` | openairinterface5g/common/utils/ocp_itti/intertask_interface.cpp:136-185 | each step of a sender leaves exactly the originals and copies its calls so far call for |
| `IttiMirror.ForeignStep` | openairinterface5g/common/utils/ocp_itti/intertask_interface.cpp:136-185 | other senders' steps do not disturb them |
| `IttiMirror.StepConserves` | openairinterface5g/common/utils/ocp_itti/intertask_interface.cpp:93-336 | the conservation law is kept by every step |
| `IttiMirror.EveryCallMirrored` | openairinterface5g/common/utils/ocp_itti/intertask_interface.cpp:93-333 | main result: each call in a run leaves exactly one original in its destination and, unless RRC_SUBFRAME_PROCESS, exactly one copy at the ICM task, in call order, each with the id, origin, payload and instance of the call; and queues deliver first in, first out |
| `IttiTimers.TimerTask.Setup` | openairinterface5g/common/utils/ocp_itti/intertask_interface.cpp:420-428 | a timer is stored, the earliest timeout kept exact and a token written |
| `IttiTimers.TimerTask.Remove` | openairinterface5g/common/utils/ocp_itti/intertask_interface.cpp:432-445 | the timer is gone; the return value tells whether it was there |
| `IttiTimers.TimerTask.Scan` | openairinterface5g/common/utils/ocp_itti/intertask_interface.cpp:213-247 | posts exactly the expired timers in id order, drops one-shots, moves periodic ones by one period and leaves the exact minimum; and says when the loop advances an iterator it has erased, which is exactly when a one-shot has expired |
| `IttiTimers.ScanVisits` | openairinterface5g/common/utils/ocp_itti/intertask_interface.cpp:223-245 | one turn of the scan loop extends all of this by one timer |
| `IttiTimers.NothingExpired` | openairinterface5g/common/utils/ocp_itti/intertask_interface.cpp:214-219 | a cached earliest timeout not yet passed means that no timer has expired |
| `IttiTimerRuns.OwnerOfId` | openairinterface5g/common/utils/ocp_itti/intertask_interface.cpp:401-405 | the low 16 bits of an id are its task |
| `IttiTimerRuns.IdsDiffer` | openairinterface5g/common/utils/ocp_itti/intertask_interface.cpp:401-405 | two set-ups make the same id exactly if they are of one task with random numbers that agree modulo 65535 |
| `IttiTimerRuns.StepKeeps` | openairinterface5g/common/utils/ocp_itti/intertask_interface.cpp:213-445 | set-ups, removals and scans keep the timer invariant |
| `IttiTimerRuns.EveryRunKeeps` | openairinterface5g/common/utils/ocp_itti/intertask_interface.cpp:213-445 | the invariant holds after every run |
| `IttiTimerRuns.EveryRun` | openairinterface5g/common/utils/ocp_itti/intertask_interface.cpp:213-445 | in every run from an empty world posts, stored timeouts, ids and next_timer agree with what is recorded of each set-up |
| `IttiTimerRuns.PostTimes` | openairinterface5g/common/utils/ocp_itti/intertask_interface.cpp:391-445 | main result: for every set-up in every run, its k-th post is later than the time of the call plus k times seconds and microseconds in ms (below 2^32), a one-shot has at most one, and while stored it is due exactly one period after its last post |
| `IttiTimerRuns.ScanPosts` | openairinterface5g/common/utils/ocp_itti/intertask_interface.cpp:219-245 | a scan makes a stored timer post if and only if its timeout has passed |
| `IttiTimerRuns.DefinedExactly` | openairinterface5g/common/utils/ocp_itti/intertask_interface.cpp:223-245 | a run never advances an erased iterator, which C++ leaves undefined, if and only if no one-shot ever posts in it |
| `IttiTimerRuns.OneShotIsUndefined` | openairinterface5g/common/utils/ocp_itti/intertask_interface.cpp:223-245 | failing run: one one-shot is set up and scanned after its timeout |
| `IttiTimerRuns.RemovedNeverPosts` | openairinterface5g/common/utils/ocp_itti/intertask_interface.cpp:432-445 | a removed timer never posts again, whatever happens afterwards |
| `IttiTimerRuns.DeadForever` | openairinterface5g/common/utils/ocp_itti/intertask_interface.cpp:213-445 | what is not stored never posts again and never comes back |
| `IttiTimerRuns.IdsBelong` | openairinterface5g/common/utils/ocp_itti/intertask_interface.cpp:401-405 | ids are unique across tasks |
| `IttiTimerRuns.NoClashStays` | openairinterface5g/common/utils/ocp_itti/intertask_interface.cpp:401-421 | one step of a run without double choice keeps chosen ids apart and finds a free id |
| `IttiTimerRuns.FreshRunsAreFree` | openairinterface5g/common/utils/ocp_itti/intertask_interface.cpp:401-421 | in every run in which no thread chooses an id that another one has chosen and not yet stored, every set-up stores its timer under a free id |
| `IttiTimerRuns.EndsExactly` | openairinterface5g/common/utils/ocp_itti/intertask_interface.cpp:223-445 | a stored timer is gone after a step if and only if it was removed, has posted as a one-shot, or another set-up used its id |
| `IttiTimerRuns.ReplacedNeverPosts` | openairinterface5g/common/utils/ocp_itti/intertask_interface.cpp:420-428 | a set-up under the id of an earlier one silences it for good |
| `IttiTimerRuns.ClashLosesTimer` | openairinterface5g/common/utils/ocp_itti/intertask_interface.cpp:401-428 | two threads with the same id: whatever happens between their set-ups and afterwards, the first timer posts no more from the second set-up on |
| `IttiTimerRuns.ClashHappens` | openairinterface5g/common/utils/ocp_itti/intertask_interface.cpp:401-428 | a run from an empty world in which this happens |
| `PacketTerminal.TerminalQueue.Add` | packet_terminal/src/packet_terminal.h:179-194 | prepending on the heap keeps the list acyclic and ended by NULL and records the item as the newest |
| `PacketTerminal.TerminalQueue.SecondLast` | packet_terminal/src/packet_terminal.h:213-215 | the walk ends at the second last node |
| `PacketTerminal.TerminalQueue.CutLast` | packet_terminal/src/packet_terminal.h:197-226 | removes exactly the last node |
| `PacketTerminal.TerminalQueue.PrintLast` | packet_terminal/src/packet_terminal.h:197-226 | the item that leaves is the oldest, with direction and length intact; the heap follows the list step |
| `PacketTerminal.TerminalQueue.PrintTurn` | packet_terminal/src/packet_terminal.h:228-238 | the printer's turn, on an empty queue too |
| `PacketTerminal.QueueIsFifo` | packet_terminal/src/packet_terminal.h:179-238 | in every interleaving of receivers and printer, whose heap operations are proved to be these list steps, items leave in exactly the order they entered |
| `TeidMap.NetworkOrder` | packet_terminal/src/packet_terminal.h:127-161 | the four octets written are the TEID to the base 256, most significant first |
| `TeidMap.StoredIsNetworkOrder` | packet_terminal/src/packet_terminal.h:127-161 | a TEID stored through htonl and copied out of memory is big-endian |
| `TeidMap.HostRoundTrip` | openairinterface5g/openair3/ICM/icm.c:160-168 | four octets in host order give the TEID back |
| `TeidMap.DownHandler.Turn` | packet_terminal/src/packet_terminal.h:107-172 | one turn of the handler on its in-place buffer is the specified step, and what is sent on has the received length |
| `TeidMap.RunHolds` | packet_terminal/src/packet_terminal.h:118-134 | in every run the table holds the latest three TEIDs, each at its place |
| `TeidMap.PortIsSeen` | packet_terminal/src/packet_terminal.h:138-148 | the port a packet is judged by: its own octets, or for a short one those the last longer packet left behind |
| `TeidMap.OnePacket` | packet_terminal/src/packet_terminal.h:136-169 | a packet of any length is rewritten exactly between triples and from ports 6001 to 6003 as seen, octets 4 to 7 only |
| `TeidMap.PacketsAreMapped` | openairinterface5g/openair3/ICM/icm.c:160-183 | main result: from TEIDs on the bus to the octets of every downlink packet after any run that has not ended the terminal: the i-th TEID of the latest triple in network order, all other octets unchanged, otherwise the packet unchanged |
| `TeidMap.UninitialisedEntry` | packet_terminal/src/packet_terminal.h:136-161 | before the first TEID, and no longer after it, a packet from the first port leaves with an uninitialised entry |
| `TeidMap.CountersCleared` | packet_terminal/src/packet_terminal.h:127-133 | the third TEID of a triple clears the counters, others leave them |
| `TeidMap.CountersCount` | packet_terminal/src/packet_terminal.h:105-169 | after every run counter i is the number of packets rewritten for port i since the last completed triple |
| `ERabBuilder.LoadOuter` | openair-cn/src/drb_starter/drb.c:572-595 | head, pdu with the id patched over its placeholder, and the two outer lengths |
| `ERabBuilder.LoadInner` | openair-cn/src/drb_starter/drb.c:597-607 | list, item and NAS message behind the outer part |
| `ERabBuilder.Build` | openair-cn/src/drb_starter/drb.c:543-680 | three messages out of one rewound buffer, with the octets of each |
| `ERabBuilder.BodyReads` | openair-cn/src/drb_starter/drb.c:567-607 | a reader of the nested lengths (section 10.9 of ITU-T X.691) gets id, item and NAS octets out of the nested encoding |
| `ERabBuilder.MessageIsNested` | openair-cn/src/drb_starter/drb.c:543-607 | with equal NAS lengths the hand-written octets are the nested encoding |
| `ERabBuilder.MessageRoundTrip` | openair-cn/src/drb_starter/drb.c:543-675 | main result: a message is read back, with nothing left over, if and only if its NAS message is as long as the first one's, whose outer lengths it reuses; the id modulo 2^24 |
| `ERabBuilder.ShorterSecondMessage` | openair-cn/src/drb_starter/drb.c:626-650 | failing input: a second NAS message of two octets behind a first one of three cannot be read |
| `ERabBuilder.SetupRequests` | openair-cn/src/drb_starter/drb.c:357-680 | what the receiver learns from the three messages with equally long NAS messages: E-RABs 6, 7 and 8, tunnels 3, 4 and 5, the transport address, the UE id and each NAS message |

## Left out

- The transport block size table, the CCE check and RLC are not part of this model: the table is any
  function nondecreasing in both arguments, the check an input, RLC a contract (within the offer, mid-SDU only
  when the offer is filled, silent only without data or room).
- The SN of the UE context is a 10-bit counter; the overlapping `memcpy` at line 1706 is a move; the width of the
  `memset` of `sdu_lcids` at line 1715 and bookkeeping of statistics, DRX and RRC releases are not modelled.
- Scheduler.ScheduleNewData: only for blocks without signalling data and with RLC returning no empty PDU, because
  the source counts signalling octets twice; `RlcMerge.MergeBlock` has both cases.
- RlcMerge.CopyLis: for PDUs a receiver can read, as RLC sends them; what the E-bit loop does behind the end of a
  malformed one is not modelled.
- RlcMerge.CopyPdu: likewise.
- RlcMerge.CopyPdus: likewise.
- RlcMerge.MergeBlock: likewise.
- MacHeader.GenerateHeader: for SDU lengths under 2^15, which no transport block exceeds; longer ones would be truncated.
- DlStream.EveryRunIntact: no transport block is lost; blocks without signalling data; at most 65 fields in a block,
  since more leave the header buffer.
- DlExact.StepExact: leaves open the blocks that both let another bearer go ahead of the unfinished SDU and have
  lengths that are not representable, where the two can cancel.
- DlExact.RunExact: likewise for the first failing block.
- DlExact.DeliveryExact: likewise, and representable lengths in the blocks behind it, as a later garbled block can
  deliver octets that happen to make up for the loss.
- Harq.HarqAgreement: what feedback does to a round is an input, as the code that handles it is not part of this model.
- RbSearch.SelectGroups: every group has a PRB (at 25 and 50 PRBs two per group); InterSlice likewise.
- InterSlice.Carrier.BuildFreeMap: every group owned by a slice; for others the source leaves its map unset.
- InterSlice.Carrier.Multiplex: one carrier, every group owned by a slice; the order from `slice_priority_sort` and
  `sort_UEs` is an input; `MIMO_mode_indicator` is not modelled.
- PowerControl.CommandsSpaced: starts from the first command sent, before which the two fields are zero.
- The bus does not model tasks without a thread (`admin.func`), queue size warnings, or the time in message headers;
  payloads are values, so data that a message only points to is not copied.
- IttiTimers.TimerTask.Scan: what happens in the undefined case is taken to be that the loop goes on with the next
  timer, in the runs too; times are unbounded and UINT64_MAX is a value of its own; clock readings are inputs.
- The host of the terminal is little-endian; datagrams longer than its buffer are not modelled.
- The octets stored in terminal queue items, sockets, threads and printing.
- NAS encoding and encryption: NAS messages are arbitrary octets of at most 50; the variant without encryption is not modelled.
- `schedule_ue_spec_br`, `schedule_PCH`, DCI and nFAPI field filling and DAI: table filling that would only add easy members.
- `Attach.c` and `s1ap_mme_decoder.c`: dispatch to code that is not part of this model.
