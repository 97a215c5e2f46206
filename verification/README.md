# Dastard: what its streaming core guarantees

Dastard takes in data from microcalorimeter arrays as a stream of arbitrary segments, keeps a short
trimmed history per channel, and must produce results as if each whole, unbounded stream had been seen
at once.  This Dafny project models the parts of it where that is hard to see, and proves it.  Code that
changes objects in place is a class or a method with loops, proved against a function over the whole
stream; the theorems are about those functions and hold for every input, every way of cutting it up and
every run.  `dafny verify dfyconfig.toml` checks everything.

| file | component |
|---|---|
| Common.dfy | samples, options, two's-complement narrowing, quotients and remainders |
| EdgeMultiSpec.dfy | edge-multi-trigger (EMT) search and records of one whole stream |
| DataStream.dfy | the append/trim buffer of one channel |
| EdgeMultiTrigger.dfy | the EMT state machine working on a trimmed buffer |
| EdgeMultiChannel.dfy | a channel's rounds of append, trigger, trim |
| EdgeMultiModes.dfy | what the four EMT record modes guarantee over whole runs |
| SearchLaws.dfy | what the EMT search finds, told by the samples alone |
| EdgeMultiLimits.dfy | for which settings those guarantees hold, with streams on which they fail otherwise |
| DeadTime.dfy | searches with a dead time after each trigger, in one go and segment by segment |
| LegacyTriggers.dfy, LegacyRuns.dfy | edge, level and auto triggers, in one buffer and over runs |
| AutoLaws.dfy | where auto triggers lie among the others |
| SegmentDependence.dfy | when edge and level triggers depend on where segments end |
| TriggerCounters.dfy, TriggerBroker.dfy | trigger-rate counting and the cross-channel broker |
| TriggerReports.dfy | which message reports which trigger |
| LateCounts.dfy | an EMT run in which a trigger is never counted |
| SecondaryTriggers.dfy | cutting secondary records |
| SegmentRounds.dfy | a round over all channels: triggers, broker, counters, secondary records, trimming |
| Unwrapper.dfy | the 16-bit phase unwrapper |
| PacketBytes.dfy, Packets.dfy | the packet codec |
| WireFormat.dfy | the wire format of packets, byte by byte |
| Resonators.dfy | gap filling, alignment and de-interleaving of one packet group |
| ReadingRounds.dfy | a round over all packet groups |
| FrameBits.dfy, RingBuffers.dfy, LanceroReader.dfy | frame-bit search, DMA ring buffer, and the Lancero reader tick |
| FrameLosses.dfy | what a tick makes of bytes that are not an intact stream |
| ChannelOrder.dfy | the map from channel numbers to readout order |
| BaselineMonitor.dfy | the chunked baseline monitor |
| AsyncWriter.dfy | the asynchronous buffered writer as a system of interleaved steps |

## What the proofs turned up

Where the code does not do what its comments or its design say, the model follows the code, a lemma gives
the failing input, and another says exactly when the code is right.

- A reset EMT search behaves as if there had been a trigger at frame 0.  In the modes that ask for distance
  a trigger gets a record exactly when it is `nsamp` after the one before (`DistanceDecides`), so a first
  trigger closer than that to frame 0 gets none, though nothing was before it (`FirstRecordLost`); that
  can happen exactly unless the earliest possible trigger is `nsamp` after frame 0
  (`FirstFarEnoughExactly`).  The field `t` is carried between calls but never read before it is
  overwritten.
- The subtraction that gives the first search index is narrowed to 32 bits.  A search reset at frame `f0`
  looks at everything exactly when `f0` modulo 2^32 is at most 2^31 or within `npre` of wrapping
  (`StartIndexExact`); otherwise it is deaf, at worst for 2^31-1 frames (`StartIndexDeaf`).
- With the kink fit on, two neighbouring triggers can be moved to one frame, and then neither is recorded,
  even in the modes that record every trigger (`TwinTriggersLost`).  Those modes make one record for every
  trigger, on every stream and with every fit, exactly when the fit is off or at least two monotone samples
  are asked for (`AllRecordedExactly`).
- A trigger moved before the first legal index is the very first one, and at most one sample too early
  (`NilOnlyFirst`, `PrimaryWhole`).  Where its record would be full-length it is nil, is deleted, and never
  becomes a primary.  A variable-length record is cut short instead and does become a primary, and every
  receiver of it then gets a nil secondary record.  This can happen exactly in variable-length mode, with
  the kink fit on, in a stream that starts within a post-trigger length of frame 0
  (`PrimariesWholeExactly`, `PrimaryFallsShort`).  In a whole run nothing else gives a nil secondary
  record (`SegmentRounds.RunRounds`).
- A new processor keeps 10 samples when trimming, because its EMT settings still have `nsamp` 0.  Auto
  triggers form an exact progression exactly when trimming keeps a record length
  (`AutoProgressionExactly`), that is, once pulse lengths or triggers have been configured.
- The comment at group_trigger.go:97-98 that `hi` increases on each step is true of all steps from a counter
  on exactly when a step lasts at least one sample and the first one grows (`GrowsExactly`); the first is
  special because the time fix has just moved, and then `hi` can shrink (`HiShrinksAfterNewFix`).  The loops
  end for another reason, which the termination measure of `CatchUp` states.
- Counters stay in lockstep exactly when the latest of each channel's triggers, or the cutoff, falls into
  the same counting interval (`LockstepExactly`, `LateFramesExactly`).  No channel with the common record
  lengths produces a trigger past the cutoff, edge-multi or not, so the panic for counters out of step is
  never reached (`SegmentRounds.ListsShareFix`, `SegmentRounds.Round`).
- An EMT trigger recorded around the corner of a segment comes a call late, and is not counted when its
  interval is over by then (`EdgeMultiCountLost`).  A trigger is lost exactly when the last interval that
  had ended before it was supplied ended at or after its frame (`MissedExactly`, `ConservedExactly`).
- Legacy edge and level triggers depend on where segments end, because the dead time within a call is not
  that across calls.  An edge exactly a record length after a trigger is passed over within a call but found
  by the next (`EdgeStreamTriggers` gives a stream and segments); a run of edge triggers alone is independent
  of its segments exactly when the stream has no such edge and trimming keeps a record length, or when there
  is no trigger at all (`EdgesSameExactly`).  Overlapping level triggers are both found within a call, but
  only the first across calls (`LevelsDependOnSegments`, `LevelsSameExactly`).
- `AddConnection` checks the receiver but not the source; a source that does not exist makes `Distribute`
  index out of range, exactly when there are primaries and connections at all (`TriggerBroker.Distribute`).
- Unwrapping inverts wrapping exactly when the bias is at most half a turn plus one (`InvertsExactly`).
- A packet comes back from its bytes exactly when its one dimension is positive and its payload is not
  empty and below 2^16 bytes (`RoundTrip`).  `NewData` with more than one dimension runs past the one size
  it allocates.  `NewData` with a slice of a type it does not know resets the header length before it
  returns its error; a packet that had data then writes 16 bytes more than its header declares, and is read
  back without data (`UnknownTypeLosesData`).
- Gap filling counts from `lastSN`+1.  It leaves a queue without gaps exactly when no packet is carried over
  from an earlier round, or there was no gap (`FilledExactly`): with a packet carried over, the first gap
  always stays (`FirstGapStays`, `CarriedPacketsHideGap`).  Packets are carried over whenever a group has
  more frames than the shortest one, and in the groups filled before one without data is met
  (`ReadRound`).
- De-interleaving panics exactly when some group cannot give as many frames as the shortest one has in whole
  packets (`ReadRound`, `FillsExactly`); it never does when all packets hold equally many frames
  (`EqualNeverPanics`), and does with packets of 4 and 6 (`UnequalPacketsPanic`).
- The comment at resonator.go:365 that the 16 highest bits of 32-bit data are kept is true exactly of values
  that are not negative or have no lower bits; the division rounds other values up (`HighBitsExactly`).
- FindFrameBits without any frame start in the buffer goes on at byte 0, where there are no frame bits.  The
  reader then divides by zero exactly when the lowest bit there is clear (`NoFrameBitExactly`), and otherwise
  may believe to see frames (`FrameBitsByAccident`), but it takes none of them (`TakeExactly`).  A single row
  has no frame starts at all, and nothing is ever taken (`OneRowNeverTaken`).
- The reader gives up with a panic exactly when the first frame start it sees is more than a frame away, or
  bits that are not frame bits look like some (`CannotAlignExactly`).  So it does not survive every loss of
  data: when a loss of less than a frame takes the whole start of the second frame of a read with it, the
  reader panics (`LossInFirstFrame`, `LossInFirstBits`); a loss in the second frame makes it throw everything
  away, or go unseen if the next start is up to `ncols`-1 words off (`LossInSecondFrame`); and a loss behind
  the first two frame starts is not noticed in that read (`LossUnseen`).
- Close on the asynchronous writer can return too early, exactly when it is called while a Flush has
  emptied the channel but not returned and more was written meanwhile (`CloseReturnsEarlyExactly`,
  `FlushAndCloseRace`).  A Write after Close does not panic, as asyncbufio.go:56-57 says, but is accepted
  and lost (`LostAfterClose`).
- The baseline monitor needs `nAverage` of at least 1; with less, a chunk makes no progress.  The caller
  (process_data.go:86) sees to it.

## Model

| member | source | states |
|---|---|---|
| EdgeMultiSpec.FiresLocal | edge_multi_trigger.go:292-298 | The search reads nothing outside a potential record: in any buffer that holds the window around an index it fires there, and moves the trigger, just as in the whole stream |
| EdgeMultiSpec.ScanSplit | edge_multi_trigger.go:167-194 | Searching up to one index and then on from where that stopped finds the triggers of one search, run skips included |
| EdgeMultiSpec.ScanPrefix | edge_multi_trigger.go:167-194 | Samples that arrive later never change what was found earlier |
| EdgeMultiSpec.ScanShape | edge_multi_trigger.go:167-194 | Triggers come out in order, inside the searched range and before the next index; strictly in order unless the kink fit is on and nmonotone is below 2 |
| EdgeMultiSpec.SearchAppend | edge_multi_trigger.go:311-332 | Appending samples to a stream appends triggers, and the search resumes where it had stopped |
| EdgeMultiSpec.StartIndexExact | edge_multi_trigger.go:299-308 | When the 32-bit narrowing leaves a reset search starting at npre: an exact condition on the first frame |
| EdgeMultiSpec.StartIndexDeaf | edge_multi_trigger.go:299-308 | A concrete first frame after which the search is deaf for 2^31-1 frames |
| EdgeMultiSpec.CollectExtend | edge_multi_trigger.go:310-344 | Records of settled triggers do not depend on triggers found later |
| EdgeMultiTrigger.FindNextTriggerInd | edge_multi_trigger.go:167-194 | The nested scanning loops take one step of the search: they return the first index that fires, moved by the fit, and where to go on; the laws below say what these steps add up to |
| EdgeMultiTrigger.FirstFireIsFirst | edge_multi_trigger.go:172-190 | No index before the one found fires, and that one does |
| SearchLaws.SearchFinds | edge_multi_trigger.go:167-194 | By samples alone: the triggers of a stream are, in order, exactly the steps across the threshold with enough monotone samples behind them that are not in the pulse of an earlier one, each moved by the fit; the pulse of a step lasts while the samples are monotone, npost at most; and the search has gone past the last pulse and no farther |
| SearchLaws.FoundUnique | edge_multi_trigger.go:167-194 | Only one list of indices meets that description |
| SearchLaws.OneTriggerPerPulse | edge_multi_trigger.go:172-190 | With the fit off: an index at which the search fires is a trigger or follows one by at most npost with nothing but monotone samples between, and never both |
| SearchLaws.EveryTriggerSettles | edge_multi_trigger.go:325-344 | Every trigger is settled, so that its record can be made, as soon as enough samples follow |
| EdgeMultiTrigger.CountMonotone | edge_multi_trigger.go:179-187 | The inner loop counts the monotone samples after a crossing, capped at maxNmonotone |
| EdgeMultiTrigger.ScanBuffer | edge_multi_trigger.go:309-317 | One search step in a trimmed buffer is one step of the search of the whole stream |
| EdgeMultiTrigger.LedgerTrigger | edge_multi_trigger.go:317-321 | A new trigger records exactly its predecessor, unless that one was already recorded around the corner: no trigger is recorded twice |
| EdgeMultiTrigger.LedgerCorner | edge_multi_trigger.go:325-344 | The end of a call records the last trigger exactly when it is more than nsamp before the next frame to inspect, and u == v remembers that |
| EdgeMultiTrigger.SpecInBuffer | edge_multi_trigger.go:287-289 | The retention bound: after trimming to 2*nsamp+10 samples, a trigger carried over from earlier rounds still has its whole record in the buffer |
| EdgeMultiTrigger.MakeRecordLocal | triggering.go:46-64 | A record cut from the trimmed buffer has the samples of the stream at its own frames |
| EdgeMultiTrigger.SearchShape | edge_multi_trigger.go:309-332 | Every trigger of a stream is a positive frame in the search range |
| EdgeMultiTrigger.SearchAndRecord | edge_multi_trigger.go:309-322 | The search loop of one call, on the buffer, with the t, u, v hand-over: finds the stream's triggers and emits their records inside the buffer |
| EdgeMultiTrigger.RecordCorner | edge_multi_trigger.go:333-344 | The tail of a call completes the records of the whole stream so far |
| EdgeMultiTrigger.EMTState.Reset | edge_multi_trigger.go:224-228 | The state after a reset |
| EdgeMultiTrigger.EMTState.FirstIndex | edge_multi_trigger.go:299-308 | Between calls the search resumes at the frame where the whole stream's search stands; the state is never reset unexpectedly |
| EdgeMultiTrigger.EMTState.EdgeMultiComputeRecordSpecs | edge_multi_trigger.go:291-354 | One call emits exactly the records its new samples add to the whole stream, each inside the buffer it was given |
| DataStreams.DataStream.AppendSegment | data_source.go:1214-1230 | Appending keeps all samples and takes the frame count from the segment |
| DataStreams.DataStream.TrimKeepingN | data_source.go:1235-1246 | Trimming keeps the last N samples, each at its own frame number |
| EdgeMultiChannel.Channel.ProcessSegment | process_data.go:149-162 | Append and trigger: the new records are those the segment adds to the stream; no primary is past the cutoff, and a full-length record fits at each, but for one that may fall short |
| EdgeMultiChannel.Channel.EdgeMultiTriggerComputeAppend | edge_multi_trigger.go:356-364 | Cutting specs out of the buffer gives the stream's records, nil ones dropped |
| EdgeMultiChannel.Channel.TrimStream | process_data.go:302-304 | Trimming keeps everything later rounds need |
| EdgeMultiChannel.NewRecords | triggering.go:246-272 | The records, data included, of the specs a call emits are what its samples add to the records of the stream |
| EdgeMultiChannel.PrimariesInBuffer | triggering.go:272-290 | Of the records left after nil ones are deleted, each has room for a full-length record at its frame in the buffer of its call and is not past the cutoff, but for one that may fall short |
| EdgeMultiChannel.RunSegments | data_source.go:438-484 | Segmentation independence: for any segments of a gapless stream, in all four modes, the records with their data and the final next frame to inspect are those of the whole stream at once |
| EdgeMultiModes.RecordPlace | edge_multi_trigger.go:251-281 | Where a record lies between its neighbouring triggers, mode by mode |
| EdgeMultiModes.OriginsMatch | edge_multi_trigger.go:310-344 | Each record belongs to one trigger, in order, and no trigger that deserves one is missed |
| EdgeMultiModes.RecordsDisjoint | edge_multi_trigger.go:251-281 | Over any run no trigger is recorded twice, and outside TwoFullLength no two records share a sample |
| EdgeMultiModes.IsolatedAlone | edge_multi_trigger.go:275-278 | An isolated record contains no trigger but its own |
| EdgeMultiModes.RecordSpecsGrow | edge_multi_trigger.go:291-354 | Records once emitted are never changed: those of a stream begin with those of any part seen earlier |
| EdgeMultiModes.NilOnlyFirst | triggering.go:46-64 | Only the very first record can be nil, and only with the kink fit on |
| EdgeMultiModes.RecordsAreSamples | triggering.go:46-64 | Each record is exactly the input samples at the frames its spec names, and every spec has one but for a first one moved out of reach by the kink fit |
| EdgeMultiModes.DistanceDecides | edge_multi_trigger.go:268-281 | In the modes that ask for distance, over any run: a settled trigger gets a record if and only if it is nsamp after the one before (the first after frame 0) and, for an isolated record, npost before the next |
| EdgeMultiModes.OneRecordPerTrigger | edge_multi_trigger.go:264-274 | Unless the kink fit is on and nmonotone below 2, the other modes make one record per settled trigger, in order |
| EdgeMultiModes.VariableLengthShares | edge_multi_trigger.go:252-266 | post(u)+pre(v) == min(nsamp, v-u) for neighbouring variable-length records, unless the kink fit is on and nmonotone below 2 |
| EdgeMultiModes.PrimaryWhole | triggering.go:272-284 | There is room for a full-length record at the frame of every record of a run, or it is the first one, one sample too early, in variable-length mode with the kink fit on and a start within npost of frame 0 |
| EdgeMultiModes.TwinTriggersLost | edge_multi_trigger.go:256-262 | A concrete stream whose two triggers are both moved to one frame and lost |
| EdgeMultiLimits.AllRecordedExactly | edge_multi_trigger.go:256-274 | For every stream, start and kink fit these modes make one record for each settled trigger, if and only if the fit is off or nmonotone is at least 2 (or 16-bit data cannot trigger at all) |
| EdgeMultiLimits.TwinsLost | edge_multi_trigger.go:256-274 | Otherwise, for any such settings: a stream and a fit with two triggers and no record |
| EdgeMultiLimits.FirstFarEnoughExactly | edge_multi_trigger.go:224-228 | The first trigger of every stream from frame f0 is at least nsamp, as the distance modes ask, if and only if the earliest possible one is |
| EdgeMultiLimits.FirstRecordLost | edge_multi_trigger.go:268-274 | For any settings with a fit that moves nothing: a stream from frame 0 whose first trigger has room for a record and gets none in OneFullLength |
| EdgeMultiLimits.PrimariesWholeExactly | triggering.go:272-290 | Every primary of every stream from frame f0 has room for a full-length record, if and only if records are not of variable length, or the kink fit is off, or f0 is more than npost |
| EdgeMultiLimits.PrimaryFallsShort | triggering.go:46-64 | Otherwise: a stream and a fit whose first primary has no room, so that a full-length record cut there is nil |
| LegacyTriggers.EdgeTriggerComputeAppend | triggering.go:94-120 | The loop finds the picks of the edges with a dead time of a record length and one sample: more than a record length apart, and no edge outside their dead times is missed |
| LegacyTriggers.LevelTriggerComputeAppend | triggering.go:122-174 | Level triggers are exactly the crossings at least a record length from every edge trigger, overlapping ones included |
| LegacyTriggers.LevelsAlone | triggering.go:122-174 | Without edge triggers, all crossings |
| LegacyTriggers.CheckVeto | triggering.go:205-219 | The running extremes detect exactly a spread of the veto range or more |
| LegacyTriggers.AutoTriggerComputeAppend | triggering.go:176-239 | The jumping loop follows the auto-trigger specification, whose triggers the laws below place; the lexicographic measure ends it |
| LegacyTriggers.AutoScanApart | triggering.go:176-239 | Auto triggers keep a record length from each other and from every other trigger, are not vetoed, and fit |
| LegacyTriggers.EdgeHitsMean | triggering.go:101-114 | The shift by 2^15 makes unsigned comparisons signed: there is an edge exactly where two neighbouring values, in two's complement if the data are signed, are together edgeLevel above, or below, the two before |
| LegacyTriggers.LevelHitsMean | triggering.go:135-167 | Likewise, a crossing exactly where a value reaches the level from the other side |
| AutoLaws.AutoScanLaws | triggering.go:176-239 | Without a veto: every auto trigger is at the first potential index or exactly the auto delay after another trigger, of any kind; none is sooner; there is no room for one before any other trigger; and none fits behind the last |
| AutoLaws.TriggersTight | triggering.go:176-277 | So of two successive triggers of a call, an auto one follows by exactly the auto delay and another one by less than that and a record length; likewise from the first potential index; and the last is less than the auto delay before the end of the range |
| AutoLaws.VetoTakesAway | triggering.go:205-239 | With a veto, the auto triggers are exactly those attempts that are not vetoed, and an attempt is made wherever there would be an auto trigger without it |
| LegacyTriggers.TriggerData | triggering.go:246-277 | A call finds exactly the edges, the level crossings that keep from them, and the autos that keep from both, in order of time; only two level triggers can overlap, and all lie where a whole record fits |
| LegacyRuns.StepsProgression | triggering.go:80-92 | The auto frames are an arithmetic progression with every term below the limit |
| LegacyRuns.StepsSplit | triggering.go:176-239 | Cutting the progression at any limit and going on from the next term changes nothing |
| LegacyRuns.AutoProgression | triggering.go:176-239 | For any segment sizes and trims, auto triggers are at first+npre+k*max(NSamples, delay), for every k whose record ends before the last sample, if trimming keeps a record length |
| LegacyRuns.AutoProgressionFails | process_data.go:302-304 | Segment sizes that break the progression whenever less is kept |
| LegacyRuns.AutoProgressionExactly | process_data.go:302-304 | Segment sizes do not matter if and only if trimming keeps at least NSamples |
| LegacyRuns.LegacyChannel.ProcessSegment | triggering.go:246-277 | A call finds exactly the triggers of what was kept and the segment, from the last trigger on; their records lie in the buffer whole, none past the cutoff, and a record length after all earlier triggers |
| LegacyRuns.RunSegments | triggering.go:246-277 | The calls of every run are exactly those of the specification, triggers of any kind; records of different calls are a record length apart, and unvetoed auto triggers alone follow the progression |
| DeadTimes.PicksCover | triggering.go:110-118 | Whatever could trigger lies in the dead time of a trigger found |
| DeadTimes.RunIsWholeExactly | triggering.go:66-76 | For any dead times within and across searches and any number of samples kept: all segmentations give the triggers of one search, if and only if there are none, or a record length is kept and after no trigger do the two dead times make a difference |
| SegmentDependence.OneKindRun | triggering.go:94-174 | A run of edge triggers alone, or level triggers alone, trimming included, is such a run |
| SegmentDependence.EdgesSameExactly | triggering.go:110-118 | Edge triggers of a stream do not depend on its segments if and only if there are none, or trimming keeps a record length and no edge lies exactly a record length after a trigger of the whole stream |
| SegmentDependence.EdgeStreamTriggers | triggering.go:66-76 | For any settings that can trigger: a stream with one trigger in one segment and two in two |
| SegmentDependence.EdgesSegmentsMatterExactly | triggering.go:110-118 | No stream depends on its segments if and only if 16-bit data cannot make an edge |
| SegmentDependence.LevelsSameExactly | triggering.go:145-170 | Level triggers do not depend on segments if and only if there are none, or trimming keeps a record length and no two of the whole stream overlap |
| SegmentDependence.LevelsDependOnSegments | triggering.go:66-76 | For any settings that can trigger: a stream with two overlapping level triggers that depends on its segments |
| SegmentDependence.LevelsSegmentsMatterExactly | triggering.go:145-170 | No stream depends on its segments if and only if 16-bit data cannot cross the level |
| TriggerCounters.Initialize | group_trigger.go:51-62 | The first interval ends at a multiple of the step not before keyTime and less than a step after it |
| TriggerCounters.StepGetsNearer | group_trigger.go:96-108 | The measure of the catch-up loops: each step but the first brings hiTime nearer to a horizon, though hi need not grow |
| TriggerCounters.CatchUp | group_trigger.go:99-101 | The loop ends for every positive rate, with hi at or past the bound |
| TriggerCounters.GrowsExactly | group_trigger.go:97-98 | From any counter, hi grows on every one of any number of steps if and only if a step lasts at least one sample and the first step grows |
| TriggerCounters.HiShrinksAfterNewFix | group_trigger.go:97-98 | Two calls, at one rate and without triggers, in the second of which hi shrinks on the way to the cutoff |
| TriggerCounters.OnlyLatestMatters | group_trigger.go:96-108 | Any triggers and a cutoff leave the counter, but for counts, where catching up with the latest of them alone would |
| TriggerCounters.LockstepExactly | group_trigger.go:82-111 | Channels that share the time fix and the cutoff stay in step if and only if the latest of each one's triggers, or the cutoff, falls into the same interval |
| TriggerCounters.Lockstep | group_trigger.go:82-111 | So they do whatever their triggers, if none is past the cutoff |
| TriggerCounters.LateFramesExactly | group_trigger.go:106-108 | A list leaves the counter in step with one without triggers if and only if none of its triggers is beyond the interval of the cutoff |
| TriggerCounters.CountFrameExactly | group_trigger.go:96-105 | A trigger is counted if and only if it is at or after lo, or beyond hi |
| TriggerCounters.StartedCounts | group_trigger.go:93-95 | A new counter counts as one initialized beforehand from the first list's time fix |
| TriggerCounters.CountsConserved | group_trigger.go:66-111 | The totals: all messages plus the pending count account for every trigger, however the time fix moves, if triggers come in order and none after its own time; which message accounts for which is in TriggerReports |
| TriggerCounters.CountsExactly | group_trigger.go:66-111 | In any run whatever, messages plus pending count plus missed triggers make up every trigger supplied |
| TriggerCounters.MissedExactly | group_trigger.go:96-105 | A trigger is not counted if and only if the last interval that had ended before it was supplied ended at or after its frame |
| TriggerCounters.ConservedExactly | group_trigger.go:66-111 | Over any sequence of lists all triggers are accounted for if and only if none comes after its interval has ended |
| TriggerReports.ReportsExactly | group_trigger.go:66-111 | After any run of lists there is a message for each interval end passed, and message k reports exactly the triggers counted between the ends k-1 and k; those counted since the last end are pending |
| TriggerReports.PlacesExactly | group_trigger.go:96-108 | A trigger is either missed or counted in the interval that its frame lies in, behind the end before and up to its own |
| TriggerReports.ReportedBetween | group_trigger.go:66-111 | If all triggers come in time and the interval ends go up, message k reports the number of triggers supplied between end k-1 and end k, and the pending count the rest |
| TriggerReports.OneFixEnds | group_trigger.go:73-76 | With one time fix the ends are those of the clock: the frame that the fix gives for every step |
| TriggerReports.OneFixReports | group_trigger.go:66-111 | With one time fix, message k has the time and duration of interval k and the number of triggers supplied with frames in it |
| TriggerReports.FirstReports | group_trigger.go:66-111 | A new counter given one trigger at frame 500 reports 0 for the interval before it and 1 for its own |
| LateCounts.EdgeMultiCountLost | edge_multi_trigger.go:325-344 | Segments of 14 and 8 samples in which an EMT channel records a trigger around the corner and its counter, given the channel's lists, counts none |
| TriggerBrokers.TriggerCounter.CountNewTriggers | group_trigger.go:82-111 | The object's loops count a list as the counting function does, whose messages the laws below spell out |
| TriggerBrokers.ConnectionsUpdate | group_trigger.go:148-176 | How changing one receiver's sources changes the number of connections |
| TriggerBrokers.TriggerBroker.AddConnection | group_trigger.go:148-162 | Adds one source to one receiver and keeps nconnections equal to the number of connections; errors on a bad receiver only |
| TriggerBrokers.TriggerBroker.DeleteConnection | group_trigger.go:166-176 | Removes one, likewise |
| TriggerBrokers.TriggerBroker.StopTriggerCoupling | group_trigger.go:179-186 | Removes them all |
| TriggerBrokers.OrderUnique | group_trigger.go:255 | A multiset has one sorted order, so the order in which Go walks a map cannot show |
| TriggerBrokers.UnionMember | group_trigger.go:251-254 | Every frame a receiver gets is a primary of one of its sources |
| TriggerBrokers.StayInStep | group_trigger.go:225-240 | A Distribute with a shared time fix keeps all counters in step |
| TriggerBrokers.TriggerBroker.Distribute | group_trigger.go:225-260 | Exactly the receivers with sources get frames, if there are any primaries: the sorted multiset union of their sources' primaries; the index panic happens exactly for an unknown source; lockstep is kept |
| TriggerBrokers.FramesForUnion | group_trigger.go:245-260 | What a receiver gets, or not, is the union of its sources' primaries |
| TriggerBrokers.TriggerBroker.GenerateTriggerMessages | group_trigger.go:266-295 | In lockstep it publishes one message per interval with every channel's count, and clears them |
| TriggerBrokers.TriggerBroker.Round | data_source.go:456-467 | Distribute, and then unless it panics, exactly for an unknown source, GenerateTriggerMessages: no panic there, every receiver gets its sources' primaries, each channel's counts are published and cleared, lockstep again |
| TriggerBrokers.RunBroker | group_trigger.go:266-295 | Over any run of rounds with a shared time fix, however channels are connected, nothing panics, every receiver gets its sources' primaries in every round, and each channel's published counts are those of a counter that saw all its trigger lists |
| TriggerBrokers.AllDrainedNext | group_trigger.go:266-295 | Emptying the counters after every round publishes the same counts as never emptying them |
| TriggerReports.PublishedReports | group_trigger.go:266-295 | The counts published for a channel over a run are, one for each interval end passed, those of the triggers counted in its interval |
| TriggerReports.PublishedBetween | group_trigger.go:266-295 | For triggers in time, the number of triggers between two interval ends |
| SecondaryTriggers.TriggerDataSecondary | triggering.go:297-303 | One full-length record per secondary frame |
| SecondaryTriggers.WholeGivesRecord | triggering.go:46-64 | Where a whole record fits, the receiver cuts its own samples around the frame |
| SegmentRounds.ProcessSegment | process_data.go:149-162 | For an EMT or legacy channel: a trigger list with exactly the primaries that the segment adds, the common time fix and cutoff, no trigger past it, and room for a full-length record at each, but for one that may fall short |
| SegmentRounds.ListsShareFix | triggering.go:285-289 | Lists of channels with the same record lengths and equally long streams share the time fix and cutoff, and no trigger is past it |
| SegmentRounds.ReceivedIsGood | group_trigger.go:251-254 | At every frame a receiver gets a full-length record fits in the buffer of any channel, but for primaries that may fall short |
| SegmentRounds.Round | data_source.go:431-484 | One round over any mix of EMT and legacy channels: the primaries are those the segments add, the counters count them and stay in lockstep; unless a source is unknown, every receiver gets all primaries of its sources with a complete record of its own samples for each, but for those that may fall short, and all channels are ready for the next round |
| SegmentRounds.RunRounds | data_source.go:431-484 | Over any run: each channel's primaries are those of its segments, of its whole stream for an EMT channel; every receiver gets the multiset of its sources' primaries, with a complete record for each but those that may fall short; published counts are those of all primaries; no panic |
| SegmentRounds.RunReports | data_source.go:431-484 | Over a run with primaries in time, the k-th count published for a channel is the number of its primaries between the interval ends k-1 and k |
| SegmentRounds.PrimariesNext | triggering.go:279-283 | What a segment adds to the primaries of earlier segments makes those of all |
| SegmentRounds.SecondariesIndependent | data_source.go:431-484 | What the receivers of EMT sources get over a run does not depend on how the streams were cut |
| Unwrappers.NewSettings | phase_unwrap.go:24-67 | The constructor panics exactly on an enabled unwrapper without a positive reset interval |
| Unwrappers.NewSettingsUsable | phase_unwrap.go:46-59 | What it computes meets the invariants: whole turns in 16 bits, bias inside a turn |
| Unwrappers.NewSettingsMean | phase_unwrap.go:46-59 | What a turn, the bias and the reset offset are in numbers: 2^(fractionBits-lowBitsToDrop), the bias level without its low bits within a turn, and the offset by the pulse sign |
| Unwrappers.SplitsDoNotMatter | phase_unwrap.go:94-120 | Splitting the data into calls does not change outputs or state |
| Unwrappers.AlwaysTidy | phase_unwrap.go:94-120 | The offset is always a whole number of turns, lastVal a reduced phase |
| Unwrappers.OutputsAreInputs | phase_unwrap.go:94-120 | Modulo one turn every output is the input, complemented when inverting, without the bits above fractionBits and the dropped ones |
| Unwrappers.ExcursionsBounded | phase_unwrap.go:107-118 | At most resetAfter successive outputs use another offset than the reset offset |
| Unwrappers.ResetExactly | phase_unwrap.go:107-118 | The offset goes back to the reset offset exactly when the resetAfter states before all had another one, and otherwise follows the step correction alone |
| Unwrappers.ResetWaits | phase_unwrap.go:107-118 | So a reset comes if and only if the corrected offset and those of the resetAfter states before are all another: never sooner |
| Unwrappers.CorrectsSteps | phase_unwrap.go:97-105 | Inside the limits the correction turns the wrapped step into the true one |
| Unwrappers.CorrectionFails | phase_unwrap.go:48-51 | A larger bias spoils some step inside the limits |
| Unwrappers.InvertsExactly | phase_unwrap.go:48-51 | Every step inside the limits is recovered if and only if the bias is at most half a turn plus one |
| Unwrappers.UnwrapInvertsWrap | phase_unwrap.go:94-120 | Unwrapping a wrapped phase reproduces its increments modulo 2^16 between resets |
| Unwrappers.PhaseUnwrapper.UnwrapInPlace | phase_unwrap.go:70-121 | The in-place loops, in all three configurations: samples complemented exactly when inverting; without bits to drop nothing else; disabled, masked and shifted; else these outputs and the state after |
| Packets.ParseAllTLV | packets/packets.go:565-706 | The loop over the shrinking slice computes the recursive parse, with every error case; what each item means is in WireFormat |
| Packets.ParseTLVConcat | packets/packets.go:565-706 | Parsing a concatenation is the concatenation of the parses |
| Packets.ItemsParse | packets/packets.go:251-307 | The header items written parse back to the same items, unless the size is not positive |
| Packets.BytesLayout | packets/packets.go:251-323 | Where Bytes puts every header field, the items and the payload; WritesHeader has the values byte by byte |
| Packets.LengthExact | packets/packets.go:251-323 | The number of bytes is headerLength+payloadLength if and only if the payload length was not truncated to 16 bits |
| Packets.PacketBuilder.ClearData | packets/packets.go:71-82 | Keeps the header-length invariant and drops the data |
| Packets.PacketBuilder.SetTimestamp | packets/packets.go:135-142 | Keeps the invariant; 16 bytes more unless there was one |
| Packets.PacketBuilder.ResetTimestamp | packets/packets.go:145-152 | Keeps the invariant; 16 bytes less if there was one |
| Packets.PacketBuilder.NewData | packets/packets.go:202-248 | The packet after each outcome: stored, too long, unknown type, index panic; the invariant is kept by the first two, by the third exactly when there were no data before, and not by the last |
| Packets.RoundTrip | packets/packets.go:414-510 | Every packet built with these methods comes back whole from ReadPacket(Bytes(p)) if and only if its size is positive and its payload not empty and not truncated; WireFormat fixes the bytes between |
| Packets.UnknownTypeLosesData | packets/packets.go:202-225 | After an unknown type, a packet with data writes 16 bytes more than its lengths declare, and is read back without data and with all those bytes left over |
| PacketBytes.WordsRoundTrip | packets/packets.go:309-319 | Slices of signed words survive being laid out as bytes |
| PacketBytes.FromBEMeans | packets/packets.go:424-432 | A number read in network order is the sum of s[i] * 256^(|s|-1-i) |
| PacketBytes.FromLEMeans | packets/packets.go:468-489 | One in the host's order, the sum of s[i] * 256^i |
| PacketBytes.BEDigits | packets/packets.go:253-258 | Byte i of a number written in network order is digit k-1-i of it |
| PacketBytes.LEDigits | packets/packets.go:310-319 | In the host's order, digit i |
| PacketBytes.WordPlace | packets/packets.go:310-319 | Word k of a payload is at bytes k*w to k*w+w, in either order |
| PacketBytes.SwapOrders | packets/packets.go:357-379 | Swapping the bytes of each word turns a payload in the host's order into one in network order and back |
| WireFormat.ReadHeader | packets/packets.go:414-433 | A packet is read only from bytes 4 to 7 81 0b 00 ff and a header length from 16 up; version and lengths, source and sequence number are the big-endian numbers at bytes 0, 1, 2, 8 and 12 |
| WireFormat.ReadParts | packets/packets.go:437-510 | Behind the 16 bytes, headerLength-16 bytes are items, and the rest is payload, read if it is not empty and an item gives its format |
| WireFormat.ShortestPacket | packets/packets.go:414-433 | The 16 bytes of a packet without items |
| WireFormat.DataPacket | packets/packets.go:414-510 | A packet of 36 bytes, with two 16-bit words in network order, and what is read from it |
| WireFormat.WritesHeader | packets/packets.go:251-258 | The header that Bytes writes, at these bytes |
| WireFormat.NextItem | packets/packets.go:566-579 | An item gives its size in units of eight bytes, and the rest is parsed behind it |
| WireFormat.TagItem | packets/packets.go:581-587 | A tag: four bytes, behind two that must be zero |
| WireFormat.TimestampItem | packets/packets.go:589-598 | A timestamp: 48 bits shifted up by 16, in nanoseconds |
| WireFormat.CounterItem | packets/packets.go:602-609 | A counter: a signed number of two bytes and a signed count of four; any other size is an error |
| WireFormat.TimestampUnitItem | packets/packets.go:611-632 | A timestamp with unit: valid bits, exponent, numerator, denominator and count by position; too many bits or too small a size is an error |
| WireFormat.FormatLetters | packets/packets.go:634-671 | A format is read if and only if all its characters are known; its components are those of the letters in order, its byte order that of the last sign, its word length their total size |
| WireFormat.ShapeItemMeans | packets/packets.go:673-684 | A shape: the positive ones of its signed 16-bit numbers, of which there must be one |
| WireFormat.ChannelOffsetItem | packets/packets.go:686-692 | A channel offset: four bytes, behind two that must be zero |
| WireFormat.WordsInEitherOrder | packets/packets.go:464-500 | Words written in network order and words written in the host's are read back as the same data, under the format that says so |
| Resonators.ResonatorGroup.FillMissingPackets | resonator.go:262-287 | The loops compute the filled queue; lastSN becomes the last number received |
| Resonators.FilledGapFree | resonator.go:262-287 | Filling numbers the queue without gaps from the expected number to the last; originals stay in place unchanged, the rest copy the next packet received |
| Resonators.FilledExactly | resonator.go:268 | The filled queue has no gap, from the first number carried over or expected up to the last received, if and only if no packet was carried over or the queue had no gap |
| Resonators.CarriedAreKept | resonator.go:268-280 | With a packet carried over, the packets up to the first gap are left as they are |
| Resonators.FirstGapStays | resonator.go:268-280 | With a packet carried over, the first gap of the queue is not filled |
| Resonators.CarriedPacketsHideGap | resonator.go:268-280 | A queue with packets carried over in which a missing number stays missing |
| Resonators.PretendRepeats | packets/packets.go:157-181 | In a pretend packet every channel repeats its first value, and the frame count is the same |
| Resonators.FilledWhole | packets/packets.go:157-181 | Filling keeps packets whole numbers of frames, so the queue can be de-interleaved |
| Resonators.ResonatorGroup.TrimPacketsBefore | resonator.go:291-303 | Drops exactly the leading packets before the given global number; an empty queue panics |
| Resonators.TrimAligned | resonator.go:911-931 | A group's queue without gaps, trimmed to a global number no earlier than its own first, starts there if and only if it reaches that far, and is used up if and only if it ends earlier and its own numbers do not wrap around before |
| ReadingRounds.FillGroups | resonator.go:905-922 | Queues are filled up to the first group without data, those behind it are not; the latest of the first global numbers |
| ReadingRounds.TrimmedAligned | resonator.go:926-931 | A group without gaps, trimmed, starts at the latest first number of any group, or is used up because it ends before it |
| Resonators.GlobalThenLocal | resonator.go:253-258 | Converting a number to the global count and back gives it again, wrap-around included |
| Resonators.ResonatorGroup.CountSamplesInQueue | resonator.go:306-322 | Counts the values of all packets, 16-bit and 32-bit, per channel, which is the number of their frames; panics exactly on any other payload |
| Resonators.FittingIsMost | resonator.go:344-351 | The packets taken are as many leading ones as fit |
| Resonators.ResonatorGroup.DemuxPacket | resonator.go:354-363 | One packet's frames, 16-bit or 32-bit, go behind those of earlier packets, which stay |
| Resonators.HighBitsExactly | resonator.go:365-379 | Of a 32-bit value the 16 highest bits are kept if and only if it is not negative or has no lower bits; otherwise one more than these |
| Resonators.BitsKept | resonator.go:354-363 | A 16-bit value, signed in the packet, keeps its bits |
| Resonators.ResonatorGroup.DemuxData | resonator.go:326-393 | Channel c, frame k is value k*nchan+c of the packets taken, 32-bit ones scaled; the bytes are those of the packets; what is left of the queue is the rest of it; the panic happens exactly when the packets taken do not fill the request |
| ReadingRounds.FillsExactly | resonator.go:344-385 | A queue fills the request if and only if some first packets hold as many frames |
| ReadingRounds.ReadRound | resonator.go:905-957 | The whole round: filled, trimmed to the latest first number, as many frames from each group as the shortest has; a panic if and only if some group cannot give them in whole packets |
| ReadingRounds.EqualNeverPanics | resonator.go:380-385 | With equal packets in all groups there is no panic |
| ReadingRounds.UnequalPacketsPanic | resonator.go:380-385 | Two queues with unequal packets for which there is |
| FrameBits.FindFrameBits | internal/lancero/lancero.go:166-208 | The three scanning loops return the first and second frame start and the run length, or fail, on any bytes, the fallback without a start included |
| FrameBits.RisesAreStarts | internal/lancero/lancero.go:166-208 | In an intact stream the rises of the frame bit are exactly the later frame starts |
| FrameBits.FindsFrames | internal/lancero/lancero.go:166-208 | From any word phase: once a start is in the buffer, success if and only if the next start is too, and then start, frame length and columns are right |
| FrameBits.ThreeFramesSuffice | lancero_source.go:666 | Three frames are always enough |
| FrameLosses.NoFrameBitExactly | lancero_source.go:670-671 | The division by zero happens if and only if no frame start is in the buffer and the lowest bit of its first byte is clear |
| FrameLosses.TakeExactly | lancero_source.go:670-702 | On any bytes, frames are taken if and only if a frame start is seen at most a frame away and looks like one of the right columns and rows |
| FrameLosses.CannotAlignExactly | lancero_source.go:682-700 | On any bytes, the reader panics here if and only if such a frame start is farther away, or there is none and the first bytes look like one |
| FrameLosses.FrameBitsByAccident | internal/lancero/lancero.go:166-208 | Bytes without any frame bit in which FindFrameBits succeeds |
| FrameLosses.LossInFirstFrame | lancero_source.go:670-702 | What a tick does when words are lost in the first frame of a read, behind its frame bits, by where the stream goes on: take from there, throw away, take from the next start, or panic |
| FrameLosses.LossInFirstBits | lancero_source.go:670-702 | The same for words lost among the frame bits of the first frame |
| FrameLosses.LossInSecondFrame | lancero_source.go:670-676 | For words lost in the second frame: everything is thrown away, unless the next start is one frame from the second, give or take the remainder of the division |
| FrameLosses.InStepAfterLoss | lancero_source.go:682-755 | If frames are taken in spite of it, the read position is on a frame start of the stream as it goes on |
| FrameLosses.LossUnseen | lancero_source.go:670-702 | A loss behind the first two frame starts changes nothing about what the tick does, whatever follows |
| RingBuffers.Adapter.Transfer | internal/lancero/lancero_adapter.go:142-149 | The device's writing, byte by byte around the ring, keeps every unreleased byte |
| RingBuffers.Adapter.AvailableBuffer | internal/lancero/lancero_adapter.go:142-178 | Returns exactly the unreleased bytes, oldest first, whether or not they wrap around |
| RingBuffers.Adapter.ReleaseBytes | internal/lancero/lancero_adapter.go:65-85 | Advances the read index modulo the length and releases that many bytes |
| LanceroReaders.WordIsLittleEndian | publish_data_slices.go:28-34 | A raw sample is two bytes, the low one first |
| LanceroReaders.LanceroReader.Tick | lancero_source.go:652-755 | What one tick delivers, releases and reports for any bytes in the ring, de-interleaved data included |
| LanceroReaders.DecideIntact | lancero_source.go:666-702 | On an intact stream a tick takes whole frames, and sees a drop exactly when it starts inside a frame |
| LanceroReaders.OneRowNeverTaken | lancero_source.go:670-680 | With one row no frame is ever taken |
| LanceroReaders.TickAligns | lancero_source.go:682-755 | From any word of any frame, one tick takes at least two frames and leaves the read position on a frame start |
| LanceroReaders.RunTicks | lancero_source.go:652-760 | Over any run on an intact stream no tick fails, the blocks hold all frames from the first start on, in order, none twice; only the first can report a drop; under three frames stay behind |
| ChannelOrders.UpdateChanOrderMap | lancero_source.go:217-238 | The nested loops fill the whole map, for any devices |
| ChannelOrders.OrderIsPermutation | lancero_source.go:228-237 | Channels and readout indices correspond one to one |
| ChannelOrders.PairsStayAdjacent | lancero_source.go:233 | An error channel and its feedback channel stay together |
| ChannelOrders.RowsBecomeColumns | lancero_source.go:231-233 | The channel number of each row, column and word |
| ChannelOrders.EachWordOnce | lancero_source.go:732-745 | De-interleaving followed by the map puts each raw word in exactly one slot (channel, frame) |
| BaselineMonitors.BaselineMonitor.AddOneValue | baseline_monitor.go:60-69 | One value, against the step function |
| BaselineMonitors.BaselineMonitor.AddSliceValues | baseline_monitor.go:73-103 | The chunked path leaves the state and sends the messages of feeding the values one at a time |
| BaselineMonitors.ChunkIsSum | baseline_monitor.go:82-89 | A chunk up to the end of an average counts only through its length and sum |
| BaselineMonitors.AddAllSplit | baseline_monitor.go:73-103 | Any slicing of the values comes to the same |
| BaselineMonitors.ValuesConserved | baseline_monitor.go:60-116 | Each nStore*nAverage values make one message; none is lost or counted twice |
| BaselineMonitors.MessageMeans | baseline_monitor.go:104-116 | nStore*nAverage values make exactly one message, of the means of each nAverage of them: times nAverage, a mean is their sum, and it lies between any bounds of theirs |
| BaselineMonitors.RunSlices | baseline_monitor.go:73-103 | A fresh monitor's messages are the same for every slicing of a stream |
| BaselineMonitors.FindBest | baseline_monitor.go:126-134 | The sliding window finds the first window of smallest range |
| BaselineMonitors.BaselineMonitor.AnalyzeQueue | baseline_monitor.go:124-147 | The message is the mean of the chosen cluster, and the queue is emptied |
| BaselineMonitors.ClusterIsPart | baseline_monitor.go:125-139 | The cluster is made of stored averages, its ends being its extremes |
| BaselineMonitors.ClusterIsTightest | baseline_monitor.go:126-134 | No nPeak of the stored averages, adjacent in order or not, lie in a smaller range |
| BaselineMonitors.BaselineInCluster | baseline_monitor.go:135-147 | The reported value is the mean of the cluster, times nPeak their sum, and lies between the ends of the cluster |
| BaselineMonitors.RealSumAdds | baseline_monitor.go:136-141 | That sum is additive, and of one value the value itself |
| AsyncWriters.FifoAlways | internal/asyncbufio/asyncbufio.go:33-99 | In every interleaving, bytes passed on, buffered and queued are the accepted writes in order |
| AsyncWriters.ReturnMeansDelivered | internal/asyncbufio/asyncbufio.go:49-61 | When Flush returns, or a Close called with no Flush under way, everything accepted before the call has been passed on |
| AsyncWriters.CloseReturnsEarlyExactly | internal/asyncbufio/asyncbufio.go:58-79 | The exact state in which a call to Close can return too early |
| AsyncWriters.FlushAndCloseRace | internal/asyncbufio/asyncbufio.go:58-79 | A run that reaches that state |
| AsyncWriters.NoDeadlock | internal/asyncbufio/asyncbufio.go:64-84 | As long as a call waits, writeLoop can take a step towards answering one |
| AsyncWriters.LostAfterClose | internal/asyncbufio/asyncbufio.go:55-61 | After writeLoop has returned, accepted writes are never passed on |
| AsyncWriters.Writer.Write | internal/asyncbufio/asyncbufio.go:33-40 | Accepts all or nothing: the Write step of the system |
| AsyncWriters.Writer.Flush | internal/asyncbufio/asyncbufio.go:87-99 | The emptying loop passes everything on in order |

## Left out

- The kink-model least-squares fit is any function of the eight samples that moves a trigger by at most one; its rounding, which could depend on the index, is not modelled.
- Floating point: trigger rates, times of counters and baseline averages are real numbers.
- Times of streams and records, and the decimation of segments: framesPerSample is carried along, but channels run with 1.
- EdgeMultiChannel.RunSegments: segments must follow without a gap and be short of 2^31 samples; data drops reset nothing in the model.
- LegacyRuns.RunSegments: settings are fixed for the run; configuring triggers or pulse lengths during it is not modelled.
- SegmentDependence.EdgesSameExactly: edge triggers alone, or level triggers alone, from a channel whose last trigger is long past; when a mixture of kinds depends on segments is not characterised.
- ReadingRounds.ReadRound: sampling, unwrapping and the hand-over of the data are left out.
- TriggerCounters.CountsConserved: supposes triggers in order and none after its own time, which EMT triggers carried over may break; ConservedExactly is for any lists.
- SegmentRounds.RunReports: supposes primaries in time and interval ends that go up, which a moving time fix or EMT triggers carried over may break; TriggerReports.ReportsExactly and PlacesExactly are for any lists.
- AutoLaws.TriggersTight: without the auto veto; VetoTakesAway says what the veto changes.
- SegmentRounds.Round: all channels have the same record lengths and the same retention, as once pulse lengths are configured; channels that still keep 10 samples, and lengths changed during a run, are not covered.
- SegmentRounds.Round: the segments of a block are equally long, and follow without a gap.
- Unwrappers.UnwrapInvertsWrap: for at most 14 phase bits, so that steps fit in 16 bits with room to spare.
- Packets.RoundTrip: a timestamp's rate is the fraction of two 16-bit numbers that stands for it in the header; how a floating-point rate is turned into that fraction is not modelled. Payloads in network order, which only other writers make, are covered by WireFormat.WordsInEitherOrder.
- Packets.NewPacket, Packets.PacketBuilder: a packet is a value in one field of the builder, so sharing of payload slices between packets is not modelled.
- Resonators.ResonatorGroup.DemuxData: packets of whole frames of 16-bit or 32-bit data (other payloads make the counting before it panic), before unwrapping; the group index check and the byte and frame counters of fillMissingPackets are left out.
- Resonators.FilledGapFree: sequence numbers that wrap around at 2^32 are not covered.
- RingBuffers.Adapter.Transfer: the device never fills the ring; the overflow flag in its status is not modelled.
- LanceroReaders.RunTicks: one card, as the reader demands, and an intact stream; losses are treated one read at a time (FrameLosses); time fixes and the capacity of its output channel are left out.
- AsyncWriters.FifoAlways: channels of depth 0 are not modelled (Write then never finds room), nor write errors of the underlying file.
- BaselineMonitors.BaselineMonitor.AddSliceValues: the sum of one average is unbounded; 64 bits hold it for any nAverage below 2^48.
- Sockets, the RPC server, configuration, file formats and publishing: plumbing over other libraries.
- Pulse analysis, projectors, mixing, external triggers, heartbeats and map files: bookkeeping or linear algebra that would add only easy members.
- Simulated and other data sources, and the command programs: thin tools and test data.
