# A model of the grid edge gateway, with proofs

The gateway stands between a grid operator and a prosumer site. It speaks IEC 60870-5-104 to the operator, decides every
second how much the chargers, heat pumps, batteries and inverters of the site may draw or feed in, keeps evidence of every
reduction, and follows a plan computed by a quadratic program. This project models five of its components in Dafny and
proves what they promise, over every input, every run or every reachable state.

| component | files |
|---|---|
| IEC 104 link layer, framing and codecs | `Session`, `Ledger`, `Refinement`, `Timers`, `Link`, `Apci`, `Framing`, `Connection`, `Asdu`, `AsduRoundTrip`, `Chunks` |
| calendar, time tags, day-ahead prices | `Calendar`, `TimeTag`, `LocalTime`, `Timestamp`, `Market` |
| compliance reports | `Compliance`, `ReportText`, `ReportChain`, `Recording` |
| quadratic program and plan | `Qp`, `QpMeaning`, `Declared`, `Moves`, `Splitting`, `Plan`, `PlanBuild`, `PlanShape`, `PlanSound`, `PlanSplit`, `Peak`, `PlanReading`, `PlanMeaning`, `PlanCars`, `Blocks` |
| real-time controller | `Site`, `Accounting`, `Budget`, `Random`, `Battery`, `Ranking`, `WaterFill`, `Allocation`, `PvLimit`, `Controller`, `Promise`, `Runs`, `Shortfall`, `Evidence` |

`dafny verify dfyconfig.toml` checks everything.

## How it is built

What the source changes in place is a class here (`Session`, `Connection`, `Recorder`, `PriceBook`, `Qp`, `Accounting`,
`Controller`), and what it computes in loops is a method with loops. Each method's postcondition equates the whole new
state and the results with a function of the old state. The theorems are lemmas about these functions, mostly against an
independent description of what should come out:

- The 15-bit session refines a *ledger*, which numbers frames by their position in an unbounded history. The link theorem
  composes the session with a conforming peer over two queues.
- The calendar arithmetic is compared with the successor function of the Gregorian calendar, the binary search with a
  linear one, the assembled matrices with the list of builder calls, the reports with the sums over their samples.
- The water-fill is described by six properties of its result, which are proved to leave one result only. A cycle of
  the controller is a relation that uses this description, and a run is a sequence of such cycles with any commands,
  readings and guidance.

Powers, currents, prices and times of the controller and the planner are real numbers, and an infinite value in the
source is `None` here. Octets, 15-bit sequence numbers and the 64-bit random state have their width. Instants of the
session are whole numbers, and elapsed time saturates at 0 as in the source.

## Where the code does less than it says

Each of these is a lemma or is visible in one; the model follows the code.

- The promise of README.md:170 (loads get at most floor, PV surplus and battery discharge while dimmed, whatever the plan
  says) is broken by a negative plan for an exempt device (`Shortfalls.PlanBreaksTheFloor`) and by a negative failsafe
  current (`Shortfalls.NegativeFailsafeBreaksTheFloor`). What there is to share is within it exactly when margin,
  charging, lapsed surplus, reserve and exempt draw are together not negative, and neither is the promise plus the exempt
  draw (`Promise.ShareableIsAsPromisedExactly`). The grants are exactly when that holds with what sharing must leave over
  added to both sums (`Promise.GrantsAreAsPromisedExactly`): whole amps, and caps, which are known before
  (`WaterFill.SpareIs`, `Allocation.GrantsAre`). Neither of the two is checked: `SiteConfig::validate` says that a failsafe
  current is 0 or at least 6 A, but lets negative ones through (crates/control/src/controller.rs:140-147).
- While the consumption is dimmed the battery is never to charge from the grid (crates/control/src/controller.rs:743 and
  754), but the bound uses the power the sun would allow where that is reported, and not the PV that is measured. A plan
  can make it charge 10 kW from the grid, and the site take more than floor, surplus and discharge together
  (`Shortfalls.PlanChargesFromTheGrid`). It charges from measured PV exactly unless a plan for an expected dimming asks
  for more, the sun would allow more, and the batteries have room for more (`Batteries.ChargesFromMeasuredPvExactly`,
  `Runs.ChargesFromMeasuredPvInEveryRun`); grants and charging together keep to the promise exactly under the condition
  of `Promise.TotalIsAsPromisedExactly`.
- A plan for a charger without a reading makes `Controller::step` panic, since its reading is looked up unchecked
  (crates/control/src/controller.rs:849-863). `Allocation.Situation.Sound` excludes exactly that, and the cycles and runs
  here, with otherwise any readings and plan, keep to it.
- The counter of dimmed seconds belongs to one day only: a day number that goes back and comes again starts from 0
  (`Accounts.GoingBackForgets`), and the day can be dimmed past the limit (`Accounts.GoingBackDimsAgain`). The counter
  holds its whole day exactly as long as no day comes back after another (`Accounts.CounterHoldsItsDayExactly`), and then
  the limit is kept (`Runs.NoDayIsDimmedLonger`).
- An emergency lifts the daily limit (`Accounts.EmergencyExceedsTheLimit`), but not the opt-outs: exempt devices stay
  exempt (crates/control/src/controller.rs:845-847).
- k or w above 32767 can be configured and break the protocol: acknowledgements are understood exactly with fewer than
  32768 frames in flight (`Refinement.AcknowledgementsAreUnderstoodExactly`), and a run gets past that
  (`Refinement.WideWindowBreaks`); a w that wide is never reached (`Refinement.WideReceiveWindowNeverTriggers`).
- `Asdu::decode` reads the first address before it looks at the count (crates/iec104/src/asdu.rs:287), so some octets
  make it panic (`AsduRoundTrip.PanicsExactlyOnShortEmpty`).
- A CP56Time2a tag holds two digits of the year, so instants outside 2000 to 2099 come back in another year
  (`TimeTags.RoundTripExactlyThisCentury`).
- `Asdu::decode` counts addresses of SQ = 1 upwards past 24 bits, and such an ASDU does not come back
  (`AsduRoundTrip.ListedDecodesWellFormedExactly`).
- `verify_csv` trims the digest line, so a file with blank lines added at its end, or with white space before or after
  the digest, still verifies (`ReportText.VerifiesExactly`). A chain of files pins the signed texts, and the files
  themselves exactly as far as they are as written (`ReportChain.LastDigestPinsFiles`).
- `with_durations` can give products that overlap where start times go back (`Market.StartsGoingBackOverlap`; exactly
  when is `Market.SpacedOrderedExactly`).
- `PriceBook::merge` keeps eight days, where its comment speaks of a week (crates/gateway/src/market.rs:301-310).

## Model

| member | source | states |
|---|---|---|
| `Links.LinkNeverBreaks` | crates/iec104/src/session.rs:145-223 | Composed with a conforming peer over two ordered lossless channels, after any interleaving of sends, arrivals, ticks and peer moves, across any number of wrap-arounds: neither side has seen a sequence error or an impossible acknowledgement, and each has delivered a prefix, in order and exactly once, of what the other transmitted (k, w and the peer window below 32768) |
| `Links.NextIsSafe` | crates/iec104/src/session.rs:145-245 | Every single move of either side keeps that invariant, which is stated with unbounded frame positions |
| `Refinement.EveryRunIsExplained` | crates/iec104/src/session.rs:95-252 | For w below 32768 every run of sends, APDUs and ticks that has not closed has one unbounded history behind it, and it is the history of that run: submitted are the payloads of its sends in order, received those of its I-frames in order, acknowledged what its arrivals say. The octet-level state is that history modulo 32768, in-flight is at most k, the transmitted I-frames are the sent payloads in queue order numbered consecutively from 0, a non-empty queue means stopped or window full, fewer than w received frames are unacknowledged, and the t2 clock runs exactly when some are. A submission is neither sent nor queued if and only if it stood at the head of a full queue when another was sent |
| `Refinement.NothingIsLost` | crates/iec104/src/session.rs:133-143 | While no send finds the queue full, the payloads transmitted, in order, and then those still queued are exactly the payloads sent |
| `Refinement.StepImage` | crates/iec104/src/session.rs:133-245 | Any one event on the 15-bit session does what the same event does to the unbounded ledger, with the same output and the same reason to close |
| `Refinement.AcknowledgementIsExact` | crates/iec104/src/session.rs:215-223 | For k up to 32767 an N(R) is accepted if and only if it names a position from the oldest unacknowledged frame to the end, it names only one, and it releases exactly the frames before it |
| `Refinement.DistanceIsExact` | crates/iec104/src/apci.rs:127-129 | The modular distance of two sequence numbers is the true distance of their unbounded positions while these are fewer than 32768 apart |
| `Refinement.WideWindowIsAmbiguous` | crates/iec104/src/session.rs:215-223 | With 32768 or more frames in flight (a configurable k above 32767) the N(R) that acknowledges the first 32768 is taken to acknowledge none |
| `Refinement.AcknowledgementsAreUnderstoodExactly` | crates/iec104/src/session.rs:215-223 | In any state of the session, every possible acknowledgement releases exactly the frames it is for if and only if fewer than 32768 frames are in flight |
| `Refinement.WideWindowBreaks` | crates/iec104/src/session.rs:133-223 | With k above 32767 a run gets there: after a StartDtAct and 32768 sends all of them are transmitted, and the acknowledgement of a peer that has received them all leaves all of them in flight |
| `Refinement.WideReceiveWindowNeverTriggers` | crates/iec104/src/session.rs:160-168 | With w of 32768 or more no number of unacknowledged frames ever triggers an S-frame |
| `Ledgers.SubmitKeeps` | crates/iec104/src/session.rs:133-143 | Sending keeps the ledger invariant (frames in flight at most k, queue a suffix of what was submitted), appends the payload to the submissions and changes no frame already sent; the submissions lost are those lost before and, exactly where the queue is full, its head |
| `Ledgers.FrameKeeps` | crates/iec104/src/session.rs:145-190 | So does every arriving frame, and an I-frame that is accepted extends the received payloads by exactly itself |
| `Ledgers.TimeKeeps` | crates/iec104/src/session.rs:192-213 | So does every tick |
| `Ledgers.PumpKeeps` | crates/iec104/src/session.rs:225-235 | Flushing moves queued payloads out in order until the queue is empty, the link is stopped or exactly k frames are in flight; the frames put out carry consecutive numbers and the current N(R) |
| `Timers.RunClocked` | crates/iec104/src/session.rs:145-245 | In every run with a monotone clock the send times of the frames in flight stay sorted, and no timer was started in the future |
| `Timers.TickServesTimers` | crates/iec104/src/session.rs:192-213 | At any point of any run a tick closes exactly when some frame in flight, or else a test, has waited t1; otherwise afterwards every frame in flight is younger than t1, no received frame has waited t2 for our acknowledgement, and a link idle for t3 has a test outstanding, for less than t1 |
| `Sessions.Session.constructor` | crates/iec104/src/session.rs:96-111 | A new session is stopped, with all counters 0, nothing queued and nothing to send |
| `Sessions.Session.Drain` | crates/iec104/src/session.rs:127-130 | Draining hands out everything produced, in order, once, and changes nothing else |
| `Sessions.Session.Send` | crates/iec104/src/session.rs:133-143 | The new state and output of a send in full, including the drop of the oldest queued payload on overflow; the specification is the one the ledger refines |
| `Sessions.Session.Receive` | crates/iec104/src/session.rs:145-190 | The new state, output and closing reason of any arriving APDU, in terms of the same specification |
| `Sessions.Session.ReceiveI` | crates/iec104/src/session.rs:150-168 | The same for an I-frame: sequence check, acknowledgement, delivery, and the S-frame after w |
| `Sessions.Session.ReceiveU` | crates/iec104/src/session.rs:170-187 | The same for the six unnumbered functions |
| `Sessions.Session.Tick` | crates/iec104/src/session.rs:192-213 | The same for the three timers |
| `Sessions.Session.AcknowledgeFrames` | crates/iec104/src/session.rs:215-223 | The same for the removal of acknowledged frames |
| `Sessions.Session.FlushQueue` | crates/iec104/src/session.rs:225-235 | The loop that sends while the window is open reaches the recursive specification's state and output |
| `Apci.Encode` | crates/iec104/src/apci.rs:64-83 | The octets with the patched length octet are those of the specification whose round trip is proved |
| `Apci.RoundTripExactlyInRange` | crates/iec104/src/apci.rs:64-123 | An APDU comes back from its octets, with anything behind them, if and only if its sequence numbers fit 15 bits and its ASDU fits 249 octets |
| `Apci.ParseYieldsInRange` | crates/iec104/src/apci.rs:90-123 | Whatever the stream, a parsed APDU is in range and its frame lies inside the buffer |
| `Apci.ParseIgnoresLaterOctets` | crates/iec104/src/apci.rs:90-123 | Once the parser has decided (a frame or an error), appended octets do not change its answer |
| `Framing.ChunkingDoesNotMatter` | crates/iec104/src/connection.rs:94-105 | For every cut of a stream into chunks the APDUs, the octets left over and the error are those of parsing the whole stream at once |
| `Framing.SplitAnywhere` | crates/iec104/src/connection.rs:94-105 | Parsing a first part and then what it left over with the rest is parsing the whole |
| `Framing.StreamRoundTrip` | crates/iec104/src/connection.rs:94-105 | A stream of in-range frames and an incomplete tail comes out as the same frames and the tail |
| `Connections.Connection.ReadAll` | crates/iec104/src/connection.rs:94-105 | The draining loop drives the session through exactly the parsed APDUs, each at its own reading of the clock, stops at the session's first reason to close or at the framing error, and leaves the incomplete tail in the buffer |
| `Connections.ChunkingDoesNotReachTheSession` | crates/iec104/src/connection.rs:94-105 | With any times at which the APDUs are taken, the session ends in the same state, with the same output and for the same reason, however the stream was cut into chunks |
| `AsduRoundTrip.RoundTripExactlyIfWellFormed` | crates/iec104/src/asdu.rs:256-311 | Decoding gives back what was encoded if and only if the ASDU is well formed: 1 to 127 objects of the header's type, addresses of 24 bits, fields in the range of their bits, no overflow bit where the type has none |
| `AsduRoundTrip.WellFormedRoundTrip` | crates/iec104/src/asdu.rs:256-311 | The same with any octets behind it |
| `AsduRoundTrip.SpelledDecodesWellFormed` | crates/iec104/src/asdu.rs:271-311 | Whatever decodes from octets with SQ = 0 and at least one object is well formed |
| `AsduRoundTrip.ListedDecodesWellFormedExactly` | crates/iec104/src/asdu.rs:285-303 | What decodes from octets with SQ = 1 and at least one object is well formed if and only if its first address and its count together are at most 2^24 |
| `AsduRoundTrip.ListedDecodesAsSpelled` | crates/iec104/src/asdu.rs:285-303 | An ASDU with consecutive addresses decodes to the same objects from its SQ = 1 form as from its SQ = 0 form |
| `AsduRoundTrip.ListedRoundTrip` | crates/iec104/src/asdu.rs:285-303 | And these are the objects that were written in the SQ = 1 form |
| `AsduRoundTrip.PanicsExactlyOnShortEmpty` | crates/iec104/src/asdu.rs:271-290 | The decoder reads past the end exactly for a supported type, a known cause, SQ = 0, a count of 0 and 6 to 8 octets |
| `AsduRoundTrip.MirrorRawMirrors` | crates/iec104/src/asdu.rs:315-328 | Patching the raw octets is encoding the negative mirror of the ASDU; nothing but the cause octet changes |
| `AsduRoundTrip.ElementRoundTrip` | crates/iec104/src/asdu.rs:156-205 | Every element whose fields fit comes back from its octets, which are as many as its type says |
| `AsduRoundTrip.CauseRoundTrip` | crates/iec104/src/asdu.rs:30-53 | Every cause comes back from its code, which leaves the two flag bits free |
| `AsduRoundTrip.QualityRoundTrip` | crates/iec104/src/asdu.rs:64-90 | Every quality descriptor comes back from its bits; without the overflow bit exactly that bit is lost and the value bit survives |
| `Asdus.Encode` | crates/iec104/src/asdu.rs:256-269 | The octets pushed object by object are those of the specification |
| `Asdus.Decode` | crates/iec104/src/asdu.rs:271-311 | The result, error or out-of-range read of the decoder, branch for branch |
| `Asdus.TakeSpelled` | crates/iec104/src/asdu.rs:292-303 | The loop advancing its position over SQ = 0 objects reads exactly the consecutive blocks of 3 + size octets |
| `Asdus.TakeListed` | crates/iec104/src/asdu.rs:285-303 | The SQ = 1 loop reads blocks of size octets and numbers them upwards from the first address |
| `TimeTags.RoundTripExactlyIfFits` | crates/iec104/src/time.rs:51-76 | A CP56Time2a tag comes back from its seven octets, with anything behind them, if and only if its fields fit their bits |
| `TimeTags.FromUnixMsFits` | crates/iec104/src/time.rs:26-44 | The tag of every instant, before 1970 too, has fields in range |
| `TimeTags.RoundTripExactlyThisCentury` | crates/iec104/src/time.rs:26-49 | to_unix_ms(from_unix_ms(ms)) = ms if and only if ms lies from 2000-01-01 up to, not including, 2100-01-01 |
| `TimeTags.RoundTripByYear` | crates/iec104/src/time.rs:26-49 | The same, stated by the calendar year of the instant |
| `TimeTags.Encode` | crates/iec104/src/time.rs:51-58 | Appending the tag leaves the octets before it alone and adds exactly the seven of the specification |
| `Calendar.DaysRoundTrip` | crates/iec104/src/time.rs:79-100 | Every day number gives a valid Gregorian date (leap years included), and that date gives the number back |
| `Calendar.DatesRoundTrip` | crates/iec104/src/time.rs:79-100 | Every valid date comes back from its day number |
| `Calendar.EpochIsDayZero` | crates/iec104/src/time.rs:79-100 | Day 0 is 1 January 1970 |
| `Calendar.NextNumberIsNextDay` | crates/iec104/src/time.rs:79-100 | One day number further is the next day of the Gregorian calendar; with the epoch this determines the whole function independently of its divisions |
| `LocalTime.DatesAgree` | crates/planning/src/localtime.rs:16-27 | The second copy of the calendar gives the same dates, and the right weekday |
| `LocalTime.DayNumbersAgree` | crates/planning/src/localtime.rs:29-38 | And the same day numbers, for all arguments, valid or not |
| `Timestamps.ThirdCopyAgrees` | crates/control/src/compliance.rs:332-347 | The third copy, in the report timestamps, gives the same dates |
| `Timestamps.TimestampNamesTheSecond` | crates/control/src/compliance.rs:332-347 | A report timestamp is a valid date and time of day and names the second of the instant, before 1970 too |
| `Timestamps.TimestampsAgreeWithinASecond` | crates/control/src/compliance.rs:332-347 | Two instants get the same timestamp if and only if they lie in the same second |
| `LocalTime.SwitchIsOnLastSunday` | crates/planning/src/localtime.rs:50-55 | The switch is at 01:00 UTC on a Sunday of the month after which the month has no other |
| `LocalTime.SummerTimeBetweenTheSwitches` | crates/planning/src/localtime.rs:57-68 | The offset is 2 h exactly from the switch in March to the switch in October of the UTC year; the local time of day is the shifted instant within a day |
| `Market.MergeFinest` | crates/gateway/src/market.rs:59-69 | The result is sorted, pairwise disjoint, a subset of the input, and every dropped product overlaps a kept one at least as fine |
| `Market.WithDurations` | crates/gateway/src/market.rs:125-139 | The products are the kept starts in order, each lasting until the next start as far as that is 1 to 3600 s away, the last start like the last interval before it; durations are between 0 and an hour |
| `Market.SpacedOrderedExactly` | crates/gateway/src/market.rs:125-139 | They are sorted and disjoint if and only if each kept start lies no earlier than the start that directly follows the kept one before it |
| `Market.AscendingIsApart` | crates/gateway/src/market.rs:125-139 | Ascending starts are such |
| `Market.StartsGoingBackOverlap` | crates/gateway/src/market.rs:125-139 | Starts at 0, 100 and 50 s give two products that overlap |
| `Market.NewestAnswerWins` | crates/gateway/src/market.rs:303-318 | After a merge every instant in the span of the fresh products is answered by them alone, and every other instant exactly as by the retained old ones |
| `Market.MergedOrdered` | crates/gateway/src/market.rs:303-310 | Merging keeps the book sorted and disjoint |
| `Market.BookStaysOrdered` | crates/gateway/src/market.rs:303-310 | Under any sequence of merges of such lists the book stays sorted and disjoint |
| `Market.OrderedIsSortedDisjoint` | crates/gateway/src/market.rs:303-310 | The order used by the search is the same as sorted by start and pairwise disjoint, for products of positive length |
| `Market.PriceBook.Merge` | crates/gateway/src/market.rs:303-310 | The book after retain, extend and stable sort is the specified merge, and ordered |
| `Market.PriceBook.PartitionPoint` | crates/gateway/src/market.rs:312-318 | The binary search finds the one position before which all products start at or before t and after which none does |
| `Market.PriceBook.At` | crates/gateway/src/market.rs:312-318 | The binary search answers as a linear search for the product containing t |
| `Market.LookupFinds` | crates/gateway/src/market.rs:312-318 | In an ordered book the one product containing t is found, with its own price |
| `Market.LookupMisses` | crates/gateway/src/market.rs:312-318 | An instant in no product has no price |
| `Compliance.Recorder.constructor` | crates/control/src/compliance.rs:107-119 | A new recorder has no event open, number 0 and the genesis digest |
| `Compliance.Recorder.Resume` | crates/control/src/compliance.rs:121-124 | Resuming sets number and digest of the chain and nothing else |
| `Compliance.Recorder.TakeReports` | crates/control/src/compliance.rs:192-194 | Taking hands out all finished reports once and leaves the rest of the recorder |
| `Compliance.Recorder.Observe` | crates/control/src/compliance.rs:138-179 | The whole new memory after an observation: opening, thinning to one sample a second, the bound on samples, closing |
| `Compliance.Recorder.Close` | crates/control/src/compliance.rs:196-247 | The accumulating loop computes the report of the specification, whose times and verdict are proved below |
| `Compliance.ReportPartitionsTheEvent` | crates/control/src/compliance.rs:196-247 | For chronological samples the exceeded and unverified times are those of the samples of each kind after the grace, and with the within-floor time they add up to exactly max(0, duration - grace) |
| `Compliance.VerdictIsExact` | crates/control/src/compliance.rs:196-247 | The verdict is Followed exactly when nothing was dropped and every sample standing for time after the grace is measured and within floor + 0.2 kW, Exceeded exactly when one of them is above, and otherwise Unverified |
| `Compliance.MaxIsHighest` | crates/control/src/compliance.rs:196-247 | The reported maximum is the highest measured draw that counts, and there is none exactly when nothing measured counts |
| `ReportChain.EveryReportIsSure` | crates/control/src/compliance.rs:138-247 | Over any monotone run with reports taken at any time: exactly one report for each stretch of dimming that has ended, with its start and end, numbered consecutively, each naming the digest of the one before, each adding up and with a true verdict |
| `Recordings.EveryReportRecordsItsStretch` | crates/control/src/compliance.rs:138-179 | In every run the reports and the ended stretches of dimming correspond one to one: each report has the floor of the first cycle of its stretch, its emergency flag exactly if a cycle had one, as samples the cycles that were due, the earliest ones where they are too many, and counts the others as dropped |
| `Recordings.DueAreApart` | crates/control/src/compliance.rs:138-179 | Cycles that are due lie at least a second apart |
| `Recordings.NoneIsMissed` | crates/control/src/compliance.rs:138-179 | And no cycle of a stretch lies a second or more after the last due one up to it |
| `ReportChain.ResumedChainContinues` | crates/control/src/compliance.rs:121-124 | A recorder resumed after a restart continues the chain: the reports of both lives together are one chain |
| `ReportChain.ResumedFilesVerify` | crates/control/src/compliance.rs:121-325 | The files that a recorder and the one resumed from it write verify one by one and form one chain |
| `ReportChain.NamesPredecessor` | crates/control/src/compliance.rs:273-316 | The text of every report names its predecessor's digest in the line where a reader looks for it, and no one-line site name can forge that |
| `ReportChain.RecordedFilesVerify` | crates/control/src/compliance.rs:267-325 | The files of a recorded chain verify one by one and link to each other |
| `ReportChain.EveryRunVerifies` | crates/control/src/compliance.rs:138-325 | So does everything a gateway writes from its first dimming on, in every run |
| `ReportChain.LastDigestPinsHistory` | crates/control/src/compliance.rs:267-325 | With a collision-free hash two verified chains of equal length whose last files claim the same digest agree in everything that is signed, file by file, and in where they started |
| `ReportChain.LastDigestPinsFiles` | crates/control/src/compliance.rs:267-325 | Where one of the chains is as written, the files themselves agree if and only if the other is as written too |
| `ReportChain.RecordedFilesAreAsWritten` | crates/control/src/compliance.rs:267-316 | The files of every recorded chain are as written |
| `ReportChain.LastDigestPinsTexts` | crates/control/src/compliance.rs:267-325 | The argument for any collision-free hash and any way of naming the predecessor |
| `ReportText.SignedVerifies` | crates/control/src/compliance.rs:267-325 | What is written verifies: cutting the text at its last line gives back the body and the digest |
| `ReportText.ForgedBodyFails` | crates/control/src/compliance.rs:319-325 | A changed body over the old digest never verifies |
| `ReportText.TrailingNewlineVerifiesToo` | crates/control/src/compliance.rs:319-325 | A blank line at the end of a file goes unnoticed |
| `ReportText.VerifiesExactly` | crates/control/src/compliance.rs:319-325 | A file verifies if and only if it is a body of whole lines, then on one line (Unicode) white space, the digest of that body and white space, then blank lines; and the body that is checked is that one |
| `ReportText.IndentedDigestVerifiesToo` | crates/control/src/compliance.rs:319-325 | For example with blanks before the digest and a tab behind it |
| `Declared.ProgramMeansDeclarations` | crates/planner/src/qp.rs:35-103 | For every sequence of builder calls: a point satisfies the assembled equality and inequality rows if and only if it keeps every declared bound, eq, le and ge, and the assembled objective is the declared linear cost plus the sum of w(aᵀx)², repeated variables included |
| `Declared.SolverRows` | crates/planner/src/qp.rs:85-103 | A point satisfies the triplet matrix with its cones if and only if every row holds |
| `Declared.ApplyRows` | crates/planner/src/qp.rs:35-63 | Each call adds exactly its own constraint to what the rows demand |
| `Declared.BuildValue` | crates/planner/src/qp.rs:48-83 | The objective of the built program is the declared cost |
| `QpMeaning.AssembledRow` | crates/planner/src/qp.rs:85-103 | Row r of the assembled Ax is the r-th declared row at x, repeated triplets summed |
| `QpMeaning.SquareAddsSquare` | crates/planner/src/qp.rs:65-83 | The upper-triangle triplets of one square call add exactly w(aᵀx)² to half the quadratic form |
| `QpMeaning.MergeKeeps` | crates/planner/src/qp.rs:65-76 | Merging repeated variables keeps aᵀx at every point and leaves each variable once |
| `QpMeaning.PairsHaveProducts` | crates/planner/src/qp.rs:77-83 | The triplets of distinct variables carry the products of all pairs, off-diagonal ones doubled |
| `Qps.MergesAt` | crates/planner/src/qp.rs:65-76 | Merging one term raises the first entry of its variable, or appends |
| `Qps.Qp.Var` | crates/planner/src/qp.rs:35-46 | A variable gets the next number; the builder stays the one its calls mean |
| `Qps.Qp.Cost` | crates/planner/src/qp.rs:48-50 | So it does after a cost |
| `Qps.Qp.Eq` | crates/planner/src/qp.rs:52-54 | After an equality |
| `Qps.Qp.Le` | crates/planner/src/qp.rs:56-58 | After an upper bound |
| `Qps.Qp.Ge` | crates/planner/src/qp.rs:60-63 | After a lower bound, stored negated |
| `Qps.Qp.Square` | crates/planner/src/qp.rs:65-83 | After a square, with its terms merged in place |
| `Qps.Qp.PushSquare` | crates/planner/src/qp.rs:77-83 | The nested loop pushes exactly the pairs of the merged terms |
| `Qps.Qp.Assemble` | crates/planner/src/qp.rs:85-103 | The loops over equalities and inequalities fill the triplets and right-hand sides that the lemmas are about |
| `PlanSplit.NeverBothWays` | crates/planner/src/model.rs:309-311 | For every input that passes the checks and every point the solver may return there is another it may return, of no greater objective, that never imports and exports in the same step, with the same net grid power in every step and all other variables unchanged: the split needs no binaries |
| `PlanSplit.GridIsSplitSafe` | crates/planner/src/model.rs:345-357 | Every declared constraint and cost bears lowering import and export of a step together, and together they never cost less than nothing |
| `PlanSplit.ImportCostsMore` | crates/planner/src/model.rs:309-311 | Import never costs less than export brings, at every price, positive or negative |
| `PlanSplit.PriceOfCalls` | crates/planner/src/model.rs:345-502 | What the whole program charges on import and export of a step is the step length times the two prices, wherever else these variables appear |
| `PlanSplit.BalanceIsBorne` | crates/planner/src/model.rs:457-466 | The power balance of any step is unmoved when import and export fall together |
| `Splitting.NetAll` | crates/planner/src/model.rs:345-357 | Any number of disjoint pairs that may be netted can be netted at once |
| `Splitting.NetPair` | crates/planner/src/model.rs:345-357 | Netting one such pair keeps every constraint and does not raise the cost |
| `Moves.Netted` | crates/planner/src/model.rs:345-357 | The general argument for two variables of a program |
| `Moves.DotMoved` | crates/planner/src/qp.rs:35-63 | Moving a point along a variable changes each row by its summed coefficient |
| `Moves.DeclaredCostMoved` | crates/planner/src/qp.rs:48-83 | And the cost by the summed price, where no square has the variable |
| `Peak.DemandChargeIsExact` | crates/planner/src/model.rs:484-495 | The values of the peak variable with which a plan stays feasible are exactly those from the highest of the billed peak and every import up to the limit: the demand charge is an exact epigraph |
| `Peak.OptimalPeakIsHighest` | crates/planner/src/model.rs:484-495 | In every plan of least cost with a positive demand charge the peak variable is the highest of the billed peak and every import |
| `Peak.OptimalSolves` | crates/planner/src/qp.rs:85-103 | Plans of least declared cost are the feasible points of least objective of the assembled program |
| `Peak.PlanIsEpigraph` | crates/planner/src/model.rs:484-495 | The planner's program declares exactly that: one row per import, the floor and the limit, and the peak nowhere else |
| `Peak.PeakIsEpigraph` | crates/planner/src/model.rs:484-495 | For any program of that shape the allowed peaks are those within the bounds and above every one of the variables |
| `Peak.PeakRange` | crates/planner/src/model.rs:484-495 | Which is the range from the highest of them to the limit |
| `PlanReading.Program` | crates/planner/src/model.rs:313-504 | The builder as plan leaves it holds exactly the declared program; no call refers to a variable not made yet |
| `PlanReading.MakeCalls` | crates/planner/src/model.rs:313-504 | Any sound list of calls is made in order without a panic |
| `PlanReading.PowerBalances` | crates/planner/src/model.rs:457-518 | In every step of every plan the solver may return, import and production are base load, battery, heat pump, cars and export |
| `PlanMeaning.SolverSolves` | crates/planner/src/qp.rs:85-103 | The points feasible for the solver are those that keep every call of the plan |
| `PlanMeaning.BatteryIsPlanned` | crates/planner/src/model.rs:360-385 | In every plan the solver may return the energy after each step is that at the start and the sum of what all steps since have added, stored less than charged and drained more than discharged; energy and powers keep to their limits, widened to where the battery started |
| `PlanMeaning.RoomIsPlanned` | crates/planner/src/model.rs:417-443 | In every plan the solver may return the room keeps its share of the temperature before and gains what the heat pump and the outdoor air give it, step by step, and the heat pump keeps to its power |
| `PlanMeaning.DimmingIsPlanned` | crates/planner/src/model.rs:457-466 | In every plan the solver may return and every step of an expected dimming, the battery, the heat pump and the cars, as far as they may be dimmed, take together at most the floor and the PV surplus that the uncertainty leaves |
| `PlanCars.CarIsPlanned` | crates/planner/src/model.rs:445-482 | In every plan the solver may return each car stores, over all steps, at least its need less what is planned as unmet, and takes in every step from nothing to its power times its availability |
| `PlanSound.CallsFit` | crates/planner/src/model.rs:280-502 | Everything declared mentions only variables made, and their number is the laid-out total |
| `PlanBuild.CountsSteps` | crates/planner/src/model.rs:345-466 | After any number of steps the builder has made exactly the variables the index formulas assume |
| `PlanBuild.WindowStart` | crates/planner/src/model.rs:337-343 | The while loop walks back to the specified start |
| `PlanBuild.BackIsTheWholeDimming` | crates/planner/src/model.rs:337-343 | The walk ends where the whole expected dimming around the step begins: every step from there to it is dimmed, and the one before is not |
| `PlanBuild.Tighten` | crates/planner/src/model.rs:386-395 | The loop accumulating forecast uncertainty computes the specified tightening |
| `PlanBuild.EvSide` | crates/planner/src/model.rs:445-455 | The same for the cars |
| `PlanBuild.UnmetSide` | crates/planner/src/model.rs:468-482 | The calls for the energy cars are left without |
| `PlanBuild.PeakSide` | crates/planner/src/model.rs:487-495 | The calls for the demand charge |
| `PlanBuild.TerminalSide` | crates/planner/src/model.rs:498-502 | The calls for the terminal value |
| `PlanBuild.PlanSide` | crates/planner/src/model.rs:280-502 | Everything plan declares, in order |
| `Promise.FloorIsKept` | README.md:170 | While dimmed, whatever the readings and the plan: the grants to devices that may be limited are at most max(0, floor + lasting surplus - margin + discharge - charge - offline reserve - exempt draw), and at most floor + measured PV surplus + battery discharge, as long as neither the reserve nor the exempt draw is negative |
| `Promise.FloorIsKeptInEveryRun` | crates/control/src/controller.rs:557-624 | In every dimmed cycle of every run from every valid state, with any readings and guidance, the grants are at most floor + measured surplus + discharge if and only if what is held back (margin, charging, surplus that has not lasted, reserve), the exempt draw and what sharing leaves over are together not negative, and neither is the promise plus exempt draw and what is left over; all of that follows from what comes in and what is remembered. So they always are on a site without exempt devices and negative failsafe currents |
| `Promise.ShareableIsAsPromisedExactly` | crates/control/src/controller.rs:557-624 | What there is to share is within the promise if and only if what is held back and the exempt draw are together not negative, and neither is the promise plus the exempt draw: a condition on what is known before anything is shared |
| `Promise.GrantsAreAsPromisedExactly` | crates/control/src/controller.rs:557-973 | The grants are within the promise if and only if what is held back, the exempt draw and what sharing will leave over are together not negative, and neither is the promise plus exempt draw and what is left over: a condition on the inputs of the cycle |
| `Promise.TotalIsAsPromisedExactly` | crates/control/src/controller.rs:557-973 | Grants and battery charging together are within it if and only if the same holds with the charging not held back, and the charging is at most the promise, what sharing will leave over and, where negative, the exempt draw; with nothing negative, if and only if charging is at most the promise and what is left over |
| `Promise.TotalIsKeptWithoutGridCharging` | crates/control/src/controller.rs:557-973 | So they are whenever the batteries do not charge from the grid and no load, reserve or exempt draw is negative |
| `Promise.TotalInEveryRun` | crates/control/src/controller.rs:557-973 | In every dimmed cycle of every run, grants and charging are within the promise if and only if that condition holds; without exempt devices and negative failsafe currents, if and only if charging is at most the promise and what sharing leaves over |
| `Shortfalls.PlanBreaksTheFloor` | crates/control/src/controller.rs:895-903 | A legal dimmed cycle in which a plan of -10 kW for an exempt heat pump gets the other one 10 kW with a promise of 0 |
| `Shortfalls.NegativeFailsafeBreaksTheFloor` | crates/control/src/controller.rs:497-519 | A legal dimmed cycle in which a silent charger with a failsafe current of -20 A gets the heat pump 12 kW with a promise of 0 |
| `Shortfalls.CycleWithoutCars` | crates/control/src/controller.rs:460-737 | For any site, state and inputs without waiting cars, a legal cycle with the setpoints the specification computes: what makes these cycles runs of the controller |
| `Promise.DimmedGrantsAddUp` | crates/control/src/controller.rs:557-973 | While dimmed, grants plus spare current are exactly that amount: nothing is lost and nothing is given twice |
| `Promise.DimmedGrantsAre` | crates/control/src/controller.rs:557-973 | So all grants of a dimmed cycle together are a function of what comes in and what is remembered: that amount less what sharing must leave over |
| `Promise.DimmedDecision` | crates/control/src/controller.rs:543-587 | A decision to dim sets the budget to floor + lasting surplus - margin, and the lasting surplus is at most the measured one |
| `Promise.ReserveIsSafe` | crates/control/src/controller.rs:497-519 | The reserve for silent devices is never negative, for all readings, if and only if no limited charger has a negative failsafe current, which validation lets through |
| `Promise.NeverLiftedIfNothingExempt` | crates/control/src/controller.rs:895-903 | The exempt draw is never negative, for all readings and guidance, if and only if the site has no exempt device; under the law for DE it has none |
| `Promise.ExemptDrawIsSafe` | crates/control/src/controller.rs:895-903 | With exempt devices the draw is not negative while none of them reports or is planned a negative power |
| `Promise.DailyLimitHoldsInEveryRun` | crates/control/src/controller.rs:543-554 | In every run of the controller without emergencies the day's counter of dimmed seconds stays within the limit plus the 10 s cap, from any restored totals within it |
| `Runs.NoDayIsDimmedLonger` | crates/control/src/controller.rs:543-554 | In every run without emergencies in which no day comes back after another, what was restored for a day and the capped gaps of all cycles of the run that dim on that day are together at most the contract's limit plus 10 s |
| `Runs.HeldSurplusInEveryRun` | crates/control/src/controller.rs:534-561 | In every cycle of every run with a monotone clock the surplus counted on is the least measured in the last surplus_hold_s, and none exactly when none can be measured now |
| `Runs.ReleaseInEveryRun` | crates/control/src/controller.rs:562-587 | After a dimming every later cycle until the next has the budget that the last dimmed budget, one wait within [0, delay_max] and the time since give: constant, then linear towards the rated load, then unlimited |
| `Runs.NeverStraightToNormal` | crates/control/src/controller.rs:562-587 | With a positive ramp no run goes from a dimmed cycle straight to a normal one |
| `Runs.ChargesFromSurplusInEveryRun` | crates/control/src/controller.rs:758-827 | In every dimmed or releasing cycle of every run the batteries together charge at most the PV that base load and loads would leave over of what the sun allows, whatever the guidance |
| `Runs.ChargesFromMeasuredPvInEveryRun` | crates/control/src/controller.rs:739-804 | In every such cycle the batteries charge at most the PV left over that is measured (and so nothing from the grid) if and only if not all of this comes together: a plan for an expected dimming asks for more than that, the sun would allow more, and the batteries have room for more; without a reading of what the sun allows they always do |
| `Shortfalls.PlanChargesFromTheGrid` | crates/control/src/controller.rs:739-804 | A legal dimmed cycle under the law for DE with 3 kW of surplus in which the battery charges 13 kW, more than floor, surplus and discharge together |
| `Runs.PvRisesGentlyInEveryRun` | crates/control/src/controller.rs:638-645 | In every run the PV limit rises between any two cycles by at most the ramp rate times the time between them |
| `Control.Controller.constructor` | crates/control/src/controller.rs:366-392 | A new controller: normal operation, 100 % PV, everything off, nothing remembered, a generator that is not 0, and a new recorder |
| `Control.Controller.Step` | crates/control/src/controller.rs:460-737 | One cycle keeps the controller valid; its setpoints and its whole new state are those of the specification the theorems above are about, and the recorder has observed the cycle |
| `Control.Controller.Regulate` | crates/control/src/controller.rs:460-692 | All of it but the recorder |
| `Control.Controller.Grant` | crates/control/src/controller.rs:460-618 | Decisions and grants together |
| `Control.Controller.Settle` | crates/control/src/controller.rs:626-692 | The PV limit and the running totals together |
| `Evidence.EveryDimmingIsReported` | crates/control/src/controller.rs:718-725 | In every run of the controller with a monotone clock, its reports taken at any time: there is exactly one report for each maximal stretch of dimmed cycles that has ended, in order, with its times, the floor of its first cycle, an emergency exactly if one of its cycles had one, and the samples that were due; the reports are numbered and chained, and their times and verdicts are true |
| `Evidence.EveryDimmingIsOnFile` | crates/control/src/controller.rs:718-725 | And their files verify and form one chain |
| `Recordings.SpellsAre` | crates/control/src/compliance.rs:138-179 | The stretches reported are all maximal runs of dimmed cycles with a cycle after them |
| `Recordings.SpellsEnded` | crates/control/src/compliance.rs:138-179 | In the same order as the reports, each with its own cycles and the time of the cycle after them |
| `Control.SteppedIsValid` | crates/control/src/controller.rs:460-737 | Every specified step leads from a valid state to a valid state |
| `Control.TakeMeasures` | crates/control/src/controller.rs:468-533 | The loops over the readings compute loads, reserve and battery power; implausible meter readings count as missing |
| `Control.Controller.HoldSurplus` | crates/control/src/controller.rs:534-539 | The queue of measured surpluses after it, and the least of those left |
| `Control.Controller.NextBudget` | crates/control/src/controller.rs:555-587 | Mode, budget, memory and random state after the release machine, in full |
| `Control.Controller.Prepare` | crates/control/src/controller.rs:460-618 | Everything decided before the budget is shared |
| `Control.Controller.LimitPv` | crates/control/src/controller.rs:626-686 | The PV limit, its memory, and the limits of the inverters |
| `Control.Controller.Share` | crates/control/src/controller.rs:617-624 | The grants and the memory of which charger is on |
| `Allocation.Allocate` | crates/control/src/controller.rs:843-973 | The currents, heat pump limits and charger memory: unlimited without a budget, otherwise an allocation the lemmas below are about |
| `Allocation.GrantsAddUp` | crates/control/src/controller.rs:895-967 | Grants to limited devices plus the spare current are exactly what there is to share |
| `Allocation.GrantsAre` | crates/control/src/controller.rs:895-967 | All grants together are what there is to share less the part of an amp, or the excess over all caps, that the ranked cars cannot take |
| `Allocation.GrantsArePossible` | crates/control/src/controller.rs:843-973 | Every limited charger gets 0 or whole amps from 6 to its cap and only if a car waits; every limited heat pump 0 or from its minimum to its demand; exempt ones their cap |
| `Allocation.ChargesIfActive` | crates/control/src/controller.rs:912-967 | A limited charger gets current exactly if it is in the active set |
| `Allocation.BestRankedCharge` | crates/control/src/controller.rs:915-935 | Every car with current precedes every waiting one without (dwell, laxity, energy), and one is left out only where a further 6 A minimum does not fit |
| `Allocation.ShareableIsWithinBudget` | crates/control/src/controller.rs:895-903 | What is shared stays within the budget if and only if the exempt draw is not negative |
| `Allocation.GuaranteedConserves` | crates/control/src/controller.rs:905-910 | The guaranteed shares and what is left add up |
| `Allocation.ToppedUpConserves` | crates/control/src/controller.rs:942-949 | So do the top-ups |
| `Allocation.ExemptDraw` | crates/control/src/controller.rs:895-903 | The loop computes the sum over exempt heat pumps and waiting exempt cars |
| `Allocation.GuaranteeShares` | crates/control/src/controller.rs:905-910 | The loop over heat pumps grants the shares of the specification |
| `Allocation.AllocateHeat` | crates/control/src/controller.rs:905-949 | Heat pumps and the choice of active cars together |
| `Allocation.TopUpHeatPumps` | crates/control/src/controller.rs:942-949 | The loop grants the top-ups of the specification |
| `Allocation.Charge` | crates/control/src/controller.rs:936-967 | The active cars' currents are a fair sharing of the current left, written back to their chargers |
| `Allocation.Remember` | crates/control/src/controller.rs:969-981 | A charger's switching time changes exactly when its state does |
| `WaterFill.Fill` | crates/control/src/controller.rs:951-967 | The water-fill terminates; granted + spare = available; every car from 6 A to its floored cap in whole amps; a car more than 1 A below another, or behind it and below it, is at its floored cap; it stops only with less than 1 A left or everybody at the cap |
| `WaterFill.FillIsDetermined` | crates/control/src/controller.rs:951-967 | That description leaves one result only |
| `WaterFill.SpareIs` | crates/control/src/controller.rs:951-967 | The current left over is the part of an amp that was there at the start, or what exceeds the headroom of all cars, whichever is more |
| `WaterFill.ServeRound` | crates/control/src/controller.rs:953-966 | One round hands out at most the share to each open car and keeps the books balanced |
| `WaterFill.RoundDone` | crates/control/src/controller.rs:953-966 | After a round all unfilled cars stand at one level, one share higher, or the water has run out |
| `Ranking.SortRanks` | crates/control/src/controller.rs:915-931 | The stable sort yields a sequence ordered by key and, for equal keys, by number, with the same cars |
| `Ranking.PrefixPrecedes` | crates/control/src/controller.rs:932-935 | Everybody in the first n precedes everybody who is not |
| `Budgets.MemoryIsTheWindow` | crates/control/src/controller.rs:534-539 | Over any monotone run the queue holds exactly the measurements of the last surplus_hold_s |
| `Budgets.HeldIsTheLeastOfTheWindow` | crates/control/src/controller.rs:534-539 | So the held surplus is a measured one of that window and the least of it |
| `Budgets.ReleaseFollowsTheClock` | crates/control/src/controller.rs:562-587 | After a dimming the budget depends on the last dimmed budget, the wait and the time only, however many cycles there are |
| `Budgets.ReturnedIsBetween` | crates/control/src/controller.rs:575-587 | On the way back it stays between the last dimmed budget and the rated load |
| `Budgets.ReturnedOnlyRises` | crates/control/src/controller.rs:575-587 | And only rises where the rated load is the higher |
| `Budgets.DimmedGoesStraightToNormalOnlyWithoutRamp` | crates/control/src/controller.rs:562-587 | A dimming ends in normal operation at once if and only if the ramp is 0 and the wait drawn is 0 |
| `Budgets.WaitIsBounded` | crates/control/src/controller.rs:563-570 | The wait is in [0, delay_max], and below delay_max where that is positive |
| `Random.NeverZero` | crates/control/src/controller.rs:371-373 | From any seed the xorshift state is never 0, in any number of draws |
| `Random.Unit` | crates/control/src/controller.rs:984-989 | Every draw is in [0, 1) |
| `Random.ZeroSticks` | crates/control/src/controller.rs:371-373 | At 0 it would stay at 0: why the seed is made odd |
| `Batteries.PlanBatteries` | crates/control/src/controller.rs:758-827 | The loop sharing the wanted power among the batteries computes the specified setpoints |
| `Batteries.SharesAreTowards` | crates/control/src/controller.rs:805-827 | The setpoints all have the sign of the power wanted and never sum beyond it |
| `Batteries.SharesAreAllTheyCan` | crates/control/src/controller.rs:805-827 | Each keeps to its range, and where the sum falls short each gives all it can |
| `Batteries.SetpointsHaveOneSign` | crates/control/src/controller.rs:758-827 | Batteries never charge and discharge against each other |
| `Batteries.SetpointsKeepTheWindow` | crates/control/src/controller.rs:758-827 | Every setpoint keeps its battery in its state-of-charge window for any cycle up to 15 min, lossless; one outside moves no further away |
| `Batteries.SocStaysInItsWindow` | crates/control/src/controller.rs:739-757 | The same for any power within the limits |
| `Batteries.ConstrainedChargesFromSurplus` | crates/control/src/controller.rs:758-804 | While dimmed or releasing all charging together is at most the PV that would be left over of what the sun allows, whatever the guidance |
| `Batteries.ChargingIs` | crates/control/src/controller.rs:805-827 | All charging together is what is wanted or what the batteries have room for, the lesser of the two |
| `Batteries.ChargesFromMeasuredPvExactly` | crates/control/src/controller.rs:739-804 | While dimmed or releasing it is at most the left-over PV that is measured if and only if not: a plan is followed and asks for more, the sun would allow more, and there is room for more |
| `Batteries.NoPlanChargesFromGridExactly` | crates/control/src/controller.rs:739-804 | No plan at all makes it charge from the grid if and only if the meter is blind, the sun allows no more than is measured, or the batteries have no room for more |
| `PvLimits.OthersMakeUp` | crates/control/src/controller.rs:672-685 | With stuck inverters their output plus the limited output of the others is at most max(target, stuck output), and exactly the target unless a clamp binds |
| `PvLimits.LimitRisesGently` | crates/control/src/controller.rs:638-645 | Between any two cycles of a ramped limit it rises by at most the rate times the time between them |
| `PvLimits.LimitIsAPercentage` | crates/control/src/controller.rs:638-645 | Over any run the limit stays in 0..100 % and never above the target of its cycle |
| `PvLimits.FeedInIsAPercentage` | crates/control/src/controller.rs:589-603 | The feed-in limit of any command and totals is in 0..100 % |
| `PvLimits.TargetIsAPercentage` | crates/control/src/controller.rs:626-638 | The target is between the feed-in limit and 100 %: own use only ever allows more |
| `PvLimits.IgnoredAfterTheTimeout` | crates/control/src/controller.rs:657-671 | An inverter is reported if and only if the unbroken run of cycles over its limit is as old as the timeout |
| `PvLimits.RememberedSince` | crates/control/src/controller.rs:657-671 | The time remembered for it is the start of that unbroken run, and there is one exactly while it is over |
| `Runs.IgnoredInEveryRun` | crates/control/src/controller.rs:647-671 | In every run of a new controller with a fixed number of inverters, each of them is reported in a cycle if and only if it has been over the limit last sent to it, without a break, for the timeout |
| `PvLimits.FollowLimits` | crates/control/src/controller.rs:647-686 | The loops over inverters compute times, stuck ones and limits as specified |
| `PvLimits.SumStuckAndFree` | crates/control/src/controller.rs:672-681 | The sums of stuck output and of the rating of the others |
| `Accounts.DailyLimitHolds` | crates/control/src/controller.rs:543-554 | In every run without emergencies the counter of the day's dimmed seconds stays within the limit plus the 10 s cap, whatever the clock does |
| `Accounts.EmergencyExceedsTheLimit` | crates/control/src/controller.rs:543-554 | An emergency dims past the limit |
| `Accounts.CounterCountsDimmedGaps` | crates/control/src/accounting.rs:55-78 | While the day does not change the counter is what it was and the sum of the dimmed gaps, each capped at 10 s |
| `Accounts.CounterHoldsItsDay` | crates/control/src/accounting.rs:55-78 | While no day comes back after another, the counter is exactly what was restored for its day and all dimmed gaps of that day |
| `Accounts.CounterHoldsItsDayExactly` | crates/control/src/accounting.rs:55-78 | For a sequence of days the counter holds all of its day at every moment, whatever is restored and dimmed, if and only if no day comes back after another |
| `Accounts.EndOfDay` | crates/control/src/accounting.rs:55-78 | And there is a moment at which it holds all of them, for every day |
| `Accounts.GoingBackForgets` | crates/control/src/accounting.rs:55-66 | A day number that comes back after another finds its counter at 0 |
| `Accounts.GoingBackDimsAgain` | crates/control/src/controller.rs:543-554 | A day of 1 minute that is used up, left and comes back is dimmed again, past the limit and the 10 s cap |
| `Accounts.Accounting.Roll` | crates/control/src/accounting.rs:55-66 | A new day resets the day's totals, a new year the year's, and nothing else |
| `Accounts.Accounting.Advance` | crates/control/src/accounting.rs:68-78 | The new totals and time after a gap |
| `Sites.PminCoversADevice` | crates/control/src/rules.rs:50-65 | Pmin,14a leaves at least 4.2 kW to any site with a device and 0 to one without |
| `Sites.PminGrowsWithAWallbox` | crates/control/src/rules.rs:50-65 | Another wallbox or battery never lowers it |
| `Sites.PminGrowsWithAHeatPump` | crates/control/src/rules.rs:50-65 | Nor does another heat pump, also where it makes the rule for large devices apply |
| `Sites.SharedGrows` | crates/control/src/rules.rs:13-27 | The simultaneity factor falls slowly enough that n devices are left no more than n + 1 |
| `Sites.FloorIsNotNegative` | crates/control/src/controller.rs:455-457 | The floor in force is never below that of the configuration, and not negative |

## Left out

- Floating point: rounding, NaN and the 1e-9 tolerances of the planner are not modelled; the arithmetic is exact. `f32`
  values in ASDUs are four octets.
- Integer widths other than those of the wire: report numbers do not overflow, Unix times are unbounded.
- SHA-256 is a parameter, assumed collision-free where a lemma says so; the formatting of numbers and times in reports is
  a parameter too, assumed to give no line breaks, and a site name is assumed to be one line.
- The session's output holds APDUs, which the source encodes at once, and its payloads are octets, which the
  source decodes before handing them over; `Apci` and `Asdu` model the encodings.
- The tap that `parse_all` shows each frame to.
- Tokio tasks, TCP, TLS, Modbus, HTTP, files, configuration files, and the parsing of XML, JSON and CSV.
- `PriceBook::at_or_before`, `until_s` and the parsers of prices: they add no property beyond `at`.
- Sorting in the price book and in the ranking of cars is a functional stable insertion sort in place of the library's.
- WaterFill.Fill: numbers the cars by rank and counts whole amps; `Allocation.Charge` writes the result back to the
  chargers. The source updates one vector of currents in place.
- Controller: the list of fallbacks and refusals and the status for display are not modelled; what the recorder is given of
  the status is.
- Promise.FloorIsKept: is about what is granted, not about what devices then draw.
- Promise.TotalIsKeptWithoutGridCharging: goes one way only; the exact condition is `Promise.TotalIsAsPromisedExactly`.
- Runs.IgnoredInEveryRun: is about runs in which the number of inverters stays, since a change makes the controller forget.
- Promise.ExemptDrawIsSafe: goes one way only, since negative powers of some exempt devices may be made up for by others.
- Batteries.SetpointsKeepTheWindow: is about lossless batteries.
- PlanBuild.PlanSide: the loops of `plan` list the builder calls first; `PlanReading.MakeCalls` then makes them in this
  order on the builder. In the source each call is made at once.
- The input checks of `plan` are a precondition, and the normal quantile in its uncertainty margin is a parameter.
- The Clarabel solver: lemmas speak of feasible points and their objective.
- What is read from the solver's answer beyond the power balance, and the translation of a plan into guidance.
- Plant models, the simulated devices, EEBUS, relays, SunSpec discovery, the metering of quarter hours, deadband reporting
  and the web page: small or without guarantees of their own.
