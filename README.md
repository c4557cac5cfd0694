# HOTAS-Controller core, modelled in Dafny

HOTAS-Controller is a Windows tool with the following parts:

- It polls an XInput gamepad at a fixed rate and stores every signal in lock-light sample rings. It plots the recent window of those rings.
- It can forward the pad through a filter to a virtual Xbox 360 pad. The filter suppresses analog spikes and gates digital presses until they have been held long enough.
- It reads the raw HID reports of a Logitech X56 stick and throttle. It decodes their bit fields, filters each field per signal, and feeds the values to a mapper. The mapper composes an Xbox 360 report from user-defined mappings.

This project models that core as Dafny modules, one per source unit:

| module | source unit | form |
|---|---|---|
| `RingBuffer` | `src/core/ring_buffer.hpp` | class `SampleRing` over an `array`; window and baseline functions it is proved against |
| `Signals`, `Report` | `src/xinput/xinput_poll.hpp`, the conversions in `xinput_poll.cpp`, `filtered_forwarder.hpp` and `hotas_mapper.cpp` | datatypes and pure functions |
| `SignalRings` | the array of twenty rings shared by the poller and the forwarder | class `RingBank` |
| `XInputPoll` | `src/xinput/xinput_poll.cpp` | scheduler step function plus class `XInputPoller` |
| `FilteredForwarder` | `src/xinput/filtered_forwarder.hpp` | per-button gate functions plus class `Forwarder` with the 16-slot arrays |
| `HidField`, `HotasReader` | `src/xinput/hotas_reader.cpp` | hex and bit-field decoding; class `Reader` for `poll_once` |
| `HotasFilter` | the HOTAS filter block of `src/main.cpp` | class `HotasFilterState` whose fields are the maps the loop updates |
| `HotasMapper` | `src/xinput/hotas_mapper.cpp` | class `Mapper`; report composition as a fold |
| `FilterSettings` | settings load/save and window clamp of `src/main.cpp` | parser and writer functions with a round-trip lemma |
| `LegacyMigration` | legacy mapping migration of `src/main.cpp` | methods that drive `Mapper.RemoveMapping`/`AddMapping` |
| `PlotsPanel` | the data paths of `src/ui/plots_panel.cpp` | pure series functions plus methods with the source's loops |

Modelling conventions:

- Times and sample values are exact reals.
- Raw report bytes are bounded naturals.
- The button word is a `bv16`.
- The C++ truncating casts (`int16_t`, `uint8_t`) are written out explicitly.
- Clocks, the OS HID layer and the ViGEm driver become parameters: a `Tick` per poll, the live `(path, hex)` list, and a send-result flag.

## Model

| member | source | states |
|---|---|---|
| RingBuffer.LowMaskIsMod | src/core/ring_buffer.hpp:19-23 | for a power-of-two capacity, `idx & (capacity-1)` equals `idx % capacity` |
| RingBuffer.DistinctSlots | src/core/ring_buffer.hpp:32-35 | the last `capacity` indices land in pairwise distinct slots, so a snapshot never reads a slot twice |
| RingBuffer.FirstInWindowSpec | src/core/ring_buffer.hpp:32-39 | the first in-window index of a time-sorted history: everything before it is older than the cutoff, everything from it on is not |
| RingBuffer.InWindowMembers | src/core/ring_buffer.hpp:34-39 | a sample is in the window snapshot iff it is retained and its time is at least the cutoff |
| RingBuffer.InWindowSplit | src/core/ring_buffer.hpp:34-39 | the window filter distributes over concatenation |
| RingBuffer.InWindowOfSorted | src/core/ring_buffer.hpp:26-39 | on time-sorted samples the snapshot is exactly the suffix from the first in-window sample |
| RingBuffer.BaselineOfSorted | src/core/ring_buffer.hpp:42-66 | on sorted samples the baseline snapshot is the last pre-cutoff sample (if any) followed by the in-window suffix |
| RingBuffer.BaselineWhenWindowEmpty | src/core/ring_buffer.hpp:62-65 | when no sample is in the window, the baseline snapshot is just the last sample |
| RingBuffer.BaselineScanDone | src/core/ring_buffer.hpp:50-66 | the loop's state (output, pending baseline) after the scan yields exactly the specified baseline snapshot |
| RingBuffer.SampleRing.constructor | src/core/ring_buffer.hpp:18-19 | a fresh ring of the given power-of-two capacity with an empty history |
| RingBuffer.SampleRing.Push | src/core/ring_buffer.hpp:21-24 | the history grows by exactly the pushed sample, which is written at slot `writeIndex % capacity`; every other slot is unchanged; the write index advances by one |
| RingBuffer.SampleRing.At | src/core/ring_buffer.hpp:35 | reading slot `i & mask` for a retained index yields the `i`-th pushed sample |
| RingBuffer.SampleRing.Snapshot | src/core/ring_buffer.hpp:28-40 | the output is the in-window filter of the last `capacity` pushed samples; it is empty when nothing was pushed and never longer than the capacity |
| RingBuffer.SampleRing.Scan | src/core/ring_buffer.hpp:50-61 | the baseline loop ends in a state satisfying the scan invariant for the whole retained history |
| RingBuffer.SampleRing.SnapshotWithBaseline | src/core/ring_buffer.hpp:43-66 | the output is the retained history's window plus its baseline sample; empty when nothing was pushed |
| RingBuffer.SampleRing.Size | src/core/ring_buffer.hpp:68 | returns the number of pushes since the last clear |
| RingBuffer.SampleRing.Clear | src/core/ring_buffer.hpp:70 | the history becomes empty and the storage is kept |
| Signals.AllSignals | src/xinput/xinput_poll.hpp:11-18 | the twenty signals, pairwise distinct |
| Signals.Index | src/xinput/xinput_poll.hpp:11-20 | every signal has an index below `SignalCount` that maps back to it |
| Signals.SignalMetaTable | src/xinput/xinput_poll.hpp:22-29 | twenty metadata entries; an entry is analog iff its index is below 6 |
| Signals.ButtonMaskOfDigital | src/xinput/xinput_poll.cpp:114-129 | a signal is analog iff it has no button mask, so exactly the digital signals are read from the button word |
| Signals.NormAxisRange | src/xinput/xinput_poll.cpp:104 | axis normalisation lands in [-1, 1], keeps the sign and zero, and maps 32767 to 1 and -32768 to -1 |
| Signals.Normalize | src/xinput/xinput_poll.cpp:102-141 | the forwarded state has sticks in [-1, 1], triggers in [0, 1] and the raw button word |
| Signals.ClampControllerIndex | src/xinput/xinput_poll.hpp:53 | the controller index is clamped to 0..3 and left alone inside that range |
| Signals.ClampHz | src/xinput/xinput_poll.hpp:66-70 | the polling rate is clamped to [10, 8000] Hz and left alone inside that range |
| Report.Clamp | src/xinput/filtered_forwarder.hpp:131-132 | the result is in [lo, hi]; inside values are kept and outside values go to the nearer bound |
| Report.ToShort | src/xinput/filtered_forwarder.hpp:131 | the 16-bit conversion keeps the sign and saturates at 32767 and -32768 |
| Report.ToTrig | src/xinput/filtered_forwarder.hpp:132 | the trigger byte is 0 at or below 0 and 255 at or above 1 |
| Report.ToShortMonotone | src/xinput/filtered_forwarder.hpp:131 | the 16-bit conversion is monotone |
| Report.ToShortOfNormAxis | src/xinput/xinput_poll.cpp:104 | converting a normalised raw axis back to 16 bits yields the raw value |
| Report.NormAxisOfToShort | src/xinput/filtered_forwarder.hpp:131 | normalising a converted value loses less than one step, toward zero |
| Report.ToTrigOfByte | src/xinput/filtered_forwarder.hpp:132 | converting a normalised trigger byte back yields the byte |
| Report.ToTrigNearest | src/xinput/filtered_forwarder.hpp:132 | the trigger conversion rounds to the nearest step |
| Report.ToReport | src/xinput/filtered_forwarder.hpp:133-140 | the report carries the buttons unchanged. X axes keep their sign and Y axes flip it, with full deflection at the 16-bit bounds (Y reversed). Triggers are 0 at or below 0 and 255 at or above 1. `ReportOfNormalize` pins the exact values |
| Report.ReportOfNormalize | src/xinput/filtered_forwarder.hpp:131-140 | the report built from a normalised pad state is the original pad, so an unfiltered pass-through is lossless |
| SignalRings.RingCapacityIsPow2 | src/xinput/xinput_poll.cpp:13-16 | the ring capacity 2^19 is a power of two |
| SignalRings.RingBank.constructor | src/xinput/xinput_poll.cpp:12-18 | twenty fresh rings, all with an empty history |
| SignalRings.RingBank.PushState | src/xinput/xinput_poll.cpp:108-129 | each signal's history grows by one sample at time `t` carrying that signal's value of the state |
| SignalRings.RingBank.PushOne | src/xinput/xinput_poll.cpp:108 | only the addressed ring grows, by the pushed sample |
| SignalRings.RingBank.Clear | src/xinput/xinput_poll.cpp:49-52 | every history becomes empty |
| SignalRings.RingBank.Snapshot | src/xinput/xinput_poll.cpp:37-41 | the signal's ring window at `latest - window`; at most the capacity; empty for an empty history |
| SignalRings.RingBank.SnapshotWithBaseline | src/xinput/xinput_poll.cpp:43-47 | the signal's baseline snapshot at `latest - window`; empty for an empty history |
| XInputPoll.StartSched | src/xinput/xinput_poll.cpp:60-71 | the first deadline is one interval after start, with an empty statistics window |
| XInputPoll.RefreshRate | src/xinput/xinput_poll.cpp:80-87 | the cached rate becomes the clamped request; the interval changes only when the rate does |
| XInputPoll.SchedStepKeepsRate | src/xinput/xinput_poll.cpp:78-192 | one loop iteration keeps the scheduler consistent (interval = 1/rate, rate in range) and adopts the clamped requested rate |
| XInputPoll.IntervalBounds | src/xinput/xinput_poll.cpp:65-68 | the poll interval stays within [1/8000, 1/10] s |
| XInputPoll.DeadlineAfterRead | src/xinput/xinput_poll.cpp:173-178 | after a read the deadline advances by one interval, or is reset to now plus one interval when more than one interval late |
| XInputPoll.DeadlineProgress | src/xinput/xinput_poll.cpp:173-178 | the next deadline is at least one interval after the old one and not more than one interval in the past |
| XInputPoll.FailedReadSched | src/xinput/xinput_poll.cpp:93-98 | a failed read publishes nothing, keeps the statistics window and sets the deadline one interval after the clock |
| XInputPoll.StatsPublication | src/xinput/xinput_poll.cpp:149-192 | the effective rate is published iff 0.1 s have elapsed; it is polls/elapsed, and the window restarts; otherwise the poll count grows by one |
| XInputPoll.XInputPoller.constructor | src/xinput/xinput_poll.cpp:12-18 | a stopped, disconnected poller with empty rings, the header defaults, no published rate and a fresh schedule |
| XInputPoll.XInputPoller.SetControllerIndex | src/xinput/xinput_poll.hpp:53 | the index becomes the clamped one; every other field is unchanged |
| XInputPoll.XInputPoller.SetTargetHz | src/xinput/xinput_poll.hpp:66-70 | the rate becomes the clamped one; every other field is unchanged |
| XInputPoll.XInputPoller.Start | src/xinput/xinput_poll.cpp:22-28 | a second start changes no field; a first start sets running, stores rate and window and starts the schedule, and changes no other field (the pad slot included) |
| XInputPoll.XInputPoller.Stop | src/xinput/xinput_poll.cpp:30-33 | only the running flag changes, to false; schedule, rate, pad slot and data are kept |
| XInputPoll.XInputPoller.RefreshInterval | src/xinput/xinput_poll.cpp:80-87 | only the schedule changes, to `RefreshRate` of the old one |
| XInputPoll.XInputPoller.AdvanceAfterRead | src/xinput/xinput_poll.cpp:145-192 | counts the poll, advances the deadline and publishes the statistics window as the step function says; no other field changes |
| XInputPoll.XInputPoller.Cycle | src/xinput/xinput_poll.cpp:78-192 | one loop iteration: the schedule follows the step function; on a failed read nothing is recorded; on a read every ring grows by the normalised value at the loop start, the latest time is set, and the normalised state is forwarded. Rate, window, running flag and pad slot are unchanged |
| XInputPoll.XInputPoller.Clear | src/xinput/xinput_poll.cpp:49-54 | all histories empty, latest time 0, every other field unchanged |
| XInputPoll.XInputPoller.Snapshot | src/xinput/xinput_poll.cpp:37-41 | the ring window at `latest - window` |
| XInputPoll.XInputPoller.SnapshotWithBaseline | src/xinput/xinput_poll.cpp:43-47 | the ring baseline snapshot at `latest - window` |
| FilteredForwarder.SlotSignal | src/xinput/filtered_forwarder.hpp:198-203 | only slots 10 and 11 (the digital-trigger slots) have no signal |
| FilteredForwarder.SlotSignalBit | src/xinput/filtered_forwarder.hpp:198-203 | each slot's signal has exactly that slot's button bit |
| FilteredForwarder.GateStep | src/xinput/filtered_forwarder.hpp:205-233 | after a step the slot remembers the raw input and is active only while pressed |
| FilteredForwarder.GateRisingEdge | src/xinput/filtered_forwarder.hpp:218-219 | a rising edge records the press time and keeps the slot inactive |
| FilteredForwarder.GateHeld | src/xinput/filtered_forwarder.hpp:220-224 | a held press becomes active once it has lasted `digital_max` (with a positive rise time) |
| FilteredForwarder.GateRelease | src/xinput/filtered_forwarder.hpp:225-228 | a release deactivates and clears the rise time |
| FilteredForwarder.GateBypass | src/xinput/filtered_forwarder.hpp:210-216 | with filtering off the slot shows the raw input at once |
| FilteredForwarder.ShortPressNeverVisible | src/xinput/filtered_forwarder.hpp:205-233 | a press released before `digital_max` never becomes active at any step |
| FilteredForwarder.HeldPressBecomesVisible | src/xinput/filtered_forwarder.hpp:218-224 | during a continuous press the rise time stays at the press time and the slot is active from `digital_max` on |
| FilteredForwarder.LongPressVisible | src/xinput/filtered_forwarder.hpp:218-224 | a press held `digital_max` past its first sample becomes visible |
| FilteredForwarder.RawBits | src/xinput/filtered_forwarder.hpp:191-192 | slot i is pressed iff bit i of the button word is set |
| FilteredForwarder.BtnNow | src/xinput/filtered_forwarder.hpp:190-196 | the sixteen instantaneous inputs, with the digital triggers in slots 10 and 11 |
| FilteredForwarder.MaskUpToBits | src/xinput/filtered_forwarder.hpp:235-239 | the loop-prefix mask has bit j iff j is below the bound, not a trigger slot and active |
| FilteredForwarder.OutMaskBits | src/xinput/filtered_forwarder.hpp:234-240 | the output mask has bit j iff slot j is active and not a trigger slot |
| FilteredForwarder.ClampDelta | src/xinput/filtered_forwarder.hpp:178-181 | the result is the current or previous value; jumps of at least delta are rejected, smaller changes kept |
| FilteredForwarder.ClampAnalog | src/xinput/filtered_forwarder.hpp:177-188 | buttons untouched; no change without a previous state; digital triggers untouched |
| FilteredForwarder.GatedState | src/xinput/filtered_forwarder.hpp:240-242 | sticks pass through; a digital trigger is 1 or 0 exactly as its slot is active |
| FilteredForwarder.GatedStateButtons | src/xinput/filtered_forwarder.hpp:234-240 | the gated button word has exactly the active non-trigger slots |
| FilteredForwarder.TestPatternButtons | src/xinput/filtered_forwarder.hpp:93-95 | the test pulse adds A, B, X, Y and both shoulders and keeps the pressed buttons |
| FilteredForwarder.Threshold | src/xinput/filtered_forwarder.hpp:100-101 | a digital trigger is 1 iff its value is at least 0.5, else 0 |
| FilteredForwarder.PreFilter | src/xinput/filtered_forwarder.hpp:87-101 | the test pattern overrides the state when requested; digital triggers are thresholded; otherwise the state passes unchanged |
| FilteredForwarder.DigitalTriggerSlot | src/xinput/filtered_forwarder.hpp:100-101 | a thresholded digital trigger feeds slot 10 exactly as its 0.5 threshold says |
| FilteredForwarder.PassthroughMirrorsPad | src/xinput/filtered_forwarder.hpp:131-140 | with no filter, test pulse or digital triggers the virtual report equals the physical pad |
| FilteredForwarder.BackendStatus | src/xinput/filtered_forwarder.hpp:31-39 | the backend is ready iff the status text is "Ready" |
| FilteredForwarder.Forwarder.constructor | src/xinput/filtered_forwarder.hpp:25-41 | empty rings, default parameters, all gates idle; signal filtering on only when the backend connected |
| FilteredForwarder.Forwarder.SetParams | src/xinput/filtered_forwarder.hpp:49-53 | delta and hold time are stored; every other field is unchanged |
| FilteredForwarder.Forwarder.SetFilterSignals | src/xinput/filtered_forwarder.hpp:54-56 | the per-signal flags are stored; every other field is unchanged |
| FilteredForwarder.Forwarder.SetTriggerModes | src/xinput/filtered_forwarder.hpp:57-60 | the two trigger modes are stored; every other field is unchanged |
| FilteredForwarder.Forwarder.EnableFilter | src/xinput/filtered_forwarder.hpp:61 | the filter switch is stored; every other field is unchanged |
| FilteredForwarder.Forwarder.EnableOutput | src/xinput/filtered_forwarder.hpp:62 | output is enabled only when requested and the backend is ready; every other field is unchanged |
| FilteredForwarder.Forwarder.TriggerTestPulse | src/xinput/filtered_forwarder.hpp:66 | arms the one-shot test pattern; every other field is unchanged |
| FilteredForwarder.Forwarder.ClearFiltered | src/xinput/filtered_forwarder.hpp:80-83 | empties every filtered history and zeroes the latest time; every other field is unchanged |
| FilteredForwarder.Forwarder.SnapshotFiltered | src/xinput/filtered_forwarder.hpp:69-73 | the filtered ring window at `latest - window` |
| FilteredForwarder.Forwarder.SnapshotFilteredWithBaseline | src/xinput/filtered_forwarder.hpp:74-78 | the filtered ring baseline snapshot at `latest - window` |
| FilteredForwarder.Forwarder.GateSlot | src/xinput/filtered_forwarder.hpp:205-233 | slot i takes one `GateStep`; the other slots are unchanged |
| FilteredForwarder.Forwarder.GateSlots | src/xinput/filtered_forwarder.hpp:205-233 | every slot takes one `GateStep` on its instantaneous input |
| FilteredForwarder.Forwarder.GateState | src/xinput/filtered_forwarder.hpp:190-242 | gates all slots and returns the gated state of the new active flags |
| FilteredForwarder.Forwarder.ApplyFilter | src/xinput/filtered_forwarder.hpp:174-244 | the result is the gated state of the spike-clamped input; it becomes the new previous state; no other field changes |
| FilteredForwarder.Forwarder.TakePending | src/xinput/filtered_forwarder.hpp:87-101 | consumes the test-pulse request and returns the pre-filtered state; no other field changes |
| FilteredForwarder.Forwarder.Prepare | src/xinput/filtered_forwarder.hpp:87-104 | with filtering off: returns the pre-filtered state, and the previous state and gate slots are unchanged. With filtering on: returns `GatedState` of the pre-filtered state spike-clamped against the old previous state. That result becomes the new previous state, and every gate slot takes one `GateStep`. Histories are unchanged, and no field other than the pulse and the previous state changes |
| FilteredForwarder.Forwarder.Record | src/xinput/filtered_forwarder.hpp:105-130 | every filtered ring grows by the output value of its signal at `t`; latest time is `t`; no other field changes |
| FilteredForwarder.Forwarder.Forward | src/xinput/filtered_forwarder.hpp:85-146 | the sent report is `ToReport` of the pre-filtered state, or, with filtering on, of its clamped and gated form. That same state is appended to every filtered ring. The gate slots and previous state change as in `Prepare`, the send failure is kept as the status, the latest filtered time is `t`, and no other field changes |
| FilteredForwarder.Forwarder.Process | src/xinput/filtered_forwarder.hpp:85-147 | when not ready or not enabled, nothing is sent and no field, gate slot or history changes. Otherwise the report sent is the one `Forward` specifies: pre-filtered, or clamped and gated with every slot stepped by `GateStep`. Every filtered ring grows by one sample of that state, and only the pulse, previous state, status and latest time change |
| HidField.HexValue | src/xinput/hotas_reader.cpp:329-334 | the digit value is in 0..15 for a hex character and -1 otherwise |
| HidField.HexValueOfHexChar | src/xinput/hotas_reader.cpp:329-334 | each digit value is read back from its lower-case digit |
| HidField.HexValueUpper | src/xinput/hotas_reader.cpp:332 | upper-case A..F read as 10..15 |
| HidField.PairByte | src/xinput/hotas_reader.cpp:339 | the byte's high nibble is the first digit and its low nibble the second |
| HidField.FieldValue | src/xinput/hotas_reader.cpp:351-357 | an n-bit field value is below 2^n |
| HidField.FieldBit | src/xinput/hotas_reader.cpp:351-357 | bit i of the assembled field is bit `start+i` of the report, LSB-first |
| HotasReader.DecodePairsSpec | src/xinput/hotas_reader.cpp:335-340 | decoding n pairs succeeds iff the first 2n characters are hex digits, and yields each pair's byte |
| HotasReader.DecodeHexSpec | src/xinput/hotas_reader.cpp:326-342 | `hex_to_bytes` fails iff the text is shorter than 2 or a digit in the paired prefix is not hex; on success it yields one byte per pair |
| HotasReader.DecodeHexIgnoresOddTail | src/xinput/hotas_reader.cpp:335 | a trailing odd character is ignored |
| HotasReader.DecodeHexOfEncode | src/xinput/hotas_reader.cpp:326-342 | decoding the hex text of a non-empty byte string gives the bytes back |
| HotasReader.HexToBytes | src/xinput/hotas_reader.cpp:326-342 | the loop succeeds exactly when the decoding does and outputs the decoded bytes |
| HotasReader.ExtractBitsSpec | src/xinput/hotas_reader.cpp:345-359 | zero for non-positive widths or fields past the report; otherwise below 2^bits with bit i equal to report bit `start+i` |
| HotasReader.ExtractBitsLsbFirst | src/xinput/hotas_reader.cpp:345-359 | the loop computes the specified field value |
| HotasReader.LatestHexIsLastUsable | src/xinput/hotas_reader.cpp:372-387 | the chosen report is the last fresh, non-empty one for that device, and empty iff there is none |
| HotasReader.SelectReports | src/xinput/hotas_reader.cpp:372-387 | returns the stick and throttle reports so chosen |
| HotasReader.StickButtonsBits | src/xinput/hotas_reader.cpp:428-433 | the button word has exactly A, B, X, Y for the four stick buttons |
| HotasReader.DecodeStickSpec | src/xinput/hotas_reader.cpp:397-436 | axes in [-1, 1]; LT is bit 0 of byte 7; RT is 0; the buttons are bits 1, 2, 4 and 5 of byte 7 |
| HotasReader.DecodeStickUsesTable | src/xinput/hotas_reader.cpp:290-308 | the fixed offsets of `poll_once` agree with the `list_signals` descriptors of joy_x, joy_y, c_joy_x, c_joy_y and trigger |
| HotasReader.PollSpec | src/xinput/hotas_reader.cpp:363-453 | a poll succeeds iff the last usable stick report decodes; a failed poll carries the zero state; a successful one the stick decoding of that last report |
| HotasReader.Reader.PollOnce | src/xinput/hotas_reader.cpp:363-453 | returns the specified snapshot and stamps the latest time only on success |
| HotasReader.ListSignalsDistinct | src/xinput/hotas_reader.cpp:290-308 | fourteen descriptors with distinct ids |
| HotasReader.ListSignalsFields | src/xinput/hotas_reader.cpp:290-308 | every field is 1..16 bits inside a 12-byte report, and analog iff it is at least 8 bits wide |
| HotasFilter.LenientHexValue | src/main.cpp:611-616 | the lenient digit agrees with the strict one on hex characters and is 0 otherwise |
| HotasFilter.LenientAgreesWithStrict | src/main.cpp:609-621 | the lenient decoder returns one byte per pair, agrees with `hex_to_bytes` wherever that succeeds, and is empty iff the text is shorter than 2 |
| HotasFilter.LenientHexToBytes | src/main.cpp:609-621 | the loop outputs the lenient decoding |
| HotasFilter.LenientExtractSpec | src/main.cpp:650-662 | the block's extractor agrees with `extract_bits_lsb_first` on fields inside the report, is 0 past the report and below 2^bits |
| HotasFilter.LenientExtractBits | src/main.cpp:650-662 | the loop computes the lenient field value |
| HotasFilter.LastReportSpec | src/main.cpp:626-637 | the report used per device is the last non-empty one on that device's path, and empty iff there is none |
| HotasFilter.ReadReports | src/main.cpp:622-637 | decodes the chosen stick and throttle reports |
| HotasFilter.ScaleRawRange | src/main.cpp:667-680 | the main axes and 8-bit axes scale into [-1, 1], the throttles into [0, 1], others stay raw |
| HotasFilter.AnalogClampSpec | src/main.cpp:687-691 | the first sample passes; a jump of at least delta is replaced by the previous value and smaller changes pass |
| HotasFilter.BinaryGateSpec | src/main.cpp:715-734 | rising edge records the time inactive; held press promotes after the hold; release and idle clear |
| HotasFilter.ShortPressFiltered | src/main.cpp:715-734 | a press shorter than the hold never produces an active output |
| HotasFilter.HatGate | src/main.cpp:695-714 | the hat output is the new value or the previous filtered value |
| HotasFilter.HatGateSpec | src/main.cpp:695-714 | the first sample passes; a change is held back and restarts the timer; a value is adopted only after being stable for the hold |
| HotasFilter.KeepFromSorted | src/main.cpp:744-752 | on sorted times the trim keeps exactly the samples no older than the cutoff |
| HotasFilter.TrimToWindow | src/main.cpp:744-752 | both columns lose the same prefix of samples older than the cutoff |
| HotasFilter.PushTrimInWindow | src/main.cpp:741-752 | after push and trim the buffer is sorted, ends with the new sample, and holds only times in [now - window, now] |
| HotasFilter.AlignedUpdate | src/main.cpp:741-743 | updating one buffer keeps the time and value columns of all buffers the same length |
| HotasFilter.HotasFilterState.constructor | src/main.cpp:591-595 | all filter maps and buffers empty |
| HotasFilter.HotasFilterState.FilterValue | src/main.cpp:682-738 | dispatches on the mode: analog clamp, hat gate, binary gate or pass-through. Stores the filtered and raw values under the key. The output and new memories equal `FilterStep` of the old ones |
| HotasFilter.HotasFilterState.HatFilter | src/main.cpp:695-714 | the hat step of `HatGate` applied to the stored state |
| HotasFilter.HotasFilterState.BinaryFilter | src/main.cpp:715-734 | the binary step of `BinaryGate` applied to the stored state |
| HotasFilter.HotasFilterState.Record | src/main.cpp:741-752 | the buffer under the key becomes the pushed-and-trimmed one; nothing else changes |
| HotasFilter.HotasFilterState.ProcessSignal | src/main.cpp:663-752 | the field is extracted and scaled, and its raw and filtered values are stored under the device-scoped key. An analog-mode value is spike-clamped and an unfiltered one passes. The display-name buffer gets the pushed-and-trimmed sample. The output and every new memory equal `SignalStep` of the old memories |
| HotasFilter.HotasFilterState.ProcessReports | src/main.cpp:622-752 | with no report nothing is accepted and no memory changes. Otherwise the accepted pairs and all memories afterwards equal `Pass` over the signal table. Keys come in table order, one per signal whose device has bytes, and each accepted key has a stored filtered value |
| HotasFilter.FilterStep | src/main.cpp:682-738 | whatever the mode, the filtered value and the raw value are stored under the key and the plot buffers are untouched. Outside digital mode the gate memories do not change |
| HotasFilter.FilterStepLocal | src/main.cpp:682-738 | filtering one key leaves every other key's filtered value and gate memories as they were |
| HotasFilter.SignalStep | src/main.cpp:663-752 | the signal's output is stored as its key's filtered value, and the buffers stay aligned |
| HotasFilter.SignalStepGates | src/main.cpp:663-738 | one signal's step leaves every other key's memories alone |
| HotasFilter.SignalStepBuffers | src/main.cpp:741-752 | one signal's step leaves every other plot buffer alone |
| HotasFilter.SignalStepEndsAtNow | src/main.cpp:741-752 | with a non-negative window, the signal's plot buffer ends with its output at time `now` |
| HotasFilter.Pass | src/main.cpp:662-752 | the pass over the signal table keeps the buffers aligned |
| HotasFilter.PassKeys | src/main.cpp:662-664 | the accepted keys are exactly the keys of the signals whose device has bytes, in table order |
| HotasFilter.PassKeysStored | src/main.cpp:734-737 | every accepted key has a filtered value stored after the pass |
| HotasFilter.PassValues | src/main.cpp:734-737 | the last accepted value of a key is the filtered value stored under that key, i.e. the value the mapper receives is the one the filter keeps |
| HotasFilter.PassUntouched | src/main.cpp:662-738 | a key that no reporting signal has keeps its filtered value and all gate memories |
| HotasFilter.PassBuffersEndAtNow | src/main.cpp:741-752 | every reporting signal's plot buffer ends with a sample at `now` |
| HotasFilter.PassBuffersUntouched | src/main.cpp:741-752 | a plot buffer whose key no reporting signal has is unchanged |
| HotasFilter.PushedEndsAtNow | src/main.cpp:741-752 | with a non-negative window, the trim never drops the sample just pushed |
| HotasMapper.RemoveFirstIndex | src/xinput/hotas_mapper.cpp:115-121 | removal drops exactly the first entry with the id and shifts the rest |
| HotasMapper.RemoveFirstUnique | src/xinput/hotas_mapper.cpp:115-121 | removal keeps ids unique, leaves no entry with that id and shrinks the list by one iff the id was present |
| HotasMapper.RemoveFirstKeepsOthers | src/xinput/hotas_mapper.cpp:115-121 | entries with other ids are kept |
| HotasMapper.DrainedSpec | src/xinput/hotas_mapper.cpp:176-182 | after draining, a signal has a value iff it had one or was sampled; an unsampled signal keeps its value; a sampled one holds its last sample |
| HotasMapper.TargetOf | src/xinput/hotas_mapper.cpp:193-228 | actions without the `x360:` prefix target nothing; button targets are one of the sixteen bits |
| HotasMapper.LastFor | src/xinput/hotas_mapper.cpp:192-213 | finds the last mapping to a target, or none |
| HotasMapper.ComposedChannel | src/xinput/hotas_mapper.cpp:192-213 | each axis and trigger of the report is set by the last mapping to it (Y axes negated), and 0 when none maps to it |
| HotasMapper.ComposedButtons | src/xinput/hotas_mapper.cpp:214-229 | a button bit is set iff some mapping targets that button |
| HotasMapper.ButtonsIgnoreValues | src/xinput/hotas_mapper.cpp:214-229 | the button word does not depend on the signal values |
| HotasMapper.NonX360Ignored | src/xinput/hotas_mapper.cpp:193 | inserting a mapping without the `x360:` prefix does not change the report |
| HotasMapper.ComposedNext | src/xinput/hotas_mapper.cpp:192-228 | composing one more mapping applies that mapping to the previous report |
| HotasMapper.ApplyToReport | src/xinput/hotas_mapper.cpp:193-228 | one loop body applies the mapping's effect, keeping the button mask beside the report |
| HotasMapper.ComposeReport | src/xinput/hotas_mapper.cpp:186-229 | the loop builds the composed report |
| HotasMapper.Mapper.constructor | src/xinput/hotas_mapper.cpp:13 | no mappings, samples or values |
| HotasMapper.Mapper.AcceptSample | src/xinput/hotas_mapper.cpp:89-95 | the sample is appended to the pending list |
| HotasMapper.Mapper.AddMapping | src/xinput/hotas_mapper.cpp:107-113 | succeeds iff the id is new and then appends; ids stay unique |
| HotasMapper.Mapper.RemoveMapping | src/xinput/hotas_mapper.cpp:115-121 | succeeds iff the id is present; removes its first entry |
| HotasMapper.Mapper.ListMappingEntries | src/xinput/hotas_mapper.cpp:102-105 | returns the mappings |
| HotasMapper.Mapper.LoadProfile | src/xinput/hotas_mapper.cpp:145-164 | a parsed profile replaces the mappings; a failed parse keeps them |
| HotasMapper.Mapper.Drain | src/xinput/hotas_mapper.cpp:174-184 | folds the pending samples into the current values and empties the list |
| HotasMapper.Mapper.PublishStep | src/xinput/hotas_mapper.cpp:171-229 | drains, then yields the composed report iff the backend is ready and mappings exist |
| FilterSettings.FindChar | src/main.cpp:131 | finds the first occurrence of the character, or reports none |
| FilterSettings.ParseKvSpec | src/main.cpp:129-134 | a key is parsed iff some line yields it, and its value comes from the last such line |
| FilterSettings.ParseLines | src/main.cpp:129-134 | the loop builds the parsed map |
| FilterSettings.GetBool | src/main.cpp:136-140 | a missing key gives the default; a present one is true iff "1", "true" or "TRUE" |
| FilterSettings.GetReal | src/main.cpp:141-152 | a missing or unparsable value gives the default |
| FilterSettings.ModeTextRoundTrip | src/main.cpp:169-171 | reading back a written mode gives the mode for 1 and 2 and 0 otherwise |
| FilterSettings.LoadedModes | src/main.cpp:164-173 | one mode per signal, each as the per-signal key says |
| FilterSettings.LoadModes | src/main.cpp:164-173 | the loop computes those modes |
| FilterSettings.LoadFilterSettings | src/main.cpp:125-175 | succeeds iff the file opens and yields the loaded configuration |
| FilterSettings.LoadWithoutKeys | src/main.cpp:154-173 | a file without known keys leaves the configuration unchanged |
| FilterSettings.ParseEntryLines | src/main.cpp:129-134 | parsing written `key=value` lines with distinct plain keys gives back every pair |
| FilterSettings.SavedKeysPlainAndDistinct | src/main.cpp:181-199 | the saved keys are distinct and contain no `=` |
| FilterSettings.SaveLoadRoundTrip | src/main.cpp:178-200 | loading a saved file restores the booleans and the known modes, and each number whose saved text parses back to it; unknown modes come back as none |
| FilterSettings.ClampWindow | src/main.cpp:479 | the loaded window is clamped to [1, 60] s |
| FilterSettings.HotasMode | src/main.cpp:501-511 | the device-scoped key wins, then the legacy key, else none |
| FilterSettings.HotasModesDomain | src/main.cpp:500-514 | the mode map has an entry for each listed signal's device-scoped id |
| FilterSettings.HotasModesLookup | src/main.cpp:512-513 | each signal's entry is its `HotasMode` |
| FilterSettings.LoadHotasModes | src/main.cpp:489-516 | no file gives an empty map; otherwise the modes of the parsed file |
| LegacyMigration.IdTableSpec | src/main.cpp:524-530 | an id is in the table iff listed, ambiguous iff listed twice or more, and otherwise carries its device |
| LegacyMigration.BuildIdTable | src/main.cpp:524-530 | the loop builds that table |
| LegacyMigration.NewSignalSpec | src/main.cpp:533-537 | an entry is migrated iff its signal has no colon and a unique listed id, to `device:id` |
| LegacyMigration.MigrationComplete | src/main.cpp:532-545 | with unique ids, migration keeps the count and uniqueness and holds exactly each entry's migrated form |
| LegacyMigration.MigrateEntry | src/main.cpp:533-543 | a migratable entry is removed and re-added with its new signal; others change nothing |
| LegacyMigration.Migrate | src/main.cpp:520-551 | the mappings become the migrated list; `changed` iff some entry migrated |
| PlotsPanel.StrideIndexSteps | src/ui/plots_panel.cpp:24-31 | stride indices strictly increase, start at 0, stay below n before m steps and reach n at m |
| PlotsPanel.PickIndicesShape | src/ui/plots_panel.cpp:24-33 | m or m+1 strictly increasing in-range indices from 0, the stride ones first, ending at the last sample's time |
| PlotsPanel.StridePicks | src/ui/plots_panel.cpp:26-32 | the while loop outputs the samples at the stride indices |
| PlotsPanel.StrideDownsample | src/ui/plots_panel.cpp:17-34 | the output columns are the times and values of the specified downsample |
| PlotsPanel.StepLevel | src/ui/plots_panel.cpp:131-141 | the scan's level is the value of the last in-window change |
| PlotsPanel.StepSeriesShape | src/ui/plots_panel.cpp:120-146 | equal lengths; empty iff the input is; each segment is horizontal or vertical; it ends at the last level |
| PlotsPanel.ChangesVisible | src/ui/plots_panel.cpp:131-141 | every in-window value change appears as a step point at its relative time |
| PlotsPanel.StepSeriesOrdered | src/ui/plots_panel.cpp:119-146 | on time-ordered input the x coordinates are non-negative and non-decreasing |
| PlotsPanel.ScanSteps | src/ui/plots_panel.cpp:131-141 | the loop computes the step scan |
| PlotsPanel.BuildStepSeries | src/ui/plots_panel.cpp:120-146 | the method builds the specified step series |
| PlotsPanel.SpikesSpec | src/ui/plots_panel.cpp:52-60 | a marker exists iff some sample jumps by at least delta inside the window; markers lie in [0, window] |
| PlotsPanel.SpikeMarkers | src/ui/plots_panel.cpp:52-60 | the loop draws exactly those markers |
| PlotsPanel.GroupSpikeMarkers | src/ui/plots_panel.cpp:95-108 | the group loop draws each signal's markers in order |
| PlotsPanel.PulsesSpec | src/ui/plots_panel.cpp:171-201 | a marker exists iff a high interval ends with a length in (0, max] and its midpoint lies in the window |
| PlotsPanel.LongPulseUnmarked | src/ui/plots_panel.cpp:186-189 | a high interval longer than the maximum is not marked |
| PlotsPanel.PulseMarkers | src/ui/plots_panel.cpp:173-201 | the loop draws exactly the pulse markers |
| PlotsPanel.GroupPulseMarkers | src/ui/plots_panel.cpp:173-201 | the group loop draws each signal's pulse markers in order |

## Left out

- Rendering: ImGui/ImPlot drawing, plot styling and the x-axis shift by `t0` in `draw_signal` are not modelled. The plot functions return series and markers.
- Device I/O: SetupAPI enumeration, HID report reading (`start_hid_live`), XInput calls and the ViGEm client are parameters or flags. A failed send is only recorded as a status.
- Threads and atomics: the poller, mapper and HID threads, mutexes, memory orders and `sleep`/spin waits are not modelled. The ring's single-writer/multi-reader concurrency is not captured; each operation is atomic in the model.
- Floating point: `float`/`double` rounding is replaced by exact reals, apart from the explicit truncation of the integer casts.
- The average loop time (an EMA of measured microseconds) in the poll statistics is not modelled.
- `inject_state` and the mapper's inject callback are not modelled; they are calls into code outside the core.
- `save_profile`/`load_profile` JSON handling: the JSON file is not modelled. `LoadProfile` takes the parse result as an `Option` of entries.
- `list_mappings` is not modelled; it returns a fixed empty placeholder.
- In the mapper, `curvals` is a local variable of the publisher thread; the model keeps it as a `Mapper` field.
- `src/xinput/hotas_reader.hpp` declares `SignalDescriptor` without the `device` field that `src/main.cpp` reads. The model therefore takes the descriptor list paired with devices as a parameter of the migration, the mode loading and the filter block.
- Mappings have no priority or deadband arbitration; when several map to one target, the last one wins.
- The group plot functions take the signals' snapshots as a parameter, rather than calling the poller again.
- `FilterSettings.GetReal` takes the number parser (`stof`/`stod`) as a parameter.
- FilterSettings.SaveLoadRoundTrip: the writer prints numbers with six significant digits (`std::ofstream` default precision). The model takes that printer as the `format` parameter, so the lemma restores only numbers whose printed text parses back to them; a value such as 0.1234567 comes back rounded and is not covered.
- `HotasReader.LatestHexIsLastUsable` and `HotasReader.Reader.PollOnce` take the live reports as any sequence of `(path, hex)` pairs. The source keeps them in a `std::map` keyed by device path (`src/xinput/hotas_reader.cpp:45`), so paths are unique and sorted there. That map is one case of the sequence, and "last" then means last in path order.
- The X56 throttle report is selected and decoded but never mapped by `poll_once`; the model keeps that empty branch.
