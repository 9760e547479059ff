# AGL CAN binder: a verified model of its signal server

The binder turns CAN frames into named vehicle properties, pushes changes of these properties to
subscribed clients, and packs property values that clients set into frames it transmits. This project
models that core and proves what it keeps over whole runs.

Three stateful parts work together:

- **Thinning.** Every received frame is decoded into every property of its CAN-ID. A *plain* property is
  pushed when its value is reported as changed or when `CYCLE` ms have passed; a *multi-property* (several
  bit fields under one name) is reset, decoded member by member, elects its last active member, and is
  pushed when the elected member or its value changed or the cycle has passed.
- **Two indexes.** Definitions of one CAN-ID are compacted in place: the first definition of a name stays in
  the record's slots and is indexed by its address, later ones are copied to a linked chain and squeezed
  out. The CAN-ID index and the name index have to agree afterwards, and no indexed slot may move.
- **Subscriptions and filter.** Clients subscribe to names; the kernel accept filter is recomputed from the
  subscribed CAN-IDs by `subscribe` only, and an event that no client listens to is dropped by the push.

Around them stand the bit-field codec (big-endian words, shift and mask, narrowing, conversion tables), the
transmit path (`set` and the send timer) and the loader of definition objects.

## How it is built

Operations that change state are class methods with loops and field assignments (`CanBit`, `CanidInfo`,
`Dictionary`, `EventRegistry`, `CanSocket`, `Service`). Each is proved against a value-level specification
(`Thinning.Step`, `Grouping.Group`, `Subscriptions.Next`, `Transmit.Apply`, `Dispatch.NotifyAll`). The theorems
over runs are lemmas about these specifications, and `Server.Logged` ties every reachable state of the
service to such runs.

| file | content |
|---|---|
| `Words.dfy`, `Codec.dfy` | 64-bit words as bit sequences; field extraction and insertion; packing law |
| `Values.dfy` | types, tables, stored value and UPDATED flag of one decoded signal |
| `Timing.dfy` | elapsed milliseconds between timestamps |
| `Thinning.dfy`, `Runs.dfy` | one frame on one property; theorems over runs of frames |
| `CanInfo.dfy` | the records and `update_iviproperty` in place |
| `Grouping.dfy`, `CanidSearch.dfy` | stable grouping; the compaction loop that computes it; index agreement |
| `Subscriptions.dfy`, `BindEvent.dfy` | the subscription machine; the event registry and socket that carry it out |
| `Dispatch.dfy` | from a received frame to its pushes |
| `Transmit.dfy` | runs of `set` and timer steps; sender and receiver together |
| `Binding.dfy` | the verbs, the frame and timer callbacks, end-to-end statements |
| `Zones.dfy`, `Loader.dfy` | zone suffixes; from definition objects to records |
| `Signals.dfy` | from the keys of a definition object and the bytes of a frame to what a client is told, and when |
| `Clients.dfy` | what clients have been told about a property, and that it is right |
| `Server.dfy` | the service from its start with a log of what happened to it; every verb keeps the log, and the theorems over runs are stated of every state the service can reach |
| `Examples.dfy` | services that show a name with two owners and one name too many |

Reading conventions: zeroed memory is value 0 for every type, and a string pointer is the table index plus
one. A layout is *valid* when `POS <= 8`, `OFFS <= 8`, `LEN <= 32`, the shift is below 64 and
`(8-POS)*8+OFFS+LEN <= 64`; the loader alone lets others through (`Loader.LayoutIsMeaningfulIff`).
A decision is `Error`, `Quiet` or `Push`. The answers of the outside world (the daemon's event creation and
subscription results, the number of clients a push reached, the outcome of the filter call) are parameters
that range over all values. Event dropping is on, as src/af-canivi-binding.c:47 defines it.

## What the code does that its own words do not say

Each item has the exact condition and an input that shows the failure.

- UPDATED does not always mean "changed": `Values.FlagIsExactIff`. Over-reporting breaks the rate bound
  (`Runs.PushRateIff`, a UINT8 at 0x80 in `Runs.UInt8OverReports`). Silent storing loses changes of plain
  properties (`Runs.NoLostChangeIff`, `Runs.Enable1LosesChange`).
- A multi-property can show a value that was never pushed although the latest frame activates it, when an
  ENABLE-1 table repeats its entry for raw 0: `Runs.StalenessIff`, `Runs.Enable1IsMisleading`.
- A name that another CAN-ID owns stays in the array and still notifies under that name:
  `Binding.Service.PushIsOwnIff`, `Examples.ConflictingNames`.
- The comment at src/socketcan_raw.c:67 says that nothing is received until something is subscribed. The
  filter installed there accepts CAN-ID 0x7FF: `Subscriptions.ClosedFilterPasses`, `Server.OnlyOneIdPasses`.
- SET-DATA placed before TYPE is lost: `Loader.KeyOrderIrrelevantIff`, `Loader.EarlyDataIsLost`.
- With more than 512 distinct subscribed CAN-IDs the recomputed filter misses some of them:
  `Subscriptions.RecomputedFilterCoversIff`, `Subscriptions.TooManyAreFiltered`.
- The 513th new name is indexed but not listed as supported, so that "*" misses it:
  `CanidSearch.Dictionary.SupportIsCompleteIff`, `Server.StarIsCompleteIff`, `Examples.StarMisses`.

## Model

| member | source | states |
|---|---|---|
| Codec.HostOfCan | src/canid_info.c:72-103 | Writing a 64-bit value to frame bytes and reading it back gives the value |
| Codec.CanOfHost | src/canid_info.c:72-103 | Reading frame bytes into a 64-bit value and writing it back gives the same eight bytes |
| Codec.LoadIsField | src/canid_info.c:294-306 | Shift-and-mask extraction is the number spelled by exactly the bits of the field; where they lie in the bytes is FieldPosition |
| Codec.SignalBit | src/canid_info.c:267-292 | After any writes to disjoint signals each bit of a signal is that bit of its last written value, or the initial bit |
| Codec.FieldOf | src/canid_info.c:294-306 | A field whose bits spell a number that fits it reads as that number |
| Codec.UnwrittenBit | src/canid_info.c:267-292 | Bits outside all written signals never change, whatever is written |
| Codec.PackingLaw | src/canid_info.c:267-301 | For any number of disjoint layouts and any sequence of writes, each signal reads back its last value modulo 2^LEN, or its initial value if it was never written |
| Codec.OrderIrrelevant | src/canid_info.c:267-292 | The resulting word depends only on the last write per signal, so writes to different signals commute |
| Codec.HostIsBigEndian | src/canid_info.c:72-86 | The high end of the 64-bit value is the number that the first bytes of the frame spell, most significant first |
| Codec.FieldPosition | src/canid_info.c:294-301 | For every layout inside the frame extraction reads the number spelled by the first POS bytes, divided by 2^OFFS, modulo 2^LEN |
| Codec.WriteReplaces | src/canid_info.c:267-292 | Writing v leaves the bytes from POS on, and in the number spelled by the first POS bytes the part below 2^OFFS and the part above the field; the field there is v modulo 2^LEN |
| Codec.ReplacedIsUnique | src/canid_info.c:267-292 | These four conditions determine the eight bytes |
| Values.NarrowHolds | src/canid_info.c:105-265 | What decoding stores is a value the cell of that type can hold |
| Values.NarrowIsModular | src/canid_info.c:105-265 | Narrowing keeps the value modulo the width, and two sources are stored alike exactly when they agree modulo the width |
| Values.DecodingIsMemoryless | src/canid_info.c:105-265 | If a supported type decodes without error, the result depends on raw value, type and table only, and decoding twice equals decoding once |
| Values.FlagIsExactIff | src/canid_info.c:165-248 | UPDATED means "value changed" for every previous value if and only if the raw value is neither over-reported (signed casts, BOOL table entries) nor silently stored (NOTSET, ENABLE-1 raw 0) |
| Values.NarrowConverts | src/canid_info.c:118-221 | What is stored is the one number in the range of the type that agrees with the source value modulo its width; for bool, whether it is not zero |
| Values.ConvertsOnce | src/canid_info.c:118-221 | There is at most one such number |
| Values.StoredIsTold | src/canid_info.c:105-265 | For every type and table the report after decoding is the one a client must be told: the number or table entry converted, signed for UINT and UINT32; true for a bool exactly when it is not zero; the text of the entry; a raw value is an error exactly when there is nothing to tell |
| Values.TellsOnce | src/can_json.c:531-577 | A raw value tells one thing |
| Values.CellIsReported | src/can_json.c:531-577 | A cell is reported as the number it holds, signed for UINT and UINT32, true exactly when not zero, the text it points to, or "null" |
| Values.UndecodedReport | src/can_json.c:549-556 | Before anything has been decoded a string reports "null", a bool false and a number 0 |
| Timing.ElapsIsClockDifference | src/can_signal_event.c:37-42 | For normalised timestamps the elapsed time is the difference of the floored millisecond clocks modulo 2^32 |
| Timing.ElapsWithinOneMs | src/can_signal_event.c:37-42 | Without wrap-around it is within one millisecond of the true elapsed time |
| Timing.ElapsTelescopes | src/can_signal_event.c:37-42 | Along any run of timestamps, even going back or wrapping, elapsed times add up to the elapsed time from first to last modulo 2^32 |
| Thinning.StepKeepsValid | src/can_signal_event.c:44-145 | One frame keeps a chain well-formed and its definitions, and reports an error exactly when some member fails to decode |
| Thinning.StepIsDeterministic | src/can_signal_event.c:57-139 | State, frame and timestamp determine the elected member, the new state and the decision |
| Thinning.ProgressIsMultiStep | src/can_signal_event.c:73-131 | The complete member loop plus the election tail meets the simple specification: every member holds the value of this frame alone, the last active member is elected, and a push is decided exactly for a new member, a new value or an elapsed cycle |
| Thinning.ProgressIsMultiError | src/can_signal_event.c:96-104 | A loop stopped by an error leaves the members before it decoded and the rest zero, with election and update time untouched |
| Thinning.FrameIsTold | src/can_signal_event.c:44-145 | After one frame a property of any length reports what the bytes of the frame at POS, OFFS and LEN of the member it shows have to say; the frame is an error exactly when the field of some member has nothing to say |
| CanInfo.StorePayload | src/canid_info.c:88-103 | The bytes written in place are the big-endian form of the value |
| CanInfo.CanBit.UpdatePropertyValue | src/canid_info.c:105-265 | Error, stored value and UPDATED flag of every type and table, with the source's comparisons, in place; an error exactly when there is nothing to tell of the raw value, and otherwise the cell reports it |
| CanInfo.CanBit.UpdateInteger | src/canid_info.c:120-221 | The numeric and bool cases store the narrowed value and report a change exactly for a different value or a named over-report |
| CanInfo.CanBit.CanFrame2Property | src/canid_info.c:294-306 | Decoding a word stores the field's value, or fails and changes nothing; told from the bytes of any frame that carries the word, the cell then reports the number at POS, OFFS and LEN |
| CanInfo.CanBit.Property2CanFrame | src/canid_info.c:267-292 | A successful write stores the value, which the cell then reports, and replaces exactly this signal's field at POS, OFFS and LEN of the frame bytes; a failed one, of a value with nothing to tell, changes neither |
| CanInfo.CanBit.ResetMembers | src/can_signal_event.c:57-70 | Every member of the chain is zeroed, and the chain stays well-formed |
| CanInfo.CanBit.CountUpdate | src/can_signal_event.c:77-95 | Counter and time stamp of one decoded member: a plain property is stamped on a change or an elapsed cycle, a member never |
| CanInfo.CanBit.DecodeMembers | src/can_signal_event.c:72-105 | The loop over the chain decodes members in order up to the first error and remembers the last active one |
| CanInfo.CanBit.ElectMember | src/can_signal_event.c:107-131 | A push is decided exactly when the cycle elapsed, the elected member changed, or its value differs from the saved one; time stamps follow |
| CanInfo.CanBit.UpdateIviProperty | src/can_signal_event.c:44-145 | For a chain of any length the in-place update is one step of the specification |
| Runs.StepExists | src/can_signal_event.c:44-145 | Every chain has an outcome for every frame |
| Runs.RunExists | src/can_signal_event.c:147-159 | Every sequence of frames has a run |
| Runs.ReportTellsLatest | src/can_signal_event.c:72-105 | After every run a plain property reports what the bytes of the latest frame that decoded have to say, or its first report |
| Runs.UpdateTimeIsLastPush | src/can_signal_event.c:72-131 | After any run, errors included, the head's update time is the timestamp of the latest push decision |
| Runs.Freshness | src/can_signal_event.c:72-131 | After an error-free frame less than CYCLE ms have passed since the latest push decision, and with CYCLE 0 the frame itself decided a push |
| Runs.NoLostChange | src/can_signal_event.c:72-105 | After every run, in-run errors allowed, a plain property has the value of its latest push decision, or its first value |
| Runs.NumbersAreNeverSilent | src/canid_info.c:105-221 | Numeric and bool types meet the condition of NoLostChange |
| Runs.NoLostChangeIff | src/canid_info.c:223-248 | A plain property never loses a change, over all runs since it was loaded, if and only if CYCLE is 0, or no frame gives it a silently stored value, or every frame that decodes gives it zero |
| Runs.SilentValueIsLost | src/canid_info.c:223-248 | A silently stored value other than zero is lost by the first frame of a run |
| Runs.SilentZeroIsLost | src/canid_info.c:223-248 | A silently stored zero is lost after a reported value |
| Runs.Enable1LosesChange | src/canid_info.c:240-248 | Concrete case: an ENABLE-1 property goes from 9 to 7 on raw 0 without being reported, so it loses changes for every CYCLE above 0 |
| Runs.ActiveIsPushed | src/can_signal_event.c:57-131 | Over error-free runs of a multi-property without clash, what would be reported after an active frame has been pushed |
| Runs.InactiveIsSilent | src/can_signal_event.c:57-131 | After a frame without active member every value is zero or was stored silently by this frame |
| Runs.Staleness | src/can_signal_event.c:107-131 | Without clash, once something has been pushed, a report that differs from it means that no member was active in the latest frame and less than CYCLE ms have passed since the push decision |
| Runs.StalenessIff | src/can_signal_event.c:107-131 | This holds of a multi-property, over all error-free runs since it was loaded, if and only if CYCLE is 0 or there is no clash: no three frames of which one silently gives a member the value that another elects it with, while the third makes it report something else |
| Runs.OnlyEnable1Clashes | src/canid_info.c:240-248 | A clash needs an ENABLE-1 member whose table repeats its non-zero entry 0; integers, bools and strings, NOTSET included, never clash |
| Runs.ClashMisleads | src/can_signal_event.c:107-131 | For every clash there is a run since loading in which an active frame shows a value that was never pushed |
| Runs.Enable1IsMisleading | src/can_signal_event.c:107-131 | Concrete case: with the table 9, 7, 9, 7 and raw values 1, 0, 2 the value 7 is pushed and 9 is shown by an active frame without a push |
| Runs.PushesSpacedOut | src/can_signal_event.c:72-131 | Push decisions without a change of member or value are at least CYCLE ms apart, also from the decision before them |
| Runs.PushRate | src/can_signal_event.c:37-131 | In a run spanning T ms at most 1 + T/CYCLE push decisions are not caused by a change |
| Runs.SpuriousAlwaysPushes | src/canid_info.c:165-221 | An over-reported value is pushed by every frame that carries it, whatever the cycle |
| Runs.PushRateIff | src/canid_info.c:165-221 | A plain property keeps the rate bound over all timed runs since it was loaded if and only if no frame gives it an over-reported value |
| Runs.SpuriousExceedsBound | src/canid_info.c:165-221 | For every over-reported value there is a run since loading that exceeds the bound |
| Runs.UInt8OverReports | src/canid_info.c:165-170 | Concrete case: a plain UINT8 byte at 0x80 is over-reported and breaks the bound for every CYCLE |
| Grouping.GroupIsStable | src/canid_search.c:41-140 | The groups are the stable grouping by name: heads are the definitions minus repeats of names this CAN-ID owns, in order, and each owned group holds all definitions of its name in order |
| Grouping.GroupsAddUp | src/canid_search.c:113-125 | The group sizes add up to the number of definitions |
| Grouping.GroupHasSameNames | src/canid_search.c:61-87 | A chain holds one name only |
| Grouping.GroupNames | src/canid_search.c:41-60 | A name has a group exactly when it is among the definitions |
| Grouping.ExtendKeepsLists | src/canid_search.c:45-58 | Appending each new name at its first occurrence, until the list is full, keeps the list free of repeats and complete until then |
| Grouping.ListsAllIff | src/canid_search.c:52-55 | The list holds every known name if and only if they are at most 512 |
| CanidSearch.LastMember | src/canid_search.c:77-85 | Walking the chain ends at its last member |
| CanidSearch.AppendCopy | src/canid_search.c:71-87 | A copy of the definition is linked behind the last member, and earlier members stay in place |
| CanidSearch.SqueezeOut | src/canid_search.c:118-123 | Moving the tail one slot down drops exactly one definition |
| CanidSearch.SqueezeBehind | src/canid_search.c:118-123 | Moving the tail leaves every indexed slot and chain untouched |
| CanidSearch.Dictionary.AddProperty | src/canid_search.c:41-88 | A new name is indexed by address (and listed while there is room), a name of another CAN-ID is refused, a repeated name extends its chain |
| CanidSearch.Dictionary.AddSlot | src/canid_search.c:113-125 | One round of the loop is one step of the grouping, and maxEntry - i goes down |
| CanidSearch.Dictionary.Compact | src/canid_search.c:113-125 | The whole loop turns the definitions into their grouping, indexes the new names and lists them in order while there is room |
| CanidSearch.Dictionary.AddCanid | src/canid_search.c:97-140 | The compacted slots and chains are the grouping of the definitions, the index gains exactly the new names, a known CAN-ID is refused without effect, and the two indexes still agree |
| CanidSearch.Dictionary.SupportIsCompleteIff | src/canid_search.c:52-58 | The list of supported properties holds every indexed name if and only if they are at most 512 |
| CanidSearch.Dictionary.StaysValid | src/canid_search.c:142-166 | Untouched dictionaries stay in agreement whatever happens elsewhere |
| CanidSearch.Dictionary.AddKeepsValid | src/canid_search.c:41-140 | Adding a record keeps the agreement: every name is found at a live slot of its record, which is what its CAN-ID leads to |
| CanidSearch.Dictionary.SlotOf | src/canid_search.c:142-166 | A property found by name is a live slot of its record, and that record is what lookup by its CAN-ID returns |
| CanidSearch.Dictionary.SlotIsIndexedIff | src/canid_search.c:63-70 | A live slot is the one its name leads to if and only if its CAN-ID owns the name |
| CanidSearch.Dictionary.RecordsApart | src/canid_search.c:41-140 | Different CAN-IDs share no member and no frame buffer |
| CanidSearch.Dictionary.ReadyRecord | src/canid_search.c:142-153 | The record that a CAN-ID leads to carries this CAN-ID, and each of its live slots heads a well-formed chain of its own members |
| CanidSearch.Dictionary.ValuesKeepValid | src/can_signal_event.c:178-194 | Decoding into one record and overwriting its frame keeps the indexes in agreement |
| Subscriptions.MaskedStandard | src/can_signal_event.c:163 | The standard mask keeps the identifier modulo 0x800 |
| Subscriptions.EventsAreIndexed | src/bind_event.c:112-149 | In every reachable state each event stands for an indexed name and its CAN-ID |
| Subscriptions.OwnersAreStable | src/canid_search.c:41-70 | An index entry never changes and never goes away |
| Subscriptions.FirstDefinerOwns | src/canid_search.c:41-70 | A name is indexed exactly when some accepted definition mentioned it, and it belongs to the CAN-ID of the first one that did; accepted and first are read off the commands |
| Subscriptions.IdsAreDefined | src/canid_search.c:97-111 | The known CAN-IDs are those of the definitions so far, and a definition is refused exactly when an earlier one had its CAN-ID |
| Subscriptions.ClosedFilterPasses | src/socketcan_raw.c:44-68 | The filter installed when the socket is opened accepts exactly the frames with CAN-ID 0x7FF |
| Subscriptions.NothingSubscribed | src/socketcan_raw.c:44-68 | In every reachable state before the first subscription there is no event and this filter is still in place |
| Subscriptions.CollectedAll | src/bind_event.c:67-90 | A complete walk, in any order, lists each subscribed CAN-ID once, up to 512 |
| Subscriptions.FilterIsExact | src/socketcan_raw.c:99-114 | The filter for a list of standard identifiers accepts exactly the frames with one of them |
| Subscriptions.RecomputedFilterCoversIff | src/socketcan_raw.c:99-114 | A recomputed filter covers every event if and only if the distinct CAN-IDs number at most 512 |
| Subscriptions.TooManyAreFiltered | src/bind_event.c:75-78 | For every number of CAN-IDs above 512 a state is reachable, all filter calls successful, in which a registered event is filtered out |
| Subscriptions.InstalledCovers | src/af-canivi-binding.c:285-312 | A subscribe call that installed its filter, with at most 512 CAN-IDs, makes the filter cover every registered event, whatever happened before |
| Subscriptions.FilterCoversEvents | src/af-canivi-binding.c:285-312 | In every reachable state the filter accepts every CAN-ID of a registered event, provided the latest subscribe call, if there was one, installed its filter with at most 512 CAN-IDs; earlier failures do not matter |
| Subscriptions.SupportIsListed | src/canid_search.c:52-58 | In every reachable state the list of supported properties holds every indexed name once, and all of them until it is full |
| Subscriptions.StarRegistersAllIff | src/af-canivi-binding.c:273-283 | With no event yet and a daemon that makes every event, "*" registers every indexed name if and only if they are at most 512 |
| Subscriptions.StarMissesOne | src/canid_search.c:52-55 | For every number of names above 512 a state is reachable in which "*" misses one |
| BindEvent.EventRegistry.AddSubscribedCanid | src/bind_event.c:67-81 | A CAN-ID enters the array once, and not beyond its capacity |
| BindEvent.EventRegistry.GetSubscribedCanids | src/bind_event.c:83-90 | The array lists the CAN-IDs of the registered events without repeats; all of them if they are at most 512 |
| BindEvent.EventRegistry.RegisterEvent | src/bind_event.c:112-149 | An event is made exactly for an indexed name the daemon accepts, and refers to what name lookup returns |
| BindEvent.EventRegistry.RemoveEvent | src/bind_event.c:151-167 | Exactly the named event goes |
| BindEvent.CanSocket.UpdateFilter | src/socketcan_raw.c:99-114 | The accept set becomes the list, and stays as it is for an empty list or a failed call |
| Dispatch.Property2Json | src/can_json.c:520-577 | Following applyinfo ends at the elected member and reports what its cell holds: the number, signed for UINT and UINT32, true exactly when not zero, the text, or "null" |
| Dispatch.NotifyPropertyChanged | src/af-canivi-binding.c:60-91 | A registered name gets one push with the reported value, and the event goes exactly when no client received it |
| Dispatch.PushesWithoutConflict | src/af-canivi-binding.c:60-91 | With different names, one frame pushes in slot order exactly the registered slots that decided a push, and drops exactly the events nobody listens to |
| Dispatch.OwnNamePushes | src/af-canivi-binding.c:60-91 | Of a name that one slot of the record carries, a frame pushes exactly what that slot decided, with its value, if the name is registered; the event goes exactly when nobody listens; other names' conflicts do not matter |
| Dispatch.OtherNameIsQuiet | src/af-canivi-binding.c:60-68 | A name that no slot of the record carries is not pushed and keeps its event |
| Dispatch.PushHasSlot | src/can_signal_event.c:133-139 | Every push has a slot that decided it, under that slot's name and with its value |
| Dispatch.NotifyAllOnlyDrops | src/af-canivi-binding.c:69-75 | Notifications never add or redirect an event |
| Dispatch.UpdateSlot | src/can_signal_event.c:147-159 | One slot takes one step, and no other slot's chain changes |
| Dispatch.ParseCandata | src/can_signal_event.c:147-159 | Every live slot takes exactly one step on the frame, and notifications follow in slot order |
| Dispatch.ParseFrame | src/can_signal_event.c:161-199 | A too long or unknown frame changes nothing; any other is stored, and decoded unless its CAN-ID is for sending only |
| Transmit.FrameIsPacked | src/can_signal_event.c:202-213 | After any run the stored frame is the empty frame with the successful sets packed into it, identifier and DLC unchanged |
| Transmit.EveryTransmissionIsSnapshot | src/can_signal_event.c:202-268 | Every transmitted frame, from set or timer, with other CAN-IDs' traffic in between, is one snapshot: latest set value modulo 2^LEN per signal, zero if never set, unassigned bits zero; a failed set sends nothing |
| Transmit.TruncationInvisibleIff | src/canid_info.c:285-303 | Truncation to the field cannot be seen after narrowing if and only if the narrowed bits fit the field |
| Transmit.ReceivedIsTruncated | src/canid_info.c:267-306 | A receiver with the same layout extracts the value modulo 2^LEN, whatever else the frame held |
| Transmit.RoundTrip | src/canid_info.c:267-349 | Integer types without table: both store a conversion of what they got, and agree, whatever they held, if and only if the kept bits fit the field; for v < 2^LEN both report the one number in the range of the type congruent to v |
| Transmit.RoundTripBool | src/canid_info.c:267-349 | Bool: both agree unless a non-zero value vanishes in the field; for v < 2^LEN both report whether v is not zero |
| Transmit.ReceiverShowsLastSet | src/can_signal_event.c:161-213 | After any run of sets and timer ticks a receiver decodes for each signal the value set last, if it fits the field, holds what the sender holds, and reports it |
| Transmit.ValueIsLastSet | src/can_signal_event.c:202-213 | Over every run of set, timer and other steps each signal's own value is the one last set successfully, as decoded, or its start value if it was never set |
| Transmit.OwnReportTellsLastSet | src/can_signal_event.c:202-213 | So each signal's own cell reports the value set last |
| Binding.Service.StartsAtStart | src/socketcan_raw.c:44-68 | Empty indexes and the initial filter are the start of the subscription machine |
| Binding.Service.SubscribeSignal | src/af-canivi-binding.c:249-271 | Existing events stay, an event is made for an indexed name the daemon accepts, and the error count says whether all went well |
| Binding.Service.SubscribeAll | src/af-canivi-binding.c:273-283 | Asking for every supported property in turn registers the same events as asking for all at once |
| Binding.Service.SubscribeOne | src/af-canivi-binding.c:249-271 | One name: the reply gains exactly the value it reports now, and only if it is registered and subscribed |
| Binding.Service.Subscribe | src/af-canivi-binding.c:285-312 | The verb is one step of the machine: register, then recompute the filter whatever the outcome; the client gets the current values of all names asked for, and only if everything went well |
| Binding.Service.UpdateFilter | src/af-canivi-binding.c:302-303 | The filter is set to the listed CAN-IDs of the current events |
| Binding.Service.UnsubscribeAll | src/af-canivi-binding.c:333-343 | Nothing changes but the client's own subscriptions; the error count is zero exactly when every supported name had an event and was unsubscribed |
| Binding.Service.Receive | src/can_signal_event.c:161-199 | A frame is handled as ParseFrame says, is a drop step of the machine, and leaves every other CAN-ID's signals and stored frame alone |
| Binding.Service.CanSignalSend | src/can_signal_event.c:202-213 | Setting a slot is one step of the transmitter and touches no other member; a value with a meaning is stored, put at its place in the frame and sent, and the property's own cell reports it |
| Binding.Service.Set | src/af-canivi-binding.c:178-207 | Exactly the known names are accepted, of either kind; the value goes to the slot the name leads to, whose own cell reports it afterwards (and so does the property unless it shows another member); other CAN-IDs see only the traffic |
| Binding.Service.OnTimerEvent | src/can_signal_event.c:257-268 | The stored frame is transmitted, and nothing else happens |
| Binding.Service.DefineCanid | src/canid_search.c:97-140 | Adding a record in a running service is a define step of the machine and leaves events and filter alone |
| Binding.Service.PushIsOwnIff | src/canid_search.c:63-70 | The push that a slot causes reports the property its event stands for if and only if the name belongs to the slot's CAN-ID |
| Binding.Service.FramePushes | src/can_signal_event.c:147-199 | If the frame's CAN-ID owns all its names, the frame pushes exactly what its registered slots decided, each push with its own event's value, and drops exactly the unheard events |
| Binding.Service.OwnedNamePushes | src/can_signal_event.c:147-199 | Whatever conflicts there are: a name that the frame's CAN-ID owns is pushed exactly when its slot decided so and it is registered, with its event's value, and the event goes exactly when nobody listens |
| Binding.Service.NameTellsFrame | src/can_signal_event.c:147-199 | A name that the frame's CAN-ID owns reports after the frame what the bytes at its field have to say, and decides an error exactly when one of its fields has nothing to say |
| Binding.Service.EventIsReached | src/can_signal_event.c:161-199 | A frame whose CAN-ID owns a registered event leads to that event's record, and meets the event's property in exactly one slot, whatever conflicts there are |
| Zones.CollectZones | src/can_json.c:45-99 | The flags stand for the set of zones recognised after the last "Zone::None" |
| Zones.GetZoneName | src/can_json.c:45-130 | The suffix is the zone words that are named and not revoked by a later "Zone::None", capitalised, in the fixed order, and NULL when there are none |
| Zones.SuffixIsSpelled | src/can_json.c:45-130 | The same of every zone list, against the list of the twelve words |
| Zones.SingleZone | src/can_json.c:59-128 | Every zone word that is recognised, alone in a list, gives itself with small letters after the first |
| Zones.AllZones | src/can_json.c:104-128 | All twelve zones in any order give the one full suffix in the source's order |
| Zones.SuffixIsCanonical | src/can_json.c:45-130 | Two zone lists of any length give the same suffix or NULL if and only if they select the same zones, regardless of order and repetition |
| Zones.SuffixFits | src/can_json.c:50-130 | A suffix is not empty and fits the static buffer |
| Zones.FullNameIsInjective | src/can_json.c:296-305 | Property names without '@' collide if and only if name and selected zones agree |
| Loader.CreateConvertTables | src/can_json.c:132-205 | A table is made exactly for a non-empty array whose entries all have the JSON type the property type asks for |
| Loader.AddPropertyMember | src/can_json.c:207-315 | The slot gets the definition its object means: each key on its own, out-of-range numbers as 0, the table from SET-DATA after TYPE |
| Loader.MeansIsUnique | src/can_json.c:219-294 | The meaning of an object determines layout, type and name whatever the order of its keys |
| Loader.KeyOrderIrrelevantIff | src/can_json.c:278-290 | Two orders of the same keys give the same definition if and only if TYPE stands before SET-DATA in both or neither, or the table is unusable, or the block is for sending |
| Loader.MeansAll | src/can_json.c:219-294 | Every object has a meaning |
| Loader.EarlyDataIsLost | src/can_json.c:278-290 | Concrete case: the same four keys give a table when TYPE comes first and none when SET-DATA does |
| Loader.LoadedIsWellTyped | src/can_json.c:139-164 | Every definition's table has the entry type its decoder reads; send definitions have none; the layout numbers are in range |
| Loader.LayoutIsMeaningfulIff | src/can_json.c:221-241 | Which loaded layouts lie inside the frame: POS between 1 and 8, and OFFS and OFFS+LEN within the bytes POS counts |
| Loader.AddPropertyMapping | src/can_json.c:317-334 | All slots are filled in order with the definitions of the array |
| Loader.ParseCaninfo | src/can_json.c:343-437 | A new CAN-ID with a DATA array is registered with the grouping of its definitions, its new names indexed, and an empty 8-byte frame under the unmasked identifier, as one define step of the machine; anything else leaves indexes, list, events and filter as they were; other CAN-IDs are untouched |
| Loader.KeptIsSound | src/can_json.c:343-433 | If no definitions overlap, the live signals do not |
| Loader.LoadedTransmits | src/can_json.c:360-364 | A freshly loaded CAN-ID whose live signals do not overlap is a start state for the transmission theorems, whatever its squeezed-out repeats do |
| Signals.LoadedLayout | src/can_json.c:221-241 | POS, OFFS and LEN are read through an unsigned char and are 0 above 8, 8 and 32 |
| Signals.LoadedName | src/can_json.c:296-305 | A property with a zone list is named NAME@ZONES after the words that stay, and NAME if none does |
| Signals.ListedNumberIsTold | src/canid_info.c:111-221 | From the keys of an object and the bytes of a frame: with SET-DATA s the number x at POS, OFFS and LEN is an error exactly when x >= the length of s; otherwise the property holds s[x] converted to TYPE and reports it |
| Signals.PlainNumberIsTold | src/canid_info.c:118-221 | Without SET-DATA that counts (missing, before TYPE, in a block for sending, or of a type that has no list) the property holds and reports x itself, converted to TYPE, and no frame is an error |
| Signals.ListedTextIsTold | src/canid_info.c:223-239 | A string reports text s[x], and x is an error exactly when x >= the length of s |
| Signals.ListedNumberIsPushed | src/canid_info.c:111-253 | Within the cycle such a number is pushed exactly when its value changed or the source's comparison takes it for a change, and entry 0 of ENABLE-1 is not |
| Signals.PlainNumberIsPushed | src/canid_info.c:118-221 | Within the cycle a number without list is pushed exactly when its value changed, or is a UINT8 of 0x80 or more |
| Signals.ListedTextIsPushed | src/canid_info.c:223-239 | Within the cycle a text is pushed exactly when another entry is chosen than before and it does not read "NOTSET" |
| Signals.EveryObjectHears | src/can_json.c:207-315 | Every object whose field lies inside the frame describes such a property, zeroed, and each frame has an outcome for it |
| Signals.TwentyIsTold | src/canid_info.c:165-176 | Concrete case: UINT8 with SET-DATA 10, 20, 30, 40 reports 20 after a frame whose field holds 1 |
| Signals.CycleDecides | src/can_json.c:365-395 | Without thinning or CYCLE every frame is pushed; with CYCLE a change is, and anything else exactly when that many milliseconds have passed, 2^32 - 1 of them for CYCLE 0 |
| Signals.CycleZeroPushesChanges | src/can_json.c:380-391 | With CYCLE 0 a run pushes exactly its changes as long as each frame comes less than 2^32 - 1 ms after the latest push |
| Transmit.TransmittedIsSnapshot | src/can_signal_event.c:202-268 | Among all frames that have passed the socket, each one a CAN-ID transmitted is a snapshot of its sets before it |
| Server.Start | src/af-canivi-binding.c:441-454 | The service starts with empty indexes, no events and the opening filter, at the start of the machine |
| Server.Load | src/can_json.c:343-437 | Loading a CAN-ID in any reachable state gives a reachable state, with a new transmitter that starts as the transmission theorems ask if its live signals do not overlap, and new properties that start zeroed; nothing that clients know changes |
| Server.Subscribe | src/af-canivi-binding.c:285-312 | Subscribing keeps the log: one more step of the machine, every transmitter and property as before, and clients know what the reply of a successful call says |
| Server.Receive | src/can_signal_event.c:161-199 | A frame keeps the log: a drop step of the machine, for each property of its CAN-ID exactly one more frame of its run, and clients know the last value pushed under each name whose event is left; it ends the transmitter whose stored frame it replaced |
| Server.Set | src/af-canivi-binding.c:178-207 | Setting keeps the log: one more step of the transmitter, at most one frame of traffic for the others; it ends the run of the property that was set and what clients know of it, and of no other; the property's own cell reports the value |
| Server.Timer | src/can_signal_event.c:257-268 | A timer tick keeps the log: one more step of its transmitter, one frame of traffic for the others |
| Server.FilterCovers | src/af-canivi-binding.c:285-312 | In every reachable state of the service the filter covers all registered events, provided the latest subscribe call installed its filter with at most 512 CAN-IDs |
| Server.OnlyOneIdPasses | src/socketcan_raw.c:44-68 | In every reachable state before a subscription there is no event, and exactly CAN-ID 0x7FF passes |
| Server.FrameReachesEvent | src/can_signal_event.c:161-199 | In every such state, name conflicts or not, a frame whose CAN-ID owns a registered event passes the filter, leads to that event's record, and meets the event's property in exactly one slot |
| Server.FramesAreSnapshots | src/can_signal_event.c:202-268 | In every reachable state each frame that a CAN-ID transmitted since it was loaded is a snapshot of the sets before it, and its stored frame is one of all its sets |
| Server.SignalTellsLastSet | src/can_signal_event.c:202-213 | In every reachable state each signal of a transmitter reports the value set last since it was loaded, or holds the value it was loaded with |
| Server.LifeOf | src/can_signal_event.c:147-159 | In every reachable state a property that was not set is at the end of a run of the frames received on its CAN-ID since it was loaded |
| Server.PropertyIsFresh | src/can_signal_event.c:72-131 | Freshness of such a property object |
| Server.PropertyShowsLastPush | src/can_signal_event.c:72-105 | Such a plain property object has the value of its latest push decision, or zero |
| Server.PropertyTellsLatestFrame | src/can_signal_event.c:72-105 | Such a plain property object reports what the bytes of the latest frame that decoded have to say, or the report of an undecoded property |
| Server.PropertyIsStaleOnlyWhenInactive | src/can_signal_event.c:107-131 | Staleness of such a multi-property object |
| Server.ToldIsCurrent | src/af-canivi-binding.c:60-91 | In every reachable state what clients were told last about a registered event, by reply or push, and with no set of it since, is what its property reports now, if the property is plain, never changes silently and shares its name with no other slot |
| Server.StarIsCompleteIff | src/af-canivi-binding.c:273-283 | In a service without events "*" registers every indexed name if and only if they are at most 512 |
| Clients.OwnedNameTells | src/can_signal_event.c:133-139 | After a frame a name of its CAN-ID is known with its current value: the pushed one, or the one known before if nothing was pushed |
| Clients.KnowsFrame | src/can_signal_event.c:147-199 | After any frame, accepted or not, clients know the right value of every event that is left |
| Clients.KnowsSet | src/af-canivi-binding.c:178-207 | After a set clients know the right value of every other event |
| Clients.KnowsReply | src/af-canivi-binding.c:268-270 | What a reply to a subscription says is right |
| Examples.SubscribedSpeed | src/canid_search.c:63-70 | A service is reachable in which two CAN-IDs define one name and a client has subscribed to it |
| Examples.ConflictingNames | src/canid_search.c:63-70 | In that service a frame with 64 on the second CAN-ID pushes 64 under the name of an event that stands for the first CAN-ID's property, which reports 0 |
| Examples.LoadMany | src/canid_search.c:41-60 | For every number of names up to 2048 a service with that many indexed names is reachable |
| Examples.StarMisses | src/af-canivi-binding.c:273-283 | With more than 512 names a service is reachable in which "*" leaves an indexed name without event |

## Left out

- Foreign calls: sockets, `recvmsg`, `setsockopt`, timerfd, the sd-event loop and the afb daemon are parameters or recorded traces; `can_signal_read` reading up to six frames per wake-up is not modelled.
- Memory: allocation failures, `destroy_dict` and freeing; logging and the `OWN_TEST` code.
- Locks: each frame, `set` and timer callback is one atomic step; the timer callback does not take the lock in the source and is placed between steps.
- json-c: definition objects start as parsed keys; `vartype2string`/`string2vartype`, MODE and DLC parsing, block nesting and hexadecimal CAN-ID parsing are not modelled, nor the 256-byte buffer for a name with its zone.
- The trees of `tsearch`/`twalk` are finite maps; a walk visits the events in any order.
- Slots beyond the defined ones: the source allocates at least 16 per record and leaves squeezed-out slots behind as dust; the model has one slot per definition.
- `ARRAY_T`, `INT64_T` and `UINT64_T` values: the decoder stores nothing for them and reports "not updated" (src/canid_info.c:256-262), so that only the cycle pushes such a property; the model does the same and knows no values of these types.
- The host is little-endian, so that the members of the value union alias as one integer cell.
- A property named "*" is excluded, because `subscribe_all` would call itself forever.
- Validity of an afb event handle is taken as given; frames without kernel timestamp are not modelled.
- The verbs `get` and `list`, and the argument forms of `unsubscribe`, only read or repeat what is modelled.
- Loader.ParseCaninfo: asks for layouts inside the frame and names other than "*" (`Loader.Usable`), because the C shifts have no defined result otherwise.
- Loader.ParseCaninfo's send timer for transmission blocks is left out.
- Subscriptions.FilterCoversEvents: only one direction, because after a failed latest call an older filter may happen to cover an event; the exact condition is proved for each recomputation.
- Loader.AddPropertyMember: a ZONE value that is neither null nor an array is not modelled, because src/can_json.c:53-54 hands the missing list on to `array_list_length`.
- Server.Receive: the log of a transmitter ends when a frame with its identifier arrives, and Server.Set ends the log of the property it sets, because the stored frame and the value then no longer come from the logged steps.
- Server.ToldIsCurrent: does not follow a client that was not subscribed when an event was pushed; "told" is what was sent for the event, to whichever clients it had.
