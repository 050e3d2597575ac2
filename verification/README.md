# Heat-pump wire stack: a verified model

The gateway talks to a Stiebel Eltron / Tecalor heat pump over a byte line:
frames are checksummed and escaped, requested in a small handshake, decoded into
channels, and written back by reading a frame, composing a value into it and
setting it. A simulated heat pump speaks the device side. This project models
that stack from the byte codec up to the locked service and proves that the
layers compose.

| file | models |
|---|---|
| `Bytes.dfy`, `Models.dfy` | bytes, errors; channel definitions and values |
| `Escaping.dfy`, `Framing.dfy`, `Checksums.dfy` | byte stuffing, frame ends, checksums and request messages |
| `Bits.dfy`, `Scaling.dfy`, `Records.dfy`, `Composition.dfy`, `Readings.dfy`, `Meanings.dfy` | bit access, rounding, one record, many records in one frame, all records of a response, and what the bytes of a frame mean place by place |
| `Config.dfy` | grouping channels into requests, and the lookups |
| `Devices.dfy`, `Sessions.dfy`, `Plants.dfy`, `Simulator.dfy` | the device as a transition function, what it does on any stream of bytes, the registers a configuration gives rise to, and the simulator class |
| `Conversation.dfy`, `Rounds.dfy`, `Outcomes.dfy`, `Transports.dfy`, `Connectors.dfy`, `Exchange.dfy` | the client of one conversation as a state machine (one transport call a step), when its data-available signal is fresh, every way a conversation can go, the transport and connector classes proved against it, and client and device together |
| `Jobs.dfy`, `Provenance.dfy`, `Writes.dfy`, `Communication.dfy`, `Refinement.dfy`, `Zones.dfy`, `Ranges.dfy` | reads with retries and read-modify-write as a machine over conversations, where the values of a read come from, what a write does on every line, the class proved against the machine, its refinement to a map of registers, the bits a write leaves alone, and the limits of a channel |
| `Clock.dfy`, `Times.dfy` | setting the clock register by register or in one frame, and what the frame then holds and reports |
| `Locking.dfy`, `Fairness.dfy`, `Writers.dfy` | threads behind one lock, each with a list of jobs, interleaved at every transport call; that fair schedules end; that writers do not undo each other |
| `Batches.dfy`, `Calls.dfy`, `Replies.dfy`, `Rows.dfy`, `Callers.dfy`, `Service.dfy` | several channels at once, the calls of the service on the wire and on the map, what the caller is told on every line, jobs in a row, concurrent callers, and the service class |
| `Seeding.dfy`, `Fresh.dfy` | seeding the simulator, and what a simulator that has just started answers |
| `Parameters.dfy` | the shipped commands of which one begins the others |
| `Examples.dfy`, `Vectors.dfy` | configurations the theorems apply to, and the byte vectors of the repository's tests |

## How the model is built

* A byte is an `int` from 0 to 255; Python ints are unbounded, and `& 0xFF`,
  `>> 8` and the signed unpackings are written out with `%` and `/`.
* Floats are reals. `RoundingAbsorbs` says how large a floating point error in
  `value / scale` the rounding absorbs.
* The source's imperative parts are methods and classes. Each is proved against a
  function of its inputs or of the old state, and the properties are proved about
  that function. `Conversation.Step` is the client between two transport calls;
  `Run` iterates it, `Converse` is a whole `get_data` or `set_data`, `Perform` a
  whole `read_request` or `_write_values`, `PerformTask` a row of these up to the
  first failure (what a caller does under the lock), `Serve` a whole service call.
* `Line` is the transport: the arrivals still to come, each a byte or a timeout,
  and the simulated device, if there is one, that adds to them. It also keeps what
  was sent. A line without a device stands for any peer and any timing, so a
  statement about every `Line` is a statement about every byte stream.
* What a function computes is also stated without it. `Outcomes`, `Sessions`,
  `Meanings`, `Writes`, `Ranges`, `Times`, `Replies`, `Rows` and `Fresh` give the
  results of the layers in bytes, limits and replies, on every line where that is
  possible.
* The simulator class takes a policy saying which set frames the device refuses,
  with one of the four known error codes. The simulator of the repository is the
  policy that refuses none; the others stand for a real device.
* `Plant` is the plain map from command to frame. `Quiet(line, p)` says that the
  device is idle, holds the registers `p`, and that nothing is on the way.

## Where the plain claim is false

These came out as exact conditions, if-and-only-ifs with both halves proved.

* Escaping is undone on the frames of `Framing.RoundTrips` and on no other input:
  the header is copied verbatim, so a header that reads as an escape pair, or ends
  in 0x2B before a checksum of 0x18, is mangled.
* A request message looks like a valid response when its stuffing weighs a multiple
  of 256 (`RequestLooksLikeResponse`). A valid response that carries data is never
  taken for "already set" by `_write_values` exactly when that weight is zero or no
  such multiple (`ShortcutExact`); for every other command whose request fits the
  buffer there is a line on which a write returns with nothing set
  (`SwallowedOnTheWire`), an eleven-byte one among them (`AnUnsafeCommand`). No register of a command can be taken for its request exactly unless the
  command ends in a multiple of sixteen 0x10 bytes with nothing else stuffed
  (`RegisterExact`); for each of those there is a plant that swallows every write
  (`UnsafeSwallows`). Commands of up to nine bytes are safe on the wire, of up to
  fifteen on a plant; the shipped ones have at most three.
* A SET frame reaches the register of a command it carries exactly when it carries no
  longer command that begins with it (`FrameDispatchExact`), and so for all data
  exactly when there is no such command (`DispatchExact`). `0A` and `0A0122` to
  `0A0126` of `device_configs/LWZ_THZ303_4_19.xml` are such commands. A write to `0A`
  reaches its register exactly when its composed frame does not carry 01 22 to 01 26
  behind the command (`DeliversExactly`). On a fresh simulator no sequence of service
  calls composes such a frame (`FreshRunsRefine`): byte 5 is the high byte of p55, the
  service accepts at most 288 for it, and it starts as 0. Seeds are not checked,
  though: with p54 seeded as 1 and p55 as 0x2200, every value that p56 accepts and can
  represent is answered as written, but `0A` is left as it was (`SeededWriteStrays`). Requests (GET) are dispatched properly there
  (`RequestDispatchExact`).
* A value is accepted and survives composing and parsing in all frames exactly when it
  is in range and `Faithful` (`TypedRoundTrip`): bits need a position of at most 7, numbers must be whole steps (`x` is what
  some step shows, `StepsAreFaithful`) and fit the signed field, and a two-byte
  switch keeps only "on".
* Two decimals lose no step exactly for scales of at least 0.01 (`FinestScale`); what
  a step shows is stable at every scale (`DisplayIsStable`).
* A two-command counter reads back exactly when it lies in [-32768000, 32767999].
* `_build_frame` gives a well-formed frame exactly when the data ends behind the
  command bytes and within 512 bytes (`BuildFrameWellFormed`).
* A four-byte record never has the boolean kind `value_kind` may promise
  (`KindPromise`).
* The data-available buffer keeps bytes of an earlier round. A stale byte completes the
  signal of a round exactly when the last round before it that got two bytes got 0x02
  as the second, and now a 0x10 arrives that 0x02 does not follow in time
  (`StaleExactly`); so the first round is always fresh. `StaleByteCounts` is such a line.
* A write that has been stored raises InvalidData exactly when the record is of a kind
  that never decodes (`WriteIsTruthful`).

One fact about the code has no condition: `_set_time_via_frame` reports its values as
written even if the device refuses the set frame (`ClockReport`, and on every line
`TimeIsSent`).

The refinement asks for a valid configuration (`Plants.ValidConfig`): unique ids, each
command in one request and one place, none of them another with the beginning of the
footer behind it, and records behind their command bytes and inside a 514-byte frame.
A write is covered when its composed frame reaches its own register (`Calls.Delivered`
for a call, `Calls.AllDelivered` for a run); that holds in every state of the registers
when no other command begins with the one written to (`Calls.UnambiguousIsDelivered`).

## Model

| member | source | states |
|---|---|---|
| `Escaping.AddDuplicatedBytes` | stiebel_heatpump/protocol/parser.py:120-133 | the loop escapes exactly the middle of the frame, on inputs of any length |
| `Escaping.EscapeLength` | stiebel_heatpump/protocol/parser.py:120-133 | an escaped frame has between its length and twice its length less four bytes |
| `Escaping.PassesAreOneDecoder` | stiebel_heatpump/protocol/parser.py:149-154 | on every input the two replace passes, in either order, are one left-to-right token decoder |
| `Framing.EscapeRoundTrip` | stiebel_heatpump/protocol/parser.py:120-154 | de-escaping undoes escaping exactly on the frames whose header is not mangled, for all inputs |
| `Framing.IsFrameEnd` | stiebel_heatpump/protocol/parser.py:157-176 | the backward count of 0x10 decides whether the prefix ends with an odd run and 0x03 |
| `Framing.ExactFraming` | stiebel_heatpump/protocol/parser.py:157-176 | in an escaped frame the end is recognised at the last byte and at no earlier prefix |
| `Framing.PrefixFree` | stiebel_heatpump/protocol/parser.py:120-133 | escaped frames form a prefix-free code, hence escaping is injective |
| `Meanings.EscapedExactly` | stiebel_heatpump/protocol/parser.py:120-133 | what each byte becomes between the first and last two, and what short inputs become |
| `Meanings.UnescapedExactly` | stiebel_heatpump/protocol/parser.py:149-154 | every input of two bytes or more is decoded pair by pair from the left, in front of a new footer |
| `Meanings.DecodedPairs` | stiebel_heatpump/protocol/parser.py:151-153 | a pair 10 10 or 2B 18 in front becomes its first byte, and any other byte stays |
| `Meanings.FrameEndExactly` | stiebel_heatpump/protocol/parser.py:169-176 | bytes end a frame exactly if the last is 0x03 and an odd run of 0x10 is in front of it |
| `Checksums.CalculateChecksum` | stiebel_heatpump/protocol/parser.py:105-117 | the loop computes the low byte of the sum without slot 2 and the footer, and refuses short data |
| `Checksums.ChecksumUpdate` | stiebel_heatpump/protocol/parser.py:105-117 | changing one byte moves the checksum by the difference modulo 256, or not at all for slot 2 and the footer |
| `Checksums.SingleByteCorruption` | stiebel_heatpump/protocol/parser.py:201-211 | a verified frame with one byte changed is accepted exactly if the byte is in the footer or the same |
| `Checksums.CreateRequestMessage` | stiebel_heatpump/protocol/parser.py:363-369 | the message is the escaped, checksum-valid frame of the command |
| `Meanings.HeaderExactly` | stiebel_heatpump/protocol/parser.py:201-211 | a header is accepted exactly if the frame has five bytes, starts with 0x01 and 0x00 or 0x80, and its third byte is the sum of the others but the footer |
| `Checksums.RequestLooksLikeResponse` | stiebel_heatpump/protocol/communication.py:119-124 | an escaped request passes the header check exactly if its stuffing weighs a multiple of 256 |
| `Checksums.ShortcutExact` | stiebel_heatpump/protocol/communication.py:119-124 | no valid response carrying data equals the request message, exactly if the stuffing weighs nothing or no multiple of 256 |
| `Checksums.ShortCommandsAreSafe` | stiebel_heatpump/protocol/communication.py:119-124 | every command of up to nine bytes is safe on the wire |
| `Checksums.RegisterExact` | stiebel_heatpump/protocol/communication.py:119-124 | no well-formed register carrying data equals the request message, exactly unless the command ends in a multiple of sixteen 0x10 bytes, nothing else is stuffed and the frame fits the buffer |
| `Checksums.AnUnsafeCommand` | stiebel_heatpump/protocol/communication.py:119-124 | a concrete eleven-byte command is not safe on the wire |
| `Refinement.SwallowedOnTheWire` | stiebel_heatpump/protocol/communication.py:119-124 | for every command that is not safe on the wire and whose request can be received at all, a line on which a valid response carrying data makes the write return with nothing set |
| `Refinement.UnsafeSwallows` | stiebel_heatpump/protocol/communication.py:119-124 | for every command whose register can equal its request, a valid plant with data that swallows every write to it |
| `Refinement.AnUnsafeRegister` | stiebel_heatpump/protocol/communication.py:119-124 | sixteen bytes of 0x10 are such a command |
| `Bits.SetBitWritesOneBit` | stiebel_heatpump/protocol/parser.py:185-189 | the mask and shift write the addressed bit, counted from the left, and no other |
| `Bits.GetBitReadsOneBit` | stiebel_heatpump/protocol/parser.py:179-182 | shift and mask read exactly the addressed bit |
| `Scaling.FinestScale` | stiebel_heatpump/protocol/parser.py:257-260 | encoding the decoded step gives the step back for all steps exactly for scales from 0.01 on |
| `Scaling.DisplayIsStable` | stiebel_heatpump/protocol/parser.py:257-260 | what a step shows, encoded and decoded again, shows the same, at every scale but zero |
| `Scaling.EncodeDecode` | stiebel_heatpump/protocol/parser.py:309-319 | writing and reading a value moves it by at most half a step and half a hundredth |
| `Scaling.RoundingStaysInRange` | stiebel_heatpump/protocol/parser.py:342-348 | with whole-step limits rounding never leaves the range |
| `Scaling.RoundingAbsorbs` | stiebel_heatpump/protocol/parser.py:309-319 | an error in value / scale still gives step k exactly if it lies in [-1/2, 1/2) |
| `Records.KindPromise` | stiebel_heatpump/models.py:65-82 | a decoded value has the advertised kind exactly if the record is not four bytes long or is an integer |
| `Records.ComposeRecord` | stiebel_heatpump/protocol/parser.py:322-360 | in place: the composed set frame on success, the error otherwise; out of range exactly if the value is no bool and lies below min or above max, which leaves only the set byte behind |
| `Records.StoreBits` | stiebel_heatpump/protocol/parser.py:334-357 | writing a value sets exactly the bits of its footprint, to values independent of the frame |
| `Records.ParseIsLocal` | stiebel_heatpump/protocol/parser.py:223-268 | a record decodes alike in frames that agree on the bits it reads |
| `Records.NumberReadsBack` | stiebel_heatpump/protocol/parser.py:241-246 | a stored number is read as its two's complement wrap-around to the field |
| `Records.TypedRoundTrip` | stiebel_heatpump/protocol/parser.py:322-360 | a value is accepted and survives composing and parsing in every frame exactly if it is in range and the record can represent it; a number, if it is what some step shows and its step fits the field |
| `Records.StepsAreFaithful` | stiebel_heatpump/protocol/parser.py:257-260 | at scales of at least 0.01 in size, the numbers a record can represent are exactly those some step that fits the field shows |
| `Meanings.DecodedExactly` | stiebel_heatpump/protocol/parser.py:223-268 | a record is decoded from its own bytes, the first the most significant, in two's complement, as a bit counted from the left, or as zero or not; and exactly when it cannot be |
| `Meanings.NumberIsStored` | stiebel_heatpump/protocol/parser.py:347-357 | a number, or the step a float lies next to, is stored modulo its field, the first byte the most significant, and nothing else changes |
| `Meanings.BoolIsStored` | stiebel_heatpump/protocol/parser.py:334-340 | a bool sets its bit, or makes the whole byte 0 or 1 |
| `Meanings.ShownExactly` | stiebel_heatpump/protocol/parser.py:257-260 | what a step shows is the nearest number with two decimals, halfway the greater |
| `Ranges.ComposingFails` | stiebel_heatpump/protocol/parser.py:322-360 | every way composing can fail: out of range exactly beyond the limits, written out; then the frame that is too short or the zero scale |
| `Composition.ComposeAllStores` | stiebel_heatpump/protocol/communication.py:136-138 | composing item by item is storing all values and recomputing the checksum once, or the range error |
| `Composition.ComposeAnyOrder` | stiebel_heatpump/protocol/communication.py:136-138 | items with disjoint footprints give the same frame in any order and multiplicity |
| `Composition.ComposedValuesReadBack` | stiebel_heatpump/protocol/communication.py:136-138 | every item decodes to its own value from the composed frame |
| `Composition.ComposedFrame` | stiebel_heatpump/protocol/communication.py:136-138 | the composed frame is a valid set frame and every bit outside the footprints is unchanged |
| `Composition.LastItemStands` | stiebel_heatpump/protocol/communication.py:136-138 | where items overlap, the bits of the last one stand |
| `Composition.ComposeValues` | stiebel_heatpump/protocol/communication.py:136-138 | the loop over the items composes in place, up to the first error |
| `Readings.ParseRecords` | stiebel_heatpump/protocol/parser.py:271-300 | the loop decodes every record that can be decoded, combining two responses in thousands |
| `Readings.LookupParsed` | stiebel_heatpump/protocol/parser.py:291-300 | with unique ids each record is found under its id with its own value |
| `Meanings.ThousandsExactly` | stiebel_heatpump/protocol/parser.py:291-300 | a whole number of up to two bytes is completed with the thousands of the second response and missing without them; every other value is that of the first |
| `Meanings.ResponseExactly` | stiebel_heatpump/protocol/parser.py:286-300 | with unique ids a response gives exactly the records that can be decoded, in their order |
| `Config.GroupRequests` | stiebel_heatpump/config_loader.py:49-61 | the loop with its index computes the requests in order of first appearance, each with its channels in order |
| `Config.GroupingPartitions` | stiebel_heatpump/config_loader.py:49-61 | grouping loses, duplicates and invents no channel, and puts each into exactly one request |
| `Config.KeysAreDistinct` | stiebel_heatpump/config_loader.py:51-60 | no two requests have the same key |
| `Config.GroupingKeepsOrder` | stiebel_heatpump/config_loader.py:53-60 | requests stand in the order in which their keys first appear |
| `Config.RequestKeepsOrder` | stiebel_heatpump/config_loader.py:53-60 | and the channels of a request in the order of the file |
| `Config.LookupsAgree` | stiebel_heatpump/config_loader.py:63-70 | with unique ids the lookups find the channel and the request of its commands |
| `Config.LastChannelIsFound` | stiebel_heatpump/config_loader.py:63-64 | whatever the ids, the last channel of an id is found |
| `Config.FirstRequestIsFound` | stiebel_heatpump/config_loader.py:66-70 | and the first request that holds one |
| `Devices.MatchCommand` | stiebel_heatpump/simulator.py:168-182 | the loop finds the best match |
| `Devices.BestMatchIsLongest` | stiebel_heatpump/simulator.py:168-182 | the best match is a known command the frame carries, and no other such command is longer |
| `Devices.FrameDispatchExact` | stiebel_heatpump/simulator.py:168-182 | a frame reaches the register of a command it carries exactly if it carries no longer one that begins with it |
| `Devices.DispatchExact` | stiebel_heatpump/simulator.py:168-182 | set frames reach their register for all data exactly if no other command extends the command |
| `Devices.SharedPrefixDispatch` | device_configs/LWZ_THZ303_4_19.xml:25-34 | a frame of 0A reaches its register, or the clock register its data 01 22 to 01 26 spell |
| `Parameters.DeliversExactly` | stiebel_heatpump/simulator.py:168-204 | a write to 0A reaches its register exactly if its composed frame does not carry 01 22 to 01 26 behind the command |
| `Parameters.ParametersAreDelivered` | device_configs/LWZ_THZ303_4_19.xml:223-232 | with byte 5 of the register clear, every number written to a channel of 0A is delivered and leaves it clear |
| `Parameters.CallsAreDelivered` | device_configs/LWZ_THZ303_4_19.xml:223-232 | so is every sequence of service calls |
| `Parameters.FreshRunsRefine` | stiebel_heatpump/simulator.py:42-53 | on a fresh simulator of such a configuration every sequence of calls does on the wire what it does on the map |
| `Parameters.ShadowedWriteStrays` | stiebel_heatpump/simulator.py:168-204 | with 01 22 to 01 26 in the register, no accepted write behind these bytes is delivered: it overwrites the clock register and is reported as a success |
| `Parameters.SeedsShadow` | stiebel_heatpump/simulator.py:79-132 | seeding 1 and 0x2200 at positions 4 and 5 of 0A puts 01 22 into the register |
| `Examples.SharedIsParameterConfig` | device_configs/LWZ_THZ303_4_19.xml:25-228 | eight channels of the file, of 0A and of the clock registers, form such a configuration |
| `Examples.SeededWriteStrays` | stiebel_heatpump/simulator.py:50-53 | on their simulator so seeded, every value p56 accepts and can represent is answered as written, and 0A is not |
| `Refinement.StrayWrite` | stiebel_heatpump/simulator.py:196-204 | a write whose frame carries a longer command overwrites that register, leaves its own, and is reported as a success |
| `Devices.RequestDispatchExact` | stiebel_heatpump/simulator.py:168-182 | a request reaches its register exactly if no command is it followed by the start of the footer |
| `Devices.FeedFrame` | stiebel_heatpump/simulator.py:151-157 | a collecting device understands an escaped frame exactly, at its last byte |
| `Devices.GetIsAnswered` | stiebel_heatpump/simulator.py:184-206 | a request is answered with the stored frame and changes nothing |
| `Devices.UnknownIsRefused` | stiebel_heatpump/simulator.py:190-194 | an unknown command is answered with an error frame the header check rejects, and changes nothing |
| `Devices.NoShortSet` | stiebel_heatpump/simulator.py:151-157 | what a device takes in is never a set frame without room for a checksum |
| `Devices.SetIsAnswered` | stiebel_heatpump/simulator.py:196-204 | a set frame replaces its register and is confirmed, or is refused and changes nothing; the registers stay well formed |
| `Sessions.SessionIsAnswered` | stiebel_heatpump/simulator.py:143-166 | whatever noise is around it, a session of greeting, frame and acknowledgement is answered with 0x10, 0x10 0x02 and the escaped response to the frame |
| `Sessions.KnownIsAnswered` | stiebel_heatpump/simulator.py:184-206 | a set frame is kept with 0x00 and a new checksum in the register of the longest command it carries, or refused; every other frame is answered with what is kept and changes nothing |
| `Sessions.UnknownIsAnswered` | stiebel_heatpump/simulator.py:185-194 | the exact answers to frames that are too short or carry no known command |
| `Sessions.OnlySetsChange` | stiebel_heatpump/simulator.py:143-204 | from every state, a byte changes a register only as the acknowledgement of a set frame that carries its command and is not refused |
| `Plants.BuildFrameWellFormed` | stiebel_heatpump/simulator.py:68-77 | the built frame is well formed exactly if the data ends behind the command bytes and within 512 bytes |
| `Plants.InitialPlantIsValid` | stiebel_heatpump/simulator.py:42-48 | a valid configuration starts with one well-formed frame for each command |
| `Plants.BuildFrameIsBlank` | stiebel_heatpump/simulator.py:68-77 | behind the command bytes a new frame holds zeros only |
| `Fresh.InitiallyBlank` | stiebel_heatpump/simulator.py:42-48 | so does every register of a valid configuration |
| `Simulator.HeatPumpSimulator.constructor` | stiebel_heatpump/simulator.py:25-48 | builds the registers of all requests and starts idle; what they hold is said by `Fresh.InitiallyBlank` |
| `Simulator.HeatPumpSimulator.Seed` | stiebel_heatpump/simulator.py:50-53 | sets the seeds in turn, a version among them by default, up to the first that raises |
| `Simulator.HeatPumpSimulator.SetValue` | stiebel_heatpump/simulator.py:79-109 | the new registers, with the split into thousands for two-command channels, and what is left behind when encoding raises |
| `Simulator.HeatPumpSimulator.Encode` | stiebel_heatpump/simulator.py:111-132 | the encoded frame, or the error and the bytes already written when the record does not fit |
| `Fresh.EncodingFails` | stiebel_heatpump/simulator.py:111-132 | exactly when encoding raises, and what it leaves of the frame then |
| `Fresh.SeedsStop` | stiebel_heatpump/simulator.py:50-53 | seeds are set in turn, and the first that raises is the last |
| `Fresh.SeededOne` | stiebel_heatpump/simulator.py:105-109 | a bool, or a value of a one-command channel, changes the register of the first command only |
| `Simulator.HeatPumpSimulator.Feed` | stiebel_heatpump/simulator.py:136-141 | the object moves and answers as the transition function does over all bytes |
| `Simulator.HeatPumpSimulator.FeedByte` | stiebel_heatpump/simulator.py:143-166 | one transition of the three-state machine |
| `Simulator.HeatPumpSimulator.BuildResponse` | stiebel_heatpump/simulator.py:184-206 | the answer to a frame and the registers after it, or the error on a set frame without room for a checksum |
| `Transports.Transport.Send` | stiebel_heatpump/protocol/transport.py:122-124 | feeds the device and queues its answer behind what is already there |
| `Transports.Transport.Take` | stiebel_heatpump/protocol/transport.py:126-130 | takes the next arrival, or times out |
| `Conversation.PollsAreBounded` | stiebel_heatpump/protocol/connector.py:80-132 | on any line, at most 1029 get calls to receive a frame and 1030 for each of five requests |
| `Conversation.ReceiveDelivered` | stiebel_heatpump/protocol/connector.py:111-132 | a frame of up to 1024 bytes on the wire is received exactly, with up to four timeouts anywhere and anything after it |
| `Conversation.DataSignalled` | stiebel_heatpump/protocol/connector.py:86-105 | the data-available signal is understood with up to four timeouts around its first byte |
| `Outcomes.ReceptionExactly` | stiebel_heatpump/protocol/connector.py:111-132 | on every line a reception takes the arrivals up to the first frame end, the 1025th byte or the fifth timeout, and returns their bytes de-escaped, or fails on too many |
| `Outcomes.ReceptionEnds` | stiebel_heatpump/protocol/connector.py:111-132 | and ends after at most 1029 calls |
| `Outcomes.WaitExactly` | stiebel_heatpump/protocol/connector.py:86-105 | on every line a wait takes the arrivals up to the signal, the 1025th byte or the fifth timeout |
| `Outcomes.GreetingExactly` | stiebel_heatpump/protocol/connector.py:66-78 | on every line the conversation goes on exactly if 0x10 comes back for the first 0x02 |
| `Outcomes.RoundExactly` | stiebel_heatpump/protocol/connector.py:80-109 | on every line and in each of five rounds: what ends the request, what is sent again, and what get_data and set_data make of it |
| `Outcomes.ConverseWrites` | stiebel_heatpump/protocol/connector.py:41-132 | whatever arrives, what a conversation sends is up to five times 0x02 and the message, perhaps one more 0x02, and perhaps 0x10 |
| `Rounds.SignalledExactly` | stiebel_heatpump/protocol/connector.py:86-105 | on every line and buffer, a round signals data exactly on 0x10 0x02 after at most four timeouts, or, with a stale 0x02 in the buffer, on a single 0x10 |
| `Rounds.FreshExactly` | stiebel_heatpump/protocol/connector.py:80-105 | every line that signals data starts with a signal of its own exactly if the buffer does not hold 0x02 in its second place |
| `Rounds.RoundLeaves` | stiebel_heatpump/protocol/connector.py:81-106 | a round that is given up hands on its own first two bytes, as far as it got them, and otherwise what it started with |
| `Rounds.RoundsAreRun` | stiebel_heatpump/protocol/connector.py:80-109 | the run of a request goes through the start of each of its rounds |
| `Rounds.StaleExactly` | stiebel_heatpump/protocol/connector.py:80-109 | on every line, a stale byte completes the signal of a round exactly if the last earlier round that got two bytes got 0x02 second and now 0x10 arrives without 0x02 in time |
| `Rounds.FirstRoundIsFresh` | stiebel_heatpump/protocol/connector.py:81-105 | the first round never does |
| `Rounds.StaleByteCounts` | stiebel_heatpump/protocol/connector.py:81-84 | a concrete line on which a byte of the first round completes the signal of the second |
| `Connectors.Connector.StartCommunication` | stiebel_heatpump/protocol/connector.py:66-78 | succeeds exactly if the escape byte comes back |
| `Connectors.Connector.WaitForData` | stiebel_heatpump/protocol/connector.py:86-105 | the inner loop runs the machine to data, timeout or overflow, with at most 1029 get calls |
| `Connectors.Connector.EstablishRequest` | stiebel_heatpump/protocol/connector.py:80-109 | the nested loops run the machine to where the handshake leaves it, with at most 5 * 1030 get calls |
| `Connectors.Connector.ReceiveData` | stiebel_heatpump/protocol/connector.py:111-132 | the loop runs the machine to the received frame, with at most 1029 get calls |
| `Connectors.Connector.GetData` | stiebel_heatpump/protocol/connector.py:41-51 | one run of the machine, with the exceptions of a read |
| `Connectors.Connector.SetData` | stiebel_heatpump/protocol/connector.py:53-62 | one run of the machine, with the exceptions of a write |
| `Exchange.ExchangeFrame` | stiebel_heatpump/protocol/connector.py:41-62 | with a quiet device, one conversation delivers the frame, brings back the answer and ends quiet |
| `Exchange.GetReturnsStored` | stiebel_heatpump/protocol/connector.py:41-51 | get_data of a command returns exactly the stored frame, changes no register and ends quiet |
| `Exchange.SetStores` | stiebel_heatpump/protocol/connector.py:53-62 | set_data of an update stores it and is confirmed, or is refused and changes nothing; registers stay well formed |
| `Exchange.PeerAnswers` | stiebel_heatpump/protocol/connector.py:41-62 | with any peer that answers, up to four timeouts before the signal and four in the frame, the frame is received, nothing behind it is touched, and 0x02, the message and 0x10 are sent |
| `Jobs.ReadSafety` | stiebel_heatpump/protocol/communication.py:52-90 | on any line the values of a read are decoded from exactly the frames received in its first attempt in which all of them pass the header check, and it fails exactly if no attempt is such; within six conversations |
| `Provenance.ReadValuesArrived` | stiebel_heatpump/protocol/communication.py:52-90 | on every scripted line, the values of a read are decoded from de-escaped runs of consecutive arrivals that make valid frames |
| `Jobs.ThreeAttempts` | stiebel_heatpump/protocol/communication.py:61-90 | a read is the first success of three attempts, and fails if all three do |
| `Communication.CommunicationService.ReadRequest` | stiebel_heatpump/protocol/communication.py:52-90 | the retry loop performs the read job; its values are decoded from verified frames of the run |
| `Communication.CommunicationService.ReadRequests` | stiebel_heatpump/protocol/communication.py:92-99 | reads the requests in turn into one dictionary, up to the first failure |
| `Communication.CommunicationService.WriteValues` | stiebel_heatpump/protocol/communication.py:115-168 | performs the write job: read, shortcut, compose, set, confirm; `Writes` gives its outcome on every line |
| `Writes.WriteSucceedsExactly` | stiebel_heatpump/protocol/communication.py:115-168 | whatever arrives, a write succeeds exactly if the request message itself comes back, or a frame comes into which the values compose, it is set, the answer passes the header check and all records decode |
| `Writes.NothingFetched` | stiebel_heatpump/protocol/communication.py:116-133 | a read that brings nothing or fails ends the write in a protocol error, with nothing more sent; the request itself ends it in success |
| `Writes.SetExactly` | stiebel_heatpump/protocol/communication.py:136-168 | otherwise the composed frame is set, and the answer decides between success, the old values and the errors |
| `Writes.WriteReports` | stiebel_heatpump/protocol/communication.py:140-156 | a confirmed write reports of each channel what the frame that was set holds |
| `Writes.WriteReportsOnly` | stiebel_heatpump/protocol/communication.py:164-168 | a successful write reports each channel once, and none that was not written |
| `Refinement.ReadRefines` | stiebel_heatpump/protocol/communication.py:52-90 | on a quiet plant a read returns the decoded registers and changes nothing |
| `Refinement.WriteRefines` | stiebel_heatpump/protocol/communication.py:115-168 | on a quiet plant a write whose frame reaches its register does to the registers what composing and restoring does to the map |
| `Refinement.RunRefines` | stiebel_heatpump/protocol/communication.py:52-168 | over every sequence of tasks, each a row of reads and delivered writes up to the first failure, the stack has the outcomes and registers of the map |
| `Zones.JobKeepsZone` | stiebel_heatpump/protocol/communication.py:115-168 | a job leaves every bit of a register alone that its items do not cover |
| `Zones.AcceptedIsWritten` | stiebel_heatpump/protocol/communication.py:106-168 | after an accepted write of one or several values, whatever they are, the register holds the bits of each and reads as the caller was told |
| `Refinement.WriteIsTruthful` | stiebel_heatpump/protocol/communication.py:115-168 | out of range exactly if a value is, with nothing changed; otherwise the composed frame is stored unless refused, and the return is a success, NotConfirmed or, exactly if some record never decodes, InvalidData |
| `Ranges.OutOfRangeExactly` | stiebel_heatpump/protocol/parser.py:342-346 | whatever arrives, a write is out of range exactly if a frame comes that is not its own request and the number lies below min or above max; then nothing is set |
| `Ranges.QuietOutOfRange` | stiebel_heatpump/protocol/parser.py:342-346 | on a quiet plant, exactly if one of the values is no bool and lies beyond its limits; no register changes and no more than the request is sent |
| `Ranges.QuietWriteSends` | stiebel_heatpump/protocol/communication.py:115-145 | otherwise exactly the request and the frame with the values in it are sent |
| `Clock.SetTimeViaRegisters` | stiebel_heatpump/protocol/communication.py:224-235 | one write job per field into one dictionary, up to the first failure |
| `Clock.ClockRegisters` | stiebel_heatpump/protocol/communication.py:224-235 | on a quiet plant, success means that every field is in its register and nothing else changed; a refusal or range error at a field, that exactly the fields before it are; InvalidData, that its record never decodes and it is stored too unless refused |
| `Clock.SetTimeViaFrame` | stiebel_heatpump/protocol/communication.py:237-258 | one read and one set of all fields, whose effect `Times.TimeIsSet` gives |
| `Clock.ClockReport` | stiebel_heatpump/protocol/communication.py:237-258 | the reported values are the same whether the device takes the frame, and then every field reads back, or refuses it |
| `Times.TimeIsSent` | stiebel_heatpump/protocol/communication.py:240-258 | whatever arrives, behind a valid frame with room for the fields the time is out of range exactly if a field is, and otherwise the frame with the time in it is set, and the time reported unless that conversation fails |
| `Times.NoFrameNoTime` | stiebel_heatpump/protocol/communication.py:240-245 | without a valid frame nothing is set: a failed read is raised, an invalid frame reports nothing |
| `Times.TimeIsSet` | stiebel_heatpump/protocol/communication.py:237-258 | on a quiet plant: what is sent, that each field then reads as its value from the register with every other bit as before, or nothing changes if the device refuses, and that each field is reported under its id and nothing else |
| `Times.NoFieldNoTime` | stiebel_heatpump/protocol/communication.py:247-258 | a request without a field of the clock has its frame sent back as it was read |
| `Locking.Linearisable` | stiebel_heatpump/service.py:94-146 | under every interleaving of transport calls, the line and all outcomes are those of the callers' tasks performed one after the other in the order of the lock |
| `Locking.NoLostUpdates` | stiebel_heatpump/service.py:140-148 | the registers and outcomes are those of the plain map under some sequential order of the same tasks, delivered in whatever order |
| `Locking.UnshadowedInAnyOrder` | stiebel_heatpump/simulator.py:168-182 | tasks are, if no command begins with one that is written to |
| `Locking.HolderReturns` | stiebel_heatpump/service.py:94-146 | whoever holds the lock returns after finitely many turns of its own, on any line, and gives it back |
| `Locking.NobodyIsStuck` | stiebel_heatpump/service.py:94-146 | from every world any schedule leads to, some further schedule lets every caller return |
| `Fairness.FairSchedulesEnd` | stiebel_heatpump/service.py:94-146 | every schedule of enough rounds, in each of which every caller has a turn, lets all of them return; how many is enough depends on the tasks alone |
| `Callers.CallersRefine` | stiebel_heatpump/service.py:91-148 | concurrent reads of one or several channels and writes are answered as the plain map answers them in some order, and the registers end as it does |
| `Callers.UnambiguousInAnyOrder` | stiebel_heatpump/simulator.py:168-182 | calls are delivered in any order if no command begins with one they write to |
| `Writers.WritersDoNotUndoEachOther` | stiebel_heatpump/service.py:140-148 | under every interleaving the register is still what an accepted write of one or several values left, in every zone of bits the other jobs leave alone |
| `Writers.WritersReadBack` | stiebel_heatpump/service.py:140-148 | so the channel reads at the end as its own writer was told, which is the value written if the record can represent it |
| `Writers.KeptBits` | stiebel_heatpump/service.py:140-148 | and every bit the write covers is in the register |
| `Calls.CoerceKeepsValue` | stiebel_heatpump/service.py:179-198 | coercion gives the kind of the channel, keeps values of that kind, and otherwise keeps their number, truncated towards zero or compared with zero |
| `Calls.WriteIsTold` | stiebel_heatpump/service.py:140-148 | the reply to an accepted write, whatever the value, is what the register of the channel then reads as |
| `Calls.WriteIsRead` | stiebel_heatpump/service.py:140-148 | an accepted write of a value the record can represent is answered with it and decodes to it |
| `Calls.HarmlessKeepsReading` | stiebel_heatpump/service.py:91-148 | a call that leaves the bits of a channel alone changes neither what its register reads as nor its second register |
| `Calls.CallRefines` | stiebel_heatpump/service.py:91-148 | a service call on the simulator, its set frame delivered, does what it does on the map |
| `Calls.CallsRefine` | stiebel_heatpump/service.py:91-148 | so does every sequence of reads of one or several channels and writes |
| `Calls.UnambiguousIsDelivered` | stiebel_heatpump/simulator.py:168-182 | in every state of the registers a call is delivered if no command begins with the one it writes to |
| `Replies.UnknownIsRefused` | stiebel_heatpump/service.py:91-143 | on every line, no call that names an unknown channel sends anything |
| `Replies.ReadOnlyIsRefused` | stiebel_heatpump/service.py:140-143 | on every line, a write to a sensor or status channel is refused and sends nothing |
| `Replies.SettingIsWritten` | stiebel_heatpump/service.py:140-148 | on every line, a write to a settings channel makes one write job, and the reply is the coerced value, what the frame that was set holds, or the error |
| `Replies.BeyondIsRefused` | stiebel_heatpump/protocol/parser.py:342-346 | on a quiet plant it is refused as out of range exactly if the coerced value is a number beyond the limits, and then no register changes |
| `Replies.ChannelIsRead` | stiebel_heatpump/service.py:91-98 | on every line, a read is answered with the channel as the frames of the first of three attempts hold it in which all pass the header check, or fails if there is none |
| `Calls.LastWriteWins` | stiebel_heatpump/service.py:91-148 | after any calls that leave its bits alone, a read returns what the last accepted write was answered with, for every value; on two commands, with the thousands of the second register |
| `Batches.NeededOnce` | stiebel_heatpump/service.py:168-174 | each needed request is issued once, and no other |
| `Replies.NeededInOrder` | stiebel_heatpump/service.py:168-174 | in the order in which the channels first need them |
| `Replies.WantedInOrder` | stiebel_heatpump/service.py:114-119 | the wanted channels are answered in the order they were read |
| `Rows.RowExactly` | stiebel_heatpump/protocol/communication.py:92-99 | on every line, jobs in a row each start where the one before ended, and the first failure is the last |
| `Rows.BatchIsAnswered` | stiebel_heatpump/service.py:100-120 | on every line, a read of several channels fails as the first of its requests that fails, and otherwise answers each wanted channel as its own request reported it |
| `Calls.ReadManyAnswers` | stiebel_heatpump/service.py:100-120 | on the simulator each wanted channel is returned exactly once with its value, and nothing else |
| `Seeding.InitialPlantHasRoom` | stiebel_heatpump/simulator.py:42-48 | in a fresh simulator every channel lies inside its frame |
| `Seeding.SeedsKeepPlant` | stiebel_heatpump/simulator.py:50-53 | no seeds of a valid configuration raise, and every channel still lies inside a well-formed frame |
| `Seeding.SeedingIsWriting` | stiebel_heatpump/simulator.py:105-109 | for a value in range, seeding leaves the registers that a full write over the wire leaves |
| `Seeding.CounterRoundTrip` | stiebel_heatpump/simulator.py:97-104 | a seeded two-command counter is read back over two conversations exactly if it lies in [-32768000, 32767999] |
| `Fresh.UnseededIsZero` | stiebel_heatpump/simulator.py:68-77 | a simulator that has just started answers a channel whose bits no seed touches, the default version included, with 0, 0.0 or false |
| `Fresh.SeedIsAnswered` | stiebel_heatpump/simulator.py:50-53 | and a seeded one with its seed, if its record can represent it and no later seed touches it |
| `Fresh.VersionIsAnswered` | stiebel_heatpump/simulator.py:51 | and the version, if none is seeded, with the default |
| `Examples.ShippedIsValid` | device_configs/LWZ_THZ504_7_59.xml:5-31 | four channels of the file form a valid configuration |
| `Vectors.SwitchIsTaken` | tests/test_communication.py:54-68 | the bytes sent and the values returned of a confirmed write |
| `Vectors.SwitchIsRefused` | tests/test_communication.py:80-95 | the same write, refused with an error code, is not a success |
| `Vectors.QuartersAreTaken` | tests/test_communication.py:98-113 | the same for two values in one frame |
| `Vectors.ResponsesAreParsed` | tests/test_parser.py:48-76 | two responses make 1511, and an unset quarter is -128 |
| `Vectors.TenthsAreShown` | tests/test_parser.py:56-62 | a response shows 22.7 |
| `Vectors.StuffedFrame` | tests/test_parser.py:30-36 | the frame with both escape bytes |
| `Vectors.VersionRequest` | tests/test_parser.py:20-27 | the request of the version, checksum and all |
| `Service.HeatPumpService.OnSimulator` | stiebel_heatpump/service.py:54-62 | a service on a valid configuration starts quiet, with the default version seeded, on a plant with room for all channels |
| `Service.HeatPumpService.ReadChannel` | stiebel_heatpump/service.py:91-98 | serves the read call, whose reply `Replies.ChannelIsRead` gives on every line |
| `Service.HeatPumpService.ReadChannels` | stiebel_heatpump/service.py:100-120 | serves the read of several channels, whose reply `Rows.BatchIsAnswered` gives on every line |
| `Service.HeatPumpService.WriteChannel` | stiebel_heatpump/service.py:140-148 | serves the write call, whose replies `Replies.SettingIsWritten` and `Replies.ReadOnlyIsRefused` give on every line |

## Left out

- Simulator.HeatPumpSimulator.FeedByte: on a set frame without room for a checksum the exception would leave the simulator waiting; here nothing is sent. Such a frame is never taken in (`Devices.NoShortSet`).
- Simulator.HeatPumpSimulator.constructor: seeding is the separate method `Seed`, because a constructor cannot report the error it may end in; the default version is a parameter, not read from the name of the file.
- Simulator.HeatPumpSimulator.Encode: frames are values; the mutation in place shows only in what a failing call leaves behind.
- Config.GroupRequests: requests are values in a sequence and the index maps a key to a place; the aliasing of request objects in list and index is not modelled.
- Calls.CoerceKeepsValue: the strings that `_coerce` also accepts are not modelled, nor are floats beyond the reals.
- Examples.ShippedIsValid: four of the channels of the file; reading the file is not modelled.
- A device that refuses a frame and later accepts the same one: whether it refuses depends on the frame alone. The simulator refuses none.
- The object is not shared in `Service`; concurrent callers are threads of `Locking`, whose tasks are what a caller does under the lock.
- HTTP, settings, XML, YAML and hex parsing, logging and message texts: the channel list and command bytes are given, with positions and lengths that are not negative.
- The serial transport with its reader thread, sleeping and real time: a line without a device stands for it.
- Restarting the connector between attempts: it does nothing on the simulator, and keeps the queue on a serial line.
- `connect` and `close` of the service, `get_version` and `read_all`: they add only easy members.
- Reading the clock request back at the end of `set_time`; the current time is a parameter.
- Four-byte writes store nothing in the source, and so here.
