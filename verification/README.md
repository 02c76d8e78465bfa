# A model of a Sparkplug B stack

This project models the two halves of a Sparkplug B library and proves what they promise each other:

* **The protobuf codec** (`Base`, `Wire`, `DataTypes`, `Model`, `Scalars`, `Arrays`, `Encode`, `Decode` and the laws
  over them). The encoder is a function from payloads to fields and from fields to bytes; the decoder is a fold over the
  fields of a buffer, one accumulator per message kind, with its depth limit as the termination measure. Both are
  mutually recursive over metrics, templates and property sets. The same code in its own form, writers that append and
  readers that advance, is in `WireIO`, `ArraysIO`, `EncodeIO` and `DecodeIO`, each method proved equal to its function.
  `Fields`, `Reading`, `Meaning`, `Failures`, `Writing`, `Layout`, `WireLaws` and `TextLaws` say what arbitrary bytes
  read as and which bytes are written, field by field, without the loops.
* **The session protocol** (`Births`, `Topic`, `Names`, `HostState`, `Sequence`, `Messages`, `Host`, `Edge` and the laws
  over them). The host is a step function on the state of one node, lifted to a map of nodes; the edge is a step function
  on its fields. Clocks, transport results and the data source are inputs of each step. `HostIO` and `EdgeIO` are the
  engines as classes whose handlers update fields, each proved equal to its step: the whole new state, everything sent,
  and the result. `HostLaws`, `EdgeLaws` and `EdgeMessages` say across all handlers when each part of the state changes,
  what goes out and what it says.

The main results are about every input or every run:

* encoding then decoding is the identity exactly on well-formed payloads within the depth limit
  (`Codec.BirthRoundTrip`), without datatypes exactly when each datatype is recoverable (`Stripped.DataRoundTrip`), and
  whatever decodes is normal (`Codec.DecodingNormalises`);
* arbitrary bytes decode to a value exactly when no field is unreadable and the value is the one their last and repeated
  fields spell, at every level (`Meaning.MetricMeans`, `Meaning.PayloadMeans`), and the bytes written are exactly the
  fields of the schema in order (`Writing.MetricWritten`, `Writing.PayloadWritten`);
* an edge and a host over an orderly transport stay in step, every value is reported under its name and no rebirth is
  ever asked for (`Simulation.EdgeHostSimulation`);
* over a channel that loses, duplicates and reorders, what is reported is a prefix of the session, in order and once each
  (`Lossy.ExactlyOncePrefix`);
* for arbitrary messages, the host's session numbers, online devices and deaths follow its history
  (`HostRuns.SessionInvariant`, `HostRuns.DeathReport`), stale deaths are ignored (`Deaths.LiveSessionSurvives`), nodes
  do not interfere (`Isolation.NodeIsolation`) and rebirth requests are bounded (`HostRuns.RebirthRate`);
* for every call, state and transport, what an edge publishes is exactly what is due, in order, up to the first failure
  (`EdgeLaws.WhatGoesOut`, `EdgeLaws.TransportCuts`), so a gated edge waits for its host (`EdgeLaws.PrimaryHostGates`);
  and a host's requests are as many as are owed (`Recovery.RequestsAreMade`) and no more (`HostRuns.RebirthRate`);
* whatever the two disagree on, the host asks for a rebirth exactly on an anomaly or a clashing birth
  (`Recovery.AsksExactly`), and one answered request puts them back in step for every run that follows
  (`Recovery.AnomalyHeals`).

Text is bytes with UTF-8 validity, floats are bit patterns, machine integers are ranges of `int` with wrap-around and
truncation written out. `dafny verify dfyconfig.toml` checks everything.

## Model

| member | source | states |
|---|---|---|
| Wire.VarintRoundTrip | src/codec/wire.rs:35-47 | A written varint is read back for every 64-bit value before any bytes, taking exactly the 1 to 10 bytes written |
| Wire.VarintMeaning | src/codec/wire.rs:117-131 | On arbitrary bytes a successful read takes the bytes up to the first without a top bit, at most ten, and gives the sum of their seven-bit groups at weights 128^i modulo 2^64 |
| WireLaws.VarintShortest | src/codec/wire.rs:35-47 | No bytes that read as a number are shorter than those written for it |
| WireLaws.VarintFails | src/codec/wire.rs:117-131 | A read fails exactly when no byte ends the varint: overflow after ten bytes, truncation before |
| WireIO.Writer.WriteVarint | src/codec/wire.rs:35-47 | The loop appends exactly the varint of the value to the buffer |
| WireIO.Reader.ReadVarint | src/codec/wire.rs:117-131 | The shift/or loop computes the arithmetic reading and advances past it, or fails alike |
| WireIO.GroupStep | src/codec/wire.rs:117-131 | Shifting a group into place and or-ing it in adds it at its weight modulo 2^64, below the tenth group without loss |
| Wire.FieldRoundTrip | src/codec/wire.rs:49-95 | Every field that fits is read back from its serial form before any bytes |
| WireLaws.FieldMeans | src/codec/wire.rs:133-210 | A field of arbitrary bytes by its key: number, wire type, value and length, and each way it is refused |
| WireIO.Reader.ReadField | src/codec/wire.rs:133-210 | Reading a tag and its value at the cursor gives the field that starts there, or its error |
| WireIO.Writer.BytesField | src/codec/wire.rs:78-91 | Appends exactly the serial form of a length-delimited field |
| Wire.TokensOfAppend | src/codec/wire.rs:97-210 | A buffer whose first part ends at a field boundary has the fields of both parts, in order |
| Wire.TokensOfSer | src/codec/wire.rs:49-95 | Serialised fields are read back as they were, in order, without an error |
| DataTypes.CodeRoundTrip | src/datatype.rs:57-112 | Every datatype is read back from its code |
| DataTypes.CodeOf | src/datatype.rs:70-112 | The codes 0 to 34 are accepted, each for its own datatype, and no other |
| DataTypes.BasicCodes | src/datatype.rs:19-66 | The code of each basic datatype by name |
| DataTypes.StructuredCodes | src/datatype.rs:19-66 | The same for the structured datatypes |
| DataTypes.ArrayCodes | src/datatype.rs:19-66 | The same for the arrays |
| Model.NewDataSet | src/model.rs:227-272 | The checks in order accept exactly the sets of matching shape and basic, matching types |
| Arrays.ArrayRoundTrip | src/codec/arrays.rs:18-208 | For all thirteen array types unpacking the packed form restores the array exactly when it is well-formed |
| Arrays.PackAfterUnpack | src/codec/arrays.rs:97-208 | Repacking unpacked bytes restores them: always for numeric arrays, for strings exactly when empty or ending in NUL |
| Layout.NumberAt | src/codec/arrays.rs:18-66 | Each element of a numeric array stands at its place, lowest byte first |
| Layout.NumbersMean | src/codec/arrays.rs:105-170 | Bytes unpack to a numeric array exactly when packing it gives them, and are refused exactly when no whole elements |
| Layout.BooleansMean | src/codec/arrays.rs:172-188 | Bytes are a boolean array exactly when they hold the bits they count, each from the top of its byte; the rest is ignored |
| Layout.StringsMean | src/codec/arrays.rs:190-208 | Bytes are a string array exactly when its strings, each closed by a NUL, give them, the last NUL optional |
| ArraysIO.PackArray | src/codec/arrays.rs:18-88 | The packing loops produce the packed form |
| ArraysIO.PutBits | src/codec/arrays.rs:67-78 | Or-ing bits in most significant first produces the packed bit string |
| ArraysIO.UnpackArray | src/codec/arrays.rs:97-208 | The unpacking loops produce the unpacked array or the same error |
| Scalars.ScalarBuilt | src/codec/decode.rs:156-222 | A scalar is rebuilt from the raw slots its field fills, truncating casts included |
| Reading.BasicMeans | src/codec/decode.rs:156-222 | A scalar is built exactly when its field holds it, integers modulo their width and flags by any number but zero |
| Reading.FoldFails | src/codec/decode.rs:22-602 | Every loop but that of a row fails exactly with its first unreadable field |
| EncodeIO.EncodePayload | src/codec/encode.rs:14-33 | The writer form of the payload encoder produces the bytes of its field list |
| EncodeIO.EncodeMetric | src/codec/encode.rs:35-70 | The same for a metric and everything nested in it, with or without datatypes |
| EncodeIO.EncodeSet | src/codec/encode.rs:148-158 | All keys, then all values, as the field list says |
| EncodeIO.EncodeDataSet | src/codec/encode.rs:199-213 | Column count, columns, types, rows, as the field list says |
| EncodeIO.EncodeTemplate | src/codec/encode.rs:245-263 | Version, members, parameters, reference and flag, as the field list says |
| Writing.PayloadWritten | src/codec/encode.rs:14-33 | The bytes hold exactly the fields of the payload and its metrics in order, by ascending number |
| Writing.MetricWritten | src/codec/encode.rs:35-117 | The bytes hold exactly the fields of the metric, each once by ascending number: type with births only, null flag with nulls only, integers sign-extended |
| Writing.MetaDataWritten | src/codec/encode.rs:119-146 | The same for metadata |
| Writing.SetWritten | src/codec/encode.rs:148-158 | All keys in order, then all values in order, and nothing else |
| Writing.PropertyWritten | src/codec/encode.rs:160-188 | Type and value, or type and null flag |
| Writing.ListWritten | src/codec/encode.rs:190-197 | The sets in order and nothing else |
| Writing.ColumnCountFirst | src/codec/encode.rs:199-202 | Whatever the data set, its bytes open with field 1 holding the number of its columns |
| Writing.DataSetWritten | src/codec/encode.rs:199-213 | Column count, columns, one code for each type, rows, in that order and nothing between |
| Writing.CellWritten | src/codec/encode.rs:215-243 | A cell is the field of its scalar, or nothing |
| Writing.TemplateWritten | src/codec/encode.rs:245-263 | Version, members, parameters, reference and flag, exactly and by ascending number |
| Writing.ParameterWritten | src/codec/encode.rs:265-286 | Name, type, and the value when there is one |
| DecodeIO.DecodePayload | src/codec/decode.rs:22-40 | The reader loop gives the fold over the fields of the buffer, errors included |
| DecodeIO.DecodeMetric | src/codec/decode.rs:68-131 | The same for a metric at a given depth and registry |
| DecodeIO.BuildMetricValue | src/codec/decode.rs:156-230 | The value is built from the raw slots by its datatype, or refused |
| DecodeIO.DecodeSet | src/codec/decode.rs:252-277 | The loop over keys and values gives their zip, or the length mismatch |
| DecodeIO.DecodeDataSet | src/codec/decode.rs:364-397 | Packed or plain type codes and buffered rows give the checked data set |
| DecodeIO.DecodeTemplate | src/codec/decode.rs:479-506 | The template loop gives its fold, one level deeper for each member |
| Meaning.PayloadMeans | src/codec/decode.rs:22-40 | Bytes decode to a payload exactly when no field is unreadable and it is what their last and repeated fields spell, the number cut to eight bits |
| Meaning.MetricMeans | src/codec/decode.rs:68-146 | The same for a metric at any depth: type by its code or else the registry, null exactly when the last flag is raised, value by its type |
| Meaning.MetaDataMeans | src/codec/decode.rs:232-250 | The same for metadata |
| Meaning.SetMeans | src/codec/decode.rs:252-277 | The same for a property set: as many keys as values, paired in order |
| Meaning.PropertyMeans | src/codec/decode.rs:279-346 | The same for a property value, a raised null flag hiding any value |
| Meaning.ListMeans | src/codec/decode.rs:348-362 | The same for a list of property sets |
| Meaning.DataSetMeans | src/codec/decode.rs:364-397 | The same for a data set, type codes single or packed, in a shape the constructor accepts |
| Meaning.RowMeans | src/codec/decode.rs:399-418 | A row is read exactly when each body is a cell of its column and there are no more than columns |
| Meaning.CellMeans | src/codec/decode.rs:420-477 | A cell is empty exactly without a scalar field, else the scalar its column asks for |
| Meaning.TemplateMeans | src/codec/decode.rs:479-506 | The same for a template, members and parameters in order |
| Meaning.ParameterMeans | src/codec/decode.rs:508-602 | The same for a parameter, whose name and type are required |
| WireLaws.PackedBack | src/codec/decode.rs:376-384 | Packed type codes are read back as the codes they are |
| NullFlags.MetricNullFlag | src/codec/decode.rs:93-121 | In any buffer an explicit false with no other null flag reads as absent, any flag that a later one follows too, and every number but zero as one |
| NullFlags.PropertyNullFlag | src/codec/decode.rs:279-346 | The same for a property value |
| Failures.MetricFails | src/codec/decode.rs:102-230 | Readable fields that make no metric: an unknown type, one that cannot be recovered, or the error of the field its type calls for |
| Failures.PropertyFails | src/codec/decode.rs:303-346 | The same for a property value |
| Failures.SetFails | src/codec/decode.rs:265-273 | A property set fails after its fields exactly for more keys than values or fewer |
| Failures.ParameterFails | src/codec/decode.rs:530-602 | A parameter without name, type or fitting value, or of an unknown type |
| Failures.DataSetFails | src/codec/decode.rs:387-397 | The first unknown type counts, then the first row that fails, then the shape |
| Failures.CellFails | src/codec/decode.rs:420-477 | A cell that is no value of its column, or of a column of no basic type |
| Failures.DepthLimit | src/codec/decode.rs:19-71 | Level 32 is the last that is read |
| RoundTrip.MetricBack | src/codec/decode.rs:68-131 | A well-formed metric decodes to itself within the depth it needs and to the recursion error beyond |
| RoundTrip.SetBack | src/codec/decode.rs:252-277 | The same for property sets, at every depth |
| RoundTrip.TemplateBack | src/codec/decode.rs:479-506 | The same for templates, with and without datatypes on the wire |
| RoundTripParts.DataSetBack | src/codec/decode.rs:364-435 | A well-formed data set decodes to itself |
| Codec.BirthRoundTrip | src/codec/encode.rs:14-286 | With datatypes, decoding gives the payload back if and only if it is well-formed and needs at most 32 levels; deeper fails with the recursion error |
| Codec.DecodeOfEncode | src/codec/decode.rs:22-40 | The outcome of decoding an encoded payload in both modes, exactly |
| Codec.DecodingNormalises | src/codec/decode.rs:22-602 | Whatever arbitrary bytes decode to is encoded and decoded again unchanged |
| Sound.DecodedPayloadFits | src/codec/decode.rs:22-602 | Whatever arbitrary bytes decode to is well-formed and within the depth limit |
| Stripped.DataRoundTrip | src/codec/decode.rs:109-146 | Without datatypes, the payload comes back if and only if it is well-formed, within depth, and every metric and template member has its datatype recovered, by name first |
| Stripped.MetricCameBack | src/codec/decode.rs:133-146 | A metric that comes back had its datatype, and those of all nested members, recoverable |
| Registries.RegistryIndependence | src/codec/decode.rs:109-119 | Bytes that decode without a registry decode alike with any, at every level of nesting |
| Registries.DecodeKeeps | src/codec/decode.rs:133-146 | Bytes that decode under a registry decode alike under every registry that recovers at least as much |
| Merging.LastOneWins | src/codec/decode.rs:22-40 | Concatenated buffers decode to metrics appended and each optional field taken from the last that has it, or fail as the second does |
| Merging.UnknownFieldsSkipped | src/codec/wire.rs:117-210 | Any bytes that are whole fields unknown to a decode loop, overlong encodings included, put at a field boundary, change neither result nor error |
| Births.AliasRegistry.Bind | src/alias.rs:43-52 | Binds name, alias and datatype in all four maps and nothing else |
| Births.AliasRegistry.TryBind | src/alias.rs:58-69 | Refuses exactly an alias bound to another name and then changes nothing |
| Births.AliasRegistry.Clear | src/alias.rs:111-116 | Leaves no binding |
| Births.BindAll | src/host.rs:493-509 | The birth loop computes the folded registry and the duplicate flag |
| Births.BirthFolding | src/host.rs:493-509 | The duplicate flag goes up exactly when two named metrics share an alias under different names; otherwise every named aliased metric resolves to its name and nothing else is bound |
| Births.TypesBound | src/host.rs:611-627 | After a clean birth a name or alias has the datatype of its last metric, or what it had before |
| Births.FirstNameWins | src/host.rs:493-509 | In any birth an alias goes to the first named metric that has it |
| Births.ClashingTypes | src/alias.rs:58-69 | In any birth, clashing aliases included, a name or alias has the datatype of the last metric bound to it, those refused left aside |
| Topic.TopicRoundTrip | src/topic.rs:261-319 | A topic parses back from its string if and only if it is valid, and a string that parses is the string of its topic |
| Topic.TokenRoundTrip | src/topic.rs:43-113 | Message type tokens are read back, and only they |
| Topic.ParseFails | src/topic.rs:261-304 | A text of a topic's shape fails only for an invalid identifier, any other for its shape |
| HostState.StateReadsBack | src/state.rs:48-95 | A STATE is read back in either key order and with any white space around its tokens |
| HostState.StateRoundTrip | src/state.rs:32-46 | The canonical STATE is read back for both flags and every 64-bit timestamp |
| HostState.Parse | src/state.rs:48-95 | The loop over the fields computes the specified reading, with its failures |
| HostState.IntRoundTrip | src/state.rs:32-95 | Every signed 64-bit number is read back from its decimal form, the minimum included |
| TextLaws.StateMeans | src/state.rs:48-95 | A text is a STATE exactly when, trimmed, it stands in braces, each part is blank or suits its key, and both keys are there; the last value counts, and every failure is the same error |
| TextLaws.IntMeans | src/state.rs:48-95 | A text is a number exactly when it is an optional sign and digits whose value fits 64 bits |
| TextLaws.Utf8Means | src/state.rs:48-95 | Bytes that count as text are those of characters |
| TextLaws.Utf8Back | src/state.rs:48-95 | The bytes of any text are valid and read back |
| Names.SortNames | src/host.rs:575-582 | Collecting and sorting gives the one ascending list of the names, each once |
| Names.ListingUnique | src/host.rs:575-582 | Two ascending lists of the same names are equal |
| TextLaws.BeforeMeans | src/host.rs:575-582 | A name comes before another where they first differ, or when it ends there |
| Sequence.Seq.NextValue | src/sequence.rs:32-36 | Returns the current value and advances it by one modulo 256 |
| Sequence.AdvancedMeet | src/sequence.rs:50-67 | Two counts give the same counter value exactly when they are a multiple of 256 apart |
| Host.StateMessageReadsBack | src/host.rs:290-298 | The STATE a host publishes is read back by whoever receives it |
| HostLaws.OwnState | src/host.rs:426-440 | A STATE changes no node; an offline one of the host's own name is answered with the retained online STATE of its own timestamp, and nothing else is ever sent |
| HostLaws.BdSeqMeaning | src/host.rs:200-212 | The first metric named bdSeq counts, signed or unsigned, when it fits a signed 64-bit number |
| HostLaws.OnlineAfter | src/host.rs:479-718 | A node is online afterwards exactly after a clean NBIRTH, or when it was and nothing ended its session |
| HostLaws.NumbersAfter | src/host.rs:479-718 | While a node is online a clean NBIRTH sets its numbers and aliases, a message that passes advances the expected number, and nothing else touches them |
| HostLaws.DevicesAfter | src/host.rs:597-718 | A device comes online exactly by its own DBIRTH, with the aliases of that birth, and goes offline exactly by its own DDEATH or a new session |
| HostLaws.PassedReport | src/host.rs:521-718 | A message that passes is reported: births with their metrics, data with names filled in, deaths with their time |
| HostLaws.NodeReport | src/host.rs:479-595 | Clean NBIRTHs and own NDEATHs are reported; what cannot be read is an error, and it, foreign NDEATHs and commands change nothing |
| HostLaws.ForeignTopic | src/host.rs:426-427 | A topic that cannot be read is an error and changes nothing |
| HostIO.HostApplication.HandleIncoming | src/host.rs:426-473 | One message changes the nodes, sends and reports exactly as the step function says |
| HostIO.HostApplication.OnNodeBirth | src/host.rs:479-519 | Rebuilds the node from the birth, or takes it offline and asks for a rebirth on clashing aliases |
| HostIO.HostApplication.OnNodeData | src/host.rs:521-553 | Reports resolved data in sequence; anything else ends the session and asks for a rebirth |
| HostIO.HostApplication.OnNodeDeath | src/host.rs:555-595 | Ends the session only on a real matching bdSeq, listing its online devices sorted |
| HostIO.HostApplication.OnDeviceBirth | src/host.rs:597-643 | Takes the sequence number and the device online before it looks at clashing aliases |
| HostIO.HostApplication.OnDeviceData | src/host.rs:645-681 | Needs the device online; otherwise asks for a rebirth and leaves the session |
| HostIO.HostApplication.OnDeviceDeath | src/host.rs:683-718 | Takes the device offline in sequence |
| HostIO.HostApplication.Rebirth | src/host.rs:733-748 | Takes the debounce slot, inserting the node if new, and keeps it taken when the send fails |
| HostIO.FillNames | src/host.rs:215-226 | The loop fills in the name of each alias-only metric whose alias is bound, and nothing else |
| HostRuns.SessionInvariant | src/host.rs:479-718 | Over every run an online node's expected number is its birth's plus one plus the messages passed since, modulo 256; its bdSeq is its birth's; its online devices are those last born and not dead |
| HostRuns.DeathReport | src/host.rs:555-595 | A node death is reported exactly on a matching bdSeq while online, lists exactly those devices sorted, and ends the session |
| HostRuns.EventsExactly | src/host.rs:479-718 | A birth event comes exactly from an NBIRTH without clash, a session event exactly from a message that passes the sequence check |
| HostRuns.SilentUntilBirth | src/host.rs:521-731 | An offline node reports nothing and stays offline until an NBIRTH without clash |
| HostRuns.RebirthRate | src/host.rs:190-198 | On a monotone clock a window holds at most window / debounce + 1 rebirth requests for one node, over every path that asks |
| HostRuns.SlotStep | src/host.rs:733-748 | A step sends a request only when it takes a free debounce slot, and otherwise keeps the slot |
| Isolation.KeyInjective | src/host.rs:475-477 | A key belongs to one node, since identifiers hold no slash |
| Isolation.NodeIsolation | src/host.rs:426-477 | After any interleaved run a node's state, events and requests are those of its own timed messages alone |
| EdgeIO.EdgeNode.Connect | src/edge.rs:252-302 | Numbers the connection, registers the will, subscribes in order and publishes births unless gated, up to the first transport failure |
| EdgeIO.EdgeNode.PublishBirthSequence | src/edge.rs:307-340 | NBIRTH with number 0, then each DBIRTH in order; on failure exactly the sent prefix and the state reached |
| EdgeIO.EdgeNode.PublishDeviceBirth | src/edge.rs:366-392 | Aliases, stamps, numbers and sends one DBIRTH; the device is born only when it was sent |
| EdgeIO.EdgeNode.AssignAliases | src/edge.rs:396-414 | The in-place loop gives the aliased metrics, the extended registry and the next alias |
| EdgeIO.EdgeNode.PublishNodeData | src/edge.rs:440-464 | Refused when not online; otherwise the number is taken before the send |
| EdgeIO.EdgeNode.PublishDeviceData | src/edge.rs:470-496 | Refused for a device that is not born; otherwise as node data |
| EdgeIO.EdgeNode.PublishDeviceDeath | src/edge.rs:502-530 | The device is removed only when its DDEATH was sent |
| EdgeIO.EdgeNode.HandleIncoming | src/edge.rs:548-616 | Rebirth commands, debounced, and primary-host STATEs drive births and disconnects as the step function says |
| EdgeIO.EdgeNode.Disconnect | src/edge.rs:637-650 | The NDEATH first, then the close; disconnected only when both succeed |
| EdgeIO.StampAll | src/edge.rs:45-51 | Exactly the metrics without a timestamp get one |
| EdgeLaws.WhatGoesOut | src/edge.rs:252-650 | For every call, state and transport, exactly the topics due are published, in order, up to the one the transport refuses |
| EdgeLaws.TransportCuts | src/edge.rs:252-650 | A transport that fails earlier cuts the log of any call and changes nothing before the cut |
| EdgeLaws.StateMoves | src/edge.rs:252-650 | A call that fails leaves the edge where it was; one that succeeds moves it to waiting, online or disconnected as it should |
| EdgeLaws.IncomingMoves | src/edge.rs:532-616 | The STATE timestamp moves exactly with a fresh STATE, and the rebirth slot exactly with a command all of whose births were sent |
| EdgeLaws.PrimaryHostGates | src/edge.rs:585-613 | A fresh STATE of the primary host sets off the births exactly when online while the edge waits, the disconnect exactly when offline while it is online, and else moves only the STATE timestamp; an older one changes nothing |
| EdgeLaws.OtherStates | src/edge.rs:585-592 | STATEs of other hosts are ignored, unreadable ones are errors, and neither changes anything |
| EdgeLaws.CommandsHandled | src/edge.rs:553-573 | A node command is an error, handed on, debounced, or sets off the births, by its payload and the slot, which is taken when all births were sent |
| EdgeLaws.OthersHandled | src/edge.rs:574-616 | Device commands are handed on, other messages ignored, foreign topics are errors |
| EdgeLaws.BirthsOut | src/edge.rs:307-340 | After a birth sequence cut anywhere: the devices born, the numbers used up, the state and the result |
| EdgeLaws.ConnectListens | src/edge.rs:252-302 | A connect that succeeds listens to its commands, its devices' and its primary host, then publishes its births exactly without one |
| EdgeLaws.ConnectHearsHost | src/edge.rs:291-296 | With a primary host the log holds the subscription to the very topic that host publishes its STATE on |
| EdgeLaws.CommandsHeard | src/edge.rs:278-289 | The command topics listened to are those the host's commands carry |
| EdgeMessages.NodeBirthSays | src/edge.rs:307-364 | An NBIRTH decodes to number 0, its time, and the source's metrics with the controls it lacks, stamped and aliased from 0 |
| EdgeMessages.DeviceBirthSays | src/edge.rs:366-414 | A DBIRTH decodes to the edge's number, its time and the device's metrics, stamped and aliased onward |
| EdgeMessages.NodeDataSays | src/edge.rs:418-464 | Node data is refused without a trace unless online; else it uses up the next number, sent or not, with bound names giving way to aliases |
| EdgeMessages.DeviceDataSays | src/edge.rs:470-496 | The same for device data, which needs the device born |
| EdgeMessages.DeviceDeathSays | src/edge.rs:502-530 | A DDEATH has no metrics; the device is dropped where it first stands exactly when it was sent |
| EdgeMessages.NodeDeathSays | src/edge.rs:213-264 | An NDEATH, will or message, is sent at least once, not retained, with its time on payload and bdSeq |
| EdgeMessages.AllSentRight | src/edge.rs:229-302 | Every action of every call has the right quality of service and is not retained |
| EdgeMessages.ControlNames | src/lib.rs:72-75 | The two control metrics by name |
| Aliasing.AliasesInOrder | src/edge.rs:396-414 | Aliases count up by one for each metric that takes one |
| Aliasing.AllocationNeverClashes | src/edge.rs:396-414 | Aliases given to an alias-free list never clash |
| Aliasing.BirthResolves | src/edge.rs:396-435 | Every name declared in a birth resolves: what the edge puts on the wire for it, the host reads back with its datatype |
| Allocation.AliasesCountUp | src/edge.rs:307-414 | A birth sequence gives out 0, 1, 2 and so on over the NBIRTH and all DBIRTHs, whatever the state before |
| Allocation.ControlsStayPlain | src/edge.rs:396-414 | In the NBIRTH and in every DBIRTH of a birth sequence a metric gets an alias exactly when it is named and no control metric, and nothing else of it changes |
| Joining.NodeBirthJoins | src/host.rs:479-519 | An edge's NBIRTH brings a host in any state in step with the edge |
| Joining.DeviceBirthJoins | src/host.rs:597-643 | An edge's DBIRTH keeps an in-step host in step and adds the device |
| Joining.NodeDataJoins | src/host.rs:521-553 | In-step node data is reported with its names, values and stamped timestamps |
| Joining.DeviceDataJoins | src/host.rs:645-681 | The same for device data |
| Joining.DataArrives | src/codec/decode.rs:109-146 | Declared data, shortened to aliases and stripped of datatypes, decodes under the host's registry and resolves to its names |
| Joining.DeathHeard | src/host.rs:555-595 | An edge's NDEATH ends an online session of its bdSeq and leaves every other state alone |
| Simulation.BirthsHeard | src/edge.rs:307-340 | A birth sequence is heard birth by birth as published and leaves any host in step |
| Simulation.IncomingCases | src/edge.rs:548-616 | An inbound message changes at most the STATE timestamp, or sets off births, or ends an online session |
| Simulation.EdgeHostSimulation | src/edge.rs:252-650 | For every admissible run over an orderly transport the host never errs or asks for a rebirth, hears every birth, datum and death once, the death an offline primary host sets off included, with original names, values and timestamps, and matches the edge's number, bdSeq, devices and aliases while it is online |
| Sample.SampleRun | src/edge.rs:252-464 | From any host state, with or without aliases, a run that connects with a node metric and a device metric, aliased 0 and 1, and reports a value of each meets those hypotheses and is heard |
| Channel.SeqNoKept | src/codec/decode.rs:22-40 | Whatever registry decodes an encoded payload, its sequence number is the one encoded |
| Channel.StepAside | src/host.rs:521-718 | A sequenced message that does not pass is not reported, and either ends the session or leaves it as it was |
| Channel.ReportsInOrder | src/host.rs:529-718 | From any point of a session of at most 256 messages, copies in any order and number are reported in order from there, once each |
| Lossy.ExactlyOncePrefix | src/host.rs:529-718 | Over any loss, duplication and reordering of an edge session after its NBIRTH, inbound messages that publish nothing included and with NDEATHs in between, the reports are messages 1 to m in order, once each, as in an orderly run |
| Recovery.AsksExactly | src/host.rs:479-748 | A step asks for a rebirth exactly on an NDATA, DBIRTH, DDATA or DDEATH it does not take (an undecodable DBIRTH or DDEATH in a session excepted) or on a birth with clashing aliases; the slot is taken exactly when there was no request yet or the last is at least the debounce ago, the command goes out exactly then if the send succeeds, and any other step sends nothing and keeps the slot |
| Recovery.TwoRequests | src/host.rs:190-198 | Two messages that ask, at least the debounce apart and with sends that succeed, make two commands |
| Recovery.RequestsAreMade | src/host.rs:190-198 | On a monotone clock with sends that succeed, a run holds at least as many requests as messages that ask a whole debounce apart |
| Recovery.CommandOnWire | src/host.rs:387-410 | The command goes to the node's NCMD topic, not retained, and decodes to one true rebirth metric |
| Recovery.CommandObeyed | src/edge.rs:548-575 | The host's command decodes at any edge and sets off the births, or is debounced |
| Recovery.RebirthRecovers | src/edge.rs:548-575 | Whatever states the two are in, an answered rebirth command leaves the edge online and the host in step, having heard the births |
| Recovery.AnomalyHeals | src/host.rs:721-748 | From any states, a message that makes the host ask, its command taken by the edge and the births delivered back, leaves the two in step, and every admissible run from there is heard as it should be |
| Deaths.ConnectionNumbers | src/edge.rs:254-258 | Over any calls and transport failures the k-th connection is numbered k after the stored start, modulo 256 |
| Deaths.NodeBirthShows | src/edge.rs:342-361 | An NBIRTH whose metrics fit the codec shows the bdSeq of its connection if and only if its source supplies no bdSeq metric or that very number |
| Deaths.StepCarries | src/edge.rs:213-264 | Every will and NDEATH of a call, and every NBIRTH whose source leaves bdSeq to the engine and fits the codec, decodes and carries the bdSeq of the connection |
| Deaths.ConnectionsCarryTheirNumber | src/edge.rs:213-361 | Over any calls, what the k-th connection sends, rebirths included, carries (start + k) modulo 256, under the same condition for NBIRTHs |
| Deaths.StaleDeathsIgnored | src/host.rs:555-595 | The NDEATH of the j-th connection ends the session of the k-th exactly when they are a multiple of 256 apart, and changes nothing otherwise |
| Deaths.LiveSessionSurvives | src/host.rs:555-595 | The same for a host in step with the edge after any calls |

## Left out

- `src/transport.rs` beyond the publish, subscribe, connect and disconnect outcomes: the client, TLS and the network loop are foreign. A transport is a log and a budget of calls that succeed before one fails.
- `src/compress.rs`: the work is done by a compression library that is not part of this model.
- `FileBdSeqStore`, `now_ms` and `Instant::now`: file and clock input. The in-memory store is used, and clock readings are inputs of each step.
- `HostApplication::start`, `shutdown` and the command publishers: they only send fixed messages.
- Async plumbing, builder setters, configuration defaults, `MetricKey` and the message strings of errors: errors are modelled as their variants, with the numbers they carry.
- The inside of `NodeState` and `DeviceState` as objects: the host class updates a map of values, so aliasing between a node and its registry objects is not captured; a birth fills an `AliasRegistry` object and stores its value.
- The inside of floats: a float is its bit pattern.
- Buffers of 2^64 bytes and more: round trips assume encoded sizes below 2^64, which any slice length has.
- The reader's position after an error, which no caller looks at.
- One datatype `Scalar` stands for the fourteen basic variants that metric values, property values, data set cells and parameters share, and `ReadField` reads a tag together with the typed value or skip that follows it.
- The panics of arithmetic overflow in debug builds: counters wrap as in release builds.
- EdgeHostSimulation: data values that are Templates are not admitted, since their members need not be declared; nothing is claimed of device publications between a disconnect and the next birth, where the edge still sends them, nor of a transport that fails, where sequence numbers are used up by failed sends.
- ExactlyOncePrefix: sessions of more than 256 sequenced messages are not admitted, since numbers repeat modulo 256.
- StepCarries: nothing is claimed of an NBIRTH whose metrics do not fit the codec or whose source supplies its own bdSeq metric, which the engine leaves in place; when such an NBIRTH shows the right number is `Deaths.NodeBirthShows`.
- Gating by a primary host as an unconditional promise: a rebirth command publishes births from any state, and the model does so too; exactly when births go out is `EdgeLaws.WhatGoesOut`.
- RowMeans: which of several faulty cells of one row is reported is not stated.
- A claim that every anomaly ends a session: device data for a device that is not online asks for a rebirth and leaves the session, and the model does so too.
