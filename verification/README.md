# A verified model of the BACnet gateway example

The repository is a BACnet gateway (profile B-GW) for a simulated foreign bus, with the helper it shares with other
examples and the Python tools that test it on the wire. This project models three parts of it and proves what they are
for.

**The gateway and its bus** (`main.cpp`, `simulation/SimulatedForeignBus.cpp`). The bus holds asynchronous transactions:
each is answered after its slave's latency, times out after 300 ms, and has an id from a counter that wraps. For every
slave the gateway runs a poll, an offline detector and two write-through links that drive a holding register and a coil
towards the winner of a 16-slot priority array. `ForeignBus`, `Gateway` and `Callbacks` hold the classes whose methods
do what the source does, each proved equal to a specification function on values; `Commanding`, `Served`, `Pauses` and
`Sensors` say what those functions come to, in terms of octets, numbers and times. `Runs` makes a run out of passes
(`ServiceForeignBus`), client commands, cables pulled and restored, and changes made at the field devices, in any order,
for any number of slaves up to 256 (unit ids are octets) with any poll periods and any latencies of at least a
millisecond. `Line` is one slave by itself, without ids; `Ownership` and `Refinement` show that what a run does to a
slave is what the slave's line does. The theorems about runs are proved on lines and carried back.

**The codec and the simulated server** (`wiretest/codec.py`, `wiretest/peer.py`, `wiretest/alarm.py`, and the decoder in
`common/CASExampleHelper.cpp`). `Tags` has the tag reader and balanced tag streams, `Apdu` the service encoders and
parsers, `Parsers` what these make of octets that no encoder wrote so, `Frames` the NPDU and the BVLL, `CppDecoder` the
independent C++ decoder stated against the Python one, `Server` the simulated server, `ServerMap` the proof that it is a
plain map, and `ServerHistory`, `MultipleAnswers` and `Discovery` what its clients get to know. A decoder's result is a
value, or `Truncated` (the IndexError or struct.error that the parsers catch), or `Uncaught`.

**Two schedulers of the helper**: `RoundRobin` for the receive callback, `Restart` for the deferred restart.

Conventions: times are milliseconds and do not run backwards, as the seam in `simulation/ForeignBus.h` asks; doubles are
reals, but an incoming REAL may also be NaN or an infinity; the two float limits of the setpoint are the exact binary32
values. Words of 16 bits, ids of 32 bits and the failure counter wrap where the source's do. Octets are the integers
below 256.

Where code and documentation differ, the code is modelled. A comment in `main.cpp:446` says that `written` stays false
after a failed write; it keeps its old value, which can be true. `WriteThroughIsSafe` therefore rests on the bus
contract that a timed-out write was not applied, which `BusContract` proves of the simulation.

One property does not hold without a condition: the gateway does not notice an output that is changed at the device, and
`SwitchedOffStaysOff` is a run of three events after which a coil stays wrong for good. `LocalChanges` gives the exact
conditions. In any run, with any commands and outages, the change stays until a write of the output lands, and is
replaced then (`LocalChangeIsNotRepaired`); `WriteStartsExactly` says in which passes a write is started. And from any
state, however it came about, a calm run ends with the winning value in the point if and only if the link was not
settled at its start or the point held that value already (`OutputsConvergeUnlessSettled`). In the same way
`NoWrapIffInRange`, `FrameRoundTrip` and `AccessSpecificationsRoundTrip` give the exact conditions of a round trip.

## Model

| member | source | states |
|---|---|---|
| Registers.NoWrapIffInRange | main.cpp:458-459 | scaling, rounding half away from zero and the 16-bit cast keep the value if and only if it lies strictly between -3276.85 and 3276.75 |
| Registers.ScaledIsNearest | main.cpp:458 | the scaled integer is within one half of the scaled value, and a tie goes away from zero |
| Registers.AcceptedIsInRange | main.cpp:764-790 | what the setpoint guard lets through is a number inside the range that does not wrap; NaN and the infinities are refused |
| Registers.EncodeThenDecode | main.cpp:458-459 | a value written and read back as a signed number of tenths is within 0.05 |
| Registers.DecodeThenEncode | main.cpp:418 | decoding and encoding again is the identity on all 65536 words |
| Registers.EncodeIsMonotone | main.cpp:458-459 | encoding keeps the order of values inside the range |
| Priority.Commandable.WinningValue | main.cpp:263-270 | the loop over the sixteen slots returns the specification's winner |
| Priority.Commandable.CommandWrite | main.cpp:758-761 | a command at an octet from 1 to 15 sets the slot of that number, at any other octet slot 16, and nothing else |
| Priority.Commandable.RelinquishSlot | main.cpp:824-827 | a relinquish clears the slot of that number, or slot 16, and nothing else |
| Priority.SlotHoldsStandingWrite | main.cpp:259-261 | after any history, one of the slots 1 to 15 is set if and only if the last operation at exactly that octet was a write, slot 16 if and only if the last one at 0 or 16 to 255 was, and holds that value |
| Priority.WinnerRefinesHistory | main.cpp:259-270 | after any writes and relinquishes at any priority octets, the winner is the standing write that no other one outranks, 1 to 15 ranking by number and all other octets below them as one, else the relinquish default |
| Commanding.WinnerFollowsRun | main.cpp:259-270 | in every run the value an output is driven to is that of the standing write among the commands to it, whatever is commanded to other outputs and happens otherwise |
| Commanding.RealIsCommanded | main.cpp:767-791 | a REAL written to a name and property is declined unless that is a setpoint's Present_Value, refused with error 37 unless it is in the guard's range, and if accepted then the Priority_Array element of its priority reads back as it, and no other read of any property of any object has changed |
| Commanding.EnumeratedIsCommanded | main.cpp:793-814 | the same for an enable and the values 0 and 1 |
| Commanding.NullRelinquishes | main.cpp:816-832 | a NULL written to an output's Present_Value makes the element of its priority read as NULL, and changes nothing else that can be read |
| ForeignBus.SimulatedForeignBus.StartTransaction | simulation/SimulatedForeignBus.cpp:97-112 | starts a pending transaction under the next id, skipping 0, or refuses what is not in the register map |
| ForeignBus.UnmappedPointsAreRefused | simulation/SimulatedForeignBus.cpp:97-112 | a transaction is refused if and only if the point is not mapped or a sensor is to be written, and gets the next id otherwise, 0 left out |
| ForeignBus.SimulatedForeignBus.DriftDevices | simulation/SimulatedForeignBus.cpp:114-127 | the loop moves every drifting sensor as the specification's step does |
| Sensors.SensorMovesEverySecond | simulation/SimulatedForeignBus.cpp:114-147 | in every run a drifting sensor stays within five steps of its centre and shows it; a pass moves it by one step, turning only at the fifth, if and only if 1000 ms or more have passed since it last moved, and nothing else moves it |
| Sensors.SensorStaysSet | simulation/SimulatedForeignBus.cpp:229-240 | a sensor that is set at the device keeps the value through every run in which it is not set again |
| ForeignBus.SimulatedForeignBus.Service | simulation/SimulatedForeignBus.cpp:139-169 | drift, then every pending transaction in order of its id is answered, timed out or left |
| ForeignBus.SimulatedForeignBus.CheckTransaction | simulation/SimulatedForeignBus.cpp:179-192 | reports an outcome, hands a value over once, and forgets what is finished |
| ForeignBus.SimulatedForeignBus.SetSlaveOnline | simulation/SimulatedForeignBus.cpp:215-222 | changes one slave's cable, and reports whether there is such a slave |
| ForeignBus.SimulatedForeignBus.SetDevicePoint | simulation/SimulatedForeignBus.cpp:229-240 | changes one point of one slave, stops its drift if it is the sensor, and reports whether there is such a point |
| Gateway.GatewayedSlave.ServicePoll | main.cpp:400-429 | one poll step, with the offline detector, is the specification's poll step on this slave and the bus |
| Gateway.GatewayedSlave.ServiceWriteThrough | main.cpp:432-461 | one write-through step is the specification's link step on this slave and the bus |
| Gateway.GatewayDevice.ServiceForeignBus | main.cpp:463-474 | one pass over the bus and all slaves is the specification's pass |
| Ownership.IssueIsFresh | simulation/SimulatedForeignBus.cpp:97-112 | under the invariant of every run a new id is neither 0 nor live, also after the counter has wrapped |
| Theorems.TransactionsAreOwned | simulation/SimulatedForeignBus.cpp:97-112 | in runs of any length, at every point inside every pass, the live ids are exactly the non-zero ids that the slaves hold, pairwise distinct, each for its own unit and table |
| Theorems.RunRefines | main.cpp:463-474 | what a run does to each slave is what that slave's line does under the events that concern it |
| Theorems.NonInterference | main.cpp:463-474 | two gateways whose runs look the same to a slave leave it in the same state |
| Theorems.SlavesDoNotInterfere | main.cpp:463-474 | any run, projected to one slave, ends as the run of a gateway that has this slave alone |
| BusService.EveryTransactionAlone | simulation/SimulatedForeignBus.cpp:149-168 | the loop over all transactions treats each as if it were the only one |
| WriteThrough.BusContract | simulation/SimulatedForeignBus.cpp:157-167 | a service changes a register or coil only by a pending write that it reports as done; a timed-out write was not applied |
| WriteThrough.WriteThroughIsSafe | main.cpp:432-461 | in every run without local changes of the output: a link with `written` set has its last written value, encoded, in the register or coil, also while a write is pending, and so a settled link means that it holds the encoded winner; through offline episodes and failed writes |
| Convergence.OutputsConverge | main.cpp:400-474 | from any state of any run: once commands to an output stop and the slave stays reachable, the register or coil equals the encoded winner, with no write on the wire, after every pass more than one poll period, two latencies and two pass gaps later, so by three pass gaps at the latest |
| Convergence.LineConverges | main.cpp:400-461 | the same for one slave's line; as it holds of every longer run, the point does not change any more and no write is started |
| LocalChanges.LocalChangeIsNotRepaired | main.cpp:432-461 | an output changed at the device, in any run with any commands and outages: the point keeps the change until a write of it lands and holds the last written value from then on, so under a settled link it holds the winner if and only if a write has landed or the change left it so; if the link was settled, none lands before a pass has found a winner other than the last written value, or has reported the slave |
| LocalChanges.WriteStartsExactly | main.cpp:452-460 | with nothing on the wire, a pass starts a write if and only if it leaves the slave believed online, no retry delay runs, and the link is not written with the winner; `written` is cleared exactly by a pass that reports the slave |
| Pauses.FailedWriteWaits | main.cpp:441-456 | in any run, after the pass in which a write of an output is given up, none is on the wire after any pass earlier than one poll period later, whatever is commanded; and the first pass from then on that leaves the slave believed online and the link not written with the winner starts a write of the winner, and no pass before it any |
| Pauses.PollsAreAPeriodApart | main.cpp:400-409 | in any run, once a poll is started no other poll of the slave is started for one poll period, and the first pass from then on that finds it finished starts the next |
| LocalChanges.OutputsConvergeUnlessSettled | main.cpp:432-461 | from any state of any run, changes at the device included: after the convergence time of a calm run the point holds the winner if and only if the link was not settled at the start or the point held the winner already; a settled link leaves the point alone |
| LocalChanges.SwitchedOffStaysOff | main.cpp:454-456 | the failing input: an enable output that is on and is switched off at the device after two passes stays off however long the gateway runs |
| Faults.NoFalseFault | simulation/SimulatedForeignBus.cpp:149-168 | a slave whose cable is never pulled with a latency up to the response timeout, never has a transaction that times out and is never reported, under any schedule of passes |
| Faults.FaultIsDetected | main.cpp:424-428 | a slave that stays unreachable is believed offline after every pass later than one poll period, the longer of the poll period and the response timeout with a pass gap, the response timeout and two pass gaps |
| FaultHistory.BeliefFollowsHistory | main.cpp:378-428 | a slave is reported exactly while at least two timeouts have followed its last answer, though the counter may wrap; a virtual device is discoverable exactly while it is not reported; reports and all-clears alternate, with one I-Am for each all-clear |
| Served.ReliabilityFollowsHistory | main.cpp:527-533 | in every run Reliability of each of a slave's three points is served as 0 if and only if fewer than two timeouts have followed its last answer, else as 12 |
| Served.NoFaultIsServed | main.cpp:527-533 | a slave whose cable is never pulled is never served with a fault |
| Served.FaultIsServed | main.cpp:527-533 | a slave that is cut off is served with communication-failure from the time that FaultIsDetected states on |
| Staleness.CacheIsRecent | main.cpp:400-423 | from any state of any run, a poll overdue since an outage included: for a slave that stays reachable, once a poll has been answered, the cached temperature after a pass is what the sensor register held in a pass at most one poll period, or one latency if that is longer, and one pass gap earlier |
| Served.ServedTemperatureIsRecent | main.cpp:484-517 | the same of the Present_Value that is served for the slave's Analog Input |
| Callbacks.NamesAndPointsCorrespond | main.cpp:275-299 | a device, type and instance find a point of a slave if and only if they are that point's name, so names and points correspond one to one: types 0, 1 and 4, the unit id under the gateway's device or instance 1 under the slave's virtual device |
| Callbacks.GetPropertyReal | main.cpp:484-517 | serves the cached temperature, the setpoint's relinquish default or a priority slot as the specification says |
| Callbacks.GetPropertyEnumerated | main.cpp:519-566 | serves the reliability of every mapped point, the enable output's relinquish default and priority slots, and the Network Port's BACnet/IP mode |
| Callbacks.GetPropertyBool | main.cpp:600-619 | says for a priority slot whether it is null, and that a Network Port is not out of service |
| Served.FixedPropertiesAreServed | main.cpp:519-619 | every mapped point is served as not out of service, with degrees Celsius or normal polarity and its own relinquish default |
| Served.OtherNamesServeNothing | main.cpp:484-619 | a name of no mapped point serves no value but the Network Port's mode and that it is not out of service |
| Callbacks.SetPropertyReal | main.cpp:767-791 | a setpoint command inside the register's range takes its slot; anything else is refused and changes nothing |
| Callbacks.SetPropertyEnumerated | main.cpp:793-814 | an enable command of 0 or 1 takes its slot; anything else is refused and changes nothing |
| Callbacks.SetPropertyNull | main.cpp:816-832 | relinquishes one slot of a commandable point |
| Modes.ModesAreBisimilar | main.cpp:275-299 | any sequence of calls on mapped points and of passes gives equal results in the two gateway modes, with each point called by its name in that mode, and leaves equal slaves |
| Values.ReachableValuesFit | main.cpp:454-460 | every winner that can be reached fits its register, no slot ever holds what is no number, enable slots and coils hold only 0 and 1 |
| Values.ServedWinnerIsWinner | main.cpp:328-338 | in every reachable state, resolving the sixteen slots as the Get callbacks serve them gives the value that the gateway writes to the slave |
| Tags.UnsignedRoundTrip | wiretest/codec.py:233-237 | the shortest big-endian form of an unsigned of up to 32 bits is read back |
| Tags.ReadPrimitive | wiretest/codec.py:574-600 | a primitive of up to 253 octets is read with its own tag number, class, octets and end |
| TagForms.ReadAnyPrimitive | wiretest/codec.py:574-600 | a primitive in every form that clause 20.2.1 has, with tag numbers up to 254 and lengths up to 32 bits, is read with its own tag number, class, octets and end |
| TagForms.ReadAnyConstructed | wiretest/codec.py:574-588 | opening and closing tags with numbers up to 254 are read |
| TagForms.EncodersAgree | wiretest/codec.py:229-275 | the tags that the encoders write are those forms |
| Tags.BalancedIsSkipped | wiretest/codec.py:622-630 | whatever counts depth passes over any balanced stream without a change of depth |
| Tags.MatchingCloseIsFound | wiretest/codec.py:773-780 | counting depth stops at exactly the closing tag that matches, for any balanced nested content, and what was passed is that content |
| Apdu.SkipToClose | wiretest/codec.py:770-780 | the depth-counting loop finds what the specification finds, or fails as it does |
| Apdu.ParseWritePropertyRequest | wiretest/codec.py:752-786 | the parser with its loop is the specification's parser on all octets, malformed ones included |
| Apdu.FindPropertyValue | wiretest/codec.py:614-631 | the two nested loops find the content of the first constructed [3] |
| Apdu.WritePropertyRoundTrip | wiretest/codec.py:308-318 | every in-range WriteProperty request, with or without index and priority and with any balanced value, is parsed to exactly its fields |
| Apdu.ReadPropertyRoundTrip | wiretest/codec.py:634-643 | every in-range ReadProperty request is parsed to its object and property |
| Apdu.ReadPropertyAckRoundTrip | wiretest/codec.py:330-333 | the value octets come out of a ReadProperty-ACK whatever is nested in them |
| Apdu.ErrorRoundTrip | wiretest/codec.py:744-749 | class and code come out of an Error PDU |
| Parsers.CutWritesAreRefused | wiretest/codec.py:752-786 | a WriteProperty request that is cut anywhere before the end of its value is parsed to nothing, and no exception reaches the caller |
| Parsers.CutReadsAreRefused | wiretest/codec.py:634-643 | so is a ReadProperty request that is cut before its property identifier |
| Parsers.OnlyWritePropertyIsParsed | wiretest/codec.py:756-757 | no other PDU type or service is parsed as a WriteProperty request |
| Parsers.OnlyTagTwoIsAnIndex | wiretest/codec.py:765-768 | after the property, a primitive with tag number 2 is the array index and any other is left where it is |
| Parsers.OnlyWholeIdentifiersAreParsed | wiretest/codec.py:634-643 | an object identifier that has not four octets makes either parser answer nothing |
| Parsers.ApplicationValuesAreAll | wiretest/codec.py:646-654 | of every balanced stream, the application-tagged primitives are listed in order, however deep they are nested, and nothing else |
| KnownOctets.ReadPropertyOctets | wiretest/codec.py:296-333 | requests and an acknowledgement octet by octet |
| KnownOctets.WritePropertyOctets | wiretest/codec.py:308-338 | a request with its priority, an acknowledgement and an error octet by octet |
| TimeStamps.PassConstructed | wiretest/alarm.py:123-129 | the depth-counting loop ends just after the matching closing tag, or fails as the specification does |
| TimeStamps.TimeStampRoundTrip | wiretest/alarm.py:69-73 | a dateTime stamp is read back exactly, and reading it ends where skipping it would |
| TimeStamps.OtherFormsArePassed | wiretest/alarm.py:132-142 | any other constructed form is passed over whole and gives no stamp |
| TimeStamps.PrimitiveFormsArePassed | wiretest/alarm.py:132-142 | a primitive form gives no stamp either, and reading it ends where skipping it would |
| Frames.ReceivedFrame.Decode | wiretest/codec.py:472-508 | the decoder that fills the object field by field is the specification's decoder, and fails on the same octets |
| Frames.FrameRoundTrip | wiretest/codec.py:204-226 | decoding gives back every address, flag, message type and payload encoded, exactly when the message type is not a vendor's or nothing follows it |
| Frames.FrameIsDecoded | wiretest/codec.py:162-226 | what decoding makes of any encoded frame, forwarded ones included, also with a vendor's message type |
| Frames.OtherMessagesAreDecoded | wiretest/codec.py:473-478 | every other BVLL function is decoded to itself and its data, and carries no NPDU |
| KnownOctets.NpduOctets | wiretest/codec.py:204-226 | a routed request and a network layer message octet by octet |
| KnownOctets.BvllOctets | wiretest/codec.py:162-175 | a broadcast and a forwarded message octet by octet |
| CppDecoder.DecodeTagHeader | common/CASExampleHelper.cpp:1234-1292 | on all octets the C++ tag header agrees with the Python tag, and it refuses only truncated tags and application tags with an invalid length field |
| CppDecoder.DecodeObjectAndProperty | common/CASExampleHelper.cpp:1346-1390 | object, property and index are reported exactly where they stand as context fields inside the buffer, with the Python tag reader's values |
| CppDecoder.DecodeBacnetFrame | common/CASExampleHelper.cpp:1394-1560 | on all octets: an APDU of protocol version 1 is reached exactly where the Python decoder finds one, and then addresses, PDU type, invoke id, service, reason, object, property and index agree |
| CppDecoder.ReferenceMatchesParser | common/CASExampleHelper.cpp:1346-1390 | on any octets, a reference or an index that the C++ side reports is what the Python parser reads |
| CppDecoder.RequestsAreRecovered | common/CASExampleHelper.cpp:1346-1390 | from every encoded ReadProperty or WriteProperty request, however routed, the C++ side recovers addresses, invoke id, service, object, property and index |
| CppDecoder.AcknowledgementsAreRecovered | common/CASExampleHelper.cpp:1506-1524 | from every encoded ReadProperty-ACK the C++ side recovers invoke id, service, object and property |
| CppDecoder.SegmentedServiceIsReported | common/CASExampleHelper.cpp:1470-1524 | of a segmented request or acknowledgement it reports the service after the sequence number and window size, and the reference after that |
| AccessSpecs.ReadAccessSpecifications | wiretest/codec.py:667-682 | the loop over the tags fills the dictionary that the specification fills |
| AccessSpecs.AccessSpecificationsRoundTrip | wiretest/codec.py:353-358 | a list of specifications is read back in order, four-octet property ids included, exactly when no object is specified twice |
| AccessSpecs.SpecsAreMerged | wiretest/codec.py:667-682 | where an object is specified twice, the later specification replaces the earlier one in its place |
| KnownOctets.ReadPropertyMultipleOctets | wiretest/codec.py:353-358 | a request with one specification of two properties, octet by octet |
| Parsers.StraysArePassed | wiretest/codec.py:674-681 | while no object is current, all but a context tag 0 of four octets is passed over; while one is, all but context tags 0 and the closing tag 1 |
| BitString.ApplicationBitString | wiretest/codec.py:374-381 | the loop that sets bits in the octets builds the specification's encoding |
| BitString.BitStringRoundTrip | wiretest/codec.py:710-715 | every bit string of up to 24 bits is decoded to its own bits in order |
| BitString.OnlyBitStringsAreDecoded | wiretest/codec.py:692-715 | no context-tagged primitive and no primitive with another tag number is decoded as a bit string |
| BitString.ConstructedIsNoBitString | wiretest/codec.py:692-695 | nor is an opening or a closing tag |
| BitString.UnusedBitsAreDropped | wiretest/codec.py:710-715 | of every body, as many bits are dropped at the end as its first octet says, also when that is more than there are |
| Server.SimulatedServer.AnswerApdu | wiretest/peer.py:217-278 | one APDU has the specification's effect on objects, bookkeeping and counters, and its reply |
| Server.SimulatedServer.Serve | wiretest/peer.py:87-95 | the same for one datagram, from its frame to the frame sent back |
| ServerMap.ServerIsMap | wiretest/peer.py:217-278 | for any run of encoded ReadProperty and WriteProperty requests, the mode being changed at any time in between, the decoded replies are the answers of a plain map, with the requests' invoke ids, sent to the requests' SNET and SADR; an offline server sends nothing; and the server ends with the map's content, having noted and counted the requests that it should |
| ServerMap.DatagramIsAnswered | wiretest/peer.py:138-143 | one request to a server that is not offline: the map's answer, the reply's routing and the notes taken |
| ServerHistory.ServerKeepsWhatItAccepts | wiretest/peer.py:217-278 | from the replies alone, in any run of requests and changes of mode: a write is acknowledged if and only if the object is listed, the server online and the property listed or named as writable, else refused with the class and code for it; a read shows the encoded value of the last acknowledged write to exactly that object and property, else what it held at first, else unknown-property; the Device object answers with its name and identifier; an offline server says nothing |
| ServerMap.OfflineIsSilent | wiretest/peer.py:225-230 | whatever the datagram, an offline server sends and stores nothing; it counts exactly the confirmed ReadProperty, ReadPropertyMultiple and WriteProperty requests and notes every write that it can parse |
| ServerMap.MultipleServesTheTable | wiretest/peer.py:249-258 | for every list, ReadPropertyMultiple answers from the same table for the objects and properties that were encoded, of an object specified again for the later specification; the request is noted and nothing else changes |
| MultipleAnswers.MultipleIsUnderstood | wiretest/codec.py:410-425 | a reader of clause 15.7's grammar finds in the acknowledgement, for every list, object by object and property by property, the values that the table holds, or unknown-property |
| KnownOctets.ResultOctets | wiretest/codec.py:410-425 | one result and one error octet by octet |
| Discovery.WhoIsFindsTheDevice | wiretest/peer.py:123-128 | a Who-Is with limits or without, over any route, is answered if and only if the instance is within the limits, and the client reads instance, maximum length, segmentation and vendor out of the I-Am that comes back to its SNET and SADR |
| Discovery.OtherCountsDoNotLimit | wiretest/peer.py:123-128 | a Who-Is with other than two primitives is answered as if it had no limits |
| KnownOctets.DiscoveryOctets | wiretest/codec.py:340-350 | Who-Is and I-Am octet by octet |
| KnownOctets.ReplyOctets | wiretest/peer.py:138-143 | a routed reply octet by octet, hop count included |
| RoundRobin.Receiver.ReceiveMessage | common/CASExampleHelper.cpp:131-157 | the loop over the bound sockets takes what the specification takes and leaves the same turn |
| RoundRobin.NoSocketStarves | common/CASExampleHelper.cpp:131-157 | with n sockets, the datagram at any depth k of any bound socket's queue is taken within n * (k + 1) calls, in the order in which they came, and delivered if it has octets, as many of them as the buffer holds, whatever arrives meanwhile and whatever the others hold |
| RoundRobin.IdleCallsRotate | common/CASExampleHelper.cpp:151-157 | while nothing arrives, every call begins one socket further on |
| RoundRobin.UnboundIsLeft | common/CASExampleHelper.cpp:139-143 | over any run, nothing is taken from a socket that is not bound |
| RoundRobin.EmptyDatagramsArePassed | common/CASExampleHelper.cpp:148-156 | a call never delivers an empty datagram, and delivers nothing only if no waiting socket has octets first |
| Restart.DeferredRestart.RequestRestart | common/CASExampleHelper.cpp:1833-1851 | keeps the earliest deadline and lets Cold prevail |
| Restart.DeferredRestart.RestartDue | common/CASExampleHelper.cpp:1853-1863 | reports a restart once it is due, and only once |
| Restart.RestartFiresOncePerBatch | common/CASExampleHelper.cpp:1833-1863 | over any interleaving, a check reports a restart exactly when an unanswered request has reached its deadline, as Cold exactly when an unanswered one was Cold, and that answers all of them |

## Left out

- The CAS BACnet Stack is not part of this model. Of it, one flag for each virtual device (whether it is discoverable)
  and a count of I-Ams remain, and enabling or disabling a service is taken to succeed (`main.cpp:906-931`).
- Frames.ReceivedFrame.Decode: an exception leaves the object half filled; the model says only that it was raised.
- CppDecoder.DecodeBacnetFrame: the struct that the source fills through a pointer is returned as a value, a pointer
  into the frame stands as the octets it points at, and the function is cut into one method for each part of a frame.
  Offsets are unbounded integers; callers pass lengths of 16 bits, so the source's 32-bit sums do not wrap.
- Convergence.OutputsConverge: the output is not changed at the device meanwhile, since the gateway never reads outputs
  back; the module LocalChanges says what happens otherwise.
- WriteThrough.WriteThroughIsSafe: the same holds here.
- ServerMap.ServerIsMap: stored values are balanced streams of octets of at most 60000, so that a reply fits a datagram.
- Server.SimulatedServer.AnswerApdu: values served by a callable and the `check_write` and `on_write` that a subclass
  may override are not modelled: stored values are octets, and the base class's own two methods are used. The repository
  has no decoder for a ReadPropertyMultiple-ACK; the reader in MultipleAnswers is the standard's.
- Server.SimulatedServer.Serve: the two lists that every received frame is appended to are not modelled.
- Rounding of IEEE doubles and the cast to float when the temperature is served: arithmetic is on reals.
- `SlaveName` strings, octet strings, the other Network Port properties and DeviceCommunicationControl: single lookups.
- The text commands of `simulation/SimulationControl.cpp`: their effects are events of a run.
- The fields of an event notification other than its time stamp (`wiretest/alarm.py:149-199`): the repository only reads
  them.
- Strings of 254 octets or more, bit strings over 24 bits and tag numbers over 14 in the encoders: they do not write
  them.
- The other types that `decode_application` decodes: `BitString` says None for whatever is no bit string.
- Sockets, threads, logging, XML and summary output, name tables, argument parsing and the test scripts.
