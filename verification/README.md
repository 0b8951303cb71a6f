# Verified model of the Vento fan controller

The repository drives Blauberg Vento fans over a small UDP protocol (vendor document B133-4-1EN-02). It holds a
client in Rust, a fan simulator and a desktop application in Python, a web dashboard, and a mobile application in
C++. This project models the parts that decide something and proves what they promise, in Dafny 4.11.
`dafny verify dfyconfig.toml` checks everything.

| part | files |
|---|---|
| bytes, codes, results; the parameter table | `Basics.dfy`, `Params.dfy` |
| packet framing, checksum, header; the documented packets | `Frame.dfy`, `SpecPackets.dfy` |
| data section: encoders, the response decoder, the write and read decoders, the trace tool | `Section.dfy`, `Decoders.dfy`, `SectionLaws.dfy` |
| the language of data sections | `Grammar.dfy` |
| integers, decimal ids, IP text | `Values.dfy`, `Decimal.dfy` |
| simulated fan and fleet, as values and as objects; the main loop | `FanSpec.dfy`, `Fleet.dfy`, `MainLoop.dfy`, `Simulator.dfy`, `Ramp.dfy` |
| what ticks, steps and a new fan tell | `Ticks.dfy`, `Nudges.dfy`, `FreshFans.dfy` |
| what one packet's writes do, and when their order matters | `Writes.dfy` |
| client operations, validated commands, the decoded state, the state poll, discovery | `Client.dfy`, `Commands.dfy`, `States.dfy`, `Polling.dfy`, `LongNames.dfy`, `Discovery.dfy` |
| what each command accepts and does | `Refusals.dfy`, `Readings.dfy`, `Effects.dfy`, `Untold.dfy` |
| runs of a whole simulator from its construction on | `FleetRuns.dfy` |
| scenarios: capture, choice of settings, apply, the two application routes | `ScenarioData.dfy`, `Scenes.dfy`, `SceneEffects.dfy`, `SceneChoice.dfy`, `Routes.dfy` |
| the dashboard's connection hand-over and broadcasts | `HandOver.dfy`, `Broadcasts.dfy` |
| scenario stores and version 1 migration | `StoreSpec.dfy`, `SlotLaws.dfy`, `Stores.dfy`, `Migration.dfy` |
| device histories | `HistorySpec.dfy`, `Histories.dfy` |

## How the model is built

Loops and objects of the source are methods and classes here (`BuildPacket`, `ParseDataBytes`, `ParseWriteData`,
`SimDevice`, `VentoFanSim`, `GetState`, `ScenarioStore`, `DeviceHistory` and others). Each is proved equal to a function
on values, and the theorems are about those functions. Decoders are specified by a recursion on the bytes still
ahead, independent of the index arithmetic of the loops.

The central theorem is `Client.RunRefinesDirect`: for every run of reads, writes, writes with response, increments
and decrements by any clients, with passes of the simulator's main loop anywhere between them, sending each through build,
dispatch, handle and parse gives the same fans and the same answers as applying it directly to the map of the addressed
fan. `Simulator` and `Polling.Send` tie the objects
to the functions in that theorem.

What the functions do is stated apart from them: a command by the state the fan decodes to before and after
(`Effects.CommandsTakeEffect`, and through the wire `CommandThenPoll`), a step by the nearest number the table allows
(`Nudges.StepMoves`), a tick by what the fan tells after it (`Ticks.TickReads`), the sections by a grammar
(`Grammar.ClientReadsMeaning`, `EverythingIsASection`), the manager by the steps of its run alone
(`Broadcasts.EveryFetchIsTold`, `ErrorsAreToldExactly`), the slots by the fate of the scenario they name
(`SlotLaws.SlotFollowsScenario`).

Bytes are integers 0..255, codes 0..65535. Truncating casts are written out (`% 256`, `ToBytes`). An index or shift
panic of the Rust code is the outcome `Err(Crash)`. A Python exception is a run with `ok == false`, which keeps the
state the fan had reached. The wall clock, the uptime, jitter, humidity noise and time steps are parameters. Speeds
and humidity are real numbers.

The network is a function application: a request reaches the simulator at once, and a missing reply is the client's
connection error. The Python protocol package is not part of this model. The packet builder, the checksum test and the
header parse that the simulator takes from it are modelled by their Rust ports, and the dashboard's client by the Rust
client. The ranges of the simulator's increments come from that package too, so they are the parameter `NudgeTable`.
Where safety depends on them, `StepsSpeed` says that the speed steps among 1, 2 and 3.

## What the proofs found

- `SectionLaws.DecodersSplit`, `DecodersAgree`: a data section ending in the unsupported marker with size 0
  (`FE 00 FD`) is an empty answer to the client, but a write of an empty value to the simulator. The two decoders
  differ on exactly such endings.
- `Polling.PollIsComplete`, `LongNames.LongNameLosesPoll`: a network name of 190 bytes or more is accepted and sent,
  and from then on every full poll of that fan times out, since the answer no longer fits in a packet.
- `SceneChoice.OtherFansScene`, `RoutesAgreeExactly`: a scenario saved from one fan and applied while connected to another
  does nothing in the native application, which looks for an entry of the connected device. The dashboard falls back to
  the first entry and makes the connected fan like the other one.
- `SceneChoice.RoutesAgreeExactly`, `Scenes.CaptureThenApplyWeb`: the dashboard applies a captured manual speed of 1, 2 or
  3 as a preset. On a fan with a long network name it applies the power only, because the poll after each command fails.
- `Client.EmptyPowerEndsSimulator`: one write of a power value without bytes makes the next tick raise. Ticks run outside
  the main loop's error handling, so the simulator ends and no fan answers any more.
- `Client.EmptyModeEndsSimulator`: so does a write of an operation mode without bytes, which no tick reads: the status
  lines read it, and they are printed outside the error handling too. `FleetRuns.SafeStatusGoesOn`: after validated
  commands alone no status line ends the loop.
- `SceneEffects.NativeSettingsTakeEffect`, `WebSettingsTakeEffect`: of a stored number outside a byte the native
  application applies the low byte, while the dashboard stops at it and leaves out all settings behind it.
- `Broadcasts.DisconnectSilences`: between a disconnect and the start of its stop task a poll may still broadcast a state;
  nothing is told after that.
- `Fleet.DiscoveryAnswersOncePerFan`, `Discovery.LongNameSilencesRest`: a fan whose answer to a discovery exceeds a packet
  silences every fan behind it. The client's own discovery always fits.
- `HandOver.PollingSurvivesExactly`, `OvertakingRunLeavesTwoPolls`: a disconnect stops polling in a task of its own. A
  connect that finishes before that task leaves the new connection without polling, or two poll tasks at once. Such a
  run needs the cancelled poll task to outlast the fetch of the new connect.
- `StoreSpec.RenameEvictsExactly`, `RenameEmptiesSlots`: a rename evicts another scenario when a migration left more
  than ten, and always empties the renamed scenario's quick slots.
- `StoreSpec.RenamesAgreeExactly`: the mobile rename accepts the scenario's own name and the empty name, where the
  dashboard changes nothing.
- `Migration.NamesDistinctExactly`, `MigrationCanCollide`: the suffix that avoids name collisions is tried once and
  never checked, so a name repeated twice under ids with the same last four characters still collides.
- `Decimal.SimIdShape`, `Client.NewFleetIsReachable`: the simulator documents ids of always 16 characters; they have 16 exactly while the number
  fits the digits left by the prefix.
- `Writes.OrderMattersExactly`, `RaisingOrderShows`: the order of one packet's writes shows when a reset meets a different
  direct write of what it resets, and also when a power toggle raises on an empty power value, which cuts off the writes
  behind it; in no other case.

## Model

| member | source | states |
|---|---|---|
| `Params.ParamAddrIsPlain` | arabella_mobile/protocol/src/param.rs:53-105 | No parameter's low byte is one of the four control bytes, so every parameter can be encoded unambiguously. |
| `Frame.BuildPacket` | arabella_mobile/protocol/src/packet.rs:49-76 | The pushed bytes are the frame of the fields, or the protocol error for a bad id, a bad password or a packet over 256 bytes. |
| `Frame.ChecksumIsExactSum` | arabella_mobile/protocol/src/packet.rs:39-76 | In every packet that can be built the payload has at most 252 bytes, so the 16-bit checksum is the exact sum and the mask never acts. |
| `Frame.FrameRoundTrip` | arabella_mobile/protocol/src/packet.rs:143-186 | Every packet built verifies and parses back to its id, password, function and data. |
| `Frame.SingleByteCorruptionIsCaught` | arabella_mobile/protocol/src/packet.rs:143-195 | In every accepted response, changing any one byte to any other value is refused: as a protocol error in the start marker, as a checksum error anywhere else. |
| `Frame.ResponseSectionOfFramed` | arabella_mobile/protocol/src/packet.rs:165-195 | The client extracts exactly the data of a framed response, and refuses a framed packet with any other function byte. |
| `Frame.AcceptedIsFramed` | arabella_mobile/protocol/src/packet.rs:143-195 | Only built packets are accepted: any response of at most 256 bytes that the client takes, under credentials a packet can carry, is the frame of its parts. |
| `SpecPackets.RequestIsAsDocumented` | arabella_mobile/protocol/src/packet.rs:406-446 | Asking for power and speed builds the documented request byte for byte. |
| `SpecPackets.ResponseIsAsDocumented` | arabella_mobile/protocol/src/packet.rs:417-486 | The documented response is built from its values and read back as them. |
| `SpecPackets.SectionsAreAsDocumented` | arabella_mobile/protocol/src/packet.rs:462-512 | The documented page switch, size and unsupported marker are written and read as documented. |
| `SpecPackets.AddressIsAsDocumented` | arabella_mobile/protocol/src/packet.rs:514-522 | The documented address is printed and parsed as documented. |
| `Section.BuildReadData` | arabella_mobile/protocol/src/packet.rs:78-91 | The loop with its page variable yields the recursive read encoding of the parameter list. |
| `Section.BuildWriteData` | arabella_mobile/protocol/src/packet.rs:93-112 | The loop with page switches and one-shot sizes yields the recursive encoding of the value list. |
| `Section.BuildResponseData` | ventocontrol/simulator.py:137-160 | The simulator's response loop yields the encoding of values for held codes and unsupported markers for the others, in request order. |
| `Section.ParseDataBytes` | arabella_mobile/protocol/src/packet.rs:197-255 | On every byte string the loop gives the specified map, the unsupported codes in order, a protocol error for a truncated value, or the crash outcome where it indexes past the end. |
| `Decoders.ParseReadRequestData` | ventocontrol/simulator.py:78-96 | On every byte string the loop terminates in bounds with the codes of the recursive reading. |
| `Decoders.ParseWriteData` | ventocontrol/simulator.py:99-134 | On every byte string the loop terminates in bounds with the dictionary, in order of first mention, of the recursive reading. |
| `Decoders.DecodeDataSection` | tools/capture_packets.py:109-165 | On every byte string the trace loop lists the items of the recursive reading, or raises where that one does. |
| `Decoders.DictIsLastWins` | ventocontrol/simulator.py:99-134 | Repeated dictionary insertion keeps one entry per code, each from the list, and is the last-wins map. |
| `SectionLaws.WalkEncoded` | arabella_mobile/protocol/src/packet.rs:93-255 | From any starting page the response decoder recovers any item list from its encoding, values up to 255 bytes and unsupported markers included: the two page and size machines stay in step. |
| `SectionLaws.ReadRoundTrip` | ventocontrol/simulator.py:78-96 | The simulator recovers the exact code list, order and repetitions included, from the client's read encoding. |
| `SectionLaws.WriteWalkEncoded` | ventocontrol/simulator.py:99-134 | The simulator recovers every write entry by entry, from any starting page. |
| `SectionLaws.WriteRoundTrip` | arabella_mobile/protocol/src/packet.rs:93-112 | Client and simulator decoders both recover the last-wins map of every write list. |
| `SectionLaws.ResponseRoundTrip` | ventocontrol/simulator.py:137-160 | Decoding a response gives the state restricted to the requested codes when all are held, and otherwise fails with exactly the unheld ones in request order. |
| `SectionLaws.UnheldIsEmpty` | ventocontrol/simulator.py:137-160 | The list of unsupported codes is empty exactly when every requested code is held. |
| `SectionLaws.TraceAgrees` | tools/capture_packets.py:109-165 | On arbitrary bytes the trace tool lists the client decoder's items, and what it does at the end follows from how the client decoder ends. |
| `SectionLaws.WriteAgrees` | ventocontrol/simulator.py:99-134 | On arbitrary bytes without an unsupported item, the write decoder reads the client decoder's values, plus one empty value exactly for an empty marker at the end. |
| `SectionLaws.DecodersAgree` | arabella_mobile/protocol/src/packet.rs:197-255 | Whenever the client decoder accepts, the write decoder gives the same map if and only if the data does not end in an empty marker; the trace tool always lists the same items. |
| `SectionLaws.DecodersSplit` | ventocontrol/simulator.py:99-134 | The bytes FE 00 FD are an empty answer to the client and an empty write of code FD to the simulator. |
| `Grammar.EverythingIsASection` | arabella_mobile/protocol/src/packet.rs:197-255 | Every byte string is a list of tokens (page switches, skipped function bytes, values with and without a size, unsupported markers) and one of nine ends. |
| `Grammar.ClientReadsMeaning` | arabella_mobile/protocol/src/packet.rs:197-255 | The client reads every such list as what its tokens say under the sticky page, and stops as its end demands. |
| `Grammar.ClientVerdict` | arabella_mobile/protocol/src/packet.rs:197-255 | On every byte string: the crash outcome exactly for a control byte without its operand, a protocol error exactly for a value cut short, otherwise the unsupported codes or the last-wins map. |
| `Grammar.SimulatorReadsMeaning` | ventocontrol/simulator.py:99-134 | The simulator's write decoder reads every section without unsupported markers as the same values, plus one empty value for an empty marker at the end. |
| `Grammar.RequestIsRead` | ventocontrol/simulator.py:78-96 | The read decoder lists what a request asks for, page switches and skipped function bytes included. |
| `Grammar.EverythingIsARequest` | ventocontrol/simulator.py:78-96 | Every byte string is such a request. |
| `Values.IntRoundTrip` | arabella_mobile/protocol/src/param.rs:253-262 | Little-endian decoding of an integer's bytes is the integer modulo 256 to the size, for every size. |
| `Values.ByteOfInt` | arabella_mobile/protocol/src/param.rs:253-262 | Byte i of the encoding is digit i of the number to base 256. |
| `Values.WriteParamFromInt` | arabella_mobile/protocol/src/param.rs:253-262 | The shift loop yields the value's little-endian digits, a protocol error for a parameter without a fixed size, and the crash outcome for a width over eight bytes. |
| `Values.FromIntDecodes` | arabella_mobile/protocol/src/param.rs:253-262 | An accepted integer write has the parameter's width and decodes to the value modulo 256 to that width. |
| `Values.EncodeIp` | arabella_mobile/protocol/src/packet.rs:277-289 | The split-and-parse loop accepts exactly four parts, each a number of at most 255, and yields their bytes. |
| `Values.IpRoundTrip` | arabella_mobile/protocol/src/packet.rs:267-289 | Printing any four bytes and parsing the text gives them back. |
| `Values.ReprintedIpIsSame` | arabella_mobile/protocol/src/packet.rs:267-289 | Whatever text is accepted as an address, its printed form parses to the same four bytes. |
| `Decimal.SimIdsDistinct` | ventocontrol/simulator.py:67-70 | Different indices get different ids under every prefix, however large the indices. |
| `Decimal.SimIdShape` | ventocontrol/simulator.py:67-70 | No simulated id is the discovery id, and it has 16 bytes if and only if its number fits the padding. |
| `FanSpec.HandleKeepsSound` | ventocontrol/simulator.py:387-488 | No packet data whatsoever makes a fan hold an unknown parameter or a value too long for a response. |
| `FanSpec.TickKeepsSound` | ventocontrol/simulator.py:329-381 | Nor does any tick, whatever is drawn and whether or not it raises. |
| `FreshFans.FreshTells` | ventocontrol/simulator.py:242-312 | A new fan tells the documented defaults: 180 days of filter, 60 % threshold, timers at 8 and 4 hours, firmware 1.2 of 6 March 2024, the network block, and power, speed, mode and humidity by its index. |
| `Nudges.StepMoves` | ventocontrol/simulator.py:490-509 | A step stores the number nearest to one more or one less that the table's row allows, at the row's width, reports it and changes nothing else; one that does not fit raises, changes nothing and is not answered. |
| `Nudges.StepIgnored` | ventocontrol/simulator.py:490-496 | A parameter the fan does not hold or the table does not list is reported and left alone. |
| `Nudges.StepBackExactly` | ventocontrol/simulator.py:409-421 | A step and the opposite one restore the fan if and only if it held an allowed number at the row's width that was not at the limit ahead, or was the only one allowed. |
| `Nudges.StepsAreOneJump` | ventocontrol/simulator.py:409-421 | However many steps in one direction are one jump as far, to the number so many ahead or the last allowed one. |
| `Nudges.StepsAreIndependent` | ventocontrol/simulator.py:409-421 | A packet that steps different parameters steps each as if it were alone, and is answered if and only if each alone would be. |
| `Ticks.TickTells` | ventocontrol/simulator.py:329-381 | After a tick that goes through, on any fan: both speeds and the humidity rounded down, the humidity nearest to the drawn one, its status 1 exactly at or above the threshold, the clock, and the uptime in whole minutes. |
| `Ticks.TickReads` | ventocontrol/simulator.py:329-381 | The state decoded after such a tick is the one before with exactly these fields changed. |
| `Ticks.PresetIsReached` | ventocontrol/simulator.py:335-361 | Left running long enough without jitter, a fan at preset 1, 2 or 3 turns at exactly 640/560, 1260/1100 or 1860/1640. |
| `Ticks.ManualIsReached` | ventocontrol/simulator.py:335-361 | Under a manual speed it turns at the whole parts of its share of 2000 and 1800. |
| `Ticks.FasterAimsHigher` | ventocontrol/simulator.py:340-346 | A higher preset or manual speed never aims lower on either fan; an unknown speed aims as preset 2. |
| `Simulator.SimDevice.constructor` | ventocontrol/simulator.py:242-312 | A new device is the fan value of its index variant. |
| `Simulator.SimDevice.WritePower` | ventocontrol/simulator.py:462-467 | The value 2 toggles the held power, raising on an empty one; any other value is stored. |
| `Simulator.SimDevice.WriteFactoryReset` | ventocontrol/simulator.py:476-481 | A factory reset restores speeds, humidity and the whole initial state of the variant, and keeps the identity. |
| `Simulator.SimDevice.ApplyWrites` | ventocontrol/simulator.py:445-460 | The loop over a packet's dictionary is the fold of the single writes up to the first that raises, with a factory reset taking precedence. |
| `Simulator.SimDevice.Nudge` | ventocontrol/simulator.py:490-509 | Increment and decrement step a held value within its table's range or choices, and leave anything else alone. |
| `Simulator.SimDevice.SendResponse` | ventocontrol/simulator.py:436-440 | The reply is the framed response for the requested codes, or none when it exceeds a packet. |
| `Simulator.SimDevice.Handle` | ventocontrol/simulator.py:387-430 | The object's handler does to its fan and answers what the fan value's handler specifies, for every function byte. |
| `Simulator.SimDevice.TickFans` | ventocontrol/simulator.py:335-352 | The two speeds and their reported bytes move as specified, up to the first step that raises. |
| `Simulator.SimDevice.Tick` | ventocontrol/simulator.py:329-381 | One tick moves fans, humidity, clock and uptime in that order, up to the first step that raises. |
| `Simulator.VentoFanSim.constructor` | ventocontrol/simulator.py:549-560 | The fleet holds `count` new fans in index order under the ids of their indices, all different, each found under its own id. |
| `Simulator.VentoFanSim.Dispatch` | ventocontrol/simulator.py:609-640 | Routing a datagram among the objects changes the fleet and answers as the fleet function specifies. |
| `Simulator.VentoFanSim.Discover` | ventocontrol/simulator.py:629-634 | A discovery changes nothing and is answered by the fans in order, up to the first response that cannot be built. |
| `Simulator.VentoFanSim.Route` | ventocontrol/simulator.py:636-640 | A directed packet is handled by the fan whose id it names, and by none when there is no such fan. |
| `Simulator.VentoFanSim.TickAll` | ventocontrol/simulator.py:584-590 | One round ticks the devices in order, each with its own draws; a raising tick ends the loop and leaves the later devices untouched. |
| `Simulator.SimDevice.PrintStatus` | ventocontrol/simulator.py:515-522 | A status line can be printed if and only if both reported speeds are held and five parameters have a first byte. |
| `Simulator.VentoFanSim.PrintAll` | ventocontrol/simulator.py:592-595 | The status lines go through if and only if every device's does. |
| `Simulator.VentoFanSim.Pass` | ventocontrol/simulator.py:584-595 | One pass of the loop ticks the devices, prints the status lines when due and all ticks succeeded, and ends the loop at the first exception. |
| `MainLoop.NoStatusEndsLoop` | ventocontrol/simulator.py:592-595 | One device that cannot print its status line ends the loop as soon as the lines are due. |
| `MainLoop.TickRaisesExactly` | ventocontrol/simulator.py:329-381 | A tick succeeds if and only if power, speed, manual speed and threshold hold a byte each, both new speeds pack into two bytes and so do the days of uptime. |
| `MainLoop.RoundsTouch` | ventocontrol/simulator.py:329-381 | However many passes of the loop are made, every fan keeps its identity and every parameter but the seven that ticks write. |
| `MainLoop.RoundExactly` | ventocontrol/simulator.py:584-595 | A pass ticks a device if and only if the loop runs and all devices before it ticked without error, and goes on if and only if all did and all status lines due can be printed. |
| `Fleet.DispatchIsAlone` | ventocontrol/simulator.py:609-640 | One packet leaves every fan as that packet alone would leave it, without a look at the other fans. |
| `Fleet.FleetIsolation` | ventocontrol/simulator.py:609-640 | After any packet sequence each fan is the fold of only the valid packets addressed to it. |
| `Fleet.DispatchKeepsSound` | ventocontrol/simulator.py:609-640 | Every packet keeps every fan of the fleet sound. |
| `Fleet.DiscoveryAnswersOncePerFan` | ventocontrol/simulator.py:629-634 | The fans answer in order up to the first whose answer exceeds a packet, so every fan answers exactly once if and only if every answer fits. |
| `Discovery.Collect` | arabella_mobile/protocol/src/client.rs:660-674 | The loop over the answers lists their devices in order, skips an answer that does not parse, and gives the crash outcome where decoding panics. |
| `Discovery.Discover` | arabella_mobile/protocol/src/client.rs:651-675 | A search of the simulator changes no fan and returns the devices told by at most the given number of answers. |
| `Discovery.DiscoveryFindsEveryFan` | arabella_mobile/protocol/src/packet.rs:134-137 | The client's own discovery of a fleet of safe fans changes none and finds each exactly once, in fleet order, with the id and type it holds. |
| `Discovery.FansStayDiscoverable` | arabella_mobile/protocol/src/client.rs:651-675 | After any run of commands and ticks from fresh a fan is told under its own id and type. |
| `Discovery.LongNameSilencesRest` | ventocontrol/simulator.py:629-634 | A fan with a network name of 225 bytes, asked for name and id, leaves the fan behind it unanswered although that one's answer fits. |
| `Discovery.OneAnswer` | arabella_mobile/protocol/src/client.rs:660-674 | An answer contributes its device, with an empty id or type 0 where it tells none, or nothing when it does not parse. |
| `Discovery.AnswersInOrder` | arabella_mobile/protocol/src/client.rs:660-674 | Answers contribute one after the other in the order they came. |
| `Ramp.RampApproaches` | ventocontrol/simulator.py:354-361 | Without jitter the distance to a fixed target is max(0, initial distance − 80 · total time), and the target is never crossed. |
| `Ramp.RampNeverNegative` | ventocontrol/simulator.py:354-361 | Speeds stay non-negative under arbitrary jitter and arbitrary time steps. |
| `Ramp.JitterDriftIsBounded` | ventocontrol/simulator.py:354-361 | Two speeds under the same target never drift apart by more than their initial distance plus the total jitter. |
| `Ramp.TicksFollowRamps` | ventocontrol/simulator.py:329-361 | Over every run of whole ticks both speeds follow the ramp of the fan's fixed controls, even when ticks raise. |
| `Ramp.SpinsDown` | ventocontrol/simulator.py:335-361 | A fan switched off has both speeds at max(0, start − 80 · total time) after any run of ticks. |
| `Ramp.RunsNearTarget` | ventocontrol/simulator.py:335-361 | A fan left running stays within the total jitter of its jitter-free approach to the targets. |
| `Writes.WritesArePointwise` | ventocontrol/simulator.py:445-474 | A packet's dictionary makes the fan a fresh one if it holds a factory reset; otherwise it gives each parameter the value of its last deciding write before the first that raises, judged on the state before the packet. |
| `Writes.OrderMattersExactly` | ventocontrol/simulator.py:445-474 | Every permutation of a packet's writes gives the same fan and outcome if and only if the packet resets the fan, or no two writes decide one parameter differently and, beside a toggle that raises, no write changes anything. |
| `Writes.OrderFreeWithoutConflict` | ventocontrol/simulator.py:445-474 | Any two orders of a packet give the same fan when it pairs no filter reset with the filter countdown or indicator and no alarm reset with the alarm status, provided no toggle raises or the other writes change nothing. |
| `Writes.RaisingOrderShows` | ventocontrol/simulator.py:462-467 | On an empty power value, toggling power and switching on boost leaves different fans in the two orders. |
| `Writes.DictOfDistinct` | ventocontrol/simulator.py:99-134 | The dictionary of writes to distinct parameters is the list itself, so the order laws speak about packets as sent. |
| `Writes.FactoryResetWins` | ventocontrol/simulator.py:445-488 | Any write list containing a factory reset yields the fresh fan, whatever the prior state and the other writes. |
| `Client.ReplyTellsState` | ventocontrol/simulator.py:436-440 | Building a fan's response and parsing it at the client tells the fan's state for the asked codes, its unsupported codes, or nothing when it does not fit. |
| `Client.ReplyIsAddressed` | ventocontrol/simulator.py:436-440 | Every answer of a fan is a valid packet in its own name with the response function. |
| `Client.HandleIsDirect` | ventocontrol/simulator.py:387-430 | A fan handling an encoded request changes and answers as the direct operation on its map does. |
| `Client.ExchangeRefinesDirect` | arabella_mobile/protocol/src/client.rs:242-278 | One operation through build, dispatch, handle and parse has the direct operation's result, changes the named fan alike and no other fan. |
| `Client.ExchangeWithNobody` | arabella_mobile/protocol/src/client.rs:242-278 | Addressed to no fan, it changes nothing; a plain write still reports success, everything else a connection error. |
| `Client.RunRefinesDirect` | arabella_mobile/protocol/src/client.rs:242-290 | Every run of operations by any clients, with passes of the main loop anywhere between, equals through frames the run of direct operations: same fans, same answers, toggles, resets, unsupported codes, oversized packets and an ended simulator included. |
| `Client.EmptyPowerEndsSimulator` | ventocontrol/simulator.py:584-590 | A write of a power value without bytes is accepted, and the next round of ticks ends the loop whatever is drawn. |
| `Client.EmptyModeEndsSimulator` | ventocontrol/simulator.py:592-595 | A write of an operation mode without bytes is accepted, and the next status lines end the loop whatever is drawn. |
| `Client.NewFleetIsReachable` | ventocontrol/simulator.py:549-560 | The fleet a simulator is built with meets the conditions of the refinement theorem if and only if it is empty or its largest number fits the digits the prefix leaves. |
| `Client.ExchangeAsDiscovery` | ventocontrol/simulator.py:629-634 | No operation of a client under the discovery id changes a fan. |
| `Client.BuiltWritesKeepSizes` | arabella_mobile/protocol/src/packet.rs:93-112 | No size byte of a write packet that can be built is a truncated length. |
| `Commands.CommandsAreSafe` | arabella_mobile/protocol/src/client.rs:294-647 | Whatever arguments a command is given, what passes its validation writes only values of declared width and range, and never the id or type. |
| `Commands.InitialIsSafe` | ventocontrol/simulator.py:262-312 | Every fresh fan holds all its parameters at their widths and in their ranges. |
| `Commands.CommandKeepsSafe` | arabella_mobile/protocol/src/client.rs:294-647 | A validated command or speed step on a safe fan leaves it safe. |
| `Commands.TickKeepsSafe` | ventocontrol/simulator.py:329-381 | So does every tick, under arbitrary draws, and whether or not it raises. |
| `Commands.SafeTickRaisesExactly` | ventocontrol/simulator.py:329-381 | A tick of a safe fan raises only for a speed or an uptime that does not pack into two bytes. |
| `Commands.FansStaySafe` | ventocontrol/simulator.py:262-509 | Over every run of commands, speed steps and ticks from a fresh fan no parameter is lost, widths hold, power is 0 or 1, speed 1, 2, 3 or 255, mode 0..2, threshold 40..80, humidity 30..95. |
| `Commands.SafePrintsStatus` | ventocontrol/simulator.py:515-522 | A safe fan can always print its status line. |
| `Refusals.RefusedExactly` | arabella_mobile/protocol/src/client.rs:294-647 | Every command is refused if and only if its arguments are outside what it documents: malformed addresses as a protocol error, everything else as a value error. |
| `Effects.CommandsTakeEffect` | arabella_mobile/protocol/src/client.rs:294-647 | Every accepted command that fits in a packet succeeds and makes a safe fan's decoded state the one before with the command's fields at its arguments, for every command: timers as hours and minutes, toggle as the opposite power, resets as 180 days and no alarm, the network block, the clock, the factory reset. |
| `Effects.SpeedStepsTakeEffect` | arabella_mobile/protocol/src/client.rs:321-327 | A speed step reports and stores the nearest allowed speed to one more or less, and changes nothing else. |
| `Effects.CommandThenPoll` | arabella_mobile/protocol/src/client.rs:242-290 | Through the wire: the state polled after a command is the one before it with the command's fields set, unless the network name is now too long to be polled. |
| `Untold.UntoldParameters` | arabella_mobile/protocol/src/client.rs:422-640 | The parameters no poll asks for: a command stores its schedule period, password or request there, and leaves every other as it was; only a factory reset forgets them. |
| `FleetRuns.FleetStaysSafe` | ventocontrol/simulator.py:549-640 | Whatever validated commands any clients send through frames to a new simulator, with passes of its loop anywhere between, every fan stays safe and the fleet reachable, and each keeps the id and type it was built with. |
| `FleetRuns.FleetStaysDiscoverable` | arabella_mobile/protocol/src/client.rs:651-675 | After every such run a discovery through frames finds each fan exactly once, in fleet order, under the id and type it was built with. |
| `FleetRuns.SafeStatusGoesOn` | ventocontrol/simulator.py:592-595 | For a fleet of safe fans a pass ends the loop only where its ticks alone would. |
| `Polling.ParseResponse` | arabella_mobile/protocol/src/packet.rs:191-195 | The response loop on a datagram is what the client makes of a first reply. |
| `Polling.Send` | arabella_mobile/protocol/src/client.rs:242-278 | One client operation run on the simulator's objects is the exchange that the refinement theorem is about. |
| `Polling.ReadKeepsFleet` | ventocontrol/simulator.py:393-396 | A read changes no fan, whoever it reaches. |
| `Polling.GetState` | arabella_mobile/protocol/src/client.rs:280-290 | The poll loop changes no fan and returns the state decoded from the merged group answers, skipping unsupported groups, stopping at any other error, and with the crash outcome where an integer decode panics. |
| `Polling.PollAlone` | arabella_mobile/protocol/src/client.rs:280-290 | Polling one fan of a fleet gives what polling it alone gives. |
| `Polling.PollIsComplete` | arabella_mobile/protocol/src/client.rs:280-290 | A poll of a safe fan returns every parameter it holds from the start if the network name has at most 189 bytes, and a connection error otherwise. |
| `Polling.PollExactly` | arabella_mobile/protocol/src/client.rs:280-290 | A poll of any fan, whatever it holds, brings exactly the groups it holds completely, and is a connection error if and only if some group's answer does not fit in a packet. |
| `Polling.PolledStateDecodes` | arabella_mobile/protocol/src/client.rs:98-204 | Whenever a poll of a safe fan succeeds it decodes, and every field of the state, the network block included, tells the parameter behind it. |
| `Polling.PollThroughTicks` | arabella_mobile/protocol/src/client.rs:280-290 | With passes of the main loop between the four reads a poll of a safe fan succeeds if and only if the loop goes on and the network name has at most 189 bytes; it brings each group as its read found it, and that mixture decodes with no field missing. |
| `States.CompleteStateDecodes` | arabella_mobile/protocol/src/client.rs:98-204 | Any complete set of parameters at their declared widths decodes to the state that tells each field from its parameter. |
| `States.SwitchesPresentExactly` | arabella_mobile/protocol/src/client.rs:98-204 | A switch or a two-byte number is missing from the decoded state if and only if its parameter is. |
| `States.NumbersPresentExactly` | arabella_mobile/protocol/src/client.rs:98-204 | So is a one-byte number. |
| `States.RecordsPresentExactly` | arabella_mobile/protocol/src/client.rs:98-204 | A time, date or counter is missing if and only if its parameter is or has the wrong size. |
| `States.NetworkDefaults` | arabella_mobile/protocol/src/client.rs:185-204 | The network block is there if and only if mode, name or address is, with encryption 52, channel 1 and DHCP on where they are missing. |
| `LongNames.LongNameLosesPoll` | arabella_mobile/protocol/src/client.rs:578-609 | Setting a network name succeeds whenever it fits in a packet, and the next poll fails if and only if the name is longer than 189 bytes. |
| `Scenes.CapturedValues` | arabella_mobile/viewmodel/ScenarioViewModel.cpp:41-58 | What is captured from a safe fan is exactly its seven settings. |
| `Scenes.CaptureThenApply` | arabella_mobile/viewmodel/ScenarioViewModel.cpp:110-119 | Applying what was captured from one safe fan to any other makes the carried settings equal, manual speed exactly in manual mode, and changes nothing else. |
| `Scenes.ApplyIsIdempotent` | arabella_mobile/viewmodel/ScenarioViewModel.cpp:110-119 | Applying the same scenario again changes nothing. |
| `Scenes.PollsExactly` | webdashboard/backend/device_manager.py:225-235 | The poll after a command succeeds on a safe fan if and only if its network name has at most 189 bytes. |
| `Scenes.CaptureThenApplyWeb` | webdashboard/backend/routers/scenarios.py:134-148 | Applying captured settings, the dashboard overlays them with a manual speed of 1, 2 or 3 as a preset, or applies the power only on a fan that cannot be polled. |
| `SceneEffects.NativeSettingsTakeEffect` | arabella_mobile/viewmodel/ScenarioViewModel.cpp:110-119 | Any settings at all: each one that is there and acceptable as a byte is set on a safe fan, whatever became of the others, and everything else it tells stays. |
| `SceneEffects.WebSettingsTakeEffect` | webdashboard/backend/routers/scenarios.py:134-148 | The dashboard sets them up to the first that its client refuses, and only the first on a fan that cannot be polled. |
| `SceneChoice.ChoicesRelate` | webdashboard/backend/routers/scenarios.py:127-132 | Under distinct names the native application chooses the dashboard's settings when the scenario has an entry for the device, and nothing otherwise. |
| `SceneChoice.WebChoiceIs` | webdashboard/backend/routers/scenarios.py:120-132 | The dashboard takes the first scenario of the name, there the device's first entry, else the first entry of all. |
| `SceneChoice.NativeChoiceIs` | arabella_mobile/viewmodel/ScenarioViewModel.cpp:60-72 | The native application takes the device's first entry in the first scenario of the name that has one. |
| `SceneChoice.NothingChosen` | webdashboard/backend/routers/scenarios.py:120-132 | Without the scenario, or with one that has no entry at all, neither application changes the fan. |
| `SceneChoice.NativeSceneResult` | arabella_mobile/viewmodel/ScenarioViewModel.cpp:60-72 | The native application overlays the captured settings if the scenario has an entry for the connected device, and otherwise leaves the fan alone. |
| `SceneChoice.WebSceneResult` | webdashboard/backend/routers/scenarios.py:127-148 | The dashboard overlays the chosen settings, from the connected device's entry or else the first one. |
| `SceneChoice.RoutesAgreeExactly` | webdashboard/backend/routers/scenarios.py:127-148 | For a store with distinct names, both applications leave the same fan if and only if: with an entry for the device, the settings are not manual mode at 1..3; without one, the fan already is as the dashboard would make it; on a fan that cannot be polled, it already has what the dashboard does not get to send, or without an entry the power it sends. |
| `SceneChoice.SavedSceneChoice` | arabella_mobile/viewmodel/ScenarioViewModel.cpp:41-58 | A scenario saved from one device is chosen by the dashboard for any device, and listed for the native application for that device only. |
| `SceneChoice.OtherFansScene` | arabella_mobile/viewmodel/ScenarioViewModel.cpp:60-72 | Applied while connected to another device it does nothing in the native application and overlays the connected fan in the dashboard. |
| `Routes.ApplySettings` | arabella_mobile/viewmodel/ScenarioViewModel.cpp:110-119 | Issuing the native commands one by one to the simulator is applying them all to the connected fan, each tried whatever became of the others. |
| `Routes.ApplyScene` | arabella_mobile/viewmodel/ScenarioViewModel.cpp:60-72 | The nested search by name and device id changes only the connected fan, as the native choice says. |
| `Routes.ApplyChosen` | webdashboard/backend/routers/scenarios.py:134-150 | The dashboard's commands, each followed by a poll and stopped by the first error, change only the connected fan, and the result tells whether all of them went through. |
| `Routes.ApplyScenario` | webdashboard/backend/routers/scenarios.py:111-150 | The dashboard's request by name chooses the settings, changes only the connected fan as the route function says, and replies not found, unprocessable, bad gateway or success exactly as the choice and the operations went. |
| `Routes.SceneIsRestored` | arabella_mobile/viewmodel/ScenarioViewModel.cpp:41-72 | A scenario saved under one id and applied natively under another leaves the fleet alone; under the same id it overlays the connected fan and leaves every other fan alone. |
| `HandOver.StepKeepsInv` | webdashboard/backend/device_manager.py:67-85 | Every step, cut at the awaits, keeps the hand-over invariant, provided no connect overtakes a pending stop. |
| `HandOver.SerialRunsAreSafe` | webdashboard/backend/device_manager.py:67-92 | In every serial run, polling interleaved anywhere, at most one poll task lives, it is the one on record, and the cached state came from the current client. |
| `HandOver.NoStaleBroadcast` | webdashboard/backend/device_manager.py:67-79 | From a completed connect until the next change of client every broadcast and every cached state came from that client; no poll begun for an older fan writes or sends. |
| `HandOver.FailedConnectChangesNothing` | webdashboard/backend/device_manager.py:67-79 | A failed connect, with any poll steps in between, leaves client and poll task unchanged and cancels nothing. |
| `HandOver.PollingSurvivesExactly` | webdashboard/backend/device_manager.py:67-85 | After a connect the new polling survives every pending stop if and only if no stop was pending. |
| `HandOver.OvertakingRunLeavesTwoPolls` | webdashboard/backend/device_manager.py:81-85 | A run in which the cancelled poll task outlasts the fetch of the next connect ends with two live poll tasks. |
| `Broadcasts.EveryFetchIsTold` | webdashboard/backend/device_manager.py:230-235 | In every run, whatever the interleaving, each state fetched by a poll or after a command is broadcast exactly once, in order. |
| `Broadcasts.CacheIsLastTold` | webdashboard/backend/device_manager.py:230-235 | As long as no connect returns and nobody disconnects, the cached state is the last one broadcast, or the one cached before when there was none. |
| `Broadcasts.DisconnectForgets` | webdashboard/backend/device_manager.py:81-85 | A disconnect forgets the cached state; afterwards there is one only if a poll still got through, and it is the last one broadcast. |
| `Broadcasts.ConnectCachesItsFetch` | webdashboard/backend/device_manager.py:67-79 | A connect that returns leaves its client and the state it fetched, however long it waited for the old poll task. |
| `Broadcasts.ErrorsAreToldExactly` | webdashboard/backend/device_manager.py:197-223 | In every run an error is broadcast if and only if a poll fails to connect for the fourth time in a row, fails otherwise, or its state cannot be broadcast. |
| `Broadcasts.DisconnectSilences` | webdashboard/backend/device_manager.py:81-85 | Once the stop task of a disconnect has started nothing is broadcast until a connect returns, and the manager stays disconnected throughout. |
| `Broadcasts.ConnectCanReturn` | webdashboard/backend/device_manager.py:188-195 | A connect that waits for the old poll task can always return as soon as that task has ended, and the task can always end. |
| `Broadcasts.StopCanFinish` | webdashboard/backend/device_manager.py:188-195 | So can every stop task. |
| `Broadcasts.PollCanGoOn` | webdashboard/backend/device_manager.py:197-223 | A poll task that is awake can always take a step, and one that begins a poll of a connected manager fetches through the current client. |
| `StoreSpec.RunKeepsIntact` | ventocontrol/scenarios.py:83-128 | Every run of saves, deletes, slot assignments and renames keeps names distinct and slots naming existing scenarios, and at most max(10, initial size) scenarios. |
| `StoreSpec.StoreIntegrity` | ventocontrol/scenarios.py:83-128 | From the empty store: distinct names, at most ten scenarios, every slot list reads as three slots and none names a missing scenario. |
| `StoreSpec.SurvivorsKeepOrder` | ventocontrol/scenarios.py:83-115 | Scenarios that survive a run keep their creation order. |
| `StoreSpec.RenameEvictsExactly` | webdashboard/backend/routers/scenarios.py:84-99 | A rename to a fresh name keeps every other scenario if and only if the store holds at most ten. |
| `StoreSpec.RenameOntoReplaces` | webdashboard/backend/routers/scenarios.py:84-99 | A rename onto another scenario's name replaces that one and evicts none. |
| `StoreSpec.RenameEmptiesSlots` | webdashboard/backend/routers/scenarios.py:84-99 | After a rename no slot names the old name any more. |
| `SlotLaws.DeleteSlots` | ventocontrol/scenarios.py:108-115 | Deleting a scenario empties exactly the slots that name it, as read by any device. |
| `SlotLaws.SaveSlots` | ventocontrol/scenarios.py:83-106 | Saving empties exactly the slots that name the evicted scenario, and none without an eviction. |
| `SlotLaws.RenameSlots` | webdashboard/backend/routers/scenarios.py:84-99 | Renaming empties exactly the slots that name the old name or an evicted scenario. |
| `SlotLaws.AssignedSlots` | ventocontrol/scenarios.py:117-128 | Assigning keeps the first three slots of the device in order, and every other device's. |
| `SlotLaws.SavedScenarios` | ventocontrol/scenarios.py:83-106 | After a save the store holds the saved scenario and all others but the one that gave way. |
| `SlotLaws.RenamedScenarios` | webdashboard/backend/routers/scenarios.py:84-99 | After a rename it holds the scenario under its new name and all others but the one replaced or evicted. |
| `SlotLaws.SlotFollowsScenario` | ventocontrol/scenarios.py:83-128 | Over every run that does not assign the device's slots, a slot keeps its scenario if and only if that scenario stays in the store throughout. |
| `StoreSpec.StoresAgree` | arabella_mobile/service/ScenarioStore.cpp:26-76 | The mobile store saves, deletes, assigns and reads slots as the desktop store does, empty strings for empty slots, while scenarios have names. |
| `StoreSpec.RenamesAgreeExactly` | arabella_mobile/viewmodel/ScenarioViewModel.cpp:97-108 | Mobile and dashboard renames agree if and only if the old name is absent, the new one is different and non-empty, or the scenario is renamed to its own name while last, in no slot and within the cap. |
| `Stores.EmptySlots` | ventocontrol/scenarios.py:108-115 | The nested loops empty exactly the slots that name the scenario gone. |
| `Stores.ReadSlots` | arabella_mobile/service/ScenarioStore.cpp:65-70 | A stored list reads as its first three slots, padded with blanks. |
| `Stores.ScenarioStore.SaveScenario` | ventocontrol/scenarios.py:83-106 | Saving overwrites in place by name, or appends, evicting the oldest at the cap and emptying its slots. |
| `Stores.ScenarioStore.DeleteScenario` | ventocontrol/scenarios.py:108-115 | Deleting removes every scenario of the name and empties its slots. |
| `Stores.ScenarioStore.GetQuickSlots` | ventocontrol/scenarios.py:117-123 | Reading slots of a device yields three, blanks where nothing is stored. |
| `Stores.ScenarioStore.SetQuickSlots` | ventocontrol/scenarios.py:125-129 | Assigning keeps the first three slots of the device and no other device's. |
| `Stores.ScenarioStore.UpdateScenario` | webdashboard/backend/routers/scenarios.py:84-99 | Renaming is deleting and saving under the new name, nothing for an absent, empty or equal name. |
| `Stores.NativeScenarioStore.SaveScenario` | arabella_mobile/service/ScenarioStore.cpp:26-51 | The mobile save, on its own slot representation. |
| `Stores.NativeScenarioStore.DeleteScenario` | arabella_mobile/service/ScenarioStore.cpp:53-63 | The mobile delete, on its own slot representation. |
| `Stores.NativeScenarioStore.RenameScenario` | arabella_mobile/viewmodel/ScenarioViewModel.cpp:97-108 | The mobile rename deletes and saves for any new name whatever. |
| `Migration.MigrateV1` | ventocontrol/scenarios.py:166-186 | The nested loops build the migrated list pair by pair and keep every device's slots. |
| `Migration.MigrationConserves` | ventocontrol/scenarios.py:166-186 | One scenario per device/scenario pair, in order, device and settings unchanged, the name kept or suffixed. |
| `Migration.FlattenedInOrder` | ventocontrol/scenarios.py:166-186 | The pairs are migrated in the order of the file, device by device, none twice. |
| `Migration.MigratedNameIs` | ventocontrol/scenarios.py:166-186 | A name is kept if and only if no earlier migrated scenario has it, and otherwise gets the last four characters of the id in brackets. |
| `Migration.SlotsStillResolve` | ventocontrol/scenarios.py:166-186 | The migrated store keeps every device's slots, and every slot in it that named one of its own device's scenarios still names some scenario. |
| `Migration.NamesDistinctExactly` | ventocontrol/scenarios.py:166-186 | Unless an old name already ends in a suffix, the migrated names are distinct if and only if no name is repeated twice under ids with the same last four characters. |
| `Migration.MigratedNamesAreDistinct` | ventocontrol/scenarios.py:166-186 | In particular when no device repeats a name and the ids of different devices end differently. |
| `Migration.MigrationCanCollide` | ventocontrol/scenarios.py:166-186 | Three devices with one scenario name and ids ending alike migrate to a repeated name. |
| `HistorySpec.HistoryIsMostRecent` | ventocontrol/history.py:53-78 | After any run of connections and renames from empty the ids are the first ten distinct ones by latest use. |
| `HistorySpec.HistoryByLatestUse` | ventocontrol/history.py:53-78 | Listed devices are distinct, in strictly decreasing order of last use, and a used but unlisted device has ten listed ones used after it. |
| `HistorySpec.RecencyIsByLastUse` | ventocontrol/history.py:53-78 | The unbounded reference list holds exactly the devices ever used, once each, by latest use. |
| `HistorySpec.NamesSurviveReconnects` | ventocontrol/history.py:53-87 | While a device stays listed it keeps the last name given to it, through any connections, renames and removals. |
| `HistorySpec.DetailsAreLatest` | ventocontrol/history.py:53-78 | After any run from empty, whoever is listed is listed with the details of the latest connection. |
| `HistorySpec.RemovedIsForgotten` | ventocontrol/history.py:89-93 | A removed device is listed no more, in either application, and every other stays with its name. |
| `HistorySpec.DroppedExactly` | ventocontrol/history.py:89-93 | Removing a device drops its visits and no other. |
| `HistorySpec.RenamedExactly` | ventocontrol/history.py:80-87 | Naming a device changes the name of its first visit and nothing else. |
| `HistorySpec.RecordsAgreeExactly` | arabella_mobile/service/DeviceHistory.cpp:15-34 | Desktop and mobile recording give the same list if and only if the list holds at most ten entries. |
| `HistorySpec.HistoriesAgree` | arabella_mobile/service/DeviceHistory.cpp:15-56 | Both applications keep the same list through every run from a list of at most ten distinct ids. |
| `Histories.DeviceHistory.Record` | ventocontrol/history.py:53-78 | Recording keeps the given name, removes the stale entry, inserts in front and cuts off at ten. |
| `Histories.DeviceHistory.Rename` | ventocontrol/history.py:80-87 | Renaming changes the name of the first entry of the device and nothing else. |
| `Histories.DeviceHistory.Remove` | ventocontrol/history.py:89-93 | Removing drops every entry of the device and keeps the order of the rest. |
| `Histories.NativeDeviceHistory.RecordConnection` | arabella_mobile/service/DeviceHistory.cpp:15-34 | A known entry moves to the front with its label; a new one first evicts the last at the cap. |
| `Histories.NativeDeviceHistory.SetLabel` | arabella_mobile/service/DeviceHistory.cpp:36-46 | Labelling changes the first entry of the device and nothing else. |
| `Histories.NativeDeviceHistory.RemoveEntry` | arabella_mobile/service/DeviceHistory.cpp:48-56 | Removing drops every entry of the device. |

## Left out

- SimDevice.constructor: requires a prefix of at most 15 characters, as the command line does, and an id below 256 bytes, since a longer one fits no response.
- VentoFanSim.constructor: requires the same of every device of the fleet.
- RoutesAgreeExactly: the pauses between the dashboard's commands are not modelled, so no tick falls between them; names are distinct, as the stores keep them, and scenario entries come from captures of safe fans.
- SerialRunsAreSafe: connects, disconnects and commands do not overlap one another and no connect overtakes a pending stop; what happens otherwise is PollingSurvivesExactly and OvertakingRunLeavesTwoPolls.
- NamesDistinctExactly: leaves out version 1 names that already end in a suffix of one of the file's ids, and ids shorter than four characters.
- HistoryIsMostRecent: is about runs without removals; after a removal an evicted device does not come back, so the ten latest are no longer listed.
- Device manager: modelled as a state machine over values whose steps end at the awaits, with the broadcast callback registered; a cancelled task executes nothing more than its cancellation.
- Sockets, timeouts, threads, retries and delays of delivery: no shown code decides what the network does.
- Floating-point rounding and the distribution of the noise: speeds are reals, draws are arbitrary.
- Checks that the Python protocol package may make beyond the Rust ones, such as fixed sizes in its own value types.
- Passwords: the simulator accepts any, and answers with its own constant one.
- Schedule read-back: the simulator keeps one schedule value, and reading a period overwrites it with zeros.
- JSON text and files of the stores and histories, and windows that share one file; the mobile application's own migration, which renames nothing.
- History observers, and last-seen times beyond being part of an entry's details.
- The simulator's LAN address and its log; the text of its status lines, of which only whether they can be printed is modelled; user interfaces, dialogs and foreign-function glue.
