# PS/2 controller and ALPS touchpad: a verified model

The driver stack talks to a keyboard and a touchpad through one 8042 controller and
turns touchpad packets into pointer motion, scrolling, buttons and gestures. This
project models its stateful parts and proves what they promise.

| modules | what they model |
|---|---|
| `Port8042`, `Controller` | The request engine: a small command language interpreted over a port two devices share. `Port8042` is its meaning as functions over a script of polls; the class in `Controller` is the request loop and the port reads as they update their fields, proved against it. |
| `OutOfOrderRead`, `Conservation`, `Expansion`, `RequestLaws` | What the engine promises: the second-chance read, byte conservation, the composite mouse command against its parts, and what each command may write and whose answer it takes. |
| `Power` | Sleep and wake, with the command byte as a register that reads back. |
| `Ring`, `RingSharing` | The ring buffer, and the ring as interrupt routine and packet handler share it, step by step. |
| `Assembler`, `SelfSync`, `Touchpad` | Packet assembly: the filter on bytes as a scan of the stream, finding the packet boundary again, and the interrupt routine and handler over the ring. |
| `Registers`, `CommandMode` | Register access by nibbles: the wire code and its parser, the touchpad as an automaton that hears it, and the driver's routines. |
| `Bitmap`, `BoundingBox` | From electrode bitmaps to runs, corners and the second touch. |
| `Packets`, `PacketCodec` | Packet decoding, and encoders it undoes. |
| `Pairing`, `PacketHandler`, `TouchReports` | Two-packet reports against a lookahead parser, the packet routines, and what they report for a touch laid into packets. |
| `TouchCore`, `Gestures`, `GestureRuns` | The touch state machine: the laws of taps, drags and buttons, the class that updates the state, and runs of it. |
| `ButtonSet`, `MiddleButton`, `MiddleHistory` | The middle-button emulation, and what it shows told from the calls alone. |
| `Momentum`, `Filters` | Momentum scrolling and the filters. |
| `CArith`, `Wrappers` | Truncated division and 32-bit integers; an option type and a law of sequences. |

Conventions. A port is a finite script of polls, each not ready or ready with a byte
of one stream; a used-up script stays not ready, so every read ends. Times are inputs.
Integers are unbounded except where wrap-around is written out: the flush counter
(modulo 2^32), the sums and scroll distances kept in 32 bits, and differences of clock
readings (modulo 2^64). Division and remainder truncate as in C++. A packet is handled
between the byte that completes it and the next byte, except in `RingSharing`, where
the two sides interleave freely.

These results differ from what the comments or first appearance of the code suggest:

- The composite mouse command is not always equivalent to the three commands its
  comment names. From outside the request it is if and only if no command listens to
  one device in the request and to the other in the expansion
  (`Expansion.ExpansionUnseen`); `Expansion.PendingRouteVisible` shows a keyboard byte
  that is read by one form and dispatched by the other.
- A packet stream of the older protocols is not always found again. Whether it is
  depends on where body bytes look like the first byte of a bare PS/2 packet:
  `SelfSync.SelfSynchronises` says exactly when, `SelfSync.OnePacketIsEnough` when one
  packet is enough from every state, and `SelfSync.StubbornNeverSyncs` gives a stream
  that is never found.
- A button press held back by the middle-button emulation can be lost. The call that
  decides about it leaves it unreported if and only if the button is still down and
  the caller drops the value returned (`MiddleButton.RunAll`); `MiddleButton.LostPress`
  is one that is up again before anything else could report it.
- Some pressures are mistaken on the third protocol's models: 63 makes a touch look
  like a trackstick packet, and on Rushmore models 64 and more like a bitmap
  (`PacketCodec.SpotV3Read`).
- Where one run of electrodes stands for two touches, the halves of an odd run of three
  or more share its middle electrode and leave its last one out
  (`BoundingBox.HalvesPart`).
- A read that expects 0 cannot tell a timeout from a 0 that arrived, as the statement
  of `OutOfOrderRead.SecondChanceRead` says.
- `kPS2C_ReadMouseDataPortAndCompare` does not store the byte it read, unlike the
  keyboard form; the model follows the code.

## Model

| member | source | states |
|---|---|---|
| `OutOfOrderRead.SecondChanceRead` | VoodooPS2Controller/VoodooPS2Controller.h:60-98 | A read with an expected byte finds it exactly when it is among the first two bytes of the device's stream inside the 10000-poll budget; otherwise it answers the first such byte, or 0 when there is none; it uses at most two bytes of the stream and only a prefix of the port. The 0 of a timeout counts as found when 0 was expected, as in the code. |
| `OutOfOrderRead.ReadExpectingAnswer` | VoodooPS2Controller/VoodooPS2Controller.cpp:1401-1538 | The same answer from the middle of a read, with a byte already held aside: it is decided by the held byte and the bytes still to come alone. |
| `OutOfOrderRead.ReadExpectingUses` | VoodooPS2Controller/VoodooPS2Controller.cpp:1401-1538 | How many bytes of the stream a read with an expected byte uses up, whether or not a byte is held aside. |
| `OutOfOrderRead.FirstRead` | VoodooPS2Controller/VoodooPS2Controller.cpp:1267-1363 | A plain read answers the first byte it hears inside the budget, or 0, and uses up no other byte of what it hears: the device's stream, or in start-up mode both streams. |
| `Conservation.RequestConserves` | VoodooPS2Controller/VoodooPS2Controller.cpp:1082-1221 | Byte conservation over a whole request: every byte polled is given one fate (answer, flush, dispatch to the driver of its own stream), per stream and fate the log shows exactly those bytes in arrival order, and none is lost unless out-of-order dispatch is switched off. |
| `Conservation.ExecuteAllAccounts` | VoodooPS2Controller/VoodooPS2Controller.cpp:1112-1202 | The accounting from any engine state, with the fates constructed. |
| `Conservation.OneAnswer` | VoodooPS2Controller/VoodooPS2Controller.cpp:1112-1202 | A command that reads takes exactly one answer (a timeout's 0 included) and stores it where the command says; it fails exactly when it compares and that answer differs; other commands take none and never fail. |
| `Conservation.RequestAnswers` | VoodooPS2Controller/VoodooPS2Controller.cpp:1112-1202 | Over a whole request the answers read from the port are, in order, those of exactly the reading commands executed: each stored where its command says, and the last one of a failed request the one that was not wanted. |
| `Expansion.ExpansionUnseen` | VoodooPS2Controller/VoodooPS2Controller.cpp:1138-1159 | The composite mouse command against its documented three commands: on every port a request and its expansion make the same writes, use the same bytes, dispatch the same, succeed or fail together at the mapped index and leave the same results, if and only if whenever a command's effect depends on the device listened to, both listen to the same one. The condition is read off the request. |
| `Expansion.ExpansionInStep` | VoodooPS2Controller/VoodooPS2Controller.cpp:1138-1159 | The engine's own state agrees as well, after every prefix and on every port, if and only if no composite runs while a mouse route is pending. |
| `Expansion.PendingRouteUnseen` | VoodooPS2Controller/VoodooPS2Controller.cpp:1128-1159 | A pending route alone does not show: the smallest request with one is the same from outside as its expansion. |
| `Expansion.ExpansionAgrees` | VoodooPS2Controller/VoodooPS2Controller.cpp:1082-1221 | Without such a pending route the two runs make the same port writes, use the same bytes, dispatch the same, end in the same engine state and succeed or fail together, the failing index mapped to the composite's third part. |
| `Expansion.ExpansionResults` | VoodooPS2Controller/VoodooPS2Controller.cpp:1082-1221 | Under the condition of ExpansionUnseen every command that is not a composite ends with the same result fields in both runs. |
| `Expansion.PendingRouteVisible` | VoodooPS2Controller/VoodooPS2Controller.cpp:1124-1159 | What that difference does: after the next data byte the request listens to the mouse and the expansion to the keyboard, so a keyboard byte is dispatched by one and read by the other. |
| `RequestLaws.RequestLawful` | VoodooPS2Controller/VoodooPS2Controller.cpp:1112-1202 | Command by command, in order: a command executed writes exactly what its kind says (a modified command byte has each set bit unless cleared, and each other bit as it was), and takes its answer from the device whose turn it is, told from the commands before it; commands not executed write nothing. |
| `Controller.Controller.ReadDataPort` | VoodooPS2Controller/VoodooPS2Controller.cpp:1267-1363 | The polling loop returns, consumes and dispatches what the plain read specifies. |
| `Controller.Controller.ReadDataPortExpecting` | VoodooPS2Controller/VoodooPS2Controller.cpp:1369-1539 | The polling loop with the held byte returns, consumes and dispatches what the specification of the second-chance read says. |
| `Controller.Controller.FlushDataPort` | VoodooPS2Controller/VoodooPS2Controller.cpp:1186-1195 | Flushing takes every byte ready now and counts them modulo 2^32. |
| `Controller.Controller.ProcessCommand` | VoodooPS2Controller/VoodooPS2Controller.cpp:1114-1199 | One command of the switch: result fields, device mode, pending route, failure, port and log. |
| `Controller.Controller.ProcessCommands` | VoodooPS2Controller/VoodooPS2Controller.cpp:1112-1202 | The loop over the commands in place, stopping at the first failure and leaving later commands untouched. |
| `Controller.Controller.ProcessRequest` | VoodooPS2Controller/VoodooPS2Controller.cpp:1082-1221 | Offline: commandsCount becomes 0, no command changes and no port is touched. Otherwise the request runs as specified, commandsCount is the number completed, which is the failing index, and the interrupt-ignore count is restored. |
| `Power.PowerControl.SetCommandByte` | VoodooPS2Controller/VoodooPS2Controller.cpp:918-935 | Sets and clears bits of the command byte, returns the old one, restores the interrupt-ignore count. |
| `Power.PowerControl.DispatchDriverPowerControl` | VoodooPS2Controller/VoodooPS2Controller.cpp:1945-1952 | Every request a driver's power callback makes while online is processed; the command byte ends as the callback left it. |
| `Power.PowerControl.ResetController` | VoodooPS2Controller/VoodooPS2Controller.cpp:435-487 | After initialisation both clocks run, interrupts are off and translation is on. |
| `Power.PowerControl.GoToSleep` | VoodooPS2Controller/VoodooPS2Controller.cpp:1834-1866 | Sleep takes the step of the power specification: interrupts off, the drivers called online, then offline with the clocks stopped and interrupts ignored once; `TransitionLaw` says what that step promises. |
| `Power.PowerControl.Wake` | VoodooPS2Controller/VoodooPS2Controller.cpp:1868-1925 | Wake goes online before calling the drivers, ends with interrupts on and ignored for no reason. |
| `Power.PowerControl.SetPowerState` | VoodooPS2Controller/VoodooPS2Controller.cpp:1828-1933 | From rest any transition leads to rest. Into sleep both clock bits end set whatever the callbacks did, out of it both interrupts are on, the drivers are called in order, the first with the interrupt bits clear, and the byte is otherwise as it was if the callbacks leave it alone; other transitions change the state alone. |
| `Power.TransitionLaw` | VoodooPS2Controller/VoodooPS2Controller.cpp:1828-1933 | The specification every transition follows keeps those promises, told from the command byte and the calls before and after. |
| `Power.EveryRun` | VoodooPS2Controller/VoodooPS2Controller.cpp:1828-1933 | For every sequence of power ordinals and requests: offline exactly when asleep, interrupts ignored exactly then, both clocks stopped whenever asleep; every request is refused or processed and every driver called as the ordinals alone predict. |
| `Power.AfterWake` | VoodooPS2Controller/VoodooPS2Controller.cpp:1868-1925 | After every wake both interrupts are enabled; both clocks run exactly when the callbacks left the clock bits clear, as they do if they leave the byte alone. |
| `Ring.RingBuffer.AdvanceHead` | VoodooPS2Controller/ApplePS2Device.h:235-243 | The head advances exactly when count + move < N, and then the bytes written at the head join the contents; otherwise nothing changes. |
| `Ring.AcceptsWhenRoom` | VoodooPS2Controller/ApplePS2Device.h:197-203 | The comparison of the two counts the code makes amounts to count + move < N. |
| `Ring.TransientTail` | VoodooPS2Controller/ApplePS2Device.h:244-250 | A producer that sees the tail at N, before the consumer wraps it, decides as for a tail of 0. |
| `Ring.RingBuffer.Push` | VoodooPS2Controller/ApplePS2Device.h:213-224 | An element joins the contents exactly when one slot stays free. |
| `Ring.RingBuffer.Fetch` | VoodooPS2Controller/ApplePS2Device.h:225-232 | Returns and removes the oldest element. |
| `Ring.RingBuffer.AdvanceTail` | VoodooPS2Controller/ApplePS2Device.h:244-250 | Drops the given number of oldest elements. |
| `RingSharing.StepKeeps` | VoodooPS2Controller/ApplePS2Device.h:235-250 | Every step of producer or consumer, wherever the interrupt lands, keeps the sharing invariant: packet boundaries, and committed = released + unread. |
| `RingSharing.FirstInFirstOut` | VoodooPS2Trackpad/alps.cpp:1476-1497 | For every interleaving head and tail stay on packet boundaries, no unread packet is overwritten, and the consumer sees the committed packets unchanged and in order. |
| `RingSharing.WriteApart` | VoodooPS2Trackpad/alps.cpp:1404-1429 | A byte stored below the packet size at the head changes no unread packet. |
| `RingSharing.OffsetMatters` | VoodooPS2Trackpad/alps.cpp:1404-1477 | Why the byte count must be cleared before the next byte: with a whole packet counted and an old packet in the free slot every check passes, the byte is stored one packet further on, and in a full ring that changes the oldest unread packet. |
| `Assembler.ScanPartitions` | VoodooPS2Trackpad/alps.cpp:1397-1498 | Every byte stream is cut, in order and without loss, into packets that pass every check, dropped fragments of at most a packet, and an unfinished rest. |
| `Assembler.TakeSound` | VoodooPS2Trackpad/alps.cpp:1397-1483 | One byte completes at most one item; a packet so completed is well formed, a fragment no longer than a packet, and no kept byte is lost. |
| `Assembler.AlignedPacket` | VoodooPS2Trackpad/alps.cpp:1433-1482 | From a packet boundary, packet-size bytes are dispatched as that packet if and only if they are well formed. |
| `SelfSync.SelfSynchronises` | VoodooPS2Trackpad/alps.cpp:1414-1482 | Whatever came before, after a stream of packets the driver is at a boundary if and only if AtTheEnd, computed from the bytes kept before it and the places of bare-looking bytes in the packets, is 0; it has dispatched exactly the packets from the first one met at a boundary on, and at most one mixed one. |
| `SelfSync.OnePacketIsEnough` | VoodooPS2Trackpad/alps.cpp:1414-1482 | One true packet brings the driver to a boundary from every state if and only if its body leaves nothing from each of the three bytes it may be joined at. |
| `SelfSync.CleanPacketSyncs` | VoodooPS2Trackpad/alps.cpp:1414-1482 | If the first packet's body has no byte that looks like the first of a bare PS/2 packet, that packet is enough and at most it is lost. |
| `SelfSync.Resync` | VoodooPS2Trackpad/alps.cpp:1414-1482 | From any bytes kept, exactly how many bytes one true packet leaves, and that it dispatches the mixed packet or nothing. |
| `SelfSync.InStep` | VoodooPS2Trackpad/alps.cpp:1476-1482 | At a boundary exactly the packets of a concatenation of well-formed packets are dispatched, on every model. |
| `SelfSync.StubbornNeverSyncs` | VoodooPS2Trackpad/alps.cpp:1414-1431 | A stream the driver never finds again: well-formed packets with bare-looking body bytes, joined at the second byte, yield no packet and no boundary, however many follow. |
| `Touchpad.Touchpad.InterruptOccurred` | VoodooPS2Trackpad/alps.cpp:1397-1483 | One byte at interrupt time over the ring in place, whatever packets are waiting: it is kept, or a packet or a bad fragment is announced behind those waiting, as the scan of the stream says; a full ring refuses it; no packet waiting changes. |
| `Touchpad.Touchpad.PacketReady` | VoodooPS2Trackpad/alps.cpp:1485-1498 | Every packet announced is processed in order, or all are dropped if the last byte was bad; the ring is emptied and the byte count cleared if there was any. |
| `Touchpad.Touchpad.Receive` | VoodooPS2Trackpad/alps.cpp:1397-1498 | One byte with the handler run before the next: exactly the packets of one step of the scan are processed. |
| `Touchpad.Touchpad.ReceiveAll` | VoodooPS2Trackpad/alps.cpp:1397-1498 | A whole stream: exactly the packets of its scan are processed, and the unfinished rest lies at the ring's head. |
| `Touchpad.Rejoin` | VoodooPS2Trackpad/alps.cpp:1397-1498 | Self-synchronisation of the running driver: any history, then packets; what is processed and whether a boundary has been found are exactly as SelfSynchronises says. |
| `Registers.RoundTrip` | VoodooPS2Trackpad/alps.cpp:44-80 | A wire parses to a list of register operations if and only if it is exactly what the driver sends for that list. |
| `Registers.NibbleCode` | VoodooPS2Trackpad/alps.cpp:44-80 | The nibble code is prefix-free: a nibble's code, whatever follows, is read back as that nibble. |
| `Registers.NibbleCodeOnly` | VoodooPS2Trackpad/alps.cpp:44-80 | Only a nibble's own code is read back as it. |
| `Registers.NibbleStart` | VoodooPS2Trackpad/alps.cpp:44-80 | No nibble code starts like a set-address, information or stream-mode command. |
| `Registers.OpCode` | VoodooPS2Trackpad/alps.cpp:1543-1629 | One operation, whatever follows it, is read back as itself. |
| `Registers.OpCodeOnly` | VoodooPS2Trackpad/alps.cpp:1543-1629 | Only an operation's own wire is read back as it, and something is consumed. |
| `CommandMode.DeviceFollows` | VoodooPS2Trackpad/alps.cpp:1500-1629 | A touchpad that hears the wire byte by byte ends in the state the operations mean. |
| `CommandMode.DigitsOf` | VoodooPS2Trackpad/alps.cpp:1558-1560 | The four nibbles sent for an address are the digits of its low sixteen bits. |
| `CommandMode.Driver.SendNibble` | VoodooPS2Trackpad/alps.cpp:1500-1541 | A nibble acknowledged is accepted by the touchpad, whatever it was waiting for; one that is not changes no register. |
| `CommandMode.Driver.SetAddress` | VoodooPS2Trackpad/alps.cpp:1543-1566 | The loop over the digits leaves the touchpad with the low sixteen bits as its address, whatever an earlier failure left half done; on failure no register changes. |
| `CommandMode.Driver.ReadRegister` | VoodooPS2Trackpad/alps.cpp:1568-1609 | A value returned is the register's, and the touchpad is left addressed to it; no register changes; with every byte acknowledged it fails exactly on an address outside sixteen bits. |
| `CommandMode.Driver.WriteRegister` | VoodooPS2Trackpad/alps.cpp:1611-1629 | Success changes the addressed register to the value and no other; failure changes none; with every byte acknowledged it succeeds. |
| `CommandMode.Driver.AbsoluteModeV3` | VoodooPS2Trackpad/alps.cpp:1949-1964 | Read-modify-write: register 4 gains the two bits, no other register changes; on failure none does. |
| `Bitmap.GetBitmapPoints` | VoodooPS2Trackpad/alps.cpp:379-403 | The loop terminates for every bitmap, counts the maximal runs of ones, leaves the lowest run in low and the highest in high when there are at least two. |
| `Bitmap.FoundUnique` | VoodooPS2Trackpad/alps.cpp:379-403 | Those conditions determine count and runs: they are a complete specification of the scan. |
| `Bitmap.ScanBit` | VoodooPS2Trackpad/alps.cpp:383-402 | One bit of the scan keeps what has been seen of the runs so far. |
| `BoundingBox.EndsInside` | VoodooPS2Trackpad/alps.cpp:438-454 | After the split of a single run both runs are non-empty, inside the map, and their midpoints in order. |
| `BoundingBox.CornersBox` | VoodooPS2Trackpad/alps.cpp:456-490 | For non-empty bitmaps within the electrode counts the corners form an axis-aligned rectangle inside the panel, reversed on exactly the axes and versions that are. |
| `BoundingBox.EndElectrodes` | VoodooPS2Trackpad/alps.cpp:456-476 | What a coordinate's place means at the ends: the first electrode lies at 0 and the last at the end of the axis, the other way round where the axis is reversed. |
| `BoundingBox.HalvesPart` | VoodooPS2Trackpad/alps.cpp:438-454 | The two halves of a single run part it exactly if it is even; of an odd run of three or more they share the middle electrode and leave the last out. |
| `BoundingBox.OppositeNearest` | VoodooPS2Trackpad/alps.cpp:510-511 | Two corners on from a nearest corner of a rectangle lies a farthest one. |
| `BoundingBox.NearestCorner` | VoodooPS2Trackpad/alps.cpp:498-509 | The loop finds a nearest corner. |
| `BoundingBox.DistanceFits` | VoodooPS2Trackpad/alps.cpp:499-503 | For decoded coordinates the squared distance fits below the loop's starting bound. |
| `BoundingBox.Surface.ProcessBitmap` | VoodooPS2Trackpad/alps.cpp:415-516 | Counts contacts, 0 when a bitmap is empty; builds the box, every side of it where the middle of its run lies between the axis's ends, mirrored on a reversed axis, the runs being the outermost of the bitmap or the halves of its only one; chooses a corner farthest from the reported touch when none is chosen and otherwise keeps the choice. |
| `Packets.MapsFit` | VoodooPS2Trackpad/alps.cpp:633-712 | Decoded bitmaps stay within the electrode counts of every format. |
| `Packets.PositionFits` | VoodooPS2Trackpad/alps.cpp:633-712 | Decoded coordinates stay below 0x4000, so squared distances fit. |
| `PacketCodec.SpotV3Read` | VoodooPS2Trackpad/alps.cpp:622-679 | A touch laid into a Pinnacle or Rushmore packet is read back: coordinates, pressure, every button, the first-half mark; and exactly which pressures make it look like something else. |
| `PacketCodec.SpotDolphinRead` | VoodooPS2Trackpad/alps.cpp:681-692 | The same on Dolphin models, where no touch is mistaken. |
| `PacketCodec.SpotOneRead` | VoodooPS2Trackpad/alps.cpp:1155-1208 | A one-finger touch of the eighth protocol is read back, its pressure doubled in seven bits, unless its bytes are those of the idle packet. |
| `PacketCodec.SpotTwoRead` | VoodooPS2Trackpad/alps.cpp:1210-1233 | The first finger of a two-finger packet is read back whatever the second is, within the resolution of such a packet. |
| `PacketCodec.MapsPinnacleRead` | VoodooPS2Trackpad/alps.cpp:633-643 | Both bitmaps and the finger count laid into a Pinnacle packet are read back. |
| `PacketCodec.MapsRushmoreRead` | VoodooPS2Trackpad/alps.cpp:656-668 | The same on Rushmore models, with the larger of the two axes' counts. |
| `PacketCodec.MapsDolphinRead` | VoodooPS2Trackpad/alps.cpp:692-712 | The same on Dolphin models, the two bitmaps packed in one number. |
| `PacketCodec.MoreSS4Read` | VoodooPS2Trackpad/alps.cpp:1235-1268 | A packet of third and later fingers of the eighth protocol: three, four or five fingers as it says. |
| `Pairing.MemoryIsLookahead` | VoodooPS2Trackpad/alps.cpp:714-768 | For every packet list the flag and the saved packet report exactly what a parser with lookahead reports: a first half merged with the second half that follows, trackstick packets apart, and otherwise dropped; a second half without a first dropped. |
| `Pairing.Unpaired` | VoodooPS2Trackpad/alps.cpp:735-747 | A saved first half whose next touch packet is no second half leaves no trace. |
| `Pairing.Paired` | VoodooPS2Trackpad/alps.cpp:735-768 | A saved first half is merged with the second half that follows, and trackstick packets between them are reported in their places. |
| `PacketHandler.Handler.ProcessTrackstick` | VoodooPS2Trackpad/alps.cpp:539-598 | A trackstick packet is passed on unless it is disregarded, and the button quirk is set when it reports a button. |
| `PacketHandler.Handler.Merge` | VoodooPS2Trackpad/alps.cpp:719-748 | A second half decodes to no multi-packet and to the first half's position, pressure and buttons, with the second half's finger count, or 0 when a bitmap is empty. |
| `PacketHandler.Handler.ProcessTouchpad` | VoodooPS2Trackpad/alps.cpp:714-809 | One touchpad packet takes the step of the pairing specification; the chosen corner is kept by reports of two or more fingers and given up by reports of fewer. |
| `PacketHandler.Handler.ProcessSS4` | VoodooPS2Trackpad/alps.cpp:1301-1378 | One packet of the eighth protocol takes the step of the pairing specification. |
| `PacketHandler.Handler.ProcessAll` | VoodooPS2Trackpad/alps.cpp:811-826 | A stream of packets: the reports are the lookahead parser's, and a chosen second touch stays as long as every touch reported has at least two fingers. |
| `TouchReports.SpotReported` | VoodooPS2Trackpad/alps.cpp:714-809 | A touch laid into a packet of any format, with none to complete it and no mistaken pressure, is reported at its place, y counted from the bottom, with its pressure, fingers and buttons, the trackstick's buttons on models with one until it reports them itself; a first half is reported as nothing. |
| `TouchReports.PairReported` | VoodooPS2Trackpad/alps.cpp:714-809 | A touch and the packet that completes it make one report, of the touch, with the fingers the second packet counts, or the touch's own when it has no bit on an axis or counts fewer than two. |
| `TouchReports.ReportSpot` | VoodooPS2Trackpad/alps.cpp:714-826 | The running handler reports such a touch just so, whatever it has kept. |
| `TouchReports.QuirkLatched` | VoodooPS2Trackpad/alps.cpp:539-598 | The trackstick's buttons stop counting in touch packets if and only if a trackstick packet that is not disregarded had one down. |
| `TouchReports.KnownPacket` | VoodooPS2Trackpad/alps.cpp:644-652 | One packet by its bytes, with the report it makes. |
| `Gestures.StateMachine.DispatchEvents` | VoodooPS2Trackpad/alps.cpp:2744-3205 | A completed packet obeys the laws of `TouchCore`: what its report has down and the mode it leads to, told from the mode it finds. It makes one report, after a click of the left button if it taps out of a drag; a lift is marked; the motion is zero unless tracked, and then it and the rest kept split the distance, rest included. |
| `TouchCore.ReportIs` | VoodooPS2Trackpad/alps.cpp:2952-3143 | A report that does not lift: a drag holds the left button, with immediate clicks exactly once the touch is no double tap any more; so do a locked drag, one without touch, and a tap that may still become one unless clicks are immediate or a key was pressed lately; in every other mode no button is added. |
| `TouchCore.LiftIs` | VoodooPS2Trackpad/alps.cpp:2867-2925 | A report that lifts: a quick one clicks exactly the button its fingers and the settings name, out of a locked drag none, and one that keeps a drag going holds the left button. |
| `TouchCore.ModeIs` | VoodooPS2Trackpad/alps.cpp:2840-3191 | The mode after a packet, from the mode before: after a lift the wait for a drag, the drag without touch or none, each exactly when; after a touch several fingers, a drag begun, resumed or continued, moving, or nothing while scrolling is debounced. |
| `TouchCore.RestIs` | VoodooPS2Trackpad/alps.cpp:2840-3191 | What else a packet changes: the time of the lift, the lock that ends with a drag, the drag timer, the debounce. |
| `TouchCore.StillHeld` | VoodooPS2Trackpad/alps.cpp:2952-3143 | Into every mode that holds the left button a packet goes with the button down, and out of it likewise. |
| `Gestures.StateMachine.Lift` | VoodooPS2Trackpad/alps.cpp:2840-2925 | A lift clears rests, swipes and distances, leaves as momentum the timer's interval times the sum of the movements exactly out of several fingers with enough of them that took some time, clicks if it ends a tap, and leads to the mode the lift rules give. |
| `Gestures.StateMachine.TrackMotion` | VoodooPS2Trackpad/alps.cpp:2955-2979 | Motion is tracked exactly when the fingers stay, the pressure is in bounds, the touch is old enough, scrolling is over and the distance is no jump; then motion and rest split the distance, and otherwise nothing moves. |
| `Gestures.StateMachine.ScrollFingers` | VoodooPS2Trackpad/alps.cpp:3007-3051 | Two-finger scrolling: nothing below the threshold, otherwise scroll and rest split the distance exactly; it is sent only once the touch is no tap. |
| `Gestures.StateMachine.Remember` | VoodooPS2Trackpad/alps.cpp:3021-3030 | The movements remembered for momentum are the last ones, all in one direction. |
| `Gestures.StateMachine.SwipeDue` | VoodooPS2Trackpad/alps.cpp:3054-3132 | A swipe is due exactly when its distance is crossed and neither it nor its four-finger form is active; vertical ones come first. |
| `Gestures.StateMachine.MoveFingers` | VoodooPS2Trackpad/alps.cpp:3054-3132 | A due swipe is told once, clears its opposite and three-finger form and restarts its axis; otherwise the distances add up. |
| `Gestures.StateMachine.MultiTouch` | VoodooPS2Trackpad/alps.cpp:2981-3134 | Several fingers stay several fingers, or go back to moving with debounce; two fingers scroll by what the distance makes in units, unless palm or typing forbids it; swipes are told only with three or four fingers and only when due. |
| `TouchCore.TapLatched` | VoodooPS2Trackpad/alps.cpp:3164-3165 | A tap counts as one of n fingers if and only if n fingers were seen, or it did before, and the finger count has not settled since. |
| `TouchCore.TouchGoesOn` | VoodooPS2Trackpad/alps.cpp:2932-3167 | Through a touch the state machine remembers when it began, or that it strayed too far from where a finger last came down, that place, and whether it counts as one of two or three fingers. |
| `TouchCore.TouchEnds` | VoodooPS2Trackpad/alps.cpp:2840-2931 | The end of a touch clicks if and only if it was short and stayed near, with the button its fingers name, and leads to the wait for a drag exactly when the click is the left one and drags are on. |
| `TouchCore.NoTap` | VoodooPS2Trackpad/alps.cpp:3146-3165 | A packet too soon after a key or during momentum scrolling leaves what is remembered for taps alone, but that straying ends a tap. |
| `Gestures.StateMachine.EnterMode` | VoodooPS2Trackpad/alps.cpp:3175-3191 | The mode a felt touch enters; resuming a drag cancels its timer, and starting one takes the lock keys. |
| `Gestures.StateMachine.OnDragTimer` | VoodooPS2Trackpad/VoodooPS2TouchPadBase.cpp:591-611 | The drag timer ends a drag without touch, lets go of the left button and of no other, and changes nothing in another mode. |
| `Gestures.SwipesAlternate` | VoodooPS2Trackpad/alps.cpp:3054-3132 | Between two messages of the same swipe as many fingers went the other way, more of them the same way, or the fingers lifted. |
| `Gestures.OppositesExclude` | VoodooPS2Trackpad/alps.cpp:3054-3132 | A swipe and its opposite are never both active. |
| `GestureRuns.RunAll` | VoodooPS2Trackpad/alps.cpp:2744-3205 | Over every sequence of packets, timers, keys and settings: swipe messages alternate, opposite flags are never both set, a drag without touch is locked or timed, and the left button is down in every report made in a locked drag, in one without touch and, unless clicks are immediate, in any drag. |
| `GestureRuns.TouchAll` | VoodooPS2Trackpad/alps.cpp:2744-3205 | A whole touch, with no key lately and nothing else going on: every packet's report has its own buttons, and the end clicks and leads on as the law of touches says. |
| `GestureRuns.TypedAll` | VoodooPS2Trackpad/alps.cpp:2744-3205 | A touch too soon after a key clicks nothing, unless the touch that taps are still measured from began a tap's time ago or less. |
| `GestureRuns.DragAll` | VoodooPS2Trackpad/alps.cpp:2744-3205 | A drag with one finger goes on until the finger lifts, every report with the left button down if clicks are not immediate. |
| `GestureRuns.MoveAll` | VoodooPS2Trackpad/alps.cpp:2962-2979 | Over any run of undisturbed movement, divisor times the motion dispatched plus the rest is the net displacement plus the rest at the start, on both axes. |
| `MiddleButton.Emulator.HandleButtons` | VoodooPS2Trackpad/VoodooPS2TouchPadBase.cpp:469-587 | One input: the transition table, the buttons shown, the button held back, and exactly when one is dispatched; the timer is armed exactly in the waiting states, which is exactly when a button is held back. |
| `MiddleButton.Emulator.Step` | VoodooPS2Trackpad/VoodooPS2TouchPadBase.cpp:461-587 | Leaving the state that waits for a second button reports the press held back, as itself or as the middle button, if and only if the call does not swallow it: its caller drops the value returned while the button is still down. The timer always ends waiting. |
| `MiddleButton.RunAll` | VoodooPS2Trackpad/VoodooPS2TouchPadBase.cpp:461-587 | Over every series of calls and ticks a press held back is reported by the call that decides about it and not before, if and only if that call does not swallow it; until then it is still held back. |
| `MiddleButton.LostPress` | VoodooPS2Trackpad/alps.cpp:2770-2834 | A press that is lost: the deciding packet is dropped after its buttons went through the emulation, and the buttons are up in the next. |
| `MiddleHistory.Follow` | VoodooPS2Trackpad/VoodooPS2TouchPadBase.cpp:461-587 | From all buttons up, over every series of calls, what each call shows and dispatches is read off the calls alone: the middle button while a pair of left and right, pressed together or one in time after the other, is held; nothing of a single press that is early, nor of the button left of a pair; otherwise the buttons as they are. |
| `MiddleHistory.MiddleClick` | VoodooPS2Trackpad/VoodooPS2TouchPadBase.cpp:485-583 | A pair shows the middle button and never left and right until one of its buttons goes up, and without a physical middle button nothing else shows one. |
| `MiddleHistory.HeldBack` | VoodooPS2Trackpad/VoodooPS2TouchPadBase.cpp:485-583 | A single press is held back until it is late, joined by the other button, or over. |
| `MiddleHistory.NextWhen` | VoodooPS2Trackpad/VoodooPS2TouchPadBase.cpp:485-567 | When the emulation enters each of its states, condition by condition. |
| `Momentum.MomentumFalls` | VoodooPS2Trackpad/VoodooPS2TouchPadBase.cpp:444-447 | With 0 <= multiplier < divisor, every tick that arms the timer again leaves strictly less momentum, remainder included. |
| `Momentum.AfterSplits` | VoodooPS2Trackpad/VoodooPS2TouchPadBase.cpp:444-447 | A tick's new momentum and remainder split multiplier * current + remainder. |
| `Momentum.ImpulsesAre` | VoodooPS2Trackpad/VoodooPS2TouchPadBase.cpp:434-442 | Each impulse of a run is the momentum of its tick divided by the interval, truncated. |
| `Momentum.ImpulseIs` | VoodooPS2Trackpad/VoodooPS2TouchPadBase.cpp:434-442 | One tick works with its momentum over the interval plus the remainder of the last distance, in 32 bits. |
| `Momentum.Scroller.OnScrollTimer` | VoodooPS2Trackpad/VoodooPS2TouchPadBase.cpp:423-457 | One tick: armed again exactly above the threshold, with the momentum decayed; what is dispatched and the second remainder split the impulse and the old remainder, cut to 32 bits. |
| `Momentum.Scroller.RunDown` | VoodooPS2Trackpad/VoodooPS2TouchPadBase.cpp:423-457 | The timer stops after as many dispatches as the run has impulses, no more than the momentum is large; divisor times the distances dispatched plus the remainder is the sum of the impulses plus the first remainder in 32 bits, and exactly if the run starts small. |
| `Filters.SimpleAverage.Filter` | VoodooPS2Trackpad/Decay.h:23-40 | The window is the last N inputs; the result is their truncated mean if their sum fits the 32 bits it is kept in, and otherwise that of the sum cut to them. |
| `Filters.SimpleAverage.FilterAll` | VoodooPS2Trackpad/Decay.h:12-47 | After any series of inputs the window is the last N of them. |
| `Filters.SimpleAverage.Oldest` | VoodooPS2Trackpad/Decay.h:49-60 | The first of the window, or 0. |
| `Filters.SimpleAverage.Newest` | VoodooPS2Trackpad/Decay.h:61-71 | The last of the window, or 0. |
| `Filters.MeanBetween` | VoodooPS2Trackpad/Decay.h:38-39 | The mean, truncated, lies between any bounds of the inputs. |
| `Filters.UndecayRecovers` | VoodooPS2Trackpad/Decay.h:93-127 | Undoing one step of the decaying average leaves exactly the two halving remainders: within 2 of the input. |
| `Filters.DecayThenUndo` | VoodooPS2Trackpad/Decay.h:84-132 | Through both filters every output is within 2 of its input, however long the series. |
| `CArith.CDivMod` | VoodooPS2Trackpad/VoodooPS2TouchPadBase.cpp:441-447 | Truncated division and remainder split the dividend: quotient times divisor plus remainder, the remainder smaller than the divisor and of the dividend's sign. |
| `CArith.SplitsOnce` | VoodooPS2Trackpad/VoodooPS2TouchPadBase.cpp:441-447 | A total splits in one way only, so the split laws determine what is dispatched and what is kept. |
| `CArith.CutOnce` | VoodooPS2Trackpad/Decay.h:23-29 | Cutting a sum to 32 bits at every step is cutting the true sum once, and changes nothing exactly if it fits. |

## Left out

- SelfSync.SelfSynchronises: speaks of protocols below the fifth without interleaved PS/2 packets, whose first byte and mask have the top bit; for the others a first byte is not recognisable, and models with an empty mask accept any byte. The packets up to the first one met at a boundary are true ones, with no top bit in the body.
- Touchpad.Touchpad.Receive: the packet handler runs before the next byte. The byte count is cleared only by the handler, so without this schedule a byte may land beyond the packet, which `RingSharing.OffsetMatters` shows.
- Touchpad.Touchpad.InterruptOccurred: the byte count is below the packet size; the bytes a rejected fragment leaves in the ring are not described, since they are never read.
- RingSharing.FirstInFirstOut: reordering of memory accesses by the processor is not modelled.
- CommandMode.DeviceFollows: the touchpad is this project's model: a command it does not acknowledge was not heard, and a command byte where an argument is due ends the wait for it.
- Power.EveryRun: ordinals other than sleep, doze and normal, which only log, are left out; a driver's callback is a list of requests and command-byte changes.
- Power.PowerControl.ResetController: only what it does to the command byte; the self tests and flushes are not modelled.
- Controller.Controller.ProcessRequest: completion routines, freeing and the request queue are left out, and so is the wait for the input buffer before a port write; a request's count is unbounded here and one byte in the source.
- The fields of a command are separate here and overlaid in a union in the source.
- BoundingBox.Surface.ProcessBitmap: coordinates below 0x4000, as every decoder produces, so that squared distances do not overflow; panels with fewer than two electrodes on an axis, for which the source divides by zero, are left out.
- Packets.PositionFits: the axis scaling of the eighth protocol, its trackstick and its third and later touch positions are left out; so are the first, second, fourth, sixth and seventh protocols' packets.
- PacketHandler.Handler.ProcessTrackstick: the packet is passed on whole; the motion, scrolling and buttons made of it are left out.
- PacketCodec.SpotOneRead: touches whose bytes are those of the idle packet are read as one.
- TouchReports.SpotReported: touches outside what a packet's bits can carry are not laid into one.
- GestureRuns.TouchAll: a touch some of whose packets come too soon after a key, or that begins during momentum scrolling, is described packet by packet only.
- Gestures.StateMachine.DispatchEvents: the fields taps and drags depend on are held as one value; coordinates after scaling and filtering and buttons after the middle-button emulation are inputs; the scroll modes that nothing enters and the waiting modes that nothing uses are left out.
- GestureRuns.RunAll: the settings stay the same through a run except that applying settings ends the touch; a tick of momentum scrolling may leave any momentum, `Momentum` saying which.
- MiddleButton.Emulator.HandleButtons: whether emulation is on does not change during a run.
- Momentum.Scroller.RunDown: the interval, multiplier and divisors stay the same through a run; products are unbounded here and kept in 64 bits in the source; with a vertical divisor of 0 everything is dropped, as in the source.
- The I/O Kit life cycle, work loops, locks, device nubs, configuration lookup and logging.
- The keyboard driver, the debugger escape, the watchdog, and data handled later on the work loop, which are not compiled in or only tables.
- Model identification and hardware set-up sequences other than the read-modify-write of absolute mode.
