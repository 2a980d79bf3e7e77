# Verification of fejkon

fejkon is a Fibre Channel host bus adapter: an FPGA design (SystemVerilog), a Linux driver and a QEMU model of the card
(both C), and a Python test bench that speaks PCI Express packets. This project models the state machines that run
against each other in it and proves what they promise over all their runs.

Hardware blocks are classes whose `Clock` method is one clock edge; C structures are classes whose methods are the
functions of the driver or of the card model; the packet object of the test bench is a class with its fields. Each
method is proved against a function on values, and the theorems are about runs of that function; the I2C driver's
message is proved to be a run of the protocol in `I2cProtocol`, handler by handler.

| module | what it models |
|---|---|
| `FcPrimitives` | transmission words, ordered sets, the decoder (`ip/fc.sv`) |
| `FcPort` | the FC_Port state machine with its hold-off, the state transfer registers, the transmit mux (`ip/fc_framer`) |
| `FcLink` | two ports joined by word delays of any length, with any contents |
| `FcFramer` | the receive framer with its MTU cut-off (`ip/fc_framer/fc_framer.sv`) |
| `FcDelivery` | frames from one user of a link to the other, through transmit mux, line and framer |
| `FcDebug` | the packet generator and the stream arbiter (`ip/fejkon_fc_debug`) |
| `Bits` | bitwise operators, shifts and fields of unbounded numbers |
| `DmaRing`, `RxRing`, `TxRing` | the two DMA rings between the driver and the card, as steps that interleave |
| `TxSplit` | the transmit ring access by access, where the slot's two halves are written and read apart |
| `FejkonRings` | the driver and the card as objects that share memory, proved against those steps |
| `LoopBack` | both rings and the card between them, which receives again what it sends |
| `I2cProtocol` | the I2C driver's transfer against any interrupt and FIFO-level sequence |
| `I2cSystem` | the I2C driver as an object, composed with the card's I2C device |
| `C2hDma`, `C2hPackets`, `C2hWindow` | the card-to-host packet sender and its write pointer, packets that arrive while others go out, and where the writes go (`ip/fejkon_pcie_data`) |
| `Tlp` | the PCI Express packet codec of the test bench (`ip/fejkon_pcie_data/pcie.py`) |
| `Xcvr` | byte order and word alignment around the transceiver (`ip/fc_xcvr/fc_8g_xcvr.sv`) |
| `AvalonBridge` | the bridge from memory requests to the card's bus (`ip/fejkon_pcie_avalon`) |

`dafny verify dfyconfig.toml` checks the whole project.

## Main results

- **The link initialises itself.** Two ports in any of the nine states, with any register contents and any words in
  flight, both reach AC within 10 (dA + dB) + 90 clocks, report active six clocks later, and stay so under every user
  traffic without NOS, OLS, LR or LRR (`FcLink.LinkComesUp`, `LinkBecomesActive`, `LinkServesTraffic`). The proof ranks
  states and signals by level: the lowest level on the link never falls, and each level drains in one round trip.
- **The framer parses.** Its beats are those of a recursive parser for every word sequence, on a link that is active
  or not, and with pauses each beat comes once more for every pause clock after it; SOP and EOP alternate if and only
  if no frame that lost its end is followed by another packet (`FcFramer.FramerParses`, `PausedOutput`,
  `OutputAlternates`).
- **Frames are delivered.** From any contents, once the link has come up, every frame that one user sends, with any of
  the five start and the eight end words, at most the MTU long and without a gap inside, comes out of the far framer
  beat by beat as that packet; every other control word comes out as a packet of one word, fill words and gaps as
  nothing; in order and alone, each word after the delay of the line, whatever harmless words the other user sends
  (`FcDelivery.LinkDelivers`, `FramesArrive`, `LineDelays`).
- **Fill words before a frame.** A user word follows exactly 3 + wait + the stay in LR3 fill words
  (`FcPort.FillWordsBeforeUser`).
- **The receive ring neither loses nor repeats a frame**, in every interleaving of card, interrupts and poll; the poll
  can be woken if and only if no buffer allocation has failed, and from every such state polls take everything that was
  accepted (`RxRing.TakenInOrder`, `UnreadIntact`, `NoLostWakeUp`, `EverythingIsTaken`).
- **The stack gets exactly the frames it should**: of those taken, in every interleaving, the ones whose interface was up
  and whose whole words are at least 36 bytes (`RxRing.PassedIfLongEnough`, `FejkonRings.Driver.Poll`).
- **The transmit ring sends what was queued** if and only if at most a full ring was queued from that frame on
  (`TxRing.SentInOrder`); access by access, each frame has the metadata and the payload its slot held at two different
  times, and at a full ring they can be of two frames (`TxSplit.SentPieceByPiece`, `TornFrame`). With less than a full
  ring announced the card sends all of it (`AnnouncedAreSent`).
- **A queued frame comes back.** In every interleaving the looped frames that `poll` takes are the first frames
  `net_tx` queued, in order, each once, if neither ring was overrun (`LoopBack.QueuedFramesComeBack`).
- **The I2C driver reads the memory it asked for**, for every offset, length and content (`I2cSystem.I2cDev.ReadMemory`),
  and every message is a run of the protocol (`XferMsg`), whose commands are exactly the message's
  (`I2cProtocol.CommandStream`).
- **One counter write yields exactly that many generated packets**, and the arbiter neither loses, repeats nor reorders
  anything, and splits a packet if and only if its source pauses inside it at the wrong moment
  (`FcDebug.WriteGivesPackets`, `InputConserved`, `PacketsAreWhole`, `SplitByGap`). An offered input beat waits for at
  most the packet that has the output (`InputHasPriority`).
- **Every DMA write stays inside the window and its page**, at every beat of every run from power-up, whatever arrives
  and through resets, host writes and changes of identity (`C2hWindow.WritesStayInWindow`).
- **Each packet becomes its TLP**, while others arrive in any rhythm: what has gone out is at every clock a prefix of the
  packets' TLPs, and all of them after one clock for each header and beat; they go to the slots of the window in turn,
  the header agrees with the beats, and the host reads the packet's characters in the order of transmission
  (`C2hPackets.PacketsSent`, `AllPacketsSent`, `TlpSlot`, `C2hDma.TlpCarries`, `DriverReadsPacket`).
- **The packet codec round-trips** a memory or I/O request if and only if the word format can say it, and a
  configuration request or a completion if and only if the fields it loses are at rest (`Tlp.RoundTrip`,
  `IntelRoundTrip`, `ConfigRoundTrip`, `CompletionRoundTrip`), and byte enables select exactly the bytes asked for
  (`ByteEnables`, `WriteDelivers`).
- **A flagged received word is the transmitted word if and only if the latch is in phase**, from every state of the
  receiver, for every stream and phase (`Xcvr.FlaggedWordIs`). From the first synchronised comma on it always is
  (`WordsAfterComma`, `AlignedForGood`), and from power-up on a line without stray commas no flagged word is ever wrong
  (`AlignedWordIsTransmitted`).
- **Each read has exactly one response**, its own, and has it however long the bus waits
  (`AvalonBridge.EachReadAnsweredOnce`, `ReadIsServed`).

## Where the code departs from its comments or its intent

The model follows the code. Each line names the result that says exactly when the code does what is meant.

- `ip/fc_framer/fc_state_rx.sv:62-63` asks for at least six fill words on entry to AC. The first three clocks of the
  six-clock hold-off still send what the state transfer registers held (`FcPort.FirstThreeClocks`), so a user word
  follows 3 + wait + LR3 fill words, for a user that waits `wait` clocks and a port that spent LR3 clocks in LR3, whose
  words are IDLE too. There are six if and only if the wait and the stay make three clocks (`FillWordsBeforeUser`): a
  port that comes up through LR2 sends three before an eager user (`ThreeFillWords`), and one that spent three clocks in
  LR3 sends six (`SixFillWords`).
- `ip/fc_framer/fc_framer.sv:197-199`: a fill word inside a frame drops the word that would carry EOP
  (`FcFramer.OutputAlternates`, counterexample `FillInsideFrame`). `:187-193`: a start-of-frame inside a frame
  restarts its length count (`PacketLength`, whose bound `NestedSofLengthens` meets for every MTU and every number of
  them). `:168`: the outputs hold while no valid word arrives, so a consumer sees the last beat again, and exactly the
  packets if and only if no pause follows a beat (`PausedOutput`, counterexample `PauseDoublesStart`).
- `ip/fejkon_fc_debug/fejkon_fc_debug.sv:96-113`: a source that pauses inside a packet while the input register is empty
  and generated packets are asked for loses the output, and its packet is split once the sink takes a beat
  (`FcDebug.SplitByGap`, counterexample `GapSplitsPacket`).
- `driver/src/board.c:108-112` returns from poll without completing it: after one failed allocation no frame is ever
  taken again (`RxRing.NoLostWakeUp`, `StallIsForever`), and such a run exists (`AllocationCanFail`).
- `driver/src/board.c:189` never fires, because the pointer it compares does not wrap and the cached pointer stays at the
  start (`TxRing.FullTestNeverFires`); a full ring then looks empty to the card (`FullRingLooksEmpty`), and a batch of
  129 frames overwrites its first (`SentInOrder`, counterexample `OverfullRingSendsLast`). Were the test to fire, it
  would read register 0x8C8, while the card serves that pointer at 0x8CC (`driver/qemu-device/fejkon.c:147`).
- `driver/qemu-device/fejkon.c:348-354` reads metadata and payload of a slot one after the other; when the driver has
  overwritten the slot in between, the card sends the port and length of one frame with the payload of another
  (`TxSplit.SentPieceByPiece`, counterexample `TornFrame`).
- `driver/src/board.c:452` checks that the rings start below 4 GiB; the card keeps their ends in 32 bits, so a ring that
  ends at or above 4 GiB breaks at every increment (`DmaRing.EndMustFit`).
- `driver/src/i2c.c:273-279` finishes a read after a receive overflow without setting an error, so the transfer reports
  success with the bytes that had come (`I2cSystem.I2cDev.Isr`, `OverflowShortens`).
- `ip/fejkon_pcie_data/c2h_dma.sv:298` strobes twice for a packet longer than 56 dwords, so its successor goes one slot
  too far unless the window has at most two slots (`C2hDma.TruncatedSkipsSlot`), and the driver reads a length longer
  than what was sent (`DriverReadsPacket`).
- `ip/fejkon_pcie_data/fejkon_pcie_data.sv:510` adds in 32 bits: with a single-slot window just below the top of the
  address space the pointer leaves the window, and with no other (`C2hDma.AdvanceStaysInWindow`).
- `ip/fejkon_pcie_data/pcie.py:374-379` does not clear the word between the two halves of a long address: the low word
  keeps the bits of the high one (`Tlp.RoundTrip`, `LongAddressLost`). Length 1024 is read back as 0 in a request
  without data (`LargestReadLost`). `:318` masks with a sum, so the lower address leaves out the byte offset
  (`LowerAddressIs`). `:444` shifts the register number out (`ConfigRoundTrip`, counterexample `ConfigReadLost`). `:472`
  overwrites the lower address of a completion, and a byte count of zero comes back as 4096 (`CompletionRoundTrip`,
  counterexample `CompletionLost`). `:208` can never be true. `:402-409` pads behind a long address by the same rule as
  behind a short one, which leaves the data four bytes off their place in eight (`IntelAlignment`).
- `ip/fejkon_pcie_data/c2h_dma.sv:152-160`: a reset clears the sender but not its read request
  (`C2hDma.C2hSender.Reset`).
- `ip/fc_xcvr/fc_8g_xcvr.sv:146-154` never clears the latched phase, and the flag (`:141-144`) asks only for some latched
  phase. A latch left at another phase flags wrong words until a synchronised comma comes (`Xcvr.FlaggedWordIs`; on a
  stream of data words all of them, `StaleLatch`).
- `ip/fc_xcvr/fc_8g_xcvr.sv:156-161` says the flag matches the latency of the data. It comes one clock later: after
  power-up the word of a latching comma is shown with the flag down unless an earlier comma has latched
  (`Xcvr.FirstCommaUnflagged`, `FirstIdleUnflagged`, `SecondIdleFlagged`).

## Model

| member | source | states |
|---|---|---|
| FcPrimitives.CodesAreCharacters | ip/fc.sv:9-34 | each constant is the ordered set of Tables 7 to 9 of FC-FS-5, spelled in its four characters |
| FcPrimitives.MapPrimitiveInvertsCodes | ip/fc.sv:72-102 | the decoder gives a primitive if and only if the word is one of its codes; no arm shadows a later one |
| FcPrimitives.DelimiterWords | ip/fc.sv:72-102 | word by word: exactly five words start a frame, eight end one, and two are fill words |
| FcPort.StateWordSignals | ip/fc_framer/fc_state_tx.sv:9-25 | the word a state transmits is decoded as the primitive of that state |
| FcPort.FcStateRx.constructor | ip/fc_framer/fc_state_rx.sv:11-64 | power-up in LF2 with the full hold-off |
| FcPort.FcStateRx.NextState | ip/fc_framer/fc_state_rx.sv:16-52 | the next-state block is the table that `FcPort.StateAfter` spells out state by state and word by word |
| FcPort.FcStateRx.Clock | ip/fc_framer/fc_state_rx.sv:54-74 | one clock: reset to LF2, move only on an ordered set, restart or count down the hold-off |
| FcPort.FcPort.Clock | ip/fc_framer/fc_framer.sv:99-140 | one clock of receiver, state transfer registers and transmit mux |
| FcPort.StateAfter | ip/fc_framer/fc_state_rx.sv:16-76 | for every port and received word the state and the hold-off after the clock: NOS and OLS move every state, LR and LRR leave LF2 and OL3 no better than LF2, fill words end a link reset, and nothing else does anything |
| FcPort.WordSent | ip/fc_framer/fc_framer.sv:97-135 | for every port the word sent: the user's, a control word if it begins or ends a frame, while AC has held for six clocks; else the ordered set of the state three registers back |
| FcPort.DownUntilOlsOrNos | ip/fc_framer/fc_state_rx.sv:16-60 | in every run from LF2 without reset the state is LF2 until the first OLS or NOS, which moves it to OL2 or LF1 |
| FcPort.HoldOffCountsDown | ip/fc_framer/fc_state_rx.sv:62-76 | a port kept in AC has hold-off 6 - n after n clocks, and what it transmits meanwhile |
| FcPort.FillInActive | ip/fc_framer/fc_framer.sv:97-135 | after the third clock in AC every word is a fill word until the user's, so they follow those on their way |
| FcPort.FillFromLr3 | ip/fc_framer/fc_framer.sv:97-135 | a port that entered LR3 has one fill word sent or on its way for every clock of it |
| FcPort.FillWordsBeforeUser | ip/fc_framer/fc_state_rx.sv:62-76 | the number of fill words directly before the first user word is 3 + wait + the clocks in LR3; at least six if and only if wait and LR3 make three |
| FcPort.ThreeFillWords | ip/fc_framer/fc_state_rx.sv:62-63 | OLS, LR and IDLE bring a port up through LR2, and an eager user's word follows three fill words |
| FcPort.SixFillWords | ip/fc_framer/fc_state_rx.sv:62-63 | three LRR words keep a port in LR3, and six fill words come |
| FcPort.FirstThreeClocks | ip/fc_framer/fc_framer.sv:97-103 | the first three clocks in AC send the words of the three states in the transfer registers, oldest first |
| FcLink.QuietStepIsLoopStep | ip/fc_framer/fc_framer.sv:99-140 | a clock of two joined ports without traffic is a step of two states and two queues of signals |
| FcLink.QuietRunIsLoopRun | ip/fc_framer/fc_framer.sv:99-140 | the same for every run |
| FcLink.NextNeverDrops | ip/fc_framer/fc_state_rx.sv:16-52 | a state at or above a level, receiving at or above it, stays so, and strictly above stays strictly above |
| FcLink.NextFollows | ip/fc_framer/fc_state_rx.sv:16-52 | the signal of the lowest level moves any state to the level above it, and the next signal moves it further |
| FcLink.EmitsItsLevel | ip/fc_framer/fc_state_tx.sv:9-25 | every state transmits the signal of its own level |
| FcLink.AboveForever | ip/fc_framer/fc_state_rx.sv:16-60 | the lowest level over both states and every word in flight never falls |
| FcLink.StateClimbs | ip/fc_framer/fc_state_rx.sv:16-60 | a state at the lowest level leaves it within one round trip |
| FcLink.LevelDrains | ip/fc_framer/fc_state_rx.sv:16-60 | within one level time nothing on the link is at the lowest level any more |
| FcLink.LinkSettles | ip/fc_framer/fc_state_rx.sv:16-60 | within a bound linear in the delays neither a state nor a word in flight is below AC |
| FcLink.LinkComesUp | ip/fc_framer/fc_state_rx.sv:16-60 | from any states, contents and delays both ports reach AC within that bound and stay there |
| FcLink.LinkBecomesActive | ip/fc_framer/fc_state_rx.sv:62-76 | six clocks later both report active, for good |
| FcLink.HarmlessStaysActive | ip/fc_framer/fc_state_rx.sv:16-52 | the words that leave a receiver in AC are exactly those that are no NOS, OLS, LR or LRR |
| FcLink.TrafficKeepsLinkUp | ip/fc_framer/fc_framer.sv:129-143 | no traffic free of NOS, OLS, LR and LRR brings a link down or a port out of active |
| FcLink.LinkServesTraffic | ip/fc_framer/fc_framer.sv:97-143 | after the bound any such traffic finds both ports active and leaves them so |
| FcDelivery.LineDelays | ip/fc_framer/fc_framer.sv:97-140 | in service the far receiver gets what was in flight and then what the user sends, each word after the delay of the line, under any harmless traffic on both sides |
| FcDelivery.BodyParses | ip/fc_framer/fc_framer.sv:173-193 | data and any of the eight end-of-frame words that fit the MTU end a packet with exactly these words |
| FcDelivery.SignalParses | ip/fc_framer/fc_framer.sv:182-207 | between frames a fill word or a stray end of frame is no packet, and any other control word that starts no frame is a packet of one word |
| FcDelivery.SaidAreSent | ip/fc_framer/fc_framer.sv:129-135 | what a user says beat by beat goes out as the words of its frames, control words and gaps |
| FcDelivery.ItemsParse | ip/fc_framer/fc_framer.sv:159-210 | the parser finds in frames, control words and gaps exactly their packets |
| FcDelivery.ItemsFlatten | ip/fc_framer/fc_framer.sv:210-214 | the beats of these packets: a start at the first word of a frame, an end at its last, both at a packet of one word |
| FcDelivery.FramesArrive | ip/fc_framer/fc_framer.sv:97-210 | on a link in service, whatever the users say beat by beat: every frame with one of the five start and the eight end words comes out of the far framer as these words with SOP and EOP at its ends, every other control word as a packet of one word, fill words and gaps as nothing, in order, and nothing else |
| FcDelivery.LinkDelivers | ip/fc_framer/fc_framer.sv:97-210 | the same from any states, contents and framer registers, once the link has come up |
| FcDelivery.MirrorRuns | ip/fc_framer/fc_framer.sv:97-140 | a link seen from its other end runs as a link, so the same holds the other way |
| FcFramer.Framer.constructor | ip/fc_framer/fc_framer.sv:152-157 | the registers at power-up |
| FcFramer.Framer.Clock | ip/fc_framer/fc_framer.sv:159-210 | one receive clock, later assignments over earlier ones, held while no valid word arrives; `FcFramer.WordDelivered` says what it does word by word |
| FcFramer.KindsOfWords | ip/fc_framer/fc_framer.sv:182-207 | for every word, on an active link or not, which arm of the block it takes |
| FcFramer.WordDelivered | ip/fc_framer/fc_framer.sv:167-208 | for every state and kind of word what is delivered and with which marks, whether the packet goes on and how long it is, and what the counter counts |
| FcFramer.InsideRefines | ip/fc_framer/fc_framer.sv:173-208 | from inside a packet the output is the rest of that packet and then the parser's packets |
| FcFramer.FramerParses | ip/fc_framer/fc_framer.sv:159-210 | for every sequence of words, each on an active link or not, the valid beats are those of the recursive parser's packets |
| FcFramer.ParsedPackets | ip/fc_framer/fc_framer.sv:173-208 | packets are non-empty and at most the last is open |
| FcFramer.OutputAlternates | ip/fc_framer/fc_framer.sv:159-210 | SOP and EOP alternate if and only if no frame that a fill word cut, or the length limit on an inactive link, is followed by a packet |
| FcFramer.FillInsideFrame | ip/fc_framer/fc_framer.sv:197-199 | a concrete frame with IDLE in it: two SOP beats without an EOP between |
| FcFramer.PacketLength | ip/fc_framer/fc_framer.sv:173-193 | a packet, undelivered words counted, is at most the MTU, plus MTU - 8 per nested start-of-frame; a runaway frame is cut at exactly the MTU |
| FcFramer.NestedSofLengthens | ip/fc_framer/fc_framer.sv:187-193 | for every MTU and every n a frame with n start-of-frame words in it that reaches the bound |
| FcFramer.PausesRepeatBeats | ip/fc_framer/fc_framer.sv:168-172 | from any registers, what each word puts on the output is seen once more for every pause clock after it |
| FcFramer.PausedOutput | ip/fc_framer/fc_framer.sv:159-210 | for every sequence of words and pauses the consumer sees the parser's beats so repeated, and exactly them if and only if no pause follows a beat |
| FcFramer.PauseDoublesStart | ip/fc_framer/fc_framer.sv:168-172 | a start-of-frame and a pause: two SOP beats |
| FcDebug.Generator.constructor | ip/fejkon_fc_debug/generator.sv:15-22 | the generator at power-up |
| FcDebug.FcDebug.constructor | ip/fejkon_fc_debug/fejkon_fc_debug.sv:63-64 | generator and arbiter at power-up |
| FcDebug.Generator.Clock | ip/fejkon_fc_debug/generator.sv:24-48 | one clock of the two-beat generator |
| FcDebug.FcDebug.Outputs | ip/fejkon_fc_debug/fejkon_fc_debug.sv:143-169 | output and ready drivers of the selected source |
| FcDebug.FcDebug.NextCounter | ip/fejkon_fc_debug/fejkon_fc_debug.sv:68-81 | a register write wins over the decrement; zero and all ones do not count down |
| FcDebug.FcDebug.Arbitrate | ip/fejkon_fc_debug/fejkon_fc_debug.sv:96-113 | the source changes only after a packet or when idle, to the input if that offers a beat; `FcDebug.InputHasPriority` says what that gives the input |
| FcDebug.FcDebug.Clock | ip/fejkon_fc_debug/fejkon_fc_debug.sv:68-141 | one clock of all blocks, each reading the registers before it |
| FcDebug.FcDebug.Reset | ip/fejkon_fc_debug/fejkon_fc_debug.sv:68-141 | a clock in reset |
| FcDebug.OutputHolds | ip/fejkon_fc_debug/fejkon_fc_debug.sv:96-159 | an offered beat that is not taken does not change, nor does its source |
| FcDebug.InputConserved | ip/fejkon_fc_debug/fejkon_fc_debug.sv:126-167 | in every run the input's beats come out in order, none lost and none repeated, at most one held |
| FcDebug.PacketsAreWhole | ip/fejkon_fc_debug/fejkon_fc_debug.sv:96-167 | in every run every packet at the output is whole and from one source |
| FcDebug.StepCounts | ip/fejkon_fc_debug/fejkon_fc_debug.sv:68-124 | packets started plus what the counter still allows is constant, and each offered clock makes progress |
| FcDebug.WriteGivesPackets | ip/fejkon_fc_debug/fejkon_fc_debug.sv:68-124 | one write of n to an idle generator, whatever it sent before, yields never more than n packets, and exactly n once the output was offered 3 n + 1 times |
| FcDebug.NothingUnasked | ip/fejkon_fc_debug/fejkon_fc_debug.sv:68-124 | a generator that nobody asks for a packet starts none and never has the output |
| FcDebug.EndlessStays | ip/fejkon_fc_debug/fejkon_fc_debug.sv:68-81 | a counter of all ones stays, in every run that does not write it |
| FcDebug.GeneratedBeats | ip/fejkon_fc_debug/generator.sv:24-48 | in every run each generated beat is one of the two beats of the packet, digit by digit, as start and end |
| FcDebug.WaitingStep | ip/fejkon_fc_debug/fejkon_fc_debug.sv:96-141 | one clock on which the input offers a beat: what the generator still has to send falls by one for each clock with a ready sink, and then the beat is taken |
| FcDebug.InputHasPriority | ip/fejkon_fc_debug/fejkon_fc_debug.sv:104-113 | while the input keeps offering a beat the generator starts at most the packet it already shows, and none if that has begun; after two clocks with a ready sink the input has the output and its beat is taken |
| FcDebug.SplitByGap | ip/fejkon_fc_debug/fejkon_fc_debug.sv:96-113 | a packet at the output is split if and only if its source paused inside it with the input register empty while packets were asked of the generator, and the sink then took a beat |
| FcDebug.GapSplitsPacket | ip/fejkon_fc_debug/fejkon_fc_debug.sv:96-113 | five clocks that split a packet |
| DmaRing.CardSlotDecodes | driver/qemu-device/fejkon.c:271-273 | what the card writes in a slot is read back as port, length in whole words and offset |
| DmaRing.DriverSlotDecodes | driver/src/board.c:212-217 | the same for what the driver writes, with every field cut to its width |
| DmaRing.MetadataLayout | driver/src/board.c:92-96 | the metadata bit by bit, as both sides write it and read it: offset in bits 3 to 0, length in words in 13 to 4, port in 15 and 14 |
| DmaRing.DmaIncrAdvances | driver/qemu-device/fejkon.c:259-264 | the card's increment goes to the next of 128 slots, with wrap-around |
| DmaRing.HostIncrAdvances | driver/src/board.c:126-129 | the host's increment goes to the same slot |
| DmaRing.SlotsDiffer | driver/qemu-device/fejkon.c:259-282 | two frames less than a full ring apart have different slots |
| DmaRing.EndMustFit | driver/src/board.c:450-464 | every increment goes to the next slot if and only if the ring's end fits 32 bits; else every one leaves the ring |
| RxRing.ReceiveKeepsUnread | driver/qemu-device/fejkon.c:266-282 | a frame is accepted if and only if fewer than 127 are unread; its slot is written in any case, and no unread slot changes |
| RxRing.StepKeepsConsistent | driver/src/board.c:80-142 | every step keeps both pointers, the stored frames and the order of what was taken |
| RxRing.TakenInOrder | driver/src/board.c:80-135 | in every interleaving poll takes the accepted frames in order, each once |
| RxRing.UnreadIntact | driver/qemu-device/fejkon.c:266-282 | in every interleaving no slot between the read pointers and the write pointer is overwritten |
| RxRing.TakeOutcome | driver/src/board.c:92-130 | what an iteration of poll does with the next frame: drop it if the interface is down or its whole words are less than 36 bytes, pass it on, or return for want of a buffer |
| RxRing.PassedIfLongEnough | driver/src/board.c:98-123 | in every interleaving the i-th frame taken was passed to the stack if and only if the iteration that took it found the interface up and its whole words at least 36 bytes |
| RxRing.ArmingStep | driver/qemu-device/fejkon.c:317-331 | an interrupt is raised exactly by a pass that finds it armed and frames unread, which disarms it; only a write of the read pointer arms it again |
| RxRing.OneInterruptForEachArming | driver/qemu-device/fejkon.c:317-331 | in every run at most one interrupt for the set-up and one for each write of the read pointer |
| RxRing.PollsAreAskedFor | driver/src/board.c:138-149 | in every run there are no more polls, those still to come included, than interrupts and polls that ran out of budget |
| RxRing.StepKeepsHealth | driver/src/board.c:107-149 | a step keeps the poll wakeable unless an allocation fails in it, and then it stalls |
| RxRing.NoLostWakeUp | driver/qemu-device/fejkon.c:317-331 | the poll can be woken if and only if no allocation has ever failed |
| RxRing.StallIsForever | driver/src/board.c:107-112 | after a failed allocation no run takes another frame |
| RxRing.AllocationCanFail | driver/src/board.c:107-112 | one received frame, one interrupt and one poll reach the stall |
| RxRing.LoopTakes | driver/src/board.c:82-130 | n iterations of poll's loop take n frames, or as many as there are and the budget allows |
| RxRing.PollFinishes | driver/src/board.c:71-142 | from every healthy state, in any phase, a poll runs to its end, idle and healthy; one that has just begun takes the unread frames up to its budget |
| RxRing.RoundTakes | driver/src/board.c:71-149 | between polls one interrupt and one poll take exactly the unread frames or as many as the budget allows |
| RxRing.EverythingIsTaken | driver/src/board.c:71-149 | from every healthy state, in any phase, one round for every 64 unread frames takes all that were accepted |
| TxRing.FullTestNeverFires | driver/src/board.c:189-202 | the full test is false in every reachable state |
| TxRing.XmitKeepsConsistent | driver/src/board.c:204-232 | queuing a frame keeps the latest frame of every slot |
| TxRing.FetchKeepsConsistent | driver/qemu-device/fejkon.c:333-360 | the card sends what the slot held when it read it |
| TxRing.SentInOrder | driver/qemu-device/fejkon.c:333-360 | with a call of net_tx and a fetch of the card in one piece each, the i-th frame sent is the i-th queued if and only if at most 128 were queued from it on, whatever the batching |
| TxRing.OverfullRingSendsLast | driver/src/board.c:189-232 | a batch of 129 frames: the card sends the last one first |
| TxRing.CardSeesWork | driver/qemu-device/fejkon.c:344-346 | the card sees work if and only if the announced unread frames are no multiple of 128 |
| TxRing.FullRingLooksEmpty | driver/qemu-device/fejkon.c:344-346 | a full ring of announced frames is never sent |
| TxRing.QueuedAndAnnounced | driver/src/board.c:177-234 | in every run the frames queued are those of the calls, in order, and those announced are all up to the last call that says no more are to come |
| TxRing.AnnouncedAreSent | driver/qemu-device/fejkon.c:333-360 | with fewer than a full ring announced every pass of the card's thread sends a frame, until all announced are sent |
| TxSplit.CallIsXmit | driver/src/board.c:189-232 | the accesses of a call of net_tx that nothing interrupts are one step of the ring |
| TxSplit.ReadsAreFetch | driver/qemu-device/fejkon.c:344-358 | so are the reads of the card |
| TxSplit.StepKeeps | driver/qemu-device/fejkon.c:344-358 | every access keeps the last 128 metadata words and payloads in the ring, and what each sent frame was made of |
| TxSplit.SentPieceByPiece | driver/qemu-device/fejkon.c:333-360 | in every interleaving of the accesses a sent frame has the metadata and the payload last in its slot when each was read; it is the i-th queued, whole, if at both times at most 128 had been written from it on |
| TxSplit.TornFrame | driver/qemu-device/fejkon.c:348-354 | two frames queued between the two reads: one frame's port and length go out with another's payload |
| FejkonRings.Card.constructor | driver/qemu-device/fejkon.c:61-65 | a card nobody has configured |
| FejkonRings.Card.Bar0Write | driver/qemu-device/fejkon.c:194-237 | the six ring registers, 32 bits each; the read pointer arms the interrupt |
| FejkonRings.Card.RxPkt | driver/qemu-device/fejkon.c:266-282 | the slot is written, then the frame is accepted or counted as overflow |
| FejkonRings.Card.RxIrqThread | driver/qemu-device/fejkon.c:317-331 | one interrupt per arming, when frames are unread |
| FejkonRings.Card.TxThread | driver/qemu-device/fejkon.c:333-360 | the oldest announced frame is read, received again and passed over |
| FejkonRings.Driver.constructor | driver/src/board.c:434-448 | a driver before its set-up |
| FejkonRings.Driver.SetupBuffers | driver/src/board.c:434-470 | the set-up is the initial state of both rings, or fails for a bus address above 32 bits |
| FejkonRings.Driver.PointAt | driver/src/board.c:440-448 | the host pointers of both rings |
| FejkonRings.Driver.ConfigureCard | driver/src/board.c:459-466 | the card ring registers after the set-up, and the interrupt armed |
| FejkonRings.Driver.RxIrq | driver/src/board.c:144-149 | the interrupt handler schedules the poll |
| FejkonRings.Driver.NapiComplete | driver/src/board.c:138-140 | a poll scheduled again meanwhile stays listed |
| FejkonRings.Driver.CardReceives | driver/qemu-device/fejkon.c:266-282 | frames that arrive between two accesses of the driver are steps of the run |
| FejkonRings.Driver.ReadWritePointer | driver/src/board.c:80-81 | poll reads the write pointer once, and stops there |
| FejkonRings.Driver.AdvanceRead | driver/src/board.c:125-129 | one slot further, with wrap-around |
| FejkonRings.Driver.TakeFrame | driver/src/board.c:82-130 | the body of poll's loop is one step of the ring, failed allocation included; the next accepted frame goes to the stack if and only if the interface is up, its whole words are at least 36 bytes and a buffer is there, else it is counted as dropped |
| FejkonRings.Driver.Iterate | driver/src/board.c:82-130 | an iteration of poll extends the run by one step and what the stack has got by that frame |
| FejkonRings.Driver.Poll | driver/src/board.c:71-142 | a call of poll, with frames arriving at every iteration, is a run of steps; it takes as many frames as it returns, at most the budget, and passes to the stack exactly those of the next accepted frames whose interface was up and whose whole words are at least 36 bytes, in order |
| FejkonRings.Driver.PublishReadPointer | driver/src/board.c:132-135 | the read pointer goes to the card |
| FejkonRings.Driver.CompletePoll | driver/src/board.c:138-141 | poll completes if it has budget left |
| FejkonRings.Driver.StoreFrame | driver/src/board.c:204-225 | metadata and frame go to the next slot |
| FejkonRings.Driver.RingDoorbell | driver/src/board.c:228-232 | everything queued is announced |
| FejkonRings.Driver.DropWhenFull | driver/src/board.c:189-202 | the full branch, with the register it reads |
| FejkonRings.Driver.NetTx | driver/src/board.c:177-234 | queuing a frame is one step of the transmit ring, and drops nothing |
| FejkonRings.IrqThreadPass | driver/qemu-device/fejkon.c:317-331 | a pass of the interrupt thread is one step of the receive ring |
| FejkonRings.DeliverMsi | driver/src/board.c:144-149 | a delivered interrupt is one step of the receive ring |
| FejkonRings.TxThreadPass | driver/qemu-device/fejkon.c:333-360 | a pass of the transmit thread is a fetch and an advance of one ring and a receive of the other |
| LoopBack.PassIsTwoSteps | driver/qemu-device/fejkon.c:333-360 | such a pass is two steps of both rings together |
| LoopBack.StepKeepsLinked | driver/qemu-device/fejkon.c:266-360 | every step keeps both rings consistent and the looped frames accepted equal to the frames sent, while none was lost |
| LoopBack.SentAreCarried | driver/qemu-device/fejkon.c:333-360 | the frames sent are the first frames queued, if none was overwritten |
| LoopBack.QueuedFramesComeBack | driver/src/board.c:71-234 | in every run the looped frames that poll takes are the first frames net_tx queued, in order, each once, if neither ring was overrun |
| I2cProtocol.CommandDecodes | driver/src/i2c.c:191-198 | a command is its byte, with bit 8, STOP, if and only if it is the last |
| I2cProtocol.StartDecodes | driver/src/i2c.c:319-333 | the first command is bit 9, START, and the address byte: seven bits of address above the direction |
| I2cProtocol.MarkedStopsLast | driver/src/i2c.c:187-198 | of the commands of a message only the last has STOP |
| I2cProtocol.DrainReadsAhead | driver/src/i2c.c:204-214 | draining any number of received bytes stores them in order and asks for one byte each |
| I2cProtocol.FillIsMarked | driver/src/i2c.c:220-233 | filling writes the next commands of the message |
| I2cProtocol.IsrKeepsProper | driver/src/i2c.c:248-312 | every handler run keeps the written commands a prefix of the message's and at most one read outstanding |
| I2cProtocol.CommandStream | driver/src/i2c.c:248-344 | for every interrupt and FIFO-level sequence the commands are START with the address, then the bytes in order with STOP on the last only; the transfer completes at most once |
| I2cProtocol.IsrProgress | driver/src/i2c.c:248-312 | every useful interrupt deals with a byte or completes |
| I2cProtocol.Completes | driver/src/i2c.c:248-344 | n bytes complete within n + 1 useful interrupts |
| I2cSystem.AvalonI2c.constructor | driver/qemu-device/i2c.c:43-103 | a device with its memory and nothing pending |
| I2cSystem.AvalonI2c.ReadRx | driver/qemu-device/i2c.c:46-51 | a read of the receive register, empty FIFO included, with wrap-around of the offset |
| I2cSystem.AvalonI2c.WriteTx | driver/qemu-device/i2c.c:76-94 | a command: START sets the direction, a written byte sets the offset, any other asks for a byte |
| I2cSystem.AvalonI2c.WriteCtrl | driver/qemu-device/i2c.c:95-104 | enabling empties the FIFO; other values are ignored |
| I2cSystem.AvalonI2c.WriteIser | driver/qemu-device/i2c.c:105-108 | the two interrupt enables |
| I2cSystem.I2cDev.IntEnable | driver/src/i2c.c:98-115 | mask read, changed and written back |
| I2cSystem.I2cDev.CoreDisable | driver/src/i2c.c:124-129 | the core is off |
| I2cSystem.I2cDev.CoreEnable | driver/src/i2c.c:131-136 | the core is on and its FIFO empty |
| I2cSystem.I2cDev.Transfer | driver/src/i2c.c:191-198 | one command on the device, nothing when no byte is left |
| I2cSystem.I2cDev.TakeByte | driver/src/i2c.c:209-213 | the received byte is the device's, and the next is asked for unless it was the last |
| I2cSystem.I2cDev.EmptyRxFifo | driver/src/i2c.c:204-214 | at any level of the receive FIFO its bytes are drained in order as in the protocol, and the device moves on by as many |
| I2cSystem.I2cDev.SendByte | driver/src/i2c.c:227-230 | the next byte of the buffer, as the next command of the message |
| I2cSystem.I2cDev.FillTxFifo | driver/src/i2c.c:220-233 | as many bytes as there is room for, in order |
| I2cSystem.I2cDev.FillMessage | driver/src/i2c.c:220-233 | that is the fill of the protocol |
| I2cSystem.I2cDev.IsrQuick | driver/src/i2c.c:235-246 | only enabled interrupts wake the handler |
| I2cSystem.I2cDev.Finish | driver/src/i2c.c:298-309 | everything is masked and the message completes |
| I2cSystem.I2cDev.Isr | driver/src/i2c.c:248-312 | every branch of the handler, by the interrupt: lost arbitration, no acknowledge, overflow, received bytes, room for commands, and anything else |
| I2cSystem.AfterIsrIs | driver/src/i2c.c:248-312 | without an error interrupt the handler is that of the protocol |
| I2cSystem.OverflowShortens | driver/src/i2c.c:273-279 | an overflow completes the message, which is all there if and only if the FIFO held what was left |
| I2cSystem.ErrorsComplete | driver/src/i2c.c:255-271 | a lost arbitration completes the message with nothing more sent or received, and a missing acknowledge with a STOP |
| I2cSystem.I2cDev.HandleInterrupt | driver/src/i2c.c:235-312 | one interrupt is one useful step of the protocol and keeps the transfer on its course |
| I2cSystem.I2cDev.HandleByte | driver/src/i2c.c:280-285 | the interrupt of a received byte |
| I2cSystem.I2cDev.HandleRoom | driver/src/i2c.c:286-292 | the interrupt of room in the transfer FIFO |
| I2cSystem.I2cDev.FlushRxFifo | driver/src/i2c.c:328-331 | the FIFO is emptied, and the device moves on by as many bytes |
| I2cSystem.I2cDev.SendAddress | driver/src/i2c.c:319-333 | START and the address byte, after a clean set-up |
| I2cSystem.I2cDev.BeginMsg | driver/src/i2c.c:321-344 | interrupts on, and the first commands of the protocol written |
| I2cSystem.I2cDev.WaitForCompletion | driver/src/i2c.c:346-348 | the interrupts handled make a run of the protocol; the wait ends in time if and only if the message is not empty |
| I2cSystem.I2cDev.RunMsg | driver/src/i2c.c:319-348 | the commands are those of a run of the protocol and, in all, the message's; a read gets the memory from where the device stands |
| I2cSystem.I2cDev.XferMsg | driver/src/i2c.c:314-362 | the same, with everything masked and the core off at the end; an empty message times out |
| I2cSystem.I2cDev.XferNext | driver/src/i2c.c:370-374 | one more message sent after those before it, failed or not |
| I2cSystem.I2cDev.Xfer | driver/src/i2c.c:364-376 | the messages in order up to the first empty one, with shared buffers or not: their commands and no others, each read from where the message before left the device |
| I2cSystem.I2cDev.ReadMemory | driver/src/i2c.c:314-376 | a one-byte write of o, then a read of n bytes, gives data[(o + i) mod 256] for every i < n |
| C2hDma.SwapUndoesSwap | ip/fejkon_pcie_data/c2h_dma.sv:231-266 | the byte swap of a dword loses nothing |
| C2hDma.ByteSwapped | ip/fejkon_pcie_data/c2h_dma.sv:231-266 | byte j of a swapped dword is byte 3 - j of the dword |
| C2hDma.HostReadsCharacters | ip/fejkon_pcie_data/c2h_dma.sv:231-266 | the bytes the host reads of swapped dwords are the characters of the dwords in the order of transmission |
| C2hDma.WritePointer.Clock | ip/fejkon_pcie_data/fejkon_pcie_data.sv:502-517 | reset, load, advance or wrap of the write pointer, in 32 bits |
| C2hDma.C2hSender.constructor | ip/fejkon_pcie_data/c2h_dma.sv:141-148 | the sender at power-up |
| C2hDma.C2hSender.SendHeader | ip/fejkon_pcie_data/c2h_dma.sv:165-229 | the header beat: format, length, identity, byte enables, address, metadata |
| C2hDma.C2hSender.SendData | ip/fejkon_pcie_data/c2h_dma.sv:230-281 | a data beat: up to eight dwords, each with its bytes reversed (`C2hDma.ByteSwapped`), the end at the last, nothing beyond 56 |
| C2hDma.C2hSender.Reset | ip/fejkon_pcie_data/c2h_dma.sv:152-160 | every register but the read request is cleared, and the queues |
| C2hDma.C2hSender.Clock | ip/fejkon_pcie_data/c2h_dma.sv:116-298 | one clock of sender, queues, strobe and write pointer, with arriving beats and metadata, reset and host write |
| C2hPackets.Starts | ip/fejkon_pcie_data/c2h_dma.sv:165-229 | the header beat of the next packet, while others arrive |
| C2hPackets.Continues | ip/fejkon_pcie_data/c2h_dma.sv:230-300 | a data beat: the rest of the packet, the queues and the pointer are as they should be, while others arrive |
| C2hPackets.Ends | ip/fejkon_pcie_data/c2h_dma.sv:230-300 | the last beat leaves the FIFO at the next packet and the pointer where the packet leaves it |
| C2hPackets.StepStands | ip/fejkon_pcie_data/c2h_dma.sv:116-300 | every clock takes the sender one header or beat further, unless no packet is staged |
| C2hPackets.PacketsSent | ip/fejkon_pcie_data/c2h_dma.sv:116-300 | packets arriving in any rhythm: what has gone out is always a prefix of their TLPs in order, and between packets all of those so far, whatever window, pointer and identity |
| C2hPackets.AllPacketsSent | ip/fejkon_pcie_data/c2h_dma.sv:116-300 | one clock for each header and beat after the last arrival every packet has gone out and the queues are empty |
| C2hPackets.TlpAt | ip/fejkon_pcie_data/c2h_dma.sv:165-181 | with a sound window and a known identity no packet is dropped, and the i-th TLP is the i-th packet's, at a pointer in the window |
| C2hPackets.SlotsInTurn | ip/fejkon_pcie_data/fejkon_pcie_data.sv:502-517 | packets take the slots of a sound window one after the other and round again, one slot each, or two if they are cut |
| C2hPackets.TlpSlot | ip/fejkon_pcie_data/c2h_dma.sv:165-229 | the i-th TLP says what the i-th packet is and goes to the slot that the packets before it have left for it, as an address |
| C2hDma.TlpCarries | ip/fejkon_pcie_data/c2h_dma.sv:183-266 | one SOP at the front, one EOP at the back; the header dwords bit by bit, with Length equal to the payload carried; the payload is metadata, zeros and the packet up to 56 dwords, which the host reads in the order of transmission |
| C2hDma.AdvanceStaysInWindow | ip/fejkon_pcie_data/fejkon_pcie_data.sv:502-517 | the pointer stays in an aligned window if and only if that is not the single slot at the top |
| C2hWindow.SafeStep | ip/fejkon_pcie_data/fejkon_pcie_data.sv:502-517 | every clock keeps the pointer unset or in the window and room for what is left of the TLP |
| C2hWindow.WritesStayInWindow | ip/fejkon_pcie_data/fejkon_pcie_data.sv:502-517 | every beat of every run from power-up, with arrivals of any content, resets, host writes and changes of identity, writes inside the window and inside one page, and no TLP announces more than 256 bytes |
| C2hDma.TruncatedSkipsSlot | ip/fejkon_pcie_data/c2h_dma.sv:289-300 | a packet moves the pointer as one slot does if and only if it is not cut, or the window has at most two slots and is not the one at the top |
| C2hDma.DriverReadsPacket | driver/src/board.c:92-96 | the driver finds channel, offset and, from the offset on, the packet's characters in the order of transmission; its length is right if and only if the packet was not cut |
| Tlp.IdRoundTrip | ip/fejkon_pcie_data/pcie.py:101-111 | an identifier survives its number if and only if its parts are in range |
| Tlp.IdToIntIs | ip/fejkon_pcie_data/pcie.py:101-111 | the number of an identifier: bus, device and function in 8, 5 and 3 bits |
| Tlp.NumberRoundTrip | ip/fejkon_pcie_data/pcie.py:101-111 | a number survives its identifier if and only if it has 16 bits |
| Tlp.DeserialiseSerialise | ip/fejkon_pcie_data/pcie.py:397-415 | words survive their big-endian bytes |
| Tlp.SerialiseDeserialise | ip/fejkon_pcie_data/pcie.py:267-284 | bytes survive their words |
| Tlp.SerialisedAt | ip/fejkon_pcie_data/pcie.py:397-400 | byte by byte: each word is four bytes, most significant first |
| Tlp.Word0Fields | ip/fejkon_pcie_data/pcie.py:344-354 | every field of the first header word can be read back |
| Tlp.KnownPackets | ip/fejkon_pcie_data/pcie.py:356-392 | the formats and types that can be printed |
| Tlp.FirstWordLayout | ip/fejkon_pcie_data/pcie.py:344-354 | the first header word bit by bit |
| Tlp.RequestLayout | ip/fejkon_pcie_data/pcie.py:362-379 | the header of a memory or I/O request bit by bit |
| Tlp.AddressLayout | ip/fejkon_pcie_data/pcie.py:374-379 | a short address is one word; of a long one the second word has the bits of the first as well |
| Tlp.ConfigLayout | ip/fejkon_pcie_data/pcie.py:362-373 | the header of a configuration request bit by bit |
| Tlp.CompletionLayout | ip/fejkon_pcie_data/pcie.py:380-391 | the header of a completion bit by bit |
| Tlp.IntelAlignment | ip/fejkon_pcie_data/pcie.py:402-409 | the aligned form has four zero bytes behind the header if and only if address bit 2 is clear; the data then begin at their own place in eight bytes if and only if the header has three words |
| Tlp.RequestParses | ip/fejkon_pcie_data/pcie.py:411-475 | whatever follows the header, parsing finds the printed fields, over what the object held before |
| Tlp.RoundTrip | ip/fejkon_pcie_data/pcie.py:339-475 | a printable request comes back if and only if it is no read of 1024 dwords, no write of none, and the low half of a long address has the bits of the high half |
| Tlp.IntelRoundTrip | ip/fejkon_pcie_data/pcie.py:402-486 | the aligned form round-trips exactly the same requests |
| Tlp.LargestReadLost | ip/fejkon_pcie_data/pcie.py:416-429 | a read of a whole page does not come back |
| Tlp.LongAddressLost | ip/fejkon_pcie_data/pcie.py:374-379 | a read at 16 GiB comes back four bytes further on |
| Tlp.RegisterNumberLost | ip/fejkon_pcie_data/pcie.py:442-445 | a configuration request that parses has register number zero |
| Tlp.ConfigRoundTrip | ip/fejkon_pcie_data/pcie.py:339-475 | a printable configuration request comes back if and only if its register number and lower address are zero and its length fits |
| Tlp.ConfigReadLost | ip/fejkon_pcie_data/pcie.py:442-445 | a read of register 4 comes back as one of register 0 |
| Tlp.CompletionLowerAddressLost | ip/fejkon_pcie_data/pcie.py:450-472 | a completion that parses into a fresh object has lower address zero |
| Tlp.CompletionRoundTrip | ip/fejkon_pcie_data/pcie.py:339-475 | a printable completion comes back if and only if its lower address is zero, its byte count is not, and its length fits |
| Tlp.CompletionLost | ip/fejkon_pcie_data/pcie.py:450-472 | a completion of byte 4 comes back as one of byte 0 |
| Tlp.ByteEnables | ip/fejkon_pcie_data/pcie.py:253-265 | a byte of the request is enabled if and only if it is one of the n bytes from addr on |
| Tlp.ByteCountBack | ip/fejkon_pcie_data/pcie.py:286-314 | byte count and first byte can be computed back from the byte enables |
| Tlp.PageCheck | ip/fejkon_pcie_data/pcie.py:202-222 | a memory request is rejected if and only if its bytes cross a 4 KiB boundary |
| Tlp.CheckRefuses | ip/fejkon_pcie_data/pcie.py:202-222 | which packets are refused and with which error: data of another length, a memory request beyond its page, an I/O request not of one word, completion data beyond the byte count |
| Tlp.LowerAddressIs | ip/fejkon_pcie_data/pcie.py:316-318 | the lower address is the intended one if and only if the first byte has offset zero |
| Tlp.RangeLowerAddress | ip/fejkon_pcie_data/pcie.py:253-265 | setting a range gives the address and the lower address of its first word |
| Tlp.WriteDelivers | ip/fejkon_pcie_data/pcie.py:267-284 | an enabled byte of a write holds the byte of the data that belongs to its address |
| Tlp.WritePrints | ip/fejkon_pcie_data/pcie.py:274-278 | a memory write of a range is printable if and only if the range lies in one page |
| Tlp.Packet.constructor | ip/fejkon_pcie_data/pcie.py:121-143 | a fresh packet |
| Tlp.Packet.SetBe | ip/fejkon_pcie_data/pcie.py:253-265 | address, length, byte enables and lower address of a range, and its padding |
| Tlp.Packet.SetData | ip/fejkon_pcie_data/pcie.py:267-272 | words of the data, up to a partial one |
| Tlp.Packet.SetBeData | ip/fejkon_pcie_data/pcie.py:274-278 | range and padded data together |
| Tlp.Packet.GetData | ip/fejkon_pcie_data/pcie.py:280-284 | the bytes of the data |
| Tlp.Packet.PackHeader | ip/fejkon_pcie_data/pcie.py:344-353 | the first word, field by field |
| Tlp.Packet.PackRequest | ip/fejkon_pcie_data/pcie.py:362-366 | byte enables, tag and requester |
| Tlp.Packet.PackAddress | ip/fejkon_pcie_data/pcie.py:374-379 | one or two address words, the second with the bits of the first |
| Tlp.Packet.PackWords | ip/fejkon_pcie_data/pcie.py:356-392 | the header words of every kind, or the error |
| Tlp.Packet.Pack | ip/fejkon_pcie_data/pcie.py:339-400 | check, header, data and bytes, or the first error |
| Tlp.Packet.IntelPack | ip/fejkon_pcie_data/pcie.py:402-409 | padding after the header unless the address is odd in words |
| Tlp.Packet.UnpackHeader | ip/fejkon_pcie_data/pcie.py:416-429 | the fields of the first word |
| Tlp.Packet.UnpackRequest | ip/fejkon_pcie_data/pcie.py:437-440 | byte enables, tag and requester |
| Tlp.Packet.UnpackCompletionHead | ip/fejkon_pcie_data/pcie.py:452-455 | byte count, status and completer |
| Tlp.Packet.UnpackCompletionTail | ip/fejkon_pcie_data/pcie.py:456-461 | lower address, tag and requester; byte count zero means 4096 |
| Tlp.Packet.UnpackTarget | ip/fejkon_pcie_data/pcie.py:442-449 | the address of a request, or register and destination of a configuration request |
| Tlp.Packet.UnpackBody | ip/fejkon_pcie_data/pcie.py:431-463 | the fields of every kind, or the error, with the fields set before it |
| Tlp.Packet.UnpackData | ip/fejkon_pcie_data/pcie.py:465-472 | the data and the lower address |
| Tlp.Packet.Unpack | ip/fejkon_pcie_data/pcie.py:411-475 | parsing in place leaves the parsed packet, or the first error with the fields set before it |
| Tlp.Packet.IntelUnpack | ip/fejkon_pcie_data/pcie.py:477-486 | parsing twice, with the padding taken out, leaves the parsed packet, or the error with every field set before it |
| Xcvr.WordOfLanes | ip/fc_xcvr/fc_8g_xcvr.sv:242-262 | a word is its four byte lanes |
| Xcvr.ReversedIsSpelled | ip/fc_xcvr/fc_8g_xcvr.sv:242-262 | a reversed word is its characters in the order of transmission, and back |
| Xcvr.Transmitter.Clock | ip/fc_xcvr/fc_8g_xcvr.sv:242-267 | the word character by character, most significant first, or NOS when there is none |
| Xcvr.Receiver.constructor | ip/fc_xcvr/fc_8g_xcvr.sv:99-99 | nothing latched at power-up |
| Xcvr.Receiver.Clock | ip/fc_xcvr/fc_8g_xcvr.sv:114-161 | one clock of alignment, latch, flag delay and byte order |
| Xcvr.PatternIs | ip/fc_xcvr/fc_8g_xcvr.sv:146-154 | on a group without stray commas the detector reports the lane of the phase if and only if a word starts with a comma there |
| Xcvr.LatchIs | ip/fc_xcvr/fc_8g_xcvr.sv:146-154 | from any latch: from the last stray comma on it keeps what it held until the first synchronised comma of a word, and holds the phase ever after |
| Xcvr.AlignsAt | ip/fc_xcvr/fc_8g_xcvr.sv:114-135 | with any phase latched the alignment gives the four characters from that lane on |
| Xcvr.ShowsWord | ip/fc_xcvr/fc_8g_xcvr.sv:114-135 | with any phase latched two clocks before, the receiver shows the transmitted word if and only if the latch is in phase |
| Xcvr.AlignedIs | ip/fc_xcvr/fc_8g_xcvr.sv:137-161 | the flag is three clocks old |
| Xcvr.FlaggedWordIs | ip/fc_xcvr/fc_8g_xcvr.sv:114-262 | from any state and on any line: a flagged word is the transmitted one if and only if the latch was in phase |
| Xcvr.LatchedPhaseStays | ip/fc_xcvr/fc_8g_xcvr.sv:114-154 | from any state: once the latch holds the phase every word from two clocks on is the transmitted one |
| Xcvr.WordsAfterComma | ip/fc_xcvr/fc_8g_xcvr.sv:114-154 | from any state: from the first synchronised comma word on every word is the transmitted one |
| Xcvr.StaleLatch | ip/fc_xcvr/fc_8g_xcvr.sv:137-154 | a latch left at another phase flags every word of a data stream, and each is wrong |
| Xcvr.AlignedWordIsTransmitted | ip/fc_xcvr/fc_8g_xcvr.sv:99-262 | from power-up on a line without stray commas: whenever the flag is up, the word is the transmitted one with a fixed latency |
| Xcvr.AlignedForGood | ip/fc_xcvr/fc_8g_xcvr.sv:137-161 | from any state: from the word after a synchronised comma word on, the flag is the synchronisation of three clocks before |
| Xcvr.FirstCommaUnflagged | ip/fc_xcvr/fc_8g_xcvr.sv:156-161 | from power-up: the word of a synchronised comma is shown with the flag up if and only if an earlier one has latched |
| Xcvr.FirstIdleUnflagged | ip/fc_xcvr/fc_8g_xcvr.sv:156-161 | on a stream of IDLE the first word is shown without the flag |
| Xcvr.SecondIdleFlagged | ip/fc_xcvr/fc_8g_xcvr.sv:156-161 | and the second with it |
| AvalonBridge.ResponseRoundTrip | ip/fejkon_pcie_avalon/fejkon_pcie_avalon.sv:71-72 | every field of a response can be read back from its word |
| AvalonBridge.RequestLayout | ip/fejkon_pcie_avalon/fejkon_pcie_avalon.sv:24-62 | the request word bit by bit: direction, data or requester and tag, and address |
| AvalonBridge.Bridge.constructor | ip/fejkon_pcie_avalon/fejkon_pcie_avalon.sv:27-37 | the bridge at power-up |
| AvalonBridge.Bridge.Clock | ip/fejkon_pcie_avalon/fejkon_pcie_avalon.sv:39-69 | one clock: returned data, a new request, or the end of an access |
| AvalonBridge.AccessesKept | ip/fejkon_pcie_avalon/fejkon_pcie_avalon.sv:49-68 | the accesses taken and the one driven are the requests in order |
| AvalonBridge.ResponsesKept | ip/fejkon_pcie_avalon/fejkon_pcie_avalon.sv:39-62 | the responses given and the one shown are the answers to the reads in order |
| AvalonBridge.RunOwes | ip/fejkon_pcie_avalon/fejkon_pcie_avalon.sv:39-69 | both in every run with a legal agent |
| AvalonBridge.EachReadAnsweredOnce | ip/fejkon_pcie_avalon/fejkon_pcie_avalon.sv:39-73 | each read has exactly one response, in order, with its own requester, tag and lower address; each write is accessed once and has none |
| AvalonBridge.NothingOwedWhenReady | ip/fejkon_pcie_avalon/fejkon_pcie_avalon.sv:71-73 | a ready bridge without a response on show owes nothing |
| AvalonBridge.WriteIsServed | ip/fejkon_pcie_avalon/fejkon_pcie_avalon.sv:39-69 | a ready bridge takes a write, drives it however long the agent waits, and is ready again |
| AvalonBridge.ReadIsServed | ip/fejkon_pcie_avalon/fejkon_pcie_avalon.sv:39-73 | it takes a read, drives it however long the agent waits, gives the one response however late the data come, and is ready again |

## Left out

- FcLink.LinkComesUp: one word clock for both ports; clock domain crossings, clock ratios, the transceiver and loss of word validity are not modelled, so a reset of one port during initialisation is not either.
- FcLink.TrafficKeepsLinkUp: user traffic with NOS, OLS, LR or LRR in it is excluded, because each of them takes a receiver out of AC (`HarmlessStaysActive`).
- FcDelivery.LinkDelivers: frames without a gap inside, because a port fills gaps with ARBff, which cuts a frame (`FcFramer.FillInsideFrame`).
- FcFramer.WordDelivered: the packet counter is unbounded, while the register wraps at 32 bits.
- FcFramer.PausedOutput: whether the link is active when a word arrives is an input; in the card a pause also resets the port, so the words after it arrive on a link that is not active until it has come up again.
- RxRing.TakenInOrder: the ring ends below 4 GiB, which `DmaRing.EndMustFit` shows to be needed; frames are opaque tokens, because the driver and the card count the payload offset in different units.
- RxRing.NoLostWakeUp: takes the kernel's word that a poll scheduled again while it runs is run again when it completes.
- TxRing.SentInOrder: a call of net_tx and a fetch are one step each, and `TxSplit` takes them apart; payload bytes, statistics and the assertions on fragmented buffers are not modelled.
- TxSplit.SentPieceByPiece: a payload is written and read in one piece.
- LoopBack.QueuedFramesComeBack: calls of net_tx and fetches are one step each, as in `TxRing`.
- FejkonRings.Driver.Poll: the network stack, the port table and statistics other than the drop counters are parameters or left out.
- I2cProtocol.CommandStream: each handler run and each fill is one atomic step, for error-free interrupts; preemption inside the loops and timeouts on a busy core are left out.
- I2cSystem.I2cDev.Isr: the handler always has a message, and its poll for an idle core is left out; the card's device never raises an error interrupt, so `WaitForCompletion` meets none.
- C2hPackets.PacketsSent: beats arrive in order and the metadata of a packet not before its beats, with one configuration and no reset or host write in the run; the staging ingest, whose metadata can be wrong, is not modelled, and the sink is always ready.
- Tlp.RoundTrip: messages and prefixes are refused as in the code; the aligned form of completions and configuration requests is modelled but not proved to round-trip.
- Tlp.Packet.SetBe: the length is an exact quotient, while the code divides in floating point, which rounds above 2^53 dwords.
- Tlp.Packet.constructor: the copying constructor, which does not copy the TH bit, and comparison and printing of packets are not modelled.
- Xcvr.AlignedWordIsTransmitted: needs power-up and a line without stray commas, and `FlaggedWordIs` says exactly what holds without them; the serialiser keeps its byte order and the detector marks exactly the K28.5 characters; running disparity, counters and registers are left out.
- AvalonBridge.EachReadAnsweredOnce: the agent returns data only for a read it has taken, and the response sink is always ready.
- Clock domain crossings, vendor FIFOs, multiplexers and the decoding of PCI Express requests in `ip/fejkon_pcie_data/fejkon_pcie_data.sv` are assumed or left out.
- Kernel plumbing of the driver (probing, ethtool, hwmon, sysfs, link-status timer), LEDs, temperature, counters and the tests themselves are easy, finite or input and output.
