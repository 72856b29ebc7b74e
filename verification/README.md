# Models and proofs for esp32-partlib

Three stateful cores of the component library are modelled here, and properties of them are proved
for all inputs, all runs and all interleavings.

- **Rotary encoder** (`Quadrature`, `Winding`, `DecoderBits`, `Button`, `Encoders`, `Registry`,
  `Drivers`, `Positions`, `Knob`). A polled quadrature decoder that keeps its history in two machine
  words, a push-button automaton with dead time, a table of encoders scanned under a lock by a timer,
  and the task that accumulates a position from a bounded event queue. The decoder is defined on
  walks (sequences of samples of the two pins); the class `RotaryEncoder` works on an 8-bit and a
  16-bit word and is proved to emit what the decoder on the walk emits.
- **BLE serial link** (`Console`, `Fragments`, `Uplink`, `PreparedWrites`, `GattServer`). Byte queues
  cut into lines, lines cut into numbered fragments with 8-bit counters, and prepared writes collected
  in a singly linked list with a tail pointer.
- **I2C** (`I2cPorts`, `I2cTasks`, `Expander`). The cache of a port's driver configuration, and tasks
  that share devices and ports: every lock operation, every driver call and every bus command is a
  step of its own.

`Options`, `Seqs` and `Queues` are helpers. Where the source updates state in place there is a class
or a method with a loop, proved against a function on values; the main theorems are about those
functions.
`dafny verify dfyconfig.toml` checks everything.

## What the theorems say

The steps an encoder reports are *exactly* its clean turns: `Winding.WindingTheorem` cuts a walk at
its visits to the detent and shows that the sum of the emitted diffs counts the excursions that are
four moves one way. So the code is a winding counter for some walks and not for others, and
`Winding.ExactIff` says for which: the count is the number of revolutions at every visit to the
detent if and only if each excursion in between comes back without going round or is four moves
long. A turn that steps back once on the way is a revolution that is lost
(`Winding.HesitantTurnIsLost`).

`Knob.PositionFollowsTheWalk` joins decoder, registry, queue and task: in every interleaving with one
encoder, a position that nobody writes is what the decoder emits on the walk of all samples polled,
less what is still queued and what the full queue refused. `Knob.PositionIsCleanTurns` and
`Knob.PositionIsRevolutions` are that together with the two theorems above. For the button,
`Button.PressStartsAfresh` says that a press forgets all that was before, so that the timing of every
press of every run is known (`Button.EveryPress`), and `Knob.UsesReachTheApplication` follows whole
uses of the button from the pin to the callback.

For the uplink, `Uplink.LineEndsRightly` says when a line ends in any interleaving, and
`Uplink.ReceiverGetsTheText` follows a byte from the queue to a receiver that decodes the
notifications: in every interleaving the text accepted is the text decoded, then a line lost with the
task if its memory ran out, then the line in hand, then what is still queued. For the other
direction, `GattServer.ConsoleGetsTheWrites` says that the console's queue gets the bytes written and
committed, in order, until it is full.

For I2C, `I2cTasks.NoLostUpdate`, `CommandsMeetTheirConfiguration`, `TransactionsExclude`,
`IdleHoldsNothing` and `NoCircularWait` hold after any schedule of any number of tasks, with any
calls failing, any locks timing out and any restarts. A command that reaches a driver finds its own
device's configuration and timeout there if and only if the driver of its port has not gone astray:
since it was installed it has neither taken the parameters of another configuration nor outlived a
restart with a configuration that is not the cleared one (`I2cTasks.CommandsMeetTheirConfiguration`).
That is said port by port, and a driver that is deleted after all is forgiven.
`I2cTasks.CachesAreRightIff` says when all caches are right throughout a run.

## Where the code does not do what one might expect

- A failed pin set-up in `rotary_encoder_add` returns with the lock held. `Registry.LockLostIff` says
  that this is the only way to lose it, `Registry.FirstAddCanLeak` that the first add can do it, and
  `Registry.NothingAfterLeak` that nothing works afterwards.
- Registering an encoder resets its button without an event. The events in the log are whole uses of
  the button exactly if that never happens while the button is down (`Registry.LogLanguageIff`,
  `Registry.InterruptIsReached`).
- Line 53 of `encoder.h` documents a long press as one longer than the long-press time. The code can
  report it after exactly that time: for which settings is said by `Button.LongPressTime`, and the default ones
  are among them (`Button.DefaultsAreOnTheDot`).
- The reported direction is wrong exactly when the position runs over the end of its 32 bits
  (`Positions.DirectionIsSign`), which can be reached (`Positions.OverflowIsReached`).
- `__link_rx` counts in a shadowing variable and always returns 0 (`Console.LinkRx`).
- A line that goes out whole is not told apart from a fragment. The repository has no receiver, so
  this is said twice. For the receiver defined here, `Fragments.Decode`, a whole line is mistaken in
  front of some continuation exactly if it has four bytes or more, starts with two marks, and its
  third byte is not zero (`Fragments.SurvivesIff`). For any receiver, a stream carries another list
  of lines as well exactly if some line in it was fragmented, or some whole lines in a row are
  precisely the fragments of one (`Fragments.AmbiguousIff`); and two readings differ only over such a
  row in one of them (`Fragments.OnlyForgeriesDiffer`).
- A disconnect leaves the MTU as it was, so the next client is sent notifications cut for the one
  before. `Uplink.NotificationsFitIff` says exactly when they fit, `Uplink.OldMtuStays` that it
  happens.
- A cancelled execute-write keeps the prepared data, and so does a disconnect. By Bluetooth Core, Vol
  3, Part F, a cancel empties the queue (section 3.4.6.3) and the queues of different clients have
  nothing to do with each other (section 3.4.6.1). `GattServer.FollowsStandardIff` says exactly when
  the code does the same; `GattServer.LostClientIsHeard` is a run in which it delivers the bytes of a
  client that is gone.
- `installed` can be set when there is no driver: `I2cPorts.StaleIff` says exactly when a set-up leaves
  it so, `I2cPorts.InstalledCanBeStale` is the shortest way. The cache stays coherent all the same,
  but the devices of the cached configuration are locked out until one of another is set up or the
  library is restarted (`I2cTasks.StaleLocksOut`).
- The result of deleting a driver is not looked at, neither when reconfiguring nor when shutting
  down. `I2cPorts.StaysCoherentIff` and `I2cPorts.RestartIsCoherentIff` say exactly when that loses
  the coherence of one port, `I2cTasks.CachesAreRightIff` when it does in a run, and
  `I2cPorts.StuckDriverMisleads` and `I2cTasks.CommandsMeetTheirConfiguration` what follows.
- An encoder can be added twice and then is in two slots: `Registry.RunsStayIndexed` says exactly
  when slots and indices agree, `Registry.DoubleAddIsAccepted` is a run in which they do not.

## Model

| member | source | states |
|---|---|---|
| Quadrature.TurnShape | components/rotary_encoder/encoder.c:98-101 | a matched history ends at the detent and is away from it one, two and three edges before |
| Quadrature.MatchesAreDisjoint | components/rotary_encoder/encoder.c:98-108 | two steps are never made of the same edge: matches lie at least four edges apart |
| Quadrature.StepsCostFourEdges | components/rotary_encoder/encoder.c:88-108 | over any trace, four times the number of emitted steps is at most the number of accepted edges, and that at most the number of polls |
| Quadrature.DiffsCountTurns | components/rotary_encoder/encoder.c:98-108 | the number of +1 (or -1) diffs is the number of prefixes of the edge history that end with the forward (or reverse) turn |
| Quadrature.PhantomNeverMatches | components/rotary_encoder/encoder.c:88-101 | the edge from the zero code of a fresh descriptor, which no pin made, is never part of a match |
| Quadrature.TimeReversal | components/rotary_encoder/encoder.c:88-108 | a trace played backwards into a zeroed decoder emits as many +1 as the trace emitted -1, and the other way round, for any trace |
| Quadrature.SwapNegates | components/rotary_encoder/encoder.c:88-108 | exchanging the pins negates each diff at the same poll |
| Quadrature.DestutterKeepsSteps | components/rotary_encoder/encoder.c:93-94 | dropping all repeated samples changes neither the steps nor the accepted edges |
| Quadrature.StutterInvariant | components/rotary_encoder/encoder.c:93-94 | traces that differ only in repetitions emit the same steps |
| Quadrature.RepeatsAreInvisible | components/rotary_encoder/encoder.c:93-94 | any number of repeated samples inserted anywhere changes no step |
| Winding.CutIsPartition | components/rotary_encoder/encoder.c:88-108 | the excursions and the open rest, put together, are the walk |
| Winding.CutAtDetents | components/rotary_encoder/encoder.c:88-108 | each excursion runs from detent to detent without a visit between, the open rest has no visit, and the unrolled position is four per revolution plus the rest |
| Winding.WalkEdges | components/rotary_encoder/encoder.c:88-98 | on a walk from the detent without two-bit jumps the decoder accepts precisely the moves |
| Winding.MatchIsCleanExcursion | components/rotary_encoder/encoder.c:98-101 | a move is matched exactly if it ends an excursion of four moves in one direction |
| Winding.NetOfExcursion | components/rotary_encoder/encoder.c:88-108 | an excursion makes at most one revolution, and one that is miscounted has six or more moves |
| Winding.WindingTheorem | components/rotary_encoder/encoder.c:88-108 | the emitted sum is forward minus reverse clean excursions, and differs from the revolutions made by at most one per excursion of six or more moves |
| Winding.CountedIff | components/rotary_encoder/encoder.c:88-108 | an excursion is counted for the revolutions it makes exactly if it makes none or has four moves |
| Winding.ExactIff | components/rotary_encoder/encoder.c:88-108 | the emitted sum is the winding number at every visit to the detent exactly if every excursion of the walk is such a one |
| Winding.BounceFreeIsExact | components/rotary_encoder/encoder.c:88-108 | so it is whenever no excursion takes six moves or more |
| Winding.HesitantTurnIsLost | components/rotary_encoder/encoder.c:88-108 | a turn that steps back once on the way is a revolution for which nothing is emitted |
| DecoderBits.TableIsOneBit | components/rotary_encoder/encoder.c:26-26 | the table accepts exactly the codes whose two samples differ in one pin |
| DecoderBits.CodeShift | components/rotary_encoder/encoder.c:88-91 | shifting and masking the code leaves the previous sample and the new one |
| DecoderBits.PackSnoc | components/rotary_encoder/encoder.c:98-98 | shifting a nibble into the 16-bit store appends the edge to the four latest |
| DecoderBits.MagicWords | components/rotary_encoder/encoder.c:100-101 | the store is 0xe817 (0xd42b) exactly if the edge history ends with the forward (reverse) turn, zero padding included |
| DecoderBits.WordsEncode | components/rotary_encoder/encoder.c:88-98 | after any trace the two words hold the latest sample and the four latest accepted edges, padded with zeros |
| DecoderBits.WordsDecide | components/rotary_encoder/encoder.c:88-108 | what the words decide to emit is what the decoder on the walk emits |
| Encoders.RotaryEncoder.constructor | components/rotary_encoder/my_encoder.c:101-104 | a zeroed descriptor has the empty walk and a released button |
| Encoders.RotaryEncoder.PollButton | components/rotary_encoder/encoder.c:40-86 | the in-place button code computes the button automaton and queues its events in order |
| Encoders.RotaryEncoder.ShiftIn | components/rotary_encoder/encoder.c:88-101 | the code on the two words returns the diff of the decoder on the walk |
| Encoders.RotaryEncoder.ReadEncoder | components/rotary_encoder/encoder.c:34-109 | one poll: new state and queued events are those of the model, button before step, drops when the queue is full |
| Encoders.StepsAreUnits | components/rotary_encoder/encoder.c:96-108 | every reported step is +1 or -1 |
| Encoders.ButtonBeforeStep | components/rotary_encoder/encoder.c:34-109 | a poll reports the button's events first and then at most one step; without a button only the step |
| Button.EventLanguage | components/rotary_encoder/encoder.c:40-86 | the events of any run are whole uses (pressed released clicked, or pressed long released) and the begun part that fits the state |
| Button.EventsArePrefixOfUses | components/rotary_encoder/encoder.c:40-86 | any log is a prefix of a sequence of whole uses |
| Button.ListenIff | components/rotary_encoder/encoder.c:40-86 | who follows the events by the rules of a use believes in a phase exactly if they are whole uses and the part begun in that phase; steps in between do not matter |
| Button.PressTiming | components/rotary_encoder/encoder.c:43-85 | what the k-th poll after a press does: nothing while (k-1) intervals are less than the dead time, then release and click on a low level, long press on a high one once k intervals reach the long-press time |
| Button.SilentIffQuiet | components/rotary_encoder/encoder.c:43-85 | a press goes unreported exactly as long as each poll is in dead time, or high and before the long-press time |
| Button.HeldButton | components/rotary_encoder/encoder.c:63-71 | a held button reports one long press, at the first poll k with (k-1) intervals past the dead time and k intervals at the long-press time |
| Button.LongPressTime | components/rotary_encoder/encoder.c:63-71 | a reported long press has lasted at least the long-press time, and longer, as encoder.h has it, exactly if the polls do not hit that time at a moment after the dead time, which depends on the settings alone |
| Button.PressStartsAfresh | components/rotary_encoder/encoder.c:54-61 | after a reported press any run goes on like one that begins with that press, whatever state and count the button had before |
| Button.EveryPress | components/rotary_encoder/encoder.c:40-86 | so `PressTiming`, `SilentIffQuiet` and `HeldButton` hold of every press of every run |
| Button.RestIffSteady | components/rotary_encoder/encoder.c:50-85 | a button at rest reports its press with the first high level, a long-pressed one its release with the first low one, and nothing before |
| Button.DefaultsAreOnTheDot | components/rotary_encoder/Kconfig:7-24 | with the default settings a button held for 500 polls is reported after exactly the long-press time |
| Button.DeadTimeIsInvisible | components/rotary_encoder/encoder.c:43-48 | two level traces that agree outside the dead windows give the same state and events |
| Registry.EncodersAreIndependent | components/rotary_encoder/encoder.c:111-217 | in any history of adds, removals and ticks, an encoder's state and its part of the log are those of its automaton run alone on its own history |
| Registry.StepsEndToEnd | components/rotary_encoder/encoder.c:88-121 | the steps in an encoder's part of the log are the steps of the walk of all its polled samples |
| Registry.StepsAreOfTheWalk | components/rotary_encoder/encoder.c:187-188 | registering resets the button only, so the walk goes on across registrations |
| Registry.LogLanguageIff | components/rotary_encoder/encoder.c:40-194 | in any history of adds, removals and ticks, the button events of an encoder are whole uses and the begun part that fits its state, exactly if it was never registered while its button was down |
| Registry.InterruptIsReached | components/rotary_encoder/encoder.c:187-188 | adding, pressing and adding again breaks a use off |
| Registry.ButtonsAreOfTheLevels | components/rotary_encoder/encoder.c:40-121 | between registrations the button events of an encoder are those of its automaton on the levels it was polled, and none without a button |
| Registry.RunsStayIndexed | components/rotary_encoder/encoder.c:161-168 | at every moment of a run no encoder is in two slots and each knows its slot, exactly if no add that is not refused finds its encoder in a slot already |
| Registry.DoubleAddIsAccepted | components/rotary_encoder/encoder.c:151-194 | adding an encoder twice puts it into two slots |
| Registry.PolledOnce | components/rotary_encoder/encoder.c:116-118 | a handled tick then polls each registered encoder once, at its slot, and no other |
| Registry.TickInOrder | components/rotary_encoder/encoder.c:111-121 | the events of a tick come in the order of the slots, and a tick without the lock does nothing |
| Registry.AddOutcome | components/rotary_encoder/encoder.c:151-194 | each result of an add occurs under just its condition; without lock or room nothing changes, else the first free slot is taken, and on success the button is up with its count at zero |
| Registry.RemoveOutcome | components/rotary_encoder/encoder.c:196-217 | each result of a removal occurs under just its condition; on success the first slot of the encoder is cleared, else nothing changes |
| Registry.RemoveUndoesAdd | components/rotary_encoder/encoder.c:151-217 | adding an encoder and removing it gives back the slot table; with no free slot both are refused without a change |
| Registry.LockLostIff | components/rotary_encoder/encoder.c:154-192 | the lock is lost exactly by an add that gets the lock and a slot and then fails to set up the pins |
| Registry.FirstAddCanLeak | components/rotary_encoder/encoder.c:154-192 | the very first add can lose it |
| Registry.NothingAfterLeak | components/rotary_encoder/encoder.c:111-217 | after that no operation changes anything or emits an event |
| Drivers.EncoderDriver.PollAt | components/rotary_encoder/encoder.c:117-118 | polling a slot of the pointer array updates that descriptor only |
| Drivers.EncoderDriver.TimerHandler | components/rotary_encoder/encoder.c:111-121 | the loop over the array polls all slots in order, or does nothing without the lock |
| Drivers.EncoderDriver.FreeSlot | components/rotary_encoder/encoder.c:161-168 | the scan finds the first free slot or the end |
| Drivers.EncoderDriver.SlotOf | components/rotary_encoder/encoder.c:205-212 | the scan by pointer finds the first slot of that descriptor or the end |
| Drivers.EncoderDriver.Add | components/rotary_encoder/encoder.c:151-194 | result, slot table, descriptor and lock after an add, for each of its five outcomes |
| Drivers.EncoderDriver.Remove | components/rotary_encoder/encoder.c:196-217 | result, slot table and lock after a removal, for each of its outcomes |
| Positions.PositionIsConserved | components/rotary_encoder/my_encoder.c:43-85 | in every interleaving of ticks, task steps, callbacks that may write, and setter calls: the events delivered and, behind them, those pending are the events posted, in their order, without those dropped, and all of them if none was; the position is the value last written plus the steps delivered since, as a 32-bit word; at the loop head the copy equals it |
| Positions.DirectionIsSign | components/rotary_encoder/my_encoder.c:65-72 | the reported direction is the sign of the delivered step exactly if the position does not overflow at it |
| Positions.OverflowIsReached | components/rotary_encoder/my_encoder.c:65-72 | set to the largest position and turned one step on, the task reports a step back |
| Positions.EveryEventIsTold | components/rotary_encoder/my_encoder.c:47-79 | in every interleaving there is one report for each event received, in order, and it names its kind |
| Positions.UsesAreTold | components/rotary_encoder/my_encoder.c:47-79 | if the button events received begin whole uses, the reports begin pushed released clicked, or pushed long released, over and over |
| Queues.SendAllTakes | components/rotary_encoder/encoder.c:59-107 | of what is sent without waiting, exactly as much goes in as there is room for, in order, and the rest is refused |
| Positions.MyEncoder.Round | components/rotary_encoder/my_encoder.c:45-84 | one round of the task is the three steps receive, notify, finish of the model, and the report is the one for the kind of the event |
| Positions.MyEncoder.SetCurrent | components/rotary_encoder/my_encoder.c:119-122 | the setter writes position and copy |
| Knob.PostedIsLog | components/rotary_encoder/encoder.c:111-121 | in every interleaving of driver and task the events posted to the queue are the driver's log |
| Knob.PositionFollowsTheWalk | components/rotary_encoder/my_encoder.c:37-122 | with one encoder and no writes to the position, it is the sum of what the decoder emits on the walk of all samples polled, less what is queued and what was refused, as a 32-bit word |
| Knob.PositionIsCleanTurns | components/rotary_encoder/my_encoder.c:37-122 | with everything delivered and nothing refused, the position is the number of clean turns of a walk from the detent, forward minus reverse |
| Knob.PositionIsRevolutions | components/rotary_encoder/my_encoder.c:37-122 | if moreover the knob rests at the detent and each excursion is one the decoder counts right, the position is the number of revolutions |
| Knob.UsesReachTheApplication | components/rotary_encoder/my_encoder.c:37-122 | in every interleaving with one encoder, never registered while its button is down, and nothing refused, the application is told of whole uses of the button and the beginning of one more |
| Fragments.LinesAreCarried | components/ble_console/ble_spp_server.c:320-328 | with MTU at least 23 and a line of 1 to 512 bytes there are at most 32 fragments |
| Fragments.CarriedIff | components/ble_console/ble_spp_server.c:325-329 | a line has at most 254 fragments exactly if it is at most 254 (MTU - 7) bytes long |
| Fragments.FragmentShape | components/ble_console/ble_spp_server.c:336-351 | a long line becomes two or more fragments with marks, total and number; all but the last fill MTU - 3 bytes, the last has 5 to MTU - 3 |
| Fragments.NotificationBytes | components/ble_console/ble_spp_server.c:322-351 | in bytes: what goes out for a line at an MTU, with the header 35 35, total and number |
| Fragments.AnyOrderReassembles | components/ble_console/ble_spp_server.c:330-354 | the fragments of a line, in any order, give back the line by their number byte |
| Fragments.SurvivesIff | components/ble_console/ble_spp_server.c:320-356 | for the receiver defined here, a line is decoded and does no harm in front of every continuation exactly if it is fragmented, or shorter than four bytes, or does not start with two marks, or has a zero third |
| Fragments.LikeFragmentSwallows | components/ble_console/ble_spp_server.c:322-323 | any other line swallows the one-byte lines that follow it, as many as its third byte announces |
| Fragments.StreamRoundTrip | components/ble_console/ble_spp_server.c:320-356 | a receiver that does not know the MTU decodes every stream of lines, none of which goes out whole and reads like a fragment |
| Fragments.StreamIsUnambiguous | components/ble_console/ble_spp_server.c:320-356 | under that condition the notifications determine the lines |
| Fragments.MarkedLinesAreAmbiguous | components/ble_console/ble_spp_server.c:322-323 | without it they do not: every long line goes out like the list of its own fragments |
| Fragments.OnlyForgeriesDiffer | components/ble_console/ble_spp_server.c:320-356 | for any receiver: two lists of lines that give the same notifications are the same, unless whole lines in a row of one are precisely the fragments of a line |
| Fragments.AmbiguousIff | components/ble_console/ble_spp_server.c:320-356 | for any receiver: the notifications of a list of lines are also those of another exactly if some line was fragmented or some whole lines in a row are precisely the fragments of one |
| Fragments.CountersSuffice | components/ble_console/ble_spp_server.c:298-353 | the loop on 8-bit counters ends having numbered all fragments exactly if there are at most 254 |
| Fragments.FillFragment | components/ble_console/ble_spp_server.c:338-350 | the reused buffer holds header and part, and the copies stay inside both buffers |
| Fragments.SendFragments | components/ble_console/ble_spp_server.c:325-355 | the loop ends and sends exactly the fragments 1 to total, in order |
| Fragments.Forward | components/ble_console/ble_spp_server.c:320-357 | what one line in the buffer becomes: nothing, one notification, fragments, or the end of the task |
| Console.LineShape | components/ble_console/console_ll.c:131-156 | a line taken has no zero byte, a newline only at its end, and fits the buffer |
| Console.LineConserves | components/ble_console/console_ll.c:137-148 | what was queued or arrived, without zero bytes, is the line and then what is left |
| Console.LineIsExact | components/ble_console/console_ll.c:137-148 | a line is exactly the front of what was queued or arrived, and ends only at a full buffer, a newline, an empty queue after a failed wait, or a zero byte, which is swallowed |
| Console.LinesAreTheText | components/ble_console/console_ll.c:131-156 | successive lines, put together, are the text that went in, up to what is left |
| Console.GetLine | components/ble_console/console_ll.c:131-156 | the loop stores that line in the caller's buffer and returns its length, or -1 exactly if it is empty |
| Console.Collect | components/ble_console/console_ll.c:105-129 | the same for the link's reader, which returns 0 for an empty line |
| Console.LinkRx | components/ble_console/console_ll.c:88-104 | as much of the bytes as there is room for is queued, in order; the result is 0, which is the number queued only if none was |
| Console.AcceptTakes | components/ble_console/console_ll.c:88-104 | a prefix of a burst goes in behind what is queued, all of it or until the queue is full |
| Console.AcceptConcat | components/ble_console/console_ll.c:88-104 | it does not matter how bytes are cut into bursts |
| Console.PutConserves | components/ble_console/console_ll.c:157-175 | a prefix of the line goes in behind what is queued, all of it unless the queue is full, the queue is not filled beyond its capacity, and nothing is lost or moved, whatever others take meanwhile |
| Console.PutAllIfDrained | components/ble_console/console_ll.c:157-175 | the whole line goes in if others take a byte whenever one waits |
| Console.PutLine | components/ble_console/console_ll.c:157-175 | the loop does that and returns the number of bytes queued, or -1 if none |
| Uplink.StepKeepsShape | components/ble_console/ble_spp_server.c:302-323 | the buffer never holds more than 512 bytes nor text past a newline, and every line sent fits |
| Uplink.LineEndsRightly | components/ble_console/console_ll.c:105-129 | in every interleaving the line in hand and what is then queued are what was taken and queued, and the line ends at 512 bytes, a newline, an empty queue after a wait, or a zero byte, which is swallowed |
| Uplink.LineGoesOn | components/ble_console/console_ll.c:105-129 | a line that goes on is all that was taken for it, below 512 bytes and with no newline or zero byte in it |
| Uplink.PutIffRoom | components/ble_console/console_ll.c:88-104 | a byte is taken into the queue exactly if there is room |
| Uplink.SessionsAgree | components/ble_console/ble_spp_server.c:476-562 | flags and MTU of the link are those of the event handler after the same events |
| Uplink.BeginsIffUp | components/ble_console/ble_spp_server.c:300-316 | a line is begun exactly if, by all events so far, a client is there and has asked to be notified |
| Uplink.SendOutcome | components/ble_console/ble_spp_server.c:320-357 | a line goes out with the MTU in force, an empty one does not; the task ends exactly if the line is longer than MTU - 3 and there is no memory |
| Uplink.UplinkConserves | components/ble_console/ble_spp_server.c:302-357 | in every interleaving the text accepted is the lines sent, the line lost with the task, the line in hand, and the text queued, in this order |
| Uplink.ReceiverGetsTheText | components/ble_console/ble_spp_server.c:302-357 | the same with the lines decoded from the notifications, if none is mistakable |
| Uplink.NotificationsFitIff | components/ble_console/ble_spp_server.c:320-357 | at any moment of a run, the notifications of the line in hand fit the MTU agreed upon with the client that came last, exactly if one has been agreed upon since it came or they fit the default |
| Uplink.OldMtuStays | components/ble_console/ble_spp_server.c:532-562 | after an MTU, a disconnect and a connect the server still goes by the old MTU |
| PreparedWrites.WriteBuffer.Append | components/ble_console/ble_spp_server.c:251-265 | linking a node behind the tail, which is never a released one, keeps the list acyclic, its count, and its first and last node right, and the list to be all the live nodes |
| PreparedWrites.WriteBuffer.Store | components/ble_console/ble_spp_server.c:244-268 | a prepared write is added at the end with its own copy, or refused without a change |
| PreparedWrites.WriteBuffer.Print | components/ble_console/ble_spp_server.c:285-294 | the callback is handed exactly the prepared writes, in the order they came, and the console's queue takes them as far as it has room |
| PreparedWrites.WriteBuffer.FreeNodes | components/ble_console/ble_spp_server.c:270-278 | the walk releases each live node once, looks at none that was released, leaves none, and ends with both cursors null |
| PreparedWrites.WriteBuffer.Free | components/ble_console/ble_spp_server.c:270-283 | afterwards the list is the valid empty list, no node is live, and neither cursor points to one |
| GattServer.CommitHandsWhatWasPrepared | components/ble_console/ble_spp_server.c:514-530 | a commit hands over exactly what was prepared since the one before, or since a start with nothing pending if it is the first, whatever cancels and disconnects came between |
| GattServer.ConsoleGetsTheWrites | components/ble_console/ble_spp_server.c:499-530 | after any run of events the console's queue has got the bytes written directly and committed, in order, all of them or until it was full |
| GattServer.MtuIsTheLast | components/ble_console/ble_spp_server.c:532-534 | the MTU is the one of the last event that gave one |
| GattServer.FollowsStandardWithIdleDrops | components/ble_console/ble_spp_server.c:523-562 | if every cancel and every disconnect finds nothing waiting, the pending values are those of the standard |
| GattServer.FollowsStandardIff | components/ble_console/ble_spp_server.c:523-562 | they are so at every moment of a run exactly if every cancel and every disconnect in it finds nothing waiting |
| GattServer.LostClientIsHeard | components/ble_console/ble_spp_server.c:514-562 | a value prepared by a client that then disconnects is delivered by the next client's commit, where by the standard nothing is pending |
| GattServer.UpIff | components/ble_console/ble_spp_server.c:476-562 | after any run of events the server is connected exactly if no client left since the last came, and notifying exactly if notification was switched on and since then neither switched off nor a client gone |
| GattServer.Server.Configure | components/ble_console/ble_spp_server.c:476-482 | notification is switched by the two-byte values 1 0 and 0 0 and by nothing else |
| GattServer.Server.Handle | components/ble_console/ble_spp_server.c:460-562 | the handler on its state and its list does what the event does to the session, and keeps the flags true to all that has happened |
| GattServer.Server.Connected | components/ble_console/ble_spp_server.c:691-693 | the answer is yes exactly if, by all events so far, a client is there and has asked to be notified |
| I2cPorts.StepKeepsMidway | components/i2cdev/i2cdev.c:145-193 | each step of the set-up, whatever fails, keeps the cache as coherent as that point of the code needs, exactly if it is not the one in which a driver that survived its deletion takes other parameters, and that one breaks it; at the command the driver agrees with the device |
| I2cPorts.StepKeepsCourse | components/i2cdev/i2cdev.c:145-193 | each step keeps a driver on course unless it is that one, and a driver that is off course stays so for as long as it is there |
| I2cPorts.CourseDecides | components/i2cdev/i2cdev.c:145-193 | at the command a driver on course has the pins, clock, pull-ups and timeout of the device, and one off course differs in one of them |
| I2cPorts.SetUpAgrees | components/i2cdev/i2cdev.c:145-193 | a set-up that succeeds, from any point on and whatever else fails, leaves a driver with the pins, clock, pull-ups and timeout that the device asks for |
| I2cPorts.SetUpOfFitting | components/i2cdev/i2cdev.c:132-193 | if pins, clock and pull-ups are those of the cache, driver and cache are left alone but for the timeout; success exactly if the timeout can be read and, if it is another, set |
| I2cPorts.SetUpOfOther | components/i2cdev/i2cdev.c:132-193 | otherwise success exactly if each call on the way works, and then a driver is installed in mode 1 with what the device asks for, and recorded |
| I2cPorts.StepKeepsHealth | components/i2cdev/i2cdev.c:145-193 | while nothing fails and the clock is not zero, the driver is there at the command |
| I2cPorts.StaleIff | components/i2cdev/i2cdev.c:145-193 | a set-up leaves the flag set without a driver exactly if the flag was set and either the configuration was the cached one and no driver was there, or the driver was gone or deleted and parameters or installation failed |
| I2cPorts.InstalledCanBeStale | components/i2cdev/i2cdev.c:158-164 | after a delete that works and parameters that are refused the flag is set and the driver is gone |
| I2cPorts.StaysCoherentIff | components/i2cdev/i2cdev.c:145-193 | from any point on, a set-up keeps the cache coherent exactly if it is not the case that a driver survives its deletion and then takes the parameters of another configuration |
| I2cPorts.StuckDriverMisleads | components/i2cdev/i2cdev.c:158-164 | in that case the next device of the old configuration is set up with success on a driver with the wrong one |
| I2cPorts.StartTwiceIff | components/i2cdev/i2cdev.c:42-57 | clearing the cache without shutting down is safe exactly if no driver is installed |
| I2cPorts.ShutDownForgets | components/i2cdev/i2cdev.c:59-76 | after shutting down no driver is known, it is gone exactly if its deletion worked, and the cached configuration is kept |
| I2cPorts.RestartIsCoherentIff | components/i2cdev/i2cdev.c:42-76 | shutting down and starting again is coherent exactly if the driver was not there or its deletion works, and then leaves a cleared cache and no driver |
| I2cPorts.RestartSetsCourse | components/i2cdev/i2cdev.c:42-76 | after a restart the cleared cache fits the driver exactly if there is none or it has the cleared configuration |
| I2cPorts.PortState.Setup | components/i2cdev/i2cdev.c:145-193 | the code on its state computes the steps; it keeps the cache coherent exactly if no driver is stuck, and on success leaves the device's pins, clock, pull-ups and timeout |
| I2cPorts.PortState.Done | components/i2cdev/i2cdev.c:63-74 | a port's part of the shut-down |
| I2cPorts.PortState.Init | components/i2cdev/i2cdev.c:44-54 | a port's part of the start |
| I2cTasks.LevelsAreIndependent | components/tca9534/tca9534.c:120-120 | setting a level sets that pin and leaves the other seven |
| I2cTasks.StepKeepsDeviceLocks | components/i2cdev/i2cdev.h:162-178 | each step keeps the device mutexes with exactly the tasks inside an operation |
| I2cTasks.StepKeepsPortLocks | components/i2cdev/i2cdev.c:195-251 | each step keeps the port mutexes with exactly the tasks inside a transaction |
| I2cTasks.StepKeepsCache | components/i2cdev/i2cdev.c:145-251 | each step but the one that leaves a driver to another configuration keeps every free port coherent and every busy one as far as its owner has got |
| I2cTasks.StickingBreaks | components/i2cdev/i2cdev.c:59-193 | such a step, or a restart that leaves a driver behind, leaves a cache wrong about its driver |
| I2cTasks.CachesAreRightIff | components/i2cdev/i2cdev.c:42-251 | in any interleaving, with any calls failing, any locks timing out and any restarts, no cache is wrong about a driver at any moment but between its installation and its recording, exactly if no move is of these |
| I2cTasks.StepKeepsUpToDate | components/tca9534/tca9534.c:114-125 | between its read and its write a level change knows the register's present value |
| I2cTasks.NoLostUpdate | components/tca9534/tca9534.c:39-125 | after any interleaving each register is its first value with the effective changes applied in order; a change is effective at most once, and once if success is reported; a read that reports success returns the register |
| I2cTasks.CommandsMeetTheirConfiguration | components/i2cdev/i2cdev.c:195-251 | in any interleaving, failed deletes and restarts included, a command that reaches a driver finds the pins, clock, pull-ups and timeout of its own device exactly if the driver of its port, since it was installed, has neither taken other parameters nor outlived a restart with a configuration that is not the cleared one |
| I2cTasks.RightCachesSuffice | components/i2cdev/i2cdev.c:145-251 | so it does in every run in which the caches are always right |
| I2cTasks.StaleLocksOut | components/i2cdev/i2cdev.c:145-251 | in any interleaving, whatever calls work, a port without a driver stays without one, its cache stays as it is, and no transaction on it succeeds or reaches a device, until a device of another configuration is set up on it or the library is restarted |
| I2cTasks.CommandsMeetADriver | components/i2cdev/i2cdev.c:195-251 | if no call fails and clocks are set, it also finds a driver installed |
| I2cTasks.TransactionsExclude | components/i2cdev/i2cdev.c:195-251 | at most one task is in a transaction on a port, and in an operation on a device |
| I2cTasks.IdleHoldsNothing | components/i2cdev/i2cdev.h:162-178 | after success, error or timeout a task holds no lock |
| I2cTasks.NoCircularWait | components/tca9534/tca9534.c:28-125 | no reachable state is a circular wait |
| I2cTasks.TransactionEnds | components/i2cdev/i2cdev.c:195-251 | left alone and without failures, a transaction from any point of its set-up comes to its end, with the register read or written |
| I2cTasks.LevelChangeCompletes | components/tca9534/tca9534.c:114-125 | left alone and without failures, a level change comes to its end, has set exactly that level, and has given every lock back |
| I2cTasks.OperationsCanEnd | components/i2cdev/i2cdev.h:162-178 | however far an operation has got and whatever fails, a task that does not wait for locks comes to its end and holds none |
| I2cTasks.OperationsBegin | components/tca9534/tca9534.c:114-125 | an idle task can begin any operation on a device there is |
| Expander.TransactionOutcome | components/i2cdev/i2cdev.c:195-251 | a transaction times out exactly without the port's lock, and is fine exactly if the set-up succeeds, a driver is there and the command works |
| Expander.Device.Transact | components/i2cdev/i2cdev.c:195-251 | result and port after a transaction, for each way to fail; its lock is given back on every return, the cache stays coherent exactly if no driver is stuck, and a command that got through met the device's configuration |
| Expander.Device.SetLevel | components/tca9534/tca9534.c:114-125 | every return leaves the locks as they were and reports the first failure; success means exactly that pin was written; the cache stays coherent exactly if neither transaction that is made leaves a driver stuck |
| Expander.Device.WriteOut | components/tca9534/tca9534.c:39-49 | the same for a whole byte |
| Expander.Device.ReadOut | components/tca9534/tca9534.c:28-37 | the same for a read, which returns the register on success |

## Left out

- Wi-Fi provisioning, the MQTT wrapper, the OTA server, the TCP console and `console_printf`: network and SDK calls.
- The MCP4728 driver: byte packing; it is one more device with another clock on the I2C port.
- Logging, task creation, Bluetooth start-up, GATT tables, command writes, the heartbeat (compiled out), `i2c_exp.c`.
- The queues and mutexes of the operating system are taken as bounded FIFOs and locks; a wait that times out is a choice of the environment.
- Encoders.RotaryEncoder.constructor: descriptors are taken to be zeroed before they are first added, as `init_encoder` does.
- Registry.PolledOnce: the code does not refuse to add a descriptor twice; uniqueness is for runs without such adds (independence is not).
- Knob.PositionFollowsTheWalk: for one encoder, which is what `my_encoder.c` registers; the position adds up the steps of every sender.
- Positions.PositionIsConserved: the setter's two stores count as one step, and so do the addition and the comparison in the task; signed overflow is modelled as wrap-around.
- Fragments.Forward: the MTU is taken not to change while one line is sent, and to be above 7; the Bluetooth Core allows nothing below 23.
- Console.Collect: the queues exist; the results for a queue that was never created are not modelled.
- Uplink.UplinkConserves: a line counts as sent when it is handed to the Bluetooth stack, connected or not.
- Console.LinkRx: nobody takes bytes from the queue while one burst is fed in.
- GattServer.ConsoleGetsTheWrites: nor between the events of the run; what the console takes meanwhile only makes room.
- PreparedWrites.WriteBuffer.FreeNodes: a node and its bytes are released in one step.
- PreparedWrites.WriteBuffer.Store: the allocation of the bytes themselves, which the code does not check, is taken to succeed; the 32-bit counters are unbounded here.
- I2cPorts.StepKeepsMidway: a call of the SDK that fails changes nothing; the ESP32 branch is modelled, not the ESP8266 one.
- I2cTasks.NoLostUpdate: one descriptor per chip, ports in range, and restarts only while no operation is under way.
- Expander.Device.SetLevel: a sequential view of one caller; the interleavings are in `I2cTasks`.
