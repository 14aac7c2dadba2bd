# ReliableUDP: flow control, role selection and the main-loop tick

A Dafny model of the logic in `ReliableUDP.cpp`, a peer program that runs on an
external reliable-UDP connection. The model has three parts:

- **Flow control** (`flow.dfy`, module `Flow`). The `FlowControl` class is a
  Good/Bad hysteresis state machine. It is driven by round-trip-time samples
  in milliseconds and holds four fields: `mode`, `penaltyTime`,
  `goodConditionsTime` and `penaltyReductionAccumulator`. The methods
  `Reset` and `Update` change these fields in place, with the source's early
  returns. `Update` is proved against `Step`, a pure reference definition of
  one update; the constructor and `Reset` are proved to establish `Initial`,
  the reset state. The lemmas about `Step` state:
  - the transition rules;
  - the clamps on the penalty (1 to 60 seconds);
  - an invariant that every reachable state keeps;
  - the recovery of a fresh controller after 4 seconds of good samples.

  Time is an exact `real`, in seconds.
- **Role selection** (`roles.dfy`, module `Roles`). The start of `main` turns
  the argument vector into a mode (Client or Server) and four flags, which say
  which side sends and which side receives. `SelectRoles` models this as a
  pure function. The `sscanf(argv[1], "%d.%d.%d.%d", ...)` address test is the
  parameter `scansAsAddress`. It holds exactly when sscanf returns nonzero,
  which includes partial matches and EOF.
- **One main-loop tick** (`session.dfy`, module `MainLoop`, plus `packets.dfy`,
  module `Packets`). The class `Session` holds main's loop state: `connected`,
  `sendAccumulator`, `statsAccumulator`, the function-static packet `count`
  (initially 1), the flow controller, and `sent`, the packets handed to
  `SendPacket`. One `Tick` does the following, in order:
  - feeds the round-trip time to the flow controller while the connection is
    up;
  - detects connect and disconnect edges, resetting flow control only in
    Server mode;
  - leaves the loop when not connected and the connection has failed;
  - spends the send budget, one packet per send interval. Each packet is a
    256-byte buffer zeroed by `memset`, with at most 255 bytes of the greeting
    copied in by `memcpy`;
  - drains the statistics budget, without the printing.

  What the connection reports comes in as parameters: `IsConnected`,
  `ConnectFailed`, the round-trip time, and `IsConnected` again after
  `connection.Update`.

`Intervals(k, x)` is `k` intervals of length `x`, added one at a time. The
contracts of `SendDue` and `Tick` state the send budget with
`Intervals(packets, interval)`; `IntervalsIsProduct` exists so that those terms
can be read as `packets * interval` (stating the product directly in the loop
proof is too costly for the solver).

Facts about the program that a reader might not expect:
- There is no file transfer. FileTransfer.cpp holds only empty stubs, and
  ReliablePrototypes.h only declarations; no metadata codec, chunker or
  reassembler exists. The send loop sends numbered greeting strings.
- Only a Server resets flow control on a disconnect edge
  (ReliableUDP.cpp:244-249). A Client never clears `connected`, so a Client
  that was once connected never leaves the loop.
- An `argv[1]` that is neither an address nor `-send` gives a Server that
  neither sends nor receives. That Server still sends all-zero packets at the
  flow-control rate.
- The rate for a tick's send loop is read before a disconnect resets the
  controller (ReliableUDP.cpp:240-246). So on that tick the pre-reset rate is
  used.

## Model

| member | source | states |
|---|---|---|
| `Flow.SendRate` | ReliableUDP.cpp:101-104 | the rate is 30 exactly in Good mode and 10 exactly in Bad mode |
| `Flow.FlowControl.GetSendRate` | ReliableUDP.cpp:101-104 | the member form of `Flow.SendRate`: 30 exactly when the controller is in Good mode, 10 exactly when in Bad mode |
| `Flow.FlowControl.constructor` | ReliableUDP.cpp:33-37 | a new controller is in the initial state (Bad, penalty 4, timers 0) |
| `Flow.FlowControl.Reset` | ReliableUDP.cpp:39-45 | afterwards the fields are Bad, 4, 0, 0, which satisfy the reachable-state invariant |
| `Flow.FlowControl.Update` | ReliableUDP.cpp:47-98 | the in-place update with early returns leaves the fields equal to `Step` of their old value; it keeps the penalty clamp, and for a non-negative step it keeps the invariant |
| `Flow.InitialState` | ReliableUDP.cpp:39-45 | the reset state is Bad with penalty 4 and zero timers, satisfies the invariant, and reports rate 10 |
| `Flow.LatencySpikeInGood` | ReliableUDP.cpp:51-66 | in Good mode with rtt > 250: the mode becomes Bad and both timers become 0; the penalty becomes min(2p, 60) exactly when good time < 10 and p < 60, and is otherwise unchanged |
| `Flow.GoodSampleInGood` | ReliableUDP.cpp:69-79 | in Good mode with rtt <= 250: the mode stays Good and good time grows by deltaTime; if the grown accumulator exceeds 10 and p > 1, the penalty becomes max(p/2, 1) and only the accumulator is zeroed; otherwise the accumulator grows and the penalty is kept |
| `Flow.SampleInBad` | ReliableUDP.cpp:82-96 | in Bad mode the good timer grows on a good sample and restarts at 0 on a bad one; past the penalty the controller becomes Good with zeroed timers; otherwise only the good timer changes |
| `Flow.ModeChangesAtMostOnce` | ReliableUDP.cpp:51-97 | Good leaves Good iff rtt > 250 and then does not re-upgrade in the same call; Bad becomes Good iff the sample is good and the grown timer exceeds the penalty |
| `Flow.StepKeepsPenaltyInRange` | ReliableUDP.cpp:57-61 | every update keeps 1 <= penalty <= 60, for any step and sample |
| `Flow.StepKeepsInv` | ReliableUDP.cpp:51-97 | for deltaTime >= 0 an update keeps the invariant: penalty clamped, timers non-negative, accumulator 0 and good time <= penalty in Bad mode, accumulator <= good time in Good mode |
| `Flow.RunKeepsInv` | ReliableUDP.cpp:237-238 | any sequence of per-tick updates from a reachable state ends in a reachable state |
| `Flow.BadRunAccumulates` | ReliableUDP.cpp:84-89 | a Bad controller fed n good samples only adds n/30 s of good time, while that stays within the penalty |
| `Flow.FreshControllerRecovers` | ReliableUDP.cpp:82-104 | a fresh controller fed 50 ms samples stays Bad for 120 ticks with good time k/30, becomes Good on tick 121 with penalty 4, and then reports rate 30 |
| `Flow.SpikeDoublesPenalty` | ReliableUDP.cpp:57-64 | a Good controller with penalty 4 and 3 s of good time drops to Bad on a 300 ms sample with penalty 8 |
| `Roles.SelectRoles` | ReliableUDP.cpp:151-195 | server sends iff client receives; client sends iff server receives; never both sides send; Client mode iff argv[1] exists and scans as an address |
| `Roles.SelectionCases` | ReliableUDP.cpp:157-195 | no argument: a Server that receives; an address: a Client that sends iff argv[2] is `-send`; `-send`: a Server that sends; anything else: a Server with all flags false |
| `Roles.LocalRoleMatchesRequest` | ReliableUDP.cpp:157-195 | this process sends iff `-send` is in the flag position for its mode; it receives iff it has no arguments or is a Client without `-send`; it never does both |
| `Roles.SenderTestsMatchLocalSends` | ReliableUDP.cpp:290-299 | for every selected role, the send loop's server and client sender tests hold together exactly when this process is the sending side |
| `Packets.Decimal` | ReliableUDP.cpp:292 | to_string of the count is a non-empty string of decimal digits with no leading zero |
| `Packets.DecimalRoundTrip` | ReliableUDP.cpp:292 | reading the decimal text of a count back gives the count |
| `Packets.DecimalLength` | ReliableUDP.cpp:292 | a number below 10^k has at most k digits |
| `Packets.CopyLength` | ReliableUDP.cpp:301 | memcpy copies the whole greeting when it is shorter than 256 bytes, and exactly 255 bytes when it is 256 bytes or longer; always fewer than 256 |
| `Packets.BuildPacket` | ReliableUDP.cpp:286-301 | the buffer after the memset and memcpy loops is the packet image: the copied greeting prefix followed by zeros |
| `Packets.PacketLayout` | ReliableUDP.cpp:286-302 | every packet is 256 bytes: the copied greeting bytes, then zeros through the last byte, so the last byte is always 0 |
| `Packets.EmptyGreetingPacketIsZero` | ReliableUDP.cpp:289-301 | a process that builds no greeting sends 256 zero bytes |
| `Packets.PacketTextRoundTrip` | ReliableUDP.cpp:301-302 | read as a C string, a packet gives back the copied greeting when the greeting holds no zero byte |
| `Packets.GreetingsFitPacket` | ReliableUDP.cpp:290-301 | while the count fits a C int, both greetings fit whole and read back unchanged from their packet |
| `MainLoop.SentPackets` | ReliableUDP.cpp:284-303 | k loop iterations send exactly k packets, each 256 bytes long |
| `MainLoop.SentPacketsAt` | ReliableUDP.cpp:284-303 | the i-th packet of a send run is the packet for the greeting at the i-th counter value |
| `MainLoop.SentPacketsNumbered` | ReliableUDP.cpp:290-302 | a sending Server or Client numbers its packets count, count+1, ... and each packet reads back as its greeting; a non-sender sends only all-zero packets and never advances the count |
| `MainLoop.ConnectionEdges` | ReliableUDP.cpp:244-261 | afterwards `connected` holds iff the connection is up or a Client was already connected; only a Server that was connected and sees the link down resets flow control; the loop stops only when down and failed, and never for a once-connected Client |
| `MainLoop.IntervalsIsProduct` | ReliableUDP.cpp:303 | subtracting the interval k times takes off k times the interval; this is how the `Intervals(packets, interval)` terms of `SendDue` and `Tick` read as `packets * interval` |
| `MainLoop.Session.constructor` | ReliableUDP.cpp:227-231 | at the start: not connected, both accumulators 0, count 1, a fresh controller in the initial state, nothing sent |
| `MainLoop.Session.SendPacket` | ReliableUDP.cpp:286-302 | one iteration appends the packet for the greeting at the current count to what was sent, and advances the count only for a sender |
| `MainLoop.Session.SendDue` | ReliableUDP.cpp:278-303 | afterwards the budget is the old budget plus one tick minus one interval per packet sent; it is at most one interval, and positive if anything was sent; the sent packets and the count follow SentPackets and CountAfter |
| `MainLoop.Session.DrainStats` | ReliableUDP.cpp:394-413 | the statistics budget loses 0.25 s per report; while connected it ends below 0.25 and stays non-negative; while disconnected there are no reports |
| `MainLoop.Session.Tick` | ReliableUDP.cpp:233-303 | Update runs only while connected; the controller is reset only by ConnectionEdges' Server case; `connected` and loop exit follow ConnectionEdges; sending uses the rate after Update and before any reset; a break changes no budget, count or packet; the loop invariant (send budget in [0, 0.1], statistics budget >= 0, controller reachable) is kept |

## Left out

- Printing (`printf` throughout, the receive loop at ReliableUDP.cpp:328-371, the stats line and its loss-percentage and bandwidth arithmetic at ReliableUDP.cpp:398-410): output only. The receive loop has no other effect, so it is not modelled.
- The connection (`ReliableConnection`, `Start`, `Connect`, `Listen`, `Update`, `ReceivePacket`, `net::wait`), `InitializeSockets`/`ShutdownSockets` and the exit code 1 on their failure, and the choice of port 30000/30001: these are the external transport, which `Net.h` provides. Net.h is not part of this model. Its observations are parameters of `Tick`, and `SendPacket` is recorded in `sent`.
- `getFilename` console input, and the internals of `sscanf`, which is abstracted as the predicate parameter `scansAsAddress`.
- IEEE-754 single-precision arithmetic: times, RTTs and accumulators are exact reals. Tick counts such as the 121 ticks of recovery hold for reals; with float rounding of 1/30 they may differ by a tick.
- MainLoop.Session.Tick: the three `IsConnected()` calls before `connection.Update` are one observation, because nothing between them changes the connection.
- MainLoop.Session.SendDue: `count` is unbounded (`nat`); the source's `static int` would overflow after 2^31 - 1 packets, which is undefined behaviour in C++. Packet text round trips are stated only below that bound.
- FileTransfer.cpp (`FileHandler`: empty stubs with a bare `return`) and ReliablePrototypes.h (the `Chunk` struct and declarations without bodies): there is no behaviour to model. No metadata codec, chunker or reassembler exists in the source.
