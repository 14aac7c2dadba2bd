/**
 * One iteration of the main loop of ReliableUDP.cpp: feed the round-trip time
 * to the flow controller while connected, track connect and disconnect edges,
 * spend the send budget on fixed-size packets, and drain the statistics
 * budget.
 *
 * The connection itself is external: what it reports during the tick
 * (IsConnected, ConnectFailed, the round-trip time, and IsConnected again after
 * connection.Update) comes in as parameters, and what the loop hands to
 * SendPacket is recorded in the field `sent`.
 */
module MainLoop {
  import Flow
  import Roles
  import opened Packets

  /** Seconds between two statistics reports. */
  const StatsPeriod: real := 0.25

  /** Whether the send loop's server or client branch builds a greeting. */
  predicate Sends(r: Roles.Roles)
  {
    Roles.ServerSends(r) || Roles.ClientSends(r)
  }

  /** The greeting one send-loop iteration copies into its packet. */
  function GreetingFor(r: Roles.Roles, count: nat): seq<byte>
  {
    if Roles.ServerSends(r) then ServerGreeting(count)
    else if Roles.ClientSends(r) then ClientGreeting(count)
    else []
  }

  /** The packet counter after `k` send-loop iterations starting at `count`. */
  function CountAfter(r: Roles.Roles, count: nat, k: nat): nat
  {
    if Sends(r) then count + k else count
  }

  /** The packets `k` send-loop iterations hand to SendPacket, oldest first. */
  function SentPackets(r: Roles.Roles, count: nat, k: nat): (ps: seq<seq<byte>>)
    ensures |ps| == k
    ensures forall i :: 0 <= i < k ==> |ps[i]| == PacketSize
  {
    if k == 0 then []
    else SentPackets(r, count, k - 1) + [PacketImage(GreetingFor(r, CountAfter(r, count, k - 1)))]
  }

  /** The i-th packet of a run of the send loop carries the greeting for the i-th count. */
  lemma {:induction false} SentPacketsAt(r: Roles.Roles, count: nat, k: nat)
    ensures |SentPackets(r, count, k)| == k
    ensures forall i :: 0 <= i < k ==>
      SentPackets(r, count, k)[i] == PacketImage(GreetingFor(r, CountAfter(r, count, i)))
  {
    if k > 0 {
      SentPacketsAt(r, count, k - 1);
      var prefix := SentPackets(r, count, k - 1);
      var last := PacketImage(GreetingFor(r, CountAfter(r, count, k - 1)));
      assert SentPackets(r, count, k) == prefix + [last];
    }
  }

  /**
   * A sending process numbers its packets consecutively from the current count,
   * and each packet reads back as its greeting (while the count fits a C int);
   * any other process sends only all-zero packets and never advances the count.
   */
  lemma SentPacketsNumbered(r: Roles.Roles, count: nat, k: nat)
    requires count + k <= 0x8000_0000
    ensures Roles.ServerSends(r) ==> forall i :: 0 <= i < k ==>
      CString(SentPackets(r, count, k)[i]) == ServerGreeting(count + i)
    ensures Roles.ClientSends(r) ==> forall i :: 0 <= i < k ==>
      CString(SentPackets(r, count, k)[i]) == ClientGreeting(count + i)
    ensures !Sends(r) ==> forall i :: 0 <= i < k ==>
      SentPackets(r, count, k)[i] == seq(PacketSize, j => 0)
    ensures !Sends(r) ==> CountAfter(r, count, k) == count
  {
    SentPacketsAt(r, count, k);
    forall i | 0 <= i < k
      ensures Roles.ServerSends(r) ==> CString(SentPackets(r, count, k)[i]) == ServerGreeting(count + i)
      ensures Roles.ClientSends(r) ==> CString(SentPackets(r, count, k)[i]) == ClientGreeting(count + i)
      ensures !Sends(r) ==> SentPackets(r, count, k)[i] == seq(PacketSize, j => 0)
    {
      GreetingsFitPacket(count + i);
      EmptyGreetingPacketIsZero();
    }
  }

  /** The `connected` flag after the edge detection of one tick. */
  function ConnectedAfter(mode: Roles.Mode, connected: bool, isConnected: bool): bool
  {
    var stillConnected := if mode == Roles.Server && connected && !isConnected then false else connected;
    if !stillConnected && isConnected then true else stillConnected
  }

  /** Whether the tick resets the flow controller: a Server that lost its client. */
  predicate ResetsFlow(mode: Roles.Mode, connected: bool, isConnected: bool)
  {
    mode == Roles.Server && connected && !isConnected
  }

  /** Whether the tick leaves the main loop. */
  predicate Stops(mode: Roles.Mode, connected: bool, isConnected: bool, connectFailed: bool)
  {
    !ConnectedAfter(mode, connected, isConnected) && connectFailed
  }

  /**
   * Connection bookkeeping: afterwards `connected` holds iff the connection
   * reports connected, or a Client was already connected (a Client never drops
   * the flag); only a Server resets flow control, and the loop stops only when
   * the connection is down and has failed, which never happens to a Client that
   * was once connected.
   */
  lemma ConnectionEdges(mode: Roles.Mode, connected: bool, isConnected: bool, connectFailed: bool)
    ensures ConnectedAfter(mode, connected, isConnected) <==>
      isConnected || (mode == Roles.Client && connected)
    ensures ResetsFlow(mode, connected, isConnected) ==> mode == Roles.Server && !ConnectedAfter(mode, connected, isConnected)
    ensures mode == Roles.Client ==> !ResetsFlow(mode, connected, isConnected)
    ensures isConnected ==> ConnectedAfter(mode, connected, isConnected)
    ensures Stops(mode, connected, isConnected, connectFailed) ==> !isConnected && connectFailed
    ensures mode == Roles.Client && connected ==> !Stops(mode, connected, isConnected, connectFailed)
    ensures mode == Roles.Server ==>
      (Stops(mode, connected, isConnected, connectFailed) <==> !isConnected && connectFailed)
  {
  }

  /** The flow state after the tick's Update call, made only while connected. */
  function FlowAfterUpdate(s: Flow.FlowState, isConnected: bool, rtt: real): Flow.FlowState
  {
    if isConnected then Flow.Step(s, Flow.DeltaTime, rtt * 1000.0) else s
  }

  /** Spending one send interval lowers the budget, counted in intervals, by one. */
  lemma IntervalArithmetic(budget: real, sendRate: real)
    requires sendRate > 0.0 && budget > 1.0 / sendRate
    ensures (budget * sendRate).Floor >= 1
    ensures ((budget - 1.0 / sendRate) * sendRate).Floor == (budget * sendRate).Floor - 1
  {
    assert (budget - 1.0 / sendRate) * sendRate == budget * sendRate - 1.0;
    assert budget * sendRate > (1.0 / sendRate) * sendRate == 1.0;
  }

  /** The send interval is positive and at most the Bad-mode interval. */
  lemma SendIntervalBounds(m: Flow.Mode)
    ensures Flow.SendRate(m) > 0.0
    ensures 0.0 < 1.0 / Flow.SendRate(m) <= 1.0 / Flow.SendRate(Flow.Bad)
  {
  }

  /** `k` intervals of length `x`, added up one at a time. */
  function Intervals(k: nat, x: real): real
  {
    if k == 0 then 0.0 else Intervals(k - 1, x) + x
  }

  lemma {:induction false} IntervalsIsProduct(k: nat, x: real)
    ensures Intervals(k, x) == k as real * x
  {
    if k > 0 {
      IntervalsIsProduct(k - 1, x);
    }
  }

  /** The state main keeps across iterations of its loop. */
  class Session {
    const roles: Roles.Roles
    const flowControl: Flow.FlowControl
    var connected: bool
    var sendAccumulator: real
    var statsAccumulator: real
    /** The function-static packet counter of the send loop. */
    var count: nat
    /** Every packet handed to connection.SendPacket, oldest first. */
    var sent: seq<seq<byte>>

    /**
     * Between ticks the send budget is never more than one Bad-mode interval,
     * the statistics budget is never negative, and the flow controller is in a
     * reachable state.
     */
    ghost predicate Valid()
      reads this, flowControl
    {
      0.0 <= sendAccumulator <= 1.0 / Flow.SendRate(Flow.Bad) &&
      statsAccumulator >= 0.0 &&
      Flow.Inv(flowControl.State())
    }

    constructor (roles: Roles.Roles)
      ensures Valid() && fresh(flowControl)
      ensures this.roles == roles && flowControl.State() == Flow.Initial()
      ensures !connected && sendAccumulator == 0.0 && statsAccumulator == 0.0
      ensures count == 1 && sent == []
    {
      this.roles := roles;
      flowControl := new Flow.FlowControl();
      connected := false;
      sendAccumulator := 0.0;
      statsAccumulator := 0.0;
      count := 1;
      sent := [];
    }

    /**
     * One iteration of the send loop without the budget: build the greeting
     * (advancing the counter if this side sends), build the zeroed packet,
     * and hand it to SendPacket.
     */
    method SendPacket()
      modifies this`count, this`sent
      ensures sent == old(sent) + [PacketImage(GreetingFor(roles, old(count)))]
      ensures count == CountAfter(roles, old(count), 1)
    {
      var greeting: seq<byte> := [];
      if Roles.ServerSends(roles) {
        greeting := ServerGreeting(count);
        count := count + 1;
      } else if Roles.ClientSends(roles) {
        greeting := ClientGreeting(count);
        count := count + 1;
      }
      var packet := BuildPacket(greeting);
      sent := sent + [packet];
    }

    /**
     * The send budget loop: add one tick to the budget and, while it exceeds one
     * send interval, send one packet and take an interval off.
     */
    method SendDue(sendRate: real) returns (packets: nat)
      requires sendRate > 0.0
      modifies this`sendAccumulator, this`count, this`sent
      ensures sendAccumulator == old(sendAccumulator) + Flow.DeltaTime - Intervals(packets, 1.0 / sendRate)
      ensures sendAccumulator <= 1.0 / sendRate
      ensures packets > 0 ==> sendAccumulator > 0.0
      ensures sent == old(sent) + SentPackets(roles, old(count), packets)
      ensures count == CountAfter(roles, old(count), packets)
    {
      var interval := 1.0 / sendRate;
      sendAccumulator := sendAccumulator + Flow.DeltaTime;
      ghost var budget := sendAccumulator;
      packets := 0;
      while sendAccumulator > interval
        invariant sendAccumulator == budget - Intervals(packets, interval)
        invariant packets > 0 ==> sendAccumulator > 0.0
        invariant sent == old(sent) + SentPackets(roles, old(count), packets)
        invariant count == CountAfter(roles, old(count), packets)
        decreases (sendAccumulator * sendRate).Floor
      {
        SendPacket();
        IntervalArithmetic(sendAccumulator, sendRate);
        sendAccumulator := sendAccumulator - interval;
        packets := packets + 1;
      }
    }

    /**
     * The statistics loop without its printing: add one tick and, while the
     * connection is up, report once per StatsPeriod of budget.
     */
    method DrainStats(stillConnected: bool) returns (reports: nat)
      modifies this`statsAccumulator
      ensures statsAccumulator == old(statsAccumulator) + Flow.DeltaTime - reports as real * StatsPeriod
      ensures stillConnected ==> statsAccumulator < StatsPeriod
      ensures !stillConnected ==> reports == 0
      ensures reports > 0 ==> statsAccumulator >= 0.0
    {
      statsAccumulator := statsAccumulator + Flow.DeltaTime;
      ghost var budget := statsAccumulator;
      reports := 0;
      while statsAccumulator >= StatsPeriod && stillConnected
        invariant statsAccumulator == budget - reports as real * StatsPeriod
        invariant !stillConnected ==> reports == 0
        invariant reports > 0 ==> statsAccumulator >= 0.0
        decreases (statsAccumulator * 4.0).Floor
      {
        statsAccumulator := statsAccumulator - StatsPeriod;
        reports := reports + 1;
      }
    }

    /**
     * One iteration of the main loop. `isConnected` and `connectFailed` are what
     * the connection reports before connection.Update, `rtt` its round-trip time
     * in seconds, and `stillConnected` what IsConnected reports afterwards.
     * `running` is false when the loop breaks; `packets` and `reports` count the
     * packets sent and statistics lines printed.
     */
    method Tick(isConnected: bool, connectFailed: bool, rtt: real, stillConnected: bool)
      returns (running: bool, packets: nat, reports: nat)
      requires Valid()
      modifies this, flowControl
      ensures Valid()
      ensures var updated := FlowAfterUpdate(old(flowControl.State()), isConnected, rtt);
        flowControl.State() ==
          if ResetsFlow(roles.mode, old(connected), isConnected) then Flow.Initial() else updated
      ensures connected == ConnectedAfter(roles.mode, old(connected), isConnected)
      ensures running == !Stops(roles.mode, old(connected), isConnected, connectFailed)
      ensures !running ==>
        packets == 0 && reports == 0 &&
        sendAccumulator == old(sendAccumulator) && statsAccumulator == old(statsAccumulator) &&
        count == old(count) && sent == old(sent)
      ensures running ==>
        var interval := 1.0 / Flow.SendRate(FlowAfterUpdate(old(flowControl.State()), isConnected, rtt).mode);
        sendAccumulator == old(sendAccumulator) + Flow.DeltaTime - Intervals(packets, interval) &&
        sendAccumulator <= interval &&
        sent == old(sent) + SentPackets(roles, old(count), packets) &&
        count == CountAfter(roles, old(count), packets)
      ensures running ==>
        statsAccumulator == old(statsAccumulator) + Flow.DeltaTime - reports as real * StatsPeriod &&
        (stillConnected ==> statsAccumulator < StatsPeriod) &&
        (!stillConnected ==> reports == 0)
    {
      packets, reports := 0, 0;
      ghost var updated := FlowAfterUpdate(flowControl.State(), isConnected, rtt);

      // update flow control
      if isConnected {
        flowControl.Update(Flow.DeltaTime, rtt * 1000.0);
      }
      assert flowControl.State() == updated && Flow.Inv(updated);
      var sendRate := flowControl.GetSendRate();
      SendIntervalBounds(updated.mode);

      // detect changes in connection state
      if roles.mode == Roles.Server && connected && !isConnected {
        flowControl.Reset();
        connected := false;
      }
      if !connected && isConnected {
        connected := true;
      }
      if !connected && connectFailed {
        running := false;
        return;
      }
      running := true;

      packets := SendDue(sendRate);
      reports := DrainStats(stillConnected);
    }
  }
}
