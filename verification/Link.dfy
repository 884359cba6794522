// One direction of a connection over a network that may lose, duplicate and reorder:
// a sending half, a receiving half and the messages in transit between them.

module Link {
  import opened Messages
  import opened Window

  /** The connection id and the window size each end was started with. */
  datatype Config = Config(id: int, sendWindow: int, recvWindow: int)

  ghost predicate Configured(c: Config) {
    1 <= c.sendWindow && 1 <= c.recvWindow
  }

  /** `written`, `received`, `acked`, `delivered` and `flushed` are history: the payloads written,
      the numbers the receiver has stored, the numbers the sender has seen acknowledged, the payloads
      handed to Read, and whether CloseConn has run. */
  datatype State = State(
    sender: Sender, receiver: Receiver, net: set<Message>,
    written: seq<Payload>, received: set<int>, acked: set<int>, delivered: seq<Payload>, flushed: bool)

  datatype Step =
    | Write(payload: Payload)
    | SenderEpoch
    | ReceiverEpoch
    | RecvData(msg: Message)
    | RecvAck(msg: Message)
    | ReadNext
    | CloseConn
    | Lose(msg: Message)

  const INITIAL := State(Sender(1, 1, map[], map[]), Receiver(1, 1, map[], map[]), {}, [], {}, {}, [], false)

  /** Anything in transit may arrive, any number of times and in any order. A connection that went
      through CloseConn is no longer written to. */
  ghost predicate Enabled(l: State, step: Step) {
    match step
    case Write(_) => !l.flushed
    case CloseConn => !l.flushed
    case RecvData(m) => m.MsgData? && m in l.net
    case RecvAck(m) => m.MsgAck? && m in l.net
    case _ => true
  }

  /** A number the sender has in flight and hears acknowledged. */
  function NewlyAcked(s: Sender, n: int): set<int> {
    if n in s.databuf then {n} else {}
  }

  /** What a step puts on the network: new messages, what moves into flight, and the resends of an epoch. */
  function Sent(c: Config, l: State, step: Step): set<Message> {
    match step
    case Write(p) =>
      var s := l.sender;
      if s.sendct < s.seqNo + c.sendWindow then {MsgData(c.id, s.sendct, p)} else {}
    case SenderEpoch => Contents(l.sender.databuf)
    case ReceiverEpoch => Contents(l.receiver.ackbuf) + {MsgAck(c.id, 0)}
    case RecvData(m) =>
      if m.MsgData? && m.seqNum >= l.receiver.ack then {MsgAck(c.id, m.seqNum)} else {}
    case RecvAck(m) =>
      if m.MsgAck? && !l.flushed then AckSends(c.sendWindow, l.sender, m.seqNum) else {}
    case CloseConn => Contents(l.sender.writebuf)
    case _ => {}
  }

  /** What a step does to everything but the network. */
  function Moved(c: Config, l: State, step: Step): State {
    match step
    case Write(p) =>
      l.(sender := AfterWrite(c.sendWindow, c.id, l.sender, p), written := l.written + [p])
    case RecvData(m) =>
      if !m.MsgData? || m.seqNum < l.receiver.ack then l
      else l.(receiver := AfterData(c.recvWindow, c.id, l.receiver, m), received := l.received + {m.seqNum})
    case RecvAck(m) =>
      if !m.MsgAck? then l
      else if l.flushed then
        l.(sender := l.sender.(databuf := l.sender.databuf - {m.seqNum}),
            acked := l.acked + NewlyAcked(l.sender, m.seqNum))
      else
        l.(sender := AfterAck(c.sendWindow, l.sender, m.seqNum),
            acked := l.acked + NewlyAcked(l.sender, m.seqNum))
    case ReadNext =>
      var r := l.receiver;
      if r.readct in r.readbuf && r.readbuf[r.readct].MsgData? then
        l.(receiver := AfterRead(r), delivered := l.delivered + [r.readbuf[r.readct].payload])
      else l
    case CloseConn =>
      l.(sender := l.sender.(databuf := l.sender.databuf + l.sender.writebuf, writebuf := map[]), flushed := true)
    case _ => l
  }

  function Apply(c: Config, l: State, step: Step): State {
    var t := Moved(c, l, step);
    t.(net := if step.Lose? then l.net - {step.msg} else l.net + Sent(c, l, step))
  }

  function Run(c: Config, l: State, steps: seq<Step>): State
    decreases |steps|
  {
    if steps == [] then l else Run(c, Apply(c, l, steps[0]), steps[1..])
  }

  ghost predicate ValidRun(c: Config, l: State, steps: seq<Step>)
    decreases |steps|
  {
    steps == [] || (Enabled(l, steps[0]) && ValidRun(c, Apply(c, l, steps[0]), steps[1..]))
  }

  // ---------------------------------------------------------------- what every step keeps

  /** The one data message numbered `n`. */
  function DataMsg(c: Config, written: seq<Payload>, n: int): Message
    requires 1 <= n <= |written|
  {
    MsgData(c.id, n, written[n - 1])
  }

  /** Nothing in transit or stored is made up. */
  ghost predicate Honest(c: Config, l: State) {
    && (forall m :: m in l.net && m.MsgData? ==> 1 <= m.seqNum <= |l.written| && m == DataMsg(c, l.written, m.seqNum))
    && (forall m :: m in l.net && m.MsgAck? ==> m.connId == c.id && (m.seqNum == 0 || m.seqNum in l.received))
    && l.acked <= l.received
  }

  /** `ackbuf` is exactly what was received from `ack` on, `readbuf` exactly what was received from `readct` on. */
  ghost predicate ReceiverExact(c: Config, r: Receiver, received: set<int>, written: seq<Payload>) {
    && 1 <= r.ack && 1 <= r.readct
    && (forall n :: n in received ==> 1 <= n <= |written|)
    && (forall n :: n in r.ackbuf <==> n in received && n >= r.ack)
    && (forall n :: n in r.ackbuf ==> r.ackbuf[n] == MsgAck(c.id, n))
    && (forall n :: n in r.readbuf <==> n in received && n >= r.readct)
    && (forall n :: n in r.readbuf ==> r.readbuf[n] == DataMsg(c, written, n))
    && (forall n :: 1 <= n < r.readct ==> n in received)
  }

  /** What has been read is what was written first, in order. */
  ghost predicate Prefix(l: State) {
    && 0 <= l.receiver.readct - 1 <= |l.written|
    && l.delivered == l.written[..l.receiver.readct - 1]
  }

  /** Every number written is acknowledged, in flight or queued, and only one of these. */
  ghost predicate Conserved(c: Config, s: Sender, acked: set<int>, written: seq<Payload>) {
    && s.sendct == |written| + 1
    && (forall n :: 1 <= n < s.sendct ==> n in acked || n in s.databuf || n in s.writebuf)
    && (forall n :: n in s.databuf ==>
          1 <= n < s.sendct && n !in acked && n !in s.writebuf && s.databuf[n] == DataMsg(c, written, n))
    && (forall n :: n in s.writebuf ==>
          1 <= n < s.sendct && n !in acked && s.writebuf[n] == DataMsg(c, written, n))
  }

  /** Until CloseConn, the sender keeps its window and sends nothing beyond it; a receiver whose window
      is at least as large never slides past the sender. */
  ghost predicate Windowed(c: Config, l: State) {
    && Shape(c.sendWindow, l.sender)
    && (forall m :: m in l.net && m.MsgData? ==> m.seqNum < l.sender.seqNo + c.sendWindow)
    && (forall n :: n in l.received ==> n < l.sender.seqNo + c.sendWindow)
    && (c.sendWindow <= c.recvWindow ==> l.receiver.ack <= l.sender.seqNo)
  }

  ghost predicate Inv(c: Config, l: State) {
    && Honest(c, l)
    && ReceiverExact(c, l.receiver, l.received, l.written)
    && Prefix(l)
    && Conserved(c, l.sender, l.acked, l.written)
    && (if l.flushed then l.sender.writebuf == map[] else Windowed(c, l))
  }

  /** Whatever a step sends is held for resending: data in `databuf`, acknowledgements because the data came. */
  lemma SentIsHeld(c: Config, l: State, step: Step, m: Message)
    requires Inv(c, l) && Enabled(l, step) && m in Sent(c, l, step)
    ensures var t := Moved(c, l, step);
            && (m.MsgData? ==> m.seqNum in t.sender.databuf && t.sender.databuf[m.seqNum] == m)
            && (m.MsgAck? ==> m.connId == c.id && (m.seqNum == 0 || m.seqNum in t.received))
  {
  }

  lemma HonestKept(c: Config, l: State, step: Step)
    requires Inv(c, l) && Enabled(l, step)
    requires var t := Apply(c, l, step); Conserved(c, t.sender, t.acked, t.written)
    ensures Honest(c, Apply(c, l, step))
  {
    hide Sent, AfterAck, AfterData, AfterWrite, Windowed, ReceiverExact;
    var t := Apply(c, l, step);
    forall m | m in t.net && m !in l.net
      ensures m.MsgData? ==> m.seqNum in t.sender.databuf && t.sender.databuf[m.seqNum] == m
      ensures m.MsgAck? ==> m.connId == c.id && (m.seqNum == 0 || m.seqNum in t.received)
    {
      SentIsHeld(c, l, step, m);
    }
  }

  lemma DataKeepsReceiver(c: Config, r: Receiver, received: set<int>, written: seq<Payload>, n: int)
    requires c.recvWindow >= 1 && ReceiverExact(c, r, received, written) && r.ack <= n && 1 <= n <= |written|
    ensures ReceiverExact(c, AfterData(c.recvWindow, c.id, r, DataMsg(c, written, n)), received + {n}, written)
  {
  }

  lemma ReadKeepsReceiver(c: Config, r: Receiver, received: set<int>, written: seq<Payload>)
    requires ReceiverExact(c, r, received, written)
    ensures ReceiverExact(c, AfterRead(r), received, written)
  {
  }

  lemma WriteKeepsSender(c: Config, s: Sender, acked: set<int>, written: seq<Payload>, p: Payload)
    requires Configured(c) && Conserved(c, s, acked, written) && (forall n :: n in acked ==> 1 <= n <= |written|)
    ensures Conserved(c, AfterWrite(c.sendWindow, c.id, s, p), acked, written + [p])
    ensures Shape(c.sendWindow, s) ==> Shape(c.sendWindow, AfterWrite(c.sendWindow, c.id, s, p))
  {
    assert forall n {:trigger written[n - 1]} :: 1 <= n <= |written| ==> (written + [p])[n - 1] == written[n - 1];
  }

  /** Taking an acknowledged number out of flight. */
  lemma AckedIsOut(c: Config, s: Sender, acked: set<int>, written: seq<Payload>, n: int)
    requires Conserved(c, s, acked, written)
    ensures Conserved(c, s.(databuf := s.databuf - {n}), acked + if n in s.databuf then {n} else {}, written)
  {
  }

  /** Moving a part of the queue into flight, whatever `seqNo` becomes. */
  lemma MovedIsKept(c: Config, s: Sender, acked: set<int>, written: seq<Payload>, lo: int, hi: int, seqNo: int)
    requires Conserved(c, s, acked, written)
    ensures var moved := Queued(s.writebuf, lo, hi);
            Conserved(c, Sender(seqNo, s.sendct, s.databuf + moved, s.writebuf - moved.Keys), acked, written)
  {
  }

  lemma AckKeepsShape(w: int, s: Sender, n: int)
    requires w >= 1 && Shape(w, s) && n < s.sendct
    ensures Shape(w, AfterAck(w, s, n))
  {
    if n == s.seqNo {
      SlideIsExact(w, s);
    }
  }

  lemma AckKeepsSender(c: Config, s: Sender, acked: set<int>, written: seq<Payload>, n: int)
    requires Configured(c) && Conserved(c, s, acked, written) && Shape(c.sendWindow, s)
    ensures var t := AfterAck(c.sendWindow, s, n);
            && Conserved(c, t, acked + NewlyAcked(s, n), written)
            && s.seqNo <= t.seqNo
            && (n < s.sendct ==> Shape(c.sendWindow, t))
  {
    hide Conserved, Queued;
    if s.seqNo <= n <= s.seqNo + c.sendWindow {
      AckedIsOut(c, s, acked, written, n);
      var out := s.(databuf := s.databuf - {n});
      var seqNo := AfterAck(c.sendWindow, s, n).seqNo;
      MovedIsKept(c, out, acked + NewlyAcked(s, n), written, n + c.sendWindow, seqNo + c.sendWindow, seqNo);
    } else {
      assert acked + NewlyAcked(s, n) == acked;
    }
    if n < s.sendct {
      AckKeepsShape(c.sendWindow, s, n);
    }
  }

  lemma SenderKept(c: Config, l: State, step: Step)
    requires Configured(c) && Inv(c, l) && Enabled(l, step)
    ensures var t := Apply(c, l, step);
            && Conserved(c, t.sender, t.acked, t.written) && l.sender.seqNo <= t.sender.seqNo
            && (t.flushed ==> t.sender.writebuf == map[])
            && (!t.flushed ==> Shape(c.sendWindow, t.sender))
  {
    match step
    case Write(p) => WriteKeepsSender(c, l.sender, l.acked, l.written, p);
    case RecvAck(m) =>
      if l.flushed {
        AckedIsOut(c, l.sender, l.acked, l.written, m.seqNum);
      } else {
        AckKeepsSender(c, l.sender, l.acked, l.written, m.seqNum);
      }
    case _ =>
  }

  lemma WriteKeepsReceiver(c: Config, r: Receiver, received: set<int>, written: seq<Payload>, p: Payload)
    requires ReceiverExact(c, r, received, written)
    ensures ReceiverExact(c, r, received, written + [p])
  {
    assert forall n {:trigger written[n - 1]} :: 1 <= n <= |written| ==> (written + [p])[n - 1] == written[n - 1];
  }

  lemma ReadKeepsPrefix(c: Config, l: State)
    requires ReceiverExact(c, l.receiver, l.received, l.written) && Prefix(l)
    ensures Prefix(Apply(c, l, ReadNext))
  {
  }

  lemma ReceivedNumber(c: Config, l: State, m: Message)
    requires Honest(c, l) && m in l.net && m.MsgData?
    ensures 1 <= m.seqNum <= |l.written| && m == DataMsg(c, l.written, m.seqNum)
  {
  }

  lemma ReceiverKept(c: Config, l: State, step: Step)
    requires Configured(c) && Inv(c, l) && Enabled(l, step)
    ensures var t := Apply(c, l, step);
            && ReceiverExact(c, t.receiver, t.received, t.written) && Prefix(t)
            && l.received <= t.received && l.written <= t.written
  {
    hide ReceiverExact, Honest, Conserved, Windowed, AfterData, AfterRead, AfterAck, AfterWrite, Sent, DataMsg;
    match step
    case RecvData(m) =>
      if m.seqNum >= l.receiver.ack {
        ReceivedNumber(c, l, m);
        DataKeepsReceiver(c, l.receiver, l.received, l.written, m.seqNum);
        DataKeepsCount(c.recvWindow, c.id, l.receiver, m);
      }
    case ReadNext =>
      ReadKeepsReceiver(c, l.receiver, l.received, l.written);
      ReadKeepsPrefix(c, l);
      StoredIsData(c, l.receiver, l.received, l.written);
    case Write(p) => WriteKeepsReceiver(c, l.receiver, l.received, l.written, p);
    case _ =>
  }

  lemma DataKeepsCount(w: int, id: int, r: Receiver, m: Message)
    requires m.MsgData?
    ensures AfterData(w, id, r, m).readct == r.readct
  {
  }

  /** So the next message in order, if it is there, is one that was written. */
  lemma StoredIsData(c: Config, r: Receiver, received: set<int>, written: seq<Payload>)
    requires ReceiverExact(c, r, received, written)
    ensures r.readct in r.readbuf ==> r.readbuf[r.readct].MsgData?
    ensures r.readct !in r.readbuf ==> AfterRead(r) == r
  {
  }

  lemma WindowedKept(c: Config, l: State, step: Step)
    requires Configured(c) && Inv(c, l) && Enabled(l, step) && !Apply(c, l, step).flushed
    requires var t := Apply(c, l, step); Shape(c.sendWindow, t.sender) && l.sender.seqNo <= t.sender.seqNo
    ensures Windowed(c, Apply(c, l, step))
  {
    var t := Apply(c, l, step);
    forall m | m in t.net && m !in l.net && m.MsgData?
      ensures m.seqNum in t.sender.databuf
    {
      SentIsHeld(c, l, step, m);
    }
  }

  lemma StepKeepsInv(c: Config, l: State, step: Step)
    requires Configured(c) && Inv(c, l) && Enabled(l, step)
    ensures Inv(c, Apply(c, l, step))
  {
    SenderKept(c, l, step);
    ReceiverKept(c, l, step);
    HonestKept(c, l, step);
    if !Apply(c, l, step).flushed {
      WindowedKept(c, l, step);
    }
  }

  // ---------------------------------------------------------------- whole runs

  lemma {:induction false} RunKeepsInv(c: Config, l: State, steps: seq<Step>)
    requires Configured(c) && Inv(c, l) && ValidRun(c, l, steps)
    ensures Inv(c, Run(c, l, steps))
    decreases |steps|
  {
    if steps != [] {
      StepKeepsInv(c, l, steps[0]);
      RunKeepsInv(c, Apply(c, l, steps[0]), steps[1..]);
    }
  }

  lemma ReachableInv(c: Config, steps: seq<Step>)
    requires Configured(c) && ValidRun(c, INITIAL, steps)
    ensures Inv(c, Run(c, INITIAL, steps))
  {
    RunKeepsInv(c, INITIAL, steps);
  }

  /** End to end: over any run with loss, duplication and reordering, and whatever the windows, the
      payloads read are the first `readct - 1` written, in order, none twice; what is buffered is
      exactly what was received. CloseConn does not change this. */
  lemma EndToEnd(c: Config, steps: seq<Step>)
    requires Configured(c) && ValidRun(c, INITIAL, steps)
    ensures var l := Run(c, INITIAL, steps);
            && l.delivered <= l.written && |l.delivered| == l.receiver.readct - 1
            && (forall n :: n in l.receiver.ackbuf <==> n in l.received && n >= l.receiver.ack)
            && (forall n :: n in l.receiver.readbuf <==> n in l.received && n >= l.receiver.readct)
  {
    ReachableInv(c, steps);
  }

  /** Everything put on the network during a run, whatever was lost since. */
  function EverSent(c: Config, l: State, steps: seq<Step>): set<Message>
    decreases |steps|
  {
    if steps == [] then {} else Sent(c, l, steps[0]) + EverSent(c, Apply(c, l, steps[0]), steps[1..])
  }

  /** A step sends whatever it puts into flight. */
  lemma LaunchedIsSent(c: Config, l: State, step: Step)
    ensures Contents(Apply(c, l, step).sender.databuf) <= Contents(l.sender.databuf) + Sent(c, l, step)
  {
    hide Scan;
  }

  lemma {:induction false} FlightIsSent(c: Config, l: State, steps: seq<Step>)
    ensures Contents(Run(c, l, steps).sender.databuf) <= Contents(l.sender.databuf) + EverSent(c, l, steps)
    decreases |steps|
  {
    hide Apply, Contents, Sent;
    if steps != [] {
      LaunchedIsSent(c, l, steps[0]);
      FlightIsSent(c, Apply(c, l, steps[0]), steps[1..]);
    }
  }

  /** Whatever is in flight has been sent: nothing waits for an epoch to leave for the first time. */
  lemma InFlightWasSent(c: Config, steps: seq<Step>)
    ensures forall k :: k in Run(c, INITIAL, steps).sender.databuf ==>
              Run(c, INITIAL, steps).sender.databuf[k] in EverSent(c, INITIAL, steps)
  {
    FlightIsSent(c, INITIAL, steps);
    var d := Run(c, INITIAL, steps).sender.databuf;
    forall k | k in d
      ensures d[k] in EverSent(c, INITIAL, steps)
    {
      assert d[k] in Contents(d);
    }
  }

  /** At most a window in flight, the queue exactly above it, every number in one place. */
  lemma WindowHolds(c: Config, steps: seq<Step>)
    requires Configured(c) && ValidRun(c, INITIAL, steps)
    ensures var l := Run(c, INITIAL, steps);
            && (!l.flushed ==> Shape(c.sendWindow, l.sender))
            && Conserved(c, l.sender, l.acked, l.written)
            && l.acked <= l.received
  {
    ReachableInv(c, steps);
  }
}
