// Nothing is passed over and the window never deadlocks; where CloseConn or a smaller receiving
// window break this, and exactly when.

module Progress {
  import opened Maps
  import opened Messages
  import opened Window
  import opened Link

  /** Every number below the receiver's window has been stored, so ignoring data below it loses nothing. */
  ghost predicate NothingPassedOver(l: State) {
    forall n :: 1 <= n < l.receiver.ack ==> n in l.received
  }

  lemma WindowPassesNothingOver(c: Config, l: State)
    requires Inv(c, l) && !l.flushed && 1 <= c.sendWindow <= c.recvWindow
    ensures NothingPassedOver(l)
  {
    forall n | 1 <= n < l.receiver.ack
      ensures n in l.received
    {
      assert n < l.sender.seqNo <= l.sender.sendct;
      assert n !in l.sender.databuf && n !in l.sender.writebuf;
    }
  }

  predicate NoClose(steps: seq<Step>) {
    CloseConn !in steps
  }

  predicate NoWrite(steps: seq<Step>) {
    forall s :: s in steps ==> !s.Write?
  }

  lemma ReadCountGrows(c: Config, l: State, step: Step)
    ensures l.receiver.readct <= Apply(c, l, step).receiver.readct
  {
  }

  lemma {:induction false} RunGrows(c: Config, l: State, steps: seq<Step>)
    requires Configured(c) && Inv(c, l) && ValidRun(c, l, steps)
    ensures var t := Run(c, l, steps);
            && l.sender.seqNo <= t.sender.seqNo && l.received <= t.received && l.written <= t.written
            && (NoClose(steps) ==> t.flushed == l.flushed)
            && (NoWrite(steps) ==> t.written == l.written)
            && l.receiver.readct <= t.receiver.readct
    decreases |steps|
  {
    hide Inv, AfterAck, AfterData, AfterWrite, Conserved, ReceiverExact, Prefix, Sent;
    if steps != [] {
      var m := Apply(c, l, steps[0]);
      StepKeepsInv(c, l, steps[0]);
      SenderKept(c, l, steps[0]);
      ReceiverKept(c, l, steps[0]);
      ReadCountGrows(c, l, steps[0]);
      RunGrows(c, m, steps[1..]);
      assert NoClose(steps) ==> steps[0] != CloseConn;
      assert NoWrite(steps) ==> steps[0] in steps;
    }
  }

  // ---------------------------------------------------------------- rounds of resending

  /** A round: first every message in flight reaches the receiver, then every acknowledgement the
      receiver holds reaches the sender. Anything else may happen in between. */
  datatype Round = Round(toReceiver: seq<Step>, toSender: seq<Step>)

  function AfterRound(c: Config, l: State, r: Round): State {
    Run(c, Run(c, l, r.toReceiver), r.toSender)
  }

  ghost predicate IsRound(c: Config, l: State, r: Round) {
    var mid := Run(c, l, r.toReceiver);
    && ValidRun(c, l, r.toReceiver) && NoClose(r.toReceiver)
    && ValidRun(c, mid, r.toSender) && NoClose(r.toSender)
    && (forall n :: n in l.sender.databuf ==> RecvData(l.sender.databuf[n]) in r.toReceiver)
    && (forall n :: n in mid.receiver.ackbuf ==> RecvAck(mid.receiver.ackbuf[n]) in r.toSender)
  }

  /** The least number not slid past is in flight, or its acknowledgement is still held by the receiver,
      although `seqNo` may lag behind numbers already acknowledged. */
  lemma HeadIsLive(c: Config, l: State)
    requires Inv(c, l) && !l.flushed && 1 <= c.sendWindow <= c.recvWindow && l.sender.seqNo < l.sender.sendct
    ensures l.sender.seqNo in l.sender.databuf || l.sender.seqNo in l.receiver.ackbuf
  {
  }

  lemma {:induction false} DataGetsThrough(c: Config, l: State, steps: seq<Step>, m: Message)
    requires 1 <= c.sendWindow <= c.recvWindow && Inv(c, l) && !l.flushed
    requires ValidRun(c, l, steps) && NoClose(steps) && RecvData(m) in steps
    ensures m.MsgData? && m.seqNum in Run(c, l, steps).received
    decreases |steps|
  {
    var t := Apply(c, l, steps[0]);
    assert steps[0] != CloseConn;
    StepKeepsInv(c, l, steps[0]);
    if steps[0] == RecvData(m) {
      WindowPassesNothingOver(c, l);
      RunGrows(c, t, steps[1..]);
    } else {
      DataGetsThrough(c, t, steps[1..], m);
    }
  }

  lemma {:induction false} AckGetsThrough(c: Config, l: State, steps: seq<Step>, m: Message)
    requires 1 <= c.sendWindow <= c.recvWindow && Inv(c, l) && !l.flushed
    requires ValidRun(c, l, steps) && NoClose(steps) && RecvAck(m) in steps
    requires m.MsgAck? && l.sender.seqNo >= m.seqNum
    ensures Run(c, l, steps).sender.seqNo > m.seqNum
    decreases |steps|
  {
    var t := Apply(c, l, steps[0]);
    assert steps[0] != CloseConn;
    StepKeepsInv(c, l, steps[0]);
    SenderKept(c, l, steps[0]);
    if steps[0] == RecvAck(m) {
      assert t.sender.seqNo > m.seqNum;
      RunGrows(c, t, steps[1..]);
    } else {
      AckGetsThrough(c, t, steps[1..], m);
    }
  }

  /** Every round strictly raises `seqNo`. */
  lemma RoundAdvances(c: Config, l: State, r: Round)
    requires 1 <= c.sendWindow <= c.recvWindow && Inv(c, l) && !l.flushed
    requires IsRound(c, l, r) && l.sender.seqNo < l.sender.sendct
    ensures AfterRound(c, l, r).sender.seqNo > l.sender.seqNo
  {
    var q := l.sender.seqNo;
    var mid := Run(c, l, r.toReceiver);
    RunKeepsInv(c, l, r.toReceiver);
    RunGrows(c, l, r.toReceiver);
    RunGrows(c, mid, r.toSender);
    if q in l.sender.databuf {
      DataGetsThrough(c, l, r.toReceiver, l.sender.databuf[q]);
    } else {
      HeadIsLive(c, l);
    }
    if mid.sender.seqNo == q {
      assert q in mid.receiver.ackbuf;
      AckGetsThrough(c, mid, r.toSender, mid.receiver.ackbuf[q]);
    }
  }

  lemma NothingLeft(w: int, s: Sender)
    requires w >= 1 && Shape(w, s) && s.seqNo == s.sendct
    ensures Drained(s)
  {
    if s.databuf != map[] {
      var k := SomeKey(s.databuf);
      assert false;
    }
    if s.writebuf != map[] {
      var k := SomeKey(s.writebuf);
      assert false;
    }
  }

  ghost predicate AreRounds(c: Config, l: State, rs: seq<Round>)
    decreases |rs|
  {
    rs == [] ||
    (IsRound(c, l, rs[0]) && NoWrite(rs[0].toReceiver) && NoWrite(rs[0].toSender)
     && AreRounds(c, AfterRound(c, l, rs[0]), rs[1..]))
  }

  function AfterRounds(c: Config, l: State, rs: seq<Round>): State
    decreases |rs|
  {
    if rs == [] then l else AfterRounds(c, AfterRound(c, l, rs[0]), rs[1..])
  }

  /** At most `sendct - seqNo` rounds empty both buffers and bring every number written to the receiver. */
  lemma {:induction false} RoundsDrain(c: Config, l: State, rs: seq<Round>)
    requires 1 <= c.sendWindow <= c.recvWindow && Inv(c, l) && !l.flushed
    requires AreRounds(c, l, rs) && |rs| >= l.sender.sendct - l.sender.seqNo
    ensures var t := AfterRounds(c, l, rs);
            && Drained(t.sender) && t.written == l.written
            && forall n :: 1 <= n <= |t.written| ==> n in t.received
    decreases |rs|
  {
    if rs == [] {
      assert l.sender.seqNo == l.sender.sendct;
      NothingLeft(c.sendWindow, l.sender);
    } else {
      var t := AfterRound(c, l, rs[0]);
      var mid := Run(c, l, rs[0].toReceiver);
      RunKeepsInv(c, l, rs[0].toReceiver);
      RunGrows(c, l, rs[0].toReceiver);
      RunKeepsInv(c, mid, rs[0].toSender);
      RunGrows(c, mid, rs[0].toSender);
      if l.sender.seqNo < l.sender.sendct {
        RoundAdvances(c, l, rs[0]);
      }
      RoundsDrain(c, t, rs[1..]);
    }
  }

  // ---------------------------------------------------------------- no dead ends

  lemma {:induction false} RunAppends(c: Config, l: State, a: seq<Step>, b: seq<Step>)
    requires ValidRun(c, l, a) && ValidRun(c, Run(c, l, a), b)
    ensures ValidRun(c, l, a + b) && Run(c, l, a + b) == Run(c, Run(c, l, a), b)
    decreases |a|
  {
    if a == [] {
      assert a + b == b;
    } else {
      RunAppends(c, Apply(c, l, a[0]), a[1..], b);
      assert (a + b)[1..] == a[1..] + b;
    }
  }

  /** Some run leads from `l` to `t`. */
  ghost predicate Reaches(c: Config, l: State, t: State) {
    exists steps :: ValidRun(c, l, steps) && t == Run(c, l, steps)
  }

  lemma ReachesSelf(c: Config, l: State)
    ensures Reaches(c, l, l)
  {
    assert ValidRun(c, l, []) && l == Run(c, l, []);
  }

  lemma ReachesStep(c: Config, l: State, step: Step)
    requires Enabled(l, step)
    ensures Reaches(c, l, Apply(c, l, step))
  {
    var t := Apply(c, l, step);
    assert Run(c, l, [step]) == Run(c, t, [step][1..]) == t;
    assert ValidRun(c, l, [step]);
  }

  lemma ReachesFurther(c: Config, l: State, m: State, t: State)
    requires Reaches(c, l, m) && Reaches(c, m, t)
    ensures Reaches(c, l, t)
  {
    var a :| ValidRun(c, l, a) && m == Run(c, l, a);
    var b :| ValidRun(c, m, b) && t == Run(c, m, b);
    RunAppends(c, l, a, b);
    assert ValidRun(c, l, a + b) && t == Run(c, l, a + b);
  }

  lemma TwoSteps(c: Config, l: State, s0: Step, s1: Step)
    requires Enabled(l, s0) && Enabled(Apply(c, l, s0), s1)
    ensures ValidRun(c, l, [s0, s1]) && Run(c, l, [s0, s1]) == Apply(c, Apply(c, l, s0), s1)
  {
    var t := Apply(c, l, s0);
    assert [s0, s1][1..] == [s1];
    assert Run(c, t, [s1]) == Run(c, Apply(c, t, s1), [s1][1..]);
  }

  lemma ResendData(c: Config, l: State, n: int) returns (steps: seq<Step>)
    requires 1 <= c.sendWindow <= c.recvWindow && Inv(c, l) && !l.flushed && n in l.sender.databuf
    ensures ValidRun(c, l, steps) && NoClose(steps) && NoWrite(steps)
    ensures var t := Run(c, l, steps); n in t.received && t.sender == l.sender
  {
    var m := l.sender.databuf[n];
    var t := Apply(c, l, SenderEpoch);
    assert m in Contents(l.sender.databuf);
    StepKeepsInv(c, l, SenderEpoch);
    WindowPassesNothingOver(c, t);
    steps := [SenderEpoch, RecvData(m)];
    TwoSteps(c, l, SenderEpoch, RecvData(m));
  }

  lemma ResendAck(c: Config, l: State, n: int) returns (steps: seq<Step>)
    requires 1 <= c.sendWindow && Inv(c, l) && !l.flushed && n in l.receiver.ackbuf
    ensures ValidRun(c, l, steps) && NoClose(steps) && NoWrite(steps)
    ensures var t := Run(c, l, steps); t.sender == AfterAck(c.sendWindow, l.sender, n)
  {
    var m := l.receiver.ackbuf[n];
    assert m in Contents(l.receiver.ackbuf);
    steps := [ReceiverEpoch, RecvAck(m)];
    TwoSteps(c, l, ReceiverEpoch, RecvAck(m));
  }

  /** However much the network has lost, one resend from each end raises `seqNo`. */
  lemma NoDeadlock(c: Config, l: State) returns (steps: seq<Step>)
    requires 1 <= c.sendWindow <= c.recvWindow && Inv(c, l) && !l.flushed && l.sender.seqNo < l.sender.sendct
    ensures ValidRun(c, l, steps) && NoClose(steps) && NoWrite(steps)
    ensures Run(c, l, steps).sender.seqNo > l.sender.seqNo
  {
    var q := l.sender.seqNo;
    if q in l.sender.databuf {
      var first := ResendData(c, l, q);
      var mid := Run(c, l, first);
      RunKeepsInv(c, l, first);
      RunGrows(c, l, first);
      var last := ResendAck(c, mid, q);
      RunAppends(c, l, first, last);
      steps := first + last;
    } else {
      HeadIsLive(c, l);
      steps := ResendAck(c, l, q);
    }
  }

  lemma {:induction false} CanRead(c: Config, l: State) returns (steps: seq<Step>)
    requires Configured(c) && Inv(c, l) && (forall n :: 1 <= n <= |l.written| ==> n in l.received)
    ensures ValidRun(c, l, steps) && Run(c, l, steps).delivered == l.written
    decreases |l.written| - l.receiver.readct
  {
    if l.receiver.readct > |l.written| {
      steps := [];
    } else {
      StepKeepsInv(c, l, ReadNext);
      var rest := CanRead(c, Apply(c, l, ReadNext));
      steps := [ReadNext] + rest;
      assert steps[1..] == rest;
    }
  }

  /** No reachable state is a dead end: from each, some run hands over everything written. */
  lemma {:induction false} CanDeliverAll(c: Config, l: State) returns (steps: seq<Step>)
    requires 1 <= c.sendWindow <= c.recvWindow && Inv(c, l) && !l.flushed
    ensures ValidRun(c, l, steps) && Run(c, l, steps).delivered == l.written
    decreases l.sender.sendct - l.sender.seqNo
  {
    var first: seq<Step>;
    if l.sender.seqNo == l.sender.sendct {
      first := [];
      steps := CanRead(c, l);
    } else {
      first := NoDeadlock(c, l);
      RunKeepsInv(c, l, first);
      RunGrows(c, l, first);
      steps := CanDeliverAll(c, Run(c, l, first));
    }
    RunAppends(c, l, first, steps);
    steps := first + steps;
  }

  // ---------------------------------------------------------------- what CloseConn and a small window break

  lemma StepPassesOver(c: Config, l: State, step: Step, n: int)
    requires Configured(c) && Inv(c, l) && Enabled(l, step) && 1 <= n < l.receiver.ack && n !in l.received
    ensures var t := Apply(c, l, step); n < t.receiver.ack && n !in t.received
  {
  }

  lemma NotReadPast(c: Config, l: State, n: int)
    requires Inv(c, l) && 1 <= n && n !in l.received
    ensures |l.delivered| < n
  {
  }

  /** A number passed over is never stored again and holds up every later read. */
  lemma {:induction false} PassedOverForever(c: Config, l: State, steps: seq<Step>, n: int)
    requires Configured(c) && Inv(c, l) && ValidRun(c, l, steps)
    requires 1 <= n < l.receiver.ack && n !in l.received
    ensures var t := Run(c, l, steps); n !in t.received && |t.delivered| < n
    decreases |steps|
  {
    hide Inv, Apply;
    if steps == [] {
      NotReadPast(c, l, n);
    } else {
      StepKeepsInv(c, l, steps[0]);
      StepPassesOver(c, l, steps[0], n);
      PassedOverForever(c, Apply(c, l, steps[0]), steps[1..], n);
    }
  }

  /** The number that slides a receiver past the others is at most the last one written. */
  lemma {:induction false} FlushedAckBound(c: Config, l: State, steps: seq<Step>)
    requires Configured(c) && Inv(c, l) && l.flushed && ValidRun(c, l, steps)
    ensures var t := Run(c, l, steps);
            t.receiver.ack == l.receiver.ack || t.receiver.ack <= l.sender.sendct - c.recvWindow
    decreases |steps|
  {
    if steps != [] {
      StepKeepsInv(c, l, steps[0]);
      FlushedAckBound(c, Apply(c, l, steps[0]), steps[1..]);
    }
  }

  lemma LastQueuedPassesOver(c: Config, l: State, n: int)
    requires 1 <= c.sendWindow <= c.recvWindow && Inv(c, l) && !l.flushed
    requires 1 <= n < l.sender.sendct - c.recvWindow && n !in l.received
    ensures l.sender.sendct - 1 in l.sender.writebuf
    ensures var f := Apply(c, l, CloseConn);
            var steps := [RecvData(l.sender.writebuf[l.sender.sendct - 1])];
            ValidRun(c, f, steps) && !NothingPassedOver(Run(c, f, steps))
  {
    assert n in l.sender.databuf || n in l.sender.writebuf;
    var m := l.sender.writebuf[l.sender.sendct - 1];
    assert m in Contents(l.sender.writebuf);
    var f := Apply(c, l, CloseConn);
    var t := Apply(c, f, RecvData(m));
    assert Run(c, f, [RecvData(m)]) == Run(c, t, [RecvData(m)][1..]) == t;
    assert n < t.receiver.ack && n !in t.received;
  }

  /** Whether nothing can be passed over after CloseConn, whatever the network does. */
  ghost predicate CloseIsSafe(c: Config, l: State) {
    forall steps :: ValidRun(c, Apply(c, l, CloseConn), steps) ==>
        NothingPassedOver(Run(c, Apply(c, l, CloseConn), steps))
  }

  /** CloseConn sends the whole queue past the window. Something not yet received can then be passed
      over for good exactly when its number is a receiver's window or more below the last one. */
  lemma CloseConnSafeIff(c: Config, l: State)
    requires 1 <= c.sendWindow <= c.recvWindow && Inv(c, l) && !l.flushed
    ensures CloseIsSafe(c, l) <==> (forall n :: 1 <= n < l.sender.sendct - c.recvWindow ==> n in l.received)
  {
    if n :| 1 <= n < l.sender.sendct - c.recvWindow && n !in l.received {
      LastQueuedPassesOver(c, l, n);
    } else {
      var f := Apply(c, l, CloseConn);
      StepKeepsInv(c, l, CloseConn);
      WindowPassesNothingOver(c, l);
      forall steps | ValidRun(c, f, steps)
        ensures NothingPassedOver(Run(c, f, steps))
      {
        FlushedAckBound(c, f, steps);
        RunGrows(c, f, steps);
      }
    }
  }

  /** What the caller can see: nothing in flight or queued is a receiver's window or more below the last number. */
  predicate LooksSafe(c: Config, s: Sender) {
    (forall n :: n in s.databuf ==> n >= s.sendct - c.recvWindow)
      && (forall n :: n in s.writebuf ==> n >= s.sendct - c.recvWindow)
  }

  /** The sender of `k`, before CloseConn, is that of `l` and knows the same. */
  predicate SameSender(k: State, l: State) {
    !k.flushed && k.sender == l.sender && k.acked == l.acked && k.written == l.written
  }

  /** The same sender, facing a receiver that has stored only what the sender knows of. */
  ghost function LeastReceived(c: Config, l: State): State {
    var stored := map n | n in l.acked && 1 <= n <= |l.written| :: DataMsg(c, l.written, n);
    l.(receiver := Receiver(1, 1, map n | n in l.acked :: MsgAck(c.id, n), stored), net := {}, received := l.acked,
        delivered := [])
  }

  lemma LeastReceivedFits(c: Config, l: State)
    requires Configured(c) && Inv(c, l) && !l.flushed
    ensures var k := LeastReceived(c, l); Inv(c, k) && SameSender(k, l)
  {
    var k := LeastReceived(c, l);
    assert Honest(c, k);
    assert ReceiverExact(c, k.receiver, k.received, k.written);
    assert Prefix(k);
  }

  /** Seen from the sender: CloseConn is safe whatever the receiver has stored exactly when it looks safe. */
  lemma CloseConnSafeForSenderIff(c: Config, l: State)
    requires 1 <= c.sendWindow <= c.recvWindow && Inv(c, l) && !l.flushed
    ensures (forall k :: Inv(c, k) && SameSender(k, l) ==> CloseIsSafe(c, k)) <==> LooksSafe(c, l.sender)
  {
    if LooksSafe(c, l.sender) {
      forall k | Inv(c, k) && SameSender(k, l)
        ensures CloseIsSafe(c, k)
      {
        CloseConnSafeIff(c, k);
      }
    } else {
      var k := LeastReceived(c, l);
      LeastReceivedFits(c, l);
      CloseConnSafeIff(c, k);
      var n :| (n in l.sender.databuf || n in l.sender.writebuf) && n < l.sender.sendct - c.recvWindow;
      assert 1 <= n && n !in k.received;
    }
  }

  /** With an empty queue, or with everything within one receiving window, CloseConn is safe. */
  lemma CloseConnSafeWithin(c: Config, l: State)
    requires 1 <= c.sendWindow <= c.recvWindow && Inv(c, l) && !l.flushed
    requires l.sender.writebuf == map[] || l.sender.sendct <= l.sender.seqNo + c.recvWindow
    ensures CloseIsSafe(c, l)
  {
    if l.sender.writebuf == map[] {
      assert l.sender.sendct - 1 !in l.sender.writebuf;
    }
    CloseConnSafeForSenderIff(c, l);
  }

  /** `k` writes, none of which has arrived. */
  lemma {:induction false} WriteMany(c: Config, k: nat) returns (steps: seq<Step>)
    requires Configured(c)
    ensures ValidRun(c, INITIAL, steps) && NoClose(steps)
    ensures var l := Run(c, INITIAL, steps);
            l.sender.sendct == k + 1 && l.received == {} && l.receiver.ack == 1 && !l.flushed
  {
    steps := [];
    if k > 0 {
      steps := WriteMany(c, k - 1);
      var l := Run(c, INITIAL, steps);
      var t := Apply(c, l, Write([]));
      assert Run(c, l, [Write([])]) == Run(c, t, [Write([])][1..]) == t;
      RunAppends(c, INITIAL, steps, [Write([])]);
      steps := steps + [Write([])];
    }
  }

  /** For any windows there is a run in which CloseConn strands a message for good: two messages more than a
      receiving window are written, none arrives, and after CloseConn the last one arrives first. */
  lemma CloseConnStrands(c: Config) returns (steps: seq<Step>)
    requires 1 <= c.sendWindow <= c.recvWindow
    ensures ValidRun(c, INITIAL, steps) && !NothingPassedOver(Run(c, INITIAL, steps))
    ensures |Run(c, INITIAL, steps).written| == c.recvWindow + 2
  {
    var fill := WriteMany(c, c.recvWindow + 2);
    var l := Run(c, INITIAL, fill);
    ReachableInv(c, fill);
    LastQueuedPassesOver(c, l, 1);
    var last := [RecvData(l.sender.writebuf[l.sender.sendct - 1])];
    var f := Apply(c, l, CloseConn);
    assert ([CloseConn] + last)[1..] == last;
    assert ValidRun(c, l, [CloseConn] + last) && Run(c, l, [CloseConn] + last) == Run(c, f, last);
    RunAppends(c, INITIAL, fill, [CloseConn] + last);
    steps := fill + ([CloseConn] + last);
  }

  /** Where CloseConn is safe, resending then delivers everything. */
  lemma SafeCloseDelivers(c: Config, l: State) returns (steps: seq<Step>)
    requires 1 <= c.sendWindow <= c.recvWindow && Inv(c, l) && !l.flushed && CloseIsSafe(c, l)
    ensures ValidRun(c, Apply(c, l, CloseConn), steps) && Run(c, Apply(c, l, CloseConn), steps).delivered == l.written
  {
    var f := Apply(c, l, CloseConn);
    CloseConnSafeIff(c, l);
    StepKeepsInv(c, l, CloseConn);
    assert ValidRun(c, f, []) && Run(c, f, []) == f;
    steps := CanDeliverAfterClose(c, f);
  }

  ghost function Missing(l: State): set<int> {
    set n | 1 <= n <= |l.written| && n !in l.received
  }

  /** After a CloseConn that is safe, resending still delivers everything that was written. */
  lemma {:induction false} CanDeliverAfterClose(c: Config, l: State) returns (steps: seq<Step>)
    requires Configured(c) && Inv(c, l) && l.flushed && NothingPassedOver(l)
    requires forall n :: 1 <= n < l.sender.sendct - c.recvWindow ==> n in l.received
    ensures ValidRun(c, l, steps) && Run(c, l, steps).delivered == l.written
    decreases Missing(l)
  {
    if Missing(l) == {} {
      forall n | 1 <= n <= |l.written|
        ensures n in l.received
      {
        assert n !in Missing(l);
      }
      steps := CanRead(c, l);
    } else {
      var n := SomeMember(Missing(l));
      var first, t := ResendFlushed(c, l, n);
      RunKeepsInv(c, l, first);
      assert Missing(t) < Missing(l) by {
        assert n !in Missing(t);
      }
      var rest := CanDeliverAfterClose(c, t);
      RunAppends(c, l, first, rest);
      steps := first + rest;
    }
  }

  lemma ResendFlushed(c: Config, l: State, n: int) returns (steps: seq<Step>, t: State)
    requires Configured(c) && Inv(c, l) && l.flushed && 1 <= n <= |l.written| && n !in l.received && n >= l.receiver.ack
    ensures ValidRun(c, l, steps) && t == Run(c, l, steps)
    ensures t.received == l.received + {n} && t.written == l.written && t.flushed && t.sender == l.sender
            && t.net >= l.net
    ensures t.receiver.ack == l.receiver.ack || t.receiver.ack == n - c.recvWindow + 1
    ensures MsgAck(c.id, n) in t.net
  {
    var m := l.sender.databuf[n];
    assert m in Contents(l.sender.databuf);
    steps := [SenderEpoch, RecvData(m)];
    TwoSteps(c, l, SenderEpoch, RecvData(m));
    t := Run(c, l, steps);
  }

  lemma StepLeavesUnacknowledged(c: Config, l: State, step: Step, n: int)
    requires Configured(c) && Inv(c, l) && l.flushed && Enabled(l, step)
    requires n in l.sender.databuf && n < l.receiver.ack && MsgAck(c.id, n) !in l.net
    ensures var t := Apply(c, l, step);
            n in t.sender.databuf && n < t.receiver.ack && MsgAck(c.id, n) !in t.net && t.flushed
  {
    hide AfterAck, AfterWrite, Prefix;
  }

  /** A number the receiver's window has left is acknowledged only by what is in transit. */
  lemma {:induction false} StaysUnacknowledged(c: Config, l: State, steps: seq<Step>, n: int)
    requires Configured(c) && Inv(c, l) && l.flushed && ValidRun(c, l, steps)
    requires n in l.sender.databuf && n < l.receiver.ack && MsgAck(c.id, n) !in l.net
    ensures n in Run(c, l, steps).sender.databuf
    decreases |steps|
  {
    hide Inv, Apply;
    if steps != [] {
      StepKeepsInv(c, l, steps[0]);
      StepLeavesUnacknowledged(c, l, steps[0], n);
      StaysUnacknowledged(c, Apply(c, l, steps[0]), steps[1..], n);
    }
  }

  /** After CloseConn a pending number can still be acknowledged exactly when the receiver's window has not
      left it or an acknowledgement of it is in transit. */
  lemma AcknowledgedAfterCloseIff(c: Config, l: State, n: int)
    requires Configured(c) && Inv(c, l) && l.flushed && n in l.sender.databuf
    ensures (exists steps :: ValidRun(c, l, steps) && n !in Run(c, l, steps).sender.databuf)
            <==> n >= l.receiver.ack || MsgAck(c.id, n) in l.net
  {
    hide Inv;
    if n < l.receiver.ack && MsgAck(c.id, n) !in l.net {
      forall steps | ValidRun(c, l, steps)
        ensures n in Run(c, l, steps).sender.databuf
      {
        StaysUnacknowledged(c, l, steps, n);
      }
    } else {
      var steps := AckArrives(c, l, n);
    }
  }

  lemma AckArrives(c: Config, l: State, n: int) returns (steps: seq<Step>)
    requires Configured(c) && Inv(c, l) && l.flushed && n in l.sender.databuf
    requires n >= l.receiver.ack || MsgAck(c.id, n) in l.net
    ensures ValidRun(c, l, steps) && n !in Run(c, l, steps).sender.databuf
  {
    hide Inv;
    var first, t := AckOnTheWay(c, l, n);
    var a := RecvAck(MsgAck(c.id, n));
    var u := Apply(c, t, a);
    assert Run(c, t, [a]) == Run(c, u, [a][1..]) == u;
    RunAppends(c, l, first, [a]);
    steps := first + [a];
  }

  lemma AckOnTheWay(c: Config, l: State, n: int) returns (steps: seq<Step>, t: State)
    requires Configured(c) && Inv(c, l) && l.flushed && n in l.sender.databuf
    requires n >= l.receiver.ack || MsgAck(c.id, n) in l.net
    ensures ValidRun(c, l, steps) && t == Run(c, l, steps) && t.flushed && MsgAck(c.id, n) in t.net
  {
    steps, t := [], l;
    if MsgAck(c.id, n) !in l.net {
      if n in l.received {
        assert l.receiver.ackbuf[n] in Contents(l.receiver.ackbuf);
        steps, t := [ReceiverEpoch], Apply(c, l, ReceiverEpoch);
        assert Run(c, l, steps) == Run(c, t, steps[1..]) == t;
      } else {
        steps, t := ResendFlushed(c, l, n);
      }
    }
  }

  lemma Further(c: Config, l: State, m: State, step: Step) returns (t: State)
    requires Configured(c) && Reaches(c, l, m) && Inv(c, m) && Enabled(m, step)
    ensures t == Apply(c, m, step) && Reaches(c, l, t) && Inv(c, t)
  {
    hide Inv, Apply, Reaches, Enabled;
    t := Apply(c, m, step);
    StepKeepsInv(c, m, step);
    ReachesStep(c, m, step);
    ReachesFurther(c, l, m, t);
  }

  lemma HeldData(c: Config, l: State, n: int)
    requires Inv(c, l) && n in l.sender.databuf
    ensures l.sender.databuf[n].MsgData? && l.sender.databuf[n].seqNum == n && l.sender.sendct == |l.written| + 1
  {
  }

  lemma NotStored(c: Config, l: State, n: int)
    requires Inv(c, l) && l.flushed && 1 <= n <= |l.written| && n !in l.received
    ensures n in l.sender.databuf && l.sender.databuf[n].MsgData? && l.sender.databuf[n].seqNum == n
  {
  }

  lemma NoAcks(c: Config, l: State)
    requires Inv(c, l)
    ensures forall m :: m in Contents(l.sender.databuf) || m in Contents(l.sender.writebuf) ==> m.MsgData?
  {
  }

  /** One message more than a receiving window is written, and nothing has arrived. */
  lemma OneTooMany(c: Config) returns (l: State)
    requires 1 <= c.sendWindow <= c.recvWindow
    ensures Reaches(c, INITIAL, l) && Inv(c, l) && !l.flushed && l.received == {} && l.receiver.ack == 1
    ensures |l.written| == c.recvWindow + 1 && 1 in l.sender.databuf && MsgAck(c.id, 1) !in l.net
  {
    var fill := WriteMany(c, c.recvWindow + 1);
    l := Run(c, INITIAL, fill);
    ReachableInv(c, fill);
    assert 1 !in l.acked && 1 !in l.sender.writebuf;
  }

  /** The first of them arrives, and its acknowledgement is lost. */
  lemma FirstUnanswered(c: Config) returns (l: State)
    requires 1 <= c.sendWindow <= c.recvWindow
    ensures Reaches(c, INITIAL, l) && Inv(c, l) && !l.flushed && l.received == {1} && l.receiver.ack == 1
    ensures |l.written| == c.recvWindow + 1 && 1 in l.sender.databuf && MsgAck(c.id, 1) !in l.net
  {
    hide Inv, Reaches;
    var l0 := OneTooMany(c);
    var first := l0.sender.databuf[1];
    assert first in Contents(l0.sender.databuf);
    HeldData(c, l0, 1);
    NoAcks(c, l0);
    var l1 := Further(c, INITIAL, l0, SenderEpoch);
    var l2 := Further(c, INITIAL, l1, RecvData(first));
    l := Further(c, INITIAL, l2, Lose(MsgAck(c.id, 1)));
  }

  /** After CloseConn the last one arrives, and the receiver forgets that it owes an acknowledgement. */
  lemma LastPasses(c: Config, f: State) returns (l: State)
    requires Configured(c) && Inv(c, f) && f.flushed && f.received == {1} && f.receiver.ack == 1
    requires |f.written| == c.recvWindow + 1 && 1 in f.sender.databuf && MsgAck(c.id, 1) !in f.net
    ensures Reaches(c, f, l) && Inv(c, l) && l.flushed && 1 in l.received
    ensures 1 in l.sender.databuf && 1 < l.receiver.ack && MsgAck(c.id, 1) !in l.net
  {
    hide Inv, Reaches;
    var k := c.recvWindow + 1;
    NotStored(c, f, k);
    var last := f.sender.databuf[k];
    assert last in Contents(f.sender.databuf);
    NoAcks(c, f);
    ReachesSelf(c, f);
    var m := Further(c, f, f, SenderEpoch);
    l := Further(c, f, m, RecvData(last));
  }

  /** For any windows there is a run in which CloseConn is safe, and the first message, which has arrived, is
      never acknowledged: its acknowledgement is lost, and the last message, sent past the window by
      CloseConn, makes the receiver forget it. */
  lemma AcknowledgementLost(c: Config) returns (before: State, l: State)
    requires 1 <= c.sendWindow <= c.recvWindow
    ensures Reaches(c, INITIAL, before) && !before.flushed && CloseIsSafe(c, before)
            && Reaches(c, Apply(c, before, CloseConn), l)
    ensures 1 in l.received && forall steps :: ValidRun(c, l, steps) ==> 1 in Run(c, l, steps).sender.databuf
  {
    hide Inv, Reaches, CloseIsSafe;
    before := FirstUnanswered(c);
    HeldData(c, before, 1);
    CloseConnSafeIff(c, before);
    StepKeepsInv(c, before, CloseConn);
    NoAcks(c, before);
    l := LastPasses(c, Apply(c, before, CloseConn));
    forall steps | ValidRun(c, l, steps)
      ensures 1 in Run(c, l, steps).sender.databuf
    {
      StaysUnacknowledged(c, l, steps, 1);
    }
  }

  /** `k` writes that fit in the window, with the last message still in transit. */
  lemma {:induction false} FillWindow(c: Config, k: nat) returns (steps: seq<Step>)
    requires Configured(c) && k <= c.sendWindow
    ensures ValidRun(c, INITIAL, steps) && NoClose(steps)
    ensures var l := Run(c, INITIAL, steps);
            && l.sender.seqNo == 1 && l.sender.sendct == k + 1 && l.received == {} && l.receiver.ack == 1
            && (k > 0 ==> MsgData(c.id, k, []) in l.net)
            && !l.flushed
  {
    steps := [];
    if k > 0 {
      steps := FillWindow(c, k - 1);
      var l := Run(c, INITIAL, steps);
      var t := Apply(c, l, Write([]));
      assert Run(c, l, [Write([])]) == Run(c, t, [Write([])][1..]) == t;
      RunAppends(c, INITIAL, steps, [Write([])]);
      steps := steps + [Write([])];
    }
  }

  /** A receiver with the smaller window passes over the first message when the last of a full window arrives first. */
  lemma SmallWindowPassesOver(c: Config) returns (steps: seq<Step>)
    requires 1 <= c.recvWindow < c.sendWindow
    ensures ValidRun(c, INITIAL, steps) && NoClose(steps) && !NothingPassedOver(Run(c, INITIAL, steps))
  {
    var m := MsgData(c.id, c.sendWindow, []);
    var fill := FillWindow(c, c.sendWindow);
    var l := Run(c, INITIAL, fill);
    var t := Apply(c, l, RecvData(m));
    assert Run(c, l, [RecvData(m)]) == Run(c, t, [RecvData(m)][1..]) == t;
    RunAppends(c, INITIAL, fill, [RecvData(m)]);
    assert 1 < t.receiver.ack && 1 !in t.received;
    steps := fill + [RecvData(m)];
  }

  /** Without CloseConn nothing is ever passed over exactly when the receiver's window is not the smaller. */
  lemma WindowsMustFit(c: Config)
    requires Configured(c)
    ensures (forall steps :: ValidRun(c, INITIAL, steps) && NoClose(steps) ==>
              NothingPassedOver(Run(c, INITIAL, steps)))
            <==> c.sendWindow <= c.recvWindow
  {
    hide Inv, Apply, Run, ValidRun, NoClose, NothingPassedOver;
    if c.sendWindow <= c.recvWindow {
      forall steps | ValidRun(c, INITIAL, steps) && NoClose(steps)
        ensures NothingPassedOver(Run(c, INITIAL, steps))
      {
        ReachableInv(c, steps);
        InitialInv(c);
        RunGrows(c, INITIAL, steps);
        WindowPassesNothingOver(c, Run(c, INITIAL, steps));
      }
    } else {
      var steps := SmallWindowPassesOver(c);
    }
  }

  lemma InitialInv(c: Config)
    requires Configured(c)
    ensures Inv(c, INITIAL)
  {
  }
}
