// A server with any number of clients, and one of these clients, with their handlers, over a network that
// loses, duplicates and reorders: each direction of their connection is a run of the transition system.

module Together {
  import opened Link
  import opened Loss
  import opened LspClient
  import opened LspServer
  import opened Maps
  import opened Messages
  import opened Progress
  import opened Seats
  import opened Window

  // ---------------------------------------------------------------- steps of one direction

  lemma WriteStep(c: Config, l: State, p: Payload)
    requires Configured(c) && Inv(c, l) && !l.flushed
    ensures var t, s := Apply(c, l, Write(p)), l.sender;
            && Inv(c, t) && Reaches(c, l, t) && t.receiver == l.receiver && !t.flushed
            && t.sender == AfterWrite(c.sendWindow, c.id, s, p)
            && t.net == l.net + (if s.sendct < s.seqNo + c.sendWindow then {MsgData(c.id, s.sendct, p)} else {})
            && t.written == l.written + [p] && t.delivered == l.delivered
  {
    hide Inv, AfterWrite;
    StepKeepsInv(c, l, Write(p));
    ReachesStep(c, l, Write(p));
  }

  lemma DataStep(c: Config, l: State, m: Message)
    requires Configured(c) && Inv(c, l) && m.MsgData? && m in l.net && m.seqNum >= l.receiver.ack
    ensures var t := Apply(c, l, RecvData(m));
            && Inv(c, t) && Reaches(c, l, t) && t.sender == l.sender && t.flushed == l.flushed
            && t.receiver == AfterData(c.recvWindow, c.id, l.receiver, m) && t.net == l.net + {MsgAck(c.id, m.seqNum)}
            && t.written == l.written && t.delivered == l.delivered
  {
    hide Inv, AfterData;
    StepKeepsInv(c, l, RecvData(m));
    ReachesStep(c, l, RecvData(m));
  }

  lemma AckStep(c: Config, l: State, m: Message)
    requires Configured(c) && Inv(c, l) && m.MsgAck? && m in l.net
    ensures var t := Apply(c, l, RecvAck(m));
            && Inv(c, t) && Reaches(c, l, t) && t.receiver == l.receiver && t.flushed == l.flushed
            && t.written == l.written && t.delivered == l.delivered
            && (if l.flushed then t.sender.databuf == l.sender.databuf - {m.seqNum} && t.net == l.net
                else
                  && t.sender == AfterAck(c.sendWindow, l.sender, m.seqNum)
                  && t.net == l.net + AckSends(c.sendWindow, l.sender, m.seqNum))
  {
    hide Inv, AfterAck, AckSends, NewlyAcked;
    StepKeepsInv(c, l, RecvAck(m));
    ReachesStep(c, l, RecvAck(m));
  }

  lemma ReadStep(c: Config, l: State)
    requires Configured(c) && Inv(c, l)
    ensures var t, r := Apply(c, l, ReadNext), l.receiver;
            && Inv(c, t) && Reaches(c, l, t) && t.sender == l.sender && t.flushed == l.flushed && t.net == l.net
            && t.written == l.written && t.receiver == AfterRead(r)
            && (r.readct in r.readbuf ==>
                 r.readbuf[r.readct].MsgData? && t.delivered == l.delivered + [r.readbuf[r.readct].payload])
            && (r.readct !in r.readbuf ==> t.delivered == l.delivered)
  {
    StepKeepsInv(c, l, ReadNext);
    ReachesStep(c, l, ReadNext);
  }

  lemma SenderEpochStep(c: Config, l: State)
    requires Configured(c) && Inv(c, l)
    ensures var t := Apply(c, l, SenderEpoch);
            Inv(c, t) && Reaches(c, l, t) && t == l.(net := l.net + Contents(l.sender.databuf))
  {
    hide Inv, Contents;
    StepKeepsInv(c, l, SenderEpoch);
    ReachesStep(c, l, SenderEpoch);
  }

  lemma ReceiverEpochStep(c: Config, l: State)
    requires Configured(c) && Inv(c, l)
    ensures var t := Apply(c, l, ReceiverEpoch);
            Inv(c, t) && Reaches(c, l, t) && t == l.(net := l.net + (Contents(l.receiver.ackbuf) + {MsgAck(c.id, 0)}))
  {
    hide Inv, Contents;
    StepKeepsInv(c, l, ReceiverEpoch);
    ReachesStep(c, l, ReceiverEpoch);
  }

  lemma CloseStep(c: Config, l: State)
    requires Configured(c) && Inv(c, l) && !l.flushed
    ensures var t := Apply(c, l, CloseConn);
            && Inv(c, t) && Reaches(c, l, t) && t.receiver == l.receiver && t.flushed
            && t.sender.databuf == l.sender.databuf + l.sender.writebuf && t.net == l.net + Contents(l.sender.writebuf)
            && t.written == l.written && t.delivered == l.delivered
  {
    hide Inv, Contents;
    StepKeepsInv(c, l, CloseConn);
    ReachesStep(c, l, CloseConn);
  }

  /** What is held and in transit has the kind, the id and the numbers it should. */
  lemma Kinds(c: Config, l: State)
    requires Inv(c, l)
    ensures forall m :: m in Contents(l.sender.databuf) || m in Contents(l.sender.writebuf) ==> m.MsgData?
    ensures forall m :: m in Contents(l.receiver.ackbuf) ==> m.MsgAck?
    ensures forall m :: m in l.net && (m.MsgData? || m.MsgAck?) ==> m.connId == c.id
    ensures 0 !in l.sender.databuf && (!l.flushed ==> l.sender.seqNo >= 1)
  {
  }

  lemma AckSendsData(c: Config, l: State, n: int)
    requires Inv(c, l)
    ensures forall m :: m in AckSends(c.sendWindow, l.sender, n) ==> m.MsgData?
  {
  }

  // ---------------------------------------------------------------- the two ends

  /** Everything in transit one way is data of one direction or acknowledges the other; an acknowledgement
      numbered zero only keeps the connection alive. */
  ghost predicate Known(wire: set<Message>, data: set<Message>, acks: set<Message>) {
    forall m :: m in wire ==> (m.MsgData? && m in data) || (m.MsgAck? && (m in acks || m.seqNum == 0))
  }

  lemma InTransit(m: Message, wire: set<Message>, data: set<Message>, acks: set<Message>)
    requires m in wire && Known(wire, data, acks)
    ensures (m.MsgData? && m in data) || (m.MsgAck? && (m in acks || m.seqNum == 0))
  {
  }

  lemma KnownPart(out: set<Message>, all: set<Message>, data: set<Message>, acks: set<Message>)
    requires out <= all && Known(all, data, acks)
    ensures Known(out, data, acks)
  {
  }

  lemma NothingKnown(data: set<Message>, acks: set<Message>)
    ensures Known({}, data, acks)
  {
  }

  lemma KnownGrows(wire: set<Message>, data: set<Message>, acks: set<Message>, out: set<Message>, data1: set<Message>,
                   acks1: set<Message>)
    requires Known(wire, data, acks) && data <= data1 && acks <= acks1 && Known(out, data1, acks1)
    ensures Known(wire + out, data1, acks1) && Known(wire, data1, acks1)
  {
  }

  /** What an end repeats at an epoch: the data of direction `l` it has in flight and the acknowledgements of
      direction `k` it holds. */
  lemma RepeatsKnown(c: Config, l: State, b: Config, k: State, data: set<Message>, acks: set<Message>)
    requires Inv(c, l) && Inv(b, k) && Contents(l.sender.databuf) <= data && Contents(k.receiver.ackbuf) <= acks
    ensures Known({MsgAck(c.id, 0)} + Contents(k.receiver.ackbuf) + Contents(l.sender.databuf), data, acks)
    ensures Known({MsgAck(1, 0)} + Contents(l.sender.databuf), data, acks)
    ensures Known(Contents(k.receiver.ackbuf) + Contents(l.sender.databuf), data, acks)
    ensures Known(Contents(l.sender.databuf), data, acks) && Known({}, data, acks)
  {
    hide Inv, Contents;
    Kinds(c, l);
    Kinds(b, k);
  }

  lemma OneKnown(m: Message, data: set<Message>, acks: set<Message>)
    requires (m.MsgData? && m in data) || (m.MsgAck? && (m in acks || m.seqNum == 0))
    ensures Known({m}, data, acks)
  {
  }

  lemma SendsKnown(c: Config, l: State, n: int, data: set<Message>, acks: set<Message>)
    requires Inv(c, l) && AckSends(c.sendWindow, l.sender, n) <= data
    ensures Known(AckSends(c.sendWindow, l.sender, n), data, acks) && Known({}, data, acks)
  {
    hide Inv, AckSends;
    AckSendsData(c, l, n);
  }

  /** The server's seat holds the receiver of one direction and the sender of the other, or the record of
      that sender; nothing once it is gone. */
  ghost predicate Fits(seat: Seat, up: State, down: State) {
    match seat
    case Live(snd, rcv, _, _, _, _) => up.receiver == rcv && !down.flushed && down.sender == snd
    case Recorded(left) => down.flushed && down.sender.databuf == left
    case Gone => true
  }

  lemma DataFits(c: Config, up: State, down: State, seat: Seat, m: Message)
    requires Configured(c) && Inv(c, up) && m.MsgData? && m in up.net && Fits(seat, up, down)
    ensures var u := if TakesData(seat, m.seqNum) then Apply(c, up, RecvData(m)) else up;
            && Inv(c, u) && Reaches(c, up, u) && u.sender == up.sender && u.flushed == up.flushed && up.net <= u.net
            && u.written == up.written && u.delivered == up.delivered
            && Fits(AfterDataAt(c.recvWindow, c.id, seat, m), u, down)
            && (TakesData(seat, m.seqNum) ==> MsgAck(c.id, m.seqNum) in u.net)
  {
    hide Inv, Apply, AfterData, ServerStep, Reaches;
    ReachesSelf(c, up);
    if TakesData(seat, m.seqNum) {
      DataStep(c, up, m);
    }
  }

  lemma AckFits(c: Config, up: State, down: State, seat: Seat, m: Message)
    requires Configured(c) && Inv(c, down) && m.MsgAck? && (m in down.net || m.seqNum == 0) && Fits(seat, up, down)
    ensures var takes := TakesAck(c.sendWindow, seat, m.seqNum);
            var d := if m in down.net && (takes || seat.Recorded?) then Apply(c, down, RecvAck(m)) else down;
            && Inv(c, d) && Reaches(c, down, d) && d.receiver == down.receiver && down.net <= d.net
            && d.written == down.written && d.delivered == down.delivered
            && Fits(AfterAckAt(c.sendWindow, seat, m.seqNum), up, d)
            && (takes ==>
                 AckSends(c.sendWindow, seat.snd, m.seqNum) <= d.net
                   && Known(AckSends(c.sendWindow, seat.snd, m.seqNum), d.net, up.net))
  {
    hide Inv, Apply, AfterAck, AckSends, ServerStep, Reaches;
    ReachesSelf(c, down);
    Kinds(c, down);
    if m in down.net {
      AckStep(c, down, m);
      AckSendsData(c, down, m.seqNum);
    } else if seat.Recorded? {
      assert seat.left - {0} == seat.left;
    }
  }

  lemma OwnData(c: Config, l: State, m: Message, wire: set<Message>, acks: set<Message>)
    requires Inv(c, l) && m in wire && m.MsgData? && Known(wire, l.net, acks)
    ensures m in l.net && m.connId == c.id
  {
  }

  /** The direction the server receives, after data: its step when the connection takes it. */
  function Stored(c: Config, up: State, seat: Seat, m: Message): State
    requires m.MsgData?
  {
    if TakesData(seat, m.seqNum) then Apply(c, up, RecvData(m)) else up
  }

  /** The direction it sends, after an acknowledgement: its step when the window takes it or a record is there. */
  function Acked(c: Config, down: State, seat: Seat, m: Message): State
    requires m.MsgAck?
  {
    if m in down.net && (TakesAck(c.sendWindow, seat, m.seqNum) || seat.Recorded?) then Apply(c, down, RecvAck(m))
        else down
  }

  /** What the network carries after the server has heard data and sent `out`. */
  lemma DataWires(c: Config, b: Config, up: State, down: State, seat: Seat, m: Message, toServer: set<Message>,
                  toClient: set<Message>,
                  out: set<Message>)
    requires Configured(c) && Inv(c, up) && Known(toServer, up.net, down.net) && Known(toClient, down.net, up.net)
    requires m.MsgData? && m in toServer && Fits(seat, up, down)
             && out == if TakesData(seat, m.seqNum) then {MsgAck(c.id, m.seqNum)} else {}
    ensures (Over(seat) ==> Over(AfterDataAt(c.recvWindow, c.id, seat, m)))
            && (TakesData(seat, m.seqNum) ==> seat.Live?)
    ensures var u := Stored(c, up, seat, m);
            && Inv(c, u) && Reaches(c, up, u) && u.sender == up.sender && u.flushed == up.flushed
            && u.written == up.written && u.delivered == up.delivered && Reaches(b, down, down)
            && Fits(AfterDataAt(c.recvWindow, c.id, seat, m), u, down)
            && Known(toServer, u.net, down.net) && Known(toClient + out, down.net, u.net)
  {
    hide Inv, Apply, Fits, AfterDataAt, TakesData, Known, Reaches;
    OwnData(c, up, m, toServer, down.net);
    DataFits(c, up, down, seat, m);
    DataDone(c.recvWindow, c.id, seat, m);
    ReachesSelf(b, down);
    var u := if TakesData(seat, m.seqNum) then Apply(c, up, RecvData(m)) else up;
    NothingKnown(u.net, down.net);
    NothingKnown(down.net, u.net);
    if TakesData(seat, m.seqNum) {
      OneKnown(MsgAck(c.id, m.seqNum), down.net, u.net);
    }
    KnownGrows(toServer, up.net, down.net, {}, u.net, down.net);
    KnownGrows(toClient, down.net, up.net, out, down.net, u.net);
    assert toServer + {} == toServer;
  }

  /** After a write of its application. */
  lemma WriteWires(c: Config, up: State, down: State, seat: Seat, now: Seat, p: Payload, answer: int,
                   toServer: set<Message>,
                   toClient: set<Message>, out: seq<Message>)
    requires Configured(c) && Inv(c, down) && Known(toServer, up.net, down.net) && Known(toClient, down.net, up.net)
    requires Fits(seat, up, down) && Writes(c.sendWindow, c.id, seat, now, p, answer, out)
    ensures (answer == 1 <==> seat.Live? && !seat.lost) && (Over(seat) ==> Over(now))
    ensures var d := if answer == 1 then Apply(c, down, Write(p)) else down;
            && Inv(c, d) && Reaches(c, down, d) && d.receiver == down.receiver && d.delivered == down.delivered
            && d.written == down.written + (if answer == 1 then [p] else [])
            && Fits(now, up, d) && Known(toServer, up.net, d.net) && Known(toClient + Elems(out), d.net, up.net)
  {
    hide Inv, Apply, AfterWrite, Known, Reaches, Elems;
    ReachesSelf(c, down);
    NothingSent();
    if answer == 1 {
      WriteStep(c, down, p);
      OneSent(MsgData(c.id, seat.snd.sendct, p));
    }
    var d := if answer == 1 then Apply(c, down, Write(p)) else down;
    NothingKnown(up.net, d.net);
    NothingKnown(d.net, up.net);
    if out != [] {
      OneKnown(MsgData(c.id, seat.snd.sendct, p), d.net, up.net);
    }
    KnownGrows(toServer, up.net, down.net, {}, up.net, d.net);
    KnownGrows(toClient, down.net, up.net, Elems(out), d.net, up.net);
    assert toServer + {} == toServer;
  }

  /** And after it has heard an acknowledgement. */
  lemma AckWires(c: Config, b: Config, up: State, down: State, seat: Seat, m: Message, toServer: set<Message>,
                 toClient: set<Message>,
                 out: set<Message>)
    requires Configured(c) && Inv(c, down) && Known(toServer, up.net, down.net) && Known(toClient, down.net, up.net)
    requires m.MsgAck? && m in toServer && Fits(seat, up, down)
    requires out == Answers(c.sendWindow, c.id, seat, m.seqNum)
    ensures (Over(seat) ==> Over(AfterAckAt(c.sendWindow, seat, m.seqNum)))
            && (Echoes(seat, m.seqNum) ==> MsgAck(c.id, 0) in out)
    ensures var d := Acked(c, down, seat, m);
            && Inv(c, d) && Reaches(c, down, d) && d.receiver == down.receiver && d.written == down.written
            && d.delivered == down.delivered
            && Reaches(b, up, up) && Fits(AfterAckAt(c.sendWindow, seat, m.seqNum), up, d)
            && Known(toServer, up.net, d.net) && Known(toClient + out, d.net, up.net)
  {
    hide Inv, Apply, Fits, AfterAckAt, TakesAck, AckSends, Known, Reaches;
    InTransit(m, toServer, up.net, down.net);
    AckFits(c, up, down, seat, m);
    AckDone(c.sendWindow, seat, m.seqNum);
    EchoAnswers(c.sendWindow, c.id, seat, m.seqNum);
    ReachesSelf(b, up);
    var takes := TakesAck(c.sendWindow, seat, m.seqNum);
    var d := if m in down.net && (takes || seat.Recorded?) then Apply(c, down, RecvAck(m)) else down;
    NothingKnown(up.net, d.net);
    OneKnown(MsgAck(c.id, 0), d.net, up.net);
    KnownPart(out, if takes then AckSends(c.sendWindow, seat.snd, m.seqNum) else {MsgAck(c.id, 0)}, d.net, up.net);
    KnownGrows(toServer, up.net, down.net, {}, up.net, d.net);
    KnownGrows(toClient, down.net, up.net, out, d.net, up.net);
    assert toServer + {} == toServer;
  }

  lemma EpochFits(c: Config, up: State, b: Config, down: State, epochLimit: int, closing: bool, seat: Seat, now: Seat,
                  out: set<Message>)
    requires Configured(c) && Inv(c, up) && Configured(b) && Inv(b, down) && Fits(seat, up, down)
             && Ticks(epochLimit, closing, seat, now, out)
    ensures var heard := seat.Live? && !ServerFinds(ServerStep(seat.counts, Loss.Epoch), epochLimit);
            var u := if heard then Apply(c, up, ReceiverEpoch) else up;
            var d := if heard || now.Recorded? then Apply(b, down, SenderEpoch) else down;
            && Inv(c, u) && Reaches(c, up, u) && u == up.(net := u.net) && up.net <= u.net
            && Inv(b, d) && Reaches(b, down, d) && d == down.(net := d.net) && down.net <= d.net
            && Fits(now, u, d) && Known(out, d.net, u.net)
            && (heard ==> now == seat.(counts := ServerStep(seat.counts, Loss.Epoch)) && out == Repeats(seat))
  {
    hide Inv, Apply, Contents, ServerStep, ServerFinds, Reaches, Known;
    ReachesSelf(c, up);
    ReachesSelf(b, down);
    SenderEpochStep(b, down);
    ReceiverEpochStep(c, up);
    RepeatsKnown(b, down, c, up, Apply(b, down, SenderEpoch).net, Apply(c, up, ReceiverEpoch).net);
    RepeatsKnownAlone(b, down, Apply(b, down, SenderEpoch).net, up.net);
    NothingKnown(down.net, up.net);
  }

  /** What the network carries after an epoch of the client, which may be its last. */
  lemma EpochWires(c: Config, l: State, b: Config, k: State, last: bool, toServer: set<Message>,
                   toClient: set<Message>, out: set<Message>)
    requires Configured(c) && Inv(c, l) && Configured(b) && Inv(b, k) && Known(toServer, l.net, k.net)
             && Known(toClient, k.net, l.net)
    requires out == {MsgAck(c.id, 0)} + if last then {} else Contents(k.receiver.ackbuf) + Contents(l.sender.databuf)
    ensures var u, d := if last then l else Apply(c, l, SenderEpoch), if last then k else Apply(b, k, ReceiverEpoch);
            && Inv(c, u) && Reaches(c, l, u) && u == l.(net := u.net) && Inv(b, d) && Reaches(b, k, d)
            && d == k.(net := d.net)
            && Known(toServer + out, u.net, d.net) && Known(toClient, d.net, u.net)
  {
    hide Inv, Apply, Contents, Reaches, Known;
    if last {
      ReachesSelf(c, l);
      ReachesSelf(b, k);
      OneKnown(MsgAck(c.id, 0), l.net, k.net);
      KnownGrows(toServer, l.net, k.net, out, l.net, k.net);
    } else {
      SenderEpochStep(c, l);
      ReceiverEpochStep(b, k);
      var u, d := Apply(c, l, SenderEpoch), Apply(b, k, ReceiverEpoch);
      RepeatsKnown(c, l, b, k, u.net, d.net);
      assert out == {MsgAck(c.id, 0)} + Contents(k.receiver.ackbuf) + Contents(l.sender.databuf);
      KnownGrows(toServer, l.net, k.net, out, u.net, d.net);
      KnownGrows(toClient, k.net, l.net, {}, d.net, u.net);
      assert toClient + {} == toClient;
    }
  }

  /** Whether an epoch of the server still hears of the client. */
  predicate StillHeard(seat: Seat, epochLimit: int) {
    seat.Live? && !ServerFinds(ServerStep(seat.counts, Loss.Epoch), epochLimit)
  }

  lemma HeardMeans(seat: Seat, epochLimit: int)
    ensures StillHeard(seat, epochLimit) <==>
            seat.Live? && seat.counts.receive + 1 - seat.counts.lastrece + 1 <= epochLimit
  {
  }

  /** The direction the server receives, after an epoch. */
  function Retold(c: Config, up: State, seat: Seat, epochLimit: int): State {
    if StillHeard(seat, epochLimit) then Apply(c, up, ReceiverEpoch) else up
  }

  /** The direction it sends: also for a record that lasts. */
  function Repeated(c: Config, down: State, seat: Seat, now: Seat, epochLimit: int): State {
    if StillHeard(seat, epochLimit) || now.Recorded? then Apply(c, down, SenderEpoch) else down
  }

  /** What the network carries after an epoch of the server. */
  lemma TickWires(c: Config, up: State, b: Config, down: State, epochLimit: int, closing: bool, seat: Seat, now: Seat,
                  toServer: set<Message>, toClient: set<Message>, out: set<Message>)
    requires Configured(c) && Inv(c, up) && Configured(b) && Inv(b, down) && Fits(seat, up, down)
             && Ticks(epochLimit, closing, seat, now, out)
    requires Known(toServer, up.net, down.net) && Known(toClient, down.net, up.net)
    ensures Over(seat) ==> Over(now)
    ensures StillHeard(seat, epochLimit) ==>
              now == seat.(counts := ServerStep(seat.counts, Loss.Epoch)) && out == Repeats(seat)
    ensures var u, d := Retold(c, up, seat, epochLimit), Repeated(b, down, seat, now, epochLimit);
            && Inv(c, u) && Reaches(c, up, u) && u == up.(net := u.net) && Inv(b, d) && Reaches(b, down, d)
            && d == down.(net := d.net)
            && Fits(now, u, d) && Known(toServer, u.net, d.net) && Known(toClient + out, d.net, u.net)
  {
    hide Inv, Apply, Ticks, ServerStep, ServerFinds, Reaches, Known, Fits, Over;
    EpochFits(c, up, b, down, epochLimit, closing, seat, now, out);
    TickedDone(epochLimit, closing, seat, now, out);
    var u, d := Retold(c, up, seat, epochLimit), Repeated(b, down, seat, now, epochLimit);
    NothingKnown(u.net, d.net);
    KnownGrows(toServer, up.net, down.net, {}, u.net, d.net);
    KnownGrows(toClient, down.net, up.net, out, d.net, u.net);
    assert toServer + {} == toServer;
  }

  lemma RepeatsKnownAlone(c: Config, l: State, data: set<Message>, acks: set<Message>)
    requires Inv(c, l) && Contents(l.sender.databuf) <= data
    ensures Known(Contents(l.sender.databuf), data, acks)
  {
    hide Inv, Contents;
    Kinds(c, l);
  }

  /** No event makes a seat that is gone or lost writable again. */
  ghost predicate Over(seat: Seat) {
    !seat.Live? || seat.lost
  }

  lemma DataDone(w: int, id: int, seat: Seat, m: Message)
    requires m.MsgData?
    ensures Over(seat) ==> Over(AfterDataAt(w, id, seat, m))
    ensures TakesData(seat, m.seqNum) ==> seat.Live?
  {
  }

  lemma AckDone(w: int, seat: Seat, n: int)
    ensures Over(seat) ==> Over(AfterAckAt(w, seat, n))
    ensures TakesAck(w, seat, n) ==> seat.Live?
  {
  }

  lemma EchoAnswers(w: int, id: int, seat: Seat, n: int)
    ensures Echoes(seat, n) ==> Answers(w, id, seat, n) == {MsgAck(id, 0)}
  {
  }

  lemma TickedDone(epochLimit: int, closing: bool, seat: Seat, now: Seat, out: set<Message>)
    requires Ticks(epochLimit, closing, seat, now, out)
    ensures Over(seat) ==> Over(now)
  {
  }

  /** The first unacknowledged number, if it is in flight, is at or above what the receiver still takes. */
  lemma HeadMessage(c: Config, l: State)
    requires Inv(c, l) && !l.flushed && 1 <= c.sendWindow <= c.recvWindow
    ensures l.sender.seqNo >= 1 && l.sender.seqNo >= l.receiver.ack
    ensures l.sender.seqNo in l.sender.databuf ==>
              var m := l.sender.databuf[l.sender.seqNo]; m.MsgData? && m.seqNum == l.sender.seqNo && m.connId == c.id
  {
  }

  lemma HeadAck(c: Config, l: State)
    requires Inv(c, l) && !l.flushed && 1 <= c.sendWindow <= c.recvWindow
    requires l.sender.seqNo < l.sender.sendct && l.sender.seqNo !in l.sender.databuf
    ensures l.sender.seqNo in l.receiver.ackbuf && l.receiver.ackbuf[l.sender.seqNo] == MsgAck(c.id, l.sender.seqNo)
  {
    HeadIsLive(c, l);
  }

  lemma AckRaises(c: Config, l: State, m: Message)
    requires Configured(c) && !l.flushed && m == MsgAck(c.id, l.sender.seqNo)
    ensures var t := Apply(c, l, RecvAck(m)); t.sender.seqNo > l.sender.seqNo && t.sender.sendct == l.sender.sendct
  {
  }

  /** A connection the server neither has lost nor only keeps for Close. */
  predicate Open(seat: Seat) {
    seat.Live? && !seat.waited && !seat.lost
  }

  /** A connection the server has not lost; Close may wait for it. */
  predicate Lives(seat: Seat) {
    seat.Live? && !seat.lost
  }

  /** Close waits for it no longer than for the next acknowledgement. */
  predicate Leaves(seat: Seat) {
    seat.Live? && seat.waited && Drained(seat.snd)
  }

  lemma FitsReceiver(seat: Seat, up: State, down: State)
    requires Fits(seat, up, down) && seat.Live?
    ensures up.receiver == seat.rcv
  {
  }

  lemma DataKeepsOpen(w: int, id: int, seat: Seat, m: Message)
    requires Open(seat) && m.MsgData?
    ensures Open(AfterDataAt(w, id, seat, m)) && (m.seqNum >= 1 ==> !AfterDataAt(w, id, seat, m).pending)
            && (m.seqNum >= 1 && m.seqNum >= seat.rcv.ack ==> TakesData(seat, m.seqNum))
  {
  }

  lemma NotPending(s: Server, id: int, n: int)
    requires s.Valid() && SeatOf(s, id).Live? && n in SeatOf(s, id).rcv.ackbuf
    ensures !SeatOf(s, id).pending
  {
    hide Server.Valid, SeatOf;
    if SeatOf(s, id).pending {
      PendingIsEmpty(s, id);
    }
  }

  /** The first unacknowledged number, acknowledged, leaves a connection open, established and heard. */
  lemma AckOpens(w: int, epochLimit: int, id: int, seat: Seat, n: int)
    requires Lives(seat) && !Leaves(seat) && n == seat.snd.seqNo >= 1 && w >= 1 && epochLimit >= 2
    ensures var now := AfterAckAt(w, seat, n);
            && TakesAck(w, seat, n) && Lives(now) && now.waited == seat.waited && !now.pending && now.snd.seqNo > n
            && now.snd.sendct == seat.snd.sendct
            && !ServerFinds(ServerStep(now.counts, Loss.Epoch), epochLimit)
  {
  }

  /** A keep-alive changes nothing but the silence it ends. */
  lemma HeardInTime(w: int, epochLimit: int, seat: Seat)
    requires Lives(seat) && !Leaves(seat) && !seat.pending && epochLimit >= 2
    ensures var now := AfterAckAt(w, seat, 0);
            && now == seat.(counts := now.counts)
            && !ServerFinds(ServerStep(now.counts, Loss.Epoch), epochLimit)
  {
  }

  /** An epoch of an established client. */
  method EpochOf(c: Client) returns (out: set<Message>)
    requires c.Valid() && !c.exited && c.conId != 0
    modifies c, c.conn
    ensures c.Valid() && c.conId == old(c.conId) && c.closepend == old(c.closepend)
    ensures c.Sending() == old(c.Sending()) && c.Receiving() == old(c.Receiving())
    ensures out == {MsgAck(c.conId, 0)} + if c.exited then {} else Contents(c.conn.ackbuf) + Contents(c.conn.databuf)
    ensures c.conn.Counts() == ClientStep(old(c.conn.Counts()), Loss.Epoch)
    ensures !ClientFinds(c.conn.Counts(), c.conn.epochLimit) ==>
              c.exited == old(c.exited) && c.conn.estab == old(c.conn.estab) && c.conn.losted == old(c.conn.losted)
  {
    hide Client.Valid, Elems, Contents;
    var sent := c.HandleEpoch();
    out := Elems(sent);
  }

  /** An acknowledgement the client's window takes. */
  method AckOf(c: Client, m: Message) returns (out: set<Message>)
    requires c.Valid() && !c.exited && c.TakesAck(m)
    modifies c, c.conn
    ensures c.Valid() && c.conId == old(c.conId) && c.closepend == old(c.closepend) && c.exited == old(c.exited)
    ensures c.conn.losted == old(c.conn.losted) && c.conn.estab == old(c.conn.estab)
    ensures c.Sending() == AfterAck(c.conn.windowSize, old(c.Sending()), m.seqNum)
            && c.Receiving() == old(c.Receiving())
    ensures out == AckSends(c.conn.windowSize, old(c.Sending()), m.seqNum)
    ensures c.conn.Counts() == ClientStep(old(c.conn.Counts()), Heard)
  {
    hide Client.Valid, AfterAck, AckSends, Elems;
    SentLeavesQueue(c.conn.windowSize, c.Sending(), m.seqNum);
    var sent := c.HandleReceive(m);
    out := Elems(sent);
  }

  /** One read request of the client: the payload it hands over, if there is one. */
  method PayloadRead(c: Client) returns (got: seq<Payload>)
    requires c.Valid() && !c.exited && c.creads > 0
    requires c.readct in c.conn.readbuf ==> c.conn.readbuf[c.readct].MsgData?
    modifies c`creads, c`readct, c`replyread, c.conn`readbuf
    ensures c.Valid() && c.Sending() == old(c.Sending()) && c.Receiving() == AfterRead(old(c.Receiving()))
    ensures got == if old(c.readct in c.conn.readbuf) then [old(c.conn.readbuf[c.readct].payload)] else []
  {
    hide Client.Valid, AfterRead;
    var n := |c.replyread|;
    c.HandleRead();
    got := if |c.replyread| > n then [c.replyread[n].msg.payload] else [];
  }

  /** How many epochs and deliveries have happened. */
  datatype Spent = Spent(epochs: nat, deliveries: nat)

  function Plus(s: Spent, epochs: nat, deliveries: nat): Spent {
    Spent(s.epochs + epochs, s.deliveries + deliveries)
  }

  /** At most so many between the two. */
  predicate Within(before: Spent, now: Spent, epochs: nat, deliveries: nat) {
    now.epochs <= before.epochs + epochs && now.deliveries <= before.deliveries + deliveries
  }

  class Pair {
    const id: int
    const client: Client
    const server: Server

    // Whether the server has panicked, what is in transit, and what the two applications wrote and were handed.
    var crashed: bool
    var toServer: set<Message>
    var toClient: set<Message>
    var clientWrote: seq<Payload>
    var serverWrote: seq<Payload>
    var clientGot: seq<Payload>
    var serverGot: seq<Payload>

    /** The two directions, and the epochs and deliveries so far. */
    ghost var up: State
    ghost var down: State
    ghost var spent: Spent

    function Up(): Config {
      Config(id, client.conn.windowSize, server.windowSize)
    }

    function Down(): Config {
      Config(id, server.windowSize, client.conn.windowSize)
    }

    ghost function Seat(): Seat
      requires server.Valid()
      reads server, server.conn.Values, server.banclose.Values
    {
      SeatOf(server, id)
    }

    ghost predicate Wires()
      reads this`toServer, this`toClient, this`up, this`down
    {
      Known(toServer, up.net, down.net) && Known(toClient, down.net, up.net)
    }

    /** What the applications see is what the transition system delivers. */
    ghost predicate Seen()
      reads this`up, this`down, this`clientWrote, this`serverWrote, this`clientGot, this`serverGot
    {
      && up.written == clientWrote && up.delivered == serverGot
      && down.written == serverWrote && down.delivered == clientGot
    }

    ghost predicate ClientFits()
      reads this`up, this`down, client, client.conn
    {
      client.conId == id && !up.flushed && up.sender == client.Sending() && down.receiver == client.Receiving()
    }

    ghost predicate Valid()
      reads this, client, client.conn, server, server.conn.Values, server.banclose.Values
    {
      && client.Valid() && server.Valid() && client.conn !in server.conn.Values && 1 <= id < server.connCt
      && Configured(Up()) && Inv(Up(), up) && Inv(Down(), down)
      && ClientFits() && Fits(Seat(), up, down) && Wires() && Seen()
    }

    /** Whether the client still writes: not once Close is handled or the connection given up. */
    predicate ClientDone()
      reads client
    {
      client.exited || client.closepend
    }

    /** Whether the server still writes to this client: not once it has panicked, the connection is gone or
        lost, or Close was called. */
    ghost predicate ServerDone()
      requires server.Valid()
      reads this`crashed, server, server.conn.Values, server.banclose.Values
    {
      crashed || server.readclose || Over(Seat())
    }

    /** Each direction has made a run of the transition system, and nothing that is over comes back. */
    twostate predicate Forward()
      requires old(Valid()) && Valid()
      reads this, client, client.conn, server, server.conn.Values, server.banclose.Values
    {
      && Reaches(Up(), old(up), up) && Reaches(Down(), old(down), down)
      && (old(ClientDone()) ==> ClientDone()) && (old(ServerDone()) ==> ServerDone())
      && fresh(server.conn.Values - old(server.conn.Values))
      && fresh(server.banclose.Values - old(server.banclose.Values))
    }

    constructor (id: int, client: Client, server: Server)
      requires client.Valid() && client.conId == id && client.conn.windowSize >= 1
      requires client.Sending() == Sender(1, 1, map[], map[]) && client.Receiving() == Receiver(1, 1, map[], map[])
      requires server.Valid() && 1 <= id < server.connCt && server.windowSize >= 1 && client.conn !in server.conn.Values
      requires var seat := SeatOf(server, id);
               seat.Live? && seat.snd == Sender(1, 1, map[], map[]) && seat.rcv == Receiver(1, 1, map[], map[])
      ensures Valid() && this.client == client && this.server == server && clientWrote == [] && serverWrote == []
              && server.Valid()
    {
      hide Client.Valid, Server.Valid, SeatOf;
      this.id, this.client, this.server := id, client, server;
      crashed, toServer, toClient, clientWrote, serverWrote, clientGot, serverGot := false, {}, {}, [], [], [], [];
      up, down, spent := INITIAL, INITIAL, Spent(0, 0);
    }

    /** The network and the two directions after an event. */
    method Note(ghost u: State, ghost d: State, toServer: set<Message>, toClient: set<Message>)
      modifies this`up, this`down, this`toServer, this`toClient
      ensures up == u && down == d && this.toServer == toServer && this.toClient == toClient
    {
      up, down, this.toServer, this.toClient := u, d, toServer, toClient;
    }

    method NoteEpoch(ghost u: State, ghost d: State, toServer: set<Message>, toClient: set<Message>)
      modifies this`up, this`down, this`toServer, this`toClient, this`spent
      ensures up == u && down == d && this.toServer == toServer && this.toClient == toClient
              && spent == Plus(old(spent), 1, 0)
    {
      up, down, this.toServer, this.toClient, spent := u, d, toServer, toClient, Plus(spent, 1, 0);
    }

    method NoteHeard(ghost u: State, ghost d: State, toServer: set<Message>, toClient: set<Message>)
      modifies this`up, this`down, this`toServer, this`toClient, this`spent
      ensures up == u && down == d && this.toServer == toServer && this.toClient == toClient
              && spent == Plus(old(spent), 0, 1)
    {
      up, down, this.toServer, this.toClient, spent := u, d, toServer, toClient, Plus(spent, 0, 1);
    }

    method NoteWrites(ghost u: State, ghost d: State, toServer: set<Message>, toClient: set<Message>,
                      clientWrote: seq<Payload>, serverWrote: seq<Payload>)
      modifies this`up, this`down, this`toServer, this`toClient, this`clientWrote, this`serverWrote
      ensures up == u && down == d && this.toServer == toServer && this.toClient == toClient
      ensures this.clientWrote == clientWrote && this.serverWrote == serverWrote
    {
      up, down, this.toServer, this.toClient := u, d, toServer, toClient;
      this.clientWrote, this.serverWrote := clientWrote, serverWrote;
    }

    method NotePanic(ghost u: State, ghost d: State, toClient: set<Message>, panics: bool)
      modifies this`up, this`down, this`toClient, this`crashed, this`spent
      ensures up == u && down == d && this.toClient == toClient && crashed == panics && spent == Plus(old(spent), 0, 1)
    {
      up, down, this.toClient, crashed, spent := u, d, toClient, panics, Plus(spent, 0, 1);
    }

    method NoteRead(ghost d: State, got: seq<Payload>)
      modifies this`down, this`clientGot
      ensures down == d && clientGot == old(clientGot) + got
    {
      down, clientGot := d, clientGot + got;
    }

    method NoteServerRead(ghost u: State, got: seq<Payload>)
      modifies this`up, this`serverGot
      ensures up == u && serverGot == old(serverGot) + got
    {
      up, serverGot := u, serverGot + got;
    }

    /** When the server has acted and its side fits, the client's side still does. */
    twostate lemma ServerActed()
      requires old(Valid()) && server.Valid() && unchanged(client) && unchanged(client.conn) && Seats.Onward(server)
      requires Inv(Up(), up) && Inv(Down(), down) && Fits(Seat(), up, down) && Wires() && Seen()
      requires up.sender == old(up.sender) && up.flushed == old(up.flushed) && down.receiver == old(down.receiver)
      requires Reaches(Up(), old(up), up) && Reaches(Down(), old(down), down) && (old(ServerDone()) ==> ServerDone())
      ensures Valid() && Forward()
    {
      hide Client.Valid, Server.Valid, Inv, Fits, Wires, Seen, SeatOf, Reaches, ServerDone;
    }

    /** And the other way round. */
    twostate lemma ClientActed()
      requires old(Valid()) && client.Valid() && server.Valid() && unchanged(server, this`crashed)
               && Seat() == old(Seat())
      requires Inv(Up(), up) && Inv(Down(), down) && ClientFits() && Wires() && Seen()
      requires up.receiver == old(up.receiver) && down.flushed == old(down.flushed) && down.sender == old(down.sender)
      requires Reaches(Up(), old(up), up) && Reaches(Down(), old(down), down) && (old(ClientDone()) ==> ClientDone())
      ensures Valid() && Forward()
    {
      hide Client.Valid, Server.Valid, Inv, ClientFits, Wires, Seen, SeatOf, Reaches, ClientDone;
    }

    // ---------------------------------------------------------------- events of the client

    method ClientWrite(p: Payload)
      requires Valid() && !client.exited && !client.closepend
      modifies this`toServer, this`toClient, this`clientWrote, this`serverWrote, this`up, this`down, client`sendct
      modifies client.conn
      ensures Valid() && Forward() && up == Apply(Up(), old(up), Step.Write(p)) && down == old(down)
      ensures clientWrote == old(clientWrote) + [p] && serverWrote == old(serverWrote) && Seat() == old(Seat())
              && old(toServer) <= toServer
    {
      hide Client.Valid, Server.Valid, Inv, AfterWrite, Apply, SeatOf, Fits, Reaches, Forward, ServerDone;
      WriteStep(Up(), up, p);
      ReachesSelf(Down(), down);
      ghost var u := Apply(Up(), up, Step.Write(p));
      var out := client.HandleWrite(p);
      KnownGrows(toServer, up.net, down.net, Elems(out), u.net, down.net);
      KnownGrows(toClient, down.net, up.net, {}, down.net, u.net);
      NoteWrites(u, down, toServer + Elems(out), toClient, clientWrote + [p], serverWrote);
      ClientActed();
    }

    method ClientEpoch()
      requires Valid() && !client.exited
      modifies this`spent, this`toServer, this`toClient, this`up, this`down, client, client.conn
      ensures Valid() && Forward()
      ensures up == (if client.exited then old(up) else Apply(Up(), old(up), SenderEpoch))
      ensures down == (if client.exited then old(down) else Apply(Down(), old(down), ReceiverEpoch))
      ensures Seat() == old(Seat()) && client.Sending() == old(client.Sending())
              && client.Receiving() == old(client.Receiving())
      ensures old(toServer) + {MsgAck(id, 0)} <= toServer
      ensures !client.exited ==> Contents(client.conn.databuf) + Contents(client.conn.ackbuf) <= toServer
      ensures client.closepend == old(client.closepend)
      ensures LossFound() || (client.exited == old(client.exited) && client.conn.estab == old(client.conn.estab)
              && client.conn.losted == old(client.conn.losted))
      ensures client.conn.Counts() == ClientStep(old(client.conn.Counts()), Epoch)
      ensures spent == Plus(old(spent), 1, 0)
    {
      hide Client.Valid, Server.Valid, Inv, Contents, Elems, Known, Apply, SeatOf, Fits, Reaches, Forward, ServerDone,
           ClientStep;
      var out := EpochOf(client);
      EpochWires(Up(), up, Down(), down, client.exited, toServer, toClient, out);
      ghost var u := if client.exited then up else Apply(Up(), up, SenderEpoch);
      ghost var d := if client.exited then down else Apply(Down(), down, ReceiverEpoch);
      NoteEpoch(u, d, toServer + out, toClient);
      ClientActed();
    }

    /** Whether the client's last epoch found the server lost. */
    predicate LossFound()
      reads client.conn
    {
      ClientFinds(client.conn.Counts(), client.conn.epochLimit)
    }

    method TakeAck(m: Message)
      requires Valid() && m in toClient && !client.exited && client.TakesAck(m)
      modifies this`spent, this`toServer, this`toClient, this`up, this`down, client, client.conn
      ensures Valid() && Forward() && up == Apply(Up(), old(up), Step.RecvAck(m)) && down == old(down) && Steady()
      ensures client.conn.Counts() == ClientStep(old(client.conn.Counts()), Heard) && old(toServer) <= toServer
      ensures spent == Plus(old(spent), 0, 1)
    {
      hide Client.Valid, Server.Valid, Inv, Apply, AfterAck, AckSends, SeatOf, Fits, Reaches, Forward,
           ServerDone, ClientStep;
      Kinds(Up(), up);
      AckStep(Up(), up, m);
      ReachesSelf(Down(), down);
      ghost var u := Apply(Up(), up, Step.RecvAck(m));
      SendsKnown(Up(), up, m.seqNum, u.net, down.net);
      var out := AckOf(client, m);
      KnownGrows(toServer, up.net, down.net, out, u.net, down.net);
      KnownGrows(toClient, down.net, up.net, {}, down.net, u.net);
      NoteHeard(u, down, toServer + out, toClient);
      ClientActed();
    }

    method TakeData(m: Message)
      requires Valid() && m in toClient && !client.exited && client.TakesData(m)
      modifies this`spent, this`toServer, this`toClient, this`up, this`down, client, client.conn
      ensures Valid() && Forward() && down == Apply(Down(), old(down), Step.RecvData(m)) && up == old(up) && Steady()
      ensures client.conn.Counts() == ClientStep(old(client.conn.Counts()), Heard) && old(toServer) <= toServer
      ensures MsgAck(id, m.seqNum) in toServer
      ensures spent == Plus(old(spent), 0, 1)
    {
      hide Client.Valid, Server.Valid, Inv, Apply, AfterData, Elems, Known, SeatOf, Fits, Reaches, Forward, ServerDone;
      InTransit(m, toClient, down.net, up.net);
      DataStep(Down(), down, m);
      ReachesSelf(Up(), up);
      ghost var d := Apply(Down(), down, Step.RecvData(m));
      OneKnown(MsgAck(id, m.seqNum), up.net, d.net);
      NothingKnown(d.net, up.net);
      var out := client.HandleReceive(m);
      KnownGrows(toServer, up.net, down.net, Elems(out), up.net, d.net);
      KnownGrows(toClient, down.net, up.net, {}, d.net, up.net);
      NoteHeard(up, d, toServer + Elems(out), toClient);
      ClientActed();
    }

    method TakeNothing(m: Message)
      requires Valid() && m in toClient && !client.exited && !client.TakesAck(m) && !client.TakesData(m)
      modifies this`up, this`down, this`toServer, this`toClient, this`spent, client, client.conn
      ensures Valid() && Forward() && Steady() && client.conn.Counts() == old(client.Counted(m))
      ensures spent == Plus(old(spent), 0, 1)
      ensures up == old(up) && down == old(down) && toServer == old(toServer)
    {
      hide Client.Valid, Server.Valid, Inv, AfterAck, AckSends, AfterData, SeatOf, Fits, Reaches, Forward, ServerDone,
           Known;
      ReachesSelf(Up(), up);
      ReachesSelf(Down(), down);
      var out := client.HandleReceive(m);
      NoteHeard(up, down, toServer, toClient);
      ClientActed();
    }

    /** The server has not acted, and the client is as open and as established as before. */
    twostate predicate Steady()
      requires old(server.Valid()) && server.Valid()
      reads client, client.conn, server, server.conn.Values, server.banclose.Values
    {
      && Seat() == old(Seat()) && client.closepend == old(client.closepend) && client.exited == old(client.exited)
      && client.conn.losted == old(client.conn.losted) && client.conn.estab == old(client.conn.estab)
    }

    /** A message at the client is a step of one of the directions, or changes neither. */
    method ToClient(m: Message)
      requires Valid() && m in toClient && !client.exited
      modifies this`spent, this`toServer, this`toClient, this`up, this`down, client, client.conn
      ensures Valid() && Forward() && Steady() && client.conn.Counts() == old(client.Counted(m))
              && old(toServer) <= toServer
      ensures up == (if old(client.TakesAck(m)) then Apply(Up(), old(up), Step.RecvAck(m)) else old(up))
      ensures down == (if old(client.TakesData(m)) then Apply(Down(), old(down), Step.RecvData(m)) else old(down))
      ensures old(client.TakesData(m)) ==> MsgAck(id, m.seqNum) in toServer
      ensures spent == Plus(old(spent), 0, 1)
    {
      hide Valid, Inv, Apply, Forward, Steady, ClientStep;
      if client.TakesAck(m) {
        TakeAck(m);
      } else if client.TakesData(m) {
        TakeData(m);
      } else {
        TakeNothing(m);
      }
    }

    method ClientRead()
      requires Valid() && !client.exited && client.creads > 0
      modifies this`clientGot, this`down, client`creads, client`readct, client`replyread, client.conn`readbuf
      ensures Valid() && Forward() && up == old(up) && down == Apply(Down(), old(down), Step.ReadNext)
    {
      hide Client.Valid, Server.Valid, Inv, Apply, AfterRead, SeatOf, Fits, Reaches, Forward, ServerDone, Known;
      ReadStep(Down(), down);
      ReachesSelf(Up(), up);
      var got := PayloadRead(client);
      NoteRead(Apply(Down(), down, Step.ReadNext), got);
      ClientActed();
    }

    method ClientClose()
      requires Valid()
      modifies client`ccloses
      ensures Valid() && Forward() && up == old(up) && down == old(down)
    {
      hide Client.Valid, Server.Valid, Inv, SeatOf, Fits, Reaches, Forward, ServerDone;
      ReachesSelf(Up(), up);
      ReachesSelf(Down(), down);
      client.Close();
      ClientActed();
    }

    method ClientRelease()
      requires Valid() && !client.exited && client.ccloses > 0
      modifies client`ccloses, client`closepend, client`over
      ensures Valid() && Forward() && up == old(up) && down == old(down)
    {
      hide Client.Valid, Server.Valid, Inv, SeatOf, Fits, Reaches, Forward, ServerDone;
      ReachesSelf(Up(), up);
      ReachesSelf(Down(), down);
      client.HandleClose();
      ClientActed();
    }

    /** The client's Read: asked for, and answered from the queue of what was handed over. */
    method ClientAsk()
      requires Valid() && !client.reading && !client.closepend
      modifies client`creads, client`reading
      ensures Valid() && Forward() && up == old(up) && down == old(down)
    {
      hide Client.Valid, Server.Valid, Inv, SeatOf, Fits, Reaches, Forward, ServerDone;
      ReachesSelf(Up(), up);
      ReachesSelf(Down(), down);
      client.Read();
      ClientActed();
    }

    method ClientTake()
      requires Valid() && client.reading && client.replyread != []
      modifies client`replyread, client`reading
      ensures Valid() && Forward() && up == old(up) && down == old(down)
    {
      hide Client.Valid, Server.Valid, Inv, SeatOf, Fits, Reaches, Forward, ServerDone;
      ReachesSelf(Up(), up);
      ReachesSelf(Down(), down);
      var r := client.FinishRead();
      ClientActed();
    }

    // ---------------------------------------------------------------- events of the server for this client

    /** An epoch repeats what is held, for a connection that is still heard and for a record. */
    method ServerEpoch()
      requires Valid() && !crashed
      modifies this`spent, this`toServer, this`toClient, this`up, this`down, server, server.conn.Values
      modifies server.banclose.Values
      ensures Valid() && Forward()
      ensures up == Retold(Up(), old(up), old(Seat()), server.epochLimit)
      ensures down == Repeated(Down(), old(down), old(Seat()), Seat(), server.epochLimit)
      ensures StillHeard(old(Seat()), server.epochLimit) ==>
                && Seat() == old(Seat()).(counts := ServerStep(old(Seat()).counts, Loss.Epoch))
                && old(toClient) + Repeats(old(Seat())) <= toClient
      ensures Told(server, id) == old(Told(server, id)) +
                if old(Seat()).Live? && !old(Seat()).pending
                  && !StillHeard(old(Seat()), server.epochLimit) then 1 else 0
      ensures spent == Plus(old(spent), 1, 0)
    {
      hide Client.Valid, Server.Valid, Inv, Known, Retold, Repeated, StillHeard, Fits, Ticks, Over, SeatOf, Reaches,
           Forward, ClientFits, ServerStep, Told;
      ghost var seat := Seat();
      HeardMeans(seat, server.epochLimit);
      var out := TickAt(server, id);
      TickWires(Up(), up, Down(), down, server.epochLimit, server.readclose, seat, Seat(), toServer, toClient, out);
      NoteEpoch(Retold(Up(), up, seat, server.epochLimit), Repeated(Down(), down, seat, Seat(), server.epochLimit),
          toServer, toClient + out);
      ServerActed();
    }

    method DataToServer(m: Message)
      requires Valid() && !crashed && m in toServer && m.MsgData?
      modifies this`spent, this`crashed, this`toClient, this`up, this`down, server, server.conn.Values
      modifies server.banclose.Values
      ensures Valid() && Forward()
      ensures up == Stored(Up(), old(up), old(Seat()), m) && down == old(down)
      ensures Seat() == AfterDataAt(server.windowSize, id, old(Seat()), m)
      ensures old(toClient) <= toClient
              && (TakesData(old(Seat()), m.seqNum) ==> MsgAck(id, m.seqNum) in toClient && !crashed)
      ensures spent == Plus(old(spent), 0, 1)
    {
      hide Client.Valid, Server.Valid, Inv, Stored, Fits, AfterDataAt, TakesData, Over, Known, SeatOf, Reaches,
           Forward, ClientFits, ClientDone;
      OwnData(Up(), up, m, toServer, down.net);
      ghost var seat := Seat();
      var out, panics := HearData(server, id, m);
      DataWires(Up(), Down(), up, down, seat, m, toServer, toClient, out);
      NotePanic(Stored(Up(), up, seat, m), down, toClient + out, panics);
      ServerActed();
    }

    /** An acknowledgement at the server is a step of the direction it sends, also after CloseConn, when the
        window takes it or a record is there. */
    method AckToServer(m: Message)
      requires Valid() && !crashed && m in toServer && m.MsgAck? && m.connId == id
      modifies this`spent, this`crashed, this`toClient, this`up, this`down, server, server.conn.Values
      modifies server.banclose.Values
      ensures Valid() && Forward()
      ensures down == Acked(Down(), old(down), old(Seat()), m) && up == old(up)
      ensures Seat() == AfterAckAt(server.windowSize, old(Seat()), m.seqNum) && old(toClient) <= toClient
      ensures old(Seat()).Live? ==> !crashed
      ensures Echoes(old(Seat()), m.seqNum) ==> MsgAck(id, 0) in toClient
      ensures spent == Plus(old(spent), 0, 1)
    {
      hide Client.Valid, Server.Valid, Inv, Acked, Fits, AfterAckAt, Answers, Echoes, Over, Known, SeatOf, Reaches,
           Forward, ClientFits, ClientDone;
      ghost var seat := Seat();
      var out, panics := HearAck(server, id, m);
      AckWires(Down(), Up(), up, down, seat, m, toServer, toClient, out);
      NotePanic(up, Acked(Down(), down, seat, m), toClient + out, panics);
      ServerActed();
    }

    method ServerRead()
      requires Valid() && !crashed && server.sreads > 0
      modifies this`serverGot, this`up, server`sreads, server`reply, server`readct, server.conn.Values`readbuf
      ensures Valid() && Forward() && down == old(down) && (up == old(up) || up == Apply(Up(), old(up), Step.ReadNext))
    {
      hide Client.Valid, Server.Valid, Inv, Apply, AfterRead, SeatOf, Reaches, Forward, ClientFits, ClientDone, Known;
      ReachesSelf(Down(), down);
      ghost var u, seat := up, Seat();
      var got := ReadAt(server, id);
      if got == [] {
        ReachesSelf(Up(), up);
      } else {
        ReadStep(Up(), up);
        u := Apply(Up(), up, Step.ReadNext);
        assert u.delivered == up.delivered + got && u.receiver == AfterRead(seat.rcv);
      }
      NoteServerRead(u, got);
      ServerActed();
    }

    method ServerWrite(p: Payload)
      requires Valid() && !crashed && !server.closing
      modifies this`toServer, this`toClient, this`clientWrote, this`serverWrote, this`up, this`down, server`sendct
      modifies server.conn.Values
      ensures Valid() && Forward() && up == old(up)
      ensures var writes := old(Seat()).Live? && !old(Seat()).lost;
              && down == (if writes then Apply(Down(), old(down), Step.Write(p)) else old(down))
              && serverWrote == old(serverWrote) + (if writes then [p] else []) && clientWrote == old(clientWrote)
    {
      hide Client.Valid, Server.Valid, Inv, Apply, SeatOf, Reaches, Forward, ClientFits, ClientDone, Fits, Known, Over,
           Writes, Elems;
      ReachesSelf(Up(), up);
      ghost var seat := Seat();
      var answer, out := WriteAt(server, id, p);
      WriteWires(Down(), up, down, seat, Seat(), p, answer, toServer, toClient, out);
      ghost var d := if answer == 1 then Apply(Down(), down, Step.Write(p)) else down;
      NoteWrites(up, d, toServer, toClient + Elems(out), clientWrote, serverWrote + if answer == 1 then [p] else []);
      ServerActed();
    }

    /** CloseConn flushes the direction the server sends, or ends that connection. */
    method CloseThis()
      requires Valid() && !crashed && !server.closing
      modifies this`toServer, this`toClient, this`up, this`down, server
      ensures Valid() && Forward() && up == old(up)
      ensures var seat := old(Seat());
              if seat.Live? && !seat.pending && !seat.lost then down == Apply(Down(), old(down), CloseConn)
                && Seat().Recorded?
              else down == old(down) && !Seat().Live?
    {
      hide Client.Valid, Server.Valid, Inv, Apply, Contents, SeatOf, Reaches, Forward, ClientFits, ClientDone;
      Kinds(Down(), down);
      ReachesSelf(Up(), up);
      ReachesSelf(Down(), down);
      ghost var d, seat := down, Seat();
      if seat.Live? && !seat.pending && !seat.lost {
        CloseStep(Down(), down);
        d := Apply(Down(), down, CloseConn);
      }
      var out := CloseAt(server, id);
      KnownGrows(toServer, up.net, down.net, {}, up.net, d.net);
      KnownGrows(toClient, down.net, up.net, Elems(out), d.net, up.net);
      Note(up, d, toServer, toClient + Elems(out));
      ServerActed();
    }

    /** The server's Close is asked for and, at any time after, handled. */
    method ServerClose()
      requires Valid() && !crashed
      modifies server`readclose, server`scloses
      ensures Valid() && Forward() && up == old(up) && down == old(down)
    {
      hide Client.Valid, Server.Valid, Inv, SeatOf, Fits, Reaches, Forward, ClientFits, ClientDone;
      ReachesSelf(Up(), up);
      ReachesSelf(Down(), down);
      CloseServer(server, id);
      ServerActed();
    }

    method ServerRelease()
      requires Valid() && !crashed && server.scloses > 0
      modifies server
      ensures Valid() && Forward() && up == old(up) && down == old(down)
    {
      hide Client.Valid, Server.Valid, Inv, SeatOf, Reaches, Forward, ClientFits, ClientDone;
      ReachesSelf(Up(), up);
      ReachesSelf(Down(), down);
      ReleaseAt(server, id);
      ServerActed();
    }

    /** A connect request that arrives again. */
    method ConnectsAgain(addr: string)
      requires Valid() && !crashed && addr in server.addmap && server.addmap[addr] == id
      modifies this`toClient, server, server.conn.Values
      ensures Valid() && Forward() && up == old(up) && down == old(down)
    {
      hide Client.Valid, Server.Valid, Inv, SeatOf, Reaches, Forward, ClientFits, ClientDone, ServerStep;
      ReachesSelf(Up(), up);
      ReachesSelf(Down(), down);
      var out := ConnectAgain(server, id, addr);
      KnownGrows(toClient, down.net, up.net, Elems(out), down.net, up.net);
      toClient := toClient + Elems(out);
      ServerActed();
    }

    // ---------------------------------------------------------------- events of the server for others

    method OthersHear(m: Message)
      requires Valid() && !crashed && !m.MsgConnect? && m.connId != id
      modifies this`crashed, server, server.conn.Values, server.banclose.Values
      ensures Valid() && Forward() && up == old(up) && down == old(down) && Seat() == old(Seat())
    {
      hide Client.Valid, Server.Valid, Inv, SeatOf, Fits, Reaches, Forward, ClientFits, ClientDone;
      ReachesSelf(Up(), up);
      ReachesSelf(Down(), down);
      var panics := HearOther(server, id, m);
      crashed := panics;
      ServerActed();
    }

    method OthersConnect(addr: string)
      requires Valid() && !crashed && !(addr in server.addmap && server.addmap[addr] == id)
      modifies server, server.conn.Values
      ensures Valid() && Forward() && up == old(up) && down == old(down) && Seat() == old(Seat())
    {
      hide Client.Valid, Server.Valid, Inv, SeatOf, Fits, Reaches, Forward, ClientFits, ClientDone;
      ReachesSelf(Up(), up);
      ReachesSelf(Down(), down);
      ConnectOther(server, id, addr);
      ServerActed();
    }

    method OthersWrite(j: int, p: Payload)
      requires Valid() && !crashed && !server.closing && j != id
      modifies server`sendct, server.conn.Values
      ensures Valid() && Forward() && up == old(up) && down == old(down) && Seat() == old(Seat())
    {
      hide Client.Valid, Server.Valid, Inv, SeatOf, Fits, Reaches, Forward, ClientFits, ClientDone;
      ReachesSelf(Up(), up);
      ReachesSelf(Down(), down);
      WriteOther(server, id, j, p);
      ServerActed();
    }

    method OthersClose(j: int)
      requires Valid() && !crashed && !server.closing && j != id
      modifies server
      ensures Valid() && Forward() && up == old(up) && down == old(down) && Seat() == old(Seat())
    {
      hide Client.Valid, Server.Valid, Inv, SeatOf, Fits, Reaches, Forward, ClientFits, ClientDone;
      ReachesSelf(Up(), up);
      ReachesSelf(Down(), down);
      CloseOther(server, id, j);
      ServerActed();
    }

    /** The server's Read: asked for, and answered from the queue of what was handed over. */
    method ServerAsk()
      requires Valid() && !crashed && !server.reading && !server.readclose
      modifies server`sreads, server`reading
      ensures Valid() && Forward() && up == old(up) && down == old(down) && Seat() == old(Seat())
    {
      hide Client.Valid, Server.Valid, Inv, SeatOf, Fits, Reaches, Forward, ClientFits, ClientDone;
      ReachesSelf(Up(), up);
      ReachesSelf(Down(), down);
      AskAt(server, id);
      ServerActed();
    }

    method ServerTake()
      requires Valid() && !crashed && server.reading && server.reply != []
      modifies server`reply, server`reading
      ensures Valid() && Forward() && up == old(up) && down == old(down) && Seat() == old(Seat())
    {
      hide Client.Valid, Server.Valid, Inv, SeatOf, Fits, Reaches, Forward, ClientFits, ClientDone;
      ReachesSelf(Up(), up);
      ReachesSelf(Down(), down);
      var r := TakeAt(server, id);
      ServerActed();
    }

    // ---------------------------------------------------------------- progress of what the client writes

    /** The server still answers this client. */
    ghost predicate ServerUp()
      requires server.Valid()
      reads this`crashed, server, server.conn.Values, server.banclose.Values
    {
      !crashed && server.epochLimit >= 2 && Open(Seat())
    }

    /** The server has not lost this client; its Close may wait for it. */
    ghost predicate ServerAlive()
      requires server.Valid()
      reads this`crashed, server, server.conn.Values, server.banclose.Values
    {
      !crashed && server.epochLimit >= 2 && Lives(Seat())
    }

    /** The client is there and has not lost the server; Close may have been handled. */
    predicate ClientAlive()
      reads client, client.conn
    {
      !client.exited && client.conn.estab && !client.conn.losted && client.conn.epochLimit >= 2
    }

    /** And its application still writes. */
    predicate ClientUp()
      reads client, client.conn
    {
      ClientAlive() && !client.closepend
    }

    /** And its next epoch does not find the server lost. */
    predicate Patient()
      reads client.conn
    {
      !ClientFinds(ClientStep(client.conn.Counts(), Loss.Epoch), client.conn.epochLimit)
    }

    /** What an epoch of the client has put in transit for its first unacknowledged number. */
    predicate Asked()
      reads this`toServer, client.conn
    {
      MsgAck(id, 0) in toServer
        && (client.conn.seqNo in client.conn.databuf ==> client.conn.databuf[client.conn.seqNo] in toServer)
    }

    /** An epoch of the client. */
    method Ask()
      requires Valid() && ClientAlive() && Patient()
      modifies this`spent, this`toServer, this`toClient, this`up, this`down, client, client.conn
      ensures Valid() && ClientAlive() && Asked() && Seat() == old(Seat()) && client.closepend == old(client.closepend)
      ensures client.Sending() == old(client.Sending()) && clientWrote == old(clientWrote) && Reaches(Up(), old(up), up)
      ensures spent == Plus(old(spent), 1, 0)
    {
      hide Client.Valid, Server.Valid, Inv, Apply, SeatOf, Fits, Reaches, ServerDone, ClientDone, Known, Wires,
           ClientStep, ClientFinds;
      ClientEpoch();
      if client.conn.seqNo in client.conn.databuf {
        assert client.conn.databuf[client.conn.seqNo] in Contents(client.conn.databuf);
      }
    }

    /** The first unacknowledged message, resent, reaches the server. */
    method Reach()
      requires client.conn.windowSize <= server.windowSize
      requires Valid() && ServerUp() && ClientAlive() && client.conn.seqNo in client.conn.databuf
      requires client.conn.databuf[client.conn.seqNo] in toServer
      modifies this`spent, this`crashed, this`toClient, this`up, this`down, server, server.conn.Values
      modifies server.banclose.Values
      ensures Valid() && ServerUp() && !Seat().pending && MsgAck(id, client.conn.seqNo) in toClient
              && Reaches(Up(), old(up), up)
      ensures fresh(server.conn.Values - old(server.conn.Values))
              && fresh(server.banclose.Values - old(server.banclose.Values))
      ensures spent == Plus(old(spent), 0, 1)
    {
      hide Client.Valid, Server.Valid, Inv, Apply, AfterDataAt, TakesData, SeatOf, Fits, Reaches, ServerDone,
           ClientDone, Known, Wires, Seen;
      var m := client.conn.databuf[client.conn.seqNo];
      FitsReceiver(Seat(), up, down);
      HeadMessage(Up(), up);
      DataKeepsOpen(server.windowSize, id, Seat(), m);
      DataToServer(m);
    }

    /** Or its acknowledgement, held by the server, is sent again once the server has heard the client. */
    method Recall()
      requires client.conn.windowSize <= server.windowSize
      requires Valid() && ServerUp() && ClientAlive() && client.conn.seqNo !in client.conn.databuf
               && client.conn.seqNo < client.sendct
      requires MsgAck(id, 0) in toServer
      modifies this`spent, this`crashed, this`toServer, this`toClient, this`up, this`down, server, server.conn.Values
      modifies server.banclose.Values
      ensures Valid() && ServerUp() && !Seat().pending && MsgAck(id, client.conn.seqNo) in toClient
              && Reaches(Up(), old(up), up)
      ensures fresh(server.conn.Values - old(server.conn.Values))
              && fresh(server.banclose.Values - old(server.banclose.Values))
      ensures spent == Plus(old(spent), 1, 1)
    {
      hide Client.Valid, Server.Valid, Inv, Apply, AfterAckAt, TakesAck, SeatOf, Fits, Reaches, ServerDone, ClientDone,
           Known, Wires, Seen;
      FitsReceiver(Seat(), up, down);
      HeadAck(Up(), up);
      NotPending(server, id, client.conn.seqNo);
      HeardInTime(server.windowSize, server.epochLimit, Seat());
      KeepAlive();
      RecallNow();
    }

    /** A keep-alive of the client is heard. */
    method KeepAlive()
      requires Valid() && !crashed && MsgAck(id, 0) in toServer && Seat().Live? && !Seat().pending
      modifies this`spent, this`crashed, this`toClient, this`up, this`down, server, server.conn.Values
      modifies server.banclose.Values
      ensures Valid() && !crashed && up == old(up) && Seat() == AfterAckAt(server.windowSize, old(Seat()), 0)
      ensures fresh(server.conn.Values - old(server.conn.Values))
              && fresh(server.banclose.Values - old(server.banclose.Values))
      ensures spent == Plus(old(spent), 0, 1)
    {
      hide Client.Valid, Server.Valid, Inv, Apply, AfterAckAt, TakesAck, SeatOf, Fits, Reaches, ServerDone, ClientDone,
           Known, Wires, Seen;
      AckToServer(MsgAck(id, 0));
    }

    /** The next epoch of the server sends what it holds. */
    method RecallNow()
      requires Valid() && ServerUp() && !ServerFinds(ServerStep(Seat().counts, Loss.Epoch), server.epochLimit)
               && !Seat().pending
      requires client.conn.seqNo in Seat().rcv.ackbuf
               && Seat().rcv.ackbuf[client.conn.seqNo] == MsgAck(id, client.conn.seqNo)
      modifies this`spent, this`toServer, this`toClient, this`up, this`down, server, server.conn.Values
      modifies server.banclose.Values
      ensures Valid() && ServerUp() && !Seat().pending && MsgAck(id, client.conn.seqNo) in toClient
              && Reaches(Up(), old(up), up)
      ensures fresh(server.conn.Values - old(server.conn.Values))
              && fresh(server.banclose.Values - old(server.banclose.Values))
      ensures spent == Plus(old(spent), 1, 0)
    {
      hide Client.Valid, Server.Valid, Inv, Apply, SeatOf, Fits, Reaches, ServerDone, ClientDone, Known, Wires, Seen,
           ServerFinds, ServerStep;
      assert MsgAck(id, client.conn.seqNo) in Repeats(Seat());
      ServerEpoch();
    }

    method Answer()
      requires client.conn.windowSize <= server.windowSize
      requires Valid() && ServerUp() && ClientAlive() && Asked() && client.conn.seqNo < client.sendct
      modifies this`spent, this`crashed, this`toServer, this`toClient, this`up, this`down, server, server.conn.Values
      modifies server.banclose.Values
      ensures Valid() && ServerUp() && !Seat().pending && MsgAck(id, client.conn.seqNo) in toClient
              && Reaches(Up(), old(up), up)
      ensures fresh(server.conn.Values - old(server.conn.Values))
              && fresh(server.banclose.Values - old(server.banclose.Values))
      ensures Within(old(spent), spent, 1, 1)
    {
      hide Valid, ServerUp, ClientAlive, Reaches;
      if client.conn.seqNo in client.conn.databuf {
        Reach();
      } else {
        Recall();
      }
    }

    /** The acknowledgement of the first unacknowledged number slides the client's window. */
    method Hear()
      requires client.conn.windowSize <= server.windowSize
      requires Valid() && ClientAlive() && MsgAck(id, client.conn.seqNo) in toClient
      requires client.closepend ==> !Drained(client.Sending())
      modifies this`spent, this`toServer, this`toClient, this`up, this`down, client, client.conn
      ensures Valid() && ClientAlive() && Patient() && client.conn.seqNo > old(client.conn.seqNo)
              && client.sendct == old(client.sendct) && client.closepend == old(client.closepend)
      ensures Seat() == old(Seat()) && clientWrote == old(clientWrote) && Reaches(Up(), old(up), up)
      ensures spent == Plus(old(spent), 0, 1)
    {
      hide Client.Valid, Server.Valid, Inv, Apply, SeatOf, Fits, Reaches, ServerDone, ClientDone, Known, Wires;
      HeadMessage(Up(), up);
      AckRaises(Up(), up, MsgAck(id, client.conn.seqNo));
      ToClient(MsgAck(id, client.conn.seqNo));
    }

    lemma Apart()
      requires Valid()
      ensures client.conn !in server.conn.Values
    {
    }

    /** Both ends resend, and an acknowledgement of the first unacknowledged number is on its way. */
    method Exchange()
      requires client.conn.windowSize <= server.windowSize
      requires Valid() && ServerUp() && ClientAlive() && Patient() && !Drained(client.Sending())
      modifies this`spent, this`crashed, this`toServer, this`toClient, this`up, this`down
      modifies client, client.conn, server, server.conn.Values, server.banclose.Values
      ensures Valid() && ServerUp() && ClientAlive() && MsgAck(id, client.conn.seqNo) in toClient
      ensures Seat().Live? && !Seat().pending
      ensures client.closepend == old(client.closepend)
      ensures client.Sending() == old(client.Sending()) && clientWrote == old(clientWrote) && Reaches(Up(), old(up), up)
      ensures fresh(server.conn.Values - old(server.conn.Values))
              && fresh(server.banclose.Values - old(server.banclose.Values))
      ensures Within(old(spent), spent, 2, 1)
    {
      hide Valid, ServerUp, ClientAlive, Patient, Asked, Reaches, SeatOf, Drained;
      Bounded();
      ghost var sender, l := client.Sending(), up;
      Ask();
      assert client.Sending() == sender;
      ghost var m := up;
      Apart();
      Answer();
      PendingSeat();
      ReachesFurther(Up(), l, m, up);
    }

    /** So a round of two epochs, in which what is needed arrives, raises the client's `seq`. */
    method Advance()
      requires client.conn.windowSize <= server.windowSize
      requires Valid() && ServerUp() && ClientAlive() && Patient() && !Drained(client.Sending())
      modifies this`spent, this`crashed, this`toServer, this`toClient, this`up, this`down
      modifies client, client.conn, server, server.conn.Values, server.banclose.Values
      ensures Valid() && ServerUp() && ClientAlive() && Patient() && Seat().Live? && !Seat().pending
      ensures client.closepend == old(client.closepend)
      ensures client.conn.seqNo > old(client.conn.seqNo) && client.sendct == old(client.sendct)
      ensures clientWrote == old(clientWrote) && Reaches(Up(), old(up), up)
      ensures fresh(server.conn.Values - old(server.conn.Values))
              && fresh(server.banclose.Values - old(server.banclose.Values))
      ensures Within(old(spent), spent, 2, 2)
    {
      hide Valid, ServerUp, ClientAlive, Patient, Reaches, SeatOf, Drained;
      ghost var l := up;
      Exchange();
      ghost var m := up;
      Apart();
      Hear();
      ReachesFurther(Up(), l, m, up);
    }

    /** At most one round for each unacknowledged number, and nothing is unacknowledged at the client, and the
        server holds every message it has not handed to its application. */
    method Drain() returns (rounds: nat)
      requires client.conn.windowSize <= server.windowSize
      requires Valid() && ServerUp() && ClientAlive() && Patient()
      modifies this`spent, this`crashed, this`toServer, this`toClient, this`up, this`down
      modifies client, client.conn, server, server.conn.Values, server.banclose.Values
      ensures Valid() && ServerUp() && ClientAlive() && Patient() && client.closepend == old(client.closepend)
      ensures rounds <= old(client.sendct - client.conn.seqNo)
      ensures clientWrote == old(clientWrote) && Reaches(Up(), old(up), up)
      ensures Drained(client.Sending()) && forall n :: |serverGot| < n <= |clientWrote| ==> n in Seat().rcv.readbuf
      ensures Within(old(spent), spent, 2 * rounds, 2 * rounds)
      ensures if rounds > 0 then Seat().Live? && !Seat().pending else Seat() == old(Seat())
      ensures fresh(server.conn.Values - old(server.conn.Values))
              && fresh(server.banclose.Values - old(server.banclose.Values))
    {
      hide Valid, ServerUp, ClientAlive, Patient, Reaches, Drained, SeatOf;
      rounds := 0;
      ghost var l := up;
      ReachesSelf(Up(), l);
      Bounded();
      while !Drained(client.Sending())
        invariant Valid() && server.Valid() && ServerUp() && ClientAlive() && Patient()
        invariant clientWrote == old(clientWrote) && client.closepend == old(client.closepend)
        invariant Reaches(Up(), l, up) && client.sendct == old(client.sendct) && client.conn.seqNo <= client.sendct
        invariant rounds + client.sendct - client.conn.seqNo <= old(client.sendct - client.conn.seqNo)
        invariant Within(old(spent), spent, 2 * rounds, 2 * rounds)
        invariant if rounds > 0 then Seat().Live? && !Seat().pending else Seat() == old(Seat())
        invariant fresh(server.conn.Values - old(server.conn.Values))
                  && fresh(server.banclose.Values - old(server.banclose.Values))
        decreases client.sendct - client.conn.seqNo
      {
        ghost var m := up;
        Advance();
        ReachesFurther(Up(), l, m, up);
        Bounded();
        rounds := rounds + 1;
      }
      AllThere();
    }

    /** What is unacknowledged is in flight or queued. */
    lemma Bounded()
      requires Valid()
      ensures server.Valid() && client.conn.seqNo <= client.sendct
      ensures client.conn.seqNo == client.sendct ==> Drained(client.Sending())
    {
      hide Server.Valid, Client.Valid, Wires, Seen, Fits, SeatOf;
      if client.conn.seqNo == client.sendct {
        NothingLeft(Up().sendWindow, up.sender);
      }
    }

    lemma AllThere()
      requires Valid() && Drained(client.Sending()) && ServerUp()
      ensures forall n :: |serverGot| < n <= |clientWrote| ==> n in Seat().rcv.readbuf
    {
      hide Server.Valid, Client.Valid, Wires, SeatOf;
      FitsReceiver(Seat(), up, down);
    }

    // ---------------------------------------------------------------- the client's Close returns

    /** A message that reaches a client with nothing unacknowledged after Close lets Close go. */
    method LetGo(m: Message)
      requires Valid() && m in toClient && ClientAlive() && client.closepend && Drained(client.Sending())
      modifies this`up, this`down, this`toServer, this`toClient, this`spent, client, client.conn
      ensures Valid() && Steady() && ClientAlive() && client.closeack && client.ccloses > 0
      ensures client.Sending() == old(client.Sending()) && up == old(up) && clientWrote == old(clientWrote)
      ensures spent == Plus(old(spent), 0, 1)
    {
      hide Client.Valid, Server.Valid, Inv, AfterAck, AckSends, AfterData, SeatOf, Fits, Reaches, Forward, ServerDone,
           Known;
      ReachesSelf(Up(), up);
      ReachesSelf(Down(), down);
      KindOf(m);
      var out := client.HandleReceive(m);
      NoteHeard(up, down, toServer, toClient);
      ClientActed();
    }

    lemma KindOf(m: Message)
      requires Valid() && m in toClient
      ensures !m.MsgConnect?
    {
      InTransit(m, toClient, down.net, up.net);
    }

    /** The close request that this leaves is signalled. */
    method Signal()
      requires Valid() && ClientAlive() && client.closeack && client.ccloses > 0
      modifies client`ccloses, client`closepend, client`over
      ensures Valid() && client.over == old(client.over) + 1 && up == old(up) && Seat() == old(Seat())
    {
      hide Client.Valid, Server.Valid, Inv, SeatOf, Fits, Reaches, Forward, ServerDone;
      ReachesSelf(Up(), up);
      ReachesSelf(Down(), down);
      client.HandleClose();
      ClientActed();
    }

    method Leave(m: Message)
      requires Valid() && m in toClient && ClientAlive() && client.closepend && Drained(client.Sending())
      modifies this`up, this`down, this`toServer, this`toClient, this`spent, client, client.conn
      ensures Valid() && client.over > 0 && client.Sending() == old(client.Sending()) && Seat() == old(Seat())
      ensures up == old(up) && clientWrote == old(clientWrote) && spent == Plus(old(spent), 0, 1)
    {
      hide Valid, ClientAlive, SeatOf, Drained;
      LetGo(m);
      Signal();
    }

    /** The repeated answer to the connect request is a sign of life of the server. */
    method AnsweredAgain() returns (m: Message)
      requires Valid() && ServerUp() && Seat().pending && ServerPatient()
      modifies this`spent, this`toServer, this`toClient, this`up, this`down, server, server.conn.Values
      modifies server.banclose.Values
      ensures Valid() && ServerUp() && m in toClient && Reaches(Up(), old(up), up) && Seat().rcv == old(Seat()).rcv
      ensures fresh(server.conn.Values - old(server.conn.Values))
              && fresh(server.banclose.Values - old(server.banclose.Values))
      ensures spent == Plus(old(spent), 1, 0)
    {
      hide Client.Valid, Server.Valid, Inv, Apply, SeatOf, Fits, Reaches, ServerDone, ClientDone, Known, Wires,
           ServerStep, ServerFinds;
      m := MsgAck(1, 0);
      assert m in Repeats(Seat());
      ServerEpoch();
    }

    /** And so is the answer to a keep-alive. */
    method KeptAlive() returns (m: Message)
      requires Valid() && ServerUp() && !Seat().pending && ClientAlive() && Patient()
      modifies this`spent, this`crashed, this`toServer, this`toClient, this`up, this`down
      modifies client, client.conn, server, server.conn.Values, server.banclose.Values
      ensures Valid() && ServerUp() && ClientAlive() && m in toClient && Reaches(Up(), old(up), up)
      ensures Seat().rcv == old(Seat()).rcv && client.Sending() == old(client.Sending())
              && client.closepend == old(client.closepend) && clientWrote == old(clientWrote)
      ensures fresh(server.conn.Values - old(server.conn.Values))
              && fresh(server.banclose.Values - old(server.banclose.Values))
      ensures spent == Plus(old(spent), 1, 1)
    {
      hide Valid, ServerUp, ClientAlive, Patient, Asked, Reaches, SeatOf;
      ghost var l := up;
      UpMeans();
      HasAsked();
      UpMeans();
      Apart();
      Echo();
      UpMeans();
      m := MsgAck(id, 0);
    }

    lemma UpMeans()
      requires Valid()
      ensures server.Valid() && (ServerUp() <==> ServerAlive() && !Seat().waited)
    {
      hide Server.Valid, Client.Valid, SeatOf;
    }

    method HasAsked()
      requires Valid() && ClientAlive() && Patient()
      modifies this`spent, this`toServer, this`toClient, this`up, this`down, client, client.conn
      ensures Valid() && ClientAlive() && MsgAck(id, 0) in toServer && Seat() == old(Seat())
      ensures client.Sending() == old(client.Sending()) && clientWrote == old(clientWrote) && Reaches(Up(), old(up), up)
      ensures client.closepend == old(client.closepend) && spent == Plus(old(spent), 1, 0)
    {
      hide Valid, ClientAlive, Patient, Reaches, SeatOf;
      Ask();
    }

    method SignOfLife() returns (m: Message)
      requires Valid() && ServerUp() && ClientAlive() && Patient() && (Seat().pending ==> ServerPatient())
      modifies this`spent, this`crashed, this`toServer, this`toClient, this`up, this`down
      modifies client, client.conn, server, server.conn.Values, server.banclose.Values
      ensures Valid() && ServerUp() && ClientAlive() && m in toClient && Reaches(Up(), old(up), up)
      ensures Seat().rcv == old(Seat()).rcv && client.Sending() == old(client.Sending())
              && client.closepend == old(client.closepend) && clientWrote == old(clientWrote)
      ensures fresh(server.conn.Values - old(server.conn.Values))
              && fresh(server.banclose.Values - old(server.banclose.Values))
      ensures Within(old(spent), spent, 1, 1)
    {
      hide Valid, ServerUp, ServerPatient, ClientAlive, Patient, Reaches, SeatOf;
      Apart();
      PendingSeat();
      if id in server.pendconn {
        m := AnsweredAgain();
      } else {
        m := KeptAlive();
      }
    }

    lemma PendingSeat()
      requires Valid() && ServerUp()
      ensures server.Valid() && Seat().Live? && (Seat().pending <==> id in server.pendconn)
    {
      hide Server.Valid, Client.Valid;
    }

    /** It lets a pending Close go. */
    method LastWord()
      requires Valid() && ServerUp() && ClientAlive() && Patient() && (Seat().pending ==> ServerPatient())
      requires client.closepend && Drained(client.Sending())
      modifies this`spent, this`crashed, this`toServer, this`toClient, this`up, this`down
      modifies client, client.conn, server, server.conn.Values, server.banclose.Values
      ensures Valid() && client.over > 0 && Drained(client.Sending())
      ensures server.Valid() && Seat().Live? && Seat().rcv == old(Seat()).rcv
      ensures clientWrote == old(clientWrote) && Reaches(Up(), old(up), up)
      ensures Within(old(spent), spent, 1, 2)
    {
      hide Valid, ServerUp, ServerPatient, ClientAlive, Patient, Reaches, SeatOf, Drained;
      var sign := SignOfLife();
      PendingSeat();
      Apart();
      Leave(sign);
    }

    /** Once the client's Close has been handled, the acknowledgements of what it wrote still come, and Close
        returns: after at most two epochs and two deliveries for each unacknowledged number, and one epoch and two
        deliveries more, the signal is given, with every message at the server. */
    method CloseReturns() returns (rounds: nat)
      requires client.conn.windowSize <= server.windowSize
      requires Valid() && ServerUp() && ClientAlive() && Patient() && client.closepend
      requires Seat().pending ==> ServerPatient()
      modifies this`spent, this`crashed, this`toServer, this`toClient, this`up, this`down
      modifies client, client.conn, server, server.conn.Values, server.banclose.Values
      ensures Valid() && client.over > 0 && Drained(client.Sending())
              && rounds <= old(client.sendct - client.conn.seqNo)
      ensures server.Valid() && Seat().Live? && forall n :: |serverGot| < n <= |clientWrote| ==> n in Seat().rcv.readbuf
      ensures clientWrote == old(clientWrote) && Reaches(Up(), old(up), up)
      ensures Within(old(spent), spent, 2 * rounds + 1, 2 * rounds + 2)
    {
      hide Valid, ServerUp, ClientAlive, Patient, Reaches, SeatOf, Drained, ServerFinds, ServerStep;
      ghost var l := up;
      rounds := Drain();
      ghost var m := up;
      Apart();
      LastWord();
      ReachesFurther(Up(), l, m, up);
    }

    // ---------------------------------------------------------------- progress of what the server writes

    /** The server's next epoch does not find the client lost. */
    ghost predicate ServerPatient()
      requires server.Valid() && Seat().Live?
      reads server, server.conn.Values, server.banclose.Values
    {
      !ServerFinds(ServerStep(Seat().counts, Loss.Epoch), server.epochLimit)
    }

    /** An acknowledgement of the server's first unacknowledged number is in transit. */
    ghost predicate OnItsWay()
      requires server.Valid() && Seat().Live?
      reads this`toServer, server, server.conn.Values, server.banclose.Values
    {
      MsgAck(id, Seat().snd.seqNo) in toServer
    }

    /** An epoch of the server. */
    method ServerAsks() returns (n: int, m: Message)
      requires Valid() && ServerAlive() && ServerPatient()
      modifies this`spent, this`toServer, this`toClient, this`up, this`down, server, server.conn.Values
      modifies server.banclose.Values
      ensures Valid() && ServerAlive() && Seat().snd == old(Seat()).snd && Seat().waited == old(Seat()).waited
      ensures serverWrote == old(serverWrote) && Reaches(Down(), old(down), down)
      ensures n == Seat().snd.seqNo && (n in Seat().snd.databuf ==> m == Seat().snd.databuf[n] && m in toClient)
      ensures fresh(server.conn.Values - old(server.conn.Values))
              && fresh(server.banclose.Values - old(server.banclose.Values))
      ensures spent == Plus(old(spent), 1, 0)
    {
      hide Client.Valid, Server.Valid, Inv, Apply, SeatOf, Fits, Reaches, ServerDone, ClientDone, Known, Wires,
           ServerStep, ServerFinds;
      ghost var s := Seat().snd;
      if s.seqNo in s.databuf {
        assert s.databuf[s.seqNo] in Contents(s.databuf);
      }
      ServerEpoch();
      LiveMeans(server, id);
      n := server.conn[id].seqNo;
      m := if n in server.conn[id].databuf then server.conn[id].databuf[n] else MsgConnect;
    }

    /** What it resends reaches the client and is acknowledged. */
    method ServerReaches(m: Message)
      requires server.windowSize <= client.conn.windowSize
      requires Valid() && ServerAlive() && ClientUp() && m in toClient
      requires var s := Seat().snd; s.seqNo in s.databuf && s.databuf[s.seqNo] == m
      modifies this`spent, this`toServer, this`toClient, this`up, this`down, client, client.conn
      ensures Valid() && ServerAlive() && ClientUp() && Patient() && OnItsWay() && Seat() == old(Seat())
      ensures serverWrote == old(serverWrote) && Reaches(Down(), old(down), down)
      ensures spent == Plus(old(spent), 0, 1)
    {
      hide Client.Valid, Server.Valid, Inv, Apply, SeatOf, Reaches, ServerDone, ClientDone, Known, Wires;
      HeadMessage(Down(), down);
      ToClient(m);
    }

    /** Or the client, which has it, repeats its acknowledgement at an epoch. */
    method ServerRecalls()
      requires server.windowSize <= client.conn.windowSize
      requires Valid() && ServerAlive() && ClientUp() && Patient()
      requires var s := Seat().snd; s.seqNo !in s.databuf && s.seqNo < s.sendct
      modifies this`spent, this`toServer, this`toClient, this`up, this`down, client, client.conn
      ensures Valid() && ServerAlive() && ClientUp() && OnItsWay() && MsgAck(id, 0) in toServer && Seat() == old(Seat())
      ensures serverWrote == old(serverWrote) && Reaches(Down(), old(down), down)
      ensures spent == Plus(old(spent), 1, 0)
    {
      hide Client.Valid, Server.Valid, Inv, Apply, SeatOf, Reaches, ServerDone, ClientDone, Known, Wires, ClientStep,
           ClientFinds;
      HeadAck(Down(), down);
      ghost var q := Seat().snd.seqNo;
      ClientEpoch();
      assert client.conn.ackbuf[q] in Contents(client.conn.ackbuf);
    }

    /** The acknowledgement slides the server's window. */
    method ServerHearsIt(n: int)
      requires server.windowSize <= client.conn.windowSize
      requires Valid() && ServerAlive() && !Leaves(Seat()) && n == Seat().snd.seqNo && OnItsWay()
      modifies this`spent, this`crashed, this`toClient, this`up, this`down, server, server.conn.Values
      modifies server.banclose.Values
      ensures Valid() && ServerAlive() && ServerPatient() && !Seat().pending && Seat().waited == old(Seat()).waited
      ensures Seat().snd.seqNo > n && Seat().snd.sendct == old(Seat()).snd.sendct
      ensures serverWrote == old(serverWrote) && Reaches(Down(), old(down), down)
      ensures fresh(server.conn.Values - old(server.conn.Values))
              && fresh(server.banclose.Values - old(server.banclose.Values))
      ensures spent == Plus(old(spent), 0, 1)
    {
      hide Client.Valid, Server.Valid, Inv, Apply, AfterAckAt, TakesAck, SeatOf, Reaches, ServerDone, ClientDone,
           Known, Wires;
      HeadMessage(Down(), down);
      AckOpens(server.windowSize, server.epochLimit, id, Seat(), n);
      AckToServer(MsgAck(id, n));
    }

    /** The client's keep-alive is answered, and the answer ends the client's silence. */
    method Echo()
      requires Valid() && ServerAlive() && !Leaves(Seat()) && !Seat().pending && MsgAck(id, 0) in toServer
      modifies this`spent, this`crashed, this`toClient, this`up, this`down, server, server.conn.Values
      modifies server.banclose.Values
      ensures Valid() && ServerAlive() && ServerPatient() && MsgAck(id, 0) in toClient
      ensures Seat().snd == old(Seat()).snd && Seat().rcv == old(Seat()).rcv && up == old(up)
              && Seat().waited == old(Seat()).waited
      ensures serverWrote == old(serverWrote) && Reaches(Down(), old(down), down)
      ensures fresh(server.conn.Values - old(server.conn.Values))
              && fresh(server.banclose.Values - old(server.banclose.Values))
      ensures spent == Plus(old(spent), 0, 1)
    {
      hide Client.Valid, Server.Valid, Inv, Apply, AfterAckAt, TakesAck, SeatOf, Fits, Reaches, ServerDone, ClientDone,
           Known, Wires;
      HeardInTime(server.windowSize, server.epochLimit, Seat());
      AckToServer(MsgAck(id, 0));
    }

    method Reassure()
      requires Valid() && ClientUp() && MsgAck(id, 0) in toClient
      modifies this`spent, this`toServer, this`toClient, this`up, this`down, client, client.conn
      ensures Valid() && ClientUp() && Patient() && Seat() == old(Seat()) && serverWrote == old(serverWrote)
              && Reaches(Down(), old(down), down)
      ensures spent == Plus(old(spent), 0, 1)
    {
      hide Client.Valid, Server.Valid, Inv, Apply, SeatOf, Fits, Reaches, ServerDone, ClientDone, Known, Wires;
      ToClient(MsgAck(id, 0));
    }

    /** Both ends are there, and neither is about to find the other lost, unless the server's Close only waits for
        the next acknowledgement. */
    ghost predicate Linked()
      requires server.Valid()
      reads this`crashed, client, client.conn, server, server.conn.Values, server.banclose.Values
    {
      ServerAlive() && ClientUp() && (Leaves(Seat()) || (ServerPatient() && Patient()))
    }

    lemma Links()
      requires Valid() && Linked()
      ensures server.Valid() && ServerAlive() && ClientUp() && Seat().Live?
      ensures !Drained(Seat().snd) ==> ServerPatient() && Patient() && Seat().snd.seqNo < Seat().snd.sendct
      ensures id in server.conn && id in server.sendct && Seat().snd == server.Sending(id)
              && Seat().snd.seqNo <= Seat().snd.sendct
      ensures Leaves(Seat()) <==>
              On(server.closepend, id) && server.conn[id].databuf == map[] && server.conn[id].writebuf == map[]
      ensures client.conn !in server.conn.Values
    {
      hide Server.Valid, Client.Valid, SeatOf;
      LiveMeans(server, id);
      ServerBounded();
      WaitedSeat();
    }

    /** What is unacknowledged is in flight or queued. */
    lemma ServerBounded()
      requires Valid() && Seat().Live?
      ensures Seat().snd.seqNo <= Seat().snd.sendct
      ensures Seat().snd.seqNo == Seat().snd.sendct ==> Drained(Seat().snd)
    {
      hide Server.Valid, Client.Valid, SeatOf, Wires, Seen;
      if Seat().snd.seqNo == Seat().snd.sendct {
        NothingLeft(Down().sendWindow, down.sender);
      }
    }

    lemma WaitedSeat()
      requires Valid() && Seat().Live?
      ensures id in server.conn && id in server.sendct && Seat().snd == server.Sending(id)
      ensures Leaves(Seat()) <==>
              On(server.closepend, id) && server.conn[id].databuf == map[] && server.conn[id].writebuf == map[]
    {
      hide Server.Valid, Client.Valid;
      LiveMeans(server, id);
    }

    /** What is in flight is resent and reaches the client. */
    method Resend() returns (n: int)
      requires server.windowSize <= client.conn.windowSize
      requires Valid() && ServerAlive() && ServerPatient() && ClientUp() && Seat().snd.seqNo in Seat().snd.databuf
      modifies this`spent, this`crashed, this`toServer, this`toClient, this`up, this`down
      modifies client, client.conn, server, server.conn.Values, server.banclose.Values
      ensures Valid() && ServerAlive() && ClientUp() && Patient() && OnItsWay() && !Leaves(Seat())
      ensures Seat().snd == old(Seat()).snd && Seat().waited == old(Seat()).waited && n == Seat().snd.seqNo
      ensures serverWrote == old(serverWrote) && Reaches(Down(), old(down), down)
      ensures fresh(server.conn.Values - old(server.conn.Values))
              && fresh(server.banclose.Values - old(server.banclose.Values))
      ensures spent == Plus(old(spent), 1, 1)
    {
      hide Valid, ServerAlive, ServerPatient, ClientUp, Patient, Reaches, OnItsWay, SeatOf;
      ghost var l := down;
      Apart();
      var message;
      n, message := ServerAsks();
      ghost var m := down;
      ServerReaches(message);
      ReachesFurther(Down(), l, m, down);
    }

    /** Resend, delivery, acknowledgement: when the first unacknowledged number is in flight. */
    method Resent()
      requires server.windowSize <= client.conn.windowSize
      requires Valid() && ServerAlive() && ServerPatient() && ClientUp() && Seat().snd.seqNo in Seat().snd.databuf
      modifies this`spent, this`crashed, this`toServer, this`toClient, this`up, this`down
      modifies client, client.conn, server, server.conn.Values, server.banclose.Values
      ensures Valid() && ServerAlive() && ServerPatient() && ClientUp() && Patient()
      ensures Seat().snd.seqNo > old(Seat()).snd.seqNo
              && Seat().snd.sendct == old(Seat()).snd.sendct && Seat().waited == old(Seat()).waited
      ensures serverWrote == old(serverWrote) && Reaches(Down(), old(down), down)
      ensures fresh(server.conn.Values - old(server.conn.Values))
              && fresh(server.banclose.Values - old(server.banclose.Values))
      ensures spent == Plus(old(spent), 1, 2)
    {
      hide Valid, ServerAlive, ServerPatient, ClientUp, Patient, Reaches, OnItsWay, Leaves, SeatOf;
      ghost var l := down;
      var n := Resend();
      ghost var m := down;
      Apart();
      ServerHearsIt(n);
      ReachesFurther(Down(), l, m, down);
    }

    /** The keep-alive of the same epoch comes and goes. */
    method Settled()
      requires Valid() && ServerAlive() && !Leaves(Seat()) && ClientUp() && !Seat().pending && MsgAck(id, 0) in toServer
      modifies this`spent, this`crashed, this`toServer, this`toClient, this`up, this`down
      modifies client, client.conn, server, server.conn.Values, server.banclose.Values
      ensures Valid() && ServerAlive() && ServerPatient() && ClientUp() && Patient()
      ensures Seat().snd == old(Seat()).snd && Seat().waited == old(Seat()).waited
      ensures serverWrote == old(serverWrote) && Reaches(Down(), old(down), down)
      ensures fresh(server.conn.Values - old(server.conn.Values))
              && fresh(server.banclose.Values - old(server.banclose.Values))
      ensures spent == Plus(old(spent), 0, 2)
    {
      hide Valid, ServerAlive, ServerPatient, ClientUp, Patient, Reaches, Leaves, SeatOf;
      ghost var l := down;
      Apart();
      Echo();
      ghost var m := down;
      Apart();
      Reassure();
      ReachesFurther(Down(), l, m, down);
    }

    /** And then the keep-alive sent with it, unless Close only waits for that. */
    method Reassured()
      requires Valid() && ServerAlive() && ClientUp() && !Seat().pending && MsgAck(id, 0) in toServer
      modifies this`spent, this`crashed, this`toServer, this`toClient, this`up, this`down
      modifies client, client.conn, server, server.conn.Values, server.banclose.Values
      ensures Valid() && Linked() && Seat().snd == old(Seat()).snd && Seat().waited == old(Seat()).waited
      ensures serverWrote == old(serverWrote) && Reaches(Down(), old(down), down)
      ensures fresh(server.conn.Values - old(server.conn.Values))
              && fresh(server.banclose.Values - old(server.banclose.Values))
      ensures Within(old(spent), spent, 0, 2)
    {
      hide Valid, ServerPatient, ClientUp, Patient, Reaches, SeatOf, Leaves;
      WaitedSeat();
      ReachesSelf(Down(), down);
      if On(server.closepend, id) && server.conn[id].databuf == map[] && server.conn[id].writebuf == map[] {
        return;
      }
      Settled();
    }

    /** The acknowledgement, and then the keep-alive sent with it. */
    method Regained(n: int)
      requires server.windowSize <= client.conn.windowSize
      requires Valid() && ServerAlive() && !Leaves(Seat()) && ClientUp() && n == Seat().snd.seqNo && OnItsWay()
      requires MsgAck(id, 0) in toServer
      modifies this`spent, this`crashed, this`toServer, this`toClient, this`up, this`down
      modifies client, client.conn, server, server.conn.Values, server.banclose.Values
      ensures Valid() && Linked() && Seat().snd.seqNo > n
              && Seat().snd.sendct == old(Seat()).snd.sendct && Seat().waited == old(Seat()).waited
      ensures serverWrote == old(serverWrote) && Reaches(Down(), old(down), down)
      ensures fresh(server.conn.Values - old(server.conn.Values))
              && fresh(server.banclose.Values - old(server.banclose.Values))
      ensures Within(old(spent), spent, 0, 3)
    {
      hide Valid, ServerAlive, ServerPatient, ClientUp, Patient, Linked, Reaches, OnItsWay, Leaves, SeatOf;
      ghost var l := down;
      Apart();
      ServerHearsIt(n);
      ghost var m := down;
      Reassured();
      ReachesFurther(Down(), l, m, down);
    }

    /** And when only its acknowledgement is missing. */
    method Recalled(n: int)
      requires server.windowSize <= client.conn.windowSize
      requires Valid() && ServerAlive() && !Leaves(Seat()) && ClientUp() && Patient()
      requires n == Seat().snd.seqNo < Seat().snd.sendct && n !in Seat().snd.databuf
      modifies this`spent, this`crashed, this`toServer, this`toClient, this`up, this`down
      modifies client, client.conn, server, server.conn.Values, server.banclose.Values
      ensures Valid() && Linked() && Seat().snd.seqNo > n
              && Seat().snd.sendct == old(Seat()).snd.sendct && Seat().waited == old(Seat()).waited
      ensures serverWrote == old(serverWrote) && Reaches(Down(), old(down), down)
      ensures fresh(server.conn.Values - old(server.conn.Values))
              && fresh(server.banclose.Values - old(server.banclose.Values))
      ensures Within(old(spent), spent, 1, 3)
    {
      hide Valid, ServerAlive, ClientUp, Patient, Linked, Reaches, OnItsWay, Leaves, SeatOf;
      ghost var l := down;
      ServerRecalls();
      ghost var m := down;
      Regained(n);
      ReachesFurther(Down(), l, m, down);
    }

    /** So a round raises the server's `seq` of this connection. */
    method ServerAdvances()
      requires server.windowSize <= client.conn.windowSize
      requires Valid() && Linked() && !Drained(Seat().snd)
      modifies this`spent, this`crashed, this`toServer, this`toClient, this`up, this`down
      modifies client, client.conn, server, server.conn.Values, server.banclose.Values
      ensures Valid() && Linked() && Seat().snd.seqNo > old(Seat()).snd.seqNo
              && Seat().snd.sendct == old(Seat()).snd.sendct && Seat().waited == old(Seat()).waited
      ensures serverWrote == old(serverWrote) && Reaches(Down(), old(down), down)
      ensures fresh(server.conn.Values - old(server.conn.Values))
              && fresh(server.banclose.Values - old(server.banclose.Values))
      ensures Within(old(spent), spent, 1, 3)
    {
      hide Valid, ServerAlive, ServerPatient, ClientUp, Patient, Reaches, SeatOf;
      Links();
      var v := server.conn[id];
      if v.seqNo in v.databuf {
        Resent();
      } else {
        Recalled(v.seqNo);
      }
    }

    /** How many numbers the server has not slid past. */
    ghost predicate Lacks(left: int)
      requires server.Valid()
      reads server, server.conn.Values, server.banclose.Values
    {
      Seat().Live? && Seat().snd.sendct - Seat().snd.seqNo == left >= 0
    }

    /** And whether anything is unacknowledged. */
    method Left() returns (left: int, done: bool)
      requires Valid() && Linked()
      ensures server.Valid() && Lacks(left) && (done <==> Drained(Seat().snd))
    {
      hide Valid, Linked, SeatOf;
      Links();
      var v := server.conn[id];
      left := server.sendct[id] - v.seqNo;
      done := v.databuf == map[] && v.writebuf == map[];
    }

    method ServerRound(left: int) returns (now: int, done: bool)
      requires server.windowSize <= client.conn.windowSize
      requires Valid() && Linked() && Lacks(left) && !Drained(Seat().snd)
      modifies this`spent, this`crashed, this`toServer, this`toClient, this`up, this`down
      modifies client, client.conn, server, server.conn.Values, server.banclose.Values
      ensures Valid() && server.Valid() && Linked() && Lacks(now) && now < left && (done <==> Drained(Seat().snd))
      ensures Seat().waited == old(Seat()).waited
      ensures serverWrote == old(serverWrote) && Reaches(Down(), old(down), down)
      ensures fresh(server.conn.Values - old(server.conn.Values))
              && fresh(server.banclose.Values - old(server.banclose.Values))
      ensures Within(old(spent), spent, 1, 3)
    {
      hide Valid, Linked, Reaches, SeatOf, Drained;
      ServerAdvances();
      now, done := Left();
    }

    method ServerRounds(todo: int, ready: bool) returns (rounds: nat)
      requires server.windowSize <= client.conn.windowSize
      requires Valid() && Linked() && Lacks(todo) && (ready <==> Drained(Seat().snd))
      modifies this`spent, this`crashed, this`toServer, this`toClient, this`up, this`down
      modifies client, client.conn, server, server.conn.Values, server.banclose.Values
      ensures Valid() && server.Valid() && Linked() && Drained(Seat().snd) && rounds <= todo
      ensures Seat().waited == old(Seat()).waited
      ensures serverWrote == old(serverWrote) && Reaches(Down(), old(down), down)
      ensures Within(old(spent), spent, rounds, 3 * rounds)
      ensures fresh(server.conn.Values - old(server.conn.Values))
              && fresh(server.banclose.Values - old(server.banclose.Values))
    {
      hide Valid, Linked, Reaches, Drained, SeatOf, Lacks;
      rounds := 0;
      ghost var l := down;
      ReachesSelf(Down(), l);
      Bounded();
      NoLess(todo);
      var left, done := todo, ready;
      while !done
        invariant Valid() && server.Valid() && Linked() && Lacks(left) && Seat().Live?
        invariant done <==> Drained(Seat().snd)
        invariant serverWrote == old(serverWrote) && Seat().waited == old(Seat()).waited
        invariant Reaches(Down(), l, down) && rounds + left <= todo && left >= 0
        invariant Within(old(spent), spent, rounds, 3 * rounds)
        invariant fresh(server.conn.Values - old(server.conn.Values))
                  && fresh(server.banclose.Values - old(server.banclose.Values))
        decreases left
      {
        ghost var m := down;
        left, done := ServerRound(left);
        ReachesFurther(Down(), l, m, down);
        NoLess(left);
        rounds := rounds + 1;
      }
    }

    lemma NoLess(left: int)
      requires server.Valid() && Lacks(left)
      ensures left >= 0 && Seat().Live?
    {
    }

    /** And at most one round for each unacknowledged number leaves nothing unacknowledged at the server, and the
        client with every message it has not handed to its application; also when Close waits for it. */
    method ServerDrain() returns (rounds: nat)
      requires server.windowSize <= client.conn.windowSize
      requires Valid() && Linked()
      modifies this`spent, this`crashed, this`toServer, this`toClient, this`up, this`down
      modifies client, client.conn, server, server.conn.Values, server.banclose.Values
      ensures Valid() && Linked() && rounds <= old(Seat().snd.sendct - Seat().snd.seqNo)
      ensures Seat().waited == old(Seat()).waited
      ensures serverWrote == old(serverWrote) && Reaches(Down(), old(down), down)
      ensures Drained(Seat().snd) && forall n :: |clientGot| < n <= |serverWrote| ==> n in client.conn.readbuf
      ensures Within(old(spent), spent, rounds, 3 * rounds)
      ensures fresh(server.conn.Values - old(server.conn.Values))
              && fresh(server.banclose.Values - old(server.banclose.Values))
    {
      hide Valid, Linked, Reaches, Drained, SeatOf;
      var left, done := Left();
      rounds := ServerRounds(left, done);
      AllHere();
    }

    lemma AllHere()
      requires Valid() && Linked() && Drained(Seat().snd)
      ensures forall n :: |clientGot| < n <= |serverWrote| ==> n in client.conn.readbuf
    {
      hide Server.Valid, Client.Valid, SeatOf, Wires;
    }

    // ---------------------------------------------------------------- the server's Close lets it go

    /** The next acknowledgement at the server asks for the release of a connection that Close waits for. */
    method Asks(m: Message)
      requires Valid() && !crashed && m in toServer && m.MsgAck? && m.connId == id && Leaves(Seat())
      modifies this`spent, this`toClient, this`up, this`down, this`toServer, server, server.conn.Values
      modifies server.banclose.Values
      ensures Valid() && Seat() == old(Seat()) && down == old(down)
      ensures On(server.closeack, id) && server.scloses > 0
      ensures spent == Plus(old(spent), 0, 1)
    {
      hide Client.Valid, Server.Valid, Inv, SeatOf, Reaches, Forward, ClientFits, ClientDone, Known;
      ReachesSelf(Up(), up);
      ReachesSelf(Down(), down);
      AskRelease(server, id, m);
      NoteHeard(up, down, toServer, toClient);
      ServerActed();
    }

    /** A keep-alive of the client. */
    method Pings()
      requires Valid() && !client.exited
      modifies this`spent, this`toServer, this`toClient, this`up, this`down, client, client.conn
      ensures Valid() && Seat() == old(Seat()) && MsgAck(id, 0) in toServer && serverWrote == old(serverWrote)
      ensures Reaches(Down(), old(down), down) && client.Receiving() == old(client.Receiving())
      ensures spent == Plus(old(spent), 1, 0)
    {
      hide Client.Valid, Server.Valid, Inv, Apply, SeatOf, Fits, Reaches, ServerDone, ClientDone, Known, Wires, Seen,
           ClientStep;
      ClientEpoch();
    }

    method LetOff()
      requires Valid() && ClientUp() && Seat().Live? && Seat().waited && Drained(Seat().snd) && !crashed
      modifies this`spent, this`toServer, this`toClient, this`up, this`down
      modifies client, client.conn, server, server.conn.Values, server.banclose.Values
      ensures Valid() && server.Valid() && Seat().Live? && Drained(Seat().snd)
      ensures client.Receiving() == old(client.Receiving())
      ensures id in server.conn && !server.Blocks(id) && server.scloses > 0
      ensures serverWrote == old(serverWrote) && Reaches(Down(), old(down), down)
      ensures spent == Plus(old(spent), 1, 1)
    {
      hide Valid, Reaches, Drained, SeatOf, Leaves, ClientUp, Server.Blocks, On;
      WaitsForAck();
      Pings();
      Apart();
      Asks(MsgAck(id, 0));
      MarkedAsDone();
    }

    lemma Stays()
      requires Valid() && Linked()
      ensures server.Valid() && ClientUp() && Seat().Live? && !crashed && client.conn !in server.conn.Values
    {
      hide Server.Valid, Client.Valid, SeatOf;
    }

    lemma WaitsForAck()
      requires Valid() && ClientUp() && Seat().Live? && Seat().waited && Drained(Seat().snd)
      ensures !client.exited && Leaves(Seat())
    {
      hide Valid, SeatOf;
    }

    lemma MarkedAsDone()
      requires Valid() && Seat().Live? && On(server.closeack, id)
      ensures server.Valid() && id in server.conn && !server.Blocks(id)
    {
      hide Server.Valid, Client.Valid, SeatOf;
      LiveMeans(server, id);
    }

    /** Once the server's Close waits for this connection, what was written to it is still acknowledged, and then the
        connection keeps Close from returning no longer: after at most one epoch and three deliveries for each
        unacknowledged number, and one of each more, it is marked as done, with every message at the client, and a
        close request is there to release it. */
    method ServerCloseLetsGo() returns (rounds: nat)
      requires server.windowSize <= client.conn.windowSize
      requires Valid() && Linked() && Seat().waited
      modifies this`spent, this`crashed, this`toServer, this`toClient, this`up, this`down
      modifies client, client.conn, server, server.conn.Values, server.banclose.Values
      ensures Valid() && server.Valid() && rounds <= old(Seat().snd.sendct - Seat().snd.seqNo)
      ensures Seat().Live? && Drained(Seat().snd)
      ensures forall n :: |clientGot| < n <= |serverWrote| ==> n in client.conn.readbuf
      ensures id in server.conn && !server.Blocks(id) && server.scloses > 0
      ensures serverWrote == old(serverWrote) && Reaches(Down(), old(down), down)
      ensures Within(old(spent), spent, rounds + 1, 3 * rounds + 1)
    {
      hide Valid, Linked, Reaches, Drained, SeatOf, Server.Blocks, On, ClientUp, Leaves;
      ghost var l := down;
      rounds := ServerDrain();
      ghost var m := down;
      Stays();
      assert client.conn.readbuf == client.Receiving().readbuf;
      LetOff();
      assert client.conn.readbuf == client.Receiving().readbuf;
      ReachesFurther(Down(), l, m, down);
    }

    // ---------------------------------------------------------------- any event

    /** Anything in transit to the server arrives; what names another connection is taken for that. */
    method ToServer(m: Message)
      requires Valid() && !crashed && m in toServer
      modifies this`spent, this`crashed, this`toClient, this`up, this`down, server, server.conn.Values
      modifies server.banclose.Values
      ensures Valid() && Forward()
    {
      hide Client.Valid, Server.Valid, Inv, Apply, Fits, SeatOf, Reaches, Forward, ClientFits, ServerDone, ClientDone,
           Seen;
      InTransit(m, toServer, up.net, down.net);
      if m.MsgData? {
        DataToServer(m);
      } else if m.connId == id {
        AckToServer(m);
      } else {
        OthersHear(m);
      }
    }

    method ConnectRequest(addr: string)
      requires Valid() && !crashed
      modifies this`toClient, server, server.conn.Values
      ensures Valid() && Forward()
    {
      hide Valid, Forward;
      if addr in server.addmap && server.addmap[addr] == id {
        ConnectsAgain(addr);
      } else {
        OthersConnect(addr);
      }
    }

    lemma NotClosing()
      requires Valid() && !server.readclose
      ensures !server.closing
    {
      server.AllLive();
    }

    /** What each application has been handed is what the other wrote first: as many messages as its end has
        counted. */
    lemma Delivered()
      requires Valid()
      ensures serverGot <= clientWrote && clientGot <= serverWrote
      ensures |clientGot| == client.readct - 1 && (Seat().Live? ==> |serverGot| == Seat().rcv.readct - 1)
    {
      hide SeatOf;
    }

    method ClientEvent(e: Event)
      requires Valid() && !client.exited && !e.ClientWrites?
      modifies this, client, client.conn
      ensures Valid() && Forward() && clientWrote == old(clientWrote) && serverWrote == old(serverWrote)
    {
      hide Valid, Forward, ClientDone, ServerDone;
      Stay();
      match e
      case ClientHears(m) => if m in toClient { ToClient(m); }
      case ClientTicks => ClientEpoch();
      case ClientHandles => if client.creads > 0 { ClientRead(); }
      case ClientAsks => if !client.reading && !client.closepend { ClientAsk(); }
      case ClientTakes => if client.reading && client.replyread != [] { ClientTake(); }
      case ClientCloses => ClientClose();
      case ClientReleases => if client.ccloses > 0 { ClientRelease(); }
      case _ =>
    }

    method NetworkEvent(e: Event)
      requires Valid() && !crashed && !e.ServerWrites?
      modifies this, server, server.conn.Values, server.banclose.Values
      ensures Valid() && Forward() && clientWrote == old(clientWrote) && serverWrote == old(serverWrote)
    {
      hide Valid, Forward, ClientDone, ServerDone;
      Stay();
      match e
      case ServerHears(m) => if m in toServer { ToServer(m); }
      case OthersHear(m) => if !m.MsgConnect? && m.connId != id { OthersHear(m); }
      case Connects(addr) => ConnectRequest(addr);
      case ServerTicks => ServerEpoch();
      case _ =>
    }

    method RequestEvent(e: Event)
      requires Valid() && !crashed && !e.ServerWrites?
      modifies this, server, server.conn.Values, server.banclose.Values
      ensures Valid() && Forward() && clientWrote == old(clientWrote) && serverWrote == old(serverWrote)
    {
      hide Valid, Forward, ClientDone, ServerDone;
      Stay();
      match e
      case ServerHandles => if server.sreads > 0 { ServerRead(); }
      case ServerAsks => if !server.reading && !server.readclose { ServerAsk(); }
      case ServerTakes => if server.reading && server.reply != [] { ServerTake(); }
      case OthersWrites(j, p) => if j != id && !server.readclose { NotClosing(); OthersWrite(j, p); }
      case ConnCloses(j) =>
        if !server.readclose {
          NotClosing();
          if j == id { CloseThis(); } else { OthersClose(j); }
        }
      case ServerCloses => ServerClose();
      case ServerReleases => if server.scloses > 0 { ServerRelease(); }
      case _ =>
    }

    method ServerEvent(e: Event)
      requires Valid() && !crashed && !e.ServerWrites?
      modifies this, server, server.conn.Values, server.banclose.Values
      ensures Valid() && Forward() && clientWrote == old(clientWrote) && serverWrote == old(serverWrote)
    {
      hide Valid, Forward;
      if e.ServerHears? || e.OthersHear? || e.Connects? || e.ServerTicks? {
        NetworkEvent(e);
      } else {
        RequestEvent(e);
      }
    }

    twostate lemma Stay()
      requires old(Valid()) && Valid() && unchanged(this) && unchanged(client) && unchanged(server)
      requires Seat() == old(Seat())
      ensures Forward()
    {
      hide Client.Valid, Server.Valid, Inv, SeatOf, Reaches;
      ReachesSelf(Up(), up);
      ReachesSelf(Down(), down);
    }

    method Do(e: Event)
      requires Valid()
      modifies this, client, client.conn, server, server.conn.Values, server.banclose.Values
      ensures Valid() && Forward() && server.Valid()
      ensures clientWrote == old(clientWrote) + if e.ClientWrites? && !old(ClientDone()) then [e.payload] else []
      ensures serverWrote == old(serverWrote) + if e.ServerWrites? && !old(ServerDone()) then [e.payload] else []
    {
      hide Client.Valid, Server.Valid, Inv, Fits, Wires, Seen, ClientFits, SeatOf, Forward;
      Stay();
      if e.ClientWrites? {
        if !client.exited && !client.closepend {
          ClientWrite(e.payload);
        }
      } else if e.ServerWrites? {
        if !crashed && !server.readclose {
          NotClosing();
          ServerWrite(e.payload);
        }
      } else if OfClient(e) {
        if !client.exited {
          ClientEvent(e);
        }
      } else if !crashed {
        ServerEvent(e);
      }
    }
  }

  /** What happens in a run: writes, deliveries of anything in transit, epochs, requests handled, reads asked
      for and answered, the ways of closing, and what the server does for others. */
  datatype Event =
    | ClientWrites(payload: Payload) | ServerWrites(payload: Payload)
    | ClientHears(msg: Message) | ServerHears(msg: Message)
    | ClientTicks | ServerTicks
    | ClientHandles | ServerHandles
    | ClientAsks | ServerAsks | ClientTakes | ServerTakes
    | ConnCloses(j: int) | ClientCloses | ServerCloses | ClientReleases | ServerReleases
    | Connects(addr: string) | OthersHear(msg: Message) | OthersWrites(j: int, p: Payload)

  predicate OfClient(e: Event) {
    e.ClientHears? || e.ClientTicks? || e.ClientHandles? || e.ClientAsks? || e.ClientTakes? || e.ClientCloses?
      || e.ClientReleases?
  }

  /** What the client's, or the server's, application tries to write during a run. */
  function Written(events: seq<Event>, byClient: bool): seq<Payload> {
    if events == [] then []
    else
      var e := events[|events| - 1];
      Written(events[..|events| - 1], byClient)
      + if (byClient && e.ClientWrites?) || (!byClient && e.ServerWrites?) then [e.payload] else []
  }

  /** A server that has accepted some connections, and then the one from `addr`. */
  method Greet(windowSize: int, epochLimit: int, others: seq<string>, addr: string) returns (s: Server, id: int,
               answer: Message)
    requires addr !in others
    ensures fresh(s) && fresh(s.conn.Values) && fresh(s.banclose.Values) && s.Valid()
    ensures s.windowSize == windowSize && s.epochLimit == epochLimit && 1 <= id < s.connCt && answer == MsgAck(id, 0)
    ensures SeatOf(s, id) == Live(Sender(1, 1, map[], map[]), Receiver(1, 1, map[], map[]), false, true, false,
              Counters(0, 0))
  {
    hide Server.Valid;
    s := new Server(windowSize, epochLimit);
    for i := 0 to |others|
      invariant s.Valid() && fresh(s) && fresh(s.conn.Values) && fresh(s.banclose.Values)
      invariant s.windowSize == windowSize && s.epochLimit == epochLimit && 1 <= s.connCt
      invariant forall a :: a in s.addmap ==> a in others
    {
      s.Addresses();
      assert s.At(others[i]) <= s.conn.Values;
      var nothing := s.HandleConnect(others[i]);
    }
    s.Addresses();
    id := s.connCt;
    var out := s.HandleConnect(addr);
    answer := out[0];
  }

  /** A client that has got this answer. */
  method Join(windowSize: int, epochLimit: int, answer: Message) returns (c: Client)
    requires answer.MsgAck? && answer.seqNum == 0
    ensures fresh(c) && fresh(c.conn) && c.Valid() && c.conId == answer.connId
    ensures c.conn.windowSize == windowSize && c.conn.epochLimit == epochLimit
    ensures c.Sending() == Sender(1, 1, map[], map[]) && c.Receiving() == Receiver(1, 1, map[], map[])
  {
    hide AfterAck, AfterData, AckSends, Contents;
    c := new Client(windowSize, epochLimit, "server");
    var nothing := c.HandleReceive(answer);
    c.Established();
  }

  /** Over every run of a server with any number of clients, and of one of these clients, with any windows,
      whatever the network loses, repeats and reorders, however the connection ends, and also if the server
      panics: each application is handed a prefix of what the other tried to write. */
  method Run(clientWindow: int, serverWindow: int, epochLimit: int, others: seq<string>, addr: string,
             events: seq<Event>)
    returns (clientGot: seq<Payload>, serverGot: seq<Payload>)
    requires clientWindow >= 1 && serverWindow >= 1 && addr !in others
    ensures serverGot <= Written(events, true) && clientGot <= Written(events, false)
  {
    hide Pair.Valid, Pair.ClientDone, Pair.ServerDone, Client.Valid, Server.Valid, SeatOf, Reaches;
    var server, id, answer := Greet(serverWindow, epochLimit, others, addr);
    var client := Join(clientWindow, epochLimit, answer);
    var p := new Pair(id, client, server);
    for i := 0 to |events|
      invariant p.Valid() && p.client == client && p.server == server && server.Valid()
      invariant fresh(p) && fresh(client) && fresh(client.conn) && fresh(server)
      invariant fresh(server.conn.Values) && fresh(server.banclose.Values)
      invariant p.clientWrote <= Written(events[..i], true)
                && (!p.ClientDone() ==> p.clientWrote == Written(events[..i], true))
      invariant p.serverWrote <= Written(events[..i], false)
                && (!p.ServerDone() ==> p.serverWrote == Written(events[..i], false))
    {
      assert events[..i + 1][..i] == events[..i];
      p.Do(events[i]);
    }
    p.Delivered();
    assert events[..|events|] == events;
    clientGot, serverGot := p.clientGot, p.serverGot;
  }
}
