// The client's event handlers over its one connection. Every handler is one atomic step; the
// channels between the application and the handler are counted queues.

module LspClient {
  import opened Connection
  import opened Loss
  import opened Messages
  import opened Window

  datatype Reply = Got(msg: Message) | Lost

  class Client {
    const conn: Connect
    var conId: int
    var closepend: bool
    var closeack: bool
    var sendct: int
    var readct: int
    var build: bool

    // The channels: read and close requests waiting for the handler, answers waiting for Read, signals
    // waiting for Close, and whether the handler has been told to stop.
    var creads: nat
    var ccloses: nat
    var replyread: seq<Reply>
    var over: nat
    var exited: bool

    // Whether a Read is waiting for its answer.
    var reading: bool

    function Sending(): Sender
      reads this, conn
    {
      conn.Sending(sendct)
    }

    function Receiving(): Receiver
      reads this, conn
    {
      conn.Receiving(readct)
    }

    ghost predicate Settled()
      reads this, conn
    {
      Drained(Sending()) || conn.losted
    }

    /** Close is told to return only once everything is acknowledged or the connection is lost, and is not
        forgotten then: a request is waiting unless it was told. A waiting Read is never left asleep beside
        its next message. */
    ghost predicate Valid()
      reads this, conn
    {
      && (closepend && !exited ==> conn.estab)
      && (closepend && !exited && (closeack || conn.losted) ==> over > 0 || ccloses > 0)
      && (closeack ==> closepend && Settled())
      && (over > 0 ==> closepend)
      && (over > 0 || exited ==> Settled())
      && (reading && replyread == [] && readct in conn.readbuf ==> creads > 0)
    }

    constructor (windowSize: int, epochLimit: int, addr: string)
      ensures Valid() && fresh(conn)
      ensures conn.windowSize == windowSize && conn.epochLimit == epochLimit
      ensures Sending() == Sender(0, 1, map[], map[]) && Receiving() == Receiver(1, 1, map[], map[])
      ensures conId == 0 && !closepend && !closeack && !conn.estab && !conn.losted && !build && !exited
      ensures creads == 0 && ccloses == 0 && replyread == [] && over == 0 && !reading && conn.Counts() == Counters(0, 0)
    {
      conn := new Connect(windowSize, epochLimit, addr);
      conId, closepend, closeack, sendct, readct, build := 0, false, false, 1, 1, false;
      creads, ccloses, replyread, over, exited, reading := 0, 0, [], 0, false, false;
    }

    /** NewClient returns once the server's first acknowledgement has come. */
    method Established()
      requires Valid() && build && !conn.estab
      modifies this`build, conn`lastrece, conn`estab
      ensures Valid() && conn.estab && !build && conn.Counts() == ClientStep(old(conn.Counts()), KeptAlive)
      ensures Sending() == old(Sending()) && Receiving() == old(Receiving())
    {
      build := false;
      conn.lastrece := conn.receive;
      conn.estab := true;
    }

    // ---------------------------------------------------------------- messages

    /** The server's answer to the connect request. */
    predicate Handshake(m: Message)
      reads this, conn
    {
      m.MsgAck? && m.seqNum == 0 && conId == 0 && !conn.estab && !(closepend && (Drained(Sending()) || conn.losted))
    }

    /** A keep-alive from the server. */
    predicate KeepAlive(m: Message)
      reads this, conn
    {
      m.MsgAck? && m.seqNum == 0 && conId > 0 && conn.estab && !(closepend && (Drained(Sending()) || conn.losted))
    }

    predicate TakesAck(m: Message)
      reads this, conn
    {
      && m.MsgAck? && !Handshake(m) && !KeepAlive(m) && !(closepend && (Drained(Sending()) || conn.losted))
      && conn.seqNo <= m.seqNum <= conn.seqNo + conn.windowSize
    }

    predicate TakesData(m: Message)
      reads this, conn
    {
      m.MsgData? && !closepend && m.seqNum >= conn.ack && !conn.losted && conn.estab
    }

    /** After Close nothing more is taken: the close request is repeated. */
    method Release()
      requires Valid() && closepend && Settled()
      modifies this`closeack, this`ccloses
      ensures Valid() && closeack && ccloses == old(ccloses) + 1
    {
      closeack := true;
      ccloses := ccloses + 1;
    }

    /** The connection id comes with the first answer; the numbers of data start after it. */
    method Meet(id: int)
      requires Valid() && !exited && !(closepend && Settled())
      modifies this`conId, this`build, conn`seqNo
      ensures Valid() && conId == id && build && Sending() == old(Sending()).(seqNo := old(conn.seqNo) + 1)
    {
      conId := id;
      build := true;
      conn.seqNo := conn.seqNo + 1;
    }

    /** An acknowledgement inside the window. */
    method Accept(n: int) returns (out: seq<Message>)
      requires Valid() && !exited && !(closepend && Settled()) && conn.seqNo <= n <= conn.seqNo + conn.windowSize
      modifies conn`receive, conn`seqNo, conn`databuf, conn`writebuf
      ensures Valid() && conn.Counts() == ClientStep(old(conn.Counts()), Heard)
      ensures Sending() == AfterAck(conn.windowSize, old(Sending()), n)
      ensures Elems(out) == AckSends(conn.windowSize, old(Sending()), n)
    {
      hide AfterAck, AckSends, Elems;
      conn.receive := conn.lastrece;
      out := conn.TakeAck(n, sendct);
    }

    /** A data message at or above `ack`; each new one wakes a Read. */
    method Store(m: Message) returns (out: seq<Message>)
      requires Valid() && m.MsgData? && m.seqNum >= conn.ack
      modifies this`creads, conn`receive, conn`ack, conn`ackbuf, conn`readbuf
      ensures Valid() && conn.Counts() == ClientStep(old(conn.Counts()), Heard)
      ensures Receiving() == AfterData(conn.windowSize, conId, old(Receiving()), m) && out == [MsgAck(conId, m.seqNum)]
      ensures creads == old(creads) + if m.seqNum !in old(conn.ackbuf) then 1 else 0
    {
      hide AfterData;
      conn.receive := conn.lastrece;
      var first;
      out, first := conn.TakeData(conId, m, readct);
      if first {
        creads := creads + 1;
      }
    }

    method HandleAck(id: int, n: int) returns (out: seq<Message>)
      requires Valid() && !exited && !(closepend && Settled())
      modifies this`conId, this`build, conn`receive, conn`lastrece, conn`seqNo, conn`databuf, conn`writebuf
      ensures var m := MsgAck(id, n);
              && Valid() && conId == (if old(Handshake(m)) then id else old(conId))
              && build == (old(build) || old(Handshake(m)))
              && Sending() == (if old(Handshake(m)) then old(Sending()).(seqNo := old(conn.seqNo) + 1)
                               else if old(TakesAck(m)) then AfterAck(conn.windowSize, old(Sending()), n)
                               else old(Sending()))
              && conn.Counts() == old(Counted(m))
              && Elems(out) == if old(TakesAck(m)) then AckSends(conn.windowSize, old(Sending()), n) else {}
    {
      hide Valid, AfterAck, AckSends, Elems;
      out := [];
      NothingSent();
      if conId == 0 && n == 0 && !conn.estab {
        Meet(id);
        return;
      }
      if conId > 0 && n == 0 && conn.estab {
        KeepOn();
        return;
      }
      if conn.seqNo <= n <= conn.seqNo + conn.windowSize {
        out := Accept(n);
      }
    }

    method KeepOn()
      requires Valid()
      modifies conn`lastrece
      ensures Valid() && conn.Counts() == ClientStep(old(conn.Counts()), KeptAlive)
    {
      conn.lastrece := conn.receive;
    }

    /** What a message does to the counters of silence. */
    function Counted(m: Message): Counters
      reads this, conn
    {
      if KeepAlive(m) then ClientStep(conn.Counts(), KeptAlive)
      else if TakesAck(m) || TakesData(m) then ClientStep(conn.Counts(), Heard)
      else conn.Counts()
    }

    /** A message that Close does not keep the handler from. */
    method Handle(m: Message) returns (out: seq<Message>)
      requires Valid() && !exited && !m.MsgConnect? && !(closepend && Settled()) && (closepend ==> m.MsgAck?)
      modifies this`conId, this`build, this`creads, conn
      ensures Valid() && unchanged(this`sendct, this`readct, this`closepend, this`exited, this`reading, this`replyread,
                this`over, this`closeack, this`ccloses)
      ensures conn.losted == old(conn.losted) && conn.estab == old(conn.estab)
      ensures Sending() == if old(Handshake(m)) then old(Sending()).(seqNo := old(conn.seqNo) + 1)
                           else if old(TakesAck(m)) then AfterAck(conn.windowSize, old(Sending()), m.seqNum)
                           else old(Sending())
      ensures Receiving() == if old(TakesData(m)) then AfterData(conn.windowSize, conId, old(Receiving()), m)
                else old(Receiving())
      ensures conId == if old(Handshake(m)) then m.connId else old(conId)
      ensures conn.Counts() == old(Counted(m))
      ensures build == (old(build) || old(Handshake(m)))
      ensures creads == old(creads) + if old(TakesData(m)) && m.seqNum !in old(conn.ackbuf) then 1 else 0
      ensures Elems(out) == if old(TakesAck(m)) then AckSends(conn.windowSize, old(Sending()), m.seqNum)
                            else if old(TakesData(m)) then {MsgAck(conId, m.seqNum)} else {}
    {
      hide Valid, AfterAck, AfterData, AckSends, Elems;
      out := [];
      NothingSent();
      match m
      case MsgAck(id, n) => out := HandleAck(id, n);
      case MsgData(_, n, _) =>
        if n >= conn.ack && !conn.losted && conn.estab {
          out := Store(m);
          OneSent(MsgAck(conId, n));
        }
    }

    /** A message from the network, branch by branch: it lets a pending Close go, is the answer to the connect
        request, a keep-alive, an acknowledgement the window takes, data that is stored, or nothing. */
    method HandleReceive(m: Message) returns (out: seq<Message>)
      requires Valid() && !exited
      modifies this, conn
      ensures Valid() && unchanged(this`sendct, this`readct, this`closepend, this`exited, this`reading, this`replyread,
                this`over)
      ensures conn.losted == old(conn.losted) && conn.estab == old(conn.estab)
      ensures var done := old(closepend && ((conn.writebuf == map[] && conn.databuf == map[]) || conn.losted));
              var met := m.MsgAck? && m.seqNum == 0 && old(conId == 0 && !conn.estab) && !done;
              var kept := m.MsgAck? && m.seqNum == 0 && old(conId > 0 && conn.estab) && !done;
              var acked := m.MsgAck? && !met && !kept && !done
                           && old(conn.seqNo) <= m.seqNum <= old(conn.seqNo) + conn.windowSize;
              var stored := m.MsgData? && old(!closepend && !conn.losted && conn.estab) && m.seqNum >= old(conn.ack);
              && Sending() == (if met then old(Sending()).(seqNo := old(conn.seqNo) + 1)
                               else if acked then AfterAck(conn.windowSize, old(Sending()), m.seqNum)
                               else old(Sending()))
              && Receiving() == (if stored then AfterData(conn.windowSize, conId, old(Receiving()), m)
                                 else old(Receiving()))
              && conId == (if met then m.connId else old(conId)) && build == (old(build) || met)
              && conn.Counts() == (if kept then old(Counters(conn.receive, conn.receive))
                                   else if acked || stored then old(Counters(conn.lastrece, conn.lastrece))
                                   else old(conn.Counts()))
              && closeack == (old(closeack) || (done && !m.MsgConnect?))
              && ccloses == old(ccloses) + (if done && !m.MsgConnect? then 1 else 0)
              && creads == old(creads) + (if stored && m.seqNum !in old(conn.ackbuf) then 1 else 0)
              && Elems(out) == (if acked then set k | k in old(conn.writebuf) && k !in conn.writebuf
                                  :: old(conn.writebuf)[k]
                                else if stored then {MsgAck(conId, m.seqNum)} else {})
    {
      hide Valid, AfterAck, AfterData, AckSends, Elems;
      out := [];
      NothingSent();
      if m.MsgAck? {
        SentLeavesQueue(conn.windowSize, Sending(), m.seqNum);
      }
      if m.MsgConnect? {
        return;
      }
      if closepend && conn.writebuf == map[] && conn.databuf == map[] {
        Release();
        return;
      }
      if closepend && conn.losted {
        Release();
        return;
      }
      if closepend && !m.MsgAck? {
        return;
      }
      out := Handle(m);
    }

    // ---------------------------------------------------------------- epochs

    /** An epoch: ask again for the connection, or keep it alive, count the silence, give the connection up
        when the silence reaches the limit, and, unless that ends the client, resend what is not acknowledged. */
    method HandleEpoch() returns (out: seq<Message>)
      requires Valid() && !exited
      modifies this, conn
      ensures Valid() && unchanged(this`sendct, this`readct, this`conId, this`build, this`closepend, this`creads,
                this`reading)
      ensures Sending() == old(Sending()) && Receiving() == old(Receiving())
      ensures conn.Counts() == ClientStep(old(conn.Counts()), if conId == 0 then KeptAlive else Epoch)
      ensures conId == 0 ==> Elems(out) == {MsgConnect} && unchanged(this) && conn.estab == old(conn.estab)
      ensures conId != 0 ==>
                Elems(out) == {MsgAck(conId, 0)} + if exited then {} else Contents(conn.ackbuf) + Contents(conn.databuf)
      ensures conn.losted == (old(conn.losted) || (conId != 0 && ClientFinds(conn.Counts(), conn.epochLimit)))
      ensures conId != 0 && !ClientFinds(conn.Counts(), conn.epochLimit) ==>
                unchanged(this) && conn.estab == old(conn.estab)
      ensures conId != 0 && ClientFinds(conn.Counts(), conn.epochLimit) ==>
                && replyread == old(replyread) + [Lost] && ccloses == old(ccloses) + 1 && over == old(over)
                && if closepend then closeack && !exited && conn.estab == old(conn.estab)
                   else exited && !conn.estab && closeack == old(closeack)
    {
      hide Valid, Contents, Elems;
      if conId == 0 {
        KeepOn();
        out := [MsgConnect];
        OneSent(MsgConnect);
        return;
      }
      out := [MsgAck(conId, 0)];
      OneSent(MsgAck(conId, 0));
      Count();
      if conn.receive - conn.lastrece >= conn.epochLimit {
        Lose();
      }
      if exited {
        // The socket is closed: nothing that is written to it is sent.
        return;
      }
      var held := Resend();
      BothSent(out, held);
      out := out + held;
    }

    method Count()
      requires Valid()
      modifies conn`receive
      ensures Valid() && conn.Counts() == ClientStep(old(conn.Counts()), Epoch)
    {
      conn.receive := conn.receive + 1;
    }

    /** The server is lost: a waiting Read is told, a pending Close is asked again, and without one the client ends. */
    method Lose()
      requires Valid() && !exited
      modifies this`replyread, this`closeack, this`ccloses, this`exited, conn`losted, conn`estab
      ensures Valid() && conn.losted && replyread == old(replyread) + [Lost] && ccloses == old(ccloses) + 1
      ensures if closepend then closeack && !exited && conn.estab == old(conn.estab)
              else exited && !conn.estab && closeack == old(closeack)
    {
      conn.losted := true;
      replyread := replyread + [Lost];
      if closepend {
        closeack := true;
        ccloses := ccloses + 1;
      } else {
        GiveUp();
      }
    }

    /** Everything held: acknowledgements in case they were lost, and what is not acknowledged. */
    method Resend() returns (out: seq<Message>)
      ensures Elems(out) == Contents(conn.ackbuf) + Contents(conn.databuf)
    {
      var acks := SendAll(conn.ackbuf);
      var data := SendAll(conn.databuf);
      BothSent(acks, data);
      out := acks + data;
    }

    /** The handler signals itself and closes: Close posts its request, takes that signal and stops everything. */
    method GiveUp()
      modifies this`ccloses, this`exited, conn`estab
      ensures ccloses == old(ccloses) + 1 && exited && !conn.estab
    {
      ccloses := ccloses + 1;
      exited := true;
      conn.estab := false;
    }

    // ---------------------------------------------------------------- requests of the application

    /** Read: the request is queued. */
    method Read()
      requires Valid() && !reading && !closepend
      modifies this`creads, this`reading
      ensures Valid() && creads == old(creads) + 1 && reading
    {
      creads := creads + 1;
      reading := true;
    }

    /** The answer a waiting Read takes. */
    method FinishRead() returns (r: Reply)
      requires Valid() && reading && replyread != []
      modifies this`replyread, this`reading
      ensures Valid() && !reading && [r] + replyread == old(replyread)
    {
      r := replyread[0];
      replyread := replyread[1..];
      reading := false;
    }

    /** One read request: at most one message, the next in order, is handed over. */
    method HandleRead()
      requires Valid() && !exited && creads > 0
      modifies this`creads, this`readct, this`replyread, conn`readbuf
      ensures Valid() && creads == old(creads) - 1
      ensures Sending() == old(Sending()) && Receiving() == AfterRead(old(Receiving()))
      ensures replyread == old(replyread) + if old(readct) in old(conn.readbuf)
                then [Got(old(conn.readbuf)[old(readct)])] else []
    {
      creads := creads - 1;
      var r := conn.Pop(readct);
      if r != [] {
        readct := readct + 1;
        replyread := replyread + [Got(r[0])];
      }
    }

    /** Write: sent at once inside the window, queued beyond it. It is not called after Close. */
    method HandleWrite(payload: Payload) returns (out: seq<Message>)
      requires Valid() && !exited && !closepend
      modifies this`sendct, conn`databuf, conn`writebuf
      ensures Valid() && sendct == old(sendct) + 1
      ensures Sending() == AfterWrite(conn.windowSize, conId, old(Sending()), payload)
              && Receiving() == old(Receiving())
      ensures out == if old(sendct) < conn.seqNo + conn.windowSize then [MsgData(conId, old(sendct), payload)] else []
    {
      out := conn.Put(conId, sendct, payload);
      sendct := sendct + 1;
    }

    method Close()
      requires Valid()
      modifies this`ccloses
      ensures Valid() && ccloses == old(ccloses) + 1
    {
      ccloses := ccloses + 1;
    }

    /** One close request: the signal that lets Close return is given exactly when the connection is lost,
        or was found with nothing unacknowledged since the first such request. */
    method HandleClose()
      requires Valid() && !exited && ccloses > 0
      modifies this`ccloses, this`closepend, this`over
      ensures Valid() && ccloses == old(ccloses) - 1
      ensures over == old(over) + if conn.estab && (conn.losted || closeack) then 1 else 0
      ensures over > old(over) ==> Settled()
      ensures closepend == (old(closepend) || conn.estab)
    {
      ccloses := ccloses - 1;
      if conn.estab {
        closepend := true;
        if !conn.losted {
          if closeack {
            over := over + 1;
          }
        } else {
          over := over + 1;
        }
      }
    }
  }
}
