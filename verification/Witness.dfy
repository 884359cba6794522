// Runs of a new server, and of a second client, in which the promises of Close and of the handshake fail.

module Witness {
  import opened ClosedConnection
  import opened Connection
  import opened Loss
  import opened LspClient
  import opened LspServer
  import opened Messages
  import opened Window

  /** A new server and its first connection, not established yet. */
  method FirstClient(windowSize: int, epochLimit: int) returns (s: Server)
    ensures fresh(s) && s.Valid() && s.windowSize == windowSize && s.epochLimit == epochLimit && s.connCt == 2
    ensures s.conn.Keys == {1} && fresh(s.conn[1]) && s.Joined(1, "first") && s.banclose == map[]
    ensures s.over == 0 && s.scloses == 0 && !s.readclose && !s.closing
  {
    hide Server.Valid;
    s := new Server(windowSize, epochLimit);
    var out := s.HandleConnect("first");
  }

  /** One message written to it. */
  method FirstWrite(windowSize: int, epochLimit: int, payload: Payload) returns (s: Server)
    requires windowSize == 1
    ensures fresh(s) && s.Valid() && s.windowSize == windowSize && s.epochLimit == epochLimit
    ensures s.conn.Keys == {1} && fresh(s.conn[1]) && 1 in s.sendct && s.banclose == map[]
    ensures s.Sending(1) == Sender(1, 2, map[1 := MsgData(1, 1, payload)], map[])
    ensures !s.conn[1].estab && !s.conn[1].losted && s.conn[1].Counts() == Counters(0, 0)
    ensures 1 in s.pendconn && !On(s.closepend, 1)
    ensures s.over == 0 && s.scloses == 0 && !s.readclose && !s.closing
  {
    hide Server.Valid;
    s := FirstClient(windowSize, epochLimit);
    var answer, out := s.HandleWrite(1, payload);
  }

  /** Close returns although a message to a connection it has not heard from yet is still in flight. */
  method CloseSkipsUnestablished(payload: Payload) returns (s: Server)
    ensures fresh(s) && s.Valid() && s.over == 1
    ensures 1 in s.conn && !s.conn[1].losted && s.conn[1].databuf == map[1 := MsgData(1, 1, payload)]
  {
    hide Server.Valid;
    s := FirstWrite(1, 5, payload);
    s.Close();
    s.HandleClose();
  }

  /** The same after data from the client has established the connection. */
  method FirstEstablished(payload: Payload) returns (s: Server)
    ensures fresh(s) && s.Valid() && s.windowSize == 1 && s.epochLimit == 5
    ensures s.conn.Keys == {1} && fresh(s.conn[1]) && 1 in s.sendct && s.banclose == map[]
    ensures s.conn[1].databuf == map[1 := MsgData(1, 1, payload)] && s.conn[1].writebuf == map[]
    ensures !s.conn[1].losted && 1 !in s.pendconn && s.over == 0 && s.scloses == 0 && !s.readclose && !s.closing
  {
    hide Server.Valid, AfterData, Elems, Server.Recorded;
    s := FirstWrite(1, 5, payload);
    ghost var before := s.Sending(1);
    var out, panics := s.HandleReceive(MsgData(1, 1, payload));
    assert s.Sending(1) == before;
  }

  /** Close returns although the record of a connection that went through CloseConn still holds a message. */
  method CloseDropsRecord(payload: Payload) returns (s: Server, ghost ban: Ban)
    ensures fresh(s) && s.Valid() && s.over == 1 && s.banclose == map[]
    ensures fresh(ban) && ban.Valid() && ban.databuf == map[1 := MsgData(1, 1, payload)]
  {
    hide Server.Valid, Elems, Contents;
    s := FirstEstablished(payload);
    var answer, sent := s.HandleCloseConn(1);
    s.AllBans();
    ban := s.banclose[1];
    s.Close();
    s.HandleClose();
  }

  /** Close is called with one message in flight and one queued to a connection not heard from. */
  method ClosePending(payload: Payload) returns (s: Server)
    ensures fresh(s) && s.Valid() && s.conn.Keys == {1} && fresh(s.conn[1]) && s.banclose == map[]
    ensures s.epochLimit == 1 && s.conn[1].Counts() == Counters(0, 0) && s.readclose && s.scloses == 1
    ensures 1 in s.pendconn && !s.conn[1].estab && !s.conn[1].losted
    ensures s.conn[1].databuf != map[] && s.conn[1].writebuf != map[]
  {
    hide Server.Valid;
    s := FirstWrite(1, 1, payload);
    var answer, out := s.HandleWrite(1, payload);
    assert 1 in s.Sending(1).databuf && 2 in s.Sending(1).writebuf;
    s.Close();
  }

  /** The connection stays silent for an epoch, which is the limit, and is marked as done. */
  method SilentAfterClose(payload: Payload) returns (s: Server)
    ensures fresh(s) && s.Valid() && s.conn.Keys == {1} && fresh(s.conn[1]) && fresh(s.banclose.Values) && s.scloses > 0
    ensures 1 in s.pendconn && On(s.closeack, 1)
    ensures !s.conn[1].estab && s.conn[1].databuf != map[] && s.conn[1].writebuf != map[]
  {
    hide Server.Valid, Elems, Contents;
    s := ClosePending(payload);
    var bans, sent, told, stay := s.HandleEpoch();
  }

  /** Close then releases the connection but keeps it pending: the next numbered message that names it makes
      the server fail. */
  method PanicsAfterClose(payload: Payload) returns (s: Server)
    ensures fresh(s) && s.Valid() && s.Panics(1, 1)
  {
    hide Server.Valid, Server.Settled, Server.Stale, Server.Honoured, Server.Stales, Server.Behind, Server.OpenRecords,
         Server.KeepsPromise;
    s := SilentAfterClose(payload);
    s.HandleClose();
  }

  // ---------------------------------------------------------------- what Close drops

  /** After Close a pending connection with a message in flight stays silent for an epoch, which is the limit,
      and is marked as done. */
  method SilentPending(payload: Payload) returns (s: Server)
    ensures fresh(s) && s.Valid() && s.conn.Keys == {1} && fresh(s.conn[1]) && s.banclose.Keys == {}
    ensures s.over == 0 && s.scloses > 0 && s.readclose && !s.closing
    ensures 1 in s.pendconn && On(s.closeack, 1) && !On(s.closepend, 1) && !s.conn[1].losted
    ensures s.conn[1].databuf == map[1 := MsgData(1, 1, payload)]
  {
    hide Server.Valid, Elems, Contents;
    s := ClosedPending(payload);
    EpochGivesUp(s, s.conn[1]);
  }

  /** A pending connection falls silent after Close. */
  method EpochGivesUp(s: Server, v: Connect)
    requires s.Valid() && 1 in s.conn && v == s.conn[1] && s.conn.Keys == {1} && s.banclose.Keys == {}
             && s.epochLimit == 1 && s.readclose
    requires 1 in s.pendconn && !On(s.closepend, 1) && !s.conn[1].losted && s.conn[1].Counts() == Counters(0, 0)
    modifies s, v`receive, v`losted
    ensures s.Valid() && s.conn == old(s.conn) && s.banclose.Keys == {} && s.scloses > 0
    ensures 1 in s.pendconn && On(s.closeack, 1) && !On(s.closepend, 1) && !s.conn[1].losted
    ensures s.over == old(s.over) && s.closing == old(s.closing) && s.readclose
  {
    hide Server.Valid, Elems, Contents, Server.BanTicked, Server.Resends, Reports;
    var bans, sent, told, stay := s.HandleEpoch();
    assert s.conn.Keys == {1};
  }

  method ClosedPending(payload: Payload) returns (s: Server)
    ensures fresh(s) && s.Valid() && s.conn.Keys == {1} && fresh(s.conn[1]) && s.banclose == map[] && s.epochLimit == 1
    ensures s.over == 0 && s.readclose && !s.closing && 1 in s.sendct
    ensures 1 in s.pendconn && !On(s.closepend, 1) && !s.conn[1].losted && s.conn[1].Counts() == Counters(0, 0)
    ensures s.conn[1].databuf == map[1 := MsgData(1, 1, payload)]
  {
    hide Server.Valid;
    s := FirstWrite(1, 1, payload);
    assert s.Sending(1).databuf == map[1 := MsgData(1, 1, payload)];
    s.Close();
  }

  lemma NoRecords(s: Server)
    requires s.banclose.Keys == {}
    ensures s.banclose == map[]
  {
  }

  /** A message from the client arrives after all, and establishes the connection. */
  method HeardAfterAll(payload: Payload) returns (s: Server)
    ensures fresh(s) && s.Valid() && s.conn.Keys == {1} && fresh(s.conn[1]) && s.banclose == map[]
    ensures s.over == 0 && s.scloses > 0 && !s.closing && 1 in s.sendct
    ensures s.conn[1].estab && !s.conn[1].losted && s.conn[1].databuf == map[1 := MsgData(1, 1, payload)]
            && On(s.closeack, 1)
  {
    hide Server.Valid, AfterData, Elems, Server.Recorded;
    s := SilentPending(payload);
    NoRecords(s);
    s.Live(1);
    ghost var before := s.Sending(1);
    var out, panics := s.HandleReceive(MsgData(1, 1, payload));
    s.Live(1);
    assert s.Sending(1) == before;
  }

  /** Close releases it, and returns, although its client is being heard and has not acknowledged the message. */
  method CloseDropsHeard(payload: Payload) returns (s: Server, ghost v: Connect)
    ensures fresh(s) && s.Valid() && s.over == 1 && s.dropped == {1} && !s.KeepsPromise()
    ensures fresh(v) && v.estab && !v.losted && v.databuf == map[1 := MsgData(1, 1, payload)]
  {
    hide Server.Valid, Server.Settled, Server.Honoured, Server.KeepsPromise, Server.Behind;
    s := HeardAfterAll(payload);
    v := s.conn[1];
    s.HistoryMeans();
    assert 1 in s.Sending(1).databuf && s.Stale(1);
    assert s.Stales() == {1} && s.OpenRecords() == {};
    s.HandleClose();
    DroppedIsBroken(s, 1);
  }

  lemma DroppedIsBroken(s: Server, i: int)
    requires i in s.dropped
    ensures !s.KeepsPromise()
  {
  }

  /** Two clients, each with a message in flight. */
  method BothWritten(payload: Payload) returns (s: Server)
    ensures fresh(s) && s.Valid() && s.conn.Keys == {1, 2} && fresh(s.conn[1]) && fresh(s.conn[2])
            && s.banclose == map[]
    ensures s.conn[1] != s.conn[2] && s.windowSize == 1 && s.over == 0 && s.scloses == 0 && !s.readclose && !s.closing
    ensures Waits(s, 1, payload) && Waits(s, 2, payload)
  {
    hide Server.Valid;
    s := SecondClient();
    s.AllLive();
    WriteOne(s, 1, 2, payload);
    WriteOne(s, 2, 1, payload);
  }

  /** A pending connection with its first message in flight. */
  ghost predicate Waits(s: Server, i: int, payload: Payload)
    reads s, s.conn.Values
  {
    && i in s.conn && i in s.sendct && i in s.readct && i in s.pendconn && !On(s.closepend, i) && !On(s.closeack, i)
    && !s.conn[i].losted
    && s.Sending(i) == Sender(1, 2, map[1 := MsgData(i, 1, payload)], map[])
    && s.Receiving(i) == Receiver(1, 1, map[], map[])
  }

  method WriteOne(s: Server, i: int, j: int, payload: Payload)
    requires s.Valid() && s.conn.Keys == {i, j} && i != j && !s.closing && s.windowSize == 1
    requires i in s.sendct && i in s.readct && j in s.sendct && j in s.readct
    requires i in s.pendconn && !On(s.closepend, i) && !On(s.closeack, i) && !s.conn[i].losted
    requires s.Sending(i) == Sender(1, 1, map[], map[]) && s.Receiving(i) == Receiver(1, 1, map[], map[])
    modifies s`sendct, s.conn[i]
    ensures s.Valid() && Waits(s, i, payload) && s.sendct == old(s.sendct)[i := 2]
    ensures s.conn[j] != s.conn[i]
  {
    hide Server.Valid;
    s.Live(i);
    var answer, sent := s.HandleWrite(i, payload);
  }

  /** The message of a client establishes its connection. */
  method HearOne(s: Server, i: int, j: int, payload: Payload)
    requires s.Valid() && s.conn.Keys == {i, j} && i != j && i in s.pendconn && !On(s.closepend, i) && !s.conn[i].losted
    requires i in s.sendct && i in s.readct && j in s.sendct && j in s.readct && s.Receiving(i).ack == 1
             && s.banclose == map[]
    modifies s, s.conn.Values
    ensures s.Valid() && s.conn == old(s.conn) && s.banclose == map[] && s.pendconn == old(s.pendconn) - {i}
    ensures s.sendct == old(s.sendct) && s.readct == old(s.readct) && s.closeack == old(s.closeack)
            && s.closepend == old(s.closepend)
    ensures s.over == old(s.over) && s.scloses == old(s.scloses) && s.readclose == old(s.readclose)
            && s.closing == old(s.closing)
    ensures s.Sending(i) == old(s.Sending(i)) && !s.conn[i].losted && unchanged(s.conn[j])
  {
    hide Server.Valid, AfterData, Elems, Server.Recorded;
    s.AllLive();
    var out, panics := s.HandleReceive(MsgData(i, 1, payload));
    s.AllLive();
  }

  /** Both are established, and the second one has gone through CloseConn. */
  method SecondClosed(payload: Payload) returns (s: Server)
    ensures fresh(s) && s.Valid() && s.conn.Keys == {1} && fresh(s.conn[1]) && s.banclose.Keys == {2}
            && fresh(s.banclose[2])
    ensures s.banclose[2].databuf != map[] && s.windowSize == 1 && s.over == 0 && s.scloses == 0 && !s.readclose
            && !s.closing
    ensures 1 in s.sendct && 1 !in s.pendconn && !On(s.closeack, 1) && !s.conn[1].losted
    ensures s.Sending(1) == Sender(1, 2, map[1 := MsgData(1, 1, payload)], map[])
  {
    hide Server.Valid, Elems, Contents;
    s := BothHeard(payload);
    ghost var two := s.Sending(2);
    assert 1 in two.databuf + two.writebuf;
    var answer, sent := s.HandleCloseConn(2);
    s.AllBans();
    s.AllLive();
  }

  method BothHeard(payload: Payload) returns (s: Server)
    ensures fresh(s) && s.Valid() && s.conn.Keys == {1, 2} && fresh(s.conn[1]) && fresh(s.conn[2])
            && s.banclose == map[]
    ensures s.windowSize == 1 && s.over == 0 && s.scloses == 0 && !s.readclose && !s.closing
    ensures 1 in s.sendct && 2 in s.sendct && 1 !in s.pendconn && 2 !in s.pendconn
    ensures !On(s.closeack, 1) && !s.conn[1].losted && !s.conn[2].losted
    ensures s.Sending(1) == Sender(1, 2, map[1 := MsgData(1, 1, payload)], map[])
    ensures s.Sending(2) == Sender(1, 2, map[1 := MsgData(2, 1, payload)], map[])
  {
    hide Server.Valid;
    s := BothWritten(payload);
    HearOne(s, 1, 2, payload);
    HearOne(s, 2, 1, payload);
  }

  /** The first close request waits for the first connection, and ends the record of the second. */
  method RecordEnded(payload: Payload) returns (s: Server)
    ensures fresh(s) && s.Valid() && s.conn.Keys == {1} && fresh(s.conn[1]) && s.banclose == map[]
    ensures s.over == 0 && s.closing && s.dropped == {2} && |s.requests| == 1 && s.windowSize == 1
    ensures 1 in s.sendct && 1 !in s.pendconn && On(s.closepend, 1) && !s.conn[1].losted
    ensures s.Sending(1) == Sender(1, 2, map[1 := MsgData(1, 1, payload)], map[])
  {
    hide Server.Valid, Server.Settled, Server.Honoured, Server.KeepsPromise, Server.Behind, Server.OpenRecords,
         Server.Stales, Server.Blocks;
    s := SecondClosed(payload);
    ghost var before := s.Sending(1);
    s.Close();
    s.HistoryMeans();
    FirstBlocks(s);
    s.HandleClose();
    s.AllLive();
    assert s.Sending(1) == before;
  }

  lemma FirstBlocks(s: Server)
    requires s.Valid() && s.conn.Keys == {1} && 1 in s.sendct && 1 !in s.pendconn && !On(s.closeack, 1)
             && !s.conn[1].losted
    requires s.banclose.Keys == {2} && s.banclose[2].databuf != map[]
    ensures s.OpenRecords() == {2} && s.Stales() == {} && s.Blocks(1) && s.Holds(s.conn[1], On(s.closepend, 1))
  {
    hide Server.Valid;
    s.Live(1);
  }

  /** Its acknowledgement comes. */
  method FirstAcknowledged(payload: Payload) returns (s: Server)
    ensures fresh(s) && s.Valid() && s.conn.Keys == {1} && fresh(s.conn[1]) && s.banclose == map[]
    ensures s.over == 0 && s.closing && s.dropped == {2} && |s.requests| == 1
    ensures 1 in s.sendct && 1 !in s.pendconn && On(s.closepend, 1) && Drained(s.Sending(1))
  {
    hide Server.Valid, Elems, Server.Recorded, AckSends, AfterAck;
    s := RecordEnded(payload);
    OneWindow(1, MsgData(1, 1, payload));
    var out, panics := s.HandleReceive(MsgAck(1, 1));
  }

  lemma OneWindow(w: int, m: Message)
    requires w == 1
    ensures Drained(AfterAck(w, Sender(1, 2, map[1 := m], map[]), 1))
  {
  }

  /** And then a keep-alive, which asks for its release. */
  method FirstDone(payload: Payload) returns (s: Server)
    ensures fresh(s) && s.Valid() && s.conn.Keys == {1} && fresh(s.conn[1]) && s.banclose == map[]
    ensures s.over == 0 && s.closing && s.dropped == {2} && |s.requests| == 1 && s.scloses > 0
    ensures 1 in s.sendct && 1 !in s.pendconn && On(s.closepend, 1) && On(s.closeack, 1) && Drained(s.Sending(1))
  {
    hide Server.Valid, Elems, Server.Recorded, AfterAck, AckSends;
    s := FirstAcknowledged(payload);
    var out, panics := s.HandleReceive(MsgAck(1, 0));
  }

  /** The second close request finds nothing pending and Close returns: what the record still owed is forgotten. */
  method CloseForgetsRecord(payload: Payload) returns (s: Server)
    ensures fresh(s) && s.Valid() && s.over == 1 && s.dropped == {2} && !s.KeepsPromise()
    ensures |s.requests| == 2 && s.requests[1] == Request({}, {}, {})
  {
    hide Server.Valid, Server.Settled, Server.Honoured, Server.KeepsPromise;
    s := FirstDone(payload);
    s.HistoryMeans();
    s.Live(1);
    assert s.Stales() == {} && s.Behind() == {};
    s.HandleClose();
    DroppedIsBroken(s, 2);
  }

  /** The client has lost the server, and its application has been told so by one Read. Nothing answers a
      second one, or Close: the client has taken its own signal and stopped. */
  method LostBeforeClose() returns (c: Client)
    ensures fresh(c) && c.Valid() && c.exited && c.reading && c.replyread == [] && c.over == 0 && c.ccloses > 0
            && !c.closepend
  {
    hide Client.Valid;
    c := LostClient();
    var lost := c.FinishRead();
    c.Read();
    c.Close();
  }

  method LostClient() returns (c: Client)
    ensures fresh(c) && c.Valid() && c.exited && c.reading && |c.replyread| == 1 && c.over == 0 && !c.closepend
  {
    hide Client.Valid, Elems, Contents;
    c := EstablishedClient();
    c.Read();
    var out := c.HandleEpoch();
  }

  method EstablishedClient() returns (c: Client)
    ensures fresh(c) && fresh(c.conn) && c.Valid() && c.conId == 1 && !c.exited && !c.reading && c.replyread == []
            && c.over == 0
    ensures !c.closepend && c.conn.estab && !c.conn.losted && c.conn.epochLimit == 1
            && c.conn.Counts() == Counters(0, 0)
  {
    hide Client.Valid, Elems, AfterAck, AfterData, AckSends;
    c := new Client(1, 1, "server");
    var out := c.HandleReceive(MsgAck(1, 0));
    c.Established();
  }

  /** A second connection, whose answer is lost. */
  method SecondClient() returns (s: Server)
    ensures fresh(s) && s.Valid() && s.conn.Keys == {1, 2} && fresh(s.conn[1]) && fresh(s.conn[2])
            && s.banclose == map[]
    ensures s.epochLimit == 5 && s.windowSize == 1 && s.over == 0 && s.scloses == 0 && !s.readclose && !s.closing
    ensures 1 in s.readct && s.Joined(1, "first") && s.Joined(2, "second")
  {
    hide Server.Valid, Server.Joined;
    s := FirstClient(1, 5);
    OnlyFirst(s);
    label before:
    var out := s.HandleConnect("second");
    StillJoined@before(s);
  }

  lemma OnlyFirst(s: Server)
    requires s.Valid() && s.conn.Keys == {1} && s.Joined(1, "first")
    ensures "second" !in s.addmap
  {
    hide Server.Valid;
    s.Addresses();
    assert "second"[0] != "first"[0];
  }

  twostate lemma StillJoined(s: Server)
    requires old(s.Joined(1, "first")) && old(s.connCt) == 2 && old(s.conn.Keys) == {1} && 2 in s.conn
             && s.Enlisted("second", s.conn[2])
    requires unchanged(old(s.conn)[1])
    ensures s.Joined(1, "first") && s.conn.Keys == {1, 2} && 1 in s.readct
  {
  }

  /** At the next epoch it is answered again, with the id of the first. */
  method SecondAnswer() returns (s: Server, answer: Message)
    ensures fresh(s) && s.Valid() && 1 in s.conn && fresh(s.conn[1])
    ensures 1 in s.readct && 1 in s.pendconn && s.Receiving(1) == Receiver(1, 1, map[], map[]) && !On(s.closepend, 1)
    ensures answer == MsgAck(1, 0)
  {
    hide Server.Valid, Contents, Elems, Server.Ticked, Server.Resends;
    s := SecondClient();
    ghost var one, two, conn := s.Look(1), s.Look(2), s.conn;
    OnlyAnswer(s);
    var bans, sent, told, stay := s.HandleEpoch();
    s.AllLive();
    NotYetLost(s, 1, conn[1], one, sent[1]);
    NotYetLost(s, 2, conn[2], two, sent[2]);
    OneElem(sent[2], MsgAck(1, 0));
    answer := sent[2][0];
  }

  lemma OnlyAnswer(s: Server)
    requires s.Valid() && 2 in s.conn && s.Joined(2, "second")
    ensures s.Resends(2) == {MsgAck(1, 0)}
  {
    s.Live(2);
  }

  lemma NotYetLost(s: Server, i: int, v: Connect, was: View, sent: seq<Message>)
    requires s.Ticked(i, v, was, sent) && was.counts == Counters(0, 0) && s.epochLimit == 5
    ensures i in s.conn && (i in s.pendconn <==> was.pending) && Elems(sent) == was.resends
  {
  }

  lemma OneElem(out: seq<Message>, m: Message)
    requires Elems(out) == {m}
    ensures |out| > 0 && out[0] == m
  {
    assert m in Elems(out);
    assert out[0] in Elems(out);
  }

  /** A client that takes its id from this answer, and its first message. */
  method SecondWrites(answer: Message, payload: Payload) returns (c: Client, data: seq<Message>)
    requires answer == MsgAck(1, 0)
    ensures fresh(c) && fresh(c.conn) && c.conId == 1 && data == [MsgData(1, 1, payload)]
  {
    hide Client.Valid, Elems, AfterAck, AfterData;
    c := new Client(1, 5, "server");
    var out := c.HandleReceive(answer);
    c.Established();
    data := c.HandleWrite(payload);
  }

  /** What the second client writes arrives as if the first had written it. */
  method SecondTakesFirstId(payload: Payload) returns (s: Server, c: Client)
    ensures c.conId == 1
    ensures fresh(s) && s.Valid() && 1 in s.conn && s.conn[1].readbuf == map[1 := MsgData(1, 1, payload)]
  {
    hide Server.Valid, Elems;
    var answer, data;
    s, answer := SecondAnswer();
    c, data := SecondWrites(answer, payload);
    s.Live(1);
    var out, panics := s.HandleReceive(data[0]);
    assert s.Receiving(1).readbuf == map[1 := MsgData(1, 1, payload)];
  }
}
