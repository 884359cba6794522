// What the server keeps for one connection id, as a value, and what every event of the server does to it.

module Seats {
  import opened ClosedConnection
  import opened Connection
  import opened Loss
  import opened LspServer
  import opened Maps
  import opened Messages
  import opened Window

  /** A live connection, the record of one that went through CloseConn, or nothing. `waited` says that
      Close waits for it. */
  datatype Seat =
    | Live(snd: Sender, rcv: Receiver, lost: bool, pending: bool, waited: bool, counts: Counters)
    | Recorded(left: Buffer)
    | Gone

  ghost function SeatOf(s: Server, id: int): Seat
    requires s.Valid()
    reads s, s.conn.Values, s.banclose.Values
  {
    if id in s.conn then
      Live(s.Sending(id), s.Receiving(id), s.conn[id].losted, id in s.pendconn, On(s.closepend, id),
          s.conn[id].Counts())
    else if id in s.banclose then Recorded(s.banclose[id].databuf)
    else Gone
  }

  lemma LiveMeans(s: Server, id: int)
    requires s.Valid() && SeatOf(s, id).Live?
    ensures id in s.conn && id in s.sendct && SeatOf(s, id).snd == s.Sending(id)
  {
    hide Server.Valid;
    s.AllLive();
  }

  /** A pending connection has received nothing. */
  lemma PendingIsEmpty(s: Server, id: int)
    requires s.Valid() && SeatOf(s, id).Live? && SeatOf(s, id).pending
    ensures SeatOf(s, id).rcv.ackbuf == map[]
  {
    hide Server.Valid;
    s.FineMeans(id);
  }

  /** The connection and the record of any id stay among the objects the server had, or are new; what is
      over does not come back. */
  twostate predicate Onward(s: Server)
    reads s
  {
    && fresh(s.conn.Values - old(s.conn.Values)) && fresh(s.banclose.Values - old(s.banclose.Values))
    && s.connCt >= old(s.connCt) && (old(s.readclose) ==> s.readclose)
  }

  // ---------------------------------------------------------------- messages

  predicate TakesData(seat: Seat, n: int) {
    seat.Live? && !seat.waited && (seat.pending ==> n > 0) && n >= seat.rcv.ack
  }

  function AfterDataAt(w: int, id: int, seat: Seat, m: Message): Seat
    requires m.MsgData?
  {
    if !seat.Live? || seat.waited then seat
    else
      var t := seat.(pending := seat.pending && m.seqNum <= 0);
      if TakesData(seat, m.seqNum)
          then t.(rcv := AfterData(w, id, seat.rcv, m), counts := ServerStep(seat.counts, Heard)) else t
  }

  predicate TakesAck(w: int, seat: Seat, n: int) {
    && seat.Live? && !(seat.waited && Drained(seat.snd)) && n != 0 && (seat.pending ==> n > 0)
    && seat.snd.seqNo <= n <= seat.snd.seqNo + w
  }

  function AfterAckAt(w: int, seat: Seat, n: int): Seat {
    match seat
    case Live(snd, _, _, pending, waited, counts) =>
      if waited && Drained(snd) then seat
      else if !pending && n == 0 then seat.(counts := ServerStep(counts, KeptAlive))
      else
        var t := seat.(pending := pending && n <= 0);
        if TakesAck(w, seat, n) then t.(snd := AfterAck(w, snd, n), counts := ServerStep(counts, Heard)) else t
    case Recorded(left) => if left - {n} == map[] then Gone else Recorded(left - {n})
    case Gone => Gone
  }

  /** A keep-alive that is answered. */
  predicate Echoes(seat: Seat, n: int) {
    n == 0 && seat.Live? && !seat.pending && !(seat.waited && Drained(seat.snd))
  }

  /** What an acknowledgement puts on the network: what it lets into flight, or the answer to a keep-alive. */
  function Answers(w: int, id: int, seat: Seat, n: int): set<Message> {
    if TakesAck(w, seat, n) then AckSends(w, seat.snd, n) else if Echoes(seat, n) then {MsgAck(id, 0)} else {}
  }

  method HearData(s: Server, id: int, m: Message) returns (out: set<Message>, panics: bool)
    requires s.Valid() && m.MsgData? && m.connId == id
    modifies s, s.conn.Values, s.banclose.Values
    ensures s.Valid() && Onward(s)
    ensures SeatOf(s, id) == AfterDataAt(s.windowSize, id, old(SeatOf(s, id)), m)
    ensures out == if TakesData(old(SeatOf(s, id)), m.seqNum) then {MsgAck(id, m.seqNum)} else {}
    ensures panics ==> old(SeatOf(s, id)).Gone?
    ensures var seat, now, n := old(SeatOf(s, id)), SeatOf(s, id), m.seqNum;
            var takes := seat.Live? && !seat.waited && (seat.pending ==> n > 0) && n >= seat.rcv.ack;
            && out == (if takes then {MsgAck(id, n)} else {})
            && now == (if !seat.Live? || seat.waited then seat
                       else
                         var t := if n > 0 then seat.(pending := false) else seat;
                         if takes then t.(rcv := AfterData(s.windowSize, id, seat.rcv, m),
                             counts := Counters(seat.counts.receive, seat.counts.receive))
                         else t)
  {
    hide Server.Valid, AfterData, Elems;
    s.AllLive();
    var sent;
    sent, panics := s.HandleReceive(m);
    s.AllLive();
    out := Elems(sent);
  }

  method AckLive(s: Server, id: int, m: Message) returns (out: set<Message>, panics: bool)
    requires s.Valid() && m.MsgAck? && m.connId == id && id in s.conn
    modifies s, s.conn.Values, s.banclose.Values
    ensures s.Valid() && Onward(s)
    ensures SeatOf(s, id) == AfterAckAt(s.windowSize, old(SeatOf(s, id)), m.seqNum)
    ensures out == Answers(s.windowSize, id, old(SeatOf(s, id)), m.seqNum)
    ensures panics ==> old(SeatOf(s, id)).Gone?
  {
    hide Server.Valid, AfterAck, AckSends, Elems;
    s.AllLive();
    var sent;
    sent, panics := s.HandleReceive(m);
    s.AllLive();
    out := Elems(sent);
  }

  /** The record loses the number, and goes when nothing is left. */
  method AckOwed(s: Server, id: int, m: Message) returns (out: set<Message>, panics: bool)
    requires s.Valid() && m.MsgAck? && m.connId == id && id !in s.conn
    modifies s, s.conn.Values, s.banclose.Values
    ensures s.Valid() && Onward(s) && out == {} && (panics ==> id !in old(s.banclose)) && id !in s.conn
    ensures if id in old(s.banclose) then
              var ban := old(s.banclose)[id];
              && ban.databuf == old(ban.databuf) - {m.seqNum} && (id in s.banclose <==> ban.databuf != map[])
              && (id in s.banclose ==> s.banclose[id] == ban)
            else id !in s.banclose
  {
    hide Server.Valid, AfterAck, AckSends, AfterData, ServerStep, Server.TakesData, Server.TakesAck, Server.Hears,
         Server.Confirms, Server.Closed;
    s.AllLive();
    s.AllBans();
    var sent;
    sent, panics := s.HandleReceive(m);
    out := Elems(sent);
  }

  method AckRecord(s: Server, id: int, m: Message) returns (out: set<Message>, panics: bool)
    requires s.Valid() && m.MsgAck? && m.connId == id && id !in s.conn
    modifies s, s.conn.Values, s.banclose.Values
    ensures s.Valid() && Onward(s) && out == {} && (panics ==> old(SeatOf(s, id)).Gone?)
    ensures SeatOf(s, id) == AfterAckAt(s.windowSize, old(SeatOf(s, id)), m.seqNum)
  {
    hide Server.Valid, AfterAck, Onward;
    out, panics := AckOwed(s, id, m);
  }

  method HearAck(s: Server, id: int, m: Message) returns (out: set<Message>, panics: bool)
    requires s.Valid() && m.MsgAck? && m.connId == id
    modifies s, s.conn.Values, s.banclose.Values
    ensures s.Valid() && Onward(s)
    ensures SeatOf(s, id) == AfterAckAt(s.windowSize, old(SeatOf(s, id)), m.seqNum)
    ensures out == Answers(s.windowSize, id, old(SeatOf(s, id)), m.seqNum)
    ensures panics ==> old(SeatOf(s, id)).Gone?
    ensures var seat, now, n := old(SeatOf(s, id)), SeatOf(s, id), m.seqNum;
            match seat
            case Gone => now == Gone && out == {}
            case Recorded(left) =>
              && out == {}
              && now == if left - {n} == map[] then Gone else Recorded(left - {n})
            case Live(snd, _, _, pending, waited, counts) =>
              var done := waited && snd.databuf == map[] && snd.writebuf == map[];
              var kept := !done && !pending && n == 0;
              var acked := !done && n != 0 && (pending ==> n > 0) && snd.seqNo <= n <= snd.seqNo + s.windowSize;
              var heard := Counters(counts.receive, counts.receive);
              && now.Live?
              && now == (if kept then seat.(counts := heard)
                         else if acked then seat.(pending := false, counts := heard,
                             snd := AfterAck(s.windowSize, snd, n))
                         else if n > 0 && !done then seat.(pending := false) else seat)
              && out == (if kept then {MsgAck(id, 0)}
                         else set k | k in snd.writebuf && k !in now.snd.writebuf :: snd.writebuf[k])
  {
    hide Server.Valid, AckSends;
    if old(SeatOf(s, id)).Live? {
      SentLeavesQueue(s.windowSize, old(SeatOf(s, id)).snd, m.seqNum);
    }
    if id in s.conn {
      out, panics := AckLive(s, id, m);
    } else {
      out, panics := AckRecord(s, id, m);
    }
  }

  /** Once Close waits for a connection that has nothing unacknowledged, any acknowledgement asks for its release. */
  method AskRelease(s: Server, id: int, m: Message)
    requires s.Valid() && m.MsgAck? && m.connId == id
    requires var seat := SeatOf(s, id); seat.Live? && seat.waited && Drained(seat.snd)
    modifies s, s.conn.Values, s.banclose.Values
    ensures s.Valid() && Onward(s) && SeatOf(s, id) == old(SeatOf(s, id))
    ensures On(s.closeack, id) && s.scloses == old(s.scloses) + 1
  {
    hide Server.Valid, AfterAck, AckSends, Elems;
    s.AllLive();
    var sent, panics := s.HandleReceive(m);
    s.AllLive();
  }

  /** An event that leaves the objects and the table entries of `id` alone leaves its seat alone. */
  twostate lemma SeatKept(s: Server, new id: int)
    requires old(s.Valid()) && s.Valid()
    requires if id in old(s.conn) then
               && id in s.conn && s.conn[id] == old(s.conn)[id] && unchanged(s.conn[id])
               && id in s.sendct && id in old(s.sendct) && s.sendct[id] == old(s.sendct)[id]
               && id in s.readct && id in old(s.readct) && s.readct[id] == old(s.readct)[id]
               && (id in s.pendconn <==> id in old(s.pendconn)) && (On(s.closepend, id) <==> old(On(s.closepend, id)))
             else
               && id !in s.conn && (id in s.banclose <==> id in old(s.banclose))
               && (id in s.banclose ==> s.banclose[id] == old(s.banclose)[id] && unchanged(s.banclose[id]))
    ensures SeatOf(s, id) == old(SeatOf(s, id))
  {
    hide Server.Valid;
    s.AllLive();
  }

  method HearBesideLive(s: Server, id: int, m: Message) returns (panics: bool)
    requires s.Valid() && !m.MsgConnect? && m.connId != id && id in s.conn
    modifies s, s.conn.Values, s.banclose.Values
    ensures s.Valid() && Onward(s) && SeatOf(s, id) == old(SeatOf(s, id))
  {
    hide Server.Valid, AfterAck, AckSends, Elems, AfterData, SeatOf, ServerStep, Server.TakesData, Server.TakesAck,
         Server.Hears;
    s.AllLive();
    var sent;
    sent, panics := s.HandleReceive(m);
    s.AllLive();
    SeatKept(s, id);
  }

  method HearBesideRecord(s: Server, id: int, m: Message) returns (panics: bool)
    requires s.Valid() && !m.MsgConnect? && m.connId != id && id !in s.conn
    modifies s, s.conn.Values, s.banclose.Values
    ensures s.Valid() && Onward(s) && SeatOf(s, id) == old(SeatOf(s, id))
  {
    hide Server.Valid, AfterAck, AckSends, Elems, AfterData, SeatOf, ServerStep, Server.TakesData, Server.TakesAck,
         Server.Hears;
    s.AllBans();
    var sent;
    sent, panics := s.HandleReceive(m);
    SeatKept(s, id);
  }

  /** A message for another connection. */
  method HearOther(s: Server, id: int, m: Message) returns (panics: bool)
    requires s.Valid() && !m.MsgConnect? && m.connId != id
    modifies s, s.conn.Values, s.banclose.Values
    ensures s.Valid() && Onward(s) && SeatOf(s, id) == old(SeatOf(s, id))
  {
    hide Server.Valid, SeatOf;
    if id in s.conn {
      panics := HearBesideLive(s, id, m);
    } else {
      panics := HearBesideRecord(s, id, m);
    }
  }

  /** A connect request from its own address: an established connection is heard. */
  method ConnectAgain(s: Server, id: int, addr: string) returns (out: seq<Message>)
    requires s.Valid() && addr in s.addmap && s.addmap[addr] == id
    modifies s, s.conn.Values
    ensures s.Valid() && Onward(s) && out <= [MsgAck(id, 0)]
    ensures var seat := old(SeatOf(s, id));
            seat.Live? && SeatOf(s, id) == if seat.pending then seat
                else seat.(counts := ServerStep(seat.counts, KeptAlive))
  {
    hide Server.Valid, Server.Joined;
    s.AllLive();
    s.Addresses();
    out := s.HandleConnect(addr);
    s.AllLive();
  }

  /** From any other address. */
  method ConnectOther(s: Server, id: int, addr: string)
    requires s.Valid() && 1 <= id < s.connCt && !(addr in s.addmap && s.addmap[addr] == id)
    modifies s, s.conn.Values
    ensures s.Valid() && Onward(s) && SeatOf(s, id) == old(SeatOf(s, id))
  {
    hide Server.Valid, Server.Joined, SeatOf, ServerStep;
    s.AllLive();
    s.Addresses();
    var out := s.HandleConnect(addr);
    s.AllLive();
    SeatKept(s, id);
  }

  // ---------------------------------------------------------------- epochs

  /** What an epoch repeats. */
  ghost function Repeats(seat: Seat): set<Message> {
    match seat
    case Live(snd, rcv, _, pending, _, _) =>
      if pending then {MsgAck(1, 0)} + Contents(snd.databuf) else Contents(rcv.ackbuf) + Contents(snd.databuf)
    case Recorded(left) => Contents(left)
    case Gone => {}
  }

  /** A connection is heard of no more once its silence reaches the limit: then it is gone, or stays for Close,
      lost if it was established; before that, and while a record lasts, everything is repeated. */
  ghost predicate Ticks(epochLimit: int, closing: bool, was: Seat, now: Seat, out: set<Message>) {
    match was
    case Live(_, _, lost, pending, waited, counts) =>
      var next := ServerStep(counts, Epoch);
      if !ServerFinds(next, epochLimit) then now == was.(counts := next) && out == Repeats(was)
      else
        && out == {}
        && now == if if pending then closing else waited then was.(counts := next, lost := lost || !pending) else Gone
    case Recorded(_) => (now == was && out == Repeats(was)) || (now == Gone && out == {})
    case Gone => now == Gone && out == {}
  }

  /** How often Read is still to be told that connection `id` is lost. */
  ghost function Told(s: Server, id: int): nat
    reads s`reply
  {
    multiset(s.reply)[Lost(id)]
  }

  lemma CountReports(before: seq<Reply>, after: seq<Reply>, ids: set<int>, id: int)
    requires before <= after && multiset(after[|before|..]) == multiset(Reports(ids))
    ensures multiset(after)[Lost(id)] == multiset(before)[Lost(id)] + if id in ids then 1 else 0
  {
    assert after == before + after[|before|..];
  }

  ghost predicate Looks(was: View, seat: Seat, closing: bool) {
    && seat.Live? && was.counts == seat.counts && was.losted == seat.lost && was.pending == seat.pending
    && was.waited == seat.waited && was.resends == Repeats(seat)
    && was.awaited == if seat.pending then closing else seat.waited
  }

  lemma LookOfSeat(s: Server, id: int)
    requires s.Valid() && id in s.conn
    ensures id !in s.banclose && Looks(s.Look(id), SeatOf(s, id), s.readclose)
  {
    hide Contents;
    s.Live(id);
  }

  lemma TickedIsTicks(s: Server, id: int, v: Connect, was: View, sent: seq<Message>, seat: Seat)
    requires s.Valid() && s.Ticked(id, v, was, sent) && Looks(was, seat, s.readclose) && id !in s.banclose
    requires id in s.conn ==> s.conn[id] == v && s.Sending(id) == seat.snd && s.Receiving(id) == seat.rcv
    ensures Ticks(s.epochLimit, s.readclose, seat, SeatOf(s, id), Elems(sent))
  {
    hide Server.Valid, Elems, Contents, Repeats;
    s.AllLive();
  }

  /** What changes only in its counters and its loss keeps its two halves. */
  twostate lemma SameHalves(s: Server, new id: int)
    requires id in s.conn && id in old(s.conn) && s.conn[id] == old(s.conn)[id] && id in s.sendct && id in s.readct
    requires id in old(s.sendct) && id in old(s.readct) && s.sendct[id] == old(s.sendct)[id]
             && s.readct[id] == old(s.readct)[id]
    requires var v: Connect := s.conn[id];
             && unchanged(v`seqNo) && unchanged(v`databuf) && unchanged(v`writebuf)
             && unchanged(v`ack) && unchanged(v`ackbuf) && unchanged(v`readbuf)
    ensures s.Sending(id) == old(s.Sending(id)) && s.Receiving(id) == old(s.Receiving(id))
  {
  }

  /** An epoch, and what it tells Read of connection `id`. */
  method EpochTells(s: Server, id: int) returns (bans: seq<Message>, sent: seq<Message>)
    requires s.Valid()
    modifies s`conn, s`addmap, s`readct, s`closepend, s`closeack, s`sendct, s`pendconn, s`banclose, s`reply, s`scloses
    modifies s`givenUp, s.conn.Values`receive, s.conn.Values`losted, s.banclose.Values`rece
    ensures s.Valid() && s.conn.Values <= old(s.conn.Values) && s.banclose.Values <= old(s.banclose.Values)
    ensures id in old(s.conn) ==> s.Ticked(id, old(s.conn)[id], old(s.Look(id)), sent)
    ensures s.conn.Keys <= old(s.conn).Keys
    ensures id in s.conn ==>
              s.conn[id] == old(s.conn)[id] && s.sendct[id] == old(s.sendct)[id] && s.readct[id] == old(s.readct)[id]
    ensures if id in old(s.banclose) then
              s.BanTicked(id, old(s.banclose)[id], old(s.banclose[id].Silence()), bans)
            else id !in s.banclose && bans == []
    ensures id in s.banclose ==> id in old(s.banclose) && s.banclose[id] == old(s.banclose)[id]
    ensures Told(s, id) == old(Told(s, id)) +
              if old(id in s.conn && id !in s.pendconn
                     && ServerFinds(ServerStep(s.conn[id].Counts(), Epoch), s.epochLimit)) then 1
              else 0
  {
    hide Server.Valid, Elems, Server.Ticked, Server.Look, Server.BanTicked, ServerFinds, ServerStep, Reports, On;
    ghost var told, stay;
    var ended, all;
    ended, all, told, stay := s.HandleEpoch();
    CountReports(old(s.reply), s.reply, told, id);
    bans := if id in ended then ended[id] else [];
    sent := if id in all then all[id] else [];
  }

  /** An epoch, for a live connection: it is ticked, its two halves stay, and Read is told of its loss when the
      epoch completes its silence. */
  method TickConn(s: Server, id: int, ghost v: Connect, ghost was: View) returns (sent: seq<Message>)
    requires s.Valid() && id in s.conn && s.conn[id] == v && was == s.Look(id)
    modifies s, s.conn.Values, s.banclose.Values
    ensures s.Valid() && Onward(s) && s.readclose == old(s.readclose) && id !in s.banclose
    ensures s.Ticked(id, v, was, sent)
    ensures id in s.conn ==>
              && s.conn[id] == v && id in s.sendct && id in s.readct && id in old(s.sendct) && id in old(s.readct)
              && s.Sending(id) == old(s.Sending(id)) && s.Receiving(id) == old(s.Receiving(id))
    ensures Told(s, id) == old(Told(s, id)) +
              if old(id !in s.pendconn && ServerFinds(ServerStep(s.conn[id].Counts(), Epoch), s.epochLimit)) then 1
              else 0
  {
    hide Server.Valid, Elems, Server.Ticked, Server.Look, Server.BanTicked, Server.Sending, Server.Receiving,
         ServerFinds, ServerStep, Reports, On, Told;
    s.AllLive();
    s.Live(id);
    var bans;
    bans, sent := EpochTells(s, id);
    s.AllLive();
    if id in s.conn {
      SameHalves(s, id);
    }
  }

  method TickLive(s: Server, id: int) returns (out: set<Message>)
    requires s.Valid() && id in s.conn
    modifies s, s.conn.Values, s.banclose.Values
    ensures s.Valid() && Onward(s) && s.readclose == old(s.readclose)
    ensures Ticks(s.epochLimit, s.readclose, old(SeatOf(s, id)), SeatOf(s, id), out)
    ensures Told(s, id) == old(Told(s, id)) +
              if old(id !in s.pendconn && ServerFinds(ServerStep(s.conn[id].Counts(), Epoch), s.epochLimit)) then 1
              else 0
  {
    hide Server.Valid, Elems, Server.Ticked, Server.Look, Ticks, Onward, Told, ServerFinds, ServerStep;
    LookOfSeat(s, id);
    s.Live(id);
    ghost var v, was, seat := s.conn[id], s.Look(id), SeatOf(s, id);
    var sent := TickConn(s, id, v, was);
    TickedIsTicks(s, id, v, was, sent, seat);
    out := Elems(sent);
  }

  /** An epoch, for a record: it is repeated whole, or goes. */
  method TickOwed(s: Server, id: int) returns (out: set<Message>)
    requires s.Valid() && id !in s.conn
    modifies s, s.conn.Values, s.banclose.Values
    ensures s.Valid() && Onward(s) && s.readclose == old(s.readclose) && id !in s.conn
    ensures if id in old(s.banclose) then
              var ban := old(s.banclose)[id];
              && ban.databuf == old(ban.databuf)
              && if id in s.banclose then s.banclose[id] == ban && out == Contents(ban.databuf) else out == {}
            else id !in s.banclose && out == {}
    ensures Told(s, id) == old(Told(s, id))
  {
    hide Server.Valid, Elems, Contents, Server.Ticked, Server.Look, ServerFinds, ServerStep, Told;
    s.AllBans();
    var bans, sent := EpochTells(s, id);
    s.AllBans();
    NothingSent();
    out := Elems(bans);
  }

  method TickRecord(s: Server, id: int) returns (out: set<Message>)
    requires s.Valid() && id !in s.conn
    modifies s, s.conn.Values, s.banclose.Values
    ensures s.Valid() && Onward(s) && s.readclose == old(s.readclose)
    ensures Ticks(s.epochLimit, s.readclose, old(SeatOf(s, id)), SeatOf(s, id), out)
    ensures Told(s, id) == old(Told(s, id)) && !old(SeatOf(s, id)).Live?
  {
    hide Server.Valid, Contents, Onward, Told;
    out := TickOwed(s, id);
  }

  /** An epoch at one id. Read is told of the loss once, at the epoch that completes the silence of an
      established connection, and never of a connection that is still heard. */
  method TickAt(s: Server, id: int) returns (out: set<Message>)
    requires s.Valid()
    modifies s, s.conn.Values, s.banclose.Values
    ensures s.Valid() && Onward(s) && s.readclose == old(s.readclose)
    ensures Ticks(s.epochLimit, s.readclose, old(SeatOf(s, id)), SeatOf(s, id), out)
    ensures var seat, now := old(SeatOf(s, id)), SeatOf(s, id);
            match seat
            case Gone => now == Gone && out == {} && Told(s, id) == old(Told(s, id))
            case Recorded(left) =>
              && (now == Gone || now == seat) && out == (if now == Gone then {} else Contents(left))
              && Told(s, id) == old(Told(s, id))
            case Live(snd, rcv, lost, pending, waited, counts) =>
              var next := Counters(counts.receive + 1, counts.lastrece);
              if next.receive - next.lastrece + 1 <= s.epochLimit then
                && now == seat.(counts := next) && Told(s, id) == old(Told(s, id))
                && out == Contents(snd.databuf) + if pending then {MsgAck(1, 0)} else Contents(rcv.ackbuf)
              else
                && out == {} && Told(s, id) == old(Told(s, id)) + (if pending then 0 else 1)
                && now == if if pending then s.readclose else waited
                          then seat.(counts := next, lost := lost || !pending) else Gone
  {
    hide Server.Valid, Told, Contents;
    if id in s.conn {
      out := TickLive(s, id);
    } else {
      out := TickRecord(s, id);
    }
  }

  // ---------------------------------------------------------------- requests of the application

  /** A live connection keeps its seat but for its two halves. */
  twostate lemma SeatMoved(s: Server, new id: int)
    requires old(s.Valid()) && s.Valid() && id in s.conn && id in old(s.conn) && s.conn[id] == old(s.conn)[id]
    requires id in s.sendct && id in s.readct && id in old(s.sendct) && id in old(s.readct)
    requires s.conn[id].losted == old(s.conn[id].losted) && s.conn[id].Counts() == old(s.conn[id].Counts())
    requires unchanged(s`pendconn) && unchanged(s`closepend)
    ensures var was := old(SeatOf(s, id));
            && was.Live? && was.snd == old(s.Sending(id)) && was.rcv == old(s.Receiving(id))
            && was.lost == s.conn[id].losted
            && SeatOf(s, id) == was.(snd := s.Sending(id), rcv := s.Receiving(id))
  {
    hide Server.Valid;
  }

  /** One read request: what it takes from `id`, if it takes its message there. */
  method ReadFrom(s: Server, id: int) returns (got: seq<Payload>)
    requires s.Valid() && s.sreads > 0
    modifies s`sreads, s`reply, s`readct, s.conn.Values`readbuf
    ensures s.Valid() && (id in s.conn ==> id in s.readct && id in old(s.readct) && id in s.sendct)
    ensures got == [] ==> id in s.conn ==> s.Receiving(id) == old(s.Receiving(id))
    ensures got != [] ==>
              && id in s.conn && old(s.readct[id] in s.conn[id].readbuf)
              && old(s.conn[id].readbuf[s.readct[id]]).MsgData?
              && got == [old(s.conn[id].readbuf[s.readct[id]]).payload]
              && s.Receiving(id) == AfterRead(old(s.Receiving(id)))
  {
    hide Server.Valid, AfterRead;
    s.AllLive();
    var n := |s.reply|;
    ghost var from := s.HandleRead();
    s.AllLive();
    got := if |s.reply| > n && s.reply[n].msg.connId == id then [s.reply[n].msg.payload] else [];
  }

  method ReadAt(s: Server, id: int) returns (got: seq<Payload>)
    requires s.Valid() && s.sreads > 0
    modifies s`sreads, s`reply, s`readct, s.conn.Values`readbuf
    ensures s.Valid() && Onward(s)
    ensures var seat := old(SeatOf(s, id));
            if got == [] then SeatOf(s, id) == seat
            else
              && seat.Live? && seat.rcv.readct in seat.rcv.readbuf && seat.rcv.readbuf[seat.rcv.readct].MsgData?
              && got == [seat.rcv.readbuf[seat.rcv.readct].payload]
              && SeatOf(s, id) == seat.(rcv := AfterRead(seat.rcv))
  {
    hide Server.Valid, AfterRead, SeatOf;
    s.AllLive();
    s.AllBans();
    got := ReadFrom(s, id);
    if id in s.conn {
      SeatMoved(s, id);
    } else {
      SeatKept(s, id);
    }
  }

  /** A write is taken by a connection that is live and not lost, and then is the sender's step. */
  predicate Writes(w: int, id: int, was: Seat, now: Seat, p: Payload, answer: int, out: seq<Message>) {
    if answer == 1 then
      && was.Live? && !was.lost && now == was.(snd := AfterWrite(w, id, was.snd, p))
      && out == if was.snd.sendct < was.snd.seqNo + w then [MsgData(id, was.snd.sendct, p)] else []
    else now == was && out == [] && (was.Live? ==> was.lost)
  }

  method WriteAt(s: Server, id: int, p: Payload) returns (answer: int, out: seq<Message>)
    requires s.Valid() && !s.closing
    modifies s`sendct, s.conn.Values
    ensures s.Valid() && Onward(s) && Writes(s.windowSize, id, old(SeatOf(s, id)), SeatOf(s, id), p, answer, out)
  {
    hide Server.Valid, AfterWrite;
    s.AllLive();
    s.AllBans();
    answer, out := s.HandleWrite(id, p);
    s.AllLive();
  }

  method WriteOther(s: Server, id: int, j: int, p: Payload)
    requires s.Valid() && !s.closing && j != id
    modifies s`sendct, s.conn.Values
    ensures s.Valid() && Onward(s) && SeatOf(s, id) == old(SeatOf(s, id))
  {
    hide Server.Valid, AfterWrite, SeatOf;
    s.AllLive();
    s.AllBans();
    var answer, out := s.HandleWrite(j, p);
    s.AllLive();
    SeatKept(s, id);
  }

  method CloseHere(s: Server, id: int) returns (out: seq<Message>)
    requires s.Valid() && !s.closing && id in s.conn
    modifies s
    ensures s.Valid() && Onward(s)
    ensures var seat := old(SeatOf(s, id));
            if !seat.pending && !seat.lost then
              SeatOf(s, id) == Recorded(seat.snd.databuf + seat.snd.writebuf)
                && Elems(out) == Contents(seat.snd.writebuf)
            else SeatOf(s, id) == Gone && out == []
  {
    hide Server.Valid, Elems, Contents;
    s.AllLive();
    s.AllBans();
    s.Live(id);
    var answer;
    answer, out := s.HandleCloseConn(id);
    s.AllBans();
    SubmapValues(s.conn, old(s.conn));
  }

  /** CloseConn of an id that is not live changes nothing. */
  method CloseAbsent(s: Server, id: int) returns (out: seq<Message>)
    requires s.Valid() && !s.closing && id !in s.conn
    modifies s
    ensures s.Valid() && Onward(s) && SeatOf(s, id) == old(SeatOf(s, id)) && out == []
  {
    hide Server.Valid, Elems, Contents;
    s.AllBans();
    var answer;
    answer, out := s.HandleCloseConn(id);
    SubmapValues(s.conn, old(s.conn));
  }

  method CloseAt(s: Server, id: int) returns (out: seq<Message>)
    requires s.Valid() && !s.closing
    modifies s
    ensures s.Valid() && Onward(s)
    ensures var seat := old(SeatOf(s, id));
            if seat.Live? && !seat.pending && !seat.lost then
              SeatOf(s, id) == Recorded(seat.snd.databuf + seat.snd.writebuf)
                && Elems(out) == Contents(seat.snd.writebuf)
            else SeatOf(s, id) == (if seat.Live? then Gone else seat) && out == []
  {
    hide Server.Valid, Elems, Contents;
    if id in s.conn {
      out := CloseHere(s, id);
    } else {
      out := CloseAbsent(s, id);
    }
  }

  method CloseOther(s: Server, id: int, j: int)
    requires s.Valid() && !s.closing && j != id
    modifies s
    ensures s.Valid() && Onward(s) && SeatOf(s, id) == old(SeatOf(s, id))
  {
    hide Server.Valid, Elems, Contents, SeatOf;
    s.AllLive();
    s.AllBans();
    var answer, out := s.HandleCloseConn(j);
    s.AllLive();
    s.AllBans();
    SubmapValues(s.conn, old(s.conn));
    SeatKept(s, id);
  }

  /** Close is asked for. */
  method CloseServer(s: Server, id: int)
    requires s.Valid()
    modifies s`readclose, s`scloses
    ensures s.Valid() && Onward(s) && SeatOf(s, id) == old(SeatOf(s, id)) && s.readclose
  {
    hide Server.Valid;
    s.Close();
  }

  /** A close request is handled: no record stays. It waits for a connection that is established, was waited for
      before, or has messages both in flight and queued, unless it is lost or marked as done. A connection that
      stays does so as it was; one that goes is lost or marked as done; when Close is signalled exactly what was
      not waited for stays; and a connection it waits for keeps it from being signalled. */
  method ReleaseAt(s: Server, id: int)
    requires s.Valid() && s.scloses > 0
    modifies s
    ensures s.Valid() && Onward(s)
    ensures var seat, now, done := old(SeatOf(s, id)), SeatOf(s, id), old(On(s.closeack, id));
            if !seat.Live? then now == Gone
            else
              var waits := !seat.pending || seat.waited || (seat.snd.writebuf != map[] && seat.snd.databuf != map[]);
              && (now == Gone || now == seat.(waited := waits))
              && (now == Gone ==> seat.lost || done) && (seat.lost ==> now == Gone)
              && (s.over > old(s.over) ==> (now == Gone <==> waits))
              && (waits && !seat.lost && !done ==> now.Live? && s.over == old(s.over))
  {
    hide Server.Valid, Server.Settled, Server.Stale, Server.Honoured, Server.KeepsPromise, Server.Stales,
         Server.Behind, Server.OpenRecords, Server.Blocks;
    s.AllLive();
    if id in s.conn {
      s.FineMeans(id);
    }
    s.HandleClose();
    s.AllLive();
    SubmapValues(s.conn, old(s.conn));
  }

  method AskAt(s: Server, id: int)
    requires s.Valid() && !s.reading && !s.readclose
    modifies s`sreads, s`reading
    ensures s.Valid() && Onward(s) && SeatOf(s, id) == old(SeatOf(s, id))
  {
    hide Server.Valid;
    s.Read();
  }

  method TakeAt(s: Server, id: int) returns (r: Reply)
    requires s.Valid() && s.reading && s.reply != []
    modifies s`reply, s`reading
    ensures s.Valid() && Onward(s) && SeatOf(s, id) == old(SeatOf(s, id)) && [r] + s.reply == old(s.reply)
  {
    hide Server.Valid;
    r := s.FinishRead();
  }
}
