// The server's event handlers over all its connections. Every handler is one atomic step; the
// channels between the application and the handler are counted queues.

module LspServer {
  import opened ClosedConnection
  import opened Connection
  import opened Loss
  import opened Maps
  import opened Messages
  import opened Window

  datatype Reply = Got(msg: Message) | Lost(connId: int)

  /** What a close request found: records with messages left, connections it released although they were
      established, not lost and had messages left, and connections it did not wait for that had some. */
  datatype Request = Request(openRecords: set<int>, stale: set<int>, behind: set<int>)

  /** What a Go map from ids to booleans answers: a missing key is false. */
  predicate On(flags: map<int, bool>, i: int) {
    i in flags && flags[i]
  }

  /** Everything a connection holds for sending carries its own id and its own number. */
  ghost predicate Stamped(id: int, databuf: Buffer, writebuf: Buffer, ackbuf: Buffer) {
    && (forall k :: k in databuf ==> databuf[k].MsgData? && databuf[k].connId == id && databuf[k].seqNum == k)
    && (forall k :: k in writebuf ==> writebuf[k].MsgData? && writebuf[k].connId == id && writebuf[k].seqNum == k)
    && (forall k :: k in ackbuf ==> ackbuf[k] == MsgAck(id, k))
  }

  /** Everything a connection holds for Read came to it. */
  ghost predicate Addressed(id: int, readbuf: Buffer) {
    forall k :: k in readbuf ==> readbuf[k].MsgData? && readbuf[k].connId == id && readbuf[k].seqNum == k
  }

  lemma AddressedAt(id: int, readbuf: Buffer, k: int)
    requires Addressed(id, readbuf) && k in readbuf
    ensures readbuf[k].MsgData? && readbuf[k].connId == id && readbuf[k].seqNum == k
  {
  }

  lemma StampedEmpty(id: int)
    ensures Stamped(id, map[], map[], map[]) && Addressed(id, map[])
  {
  }

  lemma AckKeepsStamps(w: int, id: int, s: Sender, ackbuf: Buffer, n: int)
    requires Stamped(id, s.databuf, s.writebuf, ackbuf)
    ensures var t := AfterAck(w, s, n); Stamped(id, t.databuf, t.writebuf, ackbuf)
  {
  }

  /** A connection as an epoch finds it: its counters, whether it is lost, pending, marked as done or
      waited for by Close, whether the tables keep it when it expires, and what would be resent. */
  datatype View = View(counts: Counters, losted: bool, pending: bool, done: bool, waited: bool, awaited: bool,
      resends: set<Message>)

  lemma DataKeepsStamps(w: int, id: int, databuf: Buffer, writebuf: Buffer, r: Receiver, m: Message)
    requires m.MsgData? && Stamped(id, databuf, writebuf, r.ackbuf)
    ensures Stamped(id, databuf, writebuf, AfterData(w, id, r, m).ackbuf)
  {
  }

  lemma WriteKeepsStamps(w: int, id: int, s: Sender, ackbuf: Buffer, payload: Payload)
    requires Stamped(id, s.databuf, s.writebuf, ackbuf)
    ensures var t := AfterWrite(w, id, s, payload); Stamped(id, t.databuf, t.writebuf, ackbuf)
  {
  }

  /** The answers that tell Read of the loss of these connections. */
  function Reports(ids: set<int>): set<Reply> {
    set i | i in ids :: Lost(i)
  }

  lemma ReportsMore(ids: set<int>, i: int)
    requires i !in ids
    ensures multiset(Reports(ids + {i})) == multiset(Reports(ids)) + multiset{Lost(i)}
  {
    assert Reports(ids + {i}) == Reports(ids) + {Lost(i)} && Lost(i) !in Reports(ids);
  }

  lemma AllGone(stale: set<int>, behind: set<int>, after: set<int>)
    requires (forall i :: i in stale ==> i !in after) && (forall i :: i in behind ==> i in after)
    ensures stale - after == stale && (stale + behind) * after == behind
  {
    assert forall i :: i in stale - after <==> i in stale;
    assert forall i :: i in (stale + behind) * after <==> i in behind;
  }

  lemma ReleasedOnly(before: set<int>, after: set<int>, releasable: set<int>, owing: set<int>, stale: set<int>)
    requires before - after <= releasable && owing <= before && stale <= before
             && owing * releasable == stale * releasable
    ensures owing - after == stale - after
  {
    forall i | i in before && i !in after
      ensures i in owing <==> i in stale
    {
      assert i in releasable;
      assert i in owing <==> i in owing * releasable;
      assert i in stale <==> i in stale * releasable;
    }
  }

  class Server {
    const windowSize: int
    const epochLimit: int
    var conn: map<int, Connect>
    var addmap: map<string, int>
    var pendconn: map<int, int>
    var closepend: map<int, bool>
    var closeack: map<int, bool>
    var sendct: map<int, int>
    var readct: map<int, int>
    var banclose: map<int, Ban>
    var connCt: int
    var readclose: bool

    // The channels: read and close requests waiting for the handler, answers waiting for Read, signals
    // waiting for Close.
    var sreads: nat
    var scloses: nat
    var reply: seq<Reply>
    var over: nat

    // Whether a Read is waiting for its answer, whether a close request has been handled, and which
    // connections fell silent after Close before they were established.
    var reading: bool
    ghost var closing: bool
    ghost var givenUp: set<int>

    // What the close requests found, and which clients Close has let go of although messages to them were
    // unacknowledged and they were not lost.
    ghost var requests: seq<Request>
    ghost var dropped: set<int>

    function Sending(i: int): Sender
      requires i in conn && i in sendct
      reads this`conn, this`sendct, conn[i]
    {
      conn[i].Sending(sendct[i])
    }

    function Receiving(i: int): Receiver
      requires i in conn && i in readct
      reads this`conn, this`readct, conn[i]
    {
      conn[i].Receiving(readct[i])
    }

    /** The tables agree: addresses and live connections are inverse, ids are below the counter, the
        write counters are those of the live connections. */
    ghost predicate Tables()
      reads this`conn, this`addmap, this`sendct, this`readct, this`connCt
    {
      && 1 <= connCt
      && (forall i :: i in conn ==>
           1 <= i < connCt && conn[i].windowSize == windowSize && conn[i].epochLimit == epochLimit)
      && (forall i :: i in conn ==> conn[i].addr in addmap && addmap[conn[i].addr] == i)
      && (forall a :: a in addmap ==> addmap[a] in conn && conn[addmap[a]].addr == a)
      && (forall i :: i in sendct <==> i in conn)
      && (forall i :: i in conn ==> i in readct)
    }

    /** No table mentions an id not given out yet, and closed connections are not live. */
    ghost predicate Issued()
      reads this`conn, this`closepend, this`closeack, this`pendconn, this`banclose, this`connCt, this`givenUp
      reads this`closing, this`readclose, this`scloses, this`requests, this`dropped
    {
      && (forall i :: i in closeack ==> i < connCt)
      && (forall i :: i in givenUp ==> i < connCt)
      && (forall i :: On(closepend, i) ==> i in conn && closing)
      && (forall i :: i in pendconn ==> pendconn[i] == 1 && i < connCt && (i in conn || closing))
      && (forall i :: i in banclose ==>
           i < connCt && i !in conn && i !in pendconn && banclose[i].id == i && banclose[i].epochLimit == epochLimit)
      && (closing || scloses > 0 ==> readclose)
      && (if closing then forall i :: i !in banclose else requests == [] && dropped == {})
    }

    /** What the server may stop waiting for: acknowledged, lost, or never established in time. */
    ghost predicate Settled(i: int)
      requires i in conn && i in sendct
      reads this`conn, this`sendct, this`givenUp, conn[i]
    {
      Drained(Sending(i)) || conn[i].losted || i in givenUp
    }

    /** A message of connection `i` is next in order and may be handed to Read. */
    ghost predicate Readable(i: int)
      requires i in conn && i in readct
      reads this`conn, this`readct, this`pendconn, conn[i]
    {
      i !in pendconn && readct[i] in conn[i].readbuf
    }

    /** One connection: it is pending exactly until it is established, and has received nothing until then;
        what it holds for sending is its own; it is marked as done only when it is settled; and a waiting
        Read is never left asleep beside its next message. */
    ghost predicate Fine(i: int)
      requires i in conn && i in sendct && i in readct
      reads this`conn, this`sendct, this`readct, this`pendconn, this`closeack, this`closing, this`givenUp
      reads this`reading, this`reply, this`sreads, conn[i]
    {
      && (i in pendconn <==> !conn[i].estab)
      && (i in pendconn ==> !conn[i].losted && readct[i] !in conn[i].readbuf && conn[i].ackbuf == map[])
      && Stamped(i, conn[i].databuf, conn[i].writebuf, conn[i].ackbuf) && Addressed(i, conn[i].readbuf)
      && (On(closeack, i) ==> Settled(i) && (closing || i in givenUp))
      && (i in givenUp ==> On(closeack, i))
      && (Readable(i) && reading && reply == [] ==> sreads > 0)
    }

    ghost predicate BansExact()
      reads this`banclose, banclose.Values
    {
      forall i :: i in banclose ==> banclose[i].Valid()
    }

    ghost predicate Valid()
      reads this, conn.Values, banclose.Values
    {
      && Tables() && Issued() && BansExact()
      && (forall i :: i in conn ==> Fine(i))
    }

    constructor (windowSize: int, epochLimit: int)
      ensures Valid() && conn == map[] && addmap == map[] && banclose == map[] && connCt == 1
      ensures over == 0 && scloses == 0 && !readclose && !closing && requests == [] && dropped == {}
      ensures this.windowSize == windowSize && this.epochLimit == epochLimit
    {
      this.windowSize, this.epochLimit := windowSize, epochLimit;
      conn, addmap, pendconn, closepend, closeack := map[], map[], map[], map[], map[];
      sendct, readct, banclose, connCt, readclose := map[], map[], map[], 1, false;
      sreads, scloses, reply, over, reading, closing, givenUp := 0, 0, [], 0, false, false, {};
      requests, dropped := [], {};
    }

    // ---------------------------------------------------------------- messages

    /** The live connection of an address, if there is one. */
    ghost function At(addr: string): set<Connect>
      reads this`addmap, this`conn
    {
      if addr in addmap && addmap[addr] in conn then {conn[addmap[addr]]} else {}
    }

    /** Connection `i` is as a new one from `addr` should be. */
    ghost predicate Joined(i: int, addr: string)
      reads this, conn.Values
    {
      && i in conn && i in sendct && i in readct && conn[i].addr == addr
      && Sending(i) == Sender(1, 1, map[], map[]) && Receiving(i) == Receiver(1, 1, map[], map[])
      && conn[i].Counts() == Counters(0, 0) && !conn[i].estab && !conn[i].losted
      && i in pendconn && !On(closepend, i) && !On(closeack, i)
    }

    /** The next id is given out, and nothing else changes in the tables. */
    twostate predicate Enlisted(addr: string, new cc: Connect)
      reads this
    {
      var id := old(connCt);
      && connCt == id + 1 && conn == old(conn)[id := cc] && addmap == old(addmap)[addr := id]
      && closepend == old(closepend)[id := false] && closeack == old(closeack)[id := false]
      && readct == old(readct)[id := 1] && sendct == old(sendct)[id := 1] && pendconn == old(pendconn)[id := 1]
    }

    twostate lemma JoinKeepsTables(new cc: Connect, addr: string)
      requires old(Tables() && Issued()) && addr !in old(addmap) && cc.addr == addr && Enlisted(addr, cc)
      requires cc.windowSize == windowSize && cc.epochLimit == epochLimit
      requires unchanged(`banclose, `readclose, `scloses, `closing, `givenUp, `requests, `dropped)
      ensures Tables() && Issued()
    {
      assert forall i :: On(closepend, i) ==> old(On(closepend, i));
    }

    twostate lemma JoinKeepsOthers(new cc: Connect, addr: string)
      requires old(Valid()) && Enlisted(addr, cc) && Tables()
      requires unchanged(`banclose, `readclose, `sreads, `scloses, `reply, `reading, `closing, `givenUp, `requests,
                         `dropped)
      requires forall i :: i in old(conn) ==> unchanged(old(conn)[i])
      ensures forall i :: i in old(conn) ==> i in conn && i != old(connCt) && Fine(i)
    {
      hide Stamped, Addressed, Drained, Issued;
    }

    /** A new connection under the next id, beside others that did not change, keeps everything. */
    twostate lemma JoinKeeps(new cc: Connect, addr: string)
      requires old(Valid()) && addr !in old(addmap) && cc.addr == addr && !old(allocated(cc)) && Enlisted(addr, cc)
      requires cc.windowSize == windowSize && cc.epochLimit == epochLimit && !cc.estab && !cc.losted
      requires cc.seqNo == 1 && cc.ack == 1 && cc.Counts() == Counters(0, 0)
      requires cc.databuf == map[] && cc.writebuf == map[] && cc.ackbuf == map[] && cc.readbuf == map[]
      requires unchanged(`banclose, `readclose, `sreads, `scloses, `reply, `reading, `closing, `givenUp, `requests,
                         `dropped)
      requires forall i :: i in old(conn) ==> unchanged(old(conn)[i])
      requires forall i :: i in banclose ==> old(allocated(banclose[i])) && unchanged(banclose[i])
      ensures Valid() && Joined(old(connCt), addr)
    {
      hide Tables, Stamped;
      ghost var id := old(connCt);
      JoinKeepsTables(cc, addr);
      JoinKeepsOthers(cc, addr);
      StampedEmpty(id);
      NotPendingYet(id);
    }

    twostate lemma NotPendingYet(id: int)
      requires old(Issued()) && id == old(connCt)
      ensures id !in old(givenUp) && id !in old(closeack)
    {
    }

    method Enlist(cc: Connect, addr: string)
      modifies this`addmap, this`conn, this`closepend, this`closeack, this`readct, this`pendconn, this`sendct
      modifies this`connCt
      ensures Enlisted(addr, cc)
    {
      addmap := addmap[addr := connCt];
      conn := conn[connCt := cc];
      closepend := closepend[connCt := false];
      closeack := closeack[connCt := false];
      readct := readct[connCt := 1];
      pendconn := pendconn[connCt := 1];
      sendct := sendct[connCt := 1];
      connCt := connCt + 1;
    }

    /** A new connection under the next id. */
    method Join(addr: string)
      requires Valid() && addr !in addmap
      modifies this`addmap, this`conn, this`closepend, this`closeack, this`readct, this`pendconn, this`sendct
      modifies this`connCt
      ensures Valid() && Joined(old(connCt), addr) && fresh(conn[old(connCt)]) && Enlisted(addr, conn[old(connCt)])
    {
      hide Valid, Fine, Joined, Settled, Readable, Sending, Receiving, Stamped;
      var cc := new Connect(windowSize, epochLimit, addr);
      cc.seqNo := 1;
      Enlist(cc, addr);
      JoinKeeps(cc, addr);
    }

    /** An established connection is heard. */
    method KeepOn(i: int)
      requires Valid() && i in conn
      modifies Of(i)`lastrece
      ensures Valid() && conn[i].Counts() == ServerStep(old(conn[i].Counts()), KeptAlive)
    {
      hide Valid, Stamped, Addressed, Drained;
      Live(i);
      conn[i].lastrece := conn[i].receive;
      ItsHalvesKeep(i);
    }

    /** A connect request: a new address gets the next id; a known one is answered again while it is
        pending, and counts as heard after that. */
    method HandleConnect(addr: string) returns (out: seq<Message>)
      requires Valid()
      modifies this`addmap, this`conn, this`closepend, this`closeack, this`readct, this`pendconn, this`sendct
      modifies this`connCt
      modifies At(addr)`lastrece
      ensures Valid() && fresh(conn.Values - old(conn.Values))
      ensures addr in old(addmap) ==>
                && conn == old(conn) && sendct == old(sendct) && readct == old(readct) && pendconn == old(pendconn)
                && connCt == old(connCt) && addmap == old(addmap) && closepend == old(closepend)
                && closeack == old(closeack)
                && (addmap[addr] in pendconn ==>
                      out == [MsgAck(addmap[addr], 0)]
                        && conn[addmap[addr]].Counts() == old(conn[addmap[addr]].Counts()))
                && (addmap[addr] !in pendconn ==>
                     out == [] && conn[addmap[addr]].Counts() == ServerStep(old(conn[addmap[addr]].Counts()),
                         KeptAlive))
      ensures addr !in old(addmap) ==>
                && Joined(old(connCt), addr) && fresh(conn[old(connCt)]) && out == [MsgAck(old(connCt), 0)]
                && Enlisted(addr, conn[old(connCt)])
    {
      hide Valid, Joined;
      Addresses();
      out := [];
      if addr !in addmap {
        out := [MsgAck(connCt, 0)];
        Join(addr);
      } else {
        var idd := addmap[addr];
        if idd !in pendconn && idd in conn {
          KeepOn(idd);
        }
        if idd in pendconn && idd in conn {
          out := [MsgAck(idd, 0)];
        }
      }
    }

    /** At most connection `id` has changed, nothing others depend on has shrunk, and the tables still
        speak of the same connections. */
    twostate predicate OneChanged(id: int)
      requires id in conn && id in sendct && id in readct
      reads this, conn.Values, banclose.Values
    {
      && unchanged(`conn, `addmap, `connCt, `banclose, `readclose, `reading, `closing, `requests, `dropped)
      && (scloses == old(scloses) || readclose)
      && (closepend == old(closepend) || (closepend == old(closepend)[id := true] && closing))
      && old(givenUp) <= givenUp <= old(givenUp) + {id}
      && (sendct == old(sendct) || sendct == old(sendct)[id := sendct[id]])
      && (readct == old(readct) || readct == old(readct)[id := readct[id]])
      && (pendconn == old(pendconn) || pendconn == old(pendconn) - {id})
      && (closeack == old(closeack) || closeack == old(closeack)[id := true])
      && ((reply == old(reply) && sreads >= old(sreads)) || reply != [])
      && (forall j :: j in conn && j != id ==> unchanged(conn[j]))
      && (forall j :: j in banclose ==> unchanged(banclose[j]))
    }

    twostate lemma OneKeepsTables(id: int)
      requires id in conn && id in sendct && id in readct && OneChanged(id) && old(Tables() && Issued())
      ensures Tables() && Issued()
    {
    }

    twostate lemma OneKeepsOthers(id: int)
      requires id in conn && id in sendct && id in readct && OneChanged(id) && old(Valid()) && Tables()
      ensures forall j :: j in conn && j != id ==> Fine(j)
    {
      hide Stamped, Addressed, Drained, Issued;
    }

    /** When one connection changes and stays fine, all is kept. */
    twostate lemma OneKeeps(id: int)
      requires old(Valid()) && id in conn && id in sendct && id in readct && Fine(id) && OneChanged(id)
      ensures Valid()
    {
      hide Tables, Issued, Fine;
      OneKeepsTables(id);
      OneKeepsOthers(id);
    }

    /** The same when the tables do not change at all. */
    twostate predicate OnlyIts(id: int)
      reads this, conn.Values, banclose.Values
    {
      && unchanged(`conn, `addmap, `connCt, `banclose, `readclose, `reading, `closing, `scloses, `closepend, `closeack)
      && unchanged(`givenUp, `sendct, `readct, `pendconn, `reply, `requests, `dropped) && sreads >= old(sreads)
      && (forall j :: j in conn && j != id ==> unchanged(conn[j]))
      && (forall j :: j in banclose ==> unchanged(banclose[j]))
    }

    twostate lemma ItsHalvesKeep(id: int)
      requires old(Valid()) && id in conn && id in sendct && id in readct && Fine(id) && OnlyIts(id)
      ensures Valid()
    {
      hide Tables, Issued, Fine, BansExact;
      OneKeeps(id);
    }

    ghost function Of(id: int): set<Connect>
      reads this`conn
    {
      if id in conn then {conn[id]} else {}
    }

    /** A live connection: its counters exist, and no other connection is the same object. */
    lemma Live(id: int)
      requires Valid() && id in conn
      ensures id in sendct && id in readct && Fine(id) && id !in banclose
      ensures (id in pendconn ==> pendconn[id] == 1) && (On(closepend, id) ==> closing) && (closing ==> readclose)
      ensures conn[id].windowSize == windowSize && conn[id].epochLimit == epochLimit
      ensures conn[id].addr in addmap && addmap[conn[id].addr] == id
      ensures forall j :: j in conn && j != id ==> conn[j] != conn[id]
    {
    }

    lemma AllLive()
      requires Valid()
      ensures forall i :: i in conn ==> i in sendct && i in readct
      ensures (closing ==> readclose) && (forall i :: i in banclose ==> i !in conn && i !in pendconn)
      ensures forall i :: On(closepend, i) ==> i in conn && closing
      ensures forall i, j :: i in conn && j in conn && i != j ==> conn[i] != conn[j]
    {
    }

    /** Every id in use has been given out. */
    lemma IdsIssued()
      requires Valid()
      ensures forall i :: i in conn || On(closepend, i) || i in closeack ==> i < connCt
    {
    }

    /** Before the first close request Close has dropped nothing; after it there are no records. */
    lemma HistoryMeans()
      requires Valid()
      ensures if closing then banclose == map[] && OpenRecords() == {} else requests == [] && dropped == {}
      ensures scloses > 0 || closing ==> readclose
    {
      if closing {
        if banclose != map[] {
          var k := SomeKey(banclose);
          assert false;
        }
      }
    }

    lemma Addresses()
      requires Valid()
      ensures forall a :: a in addmap ==> addmap[a] in conn && conn[addmap[a]].addr == a
    {
    }

    /** The first message with a number confirms a pending connection. */
    method Establish(id: int)
      requires Valid() && id in pendconn && id in conn
      modifies this`pendconn, Of(id)`estab, Of(id)`losted
      ensures Valid() && pendconn == old(pendconn) - {id} && conn[id].losted == old(conn[id].losted)
    {
      hide Valid;
      Live(id);
      pendconn := pendconn - {id};
      conn[id].estab := true;
      conn[id].losted := false;
      OneKeeps(id);
    }

    /** What a data message at or above `ack` does to its connection; each new one wakes a Read. */
    method Take(m: Message) returns (out: seq<Message>)
      requires m.MsgData? && m.connId in conn && m.connId in readct && m.seqNum >= conn[m.connId].ack
      modifies this`sreads, Of(m.connId)`lastrece, Of(m.connId)`ack, Of(m.connId)`ackbuf, Of(m.connId)`readbuf
      ensures var v := conn[m.connId];
              && Receiving(m.connId) == AfterData(v.windowSize, m.connId, old(Receiving(m.connId)), m)
              && v.Counts() == ServerStep(old(v.Counts()), Heard) && out == [MsgAck(m.connId, m.seqNum)]
              && sreads == old(sreads) + (if m.seqNum !in old(v.ackbuf) then 1 else 0)
              && (sreads > old(sreads) || v.readbuf == old(v.readbuf))
              && (Stamped(m.connId, old(v.databuf), old(v.writebuf), old(v.ackbuf)) ==>
                   Stamped(m.connId, v.databuf, v.writebuf, v.ackbuf))
              && (Addressed(m.connId, old(v.readbuf)) ==> Addressed(m.connId, v.readbuf))
    {
      hide Stamped, AfterData;
      var id := m.connId;
      var v := conn[id];
      ghost var before := Receiving(id);
      if Stamped(id, v.databuf, v.writebuf, before.ackbuf) {
        DataKeepsStamps(v.windowSize, id, v.databuf, v.writebuf, before, m);
      }
      v.lastrece := v.receive;
      var first;
      out, first := v.TakeData(id, m, readct[id]);
      if first {
        sreads := sreads + 1;
      }
    }

    /** A data message at or above `ack` of an established connection. */
    method Accept(m: Message) returns (out: seq<Message>)
      requires Valid() && m.MsgData? && m.connId in conn && m.connId !in pendconn && m.seqNum >= conn[m.connId].ack
      modifies this`sreads, Of(m.connId)`lastrece, Of(m.connId)`ack, Of(m.connId)`ackbuf, Of(m.connId)`readbuf
      ensures Valid()
      ensures Receiving(m.connId) == AfterData(windowSize, m.connId, old(Receiving(m.connId)), m)
      ensures conn[m.connId].Counts() == ServerStep(old(conn[m.connId].Counts()), Heard)
              && out == [MsgAck(m.connId, m.seqNum)]
      ensures sreads == old(sreads) + if m.seqNum !in old(conn[m.connId].ackbuf) then 1 else 0
    {
      hide Valid, Stamped, Addressed, Drained, AfterData;
      Live(m.connId);
      out := Take(m);
      ItsHalvesKeep(m.connId);
    }

    predicate Confirms(id: int, n: int)
      reads this`pendconn
    {
      n > 0 && id in pendconn
    }

    ghost predicate TakesData(id: int, n: int)
      reads this`conn, this`pendconn, this`closepend, Of(id)
    {
      id in conn && !On(closepend, id) && (id in pendconn ==> n > 0) && n >= conn[id].ack
    }

    /** Whether a message with number `n` for `id` makes the server use a connection that is gone. */
    predicate Panics(id: int, n: int)
      reads this`conn, this`pendconn
    {
      n > 0 && id in pendconn && id !in conn
    }

    /** It forgets that the connection is pending and then fails to find it. */
    method Panic(id: int)
      requires Valid() && id in pendconn && id !in conn
      modifies this`pendconn
      ensures Valid() && pendconn == old(pendconn) - {id}
    {
      hide Tables, BansExact, Stamped, Settled;
      pendconn := pendconn - {id};
    }

    /** The first numbered message confirms its connection, or makes the server panic. */
    method Confirm(id: int, n: int) returns (panics: bool)
      requires Valid()
      modifies this`pendconn, Of(id)`estab, Of(id)`losted
      ensures Valid() && panics == old(Panics(id, n))
      ensures pendconn == old(pendconn) - if old(Confirms(id, n)) then {id} else {}
      ensures id in conn ==> conn[id].losted == old(conn[id].losted)
    {
      hide Valid;
      panics := false;
      if n > 0 && id in pendconn {
        if id !in conn {
          Panic(id);
          panics := true;
        } else {
          Establish(id);
        }
      }
    }

    method HandleData(m: Message) returns (out: seq<Message>, panics: bool)
      requires Valid() && m.MsgData? && !On(closepend, m.connId)
      modifies this`pendconn, this`sreads, Of(m.connId)
      ensures Valid() && panics == old(Panics(m.connId, m.seqNum))
      ensures pendconn == old(pendconn) - if old(Confirms(m.connId, m.seqNum)) then {m.connId} else {}
      ensures m.connId in conn ==>
                Sending(m.connId) == old(Sending(m.connId)) && conn[m.connId].losted == old(conn[m.connId].losted)
      ensures m.connId in conn ==>
                Receiving(m.connId) ==
                if old(TakesData(m.connId, m.seqNum)) then AfterData(windowSize, m.connId, old(Receiving(m.connId)), m)
                else old(Receiving(m.connId))
      ensures m.connId in conn ==>
                conn[m.connId].Counts() == old(if TakesData(m.connId, m.seqNum)
                    then ServerStep(conn[m.connId].Counts(), Heard) else conn[m.connId].Counts())
      ensures out == if old(TakesData(m.connId, m.seqNum)) then [MsgAck(m.connId, m.seqNum)] else []
      ensures sreads == old(sreads) + if old(TakesData(m.connId, m.seqNum))
              && m.seqNum !in old(conn[m.connId].ackbuf) then 1 else 0
    {
      hide Valid, AfterData;
      out := [];
      panics := Confirm(m.connId, m.seqNum);
      if m.connId in conn && m.connId !in pendconn && m.seqNum >= conn[m.connId].ack {
        out := Accept(m);
      }
    }

    /** An acknowledgement inside the window of an established connection. */
    method AcceptAck(id: int, n: int) returns (out: seq<Message>)
      requires Valid() && id in conn && id !in pendconn && conn[id].seqNo <= n <= conn[id].seqNo + windowSize
      modifies Of(id)`lastrece, Of(id)`seqNo, Of(id)`databuf, Of(id)`writebuf
      ensures Valid() && conn[id].Counts() == ServerStep(old(conn[id].Counts()), Heard)
      ensures Sending(id) == AfterAck(windowSize, old(Sending(id)), n)
      ensures Elems(out) == AckSends(windowSize, old(Sending(id)), n)
      ensures Elems(out) == set k | k in old(conn[id].writebuf) && k !in conn[id].writebuf :: old(conn[id].writebuf)[k]
    {
      hide Valid, AfterAck, AckSends, Elems, Drained, Stamped;
      Live(id);
      var v := conn[id];
      ghost var before := Sending(id);
      v.lastrece := v.receive;
      out := v.TakeAck(n, sendct[id]);
      if Drained(before) {
        DrainedStays(windowSize, before, n);
      }
      AckKeepsStamps(windowSize, id, before, v.ackbuf, n);
      ItsHalvesKeep(id);
    }

    ghost function BanOf(id: int): set<Ban>
      reads this`banclose
    {
      if id in banclose then {banclose[id]} else {}
    }

    /** What an acknowledgement does to the record of a closed connection. */
    twostate predicate Recorded(id: int, ban: Ban, n: int)
      reads this, ban
    {
      && ban.acked == old(ban.acked) + {n} && ban.Silence() == 0 && ban.databuf == ban.owed - ban.acked
      && banclose == if ban.databuf == map[] then old(banclose) - {id} else old(banclose)
    }

    /** An acknowledgement for a connection that went through CloseConn: its record goes with its last message. */
    method AcceptBanAck(id: int, n: int)
      requires Valid() && id in banclose
      modifies this`banclose, BanOf(id)
      ensures Valid()
      ensures Recorded(id, old(banclose)[id], n)
    {
      hide Valid, Fine;
      AllBans();
      banclose[id].Heard(n);
      if banclose[id].databuf == map[] {
        banclose := banclose - {id};
      }
      BansKeep();
    }

    /** When only the records of closed connections change and stay exact, all is kept. */
    twostate lemma BansKeep()
      requires old(Valid()) && BansExact() && banclose.Keys <= old(banclose).Keys
      requires forall i :: i in banclose ==> banclose[i] == old(banclose)[i]
      requires unchanged(`conn, `addmap, `connCt, `closepend, `closeack, `pendconn, `sendct, `readct, `readclose)
      requires unchanged(`reading, `closing, `givenUp, `reply, `sreads, `scloses, `requests, `dropped)
      requires forall j :: j in conn ==> unchanged(conn[j])
      ensures Valid()
    {
      hide Stamped, Addressed, Drained, BansExact;
    }

    /** A keep-alive of an established connection, answered in kind. */
    method Echo(id: int) returns (out: seq<Message>)
      requires Valid() && id in conn && id !in pendconn
      modifies Of(id)`lastrece
      ensures Valid() && conn[id].Counts() == ServerStep(old(conn[id].Counts()), KeptAlive) && out == [MsgAck(id, 0)]
    {
      hide Valid;
      out := [MsgAck(id, 0)];
      KeepOn(id);
    }

    ghost predicate TakesAck(id: int, n: int)
      reads this`conn, this`pendconn, Of(id)
    {
      id in conn && n != 0 && (id in pendconn ==> n > 0) && conn[id].seqNo <= n <= conn[id].seqNo + windowSize
    }

    /** An acknowledgement that is no keep-alive and names no record. */
    method ConfirmAndAccept(id: int, n: int) returns (out: seq<Message>, panics: bool)
      requires Valid() && id !in banclose && (id in conn && id !in pendconn ==> n != 0)
      modifies this`pendconn, Of(id)
      ensures Valid() && panics == old(Panics(id, n))
      ensures pendconn == old(pendconn) - if old(Confirms(id, n)) then {id} else {}
      ensures id in conn ==>
                && Receiving(id) == old(Receiving(id)) && conn[id].losted == old(conn[id].losted)
                && if old(TakesAck(id, n)) then
                     Sending(id) == AfterAck(windowSize, old(Sending(id)), n)
                       && conn[id].Counts() == ServerStep(old(conn[id].Counts()), Heard)
                   else Sending(id) == old(Sending(id)) && conn[id].Counts() == old(conn[id].Counts())
      ensures Elems(out) == if old(TakesAck(id, n)) then AckSends(windowSize, old(Sending(id)), n) else {}
    {
      hide Valid, AfterAck, AckSends, Elems, ServerStep;
      out := [];
      NothingSent();
      panics := Confirm(id, n);
      if id in conn && id !in pendconn && conn[id].seqNo <= n <= conn[id].seqNo + windowSize {
        out := AcceptAck(id, n);
      }
    }

    method HandleAck(id: int, n: int) returns (out: seq<Message>, panics: bool)
      requires Valid()
      modifies this`pendconn, this`banclose, Of(id), BanOf(id)
      ensures Valid() && panics == old(Panics(id, n))
      ensures pendconn == old(pendconn) - if old(Confirms(id, n)) then {id} else {}
      ensures id in conn ==> Receiving(id) == old(Receiving(id)) && conn[id].losted == old(conn[id].losted)
      ensures id in conn ==>
                Sending(id) == if old(TakesAck(id, n)) then AfterAck(windowSize, old(Sending(id)), n)
                    else old(Sending(id))
      ensures id in conn ==>
                conn[id].Counts() == old(if TakesAck(id, n)
                  || (n == 0 && id !in pendconn) then ServerStep(conn[id].Counts(), Heard) else conn[id].Counts())
      ensures Elems(out) == if old(TakesAck(id, n)) then AckSends(windowSize, old(Sending(id)), n)
                            else if id in conn && id !in pendconn && n == 0 then {MsgAck(id, 0)} else {}
      ensures id !in old(banclose) ==> banclose == old(banclose)
      ensures id in old(banclose) ==> Recorded(id, old(banclose)[id], n)
    {
      hide Valid, AfterAck, AckSends, Elems;
      out, panics := [], false;
      NothingSent();
      AllLive();
      if id !in pendconn && id in conn && n == 0 {
        OneSent(MsgAck(id, 0));
        out := Echo(id);
        return;
      }
      if id in banclose {
        AcceptBanAck(id, n);
        return;
      }
      out, panics := ConfirmAndAccept(id, n);
    }

    /** After Close a drained connection answers no more: its next acknowledgement asks for its release. */
    method Release(id: int)
      requires Valid() && On(closepend, id) && id in conn && id in sendct && Drained(Sending(id))
      modifies this`closeack, this`scloses
      ensures Valid() && closeack == old(closeack)[id := true] && scloses == old(scloses) + 1
    {
      hide Valid, Stamped;
      Live(id);
      closeack := closeack[id := true];
      scloses := scloses + 1;
      OneKeeps(id);
    }

    ghost predicate Closed(id: int)
      reads this`closepend, this`conn, this`sendct, Of(id)
    {
      On(closepend, id) && id in conn && id in sendct && Drained(Sending(id))
    }

    /** Whether a message counts as hearing from connection `id`. */
    ghost predicate Hears(id: int, m: Message)
      requires id in conn && id in sendct && !m.MsgConnect?
      reads this`conn, this`sendct, this`pendconn, this`closepend, conn[id]
    {
      if m.MsgData? then TakesData(id, m.seqNum)
      else !Closed(id) && (TakesAck(id, m.seqNum) || (m.seqNum == 0 && id !in pendconn))
    }

    /** A message from the network that is not a connect request: only the connection or the record it names
        changes. A connection that Close waits for takes acknowledgements only. The server panics exactly
        when the message has a number and names a connection that is pending and gone. */
    method HandleReceive(m: Message) returns (out: seq<Message>, panics: bool)
      requires Valid() && !m.MsgConnect?
      modifies this`pendconn, this`banclose, this`sreads, this`closeack, this`scloses, Of(m.connId), BanOf(m.connId)
      ensures Valid() && panics == (m.seqNum > 0 && old(m.connId in pendconn && m.connId !in conn))
      ensures var id := m.connId;
              id in conn ==>
                && Sending(id) == (if old(m.MsgAck? && !Closed(id) && TakesAck(id, m.seqNum))
                                   then AfterAck(windowSize, old(Sending(id)), m.seqNum)
                                   else old(Sending(id)))
                && Receiving(id) == (if old(m.MsgData? && TakesData(id, m.seqNum))
                     then AfterData(windowSize, id, old(Receiving(id)), m)
                                     else old(Receiving(id)))
                && conn[id].Counts() == old(if Hears(id, m) then ServerStep(conn[id].Counts(), Heard)
                     else conn[id].Counts())
                && conn[id].losted == old(conn[id].losted)
      ensures forall j :: j in conn && j != m.connId ==> unchanged(conn[j])
      ensures Elems(out) == if !old(m.connId in conn && Hears(m.connId, m)) then {}
                            else if m.MsgAck? && old(TakesAck(m.connId, m.seqNum))
                            then AckSends(windowSize, old(Sending(m.connId)), m.seqNum)
                            else {MsgAck(m.connId, m.seqNum)}
      ensures m.MsgAck? && m.connId in old(banclose) ==> Recorded(m.connId, old(banclose)[m.connId], m.seqNum)
      ensures !(m.MsgAck? && m.connId in old(banclose)) ==>
                banclose == old(banclose) && forall i :: i in banclose ==> unchanged(banclose[i])
      ensures pendconn == old(pendconn) -
                if old(Confirms(m.connId, m.seqNum)
                  && !(if m.MsgData? then On(closepend, m.connId) else Closed(m.connId)))
                then {m.connId} else {}
      ensures if m.MsgAck? && old(On(closepend, m.connId) && m.connId in conn
                && conn[m.connId].databuf == map[] && conn[m.connId].writebuf == map[]) then
                closeack == old(closeack)[m.connId := true] && scloses == old(scloses) + 1
              else closeack == old(closeack) && scloses == old(scloses)
      ensures sreads == old(sreads) +
                if old(m.MsgData? && TakesData(m.connId, m.seqNum))
                  && m.seqNum !in old(conn[m.connId].ackbuf) then 1 else 0
    {
      hide Valid, AfterAck, AckSends, Elems, AfterData, ServerStep;
      var id := m.connId;
      out, panics := [], false;
      NothingSent();
      OneSent(MsgAck(id, m.seqNum));
      AllLive();
      if On(closepend, id) && !m.MsgAck? {
        return;
      }
      if On(closepend, id) && conn[id].writebuf == map[] && conn[id].databuf == map[] {
        Release(id);
        return;
      }
      match m
      case MsgData(_, _, _) => out, panics := HandleData(m);
      case MsgAck(_, n) => out, panics := HandleAck(id, n);
    }

    // ---------------------------------------------------------------- requests of the application

    /** Read: the request is queued. */
    method Read()
      requires Valid() && !reading && !readclose
      modifies this`sreads, this`reading
      ensures Valid() && sreads == old(sreads) + 1 && reading
    {
      hide Tables, Issued, BansExact, Stamped, Settled;
      sreads := sreads + 1;
      reading := true;
    }

    /** The answer a waiting Read takes. */
    method FinishRead() returns (r: Reply)
      requires Valid() && reading && reply != []
      modifies this`reply, this`reading
      ensures Valid() && !reading && [r] + reply == old(reply)
    {
      hide Tables, Issued, BansExact, Stamped, Settled;
      r := reply[0];
      reply := reply[1..];
      reading := false;
    }

    /** Some connection whose next message is there, if any. */
    method Search() returns (found: bool, i: int)
      requires Valid()
      ensures found ==> i in conn && i in readct && Readable(i)
      ensures !found ==> forall j :: j in conn ==> j in readct && !Readable(j)
    {
      hide Issued, BansExact, Fine;
      found, i := false, 0;
      var ids := conn.Keys;
      while ids != {} && !found
        invariant ids <= conn.Keys
        invariant found ==> i in conn && Readable(i)
        invariant !found ==> forall j :: j in conn && j !in ids ==> !Readable(j)
        decreases ids
      {
        ghost var some := SomeMember(ids);
        i :| i in ids;
        ids := ids - {i};
        if i !in pendconn && readct[i] in conn[i].readbuf {
          found := true;
        }
      }
    }

    method HandOver(i: int)
      requires sreads > 0 && i in conn && i in readct && readct[i] in conn[i].readbuf
      modifies this`sreads, this`reply, this`readct, Of(i)`readbuf
      ensures sreads == old(sreads) - 1 && reply == old(reply + [Got(conn[i].readbuf[readct[i]])])
      ensures readct == old(readct)[i := old(readct)[i] + 1] && Receiving(i) == AfterRead(old(Receiving(i)))
      ensures Addressed(i, old(conn[i].readbuf)) ==> Addressed(i, conn[i].readbuf)
    {
      sreads := sreads - 1;
      var r := conn[i].Pop(readct[i]);
      readct := readct[i := readct[i] + 1];
      reply := reply + [Got(r[0])];
    }

    /** One message, the next in order of its connection, is handed over. */
    method Deliver(i: int)
      requires Valid() && sreads > 0 && i in conn && i in readct && Readable(i)
      modifies this`sreads, this`reply, this`readct, Of(i)`readbuf
      ensures Valid() && sreads == old(sreads) - 1 && reply == old(reply + [Got(conn[i].readbuf[readct[i]])])
      ensures Receiving(i) == AfterRead(old(Receiving(i)))
      ensures readct == old(readct)[i := old(readct)[i] + 1]
    {
      hide Valid, Stamped, Addressed, Drained, AfterRead;
      Live(i);
      HandOver(i);
      OneKeeps(i);
    }

    /** A read request that finds nothing. */
    method FindNothing()
      requires Valid() && sreads > 0 && forall j :: j in conn ==> j in readct && !Readable(j)
      modifies this`sreads
      ensures Valid() && sreads == old(sreads) - 1
    {
      hide Tables, Issued, BansExact, Stamped, Settled;
      sreads := sreads - 1;
    }

    lemma Next(i: int)
      requires Valid() && i in conn && i in readct && Readable(i)
      ensures var m := conn[i].readbuf[readct[i]]; m.MsgData? && m.connId == i
    {
      hide Tables, Issued, BansExact, Stamped;
      Live(i);
      AddressedAt(i, conn[i].readbuf, readct[i]);
    }

    /** One read request: at most one message is handed over, and one is whenever some established
        connection has its next one. */
    method HandleRead() returns (ghost from: int)
      requires Valid() && sreads > 0
      modifies this`sreads, this`reply, this`readct, conn.Values`readbuf
      ensures Valid() && sreads == old(sreads) - 1
      ensures if exists j :: j in old(conn) && old(Readable(j)) then
                from in conn && old(Readable(from)) && old(conn[from].readbuf[readct[from]]).MsgData?
                && old(conn[from].readbuf[readct[from]]).connId == from
                && reply == old(reply) + [Got(old(conn[from].readbuf[readct[from]]))]
                && Receiving(from) == AfterRead(old(Receiving(from)))
                && forall j :: j in conn && j != from ==> Receiving(j) == old(Receiving(j))
              else reply == old(reply) && readct == old(readct) && forall j :: j in conn ==> unchanged(conn[j])
    {
      hide Valid;
      AllLive();
      var found, i := Search();
      from := i;
      if found {
        Next(i);
        Deliver(i);
      } else {
        FindNothing();
      }
      AllLive();
    }

    method Queue(id: int, payload: Payload) returns (out: seq<Message>)
      requires id in conn && id in sendct && conn[id].windowSize == windowSize
      modifies this`sendct, Of(id)`databuf, Of(id)`writebuf
      ensures sendct == old(sendct)[id := old(sendct)[id] + 1]
      ensures Sending(id) == AfterWrite(windowSize, id, old(Sending(id)), payload)
      ensures var v := conn[id];
              && (Stamped(id, old(v.databuf), old(v.writebuf), v.ackbuf) ==>
                   Stamped(id, v.databuf, v.writebuf, v.ackbuf))
              && out == if old(sendct)[id] < v.seqNo + windowSize then [MsgData(id, old(sendct)[id], payload)] else []
    {
      hide Stamped, AfterWrite;
      var v := conn[id];
      ghost var before := Sending(id);
      if Stamped(id, v.databuf, v.writebuf, v.ackbuf) {
        WriteKeepsStamps(windowSize, id, before, v.ackbuf, payload);
      }
      out := v.Put(id, sendct[id], payload);
      sendct := sendct[id := sendct[id] + 1];
    }

    twostate lemma StillFine(id: int)
      requires id in conn && id in sendct && id in readct && id in old(conn) && id in old(sendct) && id in old(readct)
               && old(Fine(id)) && !closing
      requires unchanged(`conn, `readct, `pendconn, `closeack, `closing, `givenUp, `reading, `reply, `sreads)
      requires var v := conn[id];
               && v.estab == old(v.estab) && v.losted == old(v.losted) && v.readbuf == old(v.readbuf)
               && v.ackbuf == old(v.ackbuf)
               && Stamped(id, v.databuf, v.writebuf, v.ackbuf)
      ensures Fine(id)
    {
      hide Stamped, Addressed, Drained;
    }

    lemma FineMeans(id: int)
      requires Valid() && id in conn
      ensures id in sendct && id in readct && Fine(id)
      ensures Stamped(id, conn[id].databuf, conn[id].writebuf, conn[id].ackbuf)
    {
    }

    /** A write: refused for an unknown or lost connection, sent at once inside the window, queued beyond
        it. It is not called after Close. */
    method HandleWrite(id: int, payload: Payload) returns (answer: int, out: seq<Message>)
      requires Valid() && !closing
      modifies this`sendct, Of(id)`databuf, Of(id)`writebuf
      ensures Valid() && answer == if id !in conn then 0 else if conn[id].losted then -1 else 1
      ensures if answer == 1 then
                && Sending(id) == AfterWrite(windowSize, id, old(Sending(id)), payload)
                && sendct == old(sendct)[id := old(sendct)[id] + 1]
                && out == if old(sendct)[id] < conn[id].seqNo + windowSize then [MsgData(id, old(sendct)[id], payload)]
                     else []
              else sendct == old(sendct) && out == [] && (id in conn ==> Sending(id) == old(Sending(id)))
    {
      hide Valid, Fine, AfterWrite;
      out := [];
      if id !in conn {
        answer := 0;
        return;
      }
      Live(id);
      if conn[id].losted {
        answer := -1;
        return;
      }
      answer := 1;
      out := Post(id, payload);
    }

    /** A write to a connection that is not lost. */
    method Post(id: int, payload: Payload) returns (out: seq<Message>)
      requires Valid() && !closing && id in conn && id in sendct && !conn[id].losted
      modifies this`sendct, Of(id)`databuf, Of(id)`writebuf
      ensures Valid() && Sending(id) == AfterWrite(windowSize, id, old(Sending(id)), payload)
      ensures sendct == old(sendct)[id := old(sendct)[id] + 1]
      ensures out == if old(sendct)[id] < conn[id].seqNo + windowSize then [MsgData(id, old(sendct)[id], payload)]
                else []
    {
      hide Valid, Fine, AfterWrite;
      Live(id);
      FineMeans(id);
      out := Queue(id, payload);
      StillFine(id);
      OneKeeps(id);
    }

    /** Connection `id` has left every table that speaks of live connections, and nothing else has changed
        but for a record of what it owes. */
    twostate predicate Removed(id: int)
      requires id in old(conn)
      reads this, conn.Values, banclose.Values
    {
      && conn == old(conn) - {id} && addmap == old(addmap) - {old(conn)[id].addr} && sendct == old(sendct) - {id}
      && (readct == old(readct) || readct == old(readct) - {id})
      && (closeack == old(closeack) || closeack == old(closeack) - {id})
      && (closepend == old(closepend) - {id} || (closepend == old(closepend) && !On(closepend, id)))
      && (pendconn == old(pendconn) - {id} || (pendconn == old(pendconn) && (id in pendconn ==> closing)))
      && unchanged(`connCt, `readclose, `reading, `closing, `givenUp, `sreads, `scloses, `requests)
      && (closing || dropped == old(dropped))
      && (reply == old(reply) || reply != [])
      && (banclose == old(banclose)
          || (!closing && id in banclose && id !in pendconn && banclose == old(banclose)[id := banclose[id]]
             && banclose[id].Valid()
              && banclose[id].id == id && banclose[id].epochLimit == epochLimit))
      && (forall j :: j in conn ==> unchanged(conn[j]))
      && (forall j :: j in old(banclose) ==> j in banclose && (j != id ==> unchanged(banclose[j])))
    }

    twostate lemma RemoveKeepsTables(id: int)
      requires id in old(conn) && Removed(id) && old(Tables())
      ensures Tables()
    {
      forall i | i in conn
        ensures conn[i].addr in addmap && addmap[conn[i].addr] == i && i in readct
      {
        assert i in old(conn) && i != id && conn[i] == old(conn)[i];
      }
    }

    twostate lemma RemoveKeepsIssued(id: int)
      requires id in old(conn) && Removed(id) && old(Tables() && Issued())
      ensures Issued() && id !in old(banclose)
    {
      forall i | On(closepend, i)
        ensures i in conn && closing
      {
        assert old(On(closepend, i)) && i != id;
      }
      forall i | i in pendconn
        ensures pendconn[i] == 1 && i < connCt && (i in conn || closing)
      {
        assert i in old(pendconn);
      }
    }

    twostate lemma RemoveKeepsOthers(id: int)
      requires id in old(conn) && Removed(id) && old(Valid()) && Tables()
      ensures forall j :: j in conn ==> Fine(j)
    {
      hide Stamped, Addressed, Drained, Issued;
    }

    /** When one connection leaves the tables, all is kept. */
    twostate lemma RemoveKeeps(id: int)
      requires id in old(conn) && old(Valid()) && Removed(id)
      ensures Valid()
    {
      hide Tables, Issued, Fine;
      RemoveKeepsTables(id);
      RemoveKeepsIssued(id);
      RemoveKeepsOthers(id);
    }

    /** The deletions that every way of ending an established connection shares. */
    method Drop(id: int)
      requires id in conn
      modifies this`conn, this`addmap, this`closepend, this`closeack, this`sendct
      ensures conn == old(conn) - {id} && addmap == old(addmap) - {old(conn)[id].addr} && sendct == old(sendct) - {id}
      ensures closepend == old(closepend) - {id} && closeack == old(closeack) - {id}
    {
      addmap := addmap - {conn[id].addr};
      closeack := closeack - {id};
      closepend := closepend - {id};
      conn := conn - {id};
      sendct := sendct - {id};
    }

    /** The record is made and the queue sent. */
    method Record(id: int) returns (out: seq<Message>)
      requires id in conn
      modifies this`banclose
      ensures id in banclose && banclose == old(banclose)[id := banclose[id]] && fresh(banclose[id])
      ensures banclose[id].Valid() && banclose[id].id == id && banclose[id].epochLimit == epochLimit
      ensures banclose[id].owed == conn[id].databuf + conn[id].writebuf && banclose[id].acked == {}
      ensures banclose[id].addr == conn[id].addr && banclose[id].Silence() == 0
      ensures Elems(out) == Contents(conn[id].writebuf)
    {
      hide Elems, Contents;
      var v := conn[id];
      var hold := new Ban(epochLimit, v.addr, id, v.databuf + v.writebuf);
      banclose := banclose[id := hold];
      out := SendAll(v.writebuf);
    }

    method CloseOpen(id: int) returns (out: seq<Message>)
      requires Valid() && id in conn && id !in pendconn && !closing && !conn[id].losted
      modifies this`conn, this`addmap, this`readct, this`closepend, this`closeack, this`sendct, this`banclose
      ensures Valid()
      ensures conn == old(conn) - {id} && addmap == old(addmap) - {old(conn)[id].addr} && sendct == old(sendct) - {id}
      ensures closepend == old(closepend) - {id} && closeack == old(closeack) - {id} && readct == old(readct) - {id}
      ensures
                && id in banclose && banclose == old(banclose)[id := banclose[id]] && fresh(banclose[id])
                && banclose[id].owed == old(conn[id].databuf) + old(conn[id].writebuf) && banclose[id].acked == {}
                && banclose[id].addr == old(conn)[id].addr && banclose[id].Silence() == 0
                && Elems(out) == Contents(old(conn[id].writebuf))
    {
      hide Valid, Fine, Elems, Contents, Tables, Issued, Settled, Readable;
      Live(id);
      out := Record(id);
      Unlist(id);
      RemoveKeeps(id);
    }

    method CloseLost(id: int)
      requires Valid() && id in conn && id !in pendconn && conn[id].losted
      modifies this`conn, this`addmap, this`readct, this`closepend, this`closeack, this`sendct
      ensures Valid()
      ensures conn == old(conn) - {id} && addmap == old(addmap) - {old(conn)[id].addr} && sendct == old(sendct) - {id}
      ensures closepend == old(closepend) - {id} && closeack == old(closeack) - {id} && readct == old(readct) - {id}
    {
      hide Valid, Fine, Tables, Issued, Settled, Readable;
      Live(id);
      Unlist(id);
      RemoveKeeps(id);
    }

    /** Everything a closed connection still owes goes into its record, and what was queued is sent at once,
        past the window. A lost connection leaves no record. */
    method CloseLive(id: int) returns (out: seq<Message>)
      requires Valid() && id in conn && id !in pendconn && (closing ==> conn[id].losted)
      modifies this`conn, this`addmap, this`readct, this`closepend, this`closeack, this`sendct, this`banclose
      ensures Valid()
      ensures conn == old(conn) - {id} && addmap == old(addmap) - {old(conn)[id].addr} && sendct == old(sendct) - {id}
      ensures closepend == old(closepend) - {id} && closeack == old(closeack) - {id} && readct == old(readct) - {id}
      ensures if old(conn[id].losted) then banclose == old(banclose) && out == []
              else
                && id in banclose && banclose == old(banclose)[id := banclose[id]] && fresh(banclose[id])
                && banclose[id].owed == old(conn[id].databuf) + old(conn[id].writebuf) && banclose[id].acked == {}
                && banclose[id].addr == old(conn)[id].addr && banclose[id].Silence() == 0
                && Elems(out) == Contents(old(conn[id].writebuf))
    {
      hide Valid, Elems, Contents;
      out := [];
      if !conn[id].losted {
        out := CloseOpen(id);
      } else {
        CloseLost(id);
      }
    }

    method DropTables(id: int)
      requires id in conn
      modifies this`conn, this`addmap, this`pendconn, this`sendct
      ensures conn == old(conn) - {id} && addmap == old(addmap) - {old(conn)[id].addr} && sendct == old(sendct) - {id}
      ensures pendconn == old(pendconn) - {id}
    {
      addmap := addmap - {conn[id].addr};
      conn := conn - {id};
      pendconn := pendconn - {id};
      sendct := sendct - {id};
    }

    /** A connection that was never established leaves the tables with nothing kept of it. */
    method DropPending(id: int)
      requires Valid() && id in conn && id in pendconn && !closing
      modifies this`conn, this`addmap, this`pendconn, this`sendct
      ensures Valid()
      ensures conn == old(conn) - {id} && addmap == old(addmap) - {old(conn)[id].addr} && sendct == old(sendct) - {id}
      ensures pendconn == old(pendconn) - {id}
    {
      hide Valid, Fine;
      Live(id);
      DropTables(id);
      RemoveKeeps(id);
    }

    /** CloseConn: refused for an unknown id; a pending connection is dropped and reported as not
        established; a live one is closed without blocking. It is not called after Close. */
    method HandleCloseConn(id: int) returns (answer: int, out: seq<Message>)
      requires Valid() && !closing
      modifies this`conn, this`addmap, this`readct, this`closepend, this`closeack, this`sendct, this`banclose
      modifies this`pendconn
      ensures Valid()
      ensures answer == if id !in old(conn) then -2 else if id in old(pendconn) then -1 else 2
      ensures conn == old(conn) - {id} && sendct == old(sendct) - {id}
              && (id in old(conn) ==> old(conn)[id].addr !in addmap)
      ensures pendconn == (if answer == -1 then old(pendconn) - {id} else old(pendconn))
      ensures if answer == 2 then
                && readct == old(readct) - {id} && closepend == old(closepend) - {id}
                && closeack == old(closeack) - {id}
              else readct == old(readct) && closepend == old(closepend) && closeack == old(closeack)
      ensures if answer == 2 && !old(conn[id].losted) then
                && id in banclose && banclose == old(banclose)[id := banclose[id]] && fresh(banclose[id])
                && banclose[id].owed == old(conn[id].databuf) + old(conn[id].writebuf) && banclose[id].acked == {}
                && Elems(out) == Contents(old(conn[id].writebuf))
              else banclose == old(banclose) && out == []
    {
      hide Issued, Fine, BansExact, Elems, Contents;
      out := [];
      if id in conn {
        if id !in pendconn {
          answer := 2;
          out := CloseLive(id);
        } else {
          answer := -1;
          DropPending(id);
        }
      } else {
        answer := -2;
      }
    }

    // ---------------------------------------------------------------- epochs

    /** What an epoch repeats for a connection that is still being heard. */
    function Resends(i: int): set<Message>
      requires i in conn
      reads this`conn, this`pendconn, conn[i]
    {
      if i in pendconn then {MsgAck(pendconn[i], 0)} + Contents(conn[i].databuf)
      else Contents(conn[i].ackbuf) + Contents(conn[i].databuf)
    }

    method Resend(i: int) returns (out: seq<Message>)
      requires i in conn
      ensures Elems(out) == Resends(i)
    {
      hide Contents;
      var v := conn[i];
      var acks;
      if i in pendconn {
        acks := [MsgAck(pendconn[i], 0)];
        OneSent(acks[0]);
      } else {
        acks := SendAll(v.ackbuf);
      }
      var data := SendAll(v.databuf);
      out := acks + data;
      assert Elems(out) == Elems(acks) + Elems(data);
    }

    /** After Close a pending connection that falls silent is marked as done, and Close is asked again. */
    method GiveUp(i: int)
      requires Valid() && i in conn && i in pendconn && readclose
      modifies this`closeack, this`scloses, this`givenUp
      ensures Valid() && closeack == old(closeack)[i := true] && scloses == old(scloses) + 1
              && givenUp == old(givenUp) + {i}
      ensures Beside(i)
    {
      hide Valid, Stamped, Addressed, Drained, Beside;
      Live(i);
      closeack := closeack[i := true];
      scloses := scloses + 1;
      givenUp := givenUp + {i};
      OneKeeps(i);
      OnlyAt(i);
    }

    method Unlist(i: int)
      requires i in conn
      modifies this`conn, this`addmap, this`readct, this`closepend, this`closeack, this`sendct
      ensures conn == old(conn) - {i} && addmap == old(addmap) - {old(conn)[i].addr} && sendct == old(sendct) - {i}
      ensures closepend == old(closepend) - {i} && closeack == old(closeack) - {i} && readct == old(readct) - {i}
    {
      readct := readct - {i};
      Drop(i);
    }

    method ForgetTables(i: int)
      requires i in conn
      modifies this`conn, this`addmap, this`readct, this`closepend, this`closeack, this`sendct, this`pendconn
      ensures conn == old(conn) - {i} && addmap == old(addmap) - {old(conn)[i].addr} && sendct == old(sendct) - {i}
      ensures closepend == old(closepend) - {i} && closeack == old(closeack) - {i} && readct == old(readct) - {i}
      ensures pendconn == old(pendconn) - {i}
    {
      Unlist(i);
      pendconn := pendconn - {i};
    }

    /** Before Close it is forgotten. */
    method Forget(i: int)
      requires Valid() && i in conn && i in pendconn && !readclose
      modifies this`conn, this`addmap, this`readct, this`closepend, this`closeack, this`sendct, this`pendconn
      ensures Valid()
      ensures conn == old(conn) - {i} && sendct == old(sendct) - {i} && readct == old(readct) - {i}
      ensures closepend == old(closepend) - {i} && closeack == old(closeack) - {i} && pendconn == old(pendconn) - {i}
      ensures Beside(i)
    {
      hide Valid, Fine, Beside;
      Live(i);
      ForgetTables(i);
      RemoveKeeps(i);
      OnlyAt(i);
    }

    method MarkLost(i: int)
      requires i in conn
      modifies this`reply, this`closeack, this`scloses, Of(i)`losted
      ensures conn[i].losted && reply == old(reply) + [Lost(i)]
      ensures if On(closepend, i) then closeack == old(closeack)[i := true] && scloses == old(scloses) + 1
              else closeack == old(closeack) && scloses == old(scloses)
    {
      conn[i].losted := true;
      reply := reply + [Lost(i)];
      if On(closepend, i) {
        closeack := closeack[i := true];
        scloses := scloses + 1;
      }
    }

    /** An established connection is lost: Read is told, and Close is asked again if it waits for it. */
    method Lose(i: int)
      requires Valid() && i in conn && i !in pendconn
      modifies this`reply, this`closeack, this`scloses, Of(i)`losted
      ensures Valid() && conn[i].losted && reply == old(reply) + [Lost(i)]
      ensures if On(closepend, i) then closeack == old(closeack)[i := true] && scloses == old(scloses) + 1
              else closeack == old(closeack) && scloses == old(scloses)
    {
      hide Valid, Stamped, Addressed, Drained;
      Live(i);
      MarkLost(i);
      OneKeeps(i);
    }

    /** Unless Close waits for it, a lost connection goes at once and leaves no record. */
    method Lapse(i: int) returns (sent: seq<Message>)
      requires Valid() && i in conn && i !in pendconn
      modifies this`conn, this`addmap, this`readct, this`closepend, this`closeack, this`sendct
      modifies this`banclose, this`reply, this`scloses, Of(i)`losted
      ensures Valid() && sent == [] && banclose == old(banclose) && old(conn)[i].losted
              && reply == old(reply) + [Lost(i)]
      ensures if old(On(closepend, i)) then
                && conn == old(conn) && sendct == old(sendct) && readct == old(readct) && closepend == old(closepend)
                && closeack == old(closeack)[i := true] && scloses == old(scloses) + 1
              else
                && conn == old(conn) - {i} && sendct == old(sendct) - {i} && readct == old(readct) - {i}
                && closepend == old(closepend) - {i} && closeack == old(closeack) - {i} && scloses == old(scloses)
      ensures Beside(i)
    {
      hide Valid, Elems, Contents, Beside;
      sent := [];
      Lose(i);
      if !On(closepend, i) {
        sent := CloseLive(i);
      }
      OnlyAt(i);
    }

    method Count(i: int)
      requires Valid() && i in conn
      modifies Of(i)`receive
      ensures Valid() && conn[i].Counts() == ServerStep(old(conn[i].Counts()), Epoch) && Resends(i) == old(Resends(i))
    {
      hide Valid, Stamped, Addressed, Drained;
      Live(i);
      conn[i].receive := conn[i].receive + 1;
      ItsHalvesKeep(i);
    }

    /** Whether an expired connection stays in the tables, for Close to release. */
    predicate Awaited(i: int)
      reads this`pendconn, this`readclose, this`closepend
    {
      if i in pendconn then readclose else On(closepend, i)
    }

    ghost function Look(i: int): View
      requires i in conn
      reads this`conn, this`pendconn, this`closeack, this`readclose, this`closepend, conn[i]
    {
      View(conn[i].Counts(), conn[i].losted, i in pendconn, On(closeack, i), On(closepend, i), Awaited(i), Resends(i))
    }

    /** Whether this epoch completes its silence. */
    predicate Expires(was: View) {
      ServerFinds(ServerStep(was.counts, Epoch), epochLimit)
    }

    /** What an epoch has done to connection `i`, which is `v` and looked like `was`, given what was sent for it. */
    ghost predicate Ticked(i: int, v: Connect, was: View, sent: seq<Message>)
      reads this`conn, this`closeack, this`closepend, this`pendconn, v
    {
      var expired := Expires(was);
      && v.Counts() == ServerStep(was.counts, Epoch)
      && v.losted == (was.losted || (expired && !was.pending))
      && (i in conn <==> !expired || was.awaited)
      && (i in conn ==>
           (On(closeack, i) <==> was.done || expired) && (i in pendconn <==> was.pending)
             && (On(closepend, i) <==> was.waited))
      && Elems(sent) == if expired then {} else was.resends
    }

    /** What an epoch leaves alone while it is busy with connection `i`. */
    twostate predicate Beside(i: int)
      reads this
    {
      && conn.Keys <= old(conn).Keys && (forall j :: j in conn ==> conn[j] == old(conn)[j])
      && (forall j :: j in sendct ==> j in old(sendct) && sendct[j] == old(sendct)[j])
      && (forall j :: j in readct ==> j in old(readct) && readct[j] == old(readct)[j])
      && (forall j :: j in old(conn) && j != i ==> j in conn)
      && (forall j :: j in pendconn ==> j in old(pendconn) && pendconn[j] == old(pendconn)[j])
      && (forall j :: j in old(pendconn) && j != i ==> j in pendconn)
      && (forall j :: j != i ==> (On(closeack, j) <==> old(On(closeack, j))))
      && (forall j :: j != i ==> (On(closepend, j) <==> old(On(closepend, j))))
      && scloses >= old(scloses) && old(reply) <= reply && banclose == old(banclose) && readclose == old(readclose)
    }

    /** The tables have changed at `i` only. */
    twostate lemma OnlyAt(i: int)
      requires (conn == old(conn) && sendct == old(sendct)) || (conn == old(conn) - {i} && sendct == old(sendct) - {i})
      requires readct == old(readct) || readct == old(readct) - {i}
      requires pendconn == old(pendconn) || pendconn == old(pendconn) - {i}
      requires closeack == old(closeack) || closeack == old(closeack)[i := true] || closeack == old(closeack) - {i}
      requires closepend == old(closepend) || closepend == old(closepend) - {i}
      requires scloses >= old(scloses) && old(reply) <= reply && banclose == old(banclose)
               && readclose == old(readclose)
      ensures Beside(i)
    {
    }

    /** So the connections still to come look as they did, and what was done to the others stays done. */
    twostate lemma RestStays(new i: int, new ids: set<int>, new conn0: map<int, Connect>, new looks: map<int, View>,
                             new sent: map<int, seq<Message>>)
      requires Beside(i) && i !in ids && i !in sent && ids <= old(conn).Keys && sent.Keys + ids <= conn0.Keys
               && conn0.Keys == looks.Keys
      requires forall j :: j in old(conn) ==> j in conn0 && old(conn)[j] == conn0[j]
      requires forall j :: j in conn0 ==> old(allocated(conn0[j]))
      requires forall j :: j in conn0 && j != i ==> unchanged(conn0[j])
      requires forall j :: j in ids ==> old(Look(j)) == looks[j]
      requires forall j :: j in sent ==> old(Ticked(j, conn0[j], looks[j], sent[j]))
      ensures ids <= conn.Keys && conn.Keys <= old(conn).Keys && banclose == old(banclose)
      ensures forall j :: j in conn ==> conn[j] == old(conn)[j]
      ensures forall j :: j in sendct ==> j in old(sendct) && sendct[j] == old(sendct)[j]
      ensures forall j :: j in readct ==> j in old(readct) && readct[j] == old(readct)[j]
      ensures forall j :: j in ids ==> Look(j) == looks[j]
      ensures forall j :: j in sent ==> Ticked(j, conn0[j], looks[j], sent[j])
    {
      hide Elems, Contents;
      assert forall j :: j in ids ==> j in conn && conn[j] == old(conn)[j];
    }

    /** A connection whose silence has reached the limit. Read is told of it once, when it was established, and
        Close is asked again when it stays. */
    method Expire(i: int)
      requires Valid() && i in conn
      modifies this`conn, this`addmap, this`readct, this`closepend, this`closeack, this`sendct, this`pendconn
      modifies this`banclose, this`reply, this`scloses, this`givenUp, Of(i)`losted
      ensures Valid() && Beside(i)
      ensures var v := old(conn)[i];
              && v.losted == (old(v.losted) || i !in old(pendconn))
              && (i in conn <==> old(Awaited(i)))
              && (i in conn ==> On(closeack, i) && (i in pendconn <==> i in old(pendconn)))
              && (i in conn ==> (On(closepend, i) <==> old(On(closepend, i))))
      ensures reply == old(reply) + if i in old(pendconn) then [] else [Lost(i)]
      ensures scloses == old(scloses) + if old(Awaited(i)) then 1 else 0
    {
      hide Valid, Beside;
      if i in pendconn {
        Live(i);
        if readclose {
          GiveUp(i);
        } else {
          Forget(i);
        }
      } else {
        var nothing := Lapse(i);
      }
    }

    /** What Read is told of connection `i`. */
    ghost function Report(i: int, was: View): seq<Reply> {
      if Expires(was) && !was.pending then [Lost(i)] else []
    }

    method Tick(i: int) returns (sent: seq<Message>)
      requires Valid() && i in conn
      modifies this`conn, this`addmap, this`readct, this`closepend, this`closeack, this`sendct, this`pendconn
      modifies this`banclose, this`reply, this`scloses, this`givenUp, Of(i)`receive, Of(i)`losted
      ensures Valid() && Ticked(i, old(conn)[i], old(Look(i)), sent) && Beside(i)
      ensures reply == old(reply) + old(Report(i, Look(i)))
      ensures scloses == old(scloses) + if old(Expires(Look(i)) && Awaited(i)) then 1 else 0
    {
      hide Valid, Elems, Resends;
      ghost var v := conn[i];
      Count(i);
      sent := [];
      NothingSent();
      OnlyAt(i);
      if conn[i].receive - conn[i].lastrece + 1 > epochLimit {
        Expire(i);
      } else {
        sent := Resend(i);
      }
    }

    /** An epoch in progress: the connections in `ids` are still to come and look as they did at the start,
        what was done to the others stays done. */
    ghost predicate Halfway(ids: set<int>, conn0: map<int, Connect>, sendct0: map<int, int>, readct0: map<int, int>,
                            looks: map<int, View>, sent: map<int, seq<Message>>)
      reads this, conn0.Values
    {
      && ids <= conn.Keys && conn.Keys <= conn0.Keys && conn0.Keys == looks.Keys && sent.Keys == conn0.Keys - ids
      && (forall j :: j in conn ==> conn[j] == conn0[j])
      && (forall j :: j in sendct ==> j in sendct0 && sendct[j] == sendct0[j])
      && (forall j :: j in readct ==> j in readct0 && readct[j] == readct0[j])
      && (forall j :: j in ids ==> Look(j) == looks[j])
      && (forall j :: j in sent ==> Ticked(j, conn0[j], looks[j], sent[j]))
    }

    twostate lemma NextHalfway(new i: int, new ids: set<int>, conn0: map<int, Connect>, new sendct0: map<int, int>,
                               new readct0: map<int, int>, new looks: map<int, View>,
                               new done: map<int, seq<Message>>, new out: seq<Message>)
      requires i in ids && old(Halfway(ids, conn0, sendct0, readct0, looks, done)) && Beside(i)
      requires forall j :: j in conn0 && j != i ==> unchanged(conn0[j])
      requires Ticked(i, conn0[i], looks[i], out)
      ensures Halfway(ids - {i}, conn0, sendct0, readct0, looks, done[i := out])
    {
      hide Look, Ticked, Beside;
      RestStays(i, ids - {i}, conn0, looks, done);
    }

    /** One more connection. */
    method TickNext(i: int, ghost ids: set<int>, ghost conn0: map<int, Connect>, ghost sendct0: map<int, int>,
                    ghost readct0: map<int, int>, ghost looks: map<int, View>, done: map<int, seq<Message>>)
      returns (sent: map<int, seq<Message>>)
      requires Valid() && i in ids && i in conn && Halfway(ids, conn0, sendct0, readct0, looks, done)
      requires forall j, k :: j in conn0 && k in conn0 && j != k ==> conn0[j] != conn0[k]
      modifies this`conn, this`addmap, this`readct, this`closepend, this`closeack, this`sendct, this`pendconn
      modifies this`banclose, this`reply, this`scloses, this`givenUp, Of(i)`receive, Of(i)`losted
      ensures Valid() && banclose == old(banclose) && Halfway(ids - {i}, conn0, sendct0, readct0, looks, sent)
      ensures i in looks && reply == old(reply) + Report(i, looks[i])
      ensures scloses == old(scloses) + if Expires(looks[i]) && looks[i].awaited then 1 else 0
    {
      hide Valid, Ticked, Expires;
      var out := Tick(i);
      NextHalfway(i, ids, conn0, sendct0, readct0, looks, done, out);
      sent := done[i := out];
    }

    /** The connections among `ids` that Read is told of as lost, and those that stay for Close. */
    ghost function Reported(looks: map<int, View>, ids: set<int>): set<int> {
      set i | i in ids && i in looks && Expires(looks[i]) && !looks[i].pending
    }

    ghost function Kept(looks: map<int, View>, ids: set<int>): set<int> {
      set i | i in ids && i in looks && Expires(looks[i]) && looks[i].awaited
    }

    lemma OneMoreReport(looks: map<int, View>, done: set<int>, i: int, told: seq<Reply>)
      requires i in looks && i !in done && multiset(told) == multiset(Reports(Reported(looks, done)))
      ensures multiset(told + Report(i, looks[i])) == multiset(Reports(Reported(looks, done + {i})))
      ensures |Kept(looks, done + {i})| ==
              |Kept(looks, done)| + if Expires(looks[i]) && looks[i].awaited then 1 else 0
    {
      hide Expires;
      var before := Reported(looks, done);
      if Expires(looks[i]) && !looks[i].pending {
        assert Reported(looks, done + {i}) == before + {i};
        ReportsMore(before, i);
      } else {
        assert Reported(looks, done + {i}) == before;
        assert told + [] == told;
      }
      if Expires(looks[i]) && looks[i].awaited {
        assert Kept(looks, done + {i}) == Kept(looks, done) + {i};
      } else {
        assert Kept(looks, done + {i}) == Kept(looks, done);
      }
    }

    /** For the connections in `done` Read has been told and Close asked again, and for nothing else. */
    ghost predicate Tallied(told: seq<Reply>, asked: nat, looks: map<int, View>, done: set<int>)
      reads this`reply, this`scloses
    {
      && told <= reply && multiset(reply[|told|..]) == multiset(Reports(Reported(looks, done)))
      && scloses == asked + |Kept(looks, done)|
    }

    twostate lemma TalliedMore(new told: seq<Reply>, new asked: nat, new looks: map<int, View>, new done: set<int>,
                               new i: int)
      requires old(Tallied(told, asked, looks, done)) && i in looks && i !in done
      requires reply == old(reply) + Report(i, looks[i])
      requires scloses == old(scloses) + if Expires(looks[i]) && looks[i].awaited then 1 else 0
      ensures Tallied(told, asked, looks, done + {i})
    {
      hide Expires, Reported, Kept, Report, Reports;
      OneMoreReport(looks, done, i, old(reply)[|told|..]);
      assert reply[|told|..] == old(reply)[|told|..] + Report(i, looks[i]);
    }

    method TickNextAndTell(i: int, ghost ids: set<int>, ghost conn0: map<int, Connect>, ghost sendct0: map<int, int>,
                           ghost readct0: map<int, int>, ghost looks: map<int, View>, done: map<int, seq<Message>>,
                           ghost told: seq<Reply>, ghost asked: nat, ghost all: set<int>)
      returns (sent: map<int, seq<Message>>)
      requires Valid() && i in ids && i in conn && Halfway(ids, conn0, sendct0, readct0, looks, done)
      requires forall j, k :: j in conn0 && k in conn0 && j != k ==> conn0[j] != conn0[k]
      requires ids <= all && Tallied(told, asked, looks, all - ids)
      modifies this`conn, this`addmap, this`readct, this`closepend, this`closeack, this`sendct, this`pendconn
      modifies this`banclose, this`reply, this`scloses, this`givenUp, Of(i)`receive, Of(i)`losted
      ensures Valid() && banclose == old(banclose) && Halfway(ids - {i}, conn0, sendct0, readct0, looks, sent)
      ensures Tallied(told, asked, looks, all - (ids - {i}))
    {
      hide Valid, Halfway, Tallied, Expires, Report;
      sent := TickNext(i, ids, conn0, sendct0, readct0, looks, done);
      TalliedMore(told, asked, looks, all - ids, i);
      assert all - (ids - {i}) == all - ids + {i};
    }

    /** An epoch: every connection counts one more silent epoch and is heard of no more once the limit is
        reached; everything unacknowledged of the others is sent again. */
    method TickAll(ghost looks: map<int, View>) returns (sent: map<int, seq<Message>>)
      requires Valid() && looks.Keys == conn.Keys && forall i :: i in conn ==> looks[i] == Look(i)
      modifies this`conn, this`addmap, this`readct, this`closepend, this`closeack, this`sendct, this`pendconn
      modifies this`banclose, this`reply, this`scloses, this`givenUp, conn.Values`receive, conn.Values`losted
      ensures Valid() && sent.Keys == old(conn).Keys && banclose == old(banclose)
      ensures forall i :: i in old(conn) ==> Ticked(i, old(conn)[i], looks[i], sent[i])
      ensures conn.Keys <= old(conn).Keys
      ensures forall i :: i in conn ==>
                conn[i] == old(conn)[i] && sendct[i] == old(sendct)[i] && readct[i] == old(readct)[i]
      ensures Tallied(old(reply), old(scloses), looks, old(conn).Keys)
    {
      hide Valid, Elems, Contents, Ticked, Look, Halfway, Tallied;
      AllLive();
      sent := map[];
      var ids := conn.Keys;
      ghost var conn0, sendct0, readct0 := conn, sendct, readct;
      NotBegun(looks);
      while ids != {}
        invariant Valid() && banclose == old(banclose) && ids <= conn.Keys && conn.Values <= conn0.Values
        invariant Halfway(ids, conn0, sendct0, readct0, looks, sent)
        invariant ids <= conn0.Keys && Tallied(old(reply), old(scloses), looks, conn0.Keys - ids)
        decreases ids
      {
        ghost var some := SomeMember(ids);
        var i :| i in ids;
        sent := TickNextAndTell(i, ids, conn0, sendct0, readct0, looks, sent, old(reply), old(scloses), conn0.Keys);
        ids := ids - {i};
        StillThere(ids, conn0, sendct0, readct0, looks, sent);
      }
      assert conn0.Keys - ids == conn0.Keys;
      Finished(conn0, sendct0, readct0, looks, sent);
      AllLive();
    }

    lemma NotBegun(looks: map<int, View>)
      requires looks.Keys == conn.Keys && forall i :: i in conn ==> looks[i] == Look(i)
      ensures Halfway(conn.Keys, conn, sendct, readct, looks, map[])
      ensures Tallied(reply, scloses, looks, conn.Keys - conn.Keys)
    {
      assert Reported(looks, conn.Keys - conn.Keys) == {} && Kept(looks, conn.Keys - conn.Keys) == {};
    }

    lemma StillThere(ids: set<int>, conn0: map<int, Connect>, sendct0: map<int, int>, readct0: map<int, int>,
                     looks: map<int, View>, sent: map<int, seq<Message>>)
      requires Halfway(ids, conn0, sendct0, readct0, looks, sent)
      ensures ids <= conn.Keys && conn.Values <= conn0.Values
    {
      SubmapValues(conn, conn0);
    }

    lemma Finished(conn0: map<int, Connect>, sendct0: map<int, int>, readct0: map<int, int>,
                   looks: map<int, View>, sent: map<int, seq<Message>>)
      requires Halfway({}, conn0, sendct0, readct0, looks, sent)
      ensures sent.Keys == conn0.Keys == looks.Keys && conn.Keys <= conn0.Keys && forall j :: j in conn ==>
                conn[j] == conn0[j]
      ensures forall j :: j in sendct ==> j in sendct0 && sendct[j] == sendct0[j]
      ensures forall j :: j in readct ==> j in readct0 && readct[j] == readct0[j]
      ensures forall j :: j in sent ==> Ticked(j, conn0[j], looks[j], sent[j])
    {
    }

    lemma AllBans()
      requires Valid()
      ensures forall i :: i in banclose ==> banclose[i].epochLimit == epochLimit && banclose[i].Valid()
      ensures forall i, j :: i in banclose && j in banclose && i != j ==> banclose[i] != banclose[j]
    {
    }

    /** An epoch for one closed connection: its record goes after `epochLimit` silent epochs, and everything
        it still holds is sent again before that. */
    method TickBan(k: int) returns (out: seq<Message>)
      requires Valid() && k in banclose
      modifies this`banclose, BanOf(k)`rece
      ensures Valid()
      ensures var ban := old(banclose)[k];
              && ban.Silence() == old(ban.Silence()) + 1
              && banclose == (if ban.Silence() < epochLimit then old(banclose) else old(banclose) - {k})
              && Elems(out) == if ban.Silence() < epochLimit then Contents(ban.owed - ban.acked) else {}
    {
      hide Valid, Fine, Elems, Contents;
      AllBans();
      var expired;
      out, expired := banclose[k].Tick();
      if expired {
        banclose := banclose - {k};
      }
      BansKeep();
    }

    /** What an epoch does to the record `ban` of a closed connection, given what was sent for it. */
    ghost predicate BanTicked(i: int, ban: Ban, silence: int, sent: seq<Message>)
      reads this`banclose, ban
    {
      && ban.Silence() == silence + 1
      && (i in banclose <==> ban.Silence() < epochLimit)
      && Elems(sent) == if i in banclose then Contents(ban.owed - ban.acked) else {}
    }

    /** An epoch among the records in progress: those in `ids` are still to come. */
    ghost predicate BansHalfway(ids: set<int>, bans: map<int, Ban>, silences: map<int, int>, sent: map<int,
                                seq<Message>>)
      reads this`banclose, bans.Values
    {
      && ids <= banclose.Keys && banclose.Keys <= bans.Keys && bans.Keys == silences.Keys
      && sent.Keys == bans.Keys - ids
      && (forall i :: i in banclose ==> banclose[i] == bans[i])
      && (forall i :: i in ids ==> bans[i].Silence() == silences[i])
      && (forall i :: i in sent ==> BanTicked(i, bans[i], silences[i], sent[i]))
    }

    method TickNextBan(k: int, ghost ids: set<int>, ghost bans: map<int, Ban>, ghost silences: map<int, int>,
                       done: map<int, seq<Message>>)
      returns (sent: map<int, seq<Message>>)
      requires Valid() && k in ids && k in banclose && BansHalfway(ids, bans, silences, done)
      requires forall i, j :: i in bans && j in bans && i != j ==> bans[i] != bans[j]
      modifies this`banclose, BanOf(k)`rece
      ensures Valid() && BansHalfway(ids - {k}, bans, silences, sent)
    {
      hide Valid, Elems, Contents;
      var out := TickBan(k);
      sent := done[k := out];
    }

    method TickBans() returns (sent: map<int, seq<Message>>)
      requires Valid()
      modifies this`banclose, banclose.Values`rece
      ensures Valid() && sent.Keys == old(banclose).Keys
      ensures forall i :: i in old(banclose) ==> BanTicked(i, old(banclose)[i], old(banclose[i].Silence()), sent[i])
      ensures banclose.Keys <= old(banclose).Keys && forall i :: i in banclose ==> banclose[i] == old(banclose)[i]
      ensures forall i :: i in old(banclose) ==>
                var ban := old(banclose)[i];
                && ban.Silence() == old(banclose[i].Silence()) + 1 && (i in banclose <==> ban.Silence() < epochLimit)
                && Elems(sent[i]) == if i in banclose then Contents(ban.owed - ban.acked) else {}
    {
      hide Valid, BansHalfway, Elems, Contents;
      AllBans();
      sent := map[];
      var ids := banclose.Keys;
      ghost var bans := banclose;
      ghost var silences := map i | i in banclose :: banclose[i].Silence();
      BansNotBegun(silences);
      while ids != {}
        invariant Valid() && ids <= banclose.Keys && banclose.Values <= bans.Values
        invariant BansHalfway(ids, bans, silences, sent)
        decreases ids
      {
        ghost var some := SomeMember(ids);
        var k :| k in ids;
        sent := TickNextBan(k, ids, bans, silences, sent);
        ids := ids - {k};
        BansStillThere(ids, bans, silences, sent);
      }
      BansFinished(bans, silences, sent);
    }

    lemma BansNotBegun(silences: map<int, int>)
      requires silences.Keys == banclose.Keys && forall i :: i in banclose ==> silences[i] == banclose[i].Silence()
      ensures BansHalfway(banclose.Keys, banclose, silences, map[])
    {
    }

    lemma BansStillThere(ids: set<int>, bans: map<int, Ban>, silences: map<int, int>, sent: map<int, seq<Message>>)
      requires BansHalfway(ids, bans, silences, sent)
      ensures ids <= banclose.Keys && banclose.Values <= bans.Values
    {
      SubmapValues(banclose, bans);
    }

    lemma BansFinished(bans: map<int, Ban>, silences: map<int, int>, sent: map<int, seq<Message>>)
      requires BansHalfway({}, bans, silences, sent)
      ensures sent.Keys == bans.Keys == silences.Keys
      ensures forall i :: i in bans ==> BanTicked(i, bans[i], silences[i], sent[i])
      ensures banclose.Keys <= bans.Keys && forall i :: i in banclose ==> banclose[i] == bans[i]
    {
    }

    /** Which connections an epoch finds silent for too long, told from how they look before it. */
    lemma Foreseen(looks: map<int, View>, told: set<int>, stay: set<int>)
      requires looks.Keys == conn.Keys && forall i :: i in conn ==> looks[i] == Look(i)
      requires Foretold(told, stay)
      ensures Reported(looks, conn.Keys) == told && Kept(looks, conn.Keys) == stay
    {
      hide ServerFinds, ServerStep, Resends;
      assert forall i :: i in conn ==> looks[i].pending == (i in pendconn) && looks[i].counts == conn[i].Counts();
      assert forall i :: i in Reported(looks, conn.Keys) <==> i in told;
      assert forall i :: i in Kept(looks, conn.Keys) <==> i in stay;
    }

    /** Which established connections an epoch finds silent for too long, and which connections stay for Close. */
    ghost predicate Foretold(told: set<int>, stay: set<int>)
      reads this`conn, this`pendconn, this`readclose, this`closepend, conn.Values
    {
      && (forall i :: i in told <==>
            i in conn && i !in pendconn && ServerFinds(ServerStep(conn[i].Counts(), Epoch), epochLimit))
      && (forall i :: i in stay <==>
            i in conn && ServerFinds(ServerStep(conn[i].Counts(), Epoch), epochLimit)
            && if i in pendconn then readclose else On(closepend, i))
    }

    lemma Foretell() returns (told: set<int>, stay: set<int>)
      ensures Foretold(told, stay)
      ensures forall i :: i in told <==>
                i in conn && i !in pendconn && ServerFinds(ServerStep(conn[i].Counts(), Epoch), epochLimit)
      ensures forall i :: i in stay <==>
                i in conn && ServerFinds(ServerStep(conn[i].Counts(), Epoch), epochLimit)
                && if i in pendconn then readclose else On(closepend, i)
    {
      told := set i | i in conn && i !in pendconn && ServerFinds(ServerStep(conn[i].Counts(), Epoch), epochLimit);
      stay := set i | i in conn && ServerFinds(ServerStep(conn[i].Counts(), Epoch), epochLimit)
                      && if i in pendconn then readclose else On(closepend, i);
    }

    /** An epoch for all live connections. */
    method TickConns(ghost told: set<int>, ghost stay: set<int>) returns (sent: map<int, seq<Message>>)
      requires Valid() && Foretold(told, stay)
      modifies this`conn, this`addmap, this`readct, this`closepend, this`closeack, this`sendct, this`pendconn
      modifies this`banclose, this`reply, this`scloses, this`givenUp, conn.Values`receive, conn.Values`losted
      ensures Valid() && sent.Keys == old(conn).Keys && banclose == old(banclose)
      ensures forall i :: i in old(conn) ==> Ticked(i, old(conn)[i], old(Look(i)), sent[i])
      ensures conn.Keys <= old(conn).Keys
      ensures forall i :: i in conn ==>
                conn[i] == old(conn)[i] && sendct[i] == old(sendct)[i] && readct[i] == old(readct)[i]
      ensures old(reply) <= reply && multiset(reply[|old(reply)|..]) == multiset(Reports(told))
      ensures scloses == old(scloses) + |stay|
    {
      hide Valid, Ticked, Reports, Reported, Kept, ServerFinds, ServerStep, Look;
      ghost var looks := map i | i in conn :: Look(i);
      Foreseen(looks, told, stay);
      sent := TickAll(looks);
    }

    /** What happens to the records tells nothing of the silence of live connections. */
    twostate lemma AsSilent(new told: set<int>, new stay: set<int>)
      requires conn == old(conn) && pendconn == old(pendconn) && closepend == old(closepend)
               && readclose == old(readclose)
      requires (forall i :: i in conn ==> unchanged(conn[i])) && old(Foretold(told, stay))
      ensures Foretold(told, stay)
    {
      hide ServerFinds, ServerStep;
      assert forall i :: i in conn ==> conn[i] == old(conn)[i] && conn[i].Counts() == old(conn[i].Counts());
    }

    /** One epoch of the whole server. Read is told of exactly the established connections whose silence it completes,
        once each, and of no other; Close is asked again once for each connection that stays for it. */
    method HandleEpoch()
      returns (bans: map<int, seq<Message>>, sent: map<int, seq<Message>>, ghost told: set<int>, ghost stay: set<int>)
      requires Valid()
      modifies this`conn, this`addmap, this`readct, this`closepend, this`closeack, this`sendct, this`pendconn
      modifies this`banclose, this`reply, this`scloses, this`givenUp, conn.Values`receive, conn.Values`losted
      modifies banclose.Values`rece
      ensures conn.Values <= old(conn.Values) && banclose.Values <= old(banclose.Values)
      ensures Valid() && sent.Keys == old(conn).Keys && bans.Keys == old(banclose).Keys
      ensures forall i :: i in old(conn) ==> Ticked(i, old(conn)[i], old(Look(i)), sent[i])
      ensures conn.Keys <= old(conn).Keys
      ensures forall i :: i in conn ==>
                conn[i] == old(conn)[i] && sendct[i] == old(sendct)[i] && readct[i] == old(readct)[i]
      ensures forall i :: i in old(banclose) ==> BanTicked(i, old(banclose)[i], old(banclose[i].Silence()), bans[i])
      ensures banclose.Keys <= old(banclose).Keys && forall i :: i in banclose ==> banclose[i] == old(banclose)[i]
      ensures forall i :: i in told <==>
                i in old(conn) && i !in old(pendconn)
                && ServerFinds(ServerStep(old(conn[i].Counts()), Epoch), epochLimit)
      ensures forall i :: i in stay <==>
                i in old(conn) && ServerFinds(ServerStep(old(conn[i].Counts()), Epoch), epochLimit)
                && if i in old(pendconn) then old(readclose) else old(On(closepend, i))
      ensures old(reply) <= reply && multiset(reply[|old(reply)|..]) == multiset(Reports(told))
      ensures scloses == old(scloses) + |stay|
    {
      hide Valid, Ticked, BanTicked, Reports, ServerFinds, ServerStep, Look, Foretold, On;
      told, stay := Foretell();
      bans := TickBans();
      AsSilent(told, stay);
      sent := TickConns(told, stay);
      SubmapValues(conn, old(conn));
      SubmapValues(banclose, old(banclose));
    }

    // ---------------------------------------------------------------- closing

    /** Close: no more reads, and the handler is asked to finish. */
    method Close()
      requires Valid()
      modifies this`readclose, this`scloses
      ensures Valid() && readclose && scloses == old(scloses) + 1
    {
      hide Tables, BansExact, Stamped, Settled;
      readclose := true;
      scloses := scloses + 1;
    }

    /** The records of closed connections that still have messages. */
    ghost function OpenRecords(): set<int>
      reads this`banclose, banclose.Values
    {
      set i | i in banclose && banclose[i].databuf != map[]
    }

    /** The first close request ends the records of closed connections. */
    method StartClosing()
      requires Valid() && scloses > 0
      modifies this`banclose, this`closing, this`scloses
      ensures Valid() && closing && banclose == map[] && scloses == old(scloses) - 1
    {
      hide Tables, Stamped, Settled, Addressed;
      scloses := scloses - 1;
      closing := true;
      banclose := map[];
    }

    method Forsake(ghost ids: set<int>)
      requires Valid() && closing
      modifies this`dropped
      ensures Valid() && dropped == old(dropped) + ids
    {
      hide Tables, BansExact, Stamped, Settled, Readable;
      dropped := dropped + ids;
    }

    /** Close owes nothing to the client of `i`: nothing is pending, it is lost, or it fell silent before it
        was established and has not been heard since. */
    ghost predicate Honoured(i: int)
      requires i in conn && i in sendct
      reads this`conn, this`sendct, this`givenUp, this`pendconn, conn[i]
    {
      Drained(Sending(i)) || conn[i].losted || (i in givenUp && i in pendconn)
    }

    /** A connection that is marked as done although it is established, not lost and has messages left. */
    ghost predicate Stale(i: int)
      requires i in conn && i in sendct
      reads this`conn, this`sendct, this`closeack, conn[i]
    {
      conn[i].estab && !conn[i].losted && On(closeack, i) && !Drained(Sending(i))
    }

    /** Only such a connection is released while Close owes its client something. */
    lemma ReleasedIff(i: int)
      requires Valid() && i in conn && (On(closeack, i) || conn[i].losted)
      ensures i in sendct && (Stale(i) <==> !Honoured(i))
    {
      hide Tables, Issued, BansExact;
      Live(i);
    }

    ghost function Owing(): set<int>
      reads this`conn, this`sendct, this`givenUp, this`pendconn, conn.Values
    {
      set i | i in conn && i in sendct && !Honoured(i)
    }

    ghost function Stales(): set<int>
      reads this`conn, this`sendct, this`closeack, conn.Values
    {
      set i | i in conn && i in sendct && Stale(i)
    }

    /** Connections that are not established, not waited for and not marked as done, with messages left. */
    ghost function Behind(): set<int>
      reads this`conn, this`sendct, this`closepend, this`closeack, conn.Values
    {
      set i | i in conn && i in sendct && !conn[i].estab && !On(closepend, i) && !On(closeack, i)
        && !Drained(Sending(i))
    }

    /** What a request may let go of. */
    ghost function Releasable(): set<int>
      reads this`conn, this`closeack, conn.Values
    {
      set i | i in conn && (On(closeack, i) || conn[i].losted)
    }

    lemma ReleasedOwing()
      requires Valid()
      ensures Owing() * Releasable() == Stales() * Releasable()
      ensures Stales() <= conn.Keys && Owing() <= conn.Keys
    {
      hide Valid, Stale, Honoured;
      forall i | i in Releasable()
        ensures i in Owing() <==> i in Stales()
      {
        ReleasedIff(i);
      }
    }

    lemma OwingMeans()
      requires Valid()
      ensures KeepsPromise() <==> dropped == {} && Owing() == {}
    {
      hide Valid, Honoured;
      AllLive();
      assert forall i :: i in conn ==> (i in Owing() <==> !Honoured(i));
    }

    /** Whether Close waits for the connection, or goes on waiting for it. */
    predicate Holds(v: Connect, was: bool)
      reads v
    {
      v.estab || was || (v.writebuf != map[] && v.databuf != map[])
    }

    /** A lost connection is dropped; any other that still matters is waited for. */
    method Mark(i: int)
      requires Valid() && closing && i in conn
      modifies this`conn, this`addmap, this`closepend, this`closeack, this`sendct
      ensures Valid() && Marked(i, old(conn)[i], old(On(closepend, i)), old(On(closeack, i)))
      ensures (conn == old(conn) && sendct == old(sendct)) || (conn == old(conn) - {i} && sendct == old(sendct) - {i})
      ensures closeack == old(closeack) || closeack == old(closeack) - {i}
      ensures closepend == old(closepend) || closepend == old(closepend)[i := true] || closepend == old(closepend) - {i}
    {
      hide Valid, Stamped, Addressed, Drained;
      Live(i);
      var k := conn[i];
      if k.estab {
        if !k.losted {
          Await(i);
        } else {
          DropLost(i);
        }
      } else if k.writebuf != map[] && k.databuf != map[] {
        Await(i);
      }
    }

    method Await(i: int)
      requires Valid() && closing && i in conn
      modifies this`closepend
      ensures Valid() && closepend == old(closepend)[i := true]
    {
      hide Valid, Stamped, Addressed, Drained;
      Live(i);
      closepend := closepend[i := true];
      OneKeeps(i);
    }

    method DropLost(i: int)
      requires Valid() && closing && i in conn
      modifies this`conn, this`addmap, this`closepend, this`closeack, this`sendct
      ensures Valid() && conn == old(conn) - {i} && sendct == old(sendct) - {i}
      ensures closeack == old(closeack) - {i} && closepend == old(closepend) - {i}
    {
      hide Valid, Stamped, Addressed, Drained;
      Live(i);
      Drop(i);
      RemoveKeeps(i);
    }

    /** What marking has made of connection `i`, which is `v`. */
    ghost predicate Marked(i: int, v: Connect, was: bool, done: bool)
      reads this`conn, this`closepend, this`closeack, v
    {
      && (i in conn <==> !(v.estab && v.losted))
      && (i in conn ==> (On(closepend, i) <==> Holds(v, was)) && (On(closeack, i) <==> done))
    }

    /** The first pass in progress: the connections in `ids` are still to come. */
    ghost predicate MarkedSoFar(ids: set<int>, conn0: map<int, Connect>, sendct0: map<int, int>,
                                closepend0: map<int, bool>, closeack0: map<int, bool>)
      reads this`conn, this`sendct, this`closepend, this`closeack, conn0.Values
    {
      && ids <= conn.Keys && conn.Keys <= conn0.Keys
      && (forall i :: i in conn ==> conn[i] == conn0[i])
      && (forall i :: i in sendct ==> i in sendct0 && sendct[i] == sendct0[i])
      && (forall i :: i in ids ==> (On(closepend, i) <==> On(closepend0, i)) && (On(closeack, i) <==> On(closeack0, i)))
      && (forall i :: i in conn0 && i !in ids ==> Marked(i, conn0[i], On(closepend0, i), On(closeack0, i)))
    }

    twostate lemma MarkedStays(new i: int, new ids: set<int>, conn0: map<int, Connect>, new sendct0: map<int, int>,
                               new closepend0: map<int, bool>, new closeack0: map<int, bool>)
      requires forall j :: j in conn0 ==> unchanged(conn0[j])
      requires i in ids && i in conn0 && old(MarkedSoFar(ids, conn0, sendct0, closepend0, closeack0))
      requires Marked(i, conn0[i], On(closepend0, i), On(closeack0, i))
      requires (conn == old(conn) && sendct == old(sendct)) || (conn == old(conn) - {i} && sendct == old(sendct) - {i})
      requires closeack == old(closeack) || closeack == old(closeack) - {i}
      requires closepend == old(closepend) || closepend == old(closepend)[i := true]
               || closepend == old(closepend) - {i}
      ensures MarkedSoFar(ids - {i}, conn0, sendct0, closepend0, closeack0)
    {
      hide Holds;
    }

    method MarkNext(i: int, ghost ids: set<int>, ghost conn0: map<int, Connect>, ghost sendct0: map<int, int>,
                    ghost closepend0: map<int, bool>, ghost closeack0: map<int, bool>)
      requires Valid() && closing && i in ids && i in conn && MarkedSoFar(ids, conn0, sendct0, closepend0, closeack0)
      modifies this`conn, this`addmap, this`closepend, this`closeack, this`sendct
      ensures Valid() && MarkedSoFar(ids - {i}, conn0, sendct0, closepend0, closeack0)
    {
      hide Valid, Holds, Marked;
      Mark(i);
      MarkedStays(i, ids, conn0, sendct0, closepend0, closeack0);
    }

    /** The first pass of a close request over the live connections. */
    method MarkAll()
      requires Valid() && closing
      modifies this`conn, this`addmap, this`closepend, this`closeack, this`sendct
      ensures Valid() && conn.Keys <= old(conn).Keys
      ensures forall i :: i in conn ==> conn[i] == old(conn)[i] && sendct[i] == old(sendct)[i]
      ensures forall i :: i in old(conn) ==> Marked(i, old(conn)[i], old(On(closepend, i)), old(On(closeack, i)))
    {
      hide Valid, Marked, Holds;
      var ids := conn.Keys;
      ghost var conn0, sendct0, closepend0, closeack0 := conn, sendct, closepend, closeack;
      while ids != {}
        invariant Valid() && MarkedSoFar(ids, conn0, sendct0, closepend0, closeack0)
        decreases ids
      {
        ghost var some := SomeMember(ids);
        var i :| i in ids;
        MarkNext(i, ids, conn0, sendct0, closepend0, closeack0);
        ids := ids - {i};
      }
      AllLive();
    }

    /** A connection that is waited for and marked as done is released. */
    method LetGo(i: int)
      requires Valid() && closing && i in conn && i in sendct && On(closepend, i) && On(closeack, i)
      modifies this`conn, this`addmap, this`closepend, this`closeack, this`sendct, this`dropped
      ensures Valid() && conn == old(conn) - {i} && sendct == old(sendct) - {i}
      ensures closepend == old(closepend) - {i} && closeack == old(closeack) - {i}
      ensures dropped == old(dropped) + if old(Honoured(i)) then {} else {i}
    {
      hide Valid, Fine, Honoured;
      dropped := dropped + if Honoured(i) then {} else {i};
      Drop(i);
      RemoveKeeps(i);
    }

    /** The second pass stops at the first connection that is waited for and not done. */
    method LetAllGo() returns (flag: bool)
      requires Valid() && closing
      modifies this`conn, this`addmap, this`closepend, this`closeack, this`sendct, this`dropped
      ensures Valid() && conn.Keys <= old(conn).Keys && forall i :: i in conn ==>
                conn[i] == old(conn)[i] && sendct[i] == old(sendct)[i]
      ensures forall i :: i in conn ==>
                (On(closepend, i) <==> old(On(closepend, i))) && (On(closeack, i) <==> old(On(closeack, i)))
      ensures flag <==> forall i :: i in old(conn) && old(On(closepend, i)) ==> old(On(closeack, i))
      ensures flag ==> forall i :: i in old(conn) ==> (i in conn <==> !old(On(closepend, i)))
      ensures forall i :: i in old(conn) && i !in conn ==> old(On(closepend, i) && On(closeack, i))
      ensures dropped == old(dropped) + (old(Owing()) - conn.Keys) && Owing() == old(Owing()) * conn.Keys
    {
      hide Valid, Owing, Honoured;
      AllLive();
      flag := true;
      var ids := conn.Keys;
      ghost var conn0, sendct0, closepend0, closeack0 := conn, sendct, closepend, closeack;
      ghost var owing, dropped0 := Owing(), dropped;
      NoneGone();
      while ids != {} && flag
        invariant Valid() && ids <= conn.Keys && PartlyGone(conn0, sendct0, closepend0, closeack0, owing, dropped0)
        invariant flag ==> forall i :: i in conn && i !in ids ==> !On(closepend, i)
        invariant !flag ==> exists i :: i in conn && On(closepend, i) && !On(closeack, i)
        decreases ids
      {
        ghost var some := SomeMember(ids);
        var i :| i in ids;
        ids := ids - {i};
        if On(closepend, i) {
          if On(closeack, i) {
            LetNextGo(i, conn0, sendct0, closepend0, closeack0, owing, dropped0);
          } else {
            flag := false;
          }
        }
      }
      AllLive();
      OwingLeft(conn0, sendct0, closepend0, closeack0, owing, dropped0);
    }

    /** The second pass in progress. */
    ghost predicate PartlyGone(conn0: map<int, Connect>, sendct0: map<int, int>, closepend0: map<int, bool>,
                               closeack0: map<int, bool>,
                               owing: set<int>, dropped0: set<int>)
      reads this, conn.Values
    {
      && conn.Keys <= conn0.Keys && (forall i :: i in conn ==> conn[i] == conn0[i])
      && (forall i :: i in sendct ==> i in sendct0 && sendct[i] == sendct0[i])
      && (forall i :: i in conn ==>
           (On(closepend, i) <==> On(closepend0, i)) && (On(closeack, i) <==> On(closeack0, i)))
      && (forall i :: i in conn0 && i !in conn ==> On(closepend0, i) && On(closeack0, i))
      && (forall i :: i in conn ==> i in sendct && (i in owing <==> !Honoured(i)))
      && owing <= conn0.Keys && dropped == dropped0 + (owing - conn.Keys)
    }

    /** What it lets go of is the only thing that is owed nothing more. */
    lemma OwingLeft(conn0: map<int, Connect>, sendct0: map<int, int>, closepend0: map<int, bool>, closeack0: map<int,
                    bool>,
                    owing: set<int>, dropped0: set<int>)
      requires PartlyGone(conn0, sendct0, closepend0, closeack0, owing, dropped0)
      ensures Owing() == owing * conn.Keys
    {
      hide Honoured;
      assert forall i :: i in Owing() <==> i in owing && i in conn;
    }

    lemma NoneGone()
      requires Valid()
      ensures PartlyGone(conn, sendct, closepend, closeack, Owing(), dropped)
    {
      hide Valid, Honoured;
      AllLive();
    }

    method LetNextGo(i: int, ghost conn0: map<int, Connect>, ghost sendct0: map<int, int>, ghost closepend0: map<int,
                     bool>,
                     ghost closeack0: map<int, bool>, ghost owing: set<int>, ghost dropped0: set<int>)
      requires Valid() && closing && i in conn && On(closepend, i) && On(closeack, i)
      requires PartlyGone(conn0, sendct0, closepend0, closeack0, owing, dropped0)
      modifies this`conn, this`addmap, this`closepend, this`closeack, this`sendct, this`dropped
      ensures Valid() && conn == old(conn) - {i} && closepend == old(closepend) - {i} && closeack == old(closeack) - {i}
      ensures PartlyGone(conn0, sendct0, closepend0, closeack0, owing, dropped0)
    {
      hide Valid;
      LetGo(i);
    }

    /** Whether connection `i` keeps Close from returning. */
    predicate Blocks(i: int)
      requires i in conn
      reads this`conn, this`closepend, this`closeack, conn[i]
    {
      Holds(conn[i], On(closepend, i)) && !On(closeack, i) && !(conn[i].estab && conn[i].losted)
    }

    lemma BlocksMeans(i: int)
      requires Valid() && i in conn && Blocks(i)
      ensures Holds(conn[i], On(closepend, i)) && !On(closeack, i) && !conn[i].losted
    {
      hide Tables, Issued, BansExact, Stamped, Addressed;
      Live(i);
    }

    /** What Close promises when it is signalled: no client it let go of, and none it leaves, is owed anything. */
    ghost predicate KeepsPromise()
      reads this, conn.Values
    {
      dropped == {} && forall i :: i in conn ==> i in sendct && Honoured(i)
    }

    /** When no connection blocks Close, it owes something to exactly those it releases although they are
        established, not lost and have messages left, and to those it leaves without having waited for them. */
    lemma PromiseKeptIff()
      requires Valid() && forall i :: i in conn ==> !Blocks(i)
      ensures Owing() == Stales() + Behind()
      ensures forall i :: i in Stales() ==> i in conn && Holds(conn[i], On(closepend, i))
      ensures forall i :: i in Behind() ==> i in conn && !Holds(conn[i], On(closepend, i))
    {
      hide Tables, Issued, BansExact, Stamped, Addressed, Drained;
      AllLive();
    }

    lemma SettledWhenDone()
      requires Valid()
      ensures forall i :: i in conn ==> i in sendct && (On(closeack, i) || conn[i].losted ==> Settled(i))
    {
    }

    method Signal()
      requires Valid()
      modifies this`over
      ensures Valid() && over == old(over) + 1
    {
      hide Tables, Issued, BansExact, Stamped, Settled, Readable;
      over := over + 1;
    }

    method Remember(ghost r: Request)
      requires Valid() && closing
      modifies this`requests
      ensures Valid() && requests == old(requests) + [r]
    {
      hide Tables, BansExact, Stamped, Settled, Readable;
      requests := requests + [r];
    }

    /** The first pass makes Close owe nothing less: what it drops is lost. */
    twostate lemma OwingStays()
      requires old(Valid()) && Valid() && unchanged(`pendconn, `givenUp) && conn.Keys <= old(conn).Keys
      requires forall i :: i in old(conn) ==> unchanged(old(conn)[i]) && (i in conn || old(conn)[i].losted)
      requires forall i :: i in conn ==>
                 conn[i] == old(conn)[i] && i in sendct && i in old(sendct) && sendct[i] == old(sendct)[i]
      ensures Owing() == old(Owing())
    {
      hide Valid;
    }

    /** Both passes of a close request. */
    method Sweep() returns (flag: bool)
      requires Valid() && closing
      modifies this`conn, this`addmap, this`closepend, this`closeack, this`sendct, this`dropped
      ensures Valid() && (flag <==> forall i :: i in old(conn) ==> !old(Blocks(i)))
      ensures conn.Keys <= old(conn).Keys && forall i :: i in conn ==>
                conn[i] == old(conn)[i] && sendct[i] == old(sendct)[i]
      ensures forall i :: i in conn ==> (On(closepend, i) <==> Holds(conn[i], old(On(closepend, i))))
      ensures forall i :: i in conn ==>
                (On(closeack, i) <==> old(On(closeack, i))) && !(conn[i].estab && conn[i].losted)
      ensures forall i :: i in old(conn) && i !in conn ==> old(conn)[i].losted || old(On(closeack, i))
      ensures flag ==> forall i :: i in old(conn) ==> (i in conn <==> !Holds(old(conn)[i], old(On(closepend, i))))
      ensures old(conn).Keys - conn.Keys <= old(Releasable())
      ensures dropped == old(dropped) + (old(Owing()) - conn.Keys) && Owing() == old(Owing()) * conn.Keys
    {
      hide Valid, Owing, Honoured;
      AllLive();
      MarkAll();
      AllLive();
      OwingStays();
      flag := LetAllGo();
    }

    /** The records end, and both passes are made. */
    method Answer() returns (flag: bool)
      requires Valid() && scloses > 0
      modifies this`banclose, this`closing, this`scloses, this`conn, this`addmap, this`closepend, this`closeack
      modifies this`sendct
      modifies this`dropped, this`requests
      ensures Valid() && closing && banclose == map[] && scloses == old(scloses) - 1
      ensures flag <==> forall i :: i in old(conn) ==> !old(Blocks(i))
      ensures conn.Keys <= old(conn).Keys && forall i :: i in conn ==>
                conn[i] == old(conn)[i] && sendct[i] == old(sendct)[i]
      ensures forall i :: i in conn ==> (On(closepend, i) <==> Holds(conn[i], old(On(closepend, i))))
      ensures forall i :: i in conn ==>
                (On(closeack, i) <==> old(On(closeack, i))) && !(conn[i].estab && conn[i].losted)
      ensures forall i :: i in old(conn) && i !in conn ==> old(conn)[i].losted || old(On(closeack, i))
      ensures flag ==> forall i :: i in old(conn) ==> (i in conn <==> !Holds(old(conn)[i], old(On(closepend, i))))
      ensures requests == old(requests) + [Request(old(OpenRecords()), old(Stales()) - conn.Keys, old(Behind()))]
      ensures dropped == old(dropped) + old(OpenRecords()) + (old(Stales()) - conn.Keys)
      ensures Owing() == old(Owing()) * conn.Keys
    {
      hide Valid, Settled, Honoured, Stale, Owing, Stales, Behind, OpenRecords, Holds, Blocks, Releasable;
      ghost var r, owing, before, releasable := Request(OpenRecords(), Stales(),
          Behind()), Owing(), conn.Keys, Releasable();
      ReleasedOwing();
      StartClosing();
      Forsake(r.openRecords);
      flag := Sweep();
      ReleasedOnly(before, conn.Keys, releasable, owing, r.stale);
      Remember(r.(stale := r.stale - conn.Keys));
    }

    /** One close request. Close is signalled exactly when no connection blocks it, and by then every
        established connection is gone. What a request drops although its client is owed something is a record
        with messages left, or a connection that was given up and then heard again. When Close is signalled its
        promise is kept exactly when no request dropped such a thing and nothing pending is left that was not
        waited for. */
    method HandleClose()
      requires Valid() && scloses > 0
      modifies this`banclose, this`closing, this`scloses, this`over, this`conn, this`addmap, this`closepend
      modifies this`closeack, this`sendct
      modifies this`dropped, this`requests
      ensures Valid() && closing && banclose == map[] && scloses == old(scloses) - 1
      ensures over == old(over) + if exists i :: i in old(conn) && old(Blocks(i)) then 0 else 1
      ensures conn.Keys <= old(conn).Keys && forall i :: i in conn ==>
                conn[i] == old(conn)[i] && sendct[i] == old(sendct)[i]
      ensures forall i :: i in conn ==> (On(closepend, i) <==> Holds(conn[i], old(On(closepend, i))))
      ensures forall i :: i in conn ==>
                (On(closeack, i) <==> old(On(closeack, i))) && !(conn[i].estab && conn[i].losted)
      ensures forall i :: i in old(conn) && i !in conn ==>
                old(Settled(i)) && (old(conn)[i].losted || old(On(closeack, i)))
      ensures over > old(over) ==>
                forall i :: i in old(conn) ==> (i in conn <==> !Holds(old(conn)[i], old(On(closepend, i))))
      ensures requests == old(requests) + [Request(old(OpenRecords()), old(Stales()) - conn.Keys, old(Behind()))]
      ensures dropped == old(dropped) + old(OpenRecords()) + (old(Stales()) - conn.Keys)
      ensures over > old(over) ==>
                (KeepsPromise() <==> old(dropped) == {} && requests[|requests| - 1] == Request({}, {}, {}))
    {
      hide Valid, Settled, Honoured, Stale, KeepsPromise, Owing, Stales, Behind, OpenRecords, Holds, Blocks;
      SettledWhenDone();
      if forall i :: i in conn ==> !Blocks(i) {
        PromiseKeptIff();
      }
      ghost var stale, behind := Stales(), Behind();
      var flag := Answer();
      if flag {
        OwingMeans();
        AllGone(stale, behind, conn.Keys);
        Signal();
        OwingMeans();
      }
    }

    /** The repeated answer to a pending connection is meant to carry its id, as the first one does; it
        carries the constant in `pendconn`, which is the id of the first connection only. */
    lemma RepeatedAnswerIff(i: int)
      requires Valid() && i in conn && i in pendconn
      ensures MsgAck(i, 0) in Resends(i) <==> i == 1
    {
      Live(i);
      assert forall m :: m in Contents(conn[i].databuf) ==> m.MsgData?;
    }
  }
}
