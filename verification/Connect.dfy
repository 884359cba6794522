// One end of a connection, as both the client and the server keep it.

module Connection {
  import opened Loss
  import opened Maps
  import opened Messages
  import opened Window

  class Connect {
    const windowSize: int
    const epochLimit: int
    const addr: string
    var lastrece: int
    var receive: int
    var ackbuf: Buffer
    var databuf: Buffer
    var writebuf: Buffer
    var readbuf: Buffer
    var seqNo: int
    var ack: int
    var estab: bool
    var losted: bool

    constructor (windowSize: int, epochLimit: int, addr: string)
      ensures this.windowSize == windowSize && this.epochLimit == epochLimit && this.addr == addr
      ensures seqNo == 0 && ack == 1 && databuf == map[] && writebuf == map[] && ackbuf == map[] && readbuf == map[]
      ensures Counts() == Counters(0, 0) && !estab && !losted
    {
      this.windowSize, this.epochLimit, this.addr := windowSize, epochLimit, addr;
      lastrece, receive := 0, 0;
      ackbuf, databuf, writebuf, readbuf := map[], map[], map[], map[];
      seqNo, ack, estab, losted := 0, 1, false, false;
    }

    /** The two halves; the counters of messages written and read are kept outside this object. */
    function Sending(sendct: int): Sender
      reads this
    {
      Sender(seqNo, sendct, databuf, writebuf)
    }

    function Receiving(readct: int): Receiver
      reads this
    {
      Receiver(ack, readct, ackbuf, readbuf)
    }

    /** The two counters that tell how long the peer has been silent. */
    function Counts(): Counters
      reads this
    {
      Counters(receive, lastrece)
    }

    /** The first of the two slide loops, the same text in the client and in the server: `seqNo` moves past
        `hold` and past what is no longer in flight. */
    method Slide() returns (ct: int)
      modifies this`seqNo
      ensures seqNo == Scan(databuf, old(seqNo) + 1, old(seqNo) + windowSize - 1) && ct == seqNo - old(seqNo) >= 1
    {
      var hold := seqNo;
      seqNo := seqNo + 1;
      ct := 1;
      var i := seqNo;
      ghost var stop := Scan(databuf, hold + 1, hold + windowSize - 1);
      while databuf != map[] && i < hold + windowSize - 1
        invariant i == seqNo == hold + ct && ct >= 1
        invariant stop == Scan(databuf, i, hold + windowSize - 1)
      {
        if i in databuf {
          break;
        } else {
          seqNo := seqNo + 1;
          ct := ct + 1;
        }
        i := i + 1;
      }
    }

    /** An acknowledgement: the message leaves flight, and when it is the first one the window slides and
        queued messages enter it. What leaves the queue is sent. */
    method TakeAck(n: int, ghost sendct: int) returns (out: seq<Message>)
      modifies this`seqNo, this`databuf, this`writebuf
      ensures Sending(sendct) == AfterAck(windowSize, old(Sending(sendct)), n)
      ensures Elems(out) == AckSends(windowSize, old(Sending(sendct)), n)
      ensures Elems(out) == set k | k in old(writebuf) && k !in writebuf :: old(writebuf)[k]
    {
      hide Queued, Contents, Elems, Scan;
      SentLeavesQueue(windowSize, Sending(sendct), n);
      out := [];
      NothingSent();
      if seqNo <= n <= seqNo + windowSize {
        databuf := databuf - {n};
        if n == seqNo {
          var hold := seqNo;
          var ct := Slide();
          out := Enter(hold + windowSize, hold + windowSize + ct);
        }
      }
    }

    /** A queued message is sent and put into flight. */
    method Launch(i: int) returns (v: Message)
      requires i in writebuf
      modifies this`databuf, this`writebuf
      ensures v == old(writebuf)[i] && writebuf == old(writebuf) - {i} && databuf == old(databuf)[i := v]
    {
      v := writebuf[i];
      writebuf := writebuf - {i};
      databuf := databuf[i := v];
    }

    /** The second of the loops: queued messages numbered in [lo, hi) are sent and put into flight. */
    method Enter(lo: int, hi: int) returns (out: seq<Message>)
      requires lo < hi
      modifies this`databuf, this`writebuf
      ensures Entered(old(databuf), old(writebuf), lo, hi, databuf, writebuf, out)
    {
      hide Entered;
      out := [];
      ghost var d0, w0 := databuf, writebuf;
      var i := lo;
      EnteredNone(d0, w0, lo);
      while writebuf != map[] && i < hi
        invariant lo <= i <= hi && Entered(d0, w0, lo, i, databuf, writebuf, out)
      {
        if i in writebuf {
          EnteredOne(d0, w0, lo, i, databuf, writebuf, out);
          var v := Launch(i);
          out := out + [v];
        } else {
          EnteredSkip(d0, w0, lo, i, databuf, writebuf, out);
        }
        i := i + 1;
      }
      EnteredAll(d0, w0, lo, i, hi, databuf, writebuf, out);
    }

    /** A data message at or above `ack`: acknowledge it, drop acknowledgements that fell out of the
        window, and keep the message the first time. */
    method TakeData(id: int, m: Message, ghost readct: int) returns (out: seq<Message>, first: bool)
      requires m.MsgData? && m.seqNum >= ack
      modifies this`ack, this`ackbuf, this`readbuf
      ensures Receiving(readct) == AfterData(windowSize, id, old(Receiving(readct)), m)
      ensures out == [MsgAck(id, m.seqNum)] && (first <==> m.seqNum !in old(ackbuf))
      ensures readbuf == if first then old(readbuf)[m.seqNum := m] else old(readbuf)
    {
      var n := m.seqNum;
      var ackk := MsgAck(id, n);
      out := [ackk];
      var ex := n in ackbuf;
      ackbuf := ackbuf[n := ackk];
      if n - windowSize >= ack {
        var i := ack;
        while i <= n - windowSize
          invariant ack <= i <= n - windowSize + 1
          invariant ack == old(ack) && readbuf == old(readbuf)
          invariant ackbuf == Without(old(ackbuf)[n := ackk], ack, i)
        {
          ackbuf := ackbuf - {i};
          i := i + 1;
        }
        ack := n - windowSize + 1;
      }
      if !ex {
        readbuf := readbuf[n := m];
      }
      first := !ex;
    }

    /** A write: send at once when the window has room, queue otherwise. */
    method Put(id: int, sendct: int, payload: Payload) returns (out: seq<Message>)
      modifies this`databuf, this`writebuf
      ensures Sending(sendct + 1) == AfterWrite(windowSize, id, old(Sending(sendct)), payload)
      ensures out == if sendct < seqNo + windowSize then [MsgData(id, sendct, payload)] else []
    {
      var msg := MsgData(id, sendct, payload);
      if sendct < seqNo + windowSize {
        out := [msg];
        databuf := databuf[sendct := msg];
      } else {
        out := [];
        writebuf := writebuf[sendct := msg];
      }
    }

    /** The message numbered `readct`, if it is there. */
    method Pop(readct: int) returns (r: seq<Message>)
      modifies this`readbuf
      ensures readct in old(readbuf) ==>
                r == [old(readbuf)[readct]] && Receiving(readct + 1) == AfterRead(old(Receiving(readct)))
      ensures readct !in old(readbuf) ==> r == [] && readbuf == old(readbuf)
    {
      if readct in readbuf {
        r := [readbuf[readct]];
        readbuf := readbuf - {readct};
      } else {
        r := [];
      }
    }
  }

  /** Send everything a buffer holds, in some order. */
  method SendAll(buf: Buffer) returns (out: seq<Message>)
    ensures Elems(out) == Contents(buf)
  {
    out := [];
    var ids := buf.Keys;
    while ids != {}
      invariant ids <= buf.Keys
      invariant forall m :: m in out <==> exists k :: k in buf && k !in ids && buf[k] == m
      decreases ids
    {
      ghost var some := SomeMember(ids);
      var k :| k in ids;
      ids := ids - {k};
      out := out + [buf[k]];
    }
  }
}
