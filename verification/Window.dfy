// The messages of the protocol, and the two halves of one connection as values: what a
// write, an acknowledgement, a data message and a read do to them.

module Messages {

  newtype byte = x: int | 0 <= x < 256

  type Payload = seq<byte>

  datatype Message =
    | MsgConnect
    | MsgData(connId: int, seqNum: int, payload: Payload)
    | MsgAck(connId: int, seqNum: int)
}

module Window {
  import opened Maps
  import opened Messages

  type Buffer = map<int, Message>

  /** The sending half. `databuf` is in flight, `writebuf` is queued, `sendct` is the next number. */
  datatype Sender = Sender(seqNo: int, sendct: int, databuf: Buffer, writebuf: Buffer)

  /** The receiving half. `ackbuf` is re-sent at every epoch, `readbuf` waits for Read. */
  datatype Receiver = Receiver(ack: int, readct: int, ackbuf: Buffer, readbuf: Buffer)

  function AfterWrite(w: int, id: int, s: Sender, p: Payload): Sender {
    var msg := MsgData(id, s.sendct, p);
    if s.sendct < s.seqNo + w then
      s.(databuf := s.databuf[s.sendct := msg], sendct := s.sendct + 1)
    else
      s.(writebuf := s.writebuf[s.sendct := msg], sendct := s.sendct + 1)
  }

  /** Where a scan of `inFlight` upward from `i` stops: at a key, at `limit`, or at once when it is empty. */
  function Scan(inFlight: Buffer, i: int, limit: int): (r: int)
    ensures i <= r
    ensures inFlight != map[] ==> r in inFlight || r >= limit
    ensures forall k :: i <= k < r ==> k !in inFlight
    ensures r == i || (inFlight != map[] && r <= limit)
    decreases limit - i
  {
    if inFlight == map[] || i >= limit || i in inFlight then i else Scan(inFlight, i + 1, limit)
  }

  /** The queued messages whose numbers lie in [lo, hi). */
  function Queued(writebuf: Buffer, lo: int, hi: int): Buffer {
    map k | k in writebuf && lo <= k < hi :: writebuf[k]
  }

  function Without(buf: Buffer, lo: int, hi: int): Buffer {
    map k | k in buf && !(lo <= k < hi) :: buf[k]
  }

  function Contents(buf: Buffer): set<Message> {
    set k | k in buf :: buf[k]
  }

  function AfterAck(w: int, s: Sender, n: int): Sender {
    var inFlight := s.databuf - {n};
    if !(s.seqNo <= n <= s.seqNo + w) then s
    else if n != s.seqNo then s.(databuf := inFlight)
    else
      var seqNo := Scan(inFlight, n + 1, n + w - 1);
      var moved := Queued(s.writebuf, n + w, seqNo + w);
      Sender(seqNo, s.sendct, inFlight + moved, s.writebuf - moved.Keys)
  }

  /** What an acknowledgement puts into flight. */
  function AckSends(w: int, s: Sender, n: int): set<Message> {
    if n == s.seqNo <= s.seqNo + w then Contents(Queued(s.writebuf, n + w, AfterAck(w, s, n).seqNo + w)) else {}
  }

  /** What is sent is exactly what leaves the queue. */
  lemma SentLeavesQueue(w: int, s: Sender, n: int)
    ensures AckSends(w, s, n) == set k | k in s.writebuf && k !in AfterAck(w, s, n).writebuf :: s.writebuf[k]
  {
    var sends := set k | k in s.writebuf && k !in AfterAck(w, s, n).writebuf :: s.writebuf[k];
    forall m | m in AckSends(w, s, n)
      ensures m in sends
    {
      var k :| k in Queued(s.writebuf, n + w, AfterAck(w, s, n).seqNo + w) && s.writebuf[k] == m;
      assert k in s.writebuf && k !in AfterAck(w, s, n).writebuf;
    }
    forall m | m in sends
      ensures m in AckSends(w, s, n)
    {
      var k :| k in s.writebuf && k !in AfterAck(w, s, n).writebuf && s.writebuf[k] == m;
      assert k in Queued(s.writebuf, n + w, AfterAck(w, s, n).seqNo + w);
    }
  }

  /** And when nothing is both in flight and queued, exactly what enters flight. */
  lemma SentEntersFlight(w: int, s: Sender, n: int)
    requires forall k :: k in s.writebuf ==> k !in s.databuf
    ensures AckSends(w, s, n) ==
            set k | k in AfterAck(w, s, n).databuf && k !in s.databuf :: AfterAck(w, s, n).databuf[k]
  {
    var t := AfterAck(w, s, n);
    var sends := set k | k in t.databuf && k !in s.databuf :: t.databuf[k];
    forall m | m in AckSends(w, s, n)
      ensures m in sends
    {
      var k :| k in Queued(s.writebuf, n + w, t.seqNo + w) && s.writebuf[k] == m;
      assert k in t.databuf && k !in s.databuf && t.databuf[k] == m;
    }
    forall m | m in sends
      ensures m in AckSends(w, s, n)
    {
      var k :| k in t.databuf && k !in s.databuf && t.databuf[k] == m;
      assert k in Queued(s.writebuf, n + w, t.seqNo + w);
    }
  }

  /** The messages of a sequence, in whatever order they are sent. */
  function Elems(out: seq<Message>): set<Message> {
    set m | m in out
  }

  lemma NothingSent()
    ensures Elems([]) == {}
  {
  }

  lemma OneSent(m: Message)
    ensures Elems([m]) == {m}
  {
  }

  lemma BothSent(a: seq<Message>, b: seq<Message>)
    ensures Elems(a + b) == Elems(a) + Elems(b)
  {
  }

  /** The queue `w0` has lost, the buffer `d0` gained and `out` sent exactly the queued numbers in [lo, i). */
  ghost predicate Entered(d0: Buffer, w0: Buffer, lo: int, i: int, d: Buffer, w: Buffer, out: seq<Message>) {
    && d == d0 + Queued(w0, lo, i)
    && w == w0 - Queued(w0, lo, i).Keys
    && Elems(out) == Contents(Queued(w0, lo, i))
  }

  lemma EnteredNone(d: Buffer, w: Buffer, lo: int)
    ensures Entered(d, w, lo, lo, d, w, [])
  {
  }

  lemma EnteredSkip(d0: Buffer, w0: Buffer, lo: int, i: int, d: Buffer, w: Buffer, out: seq<Message>)
    requires lo <= i && Entered(d0, w0, lo, i, d, w, out) && i !in w
    ensures Entered(d0, w0, lo, i + 1, d, w, out)
  {
    assert Queued(w0, lo, i + 1) == Queued(w0, lo, i);
  }

  lemma EnteredOne(d0: Buffer, w0: Buffer, lo: int, i: int, d: Buffer, w: Buffer, out: seq<Message>)
    requires lo <= i && Entered(d0, w0, lo, i, d, w, out) && i in w
    ensures Entered(d0, w0, lo, i + 1, d[i := w[i]], w - {i}, out + [w[i]])
  {
    var next := Queued(w0, lo, i + 1);
    assert next == Queued(w0, lo, i)[i := w[i]];
    assert next[i] == w[i];
    assert Contents(next) == Contents(Queued(w0, lo, i)) + {w[i]};
    assert Elems(out + [w[i]]) == Elems(out) + {w[i]};
  }

  lemma EnteredAll(d0: Buffer, w0: Buffer, lo: int, i: int, hi: int, d: Buffer, w: Buffer, out: seq<Message>)
    requires lo <= i <= hi && Entered(d0, w0, lo, i, d, w, out) && (w == map[] || i == hi)
    ensures Entered(d0, w0, lo, hi, d, w, out)
  {
    if i < hi {
      assert forall k :: k in w0 ==> k !in w;
      assert Queued(w0, lo, hi) == Queued(w0, lo, i);
    }
  }

  function AfterData(w: int, id: int, r: Receiver, m: Message): Receiver
    requires m.MsgData?
  {
    var n := m.seqNum;
    if n < r.ack then r
    else
      var ackbuf := r.ackbuf[n := MsgAck(id, n)];
      var readbuf := if n in r.ackbuf then r.readbuf else r.readbuf[n := m];
      if n - w >= r.ack then
        Receiver(n - w + 1, r.readct, Without(ackbuf, r.ack, n - w + 1), readbuf)
      else
        r.(ackbuf := ackbuf, readbuf := readbuf)
  }

  function AfterRead(r: Receiver): Receiver {
    if r.readct in r.readbuf then r.(readct := r.readct + 1, readbuf := r.readbuf - {r.readct}) else r
  }

  predicate Drained(s: Sender) {
    s.databuf == map[] && s.writebuf == map[]
  }

  lemma DrainedStays(w: int, s: Sender, n: int)
    requires Drained(s)
    ensures Drained(AfterAck(w, s, n))
  {
  }

  /** The window as the sender keeps it: in flight inside it, queued exactly above it. */
  ghost predicate Shape(w: int, s: Sender) {
    && 1 <= s.seqNo <= s.sendct
    && (forall k :: k in s.databuf ==> s.seqNo <= k < s.seqNo + w && k < s.sendct)
    && (forall k :: k in s.writebuf <==> s.seqNo + w <= k < s.sendct)
  }

  /** The scan ends two numbers short of the window, and still finds the least number in flight. */
  lemma SlideIsExact(w: int, s: Sender)
    requires w >= 1 && Shape(w, s)
    ensures var inFlight := s.databuf - {s.seqNo};
            var t := AfterAck(w, s, s.seqNo);
            && (inFlight == map[] ==> t.seqNo == s.seqNo + 1)
            && (inFlight != map[] ==> t.seqNo in inFlight && forall k :: k in inFlight ==> t.seqNo <= k)
            && (forall k :: k in t.databuf <==> k in inFlight || (s.seqNo + w <= k < t.seqNo + w && k < s.sendct))
            && (forall k :: k in t.writebuf <==> t.seqNo + w <= k < s.sendct)
  {
    var inFlight := s.databuf - {s.seqNo};
    var t := AfterAck(w, s, s.seqNo);
    if inFlight != map[] {
      var k := SomeKey(inFlight);
      assert k in s.databuf && k != s.seqNo;
      assert s.seqNo < k < s.seqNo + w;
    }
  }
}
