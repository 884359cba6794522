// The imperative code of both ends, run against the transition system: a sending end, a receiving end,
// the record that replaces the sending end after CloseConn, and the messages in transit.

module Transfer {
  import opened ClosedConnection
  import opened Connection
  import opened Link
  import opened Messages
  import opened Window

  class Session {
    const config: Config
    const near: Connect
    const far: Connect
    var ban: Ban?
    var sendct: int
    var readct: int
    var net: set<Message>
    var delivered: seq<Payload>

    /** Where the transition system is. */
    ghost var l: State

    /** The objects are the state of the transition system. */
    ghost predicate Valid()
      reads this, near, far, if ban == null then {} else {ban}
    {
      && Configured(config) && near != far
      && near.windowSize == config.sendWindow && far.windowSize == config.recvWindow
      && Inv(config, l) && l.net == net && l.delivered == delivered
      && l.receiver == far.Receiving(readct)
      && (l.flushed <==> ban != null)
      && (ban == null ==> l.sender == near.Sending(sendct))
      && (ban != null ==> ban.Valid() && l.sender.databuf == ban.databuf)
    }

    constructor (config: Config, epochLimit: int)
      requires Configured(config)
      ensures Valid() && this.config == config && l == INITIAL && fresh(near) && fresh(far) && ban == null
    {
      this.config := config;
      near := new Connect(config.sendWindow, epochLimit, "far");
      far := new Connect(config.recvWindow, epochLimit, "near");
      ban, sendct, readct, net, delivered, l := null, 1, 1, {}, [], INITIAL;
      new;
      near.seqNo := 1;
    }

    method Write(p: Payload)
      requires Valid() && Enabled(l, Step.Write(p))
      modifies this`sendct, this`net, this`l, near
      ensures Valid() && l == Apply(config, old(l), Step.Write(p))
    {
      hide Inv, ValidRun;
      StepKeepsInv(config, l, Step.Write(p));
      var out := near.Put(config.id, sendct, p);
      sendct := sendct + 1;
      net := net + Elems(out);
      l := Apply(config, l, Step.Write(p));
    }

    method SendEpoch()
      requires Valid()
      modifies this`net, this`l
      ensures Valid() && l == Apply(config, old(l), SenderEpoch)
    {
      hide Inv, ValidRun, Contents, Elems;
      StepKeepsInv(config, l, SenderEpoch);
      var out;
      if ban == null {
        out := SendAll(near.databuf);
      } else {
        out := SendAll(ban.databuf);
      }
      net := net + Elems(out);
      l := Apply(config, l, SenderEpoch);
    }

    method ReceiveEpoch()
      requires Valid()
      modifies this`net, this`l
      ensures Valid() && l == Apply(config, old(l), ReceiverEpoch)
    {
      hide Inv, ValidRun, Contents, Elems;
      StepKeepsInv(config, l, ReceiverEpoch);
      var out := SendAll(far.ackbuf);
      net := net + Elems(out) + {MsgAck(config.id, 0)};
      l := Apply(config, l, ReceiverEpoch);
    }

    method RecvData(m: Message)
      requires Valid() && Enabled(l, Step.RecvData(m))
      modifies this`net, this`l, far
      ensures Valid() && l == Apply(config, old(l), Step.RecvData(m))
    {
      hide Inv, ValidRun, AfterData;
      StepKeepsInv(config, l, Step.RecvData(m));
      if m.seqNum >= far.ack {
        var out, first := far.TakeData(config.id, m, readct);
        net := net + Elems(out);
      }
      l := Apply(config, l, Step.RecvData(m));
    }

    method RecvAck(m: Message)
      requires Valid() && Enabled(l, Step.RecvAck(m))
      modifies this`net, this`l, near, if ban == null then {} else {ban}
      ensures Valid() && l == Apply(config, old(l), Step.RecvAck(m))
    {
      hide Inv, ValidRun, AfterAck, AckSends, Elems;
      StepKeepsInv(config, l, Step.RecvAck(m));
      if ban == null {
        var out := near.TakeAck(m.seqNum, sendct);
        net := net + Elems(out);
      } else {
        ban.Heard(m.seqNum);
      }
      l := Apply(config, l, Step.RecvAck(m));
    }

    lemma NextIsData()
      requires Valid()
      ensures readct in far.readbuf ==> far.readbuf[readct].MsgData?
      ensures l.net + Sent(config, l, Step.ReadNext) == l.net
    {
    }

    method ReadNext()
      requires Valid()
      modifies this`readct, this`delivered, this`l, far
      ensures Valid() && l == Apply(config, old(l), Step.ReadNext)
    {
      hide Inv, ValidRun, Sent;
      StepKeepsInv(config, l, Step.ReadNext);
      NextIsData();
      var r := far.Pop(readct);
      if r != [] {
        readct := readct + 1;
        delivered := delivered + [r[0].payload];
      }
      l := Apply(config, l, Step.ReadNext);
    }

    method CloseConn()
      requires Valid() && Enabled(l, Step.CloseConn)
      modifies this`ban, this`net, this`l
      ensures Valid() && l == Apply(config, old(l), Step.CloseConn)
      ensures ban != null && fresh(ban)
    {
      hide Inv, ValidRun, Contents, Elems;
      StepKeepsInv(config, l, Step.CloseConn);
      var hold := new Ban(near.epochLimit, near.addr, config.id, near.databuf + near.writebuf);
      var out := SendAll(near.writebuf);
      ban := hold;
      net := net + Elems(out);
      l := Apply(config, l, Step.CloseConn);
    }

    method Lose(m: Message)
      requires Valid()
      modifies this`net, this`l
      ensures Valid() && l == Apply(config, old(l), Step.Lose(m))
    {
      hide Inv, ValidRun;
      StepKeepsInv(config, l, Step.Lose(m));
      net := net - {m};
      l := Apply(config, l, Step.Lose(m));
    }

    method Result() returns (r: seq<Payload>)
      requires Valid()
      ensures r == l.delivered
    {
      r := delivered;
    }

    method Do(step: Step)
      requires Valid() && Enabled(l, step)
      modifies this, near, far, if ban == null then {} else {ban}
      ensures Valid() && l == Apply(config, old(l), step)
      ensures ban == old(ban) || (ban != null && fresh(ban))
    {
      hide Valid, Apply, Enabled;
      match step
      case Write(p) => Write(p);
      case SenderEpoch => SendEpoch();
      case ReceiverEpoch => ReceiveEpoch();
      case RecvData(m) => RecvData(m);
      case RecvAck(m) => RecvAck(m);
      case ReadNext => ReadNext();
      case CloseConn => CloseConn();
      case Lose(m) => Lose(m);
    }
  }

  /** What the application writes during a run. */
  function Writes(steps: seq<Step>): seq<Payload> {
    if steps == [] then []
    else (if steps[0].Write? then [steps[0].payload] else []) + Writes(steps[1..])
  }

  lemma {:induction false} RunWrites(c: Config, l: State, steps: seq<Step>)
    ensures Run(c, l, steps).written == l.written + Writes(steps)
    decreases |steps|
  {
    hide AfterAck, AfterData, AfterRead, AfterWrite, AckSends, Sent, NewlyAcked;
    if steps != [] {
      RunWrites(c, Apply(c, l, steps[0]), steps[1..]);
    }
  }

  /** Any run of the code of both ends over a network that loses, duplicates and reorders: what the
      receiving application gets is what the transition system delivers, and so the first payloads
      written, in order. */
  method Transmit(c: Config, epochLimit: int, steps: seq<Step>) returns (delivered: seq<Payload>)
    requires Configured(c) && ValidRun(c, INITIAL, steps)
    ensures delivered == Run(c, INITIAL, steps).delivered
    ensures delivered <= Writes(steps)
  {
    hide Session.Valid, Apply, Enabled, Inv;
    var s := new Session(c, epochLimit);
    var i := 0;
    while i < |steps|
      invariant 0 <= i <= |steps| && s.Valid() && s.config == c
      invariant ValidRun(c, s.l, steps[i..]) && Run(c, s.l, steps[i..]) == Run(c, INITIAL, steps)
      invariant fresh(s.near) && fresh(s.far) && (s.ban != null ==> fresh(s.ban))
    {
      assert steps[i..][1..] == steps[i + 1..];
      s.Do(steps[i]);
      i := i + 1;
    }
    delivered := s.Result();
    EndToEnd(c, steps);
    RunWrites(c, INITIAL, steps);
  }
}
