// From Close to its signal: every run of the server, when Close is signalled, and whether its promise is kept.

module Closing {
  import opened Connection
  import opened LspServer
  import opened Loss
  import opened Maps
  import opened Messages
  import opened Window

  /** What may happen to the server after Close: messages, connect requests, epochs, read requests, answers
      taken by Read, and close requests. */
  datatype Event = Hears(msg: Message) | Connects(addr: string) | Ticks | Reads | Takes | Closes

  /** Close will be signalled or asked again: a close request waits to be handled, or a connection that is
      waited for is not done yet. */
  ghost predicate Remembered(s: Server)
    reads s
  {
    s.scloses > 0 || exists i :: i in s.conn && On(s.closepend, i) && !On(s.closeack, i)
  }

  /** No request found an open record, or released a connection that had messages left and was not lost. */
  ghost predicate Clean(requests: seq<Request>) {
    forall k :: 0 <= k < |requests| ==> requests[k].openRecords == {} && requests[k].stale == {}
  }

  /** Only the first request finds records. */
  ghost predicate FirstOnly(requests: seq<Request>) {
    forall k :: 0 < k < |requests| ==> requests[k].openRecords == {}
  }

  /** Where Close is: what it dropped is what its requests say. */
  ghost predicate Kept(s: Server)
    reads s
  {
    && s.readclose && (s.closing <==> s.requests != []) && FirstOnly(s.requests)
    && (s.dropped == {} <==> Clean(s.requests))
  }

  /** The events between two close requests leave the history of Close alone. */
  twostate predicate Onward(s: Server)
    reads s
  {
    && s.requests == old(s.requests) && s.dropped == old(s.dropped) && s.over == old(s.over)
    && s.closing == old(s.closing) && s.readclose == old(s.readclose)
    && (old(Remembered(s)) ==> Remembered(s))
    && fresh(s.conn.Values - old(s.conn.Values)) && fresh(s.banclose.Values - old(s.banclose.Values))
  }

  lemma WillBeHandled(s: Server)
    requires s.scloses > 0
    ensures Remembered(s)
  {
  }

  twostate lemma StillRemembered(s: Server)
    requires old(s.scloses) > 0 ==> s.scloses > 0
    requires s.scloses > 0 || forall i :: i in old(s.conn) && old(On(s.closepend, i) && !On(s.closeack, i)) ==>
                                            i in s.conn && On(s.closepend, i) && !On(s.closeack, i)
    ensures old(Remembered(s)) ==> Remembered(s)
  {
  }

  method Hear(s: Server, m: Message) returns (panics: bool)
    requires s.Valid() && !m.MsgConnect?
    modifies s, s.conn.Values, s.banclose.Values
    ensures s.Valid() && Onward(s)
  {
    hide Remembered, Server.Valid, AfterAck, AckSends, AfterData, Elems, ServerStep, Server.TakesData, Server.TakesAck,
         Server.Hears;
    s.AllLive();
    s.AllBans();
    var out;
    out, panics := s.HandleReceive(m);
    StillRemembered(s);
  }

  method ConnectKnown(s: Server, addr: string)
    requires s.Valid() && addr in s.addmap
    modifies s, s.conn.Values
    ensures s.Valid() && Onward(s)
  {
    hide Remembered, Server.Valid, ServerStep, Server.Joined, Server.Enlisted;
    s.Addresses();
    var out := s.HandleConnect(addr);
    StillRemembered(s);
  }

  method ConnectNew(s: Server, addr: string)
    requires s.Valid() && addr !in s.addmap
    modifies s, s.conn.Values
    ensures s.Valid() && Onward(s)
  {
    hide Remembered, Server.Valid, ServerStep, Server.Joined;
    s.IdsIssued();
    var out := s.HandleConnect(addr);
    StillRemembered(s);
  }

  method Connect(s: Server, addr: string)
    requires s.Valid()
    modifies s, s.conn.Values
    ensures s.Valid() && Onward(s)
  {
    hide Remembered, Server.Valid;
    if addr in s.addmap {
      ConnectKnown(s, addr);
    } else {
      ConnectNew(s, addr);
    }
  }

  method Tick(s: Server)
    requires s.Valid() && s.readclose
    modifies s, s.conn.Values, s.banclose.Values
    ensures s.Valid() && Onward(s)
  {
    hide Remembered, Server.Valid, Elems, Server.BanTicked, Reports, ServerFinds, ServerStep, Server.Resends;
    s.AllLive();
    s.AllBans();
    var bans, sent, told, stay := s.HandleEpoch();
    StillRemembered(s);
  }

  method Read(s: Server)
    requires s.Valid() && s.sreads > 0
    modifies s, s.conn.Values
    ensures s.Valid() && Onward(s)
  {
    hide Remembered, Server.Valid, AfterRead;
    s.AllLive();
    ghost var from := s.HandleRead();
    StillRemembered(s);
  }

  method Take(s: Server)
    requires s.Valid() && s.reading && s.reply != []
    modifies s
    ensures s.Valid() && Onward(s)
  {
    hide Remembered, Server.Valid;
    var r := s.FinishRead();
    StillRemembered(s);
  }

  lemma OneMoreRequest(before: seq<Request>, r: Request, dropped: set<int>)
    requires (dropped == {} <==> Clean(before)) && FirstOnly(before) && (before == [] || r.openRecords == {})
    ensures dropped + r.openRecords + r.stale == {} <==> Clean(before + [r])
    ensures FirstOnly(before + [r])
  {
    if Clean(before + [r]) {
      assert (before + [r])[|before|] == r;
      assert forall k :: 0 <= k < |before| ==> (before + [r])[k] == before[k];
    }
  }

  /** A connection that blocks Close, if there is one. */
  lemma Blocker(s: Server) returns (i: int)
    requires s.Valid()
    ensures (exists j :: j in s.conn && s.Blocks(j)) ==>
              i in s.conn && s.Holds(s.conn[i], On(s.closepend, i)) && !On(s.closeack, i) && !s.conn[i].losted
  {
    hide Server.Valid;
    i := 0;
    if j :| j in s.conn && s.Blocks(j) {
      i := j;
      s.BlocksMeans(j);
    }
  }

  /** A close request: Close is signalled, or something is still waited for. */
  method Request(s: Server) returns (signalled: bool)
    requires s.Valid() && s.scloses > 0 && Kept(s)
    modifies s
    ensures s.Valid() && Kept(s) && s.requests != [] && s.over == old(s.over) + if signalled then 1 else 0
    ensures s.conn.Values <= old(s.conn.Values) && s.banclose == map[]
    ensures !signalled ==> Remembered(s)
    ensures signalled ==>
              (s.KeepsPromise() <==> Clean(s.requests) && s.requests[|s.requests| - 1].behind == {})
  {
    hide Server.Valid, Server.Stale, Server.Honoured, Server.Settled, Server.KeepsPromise, Server.Stales,
         Server.Behind, Clean, FirstOnly;
    s.AllLive();
    s.HistoryMeans();
    var n := s.over;
    ghost var r0, d0 := s.requests, s.dropped;
    ghost var b := Blocker(s);
    s.HandleClose();
    SubmapValues(s.conn, old(s.conn));
    OneMoreRequest(r0, s.requests[|r0|], d0);
    signalled := s.over > n;
    LastIsClean(s.requests);
  }

  lemma LastIsClean(requests: seq<Request>)
    requires requests != []
    ensures Clean(requests) ==>
              Clean(requests[..|requests| - 1]) && requests[|requests| - 1].openRecords == {}
                && requests[|requests| - 1].stale == {}
    ensures requests[..|requests| - 1] + [requests[|requests| - 1]] == requests
  {
  }

  /** Over every run from Close on, until it is signalled or the server panics: as long as it is not signalled
      it is not forgotten; and when it is, its promise is kept exactly when no record had a message left at the
      first close request, no request released a connection that was established, not lost and had messages
      left, and at the last one nothing that was not waited for had any. */
  method Run(s: Server, events: seq<Event>) returns (signalled: bool, panics: bool)
    requires s.Valid() && s.readclose && !s.closing && s.scloses > 0
    modifies s, s.conn.Values, s.banclose.Values
    ensures s.Valid() && FirstOnly(s.requests) && s.over == old(s.over) + if signalled then 1 else 0
    ensures !signalled && !panics ==> Remembered(s)
    ensures signalled ==>
              && s.requests != []
              && (s.KeepsPromise() <==> Clean(s.requests) && s.requests[|s.requests| - 1].behind == {})
  {
    hide Server.Valid, Server.KeepsPromise, Remembered, Clean, FirstOnly;
    s.HistoryMeans();
    NoRequests();
    WillBeHandled(s);
    signalled, panics := false, false;
    var i := 0;
    while i < |events| && !signalled && !panics
      invariant s.Valid() && Kept(s) && s.over == old(s.over) + if signalled then 1 else 0
      invariant !signalled && !panics ==> Remembered(s)
      invariant signalled ==>
                  && s.requests != []
                  && (s.KeepsPromise() <==> Clean(s.requests) && s.requests[|s.requests| - 1].behind == {})
      invariant fresh(s.conn.Values - old(s.conn.Values)) && fresh(s.banclose.Values - old(s.banclose.Values))
    {
      var e := events[i];
      i := i + 1;
      match e
      case Hears(m) => if !m.MsgConnect? { panics := Hear(s, m); }
      case Connects(addr) => Connect(s, addr);
      case Ticks => Tick(s);
      case Reads => if s.sreads > 0 { Read(s); }
      case Takes => if s.reading && s.reply != [] { Take(s); }
      case Closes => if s.scloses > 0 { signalled := Request(s); }
    }
  }

  lemma NoRequests()
    ensures Clean([]) && FirstOnly([])
  {
  }
}
