// Whole runs of the scheduler: any order of arrivals, losses and answers, any pattern of failing writes.

module Serve {
  import opened Jobs
  import opened Ledger
  import opened Maps
  import opened Scheduling
  import opened Split
  import Miner

  datatype Event =
    | Join(id: int)
    | Ask(client: int, request: Request)
    | Answer(id: int)
    | Stray(id: int, hash: uint64, nonce: uint64)
    | Loss(id: int)

  /** A request whose split over any table of at most `capacity` miners loses nothing. */
  predicate Takes(e: Event, capacity: nat) {
    e.Ask? && Splittable(e.request.upper, capacity)
  }

  /** The jobs of a run, in order of arrival. */
  function Asked(events: seq<Event>, capacity: nat): seq<Job> {
    if events == [] then []
    else
      var e := events[|events| - 1];
      Asked(events[..|events| - 1], capacity) + if Takes(e, capacity) then [Job(e.client, e.request)] else []
  }

  /** Whose losses are reported during a run, in order. */
  function Lost(events: seq<Event>): seq<int> {
    if events == [] then []
    else
      var e := events[|events| - 1];
      Lost(events[..|events| - 1]) + if e.Loss? then [e.id] else []
  }

  /** The losses are those of the run. */
  ghost predicate Noted(losses: seq<Notice>, lost: seq<int>) {
    |losses| == |lost| && forall i :: 0 <= i < |losses| ==> losses[i].id == lost[i]
  }

  lemma OneMore(events: seq<Event>, i: nat, capacity: nat)
    requires i < |events|
    ensures Asked(events[..i + 1], capacity) ==
            Asked(events[..i], capacity) + if Takes(events[i], capacity) then [Job(events[i].client, events[i].request)]
                else []
    ensures Lost(events[..i + 1]) == Lost(events[..i]) + if events[i].Loss? then [events[i].id] else []
  {
    assert events[..i + 1][..i] == events[..i];
  }

  /** One event. Miners run the search loop on what they were sent; any other result has a nonce that lies in
      no range; a block that ends at 2^64-1 keeps its miner busy for ever; a connection whose range was lost does
      not join again, and neither do more than `capacity` connections. */
  method Step(hash: Hash, s: Scheduler, e: Event, seen: set<int>, capacity: nat) returns (joined: set<int>)
    requires s.Valid() && s.hash == hash && s.capacity == capacity && s.history.joined == seen
    modifies s
    ensures s.Valid() && s.history.joined == joined
    ensures s.history.jobs == old(s.history.jobs) + if Takes(e, capacity) then [Job(e.client, e.request)] else []
    ensures s.history.losses == old(s.history.losses) +
              if e.Loss? then [Notice(e.id, if old(s.run) then old(s.currid) else 0,
                                      old(s.run && e.id in s.miner && s.miner[e.id].Some?))]
              else []
    ensures old(s.run && HasForgotten(s.book.places)) ==>
              s.run && HasForgotten(s.book.places) && s.currid == old(s.currid) && s.log == old(s.log)
  {
    hide Scheduler.Valid, Splittable, HasForgotten, Miner.Honest;
    joined := seen;
    match e
    case Join(id) =>
      if (id in seen || |seen| < capacity) && id !in s.pendrange {
        joined := seen + {id};
        s.HandleJoin(id);
      }
    case Ask(client, request) =>
      if Splittable(request.upper, capacity) {
        s.HandleRequest(client, request);
      }
    case Answer(id) =>
      if id in s.working && s.working[id].upper < MAX64 {
        var h, n := Miner.Search(hash, s.working[id]);
        s.HandleResult(id, h, n);
      }
    case Stray(id, h, n) =>
      if s.Unclaimed(n) {
        s.HandleResult(id, h, n);
      }
    case Loss(id) => s.HandleLost(id);
  }

  /** Over every run, the jobs end in the order they were asked for, each at most once. Whatever is sent goes to
      the requester and is the least (hash, nonce) over 0..upper, whichever miners failed, joined late or took over
      a lost range; and a job is given up exactly when the loss of its requester was reported while it ran, and not
      as that of a miner with a range. */
  method Run(hash: Hash, capacity: nat, events: seq<Event>)
    returns (log: seq<Outcome>, asked: seq<Job>, ghost losses: seq<Notice>)
    ensures asked == Asked(events, capacity) && |log| <= |asked|
    ensures |losses| == |Lost(events)| && forall i :: 0 <= i < |losses| ==> losses[i].id == Lost(events)[i]
    ensures forall k :: 0 <= k < |log| ==>
              var j := asked[k];
              && log[k].client == j.client
              && (log[k].GivenUp? <==>
                   exists i :: 0 <= i < |losses| && losses[i] == Notice(j.client, k + 1, false))
              && (log[k].Sent? ==>
                   && log[k].nonce <= j.request.upper && log[k].hash == hash(j.request.data, log[k].nonce)
                   && forall x: uint64 :: x <= j.request.upper ==>
                        log[k].hash < hash(j.request.data, x)
                        || (log[k].hash == hash(j.request.data, x) && log[k].nonce <= x))
  {
    hide Scheduler.Valid, Splittable;
    var scheduler := new Scheduler(hash, capacity);
    var seen: set<int> := {};
    asked := [];
    for i := 0 to |events|
      invariant scheduler.Valid() && fresh(scheduler) && scheduler.hash == hash && scheduler.capacity == capacity
      invariant scheduler.history.jobs == asked && scheduler.history.joined == seen
      invariant asked == Asked(events[..i], capacity) && Noted(scheduler.history.losses, Lost(events[..i]))
    {
      OneMore(events, i, capacity);
      var e := events[i];
      seen := Step(hash, scheduler, e, seen, capacity);
      asked := asked + if Takes(e, capacity) then [Job(e.client, e.request)] else [];
    }
    log := scheduler.log;
    losses := scheduler.history.losses;
    scheduler.LogIsRight();
    assert events[..|events|] == events;
  }

  /** A miner at work answers. */
  method Reply(hash: Hash, s: Scheduler, i: int)
    requires s.Valid() && s.run && s.hash == hash && i in s.working && s.working[i].upper < MAX64
    modifies s
    ensures s.Valid() && s.history == old(s.history)
    ensures if old(s.block) == 1 && !Empty(old(s.working)[i]) then
              && s.currid == old(s.currid) + 1 && |s.log| == |old(s.log)| + 1
              && s.NoneEmpty(old(s.book.split)) && !old(HasForgotten(s.book.places))
            else
              && s.run && s.currid == old(s.currid) && s.book.split == old(s.book.split) && s.log == old(s.log)
              && (HasForgotten(s.book.places) <==> old(HasForgotten(s.book.places)))
              && (old(s.minerfail) == 0 ==> s.minerfail == 0)
              && s.block == old(s.block) - (if Empty(old(s.working)[i]) then 0 else 1)
              && (Empty(old(s.working)[i]) ==> |s.working| < |old(s.working)|)
  {
    hide Scheduler.Valid, HasForgotten, Miner.Honest, Empty, Scheduler.NoneEmpty, Scheduler.Credits,
         Scheduler.AnswersEmpty;
    s.BlockBounds();
    var h, n := Miner.Search(hash, s.working[i]);
    s.HonestCounts(i, h, n);
    DropSize(s.working, i);
    s.HandleResult(i, h, n);
  }

  /** From any running job, let every miner at work answer. When its split leaves no block without numbers and no
      block was forgotten, the job ends, after as many answers as blocks were open, unless ranges were lost and
      every miner left the table because a write failed; otherwise nobody is at work any more and the job is
      still running. */
  method Settle(hash: Hash, s: Scheduler) returns (answers: nat)
    requires s.Valid() && s.run && s.hash == hash
    requires s.history.jobs[s.currid - 1].request.upper < MAX64
    modifies s
    ensures s.Valid()
    ensures var r, m := old(s.history.jobs[s.currid - 1].request), old(|s.book.split|);
            if m >= 1 && (m - 1) * (BlockSize(r.upper, m) + 1) <= r.upper && !old(HasForgotten(s.book.places)) then
              || (s.currid == old(s.currid) + 1 && |s.log| == |old(s.log)| + 1 && answers == old(s.block))
              || (s.run && s.currid == old(s.currid) && s.log == old(s.log) && s.miner == map[] && old(s.minerfail) > 0)
            else
              s.run && s.currid == old(s.currid) && s.log == old(s.log) && s.working == map[]
  {
    hide Scheduler.Valid, BlockSize, HasForgotten, Empty, Scheduler.NoneEmpty;
    s.WhenBlocksEnd(MAX64 - 1);
    s.BlockBounds();
    ghost var split, log, forgotten := s.book.split, s.log, HasForgotten(s.book.places);
    var current := s.currid;
    answers := 0;
    while s.currid == current && s.working != map[]
      invariant s.Valid() && s.hash == hash && s.history == old(s.history)
      invariant s.currid == current
                || (s.currid == current + 1 && |s.log| == |log| + 1 && s.NoneEmpty(split) && !forgotten
                   && answers == old(s.block))
      invariant s.currid == current ==>
                  s.run && s.book.split == split && s.log == log && (HasForgotten(s.book.places) <==> forgotten)
      invariant s.currid == current && old(s.minerfail) == 0 ==> s.minerfail == 0
      invariant s.currid == current && s.NoneEmpty(split) ==> answers + s.block == old(s.block)
      decreases s.currid == current, if s.currid == current then s.block else 0, |s.working|
    {
      ghost var some := SomeKey(s.working);
      var i :| i in s.working;
      s.WhenBlocksEnd(MAX64 - 1);
      s.BlockBounds();
      Reply(hash, s, i);
      answers := answers + 1;
    }
    if s.currid == current && s.NoneEmpty(split) && !forgotten && (s.minerfail == 0 || s.miner != map[]) {
      var i := s.SomeAtWork();
    }
  }

  // ---------------------------------------------------------------- a second Join

  /** A miner joins, is sent the only block of a job, and joins again. Unless a write failed, the table then calls it
      idle, no range is lost, and the block it was sent is open and with nobody. */
  method SecondJoin(hash: Hash, request: Request) returns (s: Scheduler)
    requires Splittable(request.upper, 1)
    ensures fresh(s) && s.Valid() && s.hash == hash && s.capacity == 1
    ensures s.failures == 0 ==>
              s.run && s.miner == map[1 := None] && s.pendrange.Keys == {} && s.block == 1
                && HasForgotten(s.book.places)
  {
    hide Scheduler.Valid, Splittable, HasForgotten;
    s := new Scheduler(hash, 1);
    s.HandleJoin(1);
    assert s.miner == map[1 := None];
    s.HandleRequest(2, request);
    OneBlock(request.data, request.upper);
    if 1 in s.miner && 1 !in s.pendrange {
      s.HandleJoin(1);
      s.BlockBounds();
      assert s.failures == 0 ==> s.miner == map[1 := None];
    }
  }

  lemma OneBlock(data: string, upper: uint64)
    ensures |Blocks(data, upper, 1)| == 1
  {
  }

  /** After that the job never ends, whatever happens: nothing is logged for it or for any job behind it. */
  method Stuck(hash: Hash, s: Scheduler, capacity: nat, joined: set<int>, events: seq<Event>)
    requires s.Valid() && s.hash == hash && s.capacity == capacity && s.history.joined == joined
    requires s.run && HasForgotten(s.book.places)
    modifies s
    ensures s.Valid() && s.run && HasForgotten(s.book.places) && s.currid == old(s.currid) && s.log == old(s.log)
  {
    hide Scheduler.Valid, HasForgotten;
    var seen := joined;
    for i := 0 to |events|
      invariant s.Valid() && s.hash == hash && s.capacity == capacity && s.history.joined == seen
      invariant s.run && HasForgotten(s.book.places) && s.currid == old(s.currid) && s.log == old(s.log)
    {
      seen := Step(hash, s, events[i], seen, capacity);
    }
  }
}
