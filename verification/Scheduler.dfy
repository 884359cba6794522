// The mining server: one job at a time, its range cut into blocks, the blocks followed through
// failures, joins and reassignment, the answers merged.

module Scheduling {
  import opened Jobs
  import opened Ledger
  import opened Maps
  import opened Split
  import Miner

  class Scheduler {
    ghost const hash: Hash
    ghost const capacity: nat

    var pendclients: map<int, int>
    var pendjobs: Ranges
    var miner: Table
    var pendminer: map<int, int>
    var pendrange: Ranges
    var run: bool
    var block: int
    var reqct: int
    var curclient: int
    var currid: int
    var ans1: uint64
    var ans2: uint64
    var jobgiveup: bool
    var minerfail: int

    // The far ends: what each miner connection was sent and has not answered, and what became of each job.
    var working: Ranges
    var log: seq<Outcome>

    ghost var history: History
    ghost var book: Book

    // How many writes to miners have failed.
    ghost var failures: nat

    /** The jobs wait in order of arrival and their outcomes are right. */
    ghost predicate Queue()
      reads this`history, this`log, this`currid, this`reqct, this`run, this`pendclients, this`pendjobs
    {
      && reqct == |history.jobs| + 1 && |log| == currid - 1 && currid + (if run then 1 else 0) <= reqct
      && Queued(pendclients, pendjobs, history.jobs, if run then currid + 1 else currid)
      && Answered(hash, history, log) && (forall i :: 0 <= i < |history.losses| ==>
           history.losses[i].job < currid || (run && history.losses[i].job == currid))
      && Fits(history.jobs, capacity)
    }

    /** Miners and lost ranges belong to connections that joined; none waits outside the table. */
    ghost predicate Roster()
      reads this`history, this`miner, this`pendrange, this`pendminer
    {
      && |history.joined| <= capacity && miner.Keys <= history.joined
      && (forall j :: j in pendrange ==> j in history.joined)
      && pendminer == map[]
    }

    /** The blocks are accounted for, `minerfail` counts the lost ones, and every miner with a block that
        has numbers was sent it and works on it. */
    ghost predicate Conserved()
      reads this`miner, this`pendrange, this`minerfail, this`working, this`book, this`failures
    {
      && Balanced(miner, pendrange, book)
      && minerfail == |pendrange|
      && AtWork(miner, working)
    }

    /** The request of the running job. */
    ghost function Current(): Request
      requires 1 <= currid <= |history.jobs|
      reads this`history, this`currid
    {
      history.jobs[currid - 1].request
    }

    ghost predicate Running()
      reads this`history, this`currid, this`book, this`block, this`curclient, this`jobgiveup, this`ans1, this`ans2
    {
      && 1 <= currid <= |history.jobs|
      && |book.places| == |book.split| >= 1
      && CutOf(Current(), book.split) && Cuts(Current().upper, |book.split|)
      && book.split == Blocks(Current().data, Current().upper, |book.split|)
      && block == Open(book.places)
      && curclient == history.jobs[currid - 1].client && (jobgiveup <==> Quit(history.losses, curclient, currid))
      && Best(hash, Current(), book, ans1, ans2)
    }

    ghost predicate Waiting()
      reads this`miner, this`pendrange, this`working, this`book, this`failures
    {
      AllIdle(miner) && (forall j :: j !in pendrange) && (forall j :: j !in working) && book.places == []
    }

    /** While a lost block waits, no miner in the table is idle. */
    ghost predicate WorkConserving()
      reads this`miner, this`pendrange
    {
      (forall j :: j !in pendrange) || NoneIdle(miner)
    }

    ghost predicate Valid()
      reads this
    {
      && Queue() && Roster() && Conserved() && WorkConserving()
      && if run then Running() && block > 0
         else Waiting() && (miner == map[] || currid == reqct)
    }

    constructor (ghost hash: Hash, ghost capacity: nat)
      ensures Valid() && this.hash == hash && this.capacity == capacity
      ensures history == History([], {}, []) && log == [] && !run && failures == 0
      ensures currid == reqct == 1 && miner == map[] && pendrange == map[] && working == map[]
    {
      this.hash, this.capacity := hash, capacity;
      pendclients, pendjobs, miner, pendminer, pendrange := map[], map[], map[], map[], map[];
      run, block, reqct, curclient, currid := false, 0, 1, 1, 1;
      ans1, ans2, jobgiveup, minerfail := 0, 0, false, 0;
      working, log := map[], [];
      history, book, failures := History([], {}, []), Book([], [], map[]), 0;
    }

    /** A write to a miner may fail at any time. */
    method Send(id: int, r: Request) returns (failed: bool)
      modifies this`working, this`failures
      ensures if failed then working == old(working) && failures == old(failures) + 1
              else working == old(working)[id := r] && failures == old(failures)
    {
      failed := *;
      if failed {
        failures := failures + 1;
      } else {
        working := working[id := r];
      }
    }

    // ---------------------------------------------------------------- reassign and resize

    /** The lost range `j` has gone to the miner `i`. */
    method Hand(i: int, j: int, ghost b: Book)
      requires j in pendrange
      modifies this`pendrange, this`minerfail, this`book
      ensures pendrange == old(pendrange) - {j} && minerfail == old(minerfail) - 1 && book == b
    {
      minerfail := minerfail - 1;
      book := b;
      pendrange := pendrange - {j};
    }

    /** Offer the lost range `j` to the idle miner `i`. */
    method Offer(i: int, j: int) returns (failed: bool)
      requires Conserved() && i in miner && miner[i].None? && j in pendrange
      modifies this`miner, this`pendrange, this`minerfail, this`working, this`book, this`failures
      ensures Conserved() && SameProgress(old(book), book)
      ensures failed ==> miner == old(miner) - {i} && pendrange == old(pendrange) && failures == old(failures) + 1
      ensures !failed ==> Took(old(miner), old(pendrange), miner, pendrange, i, j) && failures == old(failures)
      ensures |miner| + failures == |old(miner)| + old(failures)
    {
      hide Balanced, AtWork, SameProgress, Pass;
      ghost var before := miner;
      SameAsBefore(book);
      HasSlot(miner, pendrange, book, j);
      Given(miner, working, i, pendrange[j]);
      IdleDropped(miner, pendrange, book, i);
      Reassigned(miner, pendrange, book, i, j);
      DropSize(pendrange, j);
      DropSize(miner, i);
      miner := miner[i := Some(pendrange[j])];
      failed := Send(i, pendrange[j]);
      if failed {
        miner := miner - {i};
        assert miner == before - {i};
      } else {
        Hand(i, j, Pass(book, j, i));
      }
    }

    /** The inner loop of `reassign`: the lost range `j` goes to the first idle miner that takes it. */
    method Place(j: int)
      requires Conserved() && j in pendrange
      modifies this`miner, this`pendrange, this`minerfail, this`working, this`book, this`failures
      ensures Conserved() && SameProgress(old(book), book) && miner.Keys <= old(miner.Keys) && failures >= old(failures)
      ensures pendrange == old(pendrange) - {j} || (pendrange == old(pendrange) && NoneIdle(miner))
      ensures old(NoneIdle(miner)) ==> NoneIdle(miner) && unchanged(this)
      ensures failures == old(failures) && !old(NoneIdle(miner)) ==>
                OneTook(old(miner), old(pendrange), miner, pendrange)
      ensures |miner| + failures == |old(miner)| + old(failures)
    {
      hide Conserved, SameProgress, NoneIdle, OneTook;
      SameAsBefore(book);
      var ids := miner.Keys;
      ghost var m0, p0 := miner, pendrange;
      while ids != {}
        invariant Conserved() && SameProgress(old(book), book) && pendrange == p0 && failures >= old(failures)
        invariant ids <= miner.Keys <= m0.Keys && NotTaken(m0, miner, ids)
        invariant old(NoneIdle(miner)) ==> unchanged(this)
        invariant failures == old(failures) ==> miner == m0
        invariant |miner| + failures == |m0| + old(failures)
        decreases ids
      {
        ghost var some := SomeMember(ids);
        var i :| i in ids;
        ids := ids - {i};
        if miner[i].None? {
          ghost var b := book;
          IdleOneIdle(m0, miner, ids + {i}, i);
          var failed := Offer(i, j);
          SameFurther(old(book), b, book);
          if !failed {
            TookOne(m0, p0, miner, pendrange, i, j);
            return;
          }
        }
      }
      AllTaken(m0, miner);
    }

    /** Every lost range is offered around: either none is left or no miner in the table is idle,
        whichever writes fail; what a miner took was sent to it. With one idle miner or one lost range, and
        no write failing, one range goes to one miner. */
    method Reassign()
      requires Conserved()
      modifies this`miner, this`pendrange, this`minerfail, this`working, this`book, this`failures
      ensures Conserved() && WorkConserving() && SameProgress(old(book), book) && failures >= old(failures)
      ensures miner.Keys <= old(miner.Keys) && forall j :: j in pendrange ==> j in old(pendrange)
      ensures old(NoneIdle(miner)) || old(pendrange).Keys == {} ==> unchanged(this)
      ensures failures == old(failures) && old(Single(miner, pendrange)) && !old(NoneIdle(miner))
              && old(pendrange).Keys != {} ==>
                OneTook(old(miner), old(pendrange), miner, pendrange)
      ensures Cost(old(miner), miner, failures - old(failures))
    {
      hide Cost, Conserved, SameProgress, NoneIdle, OneTook, Single;
      SameAsBefore(book);
      if |pendrange| != 0 {
        var todo := pendrange.Keys;
        ghost var m0, p0 := miner, pendrange;
        while todo != {}
          invariant Conserved() && SameProgress(old(book), book) && failures >= old(failures)
          invariant miner.Keys <= m0.Keys && todo <= pendrange.Keys
          invariant forall j :: j in pendrange ==> j in p0
          invariant todo == pendrange.Keys || NoneIdle(miner)
          invariant NoneIdle(m0) ==> unchanged(this)
          invariant |miner| + failures == |m0| + old(failures)
          invariant failures == old(failures) && Single(m0, p0) && !NoneIdle(m0) ==>
                      || (miner == m0 && pendrange == p0 && todo == p0.Keys)
                      || (OneTook(m0, p0, miner, pendrange) && (NoneIdle(miner) || todo == {}))
          decreases todo
        {
          ghost var some := SomeMember(todo);
          ghost var b, m, p, f := book, miner, pendrange, failures;
          var j :| j in todo;
          todo := todo - {j};
          Place(j);
          SameFurther(old(book), b, book);
          if f == failures == old(failures) && m == m0 && p == p0 && Single(m0, p0)
            && OneTook(m0, p0, miner, pendrange) {
            TookAll(m0, p0, miner, pendrange);
          }
        }
        CostIs(m0, miner, failures - old(failures));
      } else {
        NoKeys(pendrange);
        CostNone(miner);
      }
    }

    /** Waiting miners enter the table, idle. */
    method Resize()
      modifies this`miner, this`pendminer
      ensures pendminer == map[] && miner == old(miner) + Idle(old(pendminer).Keys)
    {
      if pendminer != map[] {
        var ids := pendminer.Keys;
        while ids != {}
          invariant ids == pendminer.Keys <= old(pendminer.Keys)
          invariant miner == old(miner) + Idle(old(pendminer).Keys - ids)
          decreases ids
        {
          ghost var some := SomeMember(ids);
          var i :| i in ids;
          IdleMore(old(miner), old(pendminer).Keys, ids, i);
          ids := ids - {i};
          miner := miner[i := None];
          pendminer := pendminer - {i};
        }
        NoKeys(pendminer);
      }
    }

    /** Between events none waits. */
    method ResizeNone()
      requires Roster()
      modifies this`miner, this`pendminer
      ensures unchanged(`miner, `pendminer)
    {
      IdleNone(miner);
      Resize();
    }

    // ---------------------------------------------------------------- assign

    /** Hand block `r` to miner `i`: it is sent and entered, or lost. */
    method HandOut(i: int, r: Request)
      requires Conserved() && i in miner && miner[i].None?
      requires |book.places| < |book.split| && r == book.split[|book.places|]
      modifies this`miner, this`pendrange, this`minerfail, this`working, this`book, this`failures
      ensures Conserved() && Open(book.places) == Open(old(book.places)) + 1
      ensures |book.places| == |old(book.places)| + 1 && book.split == old(book.split)
      ensures miner == old(miner)[i := Some(r)] || miner == old(miner) - {i}
      ensures forall j :: j in pendrange ==> j == i || j in old(pendrange)
      ensures failures >= old(failures) && (failures == old(failures) ==> i in miner && pendrange == old(pendrange))
      ensures |miner| + failures == |old(miner)| + old(failures)
    {
      hide Balanced, AtWork, Open;
      ghost var before, b := miner, book;
      Given(miner, working, i, r);
      DropSize(miner, i);
      assert i !in pendrange by {
        Apart(miner, pendrange, book);
      }
      var failed := Send(i, r);
      miner := miner[i := Some(r)];
      if failed {
        HandOutFailed(before, pendrange, b, i);
        OpenAppend(b.places, LostBy(i));
        minerfail := minerfail + 1;
        pendrange := pendrange[i := r];
        miner := miner - {i};
        book := Append(b, i, LostBy(i));
        assert miner == before - {i};
      } else {
        HandedOut(before, pendrange, b, i);
        OpenAppend(b.places, HeldBy(i));
        book := Append(b, i, HeldBy(i));
      }
    }

    /** The block of one pass of the loop, wrapping at 2^64. */
    method CutOff(r: Request, size: int, ct: nat, ghost m: int) returns (temp: Request)
      requires m >= 1 && size == BlockSize(r.upper, m) && ct < m
      ensures temp == Blocks(r.data, r.upper, m)[ct]
    {
      var stride := (size + 1) % TWO64;
      var lower := (ct * stride) % TWO64;
      var upper := (lower + size) % TWO64;
      if upper > r.upper {
        upper := r.upper;
      }
      temp := Request(r.data, lower, upper);
      BlockAt(r.data, r.upper, m, m, ct);
    }

    /** The loop of `assign`: block number `ct` goes to the `ct`-th miner visited. */
    method Deal(r: Request, size: int)
      requires Conserved() && Waiting() && miner != map[]
      requires size == BlockSize(r.upper, |miner|) && book.split == Blocks(r.data, r.upper, |miner|)
      modifies this`miner, this`pendrange, this`minerfail, this`working, this`book, this`failures
      ensures Conserved() && NoneIdle(miner) && book.split == old(book.split)
      ensures |book.places| == |book.split| == Open(book.places) == old(|miner|)
      ensures miner.Keys <= old(miner.Keys) && forall j :: j in pendrange ==> j in old(miner)
      ensures failures >= old(failures)
              && (failures == old(failures) ==> miner.Keys == old(miner).Keys && pendrange == old(pendrange))
      ensures |miner| + failures == |old(miner)| + old(failures)
    {
      hide Conserved, Open, BlockSize, Blocks;
      var ct := 0;
      ghost var m := |miner|;
      var ids := miner.Keys;
      NothingOpen();
      while ids != {}
        invariant Conserved() && book.split == old(book.split)
        invariant |book.places| == ct == Open(book.places) && ct + |ids| == m == |book.split|
        invariant ids <= miner.Keys <= old(miner.Keys) && forall j :: j in pendrange ==> j in old(miner)
        invariant forall i :: i in miner ==> (miner[i].None? <==> i in ids)
        invariant failures >= old(failures)
                  && (failures == old(failures) ==> miner.Keys == old(miner).Keys && pendrange == old(pendrange))
        invariant |miner| + failures == m + old(failures)
        decreases ids
      {
        ghost var some := SomeMember(ids);
        var i :| i in ids;
        ids := ids - {i};
        var temp := CutOff(r, size, ct, m);
        ct := ct + 1;
        HandOut(i, temp);
      }
    }

    /** Take the next job off the queue; its split over the miners there are loses nothing. */
    method Dequeue() returns (hold: Request)
      requires Queue() && Roster() && !run && currid < reqct && miner != map[]
      modifies this`jobgiveup, this`curclient, this`pendjobs, this`pendclients
      ensures Queued(pendclients, pendjobs, history.jobs, currid + 1)
      ensures Job(curclient, hold) == history.jobs[currid - 1] && !jobgiveup
      ensures Cuts(hold.upper, |miner|)
    {
      hide Answered, Cuts;
      SubsetSize(miner.Keys, history.joined);
      ghost var some := SomeKey(miner);
      ghost var j := history.jobs[currid - 1];
      assert Splittable(j.request.upper, capacity) && 1 <= |miner| <= capacity;
      Dequeued(pendclients, pendjobs, history.jobs, currid);
      jobgiveup := false;
      hold := pendjobs[currid];
      curclient := pendclients[currid];
      pendjobs := pendjobs - {currid};
      pendclients := pendclients - {currid};
    }

    /** Cut the range of `r` into one block per miner and hand the blocks out. */
    method Start(r: Request)
      requires Conserved() && Waiting() && miner != map[] && Cuts(r.upper, |miner|)
      modifies this`ans1, this`ans2, this`block, this`miner, this`pendrange, this`minerfail, this`working, this`book
      modifies this`failures
      ensures Conserved() && NoneIdle(miner) && block == |book.places| == |book.split| == Open(book.places) > 0
      ensures book.split == Blocks(r.data, r.upper, old(|miner|)) && CutOf(r, book.split) && Cuts(r.upper, |book.split|)
      ensures Best(hash, r, book, ans1, ans2)
      ensures miner.Keys <= old(miner.Keys) && forall j :: j in pendrange ==> j in old(miner)
      ensures failures >= old(failures)
              && (failures == old(failures) ==> miner.Keys == old(miner).Keys && pendrange == old(pendrange))
      ensures |miner| + failures == |old(miner)| + old(failures)
    {
      hide CutOf, Cuts, Best, Balanced;
      ghost var some := SomeKey(miner);
      BlocksCut(r, |miner|);
      var size := r.upper / |miner|;
      if r.upper % |miner| != 0 {
        size := size + 1;
      }
      ans1 := MAX64;
      ans2 := r.upper;
      block := |miner|;
      StillBalanced(miner, pendrange, book, Blocks(r.data, r.upper, |miner|));
      book := Book(Blocks(r.data, r.upper, |miner|), [], map[]);
      Deal(r, size);
      BestBefore(hash, r, book);
    }

    /** The next job is taken off the queue, and its range is cut over the miners of the table and handed out. */
    method Begin()
      requires Queue() && Roster() && Conserved() && Waiting() && !run && miner != map[] && currid < reqct
      modifies this`jobgiveup, this`curclient, this`pendjobs, this`pendclients
      modifies this`ans1, this`ans2, this`block, this`miner, this`pendrange, this`minerfail, this`working, this`book
      modifies this`failures
      ensures Queued(pendclients, pendjobs, history.jobs, currid + 1) && Roster() && Conserved() && Running()
              && block > 0
      ensures var r := history.jobs[currid - 1].request; book.split == Blocks(r.data, r.upper, old(|miner|))
      ensures curclient == history.jobs[currid - 1].client
      ensures NoneIdle(miner) && failures >= old(failures) && !jobgiveup
      ensures failures == old(failures) ==> miner.Keys == old(miner).Keys && pendrange.Keys == {}
      ensures Cost(old(miner), miner, failures - old(failures))
    {
      hide Cost, Conserved, Best, CutOf, Cuts, Answered, Fits, Blocks, Open, Waiting, Queued, NoneIdle;
      NothingWaits();
      var hold := Dequeue();
      ghost var m0, f := miner, failures;
      Start(hold);
      CostIs(m0, miner, failures - f);
    }

    /** Start the job whose turn it is: its range is cut over the miners of the table, and what is not lost
        at once is sent. */
    method Assign()
      requires Queue() && Roster() && Conserved() && Waiting() && !run && miner != map[] && currid < reqct
      modifies this`run
      modifies this`jobgiveup, this`curclient, this`pendjobs, this`pendclients
      modifies this`ans1, this`ans2, this`block, this`miner, this`pendrange, this`minerfail, this`working, this`book
      modifies this`failures
      ensures Valid() && run && !jobgiveup
      ensures var r := history.jobs[currid - 1].request; book.split == Blocks(r.data, r.upper, old(|miner|))
      ensures curclient == history.jobs[currid - 1].client
      ensures NoneIdle(miner) && failures >= old(failures)
      ensures failures == old(failures) ==> miner.Keys == old(miner).Keys && pendrange.Keys == {}
      ensures Cost(old(miner), miner, failures - old(failures))
    {
      hide Cost, Roster, Conserved, Running, Answered, Fits, Blocks, Waiting, Queued, NoneIdle;
      Begin();
      run := true;
    }

    // ---------------------------------------------------------------- the event loop

    /** The outcome of the finished job: its answer is sent, unless the requester is gone. */
    method Report()
      requires Queue() && Conserved() && run && Running() && block == 0
      modifies this`log
      ensures |log| == |old(log)| + 1 && old(log) <= log && Answered(hash, history, log)
      ensures log[|old(log)|].GivenUp? <==> jobgiveup
    {
      hide Queued, Fits, Balanced, AtWork, Best, CutOf, Cuts, Blocks, Open, Right, Answered;
      AllFinished(miner, pendrange, book);
      BestAtEnd(hash, Current(), book, ans1, ans2);
      ghost var before := log;
      RightAnswer(hash, history.jobs[currid - 1], ans1, ans2);
      if !jobgiveup {
        log := log + [Sent(curclient, ans1, ans2)];
      } else {
        log := log + [GivenUp(curclient)];
      }
      AnsweredOne(hash, history, before, log[|before|]);
    }

    /** With every block finished nothing is held, lost or worked on, and nothing was forgotten. */
    lemma AllDone()
      requires Conserved() && Running() && block == 0
      ensures AllIdle(miner) && (forall j :: j !in pendrange) && (forall j :: j !in working)
      ensures Balanced(miner, pendrange, Book([], [], map[]))
      ensures NoneEmpty(book.split) && !HasForgotten(book.places)
    {
      AllFinished(miner, pendrange, book);
      NoneWorks(miner, working);
      NothingHeld(miner, pendrange, book);
    }

    /** The job is done: its outcome goes to the log and the scheduler is idle. */
    method Conclude()
      requires Queue() && Roster() && Conserved() && run && Running() && block == 0
      modifies this`log, this`run, this`currid, this`book
      ensures Queue() && Roster() && Conserved() && Waiting() && !run
      ensures currid == old(currid) + 1 && |log| == |old(log)| + 1 && old(log) <= log
      ensures log[|old(log)|].GivenUp? <==> jobgiveup
      ensures NoneEmpty(old(book.split)) && !HasForgotten(old(book.places))
    {
      hide Running, Balanced, Answered, Fits, Queued, AtWork;
      AllDone();
      LastQuit();
      Report();
      run := false;
      currid := currid + 1;
      book := Book([], [], map[]);
    }

    lemma LastQuit()
      requires Queue() && run
      ensures forall i :: 0 <= i < |history.losses| ==> history.losses[i].job <= currid
    {
    }

    /** The next job starts if there is one. */
    method StartNext()
      requires Queue() && Roster() && Conserved() && Waiting() && !run && miner != map[]
      modifies this`jobgiveup, this`curclient, this`pendjobs, this`pendclients, this`run, this`pendminer
      modifies this`ans1, this`ans2, this`block, this`miner, this`pendrange, this`minerfail, this`working, this`book
      modifies this`failures
      ensures Valid() && (run <==> currid < reqct) && failures >= old(failures)
      ensures !run ==> miner == old(miner) && pendrange.Keys == {} && failures == old(failures)
      ensures run ==>
                var j := history.jobs[currid - 1];
                && curclient == j.client && !jobgiveup && NoneIdle(miner)
                && book.split == Blocks(j.request.data, j.request.upper, |old(miner)|)
                && (failures == old(failures) ==> miner.Keys == old(miner).Keys && pendrange.Keys == {})
      ensures Cost(old(miner), miner, failures - old(failures))
    {
      hide Cost, Queue, Roster, Conserved, Waiting, Running, Valid, NoneIdle, Blocks;
      NothingWaits();
      NextWaits();
      CostNone(miner);
      if |pendjobs| != 0 && currid < reqct {
        ResizeNone();
        Assign();
      } else {
        StaysIdle();
      }
    }

    lemma NextWaits()
      requires Queue() && !run
      ensures (currid < reqct ==> |pendjobs| != 0) && currid <= reqct
    {
      hide Answered, Fits;
      assert currid < reqct ==> currid in pendjobs;
    }

    /** The job is done, and the next one starts if there is one. */
    method Finish()
      requires Queue() && Roster() && Conserved() && run && Running() && block == 0 && miner != map[]
      modifies this`log, this`currid
      modifies this`jobgiveup, this`curclient, this`pendjobs, this`pendclients, this`run, this`pendminer
      modifies this`ans1, this`ans2, this`block, this`miner, this`pendrange, this`minerfail, this`working, this`book
      modifies this`failures
      ensures Valid() && (run <==> currid < reqct) && failures >= old(failures)
      ensures !run ==> miner == old(miner) && pendrange.Keys == {} && failures == old(failures)
      ensures run ==>
                var j := history.jobs[currid - 1];
                && curclient == j.client && !jobgiveup && NoneIdle(miner)
                && book.split == Blocks(j.request.data, j.request.upper, |old(miner)|)
                && (failures == old(failures) ==> miner.Keys == old(miner).Keys && pendrange.Keys == {})
      ensures currid == old(currid) + 1 && |log| == |old(log)| + 1 && old(log) <= log
      ensures log[|old(log)|].GivenUp? <==> old(jobgiveup)
      ensures NoneEmpty(old(book.split)) && !HasForgotten(old(book.places))
      ensures Cost(old(miner), miner, failures - old(failures))
    {
      hide Cost, Queue, Roster, Conserved, Running, Waiting, HasForgotten, NoneEmpty, NoneIdle, Blocks;
      Conclude();
      StartNext();
    }

    /** The range of a miner that joins again is forgotten: the table calls it idle. */
    method Forget(id: int)
      requires id in miner && miner[id].Some? && Conserved()
      modifies this`working, this`book
      ensures working == old(working) - {id} && book == Mark(old(book), id, Forgotten)
      ensures Balanced(miner[id := None], pendrange, book) && AtWork(miner[id := None], working)
      ensures SameDone(old(book), book) && HasForgotten(book.places)
    {
      hide Balanced, AtWork, SameDone, HasForgotten, Mark;
      HeldBlock(miner, pendrange, book, id);
      RangeForgotten(miner, pendrange, book, id);
      Taken(miner, working, id);
      working := working - {id};
      book := Mark(book, id, Forgotten);
    }

    /** A connection that holds nothing may be called idle. */
    lemma MayEnter(id: int)
      requires Conserved() && id !in pendrange && (id in miner ==> miner[id].None?)
      ensures Balanced(miner[id := None], pendrange, book) && AtWork(miner[id := None], working) && SameDone(book, book)
    {
      hide Balanced, AtWork;
      IdleEntryIff(miner, pendrange, book, id);
      Ledger.Entered(miner, working, id);
    }

    method PassThrough(id: int)
      requires pendminer == map[]
      modifies this`pendminer, this`miner
      ensures pendminer == map[] && miner == old(miner)[id := None]
    {
      IdleOne(miner, id);
      pendminer := pendminer[id := 0];
      assert pendminer.Keys == {id};
      Resize();
    }

    /** A connection enters the table, idle, by way of `pendminer`. */
    method Enter(id: int)
      requires Roster() && Conserved() && id in history.joined && id !in pendrange
      modifies this`pendminer, this`miner, this`working, this`book
      ensures Roster() && Conserved() && miner == old(miner)[id := None] && SameDone(old(book), book)
      ensures HasForgotten(book.places) <==>
                old(HasForgotten(book.places)) || (id in old(miner) && old(miner)[id].Some?)
      ensures working == old(working) - if id in old(miner) && old(miner)[id].Some? then {id} else {}
    {
      hide Balanced, AtWork, SameDone, HasForgotten, Mark;
      if id in miner && miner[id].Some? {
        Forget(id);
      } else {
        MayEnter(id);
      }
      PassThrough(id);
    }

    /** A connection enters the table while a job runs, and takes a lost range if there is one. */
    method TakeIn(id: int)
      requires Roster() && Conserved() && WorkConserving() && id in history.joined && id !in pendrange
      modifies this`pendminer, this`miner, this`pendrange, this`minerfail, this`working, this`book, this`failures
      ensures Roster() && Conserved() && WorkConserving() && SameDone(old(book), book)
      ensures HasForgotten(book.places) <==>
                old(HasForgotten(book.places)) || (id in old(miner) && old(miner)[id].Some?)
      ensures old(pendrange).Keys == {} ==>
                miner == old(miner)[id := None] && pendrange == old(pendrange) && failures == old(failures)
      ensures old(pendrange).Keys != {} && failures == old(failures) ==>
                TookBy(old(miner)[id := None], old(pendrange), miner, pendrange, id)
      ensures failures >= old(failures)
      ensures Cost(old(miner)[id := None], miner, failures - old(failures))
    {
      hide Cost, Conserved, SameProgress, SameDone, HasForgotten, NoneIdle, Single, OneTook, TookBy;
      ghost var m0, p0 := miner, pendrange;
      NoneLostOrIdle();
      Enter(id);
      CostNone(miner);
      ghost var b := book;
      if |pendrange| != 0 {
        Reassign();
        OnlyIdle(m0, p0, miner, pendrange, id);
        SameForgotten(b, book);
        DoneFurther(old(book), b, book);
      } else {
        NoKeys(pendrange);
      }
    }

    /** While a job runs: the range of a miner that joins again is forgotten, and a connection that joins takes
        a lost range if there is one. */
    method JoinWhileRunning(id: int)
      requires Valid() && run && id in history.joined && id !in pendrange
      modifies this`pendminer, this`miner, this`pendrange, this`minerfail, this`working, this`book, this`failures
      ensures Valid() && book.split == old(book.split)
      ensures HasForgotten(book.places) <==>
                old(HasForgotten(book.places)) || (id in old(miner) && old(miner)[id].Some?)
      ensures old(pendrange).Keys == {} ==>
                miner == old(miner)[id := None] && pendrange == old(pendrange) && failures == old(failures)
      ensures old(pendrange).Keys != {} && failures == old(failures) ==>
                TookBy(old(miner)[id := None], old(pendrange), miner, pendrange, id)
      ensures failures >= old(failures)
      ensures Cost(old(miner)[id := None], miner, failures - old(failures))
    {
      hide Cost, Queue, Roster, Conserved, WorkConserving, Best, CutOf, Cuts, Open, Blocks, SameDone, HasForgotten,
           TookBy;
      TakeIn(id);
      BestKept(hash, Current(), old(book), book, ans1, ans2);
      OpenSame(old(book), book);
    }

    /** While none runs it enters the table, and the oldest waiting job starts. */
    method JoinWhileIdle(id: int)
      requires Valid() && !run && id in history.joined && id !in pendrange
      modifies this`jobgiveup, this`curclient, this`pendjobs, this`pendclients, this`run
      modifies this`ans1, this`ans2, this`block, this`miner, this`pendrange, this`minerfail, this`working, this`book
      modifies this`failures
      ensures Valid() && (run <==> currid < reqct)
      ensures !run ==> miner == old(miner)[id := None]
      ensures run ==>
                var r := history.jobs[currid - 1].request;
                && book.split == Blocks(r.data, r.upper, |old(miner)[id := None]|)
                && (failures == old(failures) ==> miner.Keys == old(miner).Keys + {id})
      ensures failures >= old(failures)
      ensures Cost(old(miner)[id := None], miner, failures - old(failures))
    {
      hide Cost, Valid, Queue, Roster, Conserved, WorkConserving, Waiting, Blocks;
      Opened();
      NothingWaits();
      EnterIdle(id);
      CostNone(miner);
      // An idle scheduler has no lost range left, so nothing is reassigned here.
      if |pendrange| != 0 {
        ghost var j := SomeKey(pendrange);
        assert false;
      }
      SomeoneWaits();
      if |pendclients| != 0 {
        Assign();
      } else {
        StaysIdle();
      }
    }

    method EnterIdle(id: int)
      requires Roster() && Conserved() && Waiting() && id in history.joined && id !in pendrange
      modifies this`miner
      ensures Roster() && Conserved() && Waiting() && miner == old(miner)[id := None] && miner != map[]
    {
      hide Balanced, AtWork;
      MayEnter(id);
      miner := miner[id := None];
      assert id in miner;
    }

    lemma WaitingConserves()
      requires Waiting()
      ensures WorkConserving()
    {
    }

    lemma StaysIdle()
      requires Queue() && Roster() && Conserved() && Waiting() && !run && currid == reqct
      ensures Valid()
    {
    }

    lemma SomeoneWaits()
      requires Queue() && !run
      ensures (|pendclients| != 0 <==> currid < reqct) && currid <= reqct
    {
      hide Answered, Fits;
      assert currid < reqct ==> currid in pendclients;
      if |pendclients| != 0 {
        var k := SomeKey(pendclients);
      } else {
        NoKey(pendclients);
      }
    }

    method NoteJoin(id: int)
      requires Valid() && (id in history.joined || |history.joined| < capacity)
      modifies this`history
      ensures Valid() && history == old(history).(joined := old(history).joined + {id})
    {
      hide Conserved, Best, CutOf, Cuts, Open, Blocks, Answered, Queued, Fits;
      assert id in history.joined ==> history.joined + {id} == history.joined;
      AnsweredGrows(hash, history, history.(joined := history.joined + {id}), log);
      history := history.(joined := history.joined + {id});
    }

    /** Join. It enters the table: idle, or with a lost range when there is one and its write does not fail; and
        the oldest waiting job starts when none runs. The range of a miner that joins again is forgotten. */
    method HandleJoin(id: int)
      requires Valid() && (id in history.joined || |history.joined| < capacity)
      requires id !in pendrange
      modifies this
      ensures Valid() && history == old(history).(joined := old(history).joined + {id}) && log == old(log)
      ensures currid == old(currid) && reqct == old(reqct) && (run <==> old(run) || currid < reqct)
      ensures old(run) ==>
                && book.split == old(book.split) && block == old(block)
                && (HasForgotten(book.places) <==>
                     old(HasForgotten(book.places)) || (id in old(miner) && old(miner)[id].Some?))
      ensures old(run) && old(pendrange).Keys == {} ==>
                miner == old(miner)[id := None] && pendrange == old(pendrange) && failures == old(failures)
      ensures old(run) && old(pendrange).Keys != {} && failures == old(failures) ==>
                TookBy(old(miner)[id := None], old(pendrange), miner, pendrange, id)
      ensures !run ==> miner == old(miner)[id := None]
      ensures !old(run) && run ==>
                var r := history.jobs[currid - 1].request;
                && book.split == Blocks(r.data, r.upper, |old(miner)[id := None]|)
                && (failures == old(failures) ==> miner.Keys == old(miner).Keys + {id})
      ensures failures >= old(failures)
      ensures Cost(old(miner)[id := None], miner, failures - old(failures))
    {
      hide Cost, Valid, HasForgotten, Blocks;
      NoteJoin(id);
      if run {
        JoinWhileRunning(id);
      } else {
        JoinWhileIdle(id);
      }
    }

    method Enqueue(id: int, request: Request)
      requires Queue() && Splittable(request.upper, capacity)
      modifies this`pendclients, this`pendjobs, this`reqct, this`history
      ensures Queue() && history == old(history).(jobs := old(history).jobs + [Job(id, request)])
              && reqct == old(reqct) + 1
    {
      hide Queued, Splittable, Answered;
      ghost var h := history;
      Enqueued(pendclients, pendjobs, history.jobs, if run then currid + 1 else currid, Job(id, request));
      pendclients := pendclients[reqct := id];
      pendjobs := pendjobs[reqct := request];
      reqct := reqct + 1;
      history := history.(jobs := history.jobs + [Job(id, request)]);
      AnsweredGrows(hash, h, history, log);
    }

    method RequestWhileRunning(id: int, request: Request)
      requires Valid() && run && Splittable(request.upper, capacity)
      modifies this`pendclients, this`pendjobs, this`reqct, this`history
      ensures Valid() && history == old(history).(jobs := old(history).jobs + [Job(id, request)])
              && reqct == old(reqct) + 1
    {
      hide Queue, Conserved, Best, CutOf, Cuts, Open, Blocks, Splittable;
      Enqueue(id, request);
    }

    /** Request from a client: it waits its turn, or starts at once, over the miners there are, when the server is
        idle and has some. */
    method HandleRequest(id: int, request: Request)
      requires Valid() && Splittable(request.upper, capacity)
      modifies this
      ensures Valid() && history == old(history).(jobs := old(history).jobs + [Job(id, request)]) && log == old(log)
      ensures currid == old(currid) && reqct == old(reqct) + 1 && (run <==> old(run) || old(miner) != map[])
      ensures old(run) || !run ==>
                unchanged(`miner, `pendrange, `working, `book, `block, `jobgiveup, `curclient, `failures)
      ensures !old(run) && run ==>
                && curclient == id && !jobgiveup && book.split == Blocks(request.data, request.upper, |old(miner)|)
                && (failures == old(failures) ==>
                     miner.Keys == old(miner).Keys && NoneIdle(miner) && pendrange.Keys == {})
      ensures failures >= old(failures)
      ensures Cost(old(miner), miner, failures - old(failures))
    {
      hide Cost, Conserved, Running, Waiting, Splittable, Answered, Fits, Queued, WorkConserving, Blocks;
      CostNone(miner);
      if run {
        RequestWhileRunning(id, request);
      } else {
        Enqueue(id, request);
        if |miner| != 0 {
          AssignLast(id, request);
        } else {
          NoKey(miner);
        }
      }
    }

    /** The job that has just been asked for starts. */
    method AssignLast(id: int, request: Request)
      requires Queue() && Roster() && Conserved() && Waiting() && !run && miner != map[] && currid == reqct - 1
      requires history.jobs[|history.jobs| - 1] == Job(id, request)
      modifies this`jobgiveup, this`curclient, this`pendjobs, this`pendclients, this`run
      modifies this`ans1, this`ans2, this`block, this`miner, this`pendrange, this`minerfail, this`working, this`book
      modifies this`failures
      ensures Valid() && run && curclient == id && !jobgiveup
              && book.split == Blocks(request.data, request.upper, |old(miner)|)
      ensures failures == old(failures) ==> miner.Keys == old(miner).Keys && NoneIdle(miner) && pendrange.Keys == {}
      ensures failures >= old(failures)
      ensures Cost(old(miner), miner, failures - old(failures))
    {
      hide Cost, Conserved, Best, CutOf, Cuts, Answered, Fits, Queued, Open, Blocks;
      LastQueued();
      Assign();
    }

    lemma LastQueued()
      requires Queue() && !run && currid == reqct - 1
      ensures !Quit(history.losses, curclient, currid) && currid == |history.jobs|
    {
    }

    // ---------------------------------------------------------------- loss

    method Recover()
      requires Roster() && Conserved()
      modifies this`pendminer, this`miner, this`pendrange, this`minerfail, this`working, this`book, this`failures
      ensures Roster() && Conserved() && WorkConserving() && SameProgress(old(book), book)
      ensures miner.Keys <= old(miner.Keys) && forall j :: j in pendrange ==> j in old(pendrange)
      ensures old(NoneIdle(miner)) ==> miner == old(miner) && pendrange == old(pendrange)
      ensures failures >= old(failures)
      ensures failures == old(failures) && old(Single(miner, pendrange)) && !old(NoneIdle(miner))
              && old(pendrange).Keys != {} ==>
                OneTook(old(miner), old(pendrange), miner, pendrange)
      ensures Cost(old(miner), miner, failures - old(failures))
    {
      hide Cost, Conserved, SameProgress, OneTook, Single, NoneIdle, WorkConserving;
      SameAsBefore(book);
      ResizeNone();
      CostNone(miner);
      if |miner| != 0 {
        Reassign();
      } else {
        NoMiners();
      }
    }

    lemma NoMiners()
      requires |miner| == 0
      ensures NoneIdle(miner) && WorkConserving()
    {
      NoKey(miner);
    }

    /** A miner is lost while it holds a range: the range waits, and an idle miner takes it if there is one. */
    method LoseRange(id: int)
      requires Valid() && run && id in miner && miner[id].Some?
      modifies this`pendminer, this`miner, this`pendrange, this`minerfail, this`working, this`book, this`failures
      ensures Valid() && book.split == old(book.split) && block == old(block)
              && (HasForgotten(book.places) <==> old(HasForgotten(book.places)))
      ensures id !in miner && Moved(old(miner) - {id}, old(pendrange)[id := old(miner)[id].value], miner, pendrange,
                failures > old(failures))
      ensures Cost(old(miner) - {id}, miner, failures - old(failures))
    {
      hide Cost, Queue, Conserved, WorkConserving, Best, CutOf, Cuts, Open, Blocks, SameProgress, SameDone,
           HasForgotten,
           OneTook, Single, NoneIdle;
      ghost var m0, p0 := miner, pendrange;
      OnlyLost(id);
      Forfeit(id);
      assert id in pendrange.Keys;
      ghost var b := book;
      Recover();
      SameFurther(old(book), b, book);
      SameForgotten(old(book), book);
      BestKept(hash, Current(), old(book), book, ans1, ans2);
      OpenSame(old(book), book);
    }

    /** An idle miner is beside no other lost range. */
    lemma OnlyLost(id: int)
      requires WorkConserving() && id in miner && miner[id].Some?
      ensures NoneIdle(miner - {id}) || Single(miner - {id}, pendrange[id := miner[id].value])
    {
    }

    method Forfeit(id: int)
      requires Conserved() && id in miner && miner[id].Some?
      modifies this`miner, this`pendrange, this`minerfail, this`working, this`book
      ensures Conserved() && SameProgress(old(book), book)
      ensures miner == old(miner) - {id} && pendrange == old(pendrange)[id := old(miner)[id].value]
    {
      hide Balanced, AtWork, SameProgress, Mark, Open;
      RangeLost(miner, pendrange, book, id);
      Taken(miner, working, id);
      Apart(miner, pendrange, book);
      HeldBlock(miner, pendrange, book, id);
      Shelve(id, Mark(book, id, LostBy(id)));
    }

    /** The range leaves with its miner and waits. */
    method Shelve(id: int, ghost b: Book)
      requires id in miner && miner[id].Some?
      modifies this`miner, this`pendrange, this`minerfail, this`working, this`book
      ensures book == b && working == old(working) - {id} && minerfail == old(minerfail) + 1
      ensures miner == old(miner) - {id} && pendrange == old(pendrange)[id := old(miner)[id].value]
    {
      working := working - {id};
      book := b;
      pendrange := pendrange[id := miner[id].value];
      minerfail := minerfail + 1;
      miner := miner - {id};
    }

    /** The loss that Read reports now. */
    ghost function Noticed(id: int): History
      reads this`history, this`run, this`currid, this`miner
    {
      history.(losses := history.losses +
                         [Notice(id, if run then currid else 0, run && id in miner && miner[id].Some?)])
    }

    /** It is not that of the requester of the running job, or it is that of a miner with a range. */
    method NoteLoss(id: int)
      requires Valid() && (run && id == curclient ==> id in miner && miner[id].Some?)
      modifies this`history
      ensures Valid() && history == old(Noticed(id))
    {
      hide Conserved, Best, CutOf, Cuts, Open, Blocks, Answered, Queued, Fits, Quit;
      ghost var n := Notice(id, if run then currid else 0, run && id in miner && miner[id].Some?);
      OneMoreLoss(history.losses, n, curclient, currid);
      AnsweredGrows(hash, history, Noticed(id), log);
      history := Noticed(id);
    }

    method DropIdle(id: int)
      requires Valid() && !run && id in miner
      modifies this`miner
      ensures Valid() && miner == old(miner) - {id}
    {
      hide Balanced, AtWork, Queue, Running, WorkConserving;
      IdleDropped(miner, pendrange, book, id);
      IdleLeaves(miner, working, id);
      miner := miner - {id};
      WaitingConserves();
    }

    /** The requester of the running job is lost. */
    method QuitJob(id: int)
      requires Valid() && run && id == curclient && !(id in miner && miner[id].Some?)
      modifies this`jobgiveup, this`history
      ensures Valid() && jobgiveup && history == old(Noticed(id))
    {
      hide Conserved, Best, CutOf, Cuts, Open, Blocks, Answered, Queued, Fits, WorkConserving, Waiting, Quit;
      ghost var h := Noticed(id);
      OneMoreLoss(history.losses, Notice(id, currid, false), curclient, currid);
      AnsweredGrows(hash, history, h, log);
      NoteQuit(h);
      assert Current() == old(Current());
    }

    /** The requester of the last job started is lost. */
    method GiveUpJob(id: int)
      requires Valid() && id == curclient && !(run && id in miner && miner[id].Some?)
      modifies this`jobgiveup, this`history
      ensures Valid() && jobgiveup && history == old(Noticed(id))
    {
      hide Queue, Roster, Conserved, WorkConserving, Waiting, Running, Noticed;
      if run {
        QuitJob(id);
      } else {
        NoteLoss(id);
        jobgiveup := true;
      }
    }

    method NoteQuit(ghost h: History)
      modifies this`jobgiveup, this`history
      ensures jobgiveup && history == h
    {
      jobgiveup := true;
      history := h;
    }

    /** Read reports a lost connection. A miner with a range loses it to an idle miner, or it waits; an idle miner
        leaves the table when no job runs; and a job whose requester is lost while it runs is given up, unless the
        requester is a miner with a range. */
    method HandleLost(id: int)
      requires Valid()
      modifies this
      ensures Valid() && log == old(log) && run == old(run) && currid == old(currid) && reqct == old(reqct)
      ensures history == old(history).(losses := old(history).losses +
                [Notice(id, if old(run) then old(currid) else 0, old(run && id in miner && miner[id].Some?))])
      ensures old(run) ==>
                jobgiveup == (old(jobgiveup)
                              || (id == old(curclient) && !(id in old(miner) && old(miner)[id].Some?)))
      ensures old(run) ==>
                book.split == old(book.split) && block == old(block)
                  && (HasForgotten(book.places) <==> old(HasForgotten(book.places)))
      ensures if old(run && id in miner && miner[id].Some?) then
                && id !in miner
                && Moved(old(miner) - {id}, old(pendrange)[id := old(miner)[id].value], miner, pendrange,
                     failures > old(failures))
              else
                && miner == (if run then old(miner) else old(miner) - {id})
                && pendrange == old(pendrange) && working == old(working) && book == old(book)
                && failures == old(failures)
      ensures old(run && id in miner && miner[id].Some?) ==> Cost(old(miner) - {id}, miner, failures - old(failures))
    {
      hide Cost, Queue, Conserved, Running, Waiting, WorkConserving, HasForgotten, Moved, Roster;
      NoPendminer();
      if id in miner {
        if run {
          if miner[id].Some? {
            NoteLoss(id);
            LoseRange(id);
            return;
          }
        } else {
          NoteLoss(id);
          DropIdle(id);
          return;
        }
      } else {
        assert miner - {id} == miner;
      }
      // `pendminer` is empty between events, so no loss is found there.
      if id in pendminer {
        assert false;
      }
      if id == curclient {
        GiveUpJob(id);
        return;
      }
      NoteLoss(id);
    }

    lemma NoPendminer()
      requires Roster()
      ensures forall i :: i !in pendminer
    {
    }

    // ---------------------------------------------------------------- results

    /** Keep the better of the answer so far and a new one. */
    method Merge(h: uint64, n: uint64)
      modifies this`ans1, this`ans2
      ensures (ans1, ans2) ==
              old(if h < ans1 then (h, n) else if h == ans1 && n < ans2 then (ans1, n) else (ans1, ans2))
    {
      if h < ans1 {
        ans1 := h;
        ans2 := n;
      } else if h == ans1 {
        if n < ans2 {
          ans2 := n;
        }
      }
    }

    /** The range of miner `i` is finished. */
    method Clear(i: int)
      requires Conserved() && i in miner && miner[i].Some? && !Empty(miner[i].value)
      modifies this`miner, this`working, this`block, this`book
      ensures Conserved() && miner == old(miner)[i := None] && working == old(working) - {i} && block == old(block) - 1
      ensures i in old(book).slot && old(book).slot[i] < |old(book).places| && book == Mark(old(book), i, Done)
      ensures Open(book.places) == Open(old(book).places) - 1
              && (HasForgotten(book.places) <==> HasForgotten(old(book).places))
    {
      hide Balanced, AtWork, Open, Mark, HasForgotten;
      HeldBlock(miner, pendrange, book, i);
      RangeDone(miner, pendrange, book, i);
      Taken(miner, working, i);
      miner := miner[i := None];
      working := working - {i};
      block := block - 1;
      book := Mark(book, i, Done);
    }

    /** Merge the answer of miner `i` and mark its range as finished. */
    method Credit(i: int, h: uint64, n: uint64)
      requires Conserved() && Running()
      requires i in miner && miner[i].Some? && Miner.Honest(hash, miner[i].value, h, n) && !Empty(miner[i].value)
      modifies this`ans1, this`ans2, this`miner, this`block, this`book, this`working
      ensures Conserved() && Running() && block == old(block) - 1
      ensures miner == old(miner)[i := None] && working == old(working) - {i} && book.split == old(book.split)
      ensures HasForgotten(book.places) <==> old(HasForgotten(book.places))
    {
      hide Conserved, Best, CutOf, Cuts, Open, Blocks, Mark, Miner.Least, HasForgotten;
      ghost var a1, a2, b := ans1, ans2, book;
      FromSplit(i);
      Merge(h, n);
      Clear(i);
      MarkedLength(b, i, Done);
      BestMerged(hash, Current(), b, i, a1, a2, h, n, ans1, ans2);
    }

    lemma FromSplit(i: int)
      requires Conserved() && i in miner && miner[i].Some?
      ensures i in book.slot && book.slot[i] < |book.places| <= |book.split|
              && miner[i].value == book.split[book.slot[i]]
    {
      HeldBlock(miner, pendrange, book, i);
    }

    /** No range in the table has the nonce. */
    predicate Unclaimed(n: uint64)
      reads this`miner
    {
      forall i :: i in miner && miner[i].Some? ==> !In(miner[i].value, n)
    }

    /** The search loop over the table: the answer is credited to the miner whose range holds the nonce. */
    method Match(id: int, h: uint64, n: uint64) returns (found: bool)
      requires Conserved() && Running() && run
      requires Unclaimed(n) || (id in miner && miner[id].Some? && Miner.Honest(hash, miner[id].value, h, n))
      modifies this`ans1, this`ans2, this`miner, this`block, this`book, this`working
      ensures Conserved() && Running() && book.split == old(book.split)
      ensures found <==> !old(Unclaimed(n))
      ensures found ==> id in old(miner) && old(miner)[id].Some? && !Empty(old(miner)[id].value)
      ensures found ==> block == old(block) - 1 && miner == old(miner)[id := None] && working == old(working) - {id}
      ensures !found ==> unchanged(this)
      ensures HasForgotten(book.places) <==> old(HasForgotten(book.places))
    {
      hide Conserved, Running, HasForgotten;
      found := false;
      var ids := miner.Keys;
      while ids != {}
        invariant !found && unchanged(this) && ids <= miner.Keys
        invariant forall i :: i in miner && miner[i].Some? && In(miner[i].value, n) ==> i in ids
        decreases ids
      {
        ghost var some := SomeMember(ids);
        var i :| i in ids;
        ids := ids - {i};
        match miner[i]
        case None =>
        case Some(v) =>
          if In(v, n) {
            OnlyTheFinder(id, i, h, n);
            Credit(i, h, n);
            found := true;
            break;
          }
      }
    }

    lemma OnlyTheFinder(id: int, i: int, h: uint64, n: uint64)
      requires Conserved() && Running()
      requires id in miner && miner[id].Some? && Miner.Honest(hash, miner[id].value, h, n)
      requires i in miner && miner[i].Some? && In(miner[i].value, n)
      ensures i == id && !Empty(miner[id].value)
    {
      hide Balanced, Best;
      HeldBlock(miner, pendrange, book, id);
      HeldBlock(miner, pendrange, book, i);
      assert In(book.split[book.slot[i]], n);
      if Empty(miner[id].value) {
        assert false;
      }
      SoleHolder(miner, pendrange, book, Current(), id, i, n);
    }

    /** An honest answer to a block without numbers is in no range, any other is. */
    lemma HonestIsClaimed(id: int, h: uint64, n: uint64)
      requires Conserved() && Running()
      requires id in miner && miner[id].Some? && Miner.Honest(hash, miner[id].value, h, n)
      ensures Unclaimed(n) <==> Empty(miner[id].value)
    {
      hide Conserved, Running;
      if i :| i in miner && miner[i].Some? && In(miner[i].value, n) {
        OnlyTheFinder(id, i, h, n);
      } else {
        assert !In(miner[id].value, n);
      }
    }

    /** A miner that has answered is no longer at work. */
    method Hear(id: int)
      requires Conserved() && id in working && Empty(working[id])
      modifies this`working
      ensures Conserved() && working == old(working) - {id}
    {
      hide Balanced;
      Taken(miner, working, id);
      working := working - {id};
    }

    /** Whether an answer of `id` with nonce `n` is credited: it lies in the range it was sent. */
    predicate Credits(id: int, n: uint64)
      reads this`run, this`working
    {
      run && id in working && In(working[id], n)
    }

    /** Whether it answers a range without numbers. */
    predicate AnswersEmpty(id: int, h: uint64, n: uint64)
      reads this`run, this`working
    {
      run && id in working && Empty(working[id]) && h == MAX64 && n == MAX64
    }

    method Absorb(id: int, h: uint64, n: uint64) returns (found: bool)
      requires Queue() && Roster() && Conserved() && Running() && run
      requires Unclaimed(n) || (id in working && Miner.Honest(hash, working[id], h, n))
      modifies this`working, this`ans1, this`ans2, this`miner, this`block, this`book
      ensures Queue() && Roster() && Conserved() && Running()
      ensures book.split == old(book.split) && (HasForgotten(book.places) <==> old(HasForgotten(book.places)))
      ensures found <==> old(Credits(id, n))
      ensures block == old(block) - if found then 1 else 0
      ensures found ==> id in old(miner) && miner == old(miner)[id := None] && working == old(working) - {id}
      ensures !found ==>
                miner == old(miner) && working == old(working) - if old(AnswersEmpty(id, h, n)) then {id} else {}
    {
      hide Queue, Running, Balanced, AtWork, HasForgotten;
      WorksOn(miner, working);
      if id in working && Miner.Honest(hash, working[id], h, n) {
        HonestIsClaimed(id, h, n);
      }
      found := Match(id, h, n);
      WorksOn(miner, working);
      if !found && id in working && Empty(working[id]) && h == MAX64 && n == MAX64 {
        Hear(id);
      }
    }

    /** Lost ranges are offered around again: to the miner `id`, when it has just become idle. */
    method Refill(id: int, ghost before: Table)
      requires Queue() && Roster() && Conserved() && Running() && run && block > 0
      requires (miner == before || miner == before[id := None]) && (minerfail <= 0 || NoneIdle(before))
      modifies this`miner, this`pendrange, this`minerfail, this`working, this`book, this`failures
      ensures Valid() && book.split == old(book.split)
              && (HasForgotten(book.places) <==> old(HasForgotten(book.places)))
      ensures old(minerfail) <= 0 || old(NoneIdle(miner)) ==>
                miner == old(miner) && pendrange == old(pendrange) && working == old(working)
                  && minerfail == old(minerfail) && failures == old(failures)
      ensures failures >= old(failures)
      ensures failures == old(failures) && old(minerfail) > 0 && old(miner) == before[id := None] ==>
                TookBy(before[id := None], old(pendrange), miner, pendrange, id)
      ensures Cost(old(miner), miner, failures - old(failures))
    {
      hide Cost, Queue, Conserved, Best, CutOf, Cuts, Open, Blocks, SameProgress, SameDone, HasForgotten, NoneIdle,
           Quit,
           Single, OneTook, TookBy;
      CostNone(miner);
      LostAreCounted();
      ghost var p0 := pendrange;
      SameAsBefore(book);
      if minerfail > 0 {
        OnlyIdle(before, p0, miner, pendrange, id);
        Reassign();
        OnlyIdle(before, p0, miner, pendrange, id);
      } else {
        NoneLost();
      }
      SameForgotten(old(book), book);
      BestKept(hash, Current(), old(book), book, ans1, ans2);
      OpenSame(old(book), book);
    }

    /** What holds while a job runs, and while none does. */
    lemma Opened()
      requires Valid()
      ensures Queue() && Roster() && Conserved() && WorkConserving()
      ensures if run then Running() && block > 0 else Waiting() && (miner == map[] || currid == reqct)
    {
    }

    /** A result while a job runs. */
    method TakeResult(id: int, h: uint64, n: uint64)
      requires Valid() && run
      requires Unclaimed(n) || (id in working && Miner.Honest(hash, working[id], h, n))
      modifies this`log, this`currid
      modifies this`jobgiveup, this`curclient, this`pendjobs, this`pendclients, this`run, this`pendminer
      modifies this`ans1, this`ans2, this`block, this`miner, this`pendrange, this`minerfail, this`working, this`book
      modifies this`failures
      ensures Valid()
      ensures !(old(Credits(id, n)) && old(block) == 1) ==>
                && run == old(run) && currid == old(currid) && book.split == old(book.split) && log == old(log)
                && jobgiveup == old(jobgiveup) && (HasForgotten(book.places) <==> old(HasForgotten(book.places)))
                && (run ==> block == old(block) - if old(Credits(id, n)) then 1 else 0)
      ensures !old(Credits(id, n)) ==>
                && miner == old(miner) && pendrange == old(pendrange) && minerfail == old(minerfail)
                && failures == old(failures)
                && working == old(working) - if old(AnswersEmpty(id, h, n)) then {id} else {}
      ensures old(Credits(id, n)) && old(block) > 1 && old(minerfail) == 0 ==>
                minerfail == 0 && miner == old(miner)[id := None] && working == old(working) - {id}
      ensures old(Credits(id, n)) && old(block) > 1 && old(minerfail) > 0 && failures == old(failures) ==>
                TookBy(old(miner)[id := None], old(pendrange), miner, pendrange, id)
      ensures old(Credits(id, n)) && old(block) == 1 ==>
                && currid == old(currid) + 1 && |log| == |old(log)| + 1 && old(log) <= log && (run <==> currid < reqct)
                && (log[|old(log)|].GivenUp? <==> old(jobgiveup))
                && NoneEmpty(old(book.split)) && !old(HasForgotten(book.places))
      ensures old(Credits(id, n)) && old(block) == 1 && !run ==>
                miner == old(miner)[id := None] && pendrange.Keys == {} && failures == old(failures)
      ensures old(Credits(id, n)) && old(block) == 1 && run ==>
                var j := history.jobs[currid - 1];
                && curclient == j.client && !jobgiveup && NoneIdle(miner)
                && book.split == Blocks(j.request.data, j.request.upper, |old(miner)|)
                && (failures == old(failures) ==> miner.Keys == old(miner).Keys && pendrange.Keys == {})
      ensures old(Credits(id, n)) ==> Cost(old(miner)[id := None], miner, failures - old(failures))
    {
      hide Cost, Valid, Queue, Roster, Conserved, WorkConserving, Running, Waiting, Unclaimed, HasForgotten, NoneIdle,
           Credits, AnswersEmpty, Miner.Honest, Empty, In, NoneEmpty, TookBy, OneTook, Single, Blocks;
      Opened();
      NoneIsOffered();
      ghost var m0 := miner;
      var found := Absorb(id, h, n);
      if block == 0 {
        assert id in miner;
        Finish();
      } else {
        Refill(id, m0);
      }
    }

    /** Result. While a job runs, it is the honest answer of a miner to the range it was sent, or its nonce
        lies in no range. A range without numbers is never credited; any other honest answer ends one block, and
        the last one ends the job, whose outcome is logged, and starts the next one. */
    method HandleResult(id: int, h: uint64, n: uint64)
      requires Valid()
      requires run ==> Unclaimed(n) || (id in working && Miner.Honest(hash, working[id], h, n))
      modifies this
      ensures Valid() && history == old(history) && reqct == old(reqct)
      ensures !(old(Credits(id, n)) && old(block) == 1) ==>
                && run == old(run) && currid == old(currid) && book.split == old(book.split) && log == old(log)
                && jobgiveup == old(jobgiveup) && (HasForgotten(book.places) <==> old(HasForgotten(book.places)))
                && (run ==> block == old(block) - if old(Credits(id, n)) then 1 else 0)
      ensures !old(Credits(id, n)) ==>
                && miner == old(miner) && pendrange == old(pendrange) && minerfail == old(minerfail)
                && failures == old(failures)
                && working == old(working) - if old(AnswersEmpty(id, h, n)) then {id} else {}
      ensures old(Credits(id, n)) && old(block) > 1 && old(minerfail) == 0 ==>
                minerfail == 0 && miner == old(miner)[id := None] && working == old(working) - {id}
      ensures old(Credits(id, n)) && old(block) > 1 && old(minerfail) > 0 && failures == old(failures) ==>
                TookBy(old(miner)[id := None], old(pendrange), miner, pendrange, id)
      ensures old(Credits(id, n)) && old(block) == 1 ==>
                && currid == old(currid) + 1 && |log| == |old(log)| + 1 && old(log) <= log && (run <==> currid < reqct)
                && (log[|old(log)|].GivenUp? <==> old(jobgiveup))
                && NoneEmpty(old(book.split)) && !old(HasForgotten(book.places))
      ensures old(Credits(id, n)) && old(block) == 1 && !run ==>
                miner == old(miner)[id := None] && pendrange.Keys == {} && failures == old(failures)
      ensures old(Credits(id, n)) && old(block) == 1 && run ==>
                var j := history.jobs[currid - 1];
                && curclient == j.client && !jobgiveup && NoneIdle(miner)
                && book.split == Blocks(j.request.data, j.request.upper, |old(miner)|)
                && (failures == old(failures) ==> miner.Keys == old(miner).Keys && pendrange.Keys == {})
      ensures old(Credits(id, n)) ==> Cost(old(miner)[id := None], miner, failures - old(failures))
    {
      hide Cost, Valid, Unclaimed, HasForgotten, Miner.Honest, Empty, In, NoneEmpty, TookBy, NoneIdle, Blocks;
      if run {
        TakeResult(id, h, n);
      } else {
        assert working - {} == working;
      }
    }

    lemma LostAreCounted()
      requires Conserved()
      ensures minerfail > 0 ==> pendrange.Keys != {}
    {
    }

    /** Beside a lost range no miner is idle. */
    lemma NoneLostOrIdle()
      requires Conserved() && WorkConserving()
      ensures (minerfail <= 0 <==> |pendrange| == 0) && (|pendrange| == 0 || NoneIdle(miner))
    {
      if |pendrange| != 0 {
        var j := SomeKey(pendrange);
      }
    }

    lemma NoneIsOffered()
      requires Conserved() && WorkConserving()
      ensures minerfail <= 0 || NoneIdle(miner)
    {
      NoneLostOrIdle();
    }

    lemma NothingWaits()
      requires Waiting()
      ensures pendrange.Keys == {}
    {
      if pendrange != map[] {
        var j := SomeKey(pendrange);
        assert false;
      }
    }

    /** The outcomes so far are those of the jobs in order of arrival: each names its requester, a job is given up
        exactly when the loss of its requester was reported while it ran and not as that of a miner with a range,
        and any other answer is the least pair over the range. */
    lemma LogIsRight()
      requires Valid()
      ensures |log| <= |history.jobs|
      ensures forall k :: 0 <= k < |log| ==>
                var j := history.jobs[k];
                && log[k].client == j.client
                && (log[k].GivenUp? <==>
                     exists i :: 0 <= i < |history.losses| && history.losses[i] == Notice(j.client, k + 1, false))
                && (log[k].Sent? ==>
                     && log[k].nonce <= j.request.upper && log[k].hash == hash(j.request.data, log[k].nonce)
                     && forall x: uint64 :: x <= j.request.upper ==>
                          log[k].hash < hash(j.request.data, x)
                          || (log[k].hash == hash(j.request.data, x) && log[k].nonce <= x))
    {
      assert Answered(hash, history, log);
      forall k | 0 <= k < |log|
        ensures Right(hash, history.jobs[k], log[k])
      {
      }
    }

    /** An honest answer to a range with numbers is credited, to any other it is not. */
    lemma HonestCounts(id: int, h: uint64, n: uint64)
      requires run && id in working && Miner.Honest(hash, working[id], h, n)
      ensures Credits(id, n) <==> !Empty(working[id])
      ensures AnswersEmpty(id, h, n) <==> Empty(working[id])
    {
    }

    lemma BlockBounds()
      requires Valid() && run
      ensures 0 < block <= |book.split| && minerfail >= 0
    {
    }

    lemma NoneLost()
      requires Conserved() && minerfail <= 0
      ensures WorkConserving()
    {
      NoKey(pendrange);
    }

    ghost predicate NoneEmpty(split: seq<Request>) {
      forall k :: 0 <= k < |split| ==> !Empty(split[k])
    }

    /** The split of the running job leaves no block without numbers exactly when its last block starts
        at or below the upper end; and every range at work ends there at the latest. */
    lemma WhenBlocksEnd(limit: uint64)
      requires Valid() && run && history.jobs[currid - 1].request.upper <= limit
      ensures 1 <= currid <= |history.jobs| && |book.split| >= 1
      ensures var m := |book.split|; NoneEmpty(book.split) <==>
                (m - 1) * (BlockSize(Current().upper, m) + 1) <= Current().upper
      ensures forall i :: i in working ==> working[i].upper <= limit && (NoneEmpty(book.split) ==> !Empty(working[i]))
    {
      AllNonEmptyIff(Current().data, Current().upper, |book.split|);
      forall i | i in working
        ensures working[i].upper <= limit && (NoneEmpty(book.split) ==> !Empty(working[i]))
      {
        HeldBlock(miner, pendrange, book, i);
        BlockAt(Current().data, Current().upper, |book.split|, |book.split|, book.slot[i]);
      }
    }

    /** While a job runs whose blocks all have numbers, and a miner is left, some miner is at work. */
    lemma SomeAtWork() returns (i: int)
      requires Valid() && run && (minerfail == 0 || miner != map[])
      requires NoneEmpty(book.split) && !HasForgotten(book.places)
      ensures i in working && !Empty(working[i])
    {
      hide Best, CutOf, Cuts, Blocks, Queue, Roster;
      if minerfail <= 0 {
        NoKey(pendrange);
      }
      if j :| j in pendrange {
        i := SomeKey(miner);
      } else {
        var k := SomeOpen(book.places);
        assert PlaceHolds(miner, pendrange, book, k);
        i := book.places[k].miner;
      }
      HeldBlock(miner, pendrange, book, i);
    }
  }
}
