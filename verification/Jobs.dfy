// The queue of jobs and what their answers must be.

module Jobs {
  import opened Ledger
  import opened Split
  import Miner

  type Hash = (string, uint64) -> uint64

  datatype Job = Job(client: int, request: Request)

  /** How a job ended: its answer was sent to the requester, or the requester was gone. */
  datatype Outcome = Sent(client: int, hash: uint64, nonce: uint64) | GivenUp(client: int)

  /** A loss as Read reports it: of which connection, the place of the job that runs then, or 0, and whether that
      connection is then a miner with a range. */
  datatype Notice = Notice(id: int, job: int, holding: bool)

  /** The jobs in order of arrival, the connections that joined as miners, and the losses reported so far. */
  datatype History = History(jobs: seq<Job>, joined: set<int>, losses: seq<Notice>)

  /** Whether the loss of `client` was reported while job `job` ran and it was not a miner with a range. */
  ghost predicate Quit(losses: seq<Notice>, client: int, job: int) {
    exists i :: 0 <= i < |losses| && losses[i] == Notice(client, job, false)
  }

  /** One more loss changes this for its own requester and job only. */
  lemma OneMoreLoss(losses: seq<Notice>, n: Notice, client: int, job: int)
    ensures Quit(losses + [n], client, job) <==> Quit(losses, client, job) || n == Notice(client, job, false)
  {
    var after := losses + [n];
    assert after[|losses|] == n;
    assert forall i :: 0 <= i < |losses| ==> after[i] == losses[i];
  }

  /** Jobs wait in arrival order, each numbered by its place in that order; `first` is the next to start. */
  ghost predicate Queued(pendclients: map<int, int>, pendjobs: Ranges, jobs: seq<Job>, first: int) {
    && 1 <= first <= |jobs| + 1
    && (forall k :: k in pendjobs <==> first <= k <= |jobs|)
    && (forall k :: k in pendclients <==> first <= k <= |jobs|)
    && (forall k :: first <= k <= |jobs| ==> Job(pendclients[k], pendjobs[k]) == jobs[k - 1])
  }

  lemma Dequeued(pendclients: map<int, int>, pendjobs: Ranges, jobs: seq<Job>, first: int)
    requires Queued(pendclients, pendjobs, jobs, first) && first <= |jobs|
    ensures Queued(pendclients - {first}, pendjobs - {first}, jobs, first + 1)
    ensures Job(pendclients[first], pendjobs[first]) == jobs[first - 1]
  {
  }

  lemma Enqueued(pendclients: map<int, int>, pendjobs: Ranges, jobs: seq<Job>, first: int, j: Job)
    requires Queued(pendclients, pendjobs, jobs, first)
    ensures var n := |jobs| + 1; Queued(pendclients[n := j.client], pendjobs[n := j.request], jobs + [j], first)
  {
  }

  /** No range is so large that splitting it over the miners of any table would lose numbers. */
  ghost predicate Fits(jobs: seq<Job>, capacity: nat) {
    forall k :: 0 <= k < |jobs| ==> Splittable(jobs[k].request.upper, capacity)
  }

  /** An outcome names the requester, and an answer that is sent is the least pair over the whole range. */
  ghost predicate Right(hash: Hash, job: Job, o: Outcome) {
    o.client == job.client && (o.Sent? ==> Miner.Least(hash, job.request.data, 0, job.request.upper, o.hash, o.nonce))
  }

  /** Outcome `k` is that of the `k`-th job to arrive, and a job is given up exactly when its requester was lost
      while it ran. */
  ghost predicate Answered(hash: Hash, h: History, log: seq<Outcome>) {
    && |log| <= |h.jobs|
    && (forall k :: 0 <= k < |log| ==>
          Right(hash, h.jobs[k], log[k]) && (log[k].GivenUp? <==> Quit(h.losses, h.jobs[k].client, k + 1)))
  }

  lemma RightAnswer(hash: Hash, job: Job, h: uint64, n: uint64)
    requires Miner.Least(hash, job.request.data, 0, job.request.upper, h, n)
    ensures Right(hash, job, Sent(job.client, h, n)) && Right(hash, job, GivenUp(job.client))
  {
  }

  /** More jobs, and a loss that no finished job could take for that of its requester. */
  lemma AnsweredGrows(hash: Hash, h: History, g: History, log: seq<Outcome>)
    requires Answered(hash, h, log) && h.jobs <= g.jobs
    requires g.losses == h.losses || exists n :: g.losses == h.losses + [n] && (n.job == 0 || n.job > |log|)
    ensures Answered(hash, g, log)
  {
    hide Right, Quit;
    forall k | 0 <= k < |log|
      ensures Right(hash, g.jobs[k], log[k]) && (log[k].GivenUp? <==> Quit(g.losses, g.jobs[k].client, k + 1))
    {
      assert Right(hash, h.jobs[k], log[k]);
      if g.losses != h.losses {
        var n :| g.losses == h.losses + [n] && (n.job == 0 || n.job > |log|);
        OneMoreLoss(h.losses, n, h.jobs[k].client, k + 1);
      }
    }
  }

  /** One more outcome. */
  lemma AnsweredOne(hash: Hash, h: History, log: seq<Outcome>, o: Outcome)
    requires Answered(hash, h, log) && |log| < |h.jobs|
    requires Right(hash, h.jobs[|log|], o) && (o.GivenUp? <==> Quit(h.losses, h.jobs[|log|].client, |log| + 1))
    ensures Answered(hash, h, log + [o])
  {
    hide Right, Quit;
    forall k | 0 <= k < |log + [o]|
      ensures Right(hash, h.jobs[k], (log + [o])[k])
              && ((log + [o])[k].GivenUp? <==> Quit(h.losses, h.jobs[k].client, k + 1))
    {
      if k < |log| {
        assert Right(hash, h.jobs[k], log[k]);
      }
    }
  }

  /** The best answer so far is the least over the finished blocks. */
  ghost predicate Best(hash: Hash, r: Request, b: Book, ans1: uint64, ans2: uint64)
    requires |b.places| <= |b.split|
  {
    && ans2 <= r.upper
    && (ans1 == hash(r.data, ans2) || (ans1 == MAX64 && ans2 == r.upper))
    && (forall k :: 0 <= k < |b.places| && b.places[k].Done? ==> BestOn(hash, r, b.split[k], ans1, ans2))
  }

  ghost predicate BestOn(hash: Hash, r: Request, block: Request, ans1: uint64, ans2: uint64) {
    forall n: uint64 :: In(block, n) ==> Miner.LexLe(ans1, ans2, hash(r.data, n), n)
  }

  lemma BestBefore(hash: Hash, r: Request, b: Book)
    requires |b.places| <= |b.split| && Open(b.places) == |b.places|
    ensures Best(hash, r, b, MAX64, r.upper)
  {
    OpenAll(b.places);
  }

  lemma BestKept(hash: Hash, r: Request, b: Book, c: Book, ans1: uint64, ans2: uint64)
    requires |b.places| <= |b.split| && SameDone(b, c) && Best(hash, r, b, ans1, ans2)
    ensures Best(hash, r, c, ans1, ans2)
  {
  }

  /** Merging the honest answer of the block of miner `i`. */
  lemma BestMerged(hash: Hash, r: Request, b: Book, i: int, ans1: uint64, ans2: uint64, h: uint64, n: uint64,
                   a1: uint64, a2: uint64)
    requires |b.places| <= |b.split| && Best(hash, r, b, ans1, ans2)
    requires i in b.slot && b.slot[i] < |b.places| && CutOf(r, b.split)
    requires var block := b.split[b.slot[i]]; Miner.Least(hash, block.data, block.lower, block.upper, h, n)
    requires (a1, a2) == if h < ans1 then (h, n) else if h == ans1 && n < ans2 then (ans1, n) else (ans1, ans2)
    ensures Best(hash, r, Mark(b, i, Done), a1, a2)
  {
    var k0 := b.slot[i];
    var block := b.split[k0];
    assert In(block, n);
    var c := Mark(b, i, Done);
    forall k | 0 <= k < |c.places| && c.places[k].Done?
      ensures BestOn(hash, r, c.split[k], a1, a2)
    {
      if k != k0 {
        assert BestOn(hash, r, b.split[k], ans1, ans2);
      }
    }
  }

  /** When every block is finished the best answer is the answer. */
  lemma BestAtEnd(hash: Hash, r: Request, b: Book, ans1: uint64, ans2: uint64)
    requires |b.places| == |b.split| && CutOf(r, b.split) && Best(hash, r, b, ans1, ans2)
    requires forall k :: 0 <= k < |b.places| ==> b.places[k].Done?
    ensures Miner.Least(hash, r.data, 0, r.upper, ans1, ans2)
  {
    forall n: uint64 | n <= r.upper
      ensures Miner.LexLe(ans1, ans2, hash(r.data, n), n)
    {
      assert InSome(b.split, n);
      var k :| 0 <= k < |b.split| && In(b.split[k], n);
      assert BestOn(hash, r, b.split[k], ans1, ans2);
    }
    assert Miner.LexLe(ans1, ans2, hash(r.data, r.upper), r.upper);
  }
}
