// Where every block of the running job is: finished, with a miner, or lost and waiting.

module Ledger {
  import opened Split

  datatype Option<+T> = None | Some(value: T)

  /** A block is finished, with a miner, lost with its miner and waiting, or forgotten: nobody has it, and
      nobody will be given it. */
  datatype Place = Done | HeldBy(miner: int) | LostBy(miner: int) | Forgotten

  /** The blocks of the running job, the place of each block handed out so far, and the block that a
      miner's task or a lost entry stands for. */
  datatype Book = Book(split: seq<Request>, places: seq<Place>, slot: map<int, nat>)

  type Table = map<int, Option<Request>>

  type Ranges = map<int, Request>

  /** How many blocks are handed out and not finished. */
  function Open(places: seq<Place>): (k: nat)
    ensures k <= |places|
  {
    if places == [] then 0 else Open(places[..|places| - 1]) + if places[|places| - 1].Done? then 0 else 1
  }

  lemma {:induction false} OpenUpdate(places: seq<Place>, k: nat, p: Place)
    requires k < |places| && !places[k].Done?
    ensures Open(places[k := p]) == Open(places) - if p.Done? then 1 else 0
  {
    var last := |places| - 1;
    if k < last {
      OpenUpdate(places[..last], k, p);
      assert places[k := p][..last] == places[..last][k := p];
    } else {
      assert places[k := p][..last] == places[..last];
    }
  }

  lemma OpenAppend(places: seq<Place>, p: Place)
    ensures Open(places + [p]) == Open(places) + if p.Done? then 0 else 1
  {
    assert (places + [p])[..|places|] == places;
  }

  lemma {:induction false} OpenAll(places: seq<Place>)
    requires Open(places) == |places|
    ensures forall k :: 0 <= k < |places| ==> !places[k].Done?
  {
    if places != [] {
      var last := |places| - 1;
      OpenAll(places[..last]);
      assert forall k :: 0 <= k < last ==> places[k] == places[..last][k];
    }
  }

  lemma {:induction false} OpenNone(places: seq<Place>)
    requires Open(places) == 0
    ensures forall k :: 0 <= k < |places| ==> places[k].Done?
  {
    if places != [] {
      var last := |places| - 1;
      OpenNone(places[..last]);
      assert forall k :: 0 <= k < last ==> places[k] == places[..last][k];
    }
  }

  lemma {:induction false} SomeOpen(places: seq<Place>) returns (k: nat)
    requires Open(places) > 0
    ensures k < |places| && !places[k].Done?
  {
    var last := |places| - 1;
    if places[last].Done? {
      k := SomeOpen(places[..last]);
    } else {
      k := last;
    }
  }

  ghost predicate PlaceHolds(miner: Table, pendrange: Ranges, b: Book, k: nat)
    requires k < |b.places| <= |b.split|
  {
    match b.places[k]
    case Done => !Empty(b.split[k])
    case HeldBy(i) => i in miner && miner[i] == Some(b.split[k]) && i in b.slot && b.slot[i] == k
    case LostBy(j) => j in pendrange && pendrange[j] == b.split[k] && j in b.slot && b.slot[j] == k
    case Forgotten => true
  }

  ghost predicate HasForgotten(places: seq<Place>) {
    exists k :: 0 <= k < |places| && places[k].Forgotten?
  }

  /** Every block handed out has one place, and every miner's task or lost range is one block: nothing is
      held twice or forgotten. */
  ghost predicate Balanced(miner: Table, pendrange: Ranges, b: Book) {
    && |b.places| <= |b.split|
    && miner.Keys !! pendrange.Keys
    && (forall k :: 0 <= k < |b.places| ==> PlaceHolds(miner, pendrange, b, k))
    && (forall i :: i in miner && miner[i].Some? ==>
          i in b.slot && b.slot[i] < |b.places| && b.places[b.slot[i]] == HeldBy(i))
    && (forall j :: j in pendrange ==>
          j in b.slot && b.slot[j] < |b.places| && b.places[b.slot[j]] == LostBy(j))
  }

  /** A miner works on what the table says it was given; only a block without numbers may be answered
      and still be in the table. */
  ghost predicate AtWork(miner: Table, working: Ranges) {
    && (forall i :: i in working ==> i in miner && miner[i] == Some(working[i]))
    && (forall i :: i in miner && miner[i].Some? && !Empty(miner[i].value) ==> i in working)
  }

  /** An idle miner is sent a block, or leaves the table. */
  lemma Given(miner: Table, working: Ranges, i: int, r: Request)
    requires AtWork(miner, working) && i in miner && miner[i].None?
    ensures AtWork(miner[i := Some(r)], working[i := r]) && AtWork(miner - {i}, working)
  {
  }

  lemma IdleLeaves(miner: Table, working: Ranges, i: int)
    requires AtWork(miner, working) && i in miner && miner[i].None?
    ensures AtWork(miner - {i}, working)
  {
  }

  /** A miner answers its block, or is lost with it. */
  lemma Taken(miner: Table, working: Ranges, i: int)
    requires AtWork(miner, working) && i in miner
    ensures AtWork(miner[i := None], working - {i}) && AtWork(miner - {i}, working - {i})
    ensures miner[i].Some? && Empty(miner[i].value) ==> AtWork(miner, working - {i})
  {
  }

  /** A connection enters the table, idle. */
  lemma Entered(miner: Table, working: Ranges, i: int)
    requires AtWork(miner, working) && (i in miner ==> miner[i].None?)
    ensures AtWork(miner[i := None], working)
  {
  }

  ghost predicate NoneIdle(miner: Table) {
    forall i :: i in miner ==> miner[i].Some?
  }

  ghost predicate AllIdle(miner: Table) {
    forall i :: i in miner ==> miner[i].None?
  }

  /** One idle miner has taken one lost range. */
  ghost predicate Took(m0: Table, p0: Ranges, m1: Table, p1: Ranges, i: int, j: int) {
    i in m0 && m0[i].None? && j in p0 && m1 == m0[i := Some(p0[j])] && p1 == p0 - {j}
  }

  ghost predicate TookBy(m0: Table, p0: Ranges, m1: Table, p1: Ranges, i: int) {
    exists j :: Took(m0, p0, m1, p1, i, j)
  }

  ghost predicate OneTook(m0: Table, p0: Ranges, m1: Table, p1: Ranges) {
    exists i, j :: Took(m0, p0, m1, p1, i, j)
  }

  /** At most one miner is idle, or at most one range is lost. */
  ghost predicate Single(miner: Table, pendrange: Ranges) {
    || (forall i, k :: i in miner && k in miner && miner[i].None? && miner[k].None? ==> i == k)
    || (forall i, k :: i in pendrange && k in pendrange ==> i == k)
  }

  /** No miner that has been asked so far was idle and took the range. */
  ghost predicate NotTaken(m0: Table, miner: Table, ids: set<int>) {
    (forall i :: i in miner ==> i in m0 && miner[i] == m0[i])
      && (forall i :: i in miner && i !in ids ==> miner[i].Some?)
  }

  lemma IdleOneIdle(m0: Table, miner: Table, ids: set<int>, i: int)
    requires NotTaken(m0, miner, ids) && i in miner && miner[i].None?
    ensures !NoneIdle(m0)
  {
  }

  lemma AllTaken(m0: Table, miner: Table)
    requires NotTaken(m0, miner, {})
    ensures NoneIdle(miner) && (miner == m0 ==> NoneIdle(m0))
  {
  }

  lemma TookOne(m0: Table, p0: Ranges, m1: Table, p1: Ranges, i: int, j: int)
    requires i in m0 && m0[i].None? && j in p0
    ensures Took(m0, p0, m1, p1, i, j) ==> OneTook(m0, p0, m1, p1)
  {
  }

  /** What becomes of a lost range: it waits when no miner is idle; otherwise one takes it, unless a write fails. */
  ghost predicate Moved(m0: Table, p0: Ranges, m1: Table, p1: Ranges, failed: bool) {
    if NoneIdle(m0) then m1 == m0 && p1 == p0 else failed || OneTook(m0, p0, m1, p1)
  }

  /** With one idle miner it is this one that takes a range. */
  lemma OnlyIdle(m: Table, p0: Ranges, m1: Table, p1: Ranges, id: int)
    requires NoneIdle(m)
    ensures Single(m[id := None], p0) && !NoneIdle(m[id := None])
    ensures OneTook(m[id := None], p0, m1, p1) ==> TookBy(m[id := None], p0, m1, p1, id)
  {
    assert m[id := None][id].None?;
    if OneTook(m[id := None], p0, m1, p1) {
      var i, j :| Took(m[id := None], p0, m1, p1, i, j);
      assert i == id;
    }
  }

  lemma DoneFurther(a: Book, b: Book, c: Book)
    requires SameDone(a, b) && SameProgress(b, c)
    ensures SameDone(a, c)
  {
  }

  lemma TookAll(m0: Table, p0: Ranges, m1: Table, p1: Ranges)
    requires Single(m0, p0) && OneTook(m0, p0, m1, p1)
    ensures NoneIdle(m1) || p1.Keys == {}
  {
    var i, j :| Took(m0, p0, m1, p1, i, j);
    if k :| k in m1 && m1[k].None? {
      assert k in m0 && m0[k].None? && k != i;
      assert forall l :: l in p0 ==> l == j;
    }
  }

  /** Every failed write has cost the table one miner, and nothing else has. */
  ghost predicate Cost(before: Table, after: Table, failed: int) {
    after.Keys <= before.Keys && |after| + failed == |before|
  }

  lemma CostNone(m: Table)
    ensures Cost(m, m, 0)
  {
  }

  lemma CostIs(before: Table, after: Table, failed: int)
    requires after.Keys <= before.Keys && |after| + failed == |before|
    ensures Cost(before, after, failed)
  {
  }

  /** The same blocks are finished, and as many are open. */
  ghost predicate SameDone(before: Book, after: Book) {
    && before.split == after.split
    && |before.places| == |after.places| && Open(before.places) == Open(after.places)
    && (forall k :: 0 <= k < |before.places| ==> (before.places[k].Done? <==> after.places[k].Done?))
  }

  /** And the same ones are forgotten. */
  ghost predicate SameProgress(before: Book, after: Book) {
    && SameDone(before, after)
    && (forall k :: 0 <= k < |before.places| ==> (before.places[k].Forgotten? <==> after.places[k].Forgotten?))
  }

  lemma SameForgotten(before: Book, after: Book)
    requires SameProgress(before, after)
    ensures SameDone(before, after) && (HasForgotten(before.places) <==> HasForgotten(after.places))
  {
  }

  lemma SameAsBefore(b: Book)
    ensures SameProgress(b, b)
  {
  }

  lemma SameFurther(a: Book, b: Book, c: Book)
    requires SameProgress(a, b) && SameProgress(b, c)
    ensures SameProgress(a, c)
  {
  }

  /** A table of idle miners. */
  function Idle(ids: set<int>): Table {
    map i | i in ids :: None
  }

  lemma IdleMore(miner: Table, all: set<int>, ids: set<int>, i: int)
    requires ids <= all && i in ids
    ensures miner + Idle(all - (ids - {i})) == (miner + Idle(all - ids))[i := None]
  {
  }

  lemma IdleNone(miner: Table)
    ensures miner + Idle({}) == miner
  {
  }

  lemma IdleOne(miner: Table, i: int)
    ensures miner + Idle({i}) == miner[i := None]
  {
  }

  lemma NothingOpen()
    ensures Open([]) == 0
  {
  }

  lemma Apart(miner: Table, pendrange: Ranges, b: Book)
    requires Balanced(miner, pendrange, b)
    ensures forall i :: i in miner ==> i !in pendrange
  {
    assert forall i :: i in miner.Keys ==> i !in pendrange.Keys;
  }

  lemma HasSlot(miner: Table, pendrange: Ranges, b: Book, j: int)
    requires Balanced(miner, pendrange, b) && j in pendrange
    ensures j in b.slot && b.slot[j] < |b.places|
  {
  }

  lemma NoneWorks(miner: Table, working: Ranges)
    requires AtWork(miner, working) && AllIdle(miner)
    ensures forall i :: i !in working
  {
  }

  lemma WorksOn(miner: Table, working: Ranges)
    requires AtWork(miner, working)
    ensures forall i :: i in working ==> i in miner && miner[i] == Some(working[i])
  {
  }

  lemma NothingHeld(miner: Table, pendrange: Ranges, b: Book)
    requires Balanced(miner, pendrange, b) && AllIdle(miner) && forall j :: j !in pendrange
    ensures Balanced(miner, pendrange, Book([], [], map[]))
  {
  }

  lemma OpenSame(b: Book, c: Book)
    requires SameDone(b, c)
    ensures b.split == c.split && |b.places| == |c.places| && Open(b.places) == Open(c.places)
  {
  }

  lemma MarkedLength(b: Book, i: int, p: Place)
    requires i in b.slot && b.slot[i] < |b.places|
    ensures var c := Mark(b, i, p); c.split == b.split && |c.places| == |b.places|
  {
  }

  /** With nothing handed out any split may be taken up. */
  lemma StillBalanced(miner: Table, pendrange: Ranges, b: Book, split: seq<Request>)
    requires Balanced(miner, pendrange, b) && b.places == []
    ensures Balanced(miner, pendrange, Book(split, [], map[]))
  {
  }

  ghost function Mark(b: Book, i: int, p: Place): Book
    requires i in b.slot && b.slot[i] < |b.places|
  {
    b.(places := b.places[b.slot[i] := p])
  }

  ghost function Pass(b: Book, j: int, i: int): Book
    requires j in b.slot && b.slot[j] < |b.places|
  {
    b.(places := b.places[b.slot[j] := HeldBy(i)], slot := b.slot[i := b.slot[j]])
  }

  ghost function Append(b: Book, i: int, p: Place): Book {
    b.(places := b.places + [p], slot := b.slot[i := |b.places|])
  }

  /** A lost range goes to an idle miner. */
  lemma Reassigned(miner: Table, pendrange: Ranges, b: Book, i: int, j: int)
    requires Balanced(miner, pendrange, b) && i in miner && miner[i].None? && j in pendrange
    ensures Balanced(miner[i := Some(pendrange[j])], pendrange - {j}, Pass(b, j, i))
    ensures SameProgress(b, Pass(b, j, i))
  {
    OpenUpdate(b.places, b.slot[j], HeldBy(i));
    var t, u, c := miner[i := Some(pendrange[j])], pendrange - {j}, Pass(b, j, i);
    forall k | 0 <= k < |b.places|
      ensures PlaceHolds(t, u, c, k)
    {
      assert PlaceHolds(miner, pendrange, b, k);
    }
  }

  /** An idle miner whose write failed is dropped. */
  lemma IdleDropped(miner: Table, pendrange: Ranges, b: Book, i: int)
    requires Balanced(miner, pendrange, b) && i in miner && miner[i].None?
    ensures Balanced(miner - {i}, pendrange, b)
  {
    var t := miner - {i};
    forall k | 0 <= k < |b.places|
      ensures PlaceHolds(t, pendrange, b, k)
    {
      assert PlaceHolds(miner, pendrange, b, k);
    }
  }

  /** Writing an idle entry for a connection keeps the books exactly when it neither holds nor lost a
      range: a second Join from a working miner would forget its range for good. */
  lemma IdleEntryIff(miner: Table, pendrange: Ranges, b: Book, i: int)
    requires Balanced(miner, pendrange, b)
    ensures Balanced(miner[i := None], pendrange, b) <==> i !in pendrange && (i in miner ==> miner[i].None?)
  {
    var t := miner[i := None];
    if i in miner && miner[i].Some? {
      assert PlaceHolds(miner, pendrange, b, b.slot[i]);
      assert !PlaceHolds(t, pendrange, b, b.slot[i]);
    } else if i !in pendrange {
      forall k | 0 <= k < |b.places|
        ensures PlaceHolds(t, pendrange, b, k)
      {
        assert PlaceHolds(miner, pendrange, b, k);
      }
    } else {
      assert i in t.Keys && i in pendrange.Keys;
    }
  }

  /** A miner is lost with its range. */
  lemma RangeLost(miner: Table, pendrange: Ranges, b: Book, i: int)
    requires Balanced(miner, pendrange, b) && i in miner && miner[i].Some?
    ensures Balanced(miner - {i}, pendrange[i := miner[i].value], Mark(b, i, LostBy(i)))
    ensures SameProgress(b, Mark(b, i, LostBy(i)))
  {
    OpenUpdate(b.places, b.slot[i], LostBy(i));
    var t, u, c := miner - {i}, pendrange[i := miner[i].value], Mark(b, i, LostBy(i));
    forall k | 0 <= k < |b.places|
      ensures PlaceHolds(t, u, c, k)
    {
      assert PlaceHolds(miner, pendrange, b, k);
    }
  }

  /** A second Join of a miner with a range: the table calls it idle, and its range is forgotten. */
  lemma RangeForgotten(miner: Table, pendrange: Ranges, b: Book, i: int)
    requires Balanced(miner, pendrange, b) && i in miner && miner[i].Some?
    ensures var c := Mark(b, i, Forgotten);
            Balanced(miner[i := None], pendrange, c) && SameDone(b, c) && HasForgotten(c.places)
  {
    OpenUpdate(b.places, b.slot[i], Forgotten);
    var t, c := miner[i := None], Mark(b, i, Forgotten);
    assert c.places[b.slot[i]].Forgotten?;
    forall k | 0 <= k < |b.places|
      ensures PlaceHolds(t, pendrange, c, k)
    {
      assert PlaceHolds(miner, pendrange, b, k);
    }
  }

  /** A miner's range is finished. */
  lemma RangeDone(miner: Table, pendrange: Ranges, b: Book, i: int)
    requires Balanced(miner, pendrange, b) && i in miner && miner[i].Some? && !Empty(miner[i].value)
    ensures Balanced(miner[i := None], pendrange, Mark(b, i, Done))
    ensures Open(Mark(b, i, Done).places) == Open(b.places) - 1
    ensures HasForgotten(Mark(b, i, Done).places) <==> HasForgotten(b.places)
  {
    OpenUpdate(b.places, b.slot[i], Done);
    var t, c := miner[i := None], Mark(b, i, Done);
    forall k | 0 <= k < |b.places|
      ensures b.places[k].Forgotten? <==> c.places[k].Forgotten?
    {
    }
    forall k | 0 <= k < |b.places|
      ensures PlaceHolds(t, pendrange, c, k)
    {
      assert PlaceHolds(miner, pendrange, b, k);
    }
  }

  /** The next block is handed to an idle miner. */
  lemma HandedOut(miner: Table, pendrange: Ranges, b: Book, i: int)
    requires Balanced(miner, pendrange, b) && i in miner && miner[i].None? && |b.places| < |b.split|
    ensures Balanced(miner[i := Some(b.split[|b.places|])], pendrange, Append(b, i, HeldBy(i)))
  {
    var t, c := miner[i := Some(b.split[|b.places|])], Append(b, i, HeldBy(i));
    forall k | 0 <= k <= |b.places|
      ensures PlaceHolds(t, pendrange, c, k)
    {
      if k < |b.places| {
        assert PlaceHolds(miner, pendrange, b, k);
      }
    }
  }

  /** Or kept as lost when the write to that miner failed. */
  lemma HandOutFailed(miner: Table, pendrange: Ranges, b: Book, i: int)
    requires Balanced(miner, pendrange, b) && i in miner && miner[i].None? && |b.places| < |b.split|
    ensures Balanced(miner - {i}, pendrange[i := b.split[|b.places|]], Append(b, i, LostBy(i)))
  {
    var t, u, c := miner - {i}, pendrange[i := b.split[|b.places|]], Append(b, i, LostBy(i));
    forall k | 0 <= k <= |b.places|
      ensures PlaceHolds(t, u, c, k)
    {
      if k < |b.places| {
        assert PlaceHolds(miner, pendrange, b, k);
      }
    }
  }

  /** When nothing is open, no miner holds a range and none is lost. */
  lemma AllFinished(miner: Table, pendrange: Ranges, b: Book)
    requires Balanced(miner, pendrange, b) && Open(b.places) == 0
    ensures AllIdle(miner) && (forall j :: j !in pendrange)
    ensures forall k :: 0 <= k < |b.places| ==> b.places[k].Done? && !Empty(b.split[k])
    ensures !HasForgotten(b.places)
  {
    OpenNone(b.places);
    forall k | 0 <= k < |b.places|
      ensures !Empty(b.split[k])
    {
      assert PlaceHolds(miner, pendrange, b, k);
    }
  }

  lemma HeldBlock(miner: Table, pendrange: Ranges, b: Book, i: int)
    requires Balanced(miner, pendrange, b) && i in miner && miner[i].Some?
    ensures i in b.slot && b.slot[i] < |b.places| <= |b.split| && miner[i].value == b.split[b.slot[i]]
  {
    assert PlaceHolds(miner, pendrange, b, b.slot[i]);
  }

  /** A nonce lies in the range of at most one miner, so an answer is credited to the one that found it. */
  lemma SoleHolder(miner: Table, pendrange: Ranges, b: Book, r: Request, i: int, j: int, n: int)
    requires Balanced(miner, pendrange, b) && CutOf(r, b.split)
    requires i in miner && miner[i].Some? && In(miner[i].value, n)
    requires j in miner && miner[j].Some? && In(miner[j].value, n)
    ensures i == j
  {
    var k, l := b.slot[i], b.slot[j];
    HeldBlock(miner, pendrange, b, i);
    HeldBlock(miner, pendrange, b, j);
    assert In(b.split[k], n) && In(b.split[l], n);
  }
}
