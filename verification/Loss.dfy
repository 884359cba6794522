// The two ways the code counts silence. The server remembers when it last heard its peer; the client
// takes its epoch counter back to that moment. Both find the loss at the same epoch.

module Loss {

  /** What a connection counts: an accepted message, a keep-alive of the peer, an epoch. */
  datatype Event = Heard | KeptAlive | Epoch

  /** Epochs counted, and the count at which the peer was last heard. */
  datatype Counters = Counters(receive: int, lastrece: int)

  function ServerStep(c: Counters, e: Event): Counters {
    match e
    case Heard => c.(lastrece := c.receive)
    case KeptAlive => c.(lastrece := c.receive)
    case Epoch => c.(receive := c.receive + 1)
  }

  function ClientStep(c: Counters, e: Event): Counters {
    match e
    case Heard => c.(receive := c.lastrece)
    case KeptAlive => c.(lastrece := c.receive)
    case Epoch => c.(receive := c.receive + 1)
  }

  function ServerAfter(events: seq<Event>): Counters {
    if events == [] then Counters(0, 0) else ServerStep(ServerAfter(events[..|events| - 1]), events[|events| - 1])
  }

  function ClientAfter(events: seq<Event>): Counters {
    if events == [] then Counters(0, 0) else ClientStep(ClientAfter(events[..|events| - 1]), events[|events| - 1])
  }

  /** The tests the two epoch handlers make once they have counted the epoch. */
  predicate ServerFinds(c: Counters, epochLimit: int) {
    c.receive - c.lastrece + 1 > epochLimit
  }

  predicate ClientFinds(c: Counters, epochLimit: int) {
    c.receive - c.lastrece >= epochLimit
  }

  /** The last `n` events were epochs, with nothing heard between them. */
  predicate Silent(events: seq<Event>, n: int) {
    n <= |events| && forall k :: 0 <= |events| - n <= k < |events| ==> events[k] == Epoch
  }

  lemma {:induction false} SilenceIsCounted(events: seq<Event>, n: nat)
    ensures var s, c := ServerAfter(events), ClientAfter(events);
            && 0 <= s.receive - s.lastrece == c.receive - c.lastrece
            && (s.receive - s.lastrece >= n <==> Silent(events, n))
  {
    if events != [] {
      var before, last := events[..|events| - 1], events[|events| - 1];
      assert events == before + [last];
      SilenceIsCounted(before, if n == 0 then 0 else n - 1);
    }
  }

  /** After any run that ends in an epoch, either side finds the peer lost exactly when that epoch is at
      least the `epochLimit`-th in a row with nothing heard. */
  lemma LostIff(events: seq<Event>, epochLimit: nat)
    ensures ServerFinds(ServerAfter(events), epochLimit) <==> Silent(events, epochLimit)
    ensures ClientFinds(ClientAfter(events), epochLimit) <==> Silent(events, epochLimit)
  {
    SilenceIsCounted(events, epochLimit);
  }

  /** So the first loss is found at the epoch that completes `epochLimit` silent ones, and not before. */
  lemma FirstLoss(events: seq<Event>, epochLimit: nat)
    requires epochLimit >= 1 && events != [] && ServerFinds(ServerAfter(events), epochLimit)
    requires !ServerFinds(ServerAfter(events[..|events| - 1]), epochLimit)
    ensures events[|events| - 1] == Epoch
    ensures Silent(events, epochLimit) && (|events| > epochLimit ==> events[|events| - 1 - epochLimit] != Epoch)
    ensures ClientFinds(ClientAfter(events), epochLimit)
            && !ClientFinds(ClientAfter(events[..|events| - 1]), epochLimit)
  {
    LostIff(events, epochLimit);
    LostIff(events[..|events| - 1], epochLimit);
  }
}
