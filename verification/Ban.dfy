// What the server keeps of a connection after CloseConn, until its messages are acknowledged.

module ClosedConnection {
  import opened Connection
  import opened Messages
  import opened Window

  class Ban {
    const epochLimit: int
    const addr: string
    var databuf: Buffer
    var lastEpo: int
    var rece: int

    /** History: whose record it is, what was pending when it was made, what was acknowledged since. */
    ghost const id: int
    ghost const owed: Buffer
    ghost var acked: set<int>

    ghost predicate Valid()
      reads this
    {
      databuf == owed - acked
    }

    function Silence(): int
      reads this
    {
      rece - lastEpo
    }

    constructor (epochLimit: int, addr: string, ghost id: int, pending: Buffer)
      ensures Valid() && acked == {} && Silence() == 0
      ensures this.epochLimit == epochLimit && this.addr == addr && this.id == id && this.owed == pending
    {
      this.epochLimit, this.addr, this.id, this.owed := epochLimit, addr, id, pending;
      databuf, lastEpo, rece, acked := pending, 0, 0, {};
    }

    /** An acknowledgement for the closed connection. */
    method Heard(n: int)
      requires Valid()
      modifies this
      ensures Valid() && acked == old(acked) + {n} && Silence() == 0
    {
      lastEpo := rece;
      databuf := databuf - {n};
      acked := acked + {n};
    }

    /** An epoch: give up after `epochLimit` silent ones, resend everything before that. */
    method Tick() returns (out: seq<Message>, expired: bool)
      requires Valid()
      modifies this`rece
      ensures Valid() && Silence() == old(Silence()) + 1
      ensures expired <==> Silence() >= epochLimit
      ensures Elems(out) == if expired then {} else Contents(owed - acked)
    {
      rece := rece + 1;
      out := [];
      expired := rece - lastEpo >= epochLimit;
      if !expired {
        out := SendAll(databuf);
      }
    }
  }
}
