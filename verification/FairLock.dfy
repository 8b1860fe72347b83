/** The leader's turn lock: tickets ordered by (debt, arrival number), one turn at a time. */
module FairLock {
  import opened Collections

  type Client = string

  datatype Ticket = Ticket(debt: nat, no: nat)

  predicate Before(a: Ticket, b: Ticket) {
    if a.debt != b.debt then a.debt < b.debt else a.no < b.no
  }

  /** The four fields guarded by the mutex. Each function is one critical section. */
  datatype Lock = Lock(active: bool, lastNo: nat, waiting: map<Client, Ticket>, debt: map<Client, nat>) {
    function DebtOf(c: Client): nat {
      if c in debt then debt[c] else 0
    }

    function NewTicket(c: Client): Ticket {
      Ticket(DebtOf(c), lastNo + 1)
    }

    function Enter(c: Client): Lock {
      this.(lastNo := lastNo + 1, waiting := waiting[c := NewTicket(c)])
    }

    /** The wait predicate: the caller's own entry is skipped by client id. */
    predicate MayPass(c: Client, me: Ticket) {
      !active && forall w :: w in waiting && w != c ==> !Before(waiting[w], me)
    }

    function Pass(c: Client): Lock {
      this.(waiting := waiting - {c}, active := true)
    }

    function Leave(c: Client): Lock {
      this.(debt := debt[c := DebtOf(c) + 1], active := false)
    }

    ghost function TotalDebt(): int {
      Sum(debt.Keys, ValueIn(debt))
    }
  }

  function ValueIn(m: map<Client, nat>): Client -> int {
    c => if c in m then m[c] else 0
  }

  const NewLock := Lock(false, 0, map[], map[])

  /** The lock object. `acquire` blocks, so it appears as the two critical sections it runs:
      taking a ticket, and one evaluation of the wait predicate followed by the grant. */
  class FairQueue {
    var active: bool
    var lastNo: nat
    var waiting: map<Client, Ticket>
    var debt: map<Client, nat>

    function Value(): Lock
      reads this
    {
      Lock(active, lastNo, waiting, debt)
    }

    constructor ()
      ensures Value() == NewLock
    {
      active, lastNo, waiting, debt := false, 0, map[], map[];
    }

    method Debt(cli: Client) returns (d: nat)
      ensures d == Value().DebtOf(cli)
    {
      d := if cli in debt then debt[cli] else 0;
    }

    method TakeTicket(cli: Client) returns (me: Ticket)
      modifies this
      ensures me == old(Value()).NewTicket(cli)
      ensures Value() == old(Value()).Enter(cli)
    {
      lastNo := lastNo + 1;
      me := Ticket(if cli in debt then debt[cli] else 0, lastNo);
      waiting := waiting[cli := me];
    }

    /** Scans `waiting` in any order, stopping at the first smaller ticket. */
    method TryPass(cli: Client, me: Ticket) returns (passed: bool)
      modifies this
      ensures passed == old(Value()).MayPass(cli, me)
      ensures Value() == if passed then old(Value()).Pass(cli) else old(Value())
    {
      if active { return false; }
      var todo := waiting.Keys;
      while todo != {}
        invariant todo <= waiting.Keys
        invariant Value() == old(Value())
        invariant forall w :: w in waiting && w !in todo && w != cli ==> !Before(waiting[w], me)
        decreases todo
      {
        var w :| w in todo;
        if w != cli && Before(waiting[w], me) { return false; }
        todo := todo - {w};
      }
      waiting := waiting - {cli};
      active := true;
      return true;
    }

    method Release(cli: Client)
      modifies this
      ensures Value() == old(Value()).Leave(cli)
    {
      debt := debt[cli := (if cli in debt then debt[cli] else 0) + 1];
      active := false;
    }
  }
}
