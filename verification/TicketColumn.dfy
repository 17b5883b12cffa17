/** The pending undelegations: one column of the database, shared by every execution of every block. */
module TicketColumn {
  import opened Common

  const UNSTAKE_DELAY_SECS := 7 * 24 * 60 * 60

  /** A pending undelegation is stored under its delegator, validator and unlock time. */
  datatype Ticket = Ticket(delegator: Address, validator: Address, unlockAt: nat)

  type Tickets = map<Ticket, nat>

  function Due(column: Tickets, now: nat): Tickets {
    map t | t in column && t.unlockAt <= now :: column[t]
  }

  function NotDue(column: Tickets, now: nat): Tickets {
    map t | t in column && t.unlockAt > now :: column[t]
  }
}
