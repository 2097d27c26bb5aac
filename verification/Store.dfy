/** The store as the object every service is handed: its tables are fields that statements reassign. */
module Store {
  import opened Tables

  class Database {
    var tickets: map<nat, Ticket>
    var logs: map<nat, DeployLog>
    var nextTicket: nat
    var nextLog: nat

    function View(): Db
      reads this
    {
      Db(tickets, logs, nextTicket, nextLog)
    }

    constructor ()
      ensures View() == EMPTY_DB
    {
      tickets, logs, nextTicket, nextLog := map[], map[], 1, 1;
    }

    /** Commits the effect of one statement. */
    method Commit(db: Db)
      modifies this
      ensures View() == db
    {
      tickets, logs, nextTicket, nextLog := db.tickets, db.logs, db.nextTicket, db.nextLog;
    }
  }
}
