/** The ticket tables and the statements that the repository runs on them, inside or outside a
    transaction.  Whether a statement reaches the server is a parameter of each call. */
module Postgres {
  import opened Entity
  import opened Lifecycle

  datatype Result<+T> = Ok(value: T) | Err(error: Error)

  /** An instant.  `created_at` of a row is the instant at which its transaction began; the id
      of a history row carries the instant at which it was inserted. */
  type Stamp = nat

  datatype HistoryRow = HistoryRow(ticket: Id, actor: Id, from: Status, to: Status, created: Stamp, inserted: Stamp)

  datatype AuditKind = TicketCreated | TicketUpdated | SlaBreached
  datatype AuditRow = AuditRow(ticket: Id, actor: Option<Id>, kind: AuditKind, payload: Option<Row>, created: Stamp)

  datatype Tables = Tables(tickets: map<Id, Row>, history: seq<HistoryRow>, audits: seq<AuditRow>)

  function HistoryRows(id: Id, actor: Id, edges: seq<(Status, Status)>, created: Stamp, inserted: Stamp)
    : seq<HistoryRow>
  {
    seq(|edges|, i requires 0 <= i < |edges| =>
          HistoryRow(id, actor, edges[i].0, edges[i].1, created, inserted))
  }

  function DueIds(tickets: map<Id, Row>, now: Time): set<Id> {
    set id | id in tickets && Qualifies(tickets[id], now)
  }

  function SweepTickets(tickets: map<Id, Row>, now: Time): map<Id, Row> {
    map id | id in tickets :: SweepRow(tickets[id], now)
  }

  /** The tickets of the breach audit rows, with multiplicity. */
  function BreachRows(audits: seq<AuditRow>): multiset<Id> {
    if audits == [] then multiset{}
    else
      var last := audits[|audits| - 1];
      BreachRows(audits[..|audits| - 1])
      + if last.kind == SlaBreached then multiset{last.ticket} else multiset{}
  }

  lemma BreachRowsAppend(audits: seq<AuditRow>, a: AuditRow)
    ensures BreachRows(audits + [a])
            == BreachRows(audits) + if a.kind == SlaBreached then multiset{a.ticket} else multiset{}
  {
    assert (audits + [a])[..|audits|] == audits;
  }

  class Database {
    var committed: Tables  // what every other connection sees
    var work: Tables       // what the open transaction sees
    var inTx: bool
    var started: Stamp     // when the open transaction began
    var ticks: Stamp       // the next instant

    constructor ()
      ensures !inTx && committed == Tables(map[], [], []) && ticks == 0
    {
      committed := Tables(map[], [], []);
      work := Tables(map[], [], []);
      inTx, started, ticks := false, 0, 0;
    }

    method Begin(ok: bool) returns (err: Option<Error>)
      requires !inTx
      modifies this`work, this`inTx, this`started, this`ticks
      ensures ok ==> err.None? && inTx && work == committed && started == old(ticks) && ticks == old(ticks) + 1
      ensures !ok ==> err == Some(StorageFailure) && !inTx && ticks == old(ticks)
    {
      if !ok {
        return Some(StorageFailure);
      }
      work, inTx := committed, true;
      started, ticks := ticks, ticks + 1;
      return None;
    }

    /** The second half of WithTransaction: roll back on the callback's error, else commit. */
    method End(fnErr: Option<Error>, ok: bool) returns (err: Option<Error>)
      requires inTx
      modifies this`committed, this`inTx
      ensures !inTx
      ensures err == if fnErr.Some? then fnErr else if ok then None else Some(StorageFailure)
      ensures committed == if err.None? then work else old(committed)
    {
      inTx := false;
      if fnErr.Some? {
        return fnErr;
      }
      if !ok {
        return Some(StorageFailure);
      }
      committed := work;
      return None;
    }

    method GetTicket(id: Id, ok: bool) returns (r: Result<Row>)
      ensures var tickets := if inTx then work.tickets else committed.tickets;
              r == if !ok then Err(StorageFailure)
                   else if id in tickets then Ok(tickets[id]) else Err(NotFound)
    {
      var tickets := if inTx then work.tickets else committed.tickets;
      if !ok {
        return Err(StorageFailure);
      }
      return if id in tickets then Ok(tickets[id]) else Err(NotFound);
    }

    method CreateTicket(id: Id, t: Row, ok: bool) returns (err: Option<Error>)
      requires inTx
      modifies this`work
      ensures err.None? <==>
              && ok && id !in old(work).tickets
              && t.status in {Open, Pending, Resolved, Closed} && t.priority in {Low, Medium, High, Urgent}
      ensures err.None? ==>
                work == old(work).(tickets := old(work).tickets[id := t.(assignee := None, team := None,
                                     pausedAt := None, remaining := None, breachedAt := None)])
      ensures err.Some? ==> err.value == StorageFailure && work == old(work)
    {
      if !ok || !Storable(t) || id in work.tickets {
        return Some(StorageFailure);
      }
      var row := t.(assignee := None, team := None, pausedAt := None, remaining := None, breachedAt := None);
      work := work.(tickets := work.tickets[id := row]);
      return None;
    }

    method UpdateTicket(id: Id, t: Row, ok: bool) returns (err: Option<Error>)
      requires inTx
      modifies this`work
      ensures err.None? <==>
              ok && (id in old(work).tickets ==>
                       t.status in {Open, Pending, Resolved, Closed} && t.priority in {Low, Medium, High, Urgent})
      ensures err.None? && id in old(work).tickets ==>
                var stored := old(work).tickets[id];
                work == old(work).(tickets := old(work).tickets[id :=
                          Row(stored.customer, t.assignee, t.team, t.status, t.priority,
                              t.dueAt, t.pausedAt, t.remaining, stored.breachedAt)])
      ensures err.Some? ==> err.value == StorageFailure
      ensures err.Some? || id !in old(work).tickets ==> work == old(work)
    {
      if !ok {
        return Some(StorageFailure);
      }
      if id !in work.tickets {
        return None;
      }
      if !Storable(t) {
        return Some(StorageFailure);
      }
      work := work.(tickets := work.tickets[id := WriteColumns(work.tickets[id], t)]);
      return None;
    }

    method AddStatusHistory(id: Id, actor: Id, from: Status, to: Status, ok: bool) returns (err: Option<Error>)
      requires inTx
      modifies this`work, this`ticks
      ensures err == if ok then None else Some(StorageFailure)
      ensures var h := HistoryRow(id, actor, from, to, started, old(ticks));
              work == if ok then old(work).(history := old(work).history + [h]) else old(work)
      ensures ticks == old(ticks) + 1
    {
      var inserted := ticks;
      ticks := ticks + 1;
      if !ok {
        return Some(StorageFailure);
      }
      work := work.(history := work.history + [HistoryRow(id, actor, from, to, started, inserted)]);
      return None;
    }

    /** Inside a transaction the row is stamped with its beginning, else with the instant of
        the statement. */
    method Audit(id: Id, actor: Option<Id>, kind: AuditKind, payload: Option<Row>, ok: bool)
      returns (err: Option<Error>)
      modifies this`work, this`committed, this`ticks
      ensures err == if ok then None else Some(StorageFailure)
      ensures var a := AuditRow(id, actor, kind, payload, if inTx then started else old(ticks));
              && work == (if inTx && ok then old(work).(audits := old(work).audits + [a]) else old(work))
              && committed == (if !inTx && ok then old(committed).(audits := old(committed).audits + [a])
                               else old(committed))
      ensures ticks == old(ticks) + if !inTx && ok then 1 else 0
    {
      if !ok {
        return Some(StorageFailure);
      }
      if inTx {
        work := work.(audits := work.audits + [AuditRow(id, actor, kind, payload, started)]);
      } else {
        committed := committed.(audits := committed.audits + [AuditRow(id, actor, kind, payload, ticks)]);
        ticks := ticks + 1;
      }
      return None;
    }

    /** The breach statement: one atomic UPDATE ... RETURNING id. */
    method SweepBreached(now: Time, ok: bool) returns (r: Result<set<Id>>)
      requires !inTx
      modifies this`committed
      ensures r == if ok then Ok(DueIds(old(committed).tickets, now)) else Err(StorageFailure)
      ensures committed == if ok then old(committed).(tickets := SweepTickets(old(committed).tickets, now))
                           else old(committed)
    {
      if !ok {
        return Err(StorageFailure);
      }
      var ids := DueIds(committed.tickets, now);
      committed := committed.(tickets := SweepTickets(committed.tickets, now));
      return Ok(ids);
    }
  }
}
