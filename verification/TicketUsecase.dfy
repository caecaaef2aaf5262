/** The ticket use cases: each runs its statements in one transaction and publishes afterwards. */
module TicketUsecase {
  import opened Entity
  import opened Lifecycle
  import opened Postgres
  import opened Ws

  datatype User = User(id: Id, role: Role)

  /** Which of the calls an operation makes get through. */
  datatype Net = Net(begin: bool, read: bool, history: bool, write: bool, audit: bool, commit: bool,
                     publish: bool, look: bool, enqueue: bool)

  /** The error of the first step of an update that fails; None when it commits. */
  function Refusal(db: Tables, actor: User, id: Id, p: Patch, atStatus: Time, atPriority: Time, net: Net)
    : Option<Error>
  {
    if actor.role == Customer then Some(Forbidden)
    else if !net.begin || !net.read then Some(StorageFailure)
    else if id !in db.tickets then Some(NotFound)
    else
      var moved := ApplyStatus(db.tickets[id], p, atStatus);
      if moved.None? then Some(InvalidTransition)
      else if NewEdges(db.tickets[id].status, p) != [] && !net.history then Some(StorageFailure)
      else if !net.write || !Storable(ApplyRest(moved.value, p, atPriority)) then Some(StorageFailure)
      else if !net.audit || !net.commit then Some(StorageFailure)
      else None
  }

  /** The tables after a committed update: row, history and audit move together. */
  function UpdatedTables(db: Tables, actor: Id, id: Id, p: Patch, after: Row, started: Stamp, inserted: Stamp): Tables
    requires id in db.tickets
  {
    Tables(db.tickets[id := WriteColumns(db.tickets[id], after)],
           db.history + HistoryRows(id, actor, NewEdges(db.tickets[id].status, p), started, inserted),
           db.audits + [AuditRow(id, Some(actor), TicketUpdated, Some(after), started)])
  }

  function CreatedTables(db: Tables, actor: Id, id: Id, row: Row, started: Stamp): Tables {
    Tables(db.tickets[id := row], db.history,
           db.audits + [AuditRow(id, Some(actor), TicketCreated, Some(row), started)])
  }

  class Tickets {
    const db: Database
    const pub: Publisher
    const hasQueue: bool

    constructor (db: Database, pub: Publisher, hasQueue: bool)
      ensures this.db == db && this.pub == pub && this.hasQueue == hasQueue
    {
      this.db, this.pub, this.hasQueue := db, pub, hasQueue;
    }

    method Create(actor: User, id: Id, priority: Option<Priority>, now: Time, net: Net)
      returns (t: Row, err: Option<Error>)
      requires !db.inTx && pub.db == db
      modifies db, pub`attempts
      ensures !db.inTx && db.ticks >= old(db.ticks) && t == NewRow(actor.id, priority, now)
      ensures t.customer == actor.id && t.assignee.None? && t.team.None? && t.status == Open
      ensures t.priority == if priority.Some? then priority.value else Medium
      ensures t.dueAt == Some(now + Duration(t.priority))
      ensures t.pausedAt.None? && t.remaining.None? && t.breachedAt.None?
      ensures
        if net.begin && net.write && net.audit && net.commit
           && t.priority in {Low, Medium, High, Urgent} && id !in old(db.committed).tickets
        then
          && db.committed == CreatedTables(old(db.committed), actor.id, id, t, old(db.ticks))
          && db.committed.tickets == old(db.committed).tickets[id := t]
          && db.committed.history == old(db.committed).history
          && db.committed.audits == old(db.committed).audits
               + [AuditRow(id, Some(actor.id), TicketCreated, Some(t), old(db.ticks))]
          && db.ticks == old(db.ticks) + 1
          && pub.attempts == old(pub.attempts)
               + [Attempt(Event(EventCreated, id, TicketPayload(t)), db.committed, net.publish)]
          && err == if net.publish then None else Some(PublishFailure)
        else
          && db.committed == old(db.committed) && pub.attempts == old(pub.attempts)
          && err == Some(StorageFailure)
    {
      var p := Medium;
      if priority.Some? {
        p := priority.value;
      }
      t := Row(actor.id, None, None, Open, p, Some(now + Duration(p)), None, None, None);
      err := db.Begin(net.begin);
      if err.Some? {
        return;
      }
      err := db.CreateTicket(id, t, net.write);
      if err.None? {
        err := db.Audit(id, Some(actor.id), TicketCreated, Some(t), net.audit);
      }
      err := db.End(err, net.commit);
      if err.None? {
        err := pub.Publish(Event(EventCreated, id, TicketPayload(t)), net.publish);
      }
    }

    /** The status block of Update's callback, on the ticket loaded as t. */
    method MoveStatus(t: Ticket, actor: User, id: Id, p: Patch, now: Time, net: Net)
      returns (err: Option<Error>)
      requires db.inTx
      modifies t, db`work, db`ticks
      ensures db.ticks >= old(db.ticks)
      ensures
        var before, edges := old(t.Fields()), NewEdges(old(t.status), p);
        var moved := ApplyStatus(before, p, now);
        if moved.None? then err == Some(InvalidTransition)
        else if edges != [] && !net.history then err == Some(StorageFailure)
        else
          && err.None? && t.Fields() == moved.value
          && db.work == old(db.work).(history := old(db.work).history + HistoryRows(id, actor.id, edges, db.started, old(db.ticks)))
          && db.ticks == old(db.ticks) + |edges|
    {
      err := None;
      var before := t.status;
      if p.status.Some? {
        err := t.TransitionTo(p.status.value);
        if err.Some? {
          return;
        }
        if p.status.value == Pending {
          t.PauseSLA(now);
        }
        if before == Pending && p.status.value != Pending {
          t.ResumeSLA(now);
        }
        if before != p.status.value {
          err := db.AddStatusHistory(id, actor.id, before, p.status.value, net.history);
        }
      }
    }

    /** The priority, assignee and team blocks of Update's callback. */
    method SetRest(t: Ticket, p: Patch, now: Time)
      modifies t
      ensures t.Fields() == ApplyRest(old(t.Fields()), p, now)
    {
      if p.priority.Some? && p.priority.value != t.priority {
        t.priority := p.priority.value;
        t.dueAt := Some(now + Duration(p.priority.value));
        t.pausedAt := None;
        t.remaining := None;
      }
      if p.assignee.Some? {
        t.assignee := p.assignee;
      }
      if p.team.Some? {
        t.team := p.team;
      }
    }

    /** The last two statements of Update's callback. */
    method Store(actor: User, id: Id, after: Row, net: Net) returns (err: Option<Error>)
      requires db.inTx && id in db.work.tickets
      modifies db`work, db`committed, db`ticks
      ensures db.committed == old(db.committed) && db.ticks == old(db.ticks)
      ensures err == if net.write && Storable(after) && net.audit then None else Some(StorageFailure)
      ensures err.None? ==>
                && db.work.tickets == old(db.work).tickets[id := WriteColumns(old(db.work).tickets[id], after)]
                && db.work.history == old(db.work).history
                && db.work.audits == old(db.work).audits + [AuditRow(id, Some(actor.id), TicketUpdated, Some(after), db.started)]
    {
      err := db.UpdateTicket(id, after, net.write);
      if err.None? {
        err := db.Audit(id, Some(actor.id), TicketUpdated, Some(after), net.audit);
      }
    }

    /** The callback of Update: it works on the transaction's own view of the tables. */
    method UpdateInTx(actor: User, id: Id, p: Patch, atStatus: Time, atPriority: Time, net: Net)
      returns (after: Option<Row>, err: Option<Error>)
      requires db.inTx && net.begin && actor.role != Customer
      modifies db`work, db`committed, db`ticks
      ensures db.committed == old(db.committed) && db.ticks >= old(db.ticks)
      ensures err == Refusal(old(db.work), actor, id, p, atStatus, atPriority, net.(commit := true))
      ensures err.None? ==>
                && after == Patched(old(db.work).tickets[id], p, atStatus, atPriority)
                && after.Some?
                && db.work == UpdatedTables(old(db.work), actor.id, id, p, after.value, db.started, old(db.ticks))
                && db.ticks == old(db.ticks) + |NewEdges(old(db.work).tickets[id].status, p)|
    {
      after := None;
      var read := db.GetTicket(id, net.read);
      if read.Err? {
        return None, Some(read.error);
      }
      var t := new Ticket.Load(read.value);
      err := MoveStatus(t, actor, id, p, atStatus, net);
      if err.Some? {
        return;
      }
      SetRest(t, p, atPriority);
      after := Some(t.Fields());
      err := Store(actor, id, after.value, net);
    }

    /** All or nothing: either the row, its history and its audit entry are committed together
        and then one publish is attempted that finds them committed, or nothing changes and
        nothing is published. */
    method Update(actor: User, id: Id, p: Patch, atStatus: Time, atPriority: Time, net: Net)
      returns (after: Option<Row>, err: Option<Error>)
      requires !db.inTx && pub.db == db
      modifies db, pub`attempts
      ensures !db.inTx && db.ticks >= old(db.ticks)
      ensures
        var refusal := Refusal(old(db.committed), actor, id, p, atStatus, atPriority, net);
        if refusal.Some? then
          db.committed == old(db.committed) && pub.attempts == old(pub.attempts) && err == refusal
        else
          && after == Patched(old(db.committed).tickets[id], p, atStatus, atPriority)
          && after.Some?
          && db.committed
             == UpdatedTables(old(db.committed), actor.id, id, p, after.value, old(db.ticks), old(db.ticks) + 1)
          && db.ticks == old(db.ticks) + 1 + |NewEdges(old(db.committed).tickets[id].status, p)|
          && pub.attempts == old(pub.attempts)
               + [Attempt(Event(EventUpdated, id, TicketPayload(after.value)), db.committed, net.publish)]
          && err == if net.publish then None else Some(PublishFailure)
    {
      if actor.role == Customer {
        return None, Some(Forbidden);
      }
      after := None;
      err := db.Begin(net.begin);
      if err.Some? {
        return;
      }
      after, err := UpdateInTx(actor, id, p, atStatus, atPriority, net);
      err := db.End(err, net.commit);
      if err.None? {
        err := pub.Publish(Event(EventUpdated, id, TicketPayload(after.value)), net.publish);
      }
    }

    /** Reads the priority outside any transaction, then updates; the job is queued only after
        the update was committed and published. */
    method Escalate(actor: User, id: Id, atPriority: Time, net: Net) returns (err: Option<Error>)
      requires !db.inTx && pub.db == db && pub.Fifo()
      modifies db, pub
      ensures !db.inTx && db.ticks >= old(db.ticks) && pub.Fifo() && pub.popped == old(pub.popped)
      ensures
        var before := old(db.committed);
        var visible := net.look && id in before.tickets
                       && (actor.role == Customer ==> before.tickets[id].customer == actor.id);
        if !visible then
          && db.committed == before && pub.attempts == old(pub.attempts) && pub.pushed == old(pub.pushed)
          && err == Some(if net.look then NotFound else StorageFailure)
        else
          var p := EscalationPatch(before.tickets[id].priority);
          var refusal := Refusal(before, actor, id, p, atPriority, atPriority, net);
          if refusal.Some? then
            && db.committed == before && pub.attempts == old(pub.attempts) && pub.pushed == old(pub.pushed)
            && err == refusal
          else
            var after := Patched(before.tickets[id], p, atPriority, atPriority);
            var job := Job(Event(EventEscalated, id, EscalationPayload(actor.id, p.priority)));
            && after.Some?
            && db.committed
               == UpdatedTables(before, actor.id, id, p, after.value, old(db.ticks), old(db.ticks) + 1)
            && pub.attempts == old(pub.attempts)
                 + [Attempt(Event(EventUpdated, id, TicketPayload(after.value)), db.committed, net.publish)]
            && pub.pushed == (if net.publish && hasQueue && net.enqueue then old(pub.pushed) + [job]
                              else old(pub.pushed))
            && err == (if net.publish && (hasQueue ==> net.enqueue) then None else Some(PublishFailure))
    {
      var read := db.GetTicket(id, net.look);
      if read.Err? {
        return Some(read.error);
      }
      if actor.role == Customer && read.value.customer != actor.id {
        return Some(NotFound);
      }
      var p := EscalationPatch(read.value.priority);
      var after;
      after, err := Update(actor, id, p, atPriority, atPriority, net);
      if err.Some? {
        return;
      }
      if hasQueue {
        var job := Job(Event(EventEscalated, id, EscalationPayload(actor.id, p.priority)));
        err := pub.EnqueueEscalation(job, net.enqueue);
      }
    }
  }

  /** An update commits if and only if the actor is not a customer, every call it needs gets
      through, the ticket exists and the patched row is one the table accepts. */
  lemma CommitsExactlyWhen(db: Tables, actor: User, id: Id, p: Patch, s: Time, q: Time, net: Net)
    ensures Refusal(db, actor, id, p, s, q, net).None? <==>
            && actor.role != Customer
            && net.begin && net.read && net.write && net.audit && net.commit
            && id in db.tickets
            && (NewEdges(db.tickets[id].status, p) != [] ==> net.history)
            && Patched(db.tickets[id], p, s, q).Some?
  {
  }

  /** Each refusal, by its cause. */
  lemma RefusedExactlyWhen(db: Tables, actor: User, id: Id, p: Patch, s: Time, q: Time, net: Net)
    requires id in db.tickets ==> db.tickets[id].status in {Open, Pending, Resolved, Closed}
                                  && db.tickets[id].priority in {Low, Medium, High, Urgent}
    ensures
      var refusal := Refusal(db, actor, id, p, s, q, net);
      var gets := actor.role != Customer && net.begin && net.read;
      var asks := id in db.tickets && p.status.Some? && p.status.value != db.tickets[id].status;
      var allowed := asks ==>
        (db.tickets[id].status, p.status.value) in {(Open, Pending), (Open, Resolved), (Pending, Open),
                                                    (Pending, Resolved), (Resolved, Open), (Resolved, Closed)};
      var named := p.priority.Some? ==> p.priority.value in {Low, Medium, High, Urgent};
      && (refusal == Some(Forbidden) <==> actor.role == Customer)
      && (refusal == Some(NotFound) <==> gets && id !in db.tickets)
      && (refusal == Some(InvalidTransition) <==> gets && id in db.tickets && !allowed)
      && (refusal == None <==> gets && id in db.tickets && allowed && named
                               && (asks ==> net.history) && net.write && net.audit && net.commit)
      && (refusal.Some? ==> refusal.value in {Forbidden, NotFound, InvalidTransition, StorageFailure})
  {
  }

  /** What a committed update leaves: the patched row under the ticket's id, one history row if the
      status moved, and one audit row that holds the row. */
  lemma CommittedUpdate(db: Tables, actor: Id, id: Id, p: Patch, s: Time, q: Time, started: Stamp, inserted: Stamp)
    requires id in db.tickets && Patched(db.tickets[id], p, s, q).Some?
    ensures
      var t, after := db.tickets[id], Patched(db.tickets[id], p, s, q).value;
      var db' := UpdatedTables(db, actor, id, p, after, started, inserted);
      && db'.tickets == db.tickets[id := after]
      && db'.history == db.history
           + (if t.status != after.status then [HistoryRow(id, actor, t.status, after.status, started, inserted)] else [])
      && db'.audits == db.audits + [AuditRow(id, Some(actor), TicketUpdated, Some(after), started)]
  {
    PatchSetsWhatItNames(db.tickets[id], p, s, q);
  }
}
