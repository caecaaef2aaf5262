/** The worker process: one turn of its loop is either a breach sweep or one escalation job. */
module Worker {
  import opened Entity
  import opened Lifecycle
  import opened Postgres
  import opened Ws
  import opened TicketProtocol
  import opened TicketSerial

  /** The breach events that went out, with multiplicity. */
  function BreachEvents(attempts: seq<Attempt>): multiset<Id> {
    if attempts == [] then multiset{}
    else
      var last := attempts[|attempts| - 1];
      BreachEvents(attempts[..|attempts| - 1])
      + if last.event.kind == EventBreached && last.delivered then multiset{last.event.ticket} else multiset{}
  }

  lemma BreachEventsAppend(attempts: seq<Attempt>, a: Attempt)
    ensures BreachEvents(attempts + [a]) == BreachEvents(attempts)
              + if a.event.kind == EventBreached && a.delivered then multiset{a.event.ticket} else multiset{}
  {
    assert (attempts + [a])[..|attempts|] == attempts;
  }

  /** The hits among the rows already processed. */
  function Hits(ids: set<Id>, todo: set<Id>, hit: set<Id>): multiset<Id> {
    multiset((ids - todo) * hit)
  }

  lemma OneMore(ids: set<Id>, todo: set<Id>, id: Id, hit: set<Id>)
    requires id in todo && todo <= ids
    ensures Hits(ids, todo - {id}, hit) == Hits(ids, todo, hit) + if id in hit then multiset{id} else multiset{}
  {
    var before, after := (ids - todo) * hit, (ids - (todo - {id})) * hit;
    assert after == before + if id in hit then {id} else {};
  }

  lemma AllHits(ids: set<Id>, hit: set<Id>)
    ensures Hits(ids, ids, hit) == multiset{} && Hits(ids, {}, hit) == multiset(ids * hit)
  {
    assert ids - {} == ids;
  }

  /** Which of the worker's calls get through, per returned ticket. */
  datatype Reach = Reach(sweep: bool, scanned: set<Id>, audited: set<Id>, published: set<Id>)

  // ---------------------------------------------------------------- the same in the protocol

  /** The protocol's world holds the same tables, clock and breach events. */
  ghost predicate Mirrors(w: World, committed: Tables, ticks: Stamp, attempts: seq<Attempt>) {
    w.db == committed && w.ticks == ticks && w.events == BreachEvents(attempts)
  }

  /** The protocol step that one turn of the row loop is; a row that does not scan is skipped. */
  function RowStep(id: Id, reach: Reach): Action {
    Action(0, if id in reach.scanned then TicketProtocol.Report(id, id in reach.audited, id in reach.published)
              else Forget(id))
  }

  function RowSteps(order: seq<Id>, reach: Reach): seq<Action> {
    if order == [] then [] else RowSteps(order[..|order| - 1], reach) + [RowStep(order[|order| - 1], reach)]
  }

  lemma NoRows(w: World, reach: Reach)
    ensures Exec(w, RowSteps([], reach)) == w
  {
  }

  lemma OneMoreRow(w: World, order: seq<Id>, id: Id, reach: Reach)
    ensures Exec(w, RowSteps(order + [id], reach)) == Do(Exec(w, RowSteps(order, reach)), RowStep(id, reach))
  {
    hide Do, RowStep;
    assert (order + [id])[..|order|] == order;
    var a := RowStep(id, reach);
    ExecJoin(w, RowSteps(order, reach), [a]);
    assert [a] == [a] + [];
    ExecCons(Exec(w, RowSteps(order, reach)), a, []);
  }

  lemma RowPending(w: World, id: Id, reach: Reach, todo: set<Id>)
    requires multiset(todo) <= w.pending && id in todo
    ensures multiset(todo - {id}) <= Do(w, RowStep(id, reach)).pending
  {
  }

  lemma RowStepIs(w: World, id: Id, reach: Reach)
    ensures Do(w, RowStep(id, reach))
            == if id in reach.scanned then DoReport(w, id, id in reach.audited, id in reach.published)
               else w.(pending := w.pending - multiset{id})
  {
    assert Wait(w, 0) == w;
  }

  class Loop {
    const db: Database
    const pub: Publisher

    constructor (db: Database, pub: Publisher)
      ensures this.db == db && this.pub == pub
    {
      this.db, this.pub := db, pub;
    }

    /** Marks every qualifying ticket in one statement, then audits and publishes each row it
        got back once; the errors of those two calls are ignored.  In the protocol this is one
        Sweep followed by one step for each due ticket, in some order. */
    method BreachJob(now: Time, reach: Reach, ghost w: World) returns (ghost order: seq<Id>)
      requires !db.inTx && pub.db == db
      requires w.now == now && Mirrors(w, db.committed, db.ticks, pub.attempts)
      modifies db, pub`attempts
      ensures !db.inTx
      ensures !reach.sweep ==> db.committed == old(db.committed) && pub.attempts == old(pub.attempts)
      ensures reach.sweep ==>
                var due := DueIds(old(db.committed).tickets, now);
                && multiset(order) == multiset(due)
                && Mirrors(Exec(DoSweep(w), RowSteps(order, reach)), db.committed, db.ticks, pub.attempts)
      ensures reach.sweep ==>
                var due := DueIds(old(db.committed).tickets, now);
                && db.committed.tickets == SweepTickets(old(db.committed).tickets, now)
                && db.committed.history == old(db.committed).history
                && BreachRows(db.committed.audits)
                   == BreachRows(old(db.committed).audits) + multiset(due * (reach.scanned * reach.audited))
                && BreachEvents(pub.attempts)
                   == BreachEvents(old(pub.attempts)) + multiset(due * (reach.scanned * reach.published))
    {
      hide BreachRows, BreachEvents, RowSteps, Exec;
      order := [];
      var ids := db.SweepBreached(now, reach.sweep);
      if ids.Ok? {
        order := ReportAll(ids.value, reach, DoSweep(w));
      }
    }

    /** The row loop; the statement returns its rows in no particular order. */
    method ReportAll(ids: set<Id>, reach: Reach, ghost w: World) returns (ghost order: seq<Id>)
      requires !db.inTx && pub.db == db
      requires Mirrors(w, db.committed, db.ticks, pub.attempts) && multiset(ids) <= w.pending
      modifies db, pub`attempts
      ensures !db.inTx && db.committed == old(db.committed).(audits := db.committed.audits)
      ensures multiset(order) == multiset(ids)
      ensures Mirrors(Exec(w, RowSteps(order, reach)), db.committed, db.ticks, pub.attempts)
      ensures BreachRows(db.committed.audits)
              == BreachRows(old(db.committed).audits) + multiset(ids * (reach.scanned * reach.audited))
      ensures BreachEvents(pub.attempts)
              == BreachEvents(old(pub.attempts)) + multiset(ids * (reach.scanned * reach.published))
    {
      hide BreachRows, BreachEvents, Hits, Do, RowStep, RowSteps, Exec;
      var todo := ids;
      order := [];
      ghost var rows, events := BreachRows(db.committed.audits), BreachEvents(pub.attempts);
      ghost var audited, published := reach.scanned * reach.audited, reach.scanned * reach.published;
      AllHits(ids, audited);
      AllHits(ids, published);
      NoRows(w, reach);
      while todo != {}
        invariant !db.inTx && todo <= ids
        invariant multiset(order) + multiset(todo) == multiset(ids)
        invariant multiset(todo) <= Exec(w, RowSteps(order, reach)).pending
        invariant Mirrors(Exec(w, RowSteps(order, reach)), db.committed, db.ticks, pub.attempts)
        invariant db.committed == old(db.committed).(audits := db.committed.audits)
        invariant BreachRows(db.committed.audits) == rows + Hits(ids, todo, audited)
        invariant BreachEvents(pub.attempts) == events + Hits(ids, todo, published)
        decreases todo
      {
        var id :| id in todo;
        OneMore(ids, todo, id, audited);
        OneMore(ids, todo, id, published);
        RowPending(Exec(w, RowSteps(order, reach)), id, reach, todo);
        OneMoreRow(w, order, id, reach);
        ReportScanned(id, reach, Exec(w, RowSteps(order, reach)));
        todo, order := todo - {id}, order + [id];
      }
    }

    /** A row that does not scan is skipped. */
    method ReportScanned(id: Id, reach: Reach, ghost w: World)
      requires !db.inTx && pub.db == db
      requires Mirrors(w, db.committed, db.ticks, pub.attempts) && id in w.pending
      modifies db, pub`attempts
      ensures !db.inTx && db.committed == old(db.committed).(audits := db.committed.audits)
      ensures Mirrors(Do(w, RowStep(id, reach)), db.committed, db.ticks, pub.attempts)
      ensures BreachRows(db.committed.audits) == BreachRows(old(db.committed).audits)
                + if id in reach.scanned * reach.audited then multiset{id} else multiset{}
      ensures BreachEvents(pub.attempts) == BreachEvents(old(pub.attempts))
                + if id in reach.scanned * reach.published then multiset{id} else multiset{}
    {
      hide BreachRows, BreachEvents, Do, RowStep, DoReport;
      RowStepIs(w, id, reach);
      if id in reach.scanned {
        Report(id, id in reach.audited, id in reach.published, w);
      }
    }

    method Report(id: Id, audited: bool, published: bool, ghost w: World)
      requires !db.inTx && pub.db == db
      requires Mirrors(w, db.committed, db.ticks, pub.attempts) && id in w.pending
      modifies db, pub`attempts
      ensures !db.inTx
      ensures Mirrors(DoReport(w, id, audited, published), db.committed, db.ticks, pub.attempts)
      ensures db.committed.audits == old(db.committed).audits
                + if audited then [AuditRow(id, None, SlaBreached, None, old(db.ticks))] else []
      ensures pub.attempts == old(pub.attempts)
                + [Attempt(Event(EventBreached, id, NoPayload), db.committed, published)]
      ensures db.committed == old(db.committed).(audits := db.committed.audits)
      ensures BreachRows(db.committed.audits)
              == BreachRows(old(db.committed).audits) + if audited then multiset{id} else multiset{}
      ensures BreachEvents(pub.attempts)
              == BreachEvents(old(pub.attempts)) + if published then multiset{id} else multiset{}
    {
      hide BreachRows, BreachEvents;
      BreachRowsAppend(db.committed.audits, AuditRow(id, None, SlaBreached, None, db.ticks));
      var ignored := db.Audit(id, None, SlaBreached, None, audited);
      var event := Event(EventBreached, id, NoPayload);
      BreachEventsAppend(pub.attempts, Attempt(event, db.committed, published));
      ignored := pub.Publish(event, published);
    }

    /** Takes the oldest waiting job, if any, and publishes it when it decodes. */
    method EscalationJob(arrives: bool, published: bool)
      requires pub.Fifo() && pub.db == db
      modifies pub
      ensures pub.Fifo() && pub.pushed == old(pub.pushed)
      ensures
        if arrives && |old(pub.popped)| < |old(pub.pushed)| then
          var job := old(pub.pushed)[|old(pub.popped)|];
          && pub.popped == old(pub.popped) + [job]
          && pub.attempts == old(pub.attempts)
               + if job.Job? then [Attempt(job.event, db.committed, published)] else []
        else
          pub.popped == old(pub.popped) && pub.attempts == old(pub.attempts)
    {
      var job := pub.PopEscalation(arrives);
      if job.None? || job.value.Malformed? {
        return;
      }
      var ignored := pub.Publish(job.value.event, published);
    }
  }
}
