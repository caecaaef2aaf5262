/** Updates, escalations, creations, breach sweeps and the worker's reports, interleaved.  An
    update begins, reads its row without a lock, takes two in-memory steps that read the clock,
    and commits, rewriting seven columns from the copy; other transactions may commit between
    any of these. */
module TicketProtocol {
  import opened Entity
  import opened Lifecycle
  import opened Postgres

  /** Where a running request stands.  `base` is the row its GetTicket returned; `started` and
      `inserted` are the stamps its rows carry. */
  datatype Flight =
    | Escalating(actor: Id, id: Id, patch: Patch)
    | Begun(actor: Id, id: Id, patch: Patch, started: Stamp)
    | Fetched(actor: Id, id: Id, patch: Patch, started: Stamp, base: Row)
    | Moved(actor: Id, id: Id, patch: Patch, started: Stamp, base: Row, inserted: Stamp, copy: Row)
    | Ready(actor: Id, id: Id, patch: Patch, started: Stamp, base: Row, inserted: Stamp, copy: Row)

  /** `ticks` is the next stamp.  `returned` counts how often each ticket was returned by a
      sweep, `pending` the returned tickets some worker still has to report, `events` the
      published breach events. */
  datatype World = World(
    now: Time,
    ticks: Stamp,
    db: Tables,
    flights: map<nat, Flight>,
    returned: multiset<Id>,
    pending: multiset<Id>,
    events: multiset<Id>)

  datatype Step =
    | Insert(creator: Id, newId: Id, priority: Option<Priority>)
    | Look(f: nat, actor: Id, seen: Id)
    | BeginEscalated(f: nat)
    | Begin(f: nat, actor: Id, target: Id, patch: Patch)
    | Fetch(f: nat)
    | MoveStatus(f: nat)
    | SetRest(f: nat)
    | Write(f: nat)
    | Drop(f: nat)
    | Sweep
    | Report(ticket: Id, audited: bool, published: bool)
    | Forget(ticket: Id)

  /** Some time passes, then a step is taken. */
  datatype Action = Action(wait: nat, step: Step)

  function Empty(now: Time): World {
    World(now, 0, Tables(map[], [], []), map[], multiset{}, multiset{}, multiset{})
  }

  function DoInsert(w: World, creator: Id, id: Id, priority: Option<Priority>): World {
    var row := NewRow(creator, priority, w.now);
    if id in w.db.tickets || !Storable(row) then w
    else
      w.(ticks := w.ticks + 1,
         db := Tables(w.db.tickets[id := row], w.db.history,
                      w.db.audits + [AuditRow(id, Some(creator), TicketCreated, Some(row), w.ticks)]))
  }

  /** Escalate's own read, outside any transaction. */
  function DoLook(w: World, f: nat, actor: Id, id: Id): World {
    if f in w.flights || id !in w.db.tickets then w
    else w.(flights := w.flights[f := Escalating(actor, id, EscalationPatch(w.db.tickets[id].priority))])
  }

  function DoBegin(w: World, f: nat, actor: Id, id: Id, p: Patch): World {
    if f in w.flights then w
    else w.(ticks := w.ticks + 1, flights := w.flights[f := Begun(actor, id, p, w.ticks)])
  }

  function DoBeginEscalated(w: World, f: nat): World {
    if f !in w.flights || !w.flights[f].Escalating? then w
    else
      var e := w.flights[f];
      w.(ticks := w.ticks + 1, flights := w.flights[f := Begun(e.actor, e.id, e.patch, w.ticks)])
  }

  /** GetTicket takes no lock; a ticket that is not found rolls back. */
  function DoFetch(w: World, f: nat): World {
    if f !in w.flights || !w.flights[f].Begun? then w
    else
      var u := w.flights[f];
      if u.id !in w.db.tickets then w.(flights := w.flights - {f})
      else w.(flights := w.flights[f := Fetched(u.actor, u.id, u.patch, u.started, w.db.tickets[u.id])])
  }

  /** A refused transition rolls back; a status that changes inserts its history row now. */
  function DoMoveStatus(w: World, f: nat): World {
    if f !in w.flights || !w.flights[f].Fetched? then w
    else
      var u := w.flights[f];
      var moved := ApplyStatus(u.base, u.patch, w.now);
      if moved.None? then w.(flights := w.flights - {f})
      else
        w.(ticks := w.ticks + |NewEdges(u.base.status, u.patch)|,
           flights := w.flights[f := Moved(u.actor, u.id, u.patch, u.started, u.base, w.ticks, moved.value)])
  }

  function DoSetRest(w: World, f: nat): World {
    if f !in w.flights || !w.flights[f].Moved? then w
    else
      var u := w.flights[f];
      w.(flights := w.flights[f := Ready(u.actor, u.id, u.patch, u.started, u.base, u.inserted,
                                         ApplyRest(u.copy, u.patch, w.now))])
  }

  predicate Writes(w: World, f: nat) {
    && f in w.flights && w.flights[f].Ready?
    && w.flights[f].id in w.db.tickets && Storable(w.flights[f].copy)
  }

  /** UpdateTicket, the history row and the audit row, visible at the commit. */
  function DoWrite(w: World, f: nat): World {
    if Writes(w, f) then
      var u := w.flights[f];
      w.(db := Tables(w.db.tickets[u.id := WriteColumns(w.db.tickets[u.id], u.copy)],
                      w.db.history + HistoryRows(u.id, u.actor, NewEdges(u.base.status, u.patch), u.started, u.inserted),
                      w.db.audits + [AuditRow(u.id, Some(u.actor), TicketUpdated, Some(u.copy), u.started)]),
         flights := w.flights - {f})
    else if f in w.flights && w.flights[f].Ready? then w.(flights := w.flights - {f})
    else w
  }

  function DoSweep(w: World): World {
    var due := DueIds(w.db.tickets, w.now);
    w.(db := w.db.(tickets := SweepTickets(w.db.tickets, w.now)),
       returned := w.returned + multiset(due),
       pending := w.pending + multiset(due))
  }

  /** A worker's loop body for one returned row; both of its errors are ignored. */
  function DoReport(w: World, id: Id, audited: bool, published: bool): World {
    if id !in w.pending then w
    else
      w.(ticks := w.ticks + (if audited then 1 else 0),
         pending := w.pending - multiset{id},
         db := if audited then w.db.(audits := w.db.audits + [AuditRow(id, None, SlaBreached, None, w.ticks)])
               else w.db,
         events := if published then w.events + multiset{id} else w.events)
  }

  function Take(w: World, s: Step): World {
    match s
    case Insert(creator, id, priority) => DoInsert(w, creator, id, priority)
    case Look(f, actor, id) => DoLook(w, f, actor, id)
    case BeginEscalated(f) => DoBeginEscalated(w, f)
    case Begin(f, actor, id, p) => DoBegin(w, f, actor, id, p)
    case Fetch(f) => DoFetch(w, f)
    case MoveStatus(f) => DoMoveStatus(w, f)
    case SetRest(f) => DoSetRest(w, f)
    case Write(f) => DoWrite(w, f)
    case Drop(f) => w.(flights := w.flights - {f})
    case Sweep => DoSweep(w)
    case Report(id, audited, published) => DoReport(w, id, audited, published)
    case Forget(id) => w.(pending := w.pending - multiset{id})
  }

  function Wait(w: World, d: nat): World {
    w.(now := w.now + d)
  }

  function Do(w: World, a: Action): World {
    Take(Wait(w, a.wait), a.step)
  }

  function Exec(w: World, run: seq<Action>): World
    decreases |run|
  {
    if run == [] then w else Exec(Do(w, run[0]), run[1..])
  }

  // ---------------------------------------------------------------- what every interleaving keeps

  ghost predicate FlightSound(w: World, u: Flight) {
    match u
    case Escalating(_, _, _) => true
    case Begun(_, _, _, started) => started < w.ticks
    case Fetched(_, id, _, started, base) =>
      id in w.db.tickets && started < w.ticks && Storable(base) && Sound(base, w.now)
    case Moved(_, id, p, started, base, inserted, copy) =>
      id in w.db.tickets && started < w.ticks && CopySound(w, p, base, inserted, copy)
    case Ready(_, id, p, started, base, inserted, copy) =>
      id in w.db.tickets && started < w.ticks && CopySound(w, p, base, inserted, copy)
  }

  ghost predicate CopySound(w: World, p: Patch, base: Row, inserted: Stamp, copy: Row) {
    && Storable(base) && CopyOf(base, p, copy) && Sound(copy, w.now)
    && (copy.status != base.status ==> inserted < w.ticks)
  }

  /** The in-memory copy took the requested transition from the row that was read. */
  ghost predicate CopyOf(base: Row, p: Patch, copy: Row) {
    && MayBecome(base.status, copy.status)
    && NewEdges(base.status, p) == if copy.status == base.status then [] else [(base.status, copy.status)]
  }

  ghost predicate RowsSound(w: World) {
    forall id <- w.db.tickets :: Storable(w.db.tickets[id]) && Sound(w.db.tickets[id], w.now)
  }

  ghost predicate FlightsSound(w: World) {
    forall f <- w.flights :: FlightSound(w, w.flights[f])
  }

  /** Every stamp in the tables has been drawn. */
  ghost predicate Stamped(w: World) {
    && (forall h <- w.db.history :: h.created < w.ticks && h.inserted < w.ticks)
    && (forall a <- w.db.audits :: a.created < w.ticks)
  }

  ghost predicate Safe(w: World) {
    RowsSound(w) && FlightsSound(w) && Stamped(w)
  }

  lemma WaitSafe(w: World, d: nat)
    requires Safe(w)
    ensures Safe(Wait(w, d))
  {
    var w' := Wait(w, d);
    forall id <- w'.db.tickets ensures Sound(w'.db.tickets[id], w'.now) {
      SoundLater(w.db.tickets[id], w.now, w'.now);
    }
    forall f <- w'.flights ensures FlightSound(w', w'.flights[f]) {
      assert FlightSound(w, w.flights[f]);
    }
  }

  lemma MoveStatusSafe(w: World, f: nat)
    requires Safe(w)
    ensures Safe(DoMoveStatus(w, f))
  {
    if f in w.flights && w.flights[f].Fetched? {
      var u := w.flights[f];
      assert FlightSound(w, u);
      ApplyStatusSound(u.base, u.patch, w.now);
    }
  }

  lemma SetRestSafe(w: World, f: nat)
    requires Safe(w)
    ensures Safe(DoSetRest(w, f))
  {
    if f in w.flights && w.flights[f].Moved? {
      var u := w.flights[f];
      assert FlightSound(w, u);
      ApplyRestSound(u.copy, u.patch, w.now);
    }
  }

  lemma WriteSafe(w: World, f: nat)
    requires Safe(w)
    ensures Safe(DoWrite(w, f))
  {
    if Writes(w, f) {
      assert FlightSound(w, w.flights[f]);
    }
  }

  lemma InsertSafe(w: World, creator: Id, id: Id, priority: Option<Priority>)
    requires Safe(w)
    ensures Safe(DoInsert(w, creator, id, priority))
  {
    NewRowSound(creator, priority, w.now);
  }

  lemma ReadsSafe(w: World, s: Step)
    requires Safe(w) && (s.Look? || s.BeginEscalated? || s.Begin? || s.Fetch? || s.Drop?)
    ensures Safe(Take(w, s))
  {
  }

  lemma SweepSafe(w: World)
    requires Safe(w)
    ensures Safe(DoSweep(w))
  {
    var w' := DoSweep(w);
    forall id <- w'.db.tickets ensures Storable(w'.db.tickets[id]) && Sound(w'.db.tickets[id], w'.now) {
      assert w'.db.tickets[id] == SweepRow(w.db.tickets[id], w.now);
    }
    FlightsCarryOver(w, w');
  }

  /** Flights depend only on the clock and on which tickets exist. */
  lemma FlightsCarryOver(w: World, w': World)
    requires FlightsSound(w)
    requires w'.flights == w.flights && w'.now == w.now && w'.ticks >= w.ticks && w'.db.tickets.Keys == w.db.tickets.Keys
    ensures FlightsSound(w')
  {
    forall f <- w'.flights ensures FlightSound(w', w'.flights[f]) {
      assert FlightSound(w, w.flights[f]);
    }
  }

  lemma ReportsSafe(w: World, s: Step)
    requires Safe(w) && (s.Report? || s.Forget?)
    ensures Safe(Take(w, s))
  {
    hide Sound, FlightSound, Storable;
    var w' := Take(w, s);
    assert w'.db.tickets == w.db.tickets && w'.flights == w.flights && w'.now == w.now;
    FlightsCarryOver(w, w');
  }

  lemma TakeSafe(w: World, s: Step)
    requires Safe(w)
    ensures Safe(Take(w, s))
  {
    match s
    case Insert(creator, id, priority) => InsertSafe(w, creator, id, priority);
    case MoveStatus(f) => MoveStatusSafe(w, f);
    case SetRest(f) => SetRestSafe(w, f);
    case Write(f) => WriteSafe(w, f);
    case Look(_, _, _) => ReadsSafe(w, s);
    case BeginEscalated(_) => ReadsSafe(w, s);
    case Begin(_, _, _, _) => ReadsSafe(w, s);
    case Fetch(_) => ReadsSafe(w, s);
    case Drop(_) => ReadsSafe(w, s);
    case Sweep => SweepSafe(w);
    case Report(_, _, _) => ReportsSafe(w, s);
    case Forget(_) => ReportsSafe(w, s);
  }

  lemma {:induction false} ExecSafe(w: World, run: seq<Action>)
    requires Safe(w)
    ensures Safe(Exec(w, run))
    decreases |run|
  {
    if run != [] {
      WaitSafe(w, run[0].wait);
      TakeSafe(Wait(w, run[0].wait), run[0].step);
      ExecSafe(Do(w, run[0]), run[1..]);
    }
  }

  /** In every interleaving every row has a named status and priority, is paused exactly when it holds remaining seconds, is
      paused only while pending, never holds negative seconds, and shows no more time than
      its own priority grants. */
  lemma InterleavingSafety(start: Time, run: seq<Action>, id: Id)
    requires id in Exec(Empty(start), run).db.tickets
    ensures var w := Exec(Empty(start), run);
            var t := w.db.tickets[id];
            && t.status in {Open, Pending, Resolved, Closed} && t.priority in {Low, Medium, High, Urgent}
            && (t.pausedAt.Some? <==> t.remaining.Some?)
            && (t.pausedAt.Some? ==> t.status == Pending)
            && (t.remaining.Some? ==> t.remaining.value >= 0)
            && TimeLeft(t, w.now) <= Duration(t.priority)
  {
    ExecSafe(Empty(start), run);
  }

  // ---------------------------------------------------------------- the breach mark

  /** Steps inside a request that commit nothing. */
  predicate Quiet(s: Step) {
    s.Look? || s.BeginEscalated? || s.Begin? || s.Fetch? || s.MoveStatus? || s.SetRest? || s.Drop?
  }

  lemma QuietStep(w: World, s: Step)
    requires Quiet(s)
    ensures Take(w, s) == w.(flights := Take(w, s).flights, ticks := Take(w, s).ticks)
  {
  }

  lemma TakeKeepsBreach(w: World, s: Step, id: Id)
    requires id in w.db.tickets
    ensures id in Take(w, s).db.tickets
    ensures var before, after := w.db.tickets[id].breachedAt, Take(w, s).db.tickets[id].breachedAt;
            if before.Some? then after == before
            else if s.Sweep? && Qualifies(w.db.tickets[id], w.now) then after == Some(w.now)
            else after == None
  {
    if Quiet(s) {
      QuietStep(w, s);
    } else if s.Write? && Writes(w, s.f) {
      var u := w.flights[s.f];
      assert WriteColumns(w.db.tickets[u.id], u.copy).breachedAt == w.db.tickets[u.id].breachedAt;
    }
  }

  /** A breach mark, once set, is never changed or lost, whatever stale copies are written. */
  lemma {:induction false} BreachIsForever(w: World, run: seq<Action>, id: Id)
    requires id in w.db.tickets && w.db.tickets[id].breachedAt.Some?
    ensures id in Exec(w, run).db.tickets
    ensures Exec(w, run).db.tickets[id].breachedAt == w.db.tickets[id].breachedAt
    decreases |run|
  {
    if run != [] {
      TakeKeepsBreach(Wait(w, run[0].wait), run[0].step, id);
      BreachIsForever(Do(w, run[0]), run[1..], id);
    }
  }

  /** A ticket was returned by exactly as many sweeps as it carries breach marks, and each
      return is either still to be reported or reported at most once. */
  ghost predicate CountsFor(w: World, id: Id) {
    && w.returned[id] == (if id in w.db.tickets && w.db.tickets[id].breachedAt.Some? then 1 else 0)
    && BreachRows(w.db.audits)[id] + w.pending[id] <= w.returned[id]
    && w.events[id] + w.pending[id] <= w.returned[id]
  }

  lemma InsertCounts(w: World, creator: Id, newId: Id, priority: Option<Priority>, id: Id)
    requires CountsFor(w, id)
    ensures CountsFor(DoInsert(w, creator, newId, priority), id)
  {
    var row := NewRow(creator, priority, w.now);
    BreachRowsAppend(w.db.audits, AuditRow(newId, Some(creator), TicketCreated, Some(row), w.ticks));
  }

  lemma WriteCounts(w: World, f: nat, id: Id)
    requires CountsFor(w, id)
    ensures CountsFor(DoWrite(w, f), id)
  {
    if Writes(w, f) {
      var u := w.flights[f];
      BreachRowsAppend(w.db.audits, AuditRow(u.id, Some(u.actor), TicketUpdated, Some(u.copy), u.started));
    }
  }

  lemma SweepCounts(w: World, id: Id)
    requires CountsFor(w, id)
    ensures CountsFor(DoSweep(w), id)
  {
  }

  lemma ReportCounts(w: World, ticket: Id, audited: bool, published: bool, id: Id)
    requires CountsFor(w, id)
    ensures CountsFor(DoReport(w, ticket, audited, published), id)
  {
    BreachRowsAppend(w.db.audits, AuditRow(ticket, None, SlaBreached, None, w.ticks));
  }

  lemma TakeCounts(w: World, s: Step, id: Id)
    requires CountsFor(w, id)
    ensures CountsFor(Take(w, s), id)
  {
    if Quiet(s) {
      QuietStep(w, s);
      return;
    }
    match s
    case Insert(creator, newId, priority) => InsertCounts(w, creator, newId, priority, id);
    case Write(f) => WriteCounts(w, f, id);
    case Sweep => SweepCounts(w, id);
    case Report(ticket, audited, published) => ReportCounts(w, ticket, audited, published, id);
    case Forget(_) =>
  }

  lemma {:induction false} ExecCounts(w: World, run: seq<Action>, id: Id)
    requires CountsFor(w, id)
    ensures CountsFor(Exec(w, run), id)
    decreases |run|
  {
    if run != [] {
      TakeCounts(Wait(w, run[0].wait), run[0].step, id);
      ExecCounts(Do(w, run[0]), run[1..], id);
    }
  }

  /** With any number of workers, a ticket is returned by at most one sweep ever, exactly when
      it is marked, and has at most one breach audit row and at most one breach event. */
  lemma BreachExactlyOnce(start: Time, run: seq<Action>, id: Id)
    ensures var w := Exec(Empty(start), run);
            && (w.returned[id] == 1 <==> id in w.db.tickets && w.db.tickets[id].breachedAt.Some?)
            && w.returned[id] <= 1
            && BreachRows(w.db.audits)[id] <= 1 && w.events[id] <= 1
  {
    ExecCounts(Empty(start), run, id);
  }

  /** A sweep returns precisely the tickets that are unmarked, strictly past their due time,
      not paused and neither resolved nor closed; it stamps those with its own time, touches
      nothing else of any row, and finds none of them a second time. */
  lemma SweepIsExact(w: World, id: Id)
    requires id in w.db.tickets
    ensures var before, swept := w.db.tickets[id], DoSweep(w);
            var after := swept.db.tickets[id];
            var hit := before.breachedAt.None? && before.dueAt.Some? && before.dueAt.value < w.now
                       && before.pausedAt.None? && before.status != Resolved && before.status != Closed;
            && after == (if hit then before.(breachedAt := Some(w.now)) else before)
            && swept.returned[id] == w.returned[id] + (if hit then 1 else 0)
            && DoSweep(swept).returned[id] == swept.returned[id]
            && DoSweep(swept).db.tickets[id] == after
  {
  }

  // ---------------------------------------------------------------- properties of whole runs

  /** Every commit of the run meets ok at the moment it happens. */
  predicate AllWrites(w: World, run: seq<Action>, ok: (World, nat) -> bool)
    decreases |run|
  {
    run == [] ||
    (&& (run[0].step.Write? ==> ok(Wait(w, run[0].wait), run[0].step.f))
     && AllWrites(Do(w, run[0]), run[1..], ok))
  }

  /** p holds before the run and after each of its actions. */
  predicate Throughout(w: World, run: seq<Action>, p: World -> bool)
    decreases |run|
  {
    p(w) && (run == [] || Throughout(Do(w, run[0]), run[1..], p))
  }

  /** A property that only commits endanger, and a commit keeps exactly if ok, holds throughout
      a run exactly if every commit of the run is ok. */
  lemma {:induction false} ThroughoutIff(w: World, run: seq<Action>, p: World -> bool, ok: (World, nat) -> bool)
    requires Safe(w) && p(w)
    requires forall v: World, d: nat :: p(v) ==> p(Wait(v, d))
    requires forall v: World, s: Step :: Safe(v) && p(v) ==> (p(Take(v, s)) <==> (s.Write? ==> ok(v, s.f)))
    ensures Throughout(w, run, p) <==> AllWrites(w, run, ok)
    decreases |run|
  {
    hide Take, Safe;
    if run != [] {
      var w1 := Wait(w, run[0].wait);
      WaitSafe(w, run[0].wait);
      TakeSafe(w1, run[0].step);
      if p(Do(w, run[0])) {
        ThroughoutIff(Do(w, run[0]), run[1..], p, ok);
      }
    }
  }

  lemma {:induction false} ThroughoutEnds(w: World, run: seq<Action>, p: World -> bool)
    requires Throughout(w, run, p)
    ensures p(Exec(w, run))
    decreases |run|
  {
    if run != [] {
      ThroughoutEnds(Do(w, run[0]), run[1..], p);
    }
  }

  lemma {:induction false} AllWritesWeaken(w: World, run: seq<Action>,
                                           strong: (World, nat) -> bool, weak: (World, nat) -> bool)
    requires AllWrites(w, run, strong)
    requires forall v: World, f: nat :: strong(v, f) ==> weak(v, f)
    ensures AllWrites(w, run, weak)
    decreases |run|
  {
    hide Do, Wait;
    if run != [] {
      AllWritesWeaken(Do(w, run[0]), run[1..], strong, weak);
    }
  }
}
