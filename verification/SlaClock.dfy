/** The three SLA fields refine a stopwatch: over every serialized run of one ticket the time
    left is the budget minus the unpaused time, up to less than one second per pause. */
module SlaClock {
  import opened Entity
  import opened Lifecycle

  datatype Op =
    | Update(patch: Patch, atStatus: Time, atPriority: Time)
    | Escalate(atPriority: Time)
    | Sweep(at: Time)

  /** Clock readings never go back: the op starts no earlier than now. */
  predicate StartsAfter(op: Op, now: Time) {
    match op
    case Update(_, s, p) => now <= s <= p
    case Escalate(p) => now <= p
    case Sweep(at) => now <= at
  }

  function End(op: Op): Time {
    match op
    case Update(_, _, p) => p
    case Escalate(p) => p
    case Sweep(at) => at
  }

  predicate Monotone(ops: seq<Op>, now: Time) {
    ops == [] || (StartsAfter(ops[0], now) && Monotone(ops[1..], End(ops[0])))
  }

  function Finish(ops: seq<Op>, now: Time): Time {
    if ops == [] then now else Finish(ops[1..], End(ops[0]))
  }

  /** An operation that fails leaves the row as it was. */
  function DoOp(t: Row, op: Op): Row {
    match op
    case Update(p, s, q) =>
      var r := Patched(t, p, s, q);
      if r.Some? then WriteColumns(t, r.value) else t
    case Escalate(q) =>
      var r := Patched(t, EscalationPatch(t.priority), q, q);
      if r.Some? then WriteColumns(t, r.value) else t
    case Sweep(at) => SweepRow(t, at)
  }

  function Run(t: Row, ops: seq<Op>): Row
    decreases |ops|
  {
    if ops == [] then t else Run(DoOp(t, ops[0]), ops[1..])
  }

  // ---------------------------------------------------------------- the stopwatch

  /** Budget since the last reset, unpaused time used of it up to `seen`, and how often it was
      stopped.  It never looks at the SLA columns. */
  datatype Watch = Watch(budget: int, used: int, stops: nat, running: bool, seen: Time)
  {
    function At(now: Time): Watch {
      this.(used := if running then used + (now - seen) else used, seen := now)
    }
    function Net(now: Time): int {
      budget - At(now).used
    }
    function Stop(now: Time): Watch {
      if running then At(now).(running := false, stops := stops + 1) else At(now)
    }
    function Start(now: Time): Watch {
      At(now).(running := true)
    }
  }

  function Fresh(budget: int, now: Time): Watch {
    Watch(budget, 0, 0, true, now)
  }

  /** Entering pending stops the watch, leaving pending starts it. */
  function WatchStatus(w: Watch, from: Status, p: Patch, now: Time): Watch {
    if p.status.None? then w.At(now)
    else if p.status.value == Pending then w.Stop(now)
    else if from == Pending then w.Start(now)
    else w.At(now)
  }

  /** A new priority starts a new watch. */
  function WatchPriority(w: Watch, from: Priority, p: Patch, now: Time): Watch {
    if p.priority.Some? && p.priority.value != from then Fresh(Duration(p.priority.value), now)
    else w.At(now)
  }

  function WatchOp(w: Watch, t: Row, op: Op): Watch {
    match op
    case Update(p, s, q) =>
      if Patched(t, p, s, q).None? then w.At(q)
      else WatchPriority(WatchStatus(w, t.status, p, s), t.priority, p, q)
    case Escalate(q) =>
      if Patched(t, EscalationPatch(t.priority), q, q).None? then w.At(q)
      else WatchPriority(w.At(q), t.priority, EscalationPatch(t.priority), q)
    case Sweep(at) => w.At(at)
  }

  function WatchRun(w: Watch, t: Row, ops: seq<Op>): Watch
    decreases |ops|
  {
    if ops == [] then w else WatchRun(WatchOp(w, t, ops[0]), DoOp(t, ops[0]), ops[1..])
  }

  // ---------------------------------------------------------------- the refinement

  ghost predicate Refines(w: Watch, t: Row, now: Time) {
    var left, net := TimeLeft(t, now), w.Net(now);
    && Encodes(t)
    && w.seen <= now
    && w.budget == Duration(t.priority)
    && (w.running <==> t.pausedAt.None?)
    && left <= Max(0, net)
    && (if w.stops == 0 then left == net else left > net - w.stops * SECOND)
  }

  lemma RefinesLater(w: Watch, t: Row, now: Time, later: Time)
    requires Refines(w, t, now) && now <= later
    ensures Refines(w, t, later) && Refines(w.At(later), t, later)
  {
  }

  lemma StatusRefines(w: Watch, t: Row, p: Patch, now: Time)
    requires Refines(w, t, now)
    requires ApplyStatus(t, p, now).Some?
    ensures Refines(WatchStatus(w, t.status, p, now), ApplyStatus(t, p, now).value, now)
  {
    RefinesLater(w, t, now, now);
    if t.pausedAt.None? {
      PauseBounds(t, now);
    }
  }

  lemma RestRefines(w: Watch, t: Row, p: Patch, now: Time)
    requires Refines(w, t, now)
    ensures Refines(WatchPriority(w, t.priority, p, now), ApplyRest(t, p, now), now)
  {
    RefinesLater(w, t, now, now);
  }

  lemma UpdateRefines(w: Watch, t: Row, p: Patch, s: Time, q: Time)
    requires Refines(w, t, s) && s <= q
    ensures Refines(WatchOp(w, t, Update(p, s, q)), DoOp(t, Update(p, s, q)), q)
  {
    if Patched(t, p, s, q).Some? {
      StatusRefines(w, t, p, s);
      var moved, w' := ApplyStatus(t, p, s).value, WatchStatus(w, t.status, p, s);
      RefinesLater(w', moved, s, q);
      RestRefines(w', moved, p, q);
    } else {
      RefinesLater(w, t, s, q);
    }
  }

  lemma OpRefines(w: Watch, t: Row, op: Op, now: Time)
    requires Refines(w, t, now) && StartsAfter(op, now)
    ensures Refines(WatchOp(w, t, op), DoOp(t, op), End(op))
  {
    match op
    case Update(p, s, q) =>
      RefinesLater(w, t, now, s);
      UpdateRefines(w, t, p, s, q);
    case Escalate(q) =>
      RefinesLater(w, t, now, q);
      RestRefines(w.At(q), t, EscalationPatch(t.priority), q);
    case Sweep(at) =>
      RefinesLater(w, t, now, at);
  }

  lemma {:induction false} RunRefines(w: Watch, t: Row, ops: seq<Op>, now: Time)
    requires Refines(w, t, now) && Monotone(ops, now)
    ensures Refines(WatchRun(w, t, ops), Run(t, ops), Finish(ops, now))
    decreases |ops|
  {
    if ops != [] {
      OpRefines(w, t, ops[0], now);
      RunRefines(WatchOp(w, t, ops[0]), DoOp(t, ops[0]), ops[1..], End(ops[0]));
    }
  }

  /** From creation, after any serialized run and at any later instant: with B the budget since
      the last reset, A the unpaused time since and k the pauses since, the time left is at
      most max(0, B-A), equals B-A while k is 0, and otherwise exceeds B-A minus k seconds. */
  lemma SlaRefinement(customer: Id, priority: Option<Priority>, born: Time, ops: seq<Op>, now: Time)
    requires Monotone(ops, born) && Finish(ops, born) <= now
    ensures
      var t := Run(NewRow(customer, priority, born), ops);
      var w := WatchRun(Fresh(Duration(NewRow(customer, priority, born).priority), born),
                        NewRow(customer, priority, born), ops);
      var net := w.budget - w.At(now).used;
      && w.budget == Duration(t.priority)
      && (w.running <==> t.pausedAt.None?)
      && TimeLeft(t, now) <= Max(0, net)
      && (w.stops == 0 ==> TimeLeft(t, now) == net)
      && (w.stops > 0 ==> TimeLeft(t, now) > net - w.stops * SECOND)
  {
    var t0 := NewRow(customer, priority, born);
    var w0 := Fresh(Duration(t0.priority), born);
    RunRefines(w0, t0, ops, born);
    RefinesLater(WatchRun(w0, t0, ops), Run(t0, ops), Finish(ops, born), now);
  }

  // ---------------------------------------------------------------- no escape from overdue

  /** The run never changes the priority; statuses, assignees and sweeps are arbitrary. */
  predicate KeepsPriority(t: Row, ops: seq<Op>)
    decreases |ops|
  {
    ops == [] || (DoOp(t, ops[0]).priority == t.priority && KeepsPriority(DoOp(t, ops[0]), ops[1..]))
  }

  lemma OpSpends(w: Watch, t: Row, op: Op, now: Time)
    requires Refines(w, t, now) && StartsAfter(op, now)
    requires DoOp(t, op).priority == t.priority
    ensures WatchOp(w, t, op).Net(End(op)) <= w.Net(now)
    ensures WatchOp(w, t, op).seen <= End(op)
  {
  }

  /** Once the unpaused time has reached the budget, no sequence of operations that leaves the
      priority alone ever shows positive time left again. */
  lemma {:induction false} NoEscape(w: Watch, t: Row, ops: seq<Op>, now: Time, later: Time)
    requires Refines(w, t, now) && w.Net(now) <= 0
    requires Monotone(ops, now) && Finish(ops, now) <= later
    requires KeepsPriority(t, ops)
    ensures TimeLeft(Run(t, ops), later) <= 0
    decreases |ops|
  {
    if ops == [] {
      RefinesLater(w, t, now, later);
    } else {
      OpSpends(w, t, ops[0], now);
      OpRefines(w, t, ops[0], now);
      NoEscape(WatchOp(w, t, ops[0]), DoOp(t, ops[0]), ops[1..], End(ops[0]), later);
    }
  }

  /** The same from creation: whatever happened before the budget was spent. */
  lemma NoEscapeFromOverdue(customer: Id, priority: Option<Priority>, born: Time,
                            before: seq<Op>, after: seq<Op>, later: Time)
    requires Monotone(before, born)
    requires var t0 := NewRow(customer, priority, born);
             var t, now := Run(t0, before), Finish(before, born);
             && WatchRun(Fresh(Duration(t0.priority), born), t0, before).Net(now) <= 0
             && Monotone(after, now) && Finish(after, now) <= later
             && KeepsPriority(t, after)
    ensures TimeLeft(Run(Run(NewRow(customer, priority, born), before), after), later) <= 0
  {
    var t0 := NewRow(customer, priority, born);
    var w0 := Fresh(Duration(t0.priority), born);
    RunRefines(w0, t0, before, born);
    NoEscape(WatchRun(w0, t0, before), Run(t0, before), after, Finish(before, born), later);
  }

  /** A single operation on an overdue ticket leaves positive time if and only if it changes
      the priority, and then exactly the new budget is left. */
  lemma OnlyPriorityRestores(w: Watch, t: Row, op: Op, now: Time)
    requires Refines(w, t, now) && w.Net(now) <= 0
    requires StartsAfter(op, now)
    ensures TimeLeft(DoOp(t, op), End(op)) > 0 <==> DoOp(t, op).priority != t.priority
    ensures DoOp(t, op).priority != t.priority ==>
              TimeLeft(DoOp(t, op), End(op)) == Duration(DoOp(t, op).priority)
  {
    OpRefines(w, t, op, now);
    if DoOp(t, op).priority == t.priority {
      OpSpends(w, t, op, now);
    }
  }

  /** A ticket whose budget is spent, that runs and is open or pending, is breached after any
      strictly later sweep. */
  lemma SweepMarksOverdue(w: Watch, t: Row, now: Time, at: Time)
    requires Refines(w, t, now) && w.Net(now) <= 0 && now < at
    requires w.running && t.status in {Open, Pending}
    ensures SweepRow(t, at).breachedAt.Some?
    ensures t.breachedAt.Some? ==> SweepRow(t, at) == t
  {
  }
}
