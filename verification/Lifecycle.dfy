/** What one ticket update does to a row, as functions of the row that was read, the patch and
    the clock readings.  The use case performs these steps in place; the interleaving model and
    the stopwatch refinement reason about the same functions. */
module Lifecycle {
  import opened Entity

  /** An absent field is the empty string or null of the request. */
  datatype Patch = Patch(
    status: Option<Status>,
    priority: Option<Priority>,
    assignee: Option<Id>,
    team: Option<Id>)

  function Duration(p: Priority): (d: int)
    ensures 2 * HOUR <= d <= 72 * HOUR && d % SECOND == 0
  {
    match p
    case Low => 72 * HOUR
    case High => 8 * HOUR
    case Urgent => 2 * HOUR
    case _ => 24 * HOUR
  }

  /** The priority that an escalation asks for; an unnamed priority asks for none. */
  function NextPriority(p: Priority): Option<Priority> {
    match p
    case Low => Some(Medium)
    case Medium => Some(High)
    case High => Some(Urgent)
    case Urgent => Some(Urgent)
    case _ => None
  }

  function EscalationPatch(seen: Priority): Patch {
    Patch(None, NextPriority(seen), None, None)
  }

  function NewRow(customer: Id, priority: Option<Priority>, now: Time): Row {
    var p := if priority.Some? then priority.value else Medium;
    Row(customer, None, None, Open, p, Some(now + Duration(p)), None, None, None)
  }

  /** The status part of a patch; None when the transition is refused. */
  function ApplyStatus(t: Row, p: Patch, now: Time): Option<Row> {
    if p.status.None? then Some(t)
    else if !MayBecome(t.status, p.status.value) then None
    else
      var moved := t.(status := p.status.value);
      if p.status.value == Pending then Some(Pause(moved, now))
      else if t.status == Pending then Some(Resume(moved, now))
      else Some(moved)
  }

  predicate ChangesPriority(t: Row, p: Patch) {
    p.priority.Some? && p.priority.value != t.priority
  }

  /** The priority, assignee and team parts of a patch. */
  function ApplyRest(t: Row, p: Patch, now: Time): Row {
    var reset :=
      if ChangesPriority(t, p) then
        t.(priority := p.priority.value, dueAt := Some(now + Duration(p.priority.value)),
           pausedAt := None, remaining := None)
      else t;
    reset.(assignee := if p.assignee.Some? then p.assignee else reset.assignee,
           team := if p.team.Some? then p.team else reset.team)
  }

  /** The CHECK constraints of the tickets table. */
  predicate Storable(t: Row) {
    !t.status.UnknownStatus? && !t.priority.UnknownPriority?
  }

  /** UpdateTicket rewrites seven columns from the in-memory copy and leaves the others. */
  function WriteColumns(stored: Row, copy: Row): Row {
    stored.(status := copy.status, priority := copy.priority, assignee := copy.assignee,
            team := copy.team, dueAt := copy.dueAt, pausedAt := copy.pausedAt,
            remaining := copy.remaining)
  }

  predicate SameWrittenColumns(a: Row, b: Row) {
    && a.status == b.status && a.priority == b.priority
    && a.assignee == b.assignee && a.team == b.team
    && a.dueAt == b.dueAt && a.pausedAt == b.pausedAt && a.remaining == b.remaining
  }

  /** An uninterrupted update of row t; None when it fails.  The status step and the priority
      step read the clock separately. */
  function Patched(t: Row, p: Patch, atStatus: Time, atPriority: Time): (r: Option<Row>)
    ensures r.Some? ==> r.value.customer == t.customer && r.value.breachedAt == t.breachedAt
  {
    var moved := ApplyStatus(t, p, atStatus);
    if moved.None? then None
    else
      var full := ApplyRest(moved.value, p, atPriority);
      if Storable(full) then Some(full) else None
  }

  /** The status-history rows that an update adds, as pairs of statuses. */
  function NewEdges(from: Status, p: Patch): seq<(Status, Status)> {
    if p.status.Some? && p.status.value != from then [(from, p.status.value)] else []
  }

  /** The WHERE clause of the breach sweep. */
  predicate Qualifies(t: Row, now: Time) {
    && t.breachedAt.None?
    && t.dueAt.Some? && t.dueAt.value < now
    && t.pausedAt.None?
    && t.status !in {Resolved, Closed}
  }

  function SweepRow(t: Row, now: Time): Row {
    if Qualifies(t, now) then t.(breachedAt := Some(now)) else t
  }

  // ---------------------------------------------------------------- invariants of one row

  /** The three SLA fields encode one stopwatch: it is paused only while pending (a priority
      change while pending makes it run again, so pending does not imply paused). */
  predicate Encodes(t: Row) {
    && t.dueAt.Some?
    && (t.pausedAt.Some? <==> t.remaining.Some?)
    && (t.pausedAt.Some? ==> t.status == Pending)
    && (t.remaining.Some? ==> t.remaining.value >= 0)
  }

  /** Sound at now: the encoding holds and no more time is left than the priority grants. */
  predicate Sound(t: Row, now: Time) {
    Encodes(t) && TimeLeft(t, now) <= Duration(t.priority)
  }

  lemma SoundLater(t: Row, now: Time, later: Time)
    requires Sound(t, now) && now <= later
    ensures Sound(t, later)
  {
  }

  lemma NewRowSound(customer: Id, priority: Option<Priority>, now: Time)
    ensures Sound(NewRow(customer, priority, now), now)
  {
  }

  lemma ApplyStatusSound(t: Row, p: Patch, now: Time)
    requires Sound(t, now)
    ensures ApplyStatus(t, p, now).Some? ==> Sound(ApplyStatus(t, p, now).value, now)
  {
  }

  lemma ApplyRestSound(t: Row, p: Patch, now: Time)
    requires Sound(t, now)
    ensures Sound(ApplyRest(t, p, now), now)
  {
  }

  // ---------------------------------------------------------------- what a patch names

  /** The durations that the first migration seeds into sla_policies, in seconds. */
  const POLICIES := map[Low := 259200, Medium := 86400, High := 28800, Urgent := 7200]

  /** The code's own durations agree with the seeded table, which it never reads. */
  lemma DurationsMatchPolicies(p: Priority)
    requires !p.UnknownPriority?
    ensures p in POLICIES && Duration(p) == POLICIES[p] * SECOND
  {
  }

  /** An update of a stored ticket commits if and only if the status it asks for is the stored one
      or one step away on one of six transitions, and the priority it asks for has a name. */
  lemma PatchCommitsIff(t: Row, p: Patch, s: Time, q: Time)
    requires t.status in {Open, Pending, Resolved, Closed} && t.priority in {Low, Medium, High, Urgent}
    ensures Patched(t, p, s, q).Some? <==>
            && (p.status.Some? ==>
                  || p.status.value == t.status
                  || (t.status, p.status.value) in {(Open, Pending), (Open, Resolved), (Pending, Open),
                                                    (Pending, Resolved), (Resolved, Open), (Resolved, Closed)})
            && (p.priority.Some? ==> p.priority.value in {Low, Medium, High, Urgent})
  {
  }

  /** A successful update sets every field the patch names and keeps every field it does not;
      with neither a status nor a new priority the stopwatch is not touched. */
  lemma PatchSetsWhatItNames(t: Row, p: Patch, s: Time, q: Time)
    requires Patched(t, p, s, q).Some?
    ensures var r := Patched(t, p, s, q).value;
            && r.status == (if p.status.Some? then p.status.value else t.status)
            && r.priority == (if p.priority.Some? then p.priority.value else t.priority)
            && r.assignee == (if p.assignee.Some? then p.assignee else t.assignee)
            && r.team == (if p.team.Some? then p.team else t.team)
            && MayBecome(t.status, r.status)
            && r.status in {Open, Pending, Resolved, Closed} && r.priority in {Low, Medium, High, Urgent}
            && (p.status.None? && r.priority == t.priority ==>
                  r.dueAt == t.dueAt && r.pausedAt == t.pausedAt && r.remaining == t.remaining)
            && (r.priority != t.priority ==>
                  r.dueAt == Some(q + Duration(r.priority)) && r.pausedAt.None? && r.remaining.None?)
  {
  }

  // ---------------------------------------------------------------- combined patches

  function StatusOnly(p: Patch): Patch {
    p.(priority := None, assignee := None, team := None)
  }

  function WithoutStatus(p: Patch): Patch {
    p.(status := None)
  }

  /** One combined patch is the status patch followed by the rest, at the same instant: it
      succeeds exactly when both do, with the same row and the same history. */
  lemma CombinedIsStatusThenRest(t: Row, p: Patch, now: Time)
    requires Storable(t)
    ensures var whole, first := Patched(t, p, now, now), Patched(t, StatusOnly(p), now, now);
            if first.None? then whole.None?
            else whole == Patched(first.value, WithoutStatus(p), now, now)
    ensures Patched(t, StatusOnly(p), now, now).Some? ==>
              NewEdges(t.status, p) ==
              NewEdges(t.status, StatusOnly(p))
              + NewEdges(Patched(t, StatusOnly(p), now, now).value.status, WithoutStatus(p))
  {
  }

  /** The opposite order gives the same row if and only if the requested status is not pending
      or the priority does not change: a priority reset after a pause cancels it, a pause after
      a priority reset does not get cancelled. */
  lemma RestThenStatus(t: Row, p: Patch, now: Time)
    requires Storable(t) && Encodes(t)
    requires Patched(t, p, now, now).Some?
    requires Patched(t, WithoutStatus(p), now, now).Some?
    ensures var first := Patched(t, WithoutStatus(p), now, now).value;
            && Patched(first, StatusOnly(p), now, now).Some?
            && (Patched(first, StatusOnly(p), now, now) == Patched(t, p, now, now)
                <==> p.status != Some(Pending) || !ChangesPriority(t, p))
  {
    var first := Patched(t, WithoutStatus(p), now, now).value;
    var reversed := Patched(first, StatusOnly(p), now, now);
    var whole := Patched(t, p, now, now);
    assert first.status == t.status;
    if p.status == Some(Pending) && ChangesPriority(t, p) {
      assert whole.value.pausedAt.None?;
      assert reversed.value.pausedAt == Some(now);
    }
  }

  /** Pending tickets are paused, except that a priority change while pending starts the clock
      again: starting from "pending implies paused", an update keeps it if and only if it does
      not leave the ticket pending with a new priority. */
  lemma PendingStaysPausedIff(t: Row, p: Patch, s: Time, q: Time)
    requires Encodes(t) && (t.status == Pending ==> t.pausedAt.Some?)
    requires Patched(t, p, s, q).Some?
    ensures var r := Patched(t, p, s, q).value;
            var target := if p.status.Some? then p.status.value else t.status;
            (r.status == Pending ==> r.pausedAt.Some?) <==> target != Pending || !ChangesPriority(t, p)
  {
  }

  // ---------------------------------------------------------------- escalation

  function Rank(p: Priority): nat {
    match p
    case Low => 0
    case Medium => 1
    case High => 2
    case Urgent => 3
    case UnknownPriority(_) => 1
  }

  /** Escalate chooses the new priority from a read made before its update reads the row.  If
      the row's priority changed in between, the escalation lowers it exactly when it had been
      raised by two or more notches; with no change in between it raises one notch, urgent
      stays, and the SLA restarts exactly when the priority moved.  A priority without a name
      asks for nothing. */
  lemma EscalationEffect(seen: Priority, t: Row, now: Time)
    requires Storable(t)
    ensures var r := Patched(t, EscalationPatch(seen), now, now);
            && r.Some?
            && (seen.UnknownPriority? ==> r.value == t)
            && (!seen.UnknownPriority? ==>
                  && r.value.priority == (match seen case Low => Medium case Medium => High case _ => Urgent)
                  && Rank(r.value.priority) == (if seen == Urgent then 3 else Rank(seen) + 1)
                  && (Rank(r.value.priority) < Rank(t.priority) <==> Rank(seen) + 1 < Rank(t.priority)))
            && (r.value == t <==> r.value.priority == t.priority)
            && (r.value.priority != t.priority ==>
                  r.value.pausedAt.None? && TimeLeft(r.value, now) == Duration(r.value.priority))
  {
  }
}
