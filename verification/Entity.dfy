/** The ticket entity: its status machine and the stopwatch that the SLA fields encode.
    Time is an integer number of microseconds, the resolution of TIMESTAMPTZ. */
module Entity {
  datatype Option<+T> = None | Some(value: T)

  type Id = nat
  type Time = int

  const SECOND: int := 1_000_000
  const HOUR: int := 3600 * SECOND

  // Requests carry free text; the table's CHECK constraints only store the named values.
  datatype Status = Open | Pending | Resolved | Closed | UnknownStatus(text: string)
  datatype Priority = Low | Medium | High | Urgent | UnknownPriority(text: string)
  datatype Role = Customer | Agent | Admin

  datatype Error =
    | NotFound
    | Forbidden
    | InvalidTransition
    | StorageFailure
    | PublishFailure
    | Unauthorized
    | InvalidCredentials

  /** The columns of one row of the tickets table that the ticket logic reads or writes. */
  datatype Row = Row(
    customer: Id,
    assignee: Option<Id>,
    team: Option<Id>,
    status: Status,
    priority: Priority,
    dueAt: Option<Time>,
    pausedAt: Option<Time>,
    remaining: Option<int>,
    breachedAt: Option<Time>)

  /** The documented transitions: open and pending into each other, both into resolved,
      resolved back to open or on to closed. */
  predicate Edge(from: Status, to: Status) {
    || (from == Open && to == Pending)
    || (from == Pending && to == Open)
    || (from in {Open, Pending} && to == Resolved)
    || (from == Resolved && to in {Open, Closed})
  }

  predicate MayBecome(from: Status, to: Status) {
    from == to || Edge(from, to)
  }

  /** Whole seconds of a span, truncated toward zero as a Go conversion to int64 does. */
  function WholeSeconds(span: int): int {
    if span >= 0 then span / SECOND else -(-span / SECOND)
  }

  function Max(a: int, b: int): int {
    if a >= b then a else b
  }

  function Pause(t: Row, now: Time): Row {
    if t.dueAt.None? || t.pausedAt.Some? then t
    else t.(remaining := Some(Max(0, WholeSeconds(t.dueAt.value - now))), pausedAt := Some(now))
  }

  function Resume(t: Row, now: Time): Row {
    if t.pausedAt.None? then t
    else
      var v := if t.remaining.Some? then t.remaining.value else 0;
      t.(dueAt := Some(now + v * SECOND), pausedAt := None, remaining := None)
  }

  /** What an observer reads off the three fields at time now. */
  function TimeLeft(t: Row, now: Time): int {
    if t.pausedAt.Some? then (if t.remaining.Some? then t.remaining.value else 0) * SECOND
    else if t.dueAt.Some? then t.dueAt.value - now
    else 0
  }

  class Ticket {
    const customer: Id
    var assignee: Option<Id>
    var team: Option<Id>
    var status: Status
    var priority: Priority
    var dueAt: Option<Time>
    var pausedAt: Option<Time>
    var remaining: Option<int>
    var breachedAt: Option<Time>

    function Fields(): Row
      reads this
    {
      Row(customer, assignee, team, status, priority, dueAt, pausedAt, remaining, breachedAt)
    }

    constructor Load(row: Row)
      ensures Fields() == row
    {
      customer, assignee, team := row.customer, row.assignee, row.team;
      status, priority := row.status, row.priority;
      dueAt, pausedAt, remaining := row.dueAt, row.pausedAt, row.remaining;
      breachedAt := row.breachedAt;
    }

    method TransitionTo(next: Status) returns (err: Option<Error>)
      modifies this`status
      ensures err.None? <==> old(status) == next
                             || (old(status), next) in {(Open, Pending), (Open, Resolved), (Pending, Open),
                                                        (Pending, Resolved), (Resolved, Open), (Resolved, Closed)}
      ensures err.None? ==> status == next
      ensures err.Some? ==> err.value == InvalidTransition && status == old(status)
    {
      if status == next {
        return None;
      }
      var allowed := map[Open := {Pending, Resolved}, Pending := {Open, Resolved}, Resolved := {Open, Closed}];
      if status !in allowed || next !in allowed[status] {
        return Some(InvalidTransition);
      }
      status := next;
      return None;
    }

    method PauseSLA(now: Time)
      modifies this`remaining, this`pausedAt
      ensures Fields() == Pause(old(Fields()), now)
      ensures old(dueAt).Some? && old(pausedAt).None? ==> pausedAt == Some(now) && remaining.Some?
    {
      if dueAt.None? || pausedAt.Some? {
        return;
      }
      var v := WholeSeconds(dueAt.value - now);
      if v < 0 {
        v := 0;
      }
      remaining := Some(v);
      pausedAt := Some(now);
    }

    method ResumeSLA(now: Time)
      modifies this`dueAt, this`remaining, this`pausedAt
      ensures Fields() == Resume(old(Fields()), now)
    {
      if pausedAt.None? {
        return;
      }
      var v := 0;
      if remaining.Some? {
        v := remaining.value;
      }
      dueAt := Some(now + v * SECOND);
      pausedAt := None;
      remaining := None;
    }
  }

  /** A pause notes its instant and keeps the time left up to the truncation to whole
      seconds and the clamp at zero. */
  lemma PauseBounds(t: Row, now: Time)
    requires t.dueAt.Some? && t.pausedAt.None?
    ensures var left, kept := TimeLeft(t, now), TimeLeft(Pause(t, now), now);
            && Pause(t, now) == t.(pausedAt := Some(now), remaining := Pause(t, now).remaining)
            && 0 <= kept <= Max(0, left)
            && left - SECOND < kept
            && (kept == left <==> left >= 0 && left % SECOND == 0)
  {
  }

  /** A pause followed by a resume moves the due time by exactly the length of the pause
      if and only if a whole, non-negative number of seconds was left; no other field moves. */
  lemma PauseThenResume(t: Row, from: Time, until: Time)
    requires t.dueAt.Some? && t.pausedAt.None? && t.remaining.None?
    ensures var r, left := Resume(Pause(t, from), until), t.dueAt.value - from;
            && r == t.(dueAt := r.dueAt)
            && r.dueAt.Some?
            && (r.dueAt.value == t.dueAt.value + (until - from) <==> left >= 0 && left % SECOND == 0)
  {
  }
}
