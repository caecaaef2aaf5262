/** The audit entries of a ticket against its row.  The timeline orders entries by `created_at`,
    the beginning of the recording transaction, which is not the order of commits. */
module TicketTimeline {
  import opened Entity
  import opened Lifecycle
  import opened Postgres
  import opened TicketProtocol
  import opened TicketSerial

  predicate TicketEntry(a: AuditRow, id: Id) {
    a.ticket == id && a.kind != SlaBreached
  }

  // ---------------------------------------------------------------- in order of commits

  function LastCommitted(audits: seq<AuditRow>, id: Id): Option<AuditRow> {
    if audits == [] then None
    else
      var last := audits[|audits| - 1];
      if TicketEntry(last, id) then Some(last) else LastCommitted(audits[..|audits| - 1], id)
  }

  lemma LastCommittedAppend(audits: seq<AuditRow>, a: AuditRow, id: Id)
    ensures LastCommitted(audits + [a], id) == if TicketEntry(a, id) then Some(a) else LastCommitted(audits, id)
  {
    assert (audits + [a])[..|audits|] == audits;
  }

  /** The entry's payload agrees with the row on every column that an update writes. */
  predicate Shows(entry: Option<AuditRow>, t: Row) {
    entry.Some? && entry.value.payload.Some? && SameWrittenColumns(entry.value.payload.value, t)
  }

  predicate Audited(w: World, id: Id) {
    id in w.db.tickets ==> Shows(LastCommitted(w.db.audits, id), w.db.tickets[id])
  }

  lemma TakeAudited(w: World, s: Step, id: Id)
    requires Audited(w, id)
    ensures Audited(Take(w, s), id)
  {
    if Quiet(s) {
      QuietStep(w, s);
      return;
    }
    match s
    case Insert(creator, newId, priority) =>
      LastCommittedAppend(w.db.audits, AuditRow(newId, Some(creator), TicketCreated,
                                                Some(NewRow(creator, priority, w.now)), w.ticks), id);
    case Write(f) =>
      if Writes(w, f) {
        var u := w.flights[f];
        LastCommittedAppend(w.db.audits, AuditRow(u.id, Some(u.actor), TicketUpdated, Some(u.copy), u.started), id);
      }
    case Report(ticket, _, _) =>
      LastCommittedAppend(w.db.audits, AuditRow(ticket, None, SlaBreached, None, w.ticks), id);
    case _ =>
  }

  /** In every interleaving the ticket entry that was committed last agrees with the row. */
  lemma {:induction false} LastCommittedAgrees(w: World, run: seq<Action>, id: Id)
    requires Audited(w, id)
    ensures Audited(Exec(w, run), id)
    decreases |run|
  {
    hide Audited, Take;
    if run != [] {
      var w1 := Wait(w, run[0].wait);
      AuditedWaits(w, run[0].wait, id);
      TakeAudited(w1, run[0].step, id);
      LastCommittedAgrees(Do(w, run[0]), run[1..], id);
    }
  }

  lemma AuditedWaits(w: World, d: nat, id: Id)
    requires Audited(w, id)
    ensures Audited(Wait(w, d), id)
  {
  }

  // ---------------------------------------------------------------- in order of created_at

  /** The last ticket entry of the timeline. */
  function LastEntry(audits: seq<AuditRow>, id: Id): Option<AuditRow> {
    if audits == [] then None
    else
      var last, earlier := audits[|audits| - 1], LastEntry(audits[..|audits| - 1], id);
      if !TicketEntry(last, id) || (earlier.Some? && earlier.value.created > last.created) then earlier
      else Some(last)
  }

  predicate NoLaterEntry(audits: seq<AuditRow>, id: Id, at: Stamp) {
    forall a <- audits :: TicketEntry(a, id) ==> a.created <= at
  }

  /** It is one of the ticket's entries and none of them began later. */
  lemma {:induction false} LastEntryIsLast(audits: seq<AuditRow>, id: Id)
    ensures var e := LastEntry(audits, id);
            if e.Some? then e.value in audits && TicketEntry(e.value, id) && NoLaterEntry(audits, id, e.value.created)
            else forall a <- audits :: !TicketEntry(a, id)
  {
    if audits != [] {
      LastEntryIsLast(audits[..|audits| - 1], id);
      assert audits == audits[..|audits| - 1] + [audits[|audits| - 1]];
    }
  }

  lemma LastEntryAppend(audits: seq<AuditRow>, a: AuditRow, id: Id)
    ensures LastEntry(audits + [a], id)
            == if TicketEntry(a, id) && NoLaterEntry(audits, id, a.created) then Some(a) else LastEntry(audits, id)
  {
    assert (audits + [a])[..|audits|] == audits;
    LastEntryIsLast(audits, id);
  }

  predicate TimelineAgrees(w: World, id: Id) {
    id in w.db.tickets ==> Shows(LastEntry(w.db.audits, id), w.db.tickets[id])
  }

  /** No update of ticket id that began later has committed, or this one changes no column. */
  predicate Timely(w: World, f: nat, id: Id) {
    Writes(w, f) && w.flights[f].id == id ==>
      || NoLaterEntry(w.db.audits, id, w.flights[f].started)
      || SameWrittenColumns(w.db.tickets[id], w.flights[f].copy)
  }

  lemma WriteKeepsTimelineIff(w: World, f: nat, id: Id)
    requires TimelineAgrees(w, id) && Writes(w, f)
    ensures TimelineAgrees(DoWrite(w, f), id) <==> Timely(w, f, id)
  {
    var u := w.flights[f];
    LastEntryAppend(w.db.audits, AuditRow(u.id, Some(u.actor), TicketUpdated, Some(u.copy), u.started), id);
  }

  lemma InsertKeepsTimeline(w: World, creator: Id, newId: Id, priority: Option<Priority>, id: Id)
    requires Stamped(w) && TimelineAgrees(w, id)
    ensures TimelineAgrees(DoInsert(w, creator, newId, priority), id)
  {
    LastEntryAppend(w.db.audits, AuditRow(newId, Some(creator), TicketCreated,
                                          Some(NewRow(creator, priority, w.now)), w.ticks), id);
  }

  lemma TakeKeepsTimelineIff(w: World, s: Step, id: Id)
    requires Stamped(w) && TimelineAgrees(w, id)
    ensures TimelineAgrees(Take(w, s), id) <==> (s.Write? ==> Timely(w, s.f, id))
  {
    if Quiet(s) {
      QuietStep(w, s);
      return;
    }
    match s
    case Insert(creator, newId, priority) => InsertKeepsTimeline(w, creator, newId, priority, id);
    case Write(f) =>
      if Writes(w, f) {
        WriteKeepsTimelineIff(w, f, id);
      }
    case Report(ticket, _, _) =>
      LastEntryAppend(w.db.audits, AuditRow(ticket, None, SlaBreached, None, w.ticks), id);
    case _ =>
  }

  function Agreeing(id: Id): World -> bool {
    (w: World) => TimelineAgrees(w, id)
  }

  function TimelyOn(id: Id): (World, nat) -> bool {
    (w: World, f: nat) => Timely(w, f, id)
  }

  lemma TimelineWaits(w: World, d: nat, id: Id)
    requires TimelineAgrees(w, id)
    ensures TimelineAgrees(Wait(w, d), id)
  {
  }

  /** The timeline's last ticket entry agrees with the row throughout a run if and only if no
      update that changes a column commits after one of the same ticket that began later. */
  lemma TimelineAgreesIff(w: World, run: seq<Action>, id: Id)
    requires Safe(w) && TimelineAgrees(w, id)
    ensures Throughout(w, run, Agreeing(id)) <==> AllWrites(w, run, TimelyOn(id))
  {
    hide TimelineAgrees, Timely, Take;
    forall v: World, d: nat | TimelineAgrees(v, id) ensures TimelineAgrees(Wait(v, d), id) {
      TimelineWaits(v, d, id);
    }
    forall v: World, s: Step | Safe(v) && TimelineAgrees(v, id)
      ensures Agreeing(id)(Take(v, s)) <==> (s.Write? ==> TimelyOn(id)(v, s.f))
    {
      TakeKeepsTimelineIff(v, s, id);
    }
    hide Safe;
    ThroughoutIff(w, run, Agreeing(id), TimelyOn(id));
  }

  lemma InOrderIsTimely(w: World, f: nat, id: Id)
    requires InOrder(w, f)
    ensures Timely(w, f, id)
  {
  }

  /** So it does on every serialized run. */
  lemma SerializedTimelineAgrees(start: Time, blocks: seq<Block>, id: Id)
    requires Blocks(blocks)
    ensures Throughout(Empty(start), Serialized(blocks), Agreeing(id))
  {
    SerializedIsOrderly(Empty(start), blocks);
    forall v: World, f: nat | Orderly()(v, f) ensures TimelyOn(id)(v, f) {
      InOrderIsTimely(v, f, id);
    }
    AllWritesWeaken(Empty(start), Serialized(blocks), Orderly(), TimelyOn(id));
    TimelineAgreesIff(Empty(start), Serialized(blocks), id);
  }
}
