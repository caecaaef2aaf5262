/** Updates that nothing interrupts are the use case's updates, and runs of whole updates and
    escalations have none of the overlaps that break histories. */
module TicketSerial {
  import opened Entity
  import opened Lifecycle
  import opened Postgres
  import opened TicketProtocol
  import opened TicketHistory
  import SlaClock
  import TicketUsecase

  // ---------------------------------------------------------------- runs, step by step

  lemma ExecCons(w: World, a: Action, rest: seq<Action>)
    ensures Exec(w, [a] + rest) == Exec(Do(w, a), rest)
  {
    assert ([a] + rest)[1..] == rest;
  }

  lemma WritesCons(w: World, a: Action, rest: seq<Action>, ok: (World, nat) -> bool)
    ensures AllWrites(w, [a] + rest, ok) <==>
            (a.step.Write? ==> ok(Wait(w, a.wait), a.step.f)) && AllWrites(Do(w, a), rest, ok)
  {
    assert ([a] + rest)[1..] == rest;
  }

  lemma {:induction false} ExecJoin(w: World, run: seq<Action>, more: seq<Action>)
    ensures Exec(w, run + more) == Exec(Exec(w, run), more)
    decreases |run|
  {
    hide Do;
    if run == [] {
      assert run + more == more;
    } else {
      assert (run + more)[1..] == run[1..] + more;
      ExecJoin(Do(w, run[0]), run[1..], more);
    }
  }

  lemma {:induction false} WritesJoin(w: World, run: seq<Action>, more: seq<Action>, ok: (World, nat) -> bool)
    ensures AllWrites(w, run + more, ok) <==> AllWrites(w, run, ok) && AllWrites(Exec(w, run), more, ok)
    decreases |run|
  {
    hide Do;
    if run == [] {
      assert run + more == more;
    } else {
      assert (run + more)[1..] == run[1..] + more;
      WritesJoin(Do(w, run[0]), run[1..], more, ok);
    }
  }

  lemma ExecThree(w: World, a: Action, b: Action, c: Action)
    ensures Exec(w, [a, b, c]) == Do(Do(Do(w, a), b), c)
  {
    hide Do;
    assert [a, b, c] == [a] + ([b] + ([c] + []));
    ExecCons(w, a, [b] + ([c] + []));
    ExecCons(Do(w, a), b, [c] + []);
    ExecCons(Do(Do(w, a), b), c, []);
  }

  // ---------------------------------------------------------------- an uninterrupted update

  /** From GetTicket up to the commit. */
  function Body(f: nat, d1: nat, d2: nat): seq<Action> {
    [Action(0, Fetch(f)), Action(d1, MoveStatus(f)), Action(d2, SetRest(f))]
  }

  function Alone(f: nat, actor: Id, id: Id, p: Patch, d1: nat, d2: nat): seq<Action> {
    [Action(0, Begin(f, actor, id, p))] + Body(f, d1, d2) + [Action(0, Write(f))]
  }

  lemma {:induction false} QuietRun(w: World, run: seq<Action>, ok: (World, nat) -> bool)
    requires forall a <- run :: !a.step.Write?
    ensures AllWrites(w, run, ok)
    decreases |run|
  {
    hide Do;
    if run != [] {
      assert run[0] in run && forall a <- run[1..] :: a in run;
      QuietRun(Do(w, run[0]), run[1..], ok);
    }
  }

  lemma FetchStep(w: World, f: nat)
    requires f in w.flights && w.flights[f].Begun? && w.flights[f].id in w.db.tickets
    ensures var u := w.flights[f];
            Do(w, Action(0, Fetch(f)))
            == w.(flights := w.flights[f := Fetched(u.actor, u.id, u.patch, u.started, w.db.tickets[u.id])])
  {
  }

  lemma MoveStep(w: World, f: nat, d: nat)
    requires f in w.flights && w.flights[f].Fetched?
    ensures var u := w.flights[f];
            var moved := ApplyStatus(u.base, u.patch, w.now + d);
            Do(w, Action(d, MoveStatus(f)))
            == if moved.None? then w.(now := w.now + d, flights := w.flights - {f})
               else w.(now := w.now + d,
                       ticks := w.ticks + |NewEdges(u.base.status, u.patch)|,
                       flights := w.flights[f := Moved(u.actor, u.id, u.patch, u.started, u.base, w.ticks, moved.value)])
  {
  }

  lemma RestStep(w: World, f: nat, d: nat)
    requires f in w.flights && w.flights[f].Moved?
    ensures var u := w.flights[f];
            Do(w, Action(d, SetRest(f)))
            == w.(now := w.now + d,
                  flights := w.flights[f := Ready(u.actor, u.id, u.patch, u.started, u.base, u.inserted,
                                                  ApplyRest(u.copy, u.patch, w.now + d))])
  {
  }

  lemma RestNothing(w: World, f: nat, d: nat)
    requires f !in w.flights
    ensures Do(w, Action(d, SetRest(f))) == w.(now := w.now + d)
  {
  }

  /** The request after its reads and in-memory steps, when nothing else ran meanwhile. */
  function BodyDone(w: World, f: nat, d1: nat, d2: nat): World
    requires f in w.flights && w.flights[f].Begun? && w.flights[f].id in w.db.tickets
  {
    var u, now := w.flights[f], w.now + d1 + d2;
    var t := w.db.tickets[u.id];
    var moved := ApplyStatus(t, u.patch, w.now + d1);
    if moved.None? then w.(now := now, flights := w.flights - {f})
    else
      w.(now := now, ticks := w.ticks + |NewEdges(t.status, u.patch)|,
         flights := w.flights[f := Ready(u.actor, u.id, u.patch, u.started, t, w.ticks,
                                         ApplyRest(moved.value, u.patch, now))])
  }

  lemma BodyExec(w: World, f: nat, d1: nat, d2: nat)
    requires f in w.flights && w.flights[f].Begun? && w.flights[f].id in w.db.tickets
    ensures Exec(w, Body(f, d1, d2)) == BodyDone(w, f, d1, d2)
  {
    hide Do, Exec, ApplyStatus, ApplyRest, NewEdges;
    var u := w.flights[f];
    var t := w.db.tickets[u.id];
    ExecThree(w, Action(0, Fetch(f)), Action(d1, MoveStatus(f)), Action(d2, SetRest(f)));
    FetchStep(w, f);
    var fetched := Fetched(u.actor, u.id, u.patch, u.started, t);
    var w1 := w.(flights := w.flights[f := fetched]);
    MoveStep(w1, f, d1);
    assert w.flights[f := fetched] - {f} == w.flights - {f};
    var moved := ApplyStatus(t, u.patch, w.now + d1);
    if moved.Some? {
      var m := Moved(u.actor, u.id, u.patch, u.started, t, w.ticks, moved.value);
      assert w.flights[f := fetched][f := m] == w.flights[f := m];
      var w2 := w.(now := w.now + d1, ticks := w.ticks + |NewEdges(t.status, u.patch)|, flights := w.flights[f := m]);
      RestStep(w2, f, d2);
      var r := Ready(u.actor, u.id, u.patch, u.started, t, w.ticks, ApplyRest(moved.value, u.patch, w.now + d1 + d2));
      assert w.flights[f := m][f := r] == w.flights[f := r];
    } else {
      RestNothing(w.(now := w.now + d1, flights := w.flights - {f}), f, d2);
    }
  }

  /** The world just before an uninterrupted update commits. */
  function UpToCommit(w: World, f: nat, actor: Id, id: Id, p: Patch, d1: nat, d2: nat): World
    requires f !in w.flights && id in w.db.tickets
  {
    var started := w.(ticks := w.ticks + 1, flights := w.flights[f := Begun(actor, id, p, w.ticks)]);
    BodyDone(started, f, d1, d2)
  }

  lemma AloneSplits(w: World, f: nat, actor: Id, id: Id, p: Patch, d1: nat, d2: nat, ok: (World, nat) -> bool)
    requires f !in w.flights && id in w.db.tickets
    ensures var w1 := UpToCommit(w, f, actor, id, p, d1, d2);
            && Exec(w, Alone(f, actor, id, p, d1, d2)) == Take(w1, Write(f))
            && (AllWrites(w, Alone(f, actor, id, p, d1, d2), ok) <==> ok(w1, f))
  {
    var begin, write := Action(0, Begin(f, actor, id, p)), Action(0, Write(f));
    var body := Body(f, d1, d2);
    var begun := w.(ticks := w.ticks + 1, flights := w.flights[f := Begun(actor, id, p, w.ticks)]);
    assert Do(w, begin) == begun;
    BodyExec(begun, f, d1, d2);
    QuietRun(begun, body, ok);
    hide Do, BodyDone;
    assert [begin] + body + [write] == [begin] + (body + [write]) && [write] == [write] + [];
    ExecCons(w, begin, body + [write]);
    WritesCons(w, begin, body + [write], ok);
    ExecJoin(begun, body, [write]);
    WritesJoin(begun, body, [write], ok);
    var w1 := UpToCommit(w, f, actor, id, p, d1, d2);
    ExecCons(w1, write, []);
    WritesCons(w1, write, [], ok);
    CommitNow(w1, f);
  }

  lemma CommitNow(w: World, f: nat)
    ensures Wait(w, 0) == w && Do(w, Action(0, Write(f))) == Take(w, Write(f))
  {
  }

  lemma CommitReady(w: World, f: nat, u: Flight)
    requires f !in w.flights && u.Ready? && u.id in w.db.tickets
    ensures Take(w.(flights := w.flights[f := u]), Write(f))
            == if !Storable(u.copy) then w
               else w.(db := Tables(w.db.tickets[u.id := WriteColumns(w.db.tickets[u.id], u.copy)],
                          w.db.history + HistoryRows(u.id, u.actor, NewEdges(u.base.status, u.patch), u.started, u.inserted),
                          w.db.audits + [AuditRow(u.id, Some(u.actor), TicketUpdated, Some(u.copy), u.started)]))
  {
    assert w.flights[f := u] - {f} == w.flights;
  }

  lemma ReadyToCommit(w: World, f: nat, actor: Id, id: Id, p: Patch, d1: nat, d2: nat)
    requires f !in w.flights && id in w.db.tickets
    ensures
      var t, now := w.db.tickets[id], w.now + d1 + d2;
      var moved := ApplyStatus(t, p, w.now + d1);
      UpToCommit(w, f, actor, id, p, d1, d2)
      == if moved.None? then w.(now := now, ticks := w.ticks + 1)
         else w.(now := now, ticks := w.ticks + 1 + |NewEdges(t.status, p)|,
                 flights := w.flights[f := Ready(actor, id, p, w.ticks, t, w.ticks + 1, ApplyRest(moved.value, p, now))])
  {
    hide ApplyStatus, ApplyRest;
    var begun := Begun(actor, id, p, w.ticks);
    assert w.flights[f := begun] - {f} == w.flights;
    var t, now := w.db.tickets[id], w.now + d1 + d2;
    var moved := ApplyStatus(t, p, w.now + d1);
    if moved.Some? {
      var r := Ready(actor, id, p, w.ticks, t, w.ticks + 1, ApplyRest(moved.value, p, now));
      assert w.flights[f := begun][f := r] == w.flights[f := r];
    }
  }

  /** An update without interruption is the use case's update: the tables change exactly as
      Update says, or not at all when the patch is refused. */
  lemma AloneIsUpdate(w: World, f: nat, actor: Id, id: Id, p: Patch, d1: nat, d2: nat)
    requires f !in w.flights && id in w.db.tickets
    ensures
      var t, now := w.db.tickets[id], w.now + d1 + d2;
      var after := Patched(t, p, w.now + d1, now);
      var w' := Exec(w, Alone(f, actor, id, p, d1, d2));
      if after.None? then
        w' == w.(now := now, ticks := w'.ticks) && w'.ticks > w.ticks
      else
        w' == w.(now := now, ticks := w.ticks + 1 + |NewEdges(t.status, p)|,
                 db := TicketUsecase.UpdatedTables(w.db, actor, id, p, after.value, w.ticks, w.ticks + 1))
  {
    hide Exec, Alone, UpToCommit, Take, ApplyStatus, ApplyRest, Storable, NewEdges, HistoryRows, WriteColumns;
    AloneSplits(w, f, actor, id, p, d1, d2, Current());
    ReadyToCommit(w, f, actor, id, p, d1, d2);
    var t, now := w.db.tickets[id], w.now + d1 + d2;
    var moved := ApplyStatus(t, p, w.now + d1);
    if moved.None? {
      CommitNothing(w.(now := now, ticks := w.ticks + 1), f);
    } else {
      var r := Ready(actor, id, p, w.ticks, t, w.ticks + 1, ApplyRest(moved.value, p, now));
      CommitReady(w.(now := now, ticks := w.ticks + 1 + |NewEdges(t.status, p)|), f, r);
    }
  }

  /** It commits on the status that it read, whatever else is in flight. */
  lemma AloneIsCurrent(w: World, f: nat, actor: Id, id: Id, p: Patch, d1: nat, d2: nat)
    requires f !in w.flights && id in w.db.tickets
    ensures AllWrites(w, Alone(f, actor, id, p, d1, d2), Current())
  {
    AloneSplits(w, f, actor, id, p, d1, d2, Current());
    assert CurrentWrite(UpToCommit(w, f, actor, id, p, d1, d2), f);
  }

  lemma CommitNothing(w: World, f: nat)
    requires f !in w.flights
    ensures Take(w, Write(f)) == w
  {
  }

  /** And the row it leaves is the one the stopwatch refinement speaks of. */
  lemma AloneIsSlaOp(w: World, f: nat, actor: Id, id: Id, p: Patch, d1: nat, d2: nat)
    requires f !in w.flights && id in w.db.tickets
    ensures var w' := Exec(w, Alone(f, actor, id, p, d1, d2));
            && id in w'.db.tickets
            && w'.db.tickets[id]
               == SlaClock.DoOp(w.db.tickets[id], SlaClock.Update(p, w.now + d1, w.now + d1 + d2))
  {
    hide Exec, Alone, Patched;
    AloneIsUpdate(w, f, actor, id, p, d1, d2);
  }

  // ---------------------------------------------------------------- an uninterrupted escalation

  function AloneEscalation(f: nat, actor: Id, id: Id, d1: nat, d2: nat): seq<Action> {
    [Action(0, Look(f, actor, id)), Action(0, BeginEscalated(f))] + Body(f, d1, d2) + [Action(0, Write(f))]
  }

  lemma LookThenBegin(w: World, f: nat, actor: Id, id: Id)
    requires f !in w.flights && id in w.db.tickets
    ensures Do(Do(w, Action(0, Look(f, actor, id))), Action(0, BeginEscalated(f)))
            == Do(w, Action(0, Begin(f, actor, id, EscalationPatch(w.db.tickets[id].priority))))
  {
    var p := EscalationPatch(w.db.tickets[id].priority);
    var begun := Begun(actor, id, p, w.ticks);
    assert w.flights[f := TicketProtocol.Escalating(actor, id, p)][f := begun] == w.flights[f := begun];
  }

  /** An escalation that nothing interrupts is an update with the next priority. */
  lemma EscalationIsUpdate(w: World, f: nat, actor: Id, id: Id, d1: nat, d2: nat, ok: (World, nat) -> bool)
    requires f !in w.flights && id in w.db.tickets
    ensures var p := EscalationPatch(w.db.tickets[id].priority);
            var run, update := AloneEscalation(f, actor, id, d1, d2), Alone(f, actor, id, p, d1, d2);
            Exec(w, run) == Exec(w, update) && (AllWrites(w, run, ok) <==> AllWrites(w, update, ok))
  {
    var p := EscalationPatch(w.db.tickets[id].priority);
    var look, begin := Action(0, Look(f, actor, id)), Action(0, BeginEscalated(f));
    var direct := Action(0, Begin(f, actor, id, p));
    var rest := Body(f, d1, d2) + [Action(0, Write(f))];
    assert AloneEscalation(f, actor, id, d1, d2) == [look] + ([begin] + rest);
    assert Alone(f, actor, id, p, d1, d2) == [direct] + rest;
    LookThenBegin(w, f, actor, id);
    hide Do;
    ExecCons(w, look, [begin] + rest);
    ExecCons(Do(w, look), begin, rest);
    ExecCons(w, direct, rest);
    WritesCons(w, look, [begin] + rest, ok);
    WritesCons(Do(w, look), begin, rest, ok);
    WritesCons(w, direct, rest, ok);
  }

  // ---------------------------------------------------------------- serialized runs

  /** One request at a time: a whole update, a whole escalation, or a step that is one
      statement by itself.  A request on a ticket that does not exist changes nothing. */
  datatype Block =
    | UpdateBlock(f: nat, actor: Id, id: Id, patch: Patch, d1: nat, d2: nat)
    | EscalateBlock(f: nat, actor: Id, id: Id, d1: nat, d2: nat)
    | SingleBlock(wait: nat, step: Step)

  predicate OneStatement(s: Step) {
    s.Insert? || s.Sweep? || s.Report? || s.Forget?
  }

  function Steps(b: Block): seq<Action> {
    match b
    case UpdateBlock(f, actor, id, p, d1, d2) => Alone(f, actor, id, p, d1, d2)
    case EscalateBlock(f, actor, id, d1, d2) => AloneEscalation(f, actor, id, d1, d2)
    case SingleBlock(wait, s) => [Action(wait, s)]
  }

  function Serialized(blocks: seq<Block>): seq<Action> {
    if blocks == [] then [] else Steps(blocks[0]) + Serialized(blocks[1..])
  }

  predicate Blocks(blocks: seq<Block>) {
    forall b <- blocks :: b.SingleBlock? ==> OneStatement(b.step)
  }

  /** The commit finds the status it read, and every stamp in the tables is earlier than its own. */
  predicate InOrder(w: World, f: nat) {
    Writes(w, f) ==>
      var u := w.flights[f];
      && CurrentWrite(w, f)
      && (forall h <- w.db.history :: h.created <= u.started && h.inserted <= u.inserted)
      && (forall a <- w.db.audits :: a.created <= u.started)
  }

  function Orderly(): (World, nat) -> bool {
    (w: World, f: nat) => InOrder(w, f)
  }

  lemma UpdateIsOrderly(w: World, f: nat, actor: Id, id: Id, p: Patch, d1: nat, d2: nat)
    requires Stamped(w) && w.flights == map[] && id in w.db.tickets
    ensures AllWrites(w, Alone(f, actor, id, p, d1, d2), Orderly())
    ensures Exec(w, Alone(f, actor, id, p, d1, d2)).flights == map[]
  {
    AloneSplits(w, f, actor, id, p, d1, d2, Orderly());
    assert InOrder(UpToCommit(w, f, actor, id, p, d1, d2), f);
  }

  /** A request on a ticket that does not exist. */
  lemma MissingTicket(w: World, f: nat, d1: nat, d2: nat, start: Action)
    requires w.flights == map[]
    requires var w1 := Do(w, start);
             w1.flights == map[] || (w1.flights.Keys == {f} && w1.flights[f].Begun? && w1.flights[f].id !in w1.db.tickets)
    requires !start.step.Write?
    ensures var run := [start] + (Body(f, d1, d2) + [Action(0, Write(f))]);
            AllWrites(w, run, Orderly()) && Exec(w, run).flights == map[]
  {
    var body, write := Body(f, d1, d2), Action(0, Write(f));
    var w1 := Do(w, start);
    ExecThree(w1, Action(0, Fetch(f)), Action(d1, MoveStatus(f)), Action(d2, SetRest(f)));
    FetchNothing(w1, f, d1, d2);
    var w2 := Exec(w1, body);
    NothingWritten(w2, f);
    hide Do, Take;
    ExecCons(w, start, body + [write]);
    WritesCons(w, start, body + [write], Orderly());
    ExecJoin(w1, body, [write]);
    WritesJoin(w1, body, [write], Orderly());
    QuietRun(w1, body, Orderly());
    assert [write] == [write] + [];
    ExecCons(w2, write, []);
    WritesCons(w2, write, [], Orderly());
  }

  lemma FetchNothing(w: World, f: nat, d1: nat, d2: nat)
    requires w.flights == map[]
             || (w.flights.Keys == {f} && w.flights[f].Begun? && w.flights[f].id !in w.db.tickets)
    ensures Do(Do(Do(w, Action(0, Fetch(f))), Action(d1, MoveStatus(f))), Action(d2, SetRest(f))).flights == map[]
  {
    assert Do(w, Action(0, Fetch(f))).flights == map[];
  }

  lemma NothingWritten(w: World, f: nat)
    requires w.flights == map[]
    ensures Do(w, Action(0, Write(f))).flights == map[] && InOrder(Wait(w, 0), f)
  {
  }

  lemma BlockIsOrderly(w: World, b: Block)
    requires Stamped(w) && w.flights == map[] && (b.SingleBlock? ==> OneStatement(b.step))
    ensures AllWrites(w, Steps(b), Orderly()) && Exec(w, Steps(b)).flights == map[]
  {
    match b
    case UpdateBlock(f, actor, id, p, d1, d2) =>
      var begin := Action(0, Begin(f, actor, id, p));
      if id in w.db.tickets {
        UpdateIsOrderly(w, f, actor, id, p, d1, d2);
      } else {
        MissingTicket(w, f, d1, d2, begin);
        assert Alone(f, actor, id, p, d1, d2) == [begin] + (Body(f, d1, d2) + [Action(0, Write(f))]);
      }
    case EscalateBlock(f, actor, id, d1, d2) =>
      if id in w.db.tickets {
        EscalationIsUpdate(w, f, actor, id, d1, d2, Orderly());
        UpdateIsOrderly(w, f, actor, id, EscalationPatch(w.db.tickets[id].priority), d1, d2);
      } else {
        MissingEscalation(w, f, actor, id, d1, d2);
      }
    case SingleBlock(wait, s) =>
      assert [Action(wait, s)] == [Action(wait, s)] + [];
      ExecCons(w, Action(wait, s), []);
  }

  lemma MissingEscalation(w: World, f: nat, actor: Id, id: Id, d1: nat, d2: nat)
    requires w.flights == map[] && id !in w.db.tickets
    ensures var run := AloneEscalation(f, actor, id, d1, d2);
            AllWrites(w, run, Orderly()) && Exec(w, run).flights == map[]
  {
    var look, begin := Action(0, Look(f, actor, id)), Action(0, BeginEscalated(f));
    var rest := Body(f, d1, d2) + [Action(0, Write(f))];
    assert AloneEscalation(f, actor, id, d1, d2) == [look] + ([begin] + rest);
    assert Do(w, look) == w && Do(w, begin) == w;
    MissingTicket(w, f, d1, d2, begin);
    ExecCons(w, look, [begin] + rest);
    WritesCons(w, look, [begin] + rest, Orderly());
  }

  /** On a serialized run every commit finds the status it read and carries the latest stamps. */
  lemma {:induction false} SerializedIsOrderly(w: World, blocks: seq<Block>)
    requires Safe(w) && w.flights == map[] && Blocks(blocks)
    ensures AllWrites(w, Serialized(blocks), Orderly())
    decreases |blocks|
  {
    hide Steps, Safe, OneStatement;
    if blocks != [] {
      var b := blocks[0];
      SafeIsStamped(w);
      BlockIsOrderly(w, b);
      ExecSafe(w, Steps(b));
      WritesJoin(w, Steps(b), Serialized(blocks[1..]), Orderly());
      assert forall x <- blocks[1..] :: x in blocks;
      SerializedIsOrderly(Exec(w, Steps(b)), blocks[1..]);
    }
  }

  lemma SafeIsStamped(w: World)
    requires Safe(w)
    ensures Stamped(w)
  {
  }

  lemma InOrderFits(w: World, f: nat, id: Id, order: Order)
    requires InOrder(w, f)
    ensures Fits(w, f, id, order)
  {
  }

  /** On every serialized run the history of a ticket, in either column's order, is a connected
      walk of allowed edges from open to its status, and closed was entered from resolved. */
  lemma SerializedHistoryIsPath(start: Time, blocks: seq<Block>, id: Id, order: Order)
    requires Blocks(blocks)
    requires id in Exec(Empty(start), Serialized(blocks)).db.tickets
    ensures var w := Exec(Empty(start), Serialized(blocks));
            var rows, status := Chain(w.db.history, id, order), w.db.tickets[id].status;
            && IsPath(rows, Open, status)
            && (status == Closed ==>
                  rows != [] && rows[|rows| - 1].from == Resolved && rows[|rows| - 1].to == Closed)
  {
    var run := Serialized(blocks);
    SerializedIsOrderly(Empty(start), blocks);
    forall v: World, f: nat | Orderly()(v, f) ensures FitsPath(id, order)(v, f) {
      InOrderFits(v, f, id, order);
    }
    AllWritesWeaken(Empty(start), run, Orderly(), FitsPath(id, order));
    HistoryIsPath(start, run, id, order);
  }

  /** And a closed ticket stays closed. */
  lemma SerializedClosedIsTerminal(w: World, blocks: seq<Block>, id: Id)
    requires Safe(w) && w.flights == map[] && Blocks(blocks) && ClosedIn(id)(w)
    ensures Throughout(w, Serialized(blocks), ClosedIn(id))
  {
    SerializedIsOrderly(w, blocks);
    AllWritesWeaken(w, Serialized(blocks), Orderly(), Current());
    ClosedIsTerminal(w, Serialized(blocks), id);
  }

  // ---------------------------------------------------------------- creation, and a life to its end

  /** The protocol's creation is the use case's. */
  lemma InsertIsCreate(w: World, creator: Id, id: Id, priority: Option<Priority>)
    requires id !in w.db.tickets && (priority.Some? ==> priority.value in {Low, Medium, High, Urgent})
    ensures var row := NewRow(creator, priority, w.now);
            && DoInsert(w, creator, id, priority)
               == w.(ticks := w.ticks + 1, db := TicketUsecase.CreatedTables(w.db, creator, id, row, w.ticks))
            && row == Row(creator, None, None, Open, if priority.Some? then priority.value else Medium,
                          Some(w.now + Duration(row.priority)), None, None, None)
  {
  }

  function ToStatus(s: Status): Patch {
    Patch(Some(s), None, None, None)
  }

  lemma AloneMoves(w: World, f: nat, actor: Id, id: Id, s: Status, d1: nat, d2: nat)
    requires Safe(w) && f !in w.flights && id in w.db.tickets
    requires (w.db.tickets[id].status, s) in {(Open, Pending), (Open, Resolved), (Pending, Open),
                                              (Pending, Resolved), (Resolved, Open), (Resolved, Closed)}
    ensures var w', t := Exec(w, Alone(f, actor, id, ToStatus(s), d1, d2)), w.db.tickets[id];
            && id in w'.db.tickets && w'.db.tickets[id].status == s && w'.db.tickets[id].priority == t.priority
            && w'.db.history == w.db.history + [HistoryRow(id, actor, t.status, s, w.ticks, w.ticks + 1)]
            && w'.flights == w.flights && w'.ticks == w.ticks + 2
  {
    hide Exec, Alone;
    var t := w.db.tickets[id];
    assert Storable(t);
    PatchCommitsIff(t, ToStatus(s), w.now + d1, w.now + d1 + d2);
    PatchSetsWhatItNames(t, ToStatus(s), w.now + d1, w.now + d1 + d2);
    AloneIsUpdate(w, f, actor, id, ToStatus(s), d1, d2);
    TicketUsecase.CommittedUpdate(w.db, actor, id, ToStatus(s), w.now + d1, w.now + d1 + d2, w.ticks, w.ticks + 1);
  }

  function ResolveAndClose(f: nat, actor: Id, id: Id, d: nat, e: nat): seq<Block> {
    [UpdateBlock(f, actor, id, ToStatus(Resolved), d, e), UpdateBlock(f, actor, id, ToStatus(Closed), d, e)]
  }

  lemma ResolveAndCloseSteps(f: nat, actor: Id, id: Id, d: nat, e: nat)
    ensures Serialized(ResolveAndClose(f, actor, id, d, e))
            == Alone(f, actor, id, ToStatus(Resolved), d, e) + Alone(f, actor, id, ToStatus(Closed), d, e)
  {
    hide Alone;
    var blocks := ResolveAndClose(f, actor, id, d, e);
    assert blocks[1..] == [blocks[1]] && blocks[1..][1..] == [];
    assert Serialized([blocks[1]]) == Alone(f, actor, id, ToStatus(Closed), d, e) + [];
  }

  /** Whatever happened before, an open or pending ticket can be resolved and then closed: both
      updates commit, the ticket ends closed, and its history grows by exactly these two edges. */
  lemma ResolvedThenClosed(start: Time, before: seq<Action>, f: nat, actor: Id, id: Id, d: nat, e: nat)
    requires var w := Exec(Empty(start), before);
             f !in w.flights && id in w.db.tickets && w.db.tickets[id].status in {Open, Pending}
    ensures
      var w := Exec(Empty(start), before);
      var w' := Exec(w, Serialized(ResolveAndClose(f, actor, id, d, e)));
      && id in w'.db.tickets && w'.db.tickets[id].status == Closed
      && w'.db.history == w.db.history
           + [HistoryRow(id, actor, w.db.tickets[id].status, Resolved, w.ticks, w.ticks + 1),
              HistoryRow(id, actor, Resolved, Closed, w.ticks + 2, w.ticks + 3)]
  {
    hide Exec, Alone, Safe, Serialized, ResolveAndClose, ToStatus;
    var w := Exec(Empty(start), before);
    var resolve, close := Alone(f, actor, id, ToStatus(Resolved), d, e), Alone(f, actor, id, ToStatus(Closed), d, e);
    ResolveAndCloseSteps(f, actor, id, d, e);
    EmptySafe(start);
    ExecSafe(Empty(start), before);
    ExecSafe(w, resolve);
    ExecJoin(w, resolve, close);
    AloneMoves(w, f, actor, id, Resolved, d, e);
    AloneMoves(Exec(w, resolve), f, actor, id, Closed, d, e);
  }

  lemma EmptySafe(start: Time)
    ensures Safe(Empty(start))
  {
  }
}
