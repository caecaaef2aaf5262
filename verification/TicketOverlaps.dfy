/** Runs from empty tables in which a property that the documents promise is lost. */
module TicketOverlaps {
  import opened Entity
  import opened Lifecycle
  import opened Postgres
  import opened TicketProtocol
  import opened TicketHistory
  import opened TicketSerial
  import opened TicketTimeline

  const CUSTOMER: Id := 1
  const AGENT: Id := 2
  const TICKET: Id := 0

  function ToPriority(p: Priority): Patch {
    Patch(None, Some(p), None, None)
  }

  function Creation(priority: Priority): seq<Action> {
    [Action(0, Insert(CUSTOMER, TICKET, Some(priority)))]
  }

  /** A request up to its commit. */
  function Until(f: nat, actor: Id, id: Id, p: Patch): seq<Action> {
    [Action(0, Begin(f, actor, id, p))] + Body(f, 0, 0)
  }

  function Whole(f: nat, p: Patch): seq<Action> {
    Alone(f, AGENT, TICKET, p, 0, 0)
  }

  function Commit(f: nat): seq<Action> {
    [Action(0, Write(f))]
  }

  predicate Has(w: World, t: Row) {
    TICKET in w.db.tickets && w.db.tickets[TICKET] == t
  }

  // ---------------------------------------------------------------- the parts of these runs

  lemma Created(start: Time, priority: Priority)
    requires !priority.UnknownPriority?
    ensures var t := NewRow(CUSTOMER, Some(priority), start);
            Exec(Empty(start), Creation(priority))
            == World(start, 1, Tables(map[TICKET := t], [],
                                      [AuditRow(TICKET, Some(CUSTOMER), TicketCreated, Some(t), 0)]),
                     map[], multiset{}, multiset{}, multiset{})
  {
    var a := Creation(priority)[0];
    assert Creation(priority) == [a] + [];
    ExecCons(Empty(start), a, []);
  }

  lemma UntilExec(w: World, f: nat, actor: Id, id: Id, p: Patch)
    requires f !in w.flights && id in w.db.tickets
    ensures Exec(w, Until(f, actor, id, p)) == UpToCommit(w, f, actor, id, p, 0, 0)
  {
    var begin := Action(0, Begin(f, actor, id, p));
    var begun := w.(ticks := w.ticks + 1, flights := w.flights[f := Begun(actor, id, p, w.ticks)]);
    assert Do(w, begin) == begun;
    BodyExec(begun, f, 0, 0);
    ExecCons(w, begin, Body(f, 0, 0));
  }

  lemma CommitExec(w: World, f: nat)
    ensures Exec(w, Commit(f)) == DoWrite(w, f)
  {
    assert Commit(f) == [Action(0, Write(f))] + [];
    ExecCons(w, Action(0, Write(f)), []);
    CommitNow(w, f);
  }

  /** A request that moves the status, read and patched. */
  lemma StatusUntil(w: World, f: nat, actor: Id, id: Id, s: Status)
    requires f !in w.flights && id in w.db.tickets
    requires Edge(w.db.tickets[id].status, s) && Storable(w.db.tickets[id])
    ensures var w', t := Exec(w, Until(f, actor, id, ToStatus(s))), w.db.tickets[id];
            && f in w'.flights && w'.flights[f].Ready?
            && var u := w'.flights[f];
            && u == Ready(actor, id, ToStatus(s), w.ticks, t, w.ticks + 1, u.copy)
            && u.copy.status == s && Storable(u.copy)
            && w' == w.(ticks := w.ticks + 2, flights := w.flights[f := u])
  {
    UntilExec(w, f, actor, id, ToStatus(s));
    ReadyToCommit(w, f, actor, id, ToStatus(s), 0, 0);
  }

  lemma PriorityUntil(w: World, f: nat, t: Row, p: Priority)
    requires f !in w.flights && Has(w, t) && Storable(t) && !p.UnknownPriority?
    ensures var w' := Exec(w, Until(f, AGENT, TICKET, ToPriority(p)));
            && f in w'.flights && w'.flights[f].Ready?
            && var u := w'.flights[f];
            && u == Ready(AGENT, TICKET, ToPriority(p), w.ticks, t, w.ticks + 1, ApplyRest(t, ToPriority(p), w.now))
            && w' == w.(ticks := w.ticks + 1, flights := w.flights[f := u])
  {
    UntilExec(w, f, AGENT, TICKET, ToPriority(p));
    ReadyToCommit(w, f, AGENT, TICKET, ToPriority(p), 0, 0);
  }

  lemma StatusWhole(w: World, f: nat, t: Row, s: Status)
    requires f !in w.flights && Has(w, t) && Edge(t.status, s) && Storable(t)
    ensures var w' := Exec(w, Whole(f, ToStatus(s)));
            && TICKET in w'.db.tickets
            && var t' := w'.db.tickets[TICKET];
            && t'.status == s && Storable(t') && t'.priority == t.priority
            && w'.db.tickets == w.db.tickets[TICKET := t']
            && w'.db.history == w.db.history + [HistoryRow(TICKET, AGENT, t.status, s, w.ticks, w.ticks + 1)]
            && w'.flights == w.flights && w'.ticks == w.ticks + 2 && w'.now == w.now
            && t' == ApplyStatus(t, ToStatus(s), w.now).value
  {
    AloneIsUpdate(w, f, AGENT, TICKET, ToStatus(s), 0, 0);
  }

  lemma PriorityWhole(w: World, f: nat, t: Row, p: Priority)
    requires f !in w.flights && Has(w, t) && Storable(t) && !p.UnknownPriority?
    ensures var w' := Exec(w, Whole(f, ToPriority(p)));
            && Has(w', ApplyRest(t, ToPriority(p), w.now))
            && w'.db.audits == w.db.audits + [AuditRow(TICKET, Some(AGENT), TicketUpdated,
                                                       Some(ApplyRest(t, ToPriority(p), w.now)), w.ticks)]
            && w'.flights == w.flights && w'.ticks == w.ticks + 1 && w'.now == w.now
  {
    AloneIsUpdate(w, f, AGENT, TICKET, ToPriority(p), 0, 0);
  }

  lemma JoinThree(w: World, a: seq<Action>, b: seq<Action>, c: seq<Action>)
    ensures Exec(w, a + b + c) == Exec(Exec(Exec(w, a), b), c)
  {
    ExecJoin(w, a + b, c);
    ExecJoin(w, a, b);
  }

  lemma JoinFour(w: World, a: seq<Action>, b: seq<Action>, c: seq<Action>, d: seq<Action>)
    ensures Exec(w, a + b + c + d) == Exec(Exec(Exec(Exec(w, a), b), c), d)
  {
    ExecJoin(w, a + b + c, d);
    JoinThree(w, a, b, c);
  }

  // ---------------------------------------------------------------- pending without a pause

  /** A ticket is created, set pending and given a new priority: it is pending with its clock
      running. */
  lemma PendingUnpaused(start: Time)
    ensures var run := Creation(Low) + Whole(0, ToStatus(Pending)) + Whole(0, ToPriority(High));
            var w := Exec(Empty(start), run);
            && TICKET in w.db.tickets
            && w.db.tickets[TICKET].status == Pending && w.db.tickets[TICKET].pausedAt.None?
  {
    hide Exec, Whole, Creation;
    var w0, t0 := Empty(start), NewRow(CUSTOMER, Some(Low), start);
    JoinThree(w0, Creation(Low), Whole(0, ToStatus(Pending)), Whole(0, ToPriority(High)));
    Created(start, Low);
    var w1 := Exec(w0, Creation(Low));
    StatusWhole(w1, 0, t0, Pending);
    var w2 := Exec(w1, Whole(0, ToStatus(Pending)));
    PriorityWhole(w2, 0, w2.db.tickets[TICKET], High);
  }

  // ---------------------------------------------------------------- an escalation that lowers

  function EscalationLook(f: nat): seq<Action> {
    [Action(0, Look(f, AGENT, TICKET))]
  }

  function EscalationRest(f: nat): seq<Action> {
    [Action(0, BeginEscalated(f))] + Body(f, 0, 0) + Commit(f)
  }

  lemma LookExec(w: World, f: nat)
    requires f !in w.flights && TICKET in w.db.tickets
    ensures Exec(w, EscalationLook(f))
            == w.(flights := w.flights[f := Escalating(AGENT, TICKET, EscalationPatch(w.db.tickets[TICKET].priority))])
  {
    var a := EscalationLook(f)[0];
    assert EscalationLook(f) == [a] + [];
    ExecCons(w, a, []);
  }

  lemma RestExec(w: World, f: nat, t: Row, p: Patch)
    requires w.flights == map[f := Escalating(AGENT, TICKET, p)] && Has(w, t) && p.status.None? && Storable(t)
    requires Storable(ApplyRest(t, p, w.now))
    ensures Has(Exec(w, EscalationRest(f)), WriteColumns(t, ApplyRest(t, p, w.now)))
  {
    var begin := Action(0, BeginEscalated(f));
    var u := Begun(AGENT, TICKET, p, w.ticks);
    var begun := w.(ticks := w.ticks + 1, flights := w.flights[f := u]);
    assert Do(w, begin) == begun;
    assert EscalationRest(f) == [begin] + (Body(f, 0, 0) + Commit(f));
    ExecCons(w, begin, Body(f, 0, 0) + Commit(f));
    ExecJoin(begun, Body(f, 0, 0), Commit(f));
    BodyExec(begun, f, 0, 0);
    CommitExec(Exec(begun, Body(f, 0, 0)), f);
  }

  /** An escalation reads a low ticket; before it goes on, an update makes the ticket urgent:
      the escalation then lowers it to medium. */
  lemma EscalationLowers(start: Time)
    ensures var first := Creation(Low) + EscalationLook(0) + Whole(1, ToPriority(Urgent));
            var w, w' := Exec(Empty(start), first), Exec(Empty(start), first + EscalationRest(0));
            && TICKET in w.db.tickets && w.db.tickets[TICKET].priority == Urgent
            && TICKET in w'.db.tickets && w'.db.tickets[TICKET].priority == Medium
  {
    hide Exec, Whole, Creation, EscalationLook, EscalationRest;
    var w0, t0 := Empty(start), NewRow(CUSTOMER, Some(Low), start);
    JoinThree(w0, Creation(Low), EscalationLook(0), Whole(1, ToPriority(Urgent)));
    JoinFour(w0, Creation(Low), EscalationLook(0), Whole(1, ToPriority(Urgent)), EscalationRest(0));
    Created(start, Low);
    var w1 := Exec(w0, Creation(Low));
    LookExec(w1, 0);
    var w2 := Exec(w1, EscalationLook(0));
    PriorityWhole(w2, 1, t0, Urgent);
    var w3 := Exec(w2, Whole(1, ToPriority(Urgent)));
    RestExec(w3, 0, w3.db.tickets[TICKET], EscalationPatch(Low));
  }

  // ---------------------------------------------------------------- a closed ticket reopened

  /** A closing and a reopening request, both read and patched before either commits. */
  function TwoReads(f: nat, g: nat, actor: Id, id: Id): seq<Action> {
    Until(f, actor, id, ToStatus(Closed)) + Until(g, actor, id, ToStatus(Open))
  }

  lemma TwoReadsExec(w: World, f: nat, g: nat, actor: Id, id: Id)
    requires Safe(w) && id in w.db.tickets && w.db.tickets[id].status == Resolved
    requires f != g && f !in w.flights && g !in w.flights
    ensures var w' := Exec(w, TwoReads(f, g, actor, id));
            && Safe(w') && w'.db == w.db && Writes(w', f) && Writes(w', g)
            && var u, v := w'.flights[f], w'.flights[g];
            && u.id == id && u.base.status == Resolved && u.copy.status == Closed
            && v.id == id && v.base.status == Resolved && v.copy.status == Open
            && u.started == w.ticks && u.inserted == w.ticks + 1
  {
    ExecSafe(w, TwoReads(f, g, actor, id));
    hide Exec, Until;
    ExecJoin(w, Until(f, actor, id, ToStatus(Closed)), Until(g, actor, id, ToStatus(Open)));
    StatusUntil(w, f, actor, id, Closed);
    StatusUntil(Exec(w, Until(f, actor, id, ToStatus(Closed))), g, actor, id, Open);
  }

  /** From every sound state with a resolved ticket: two overlapping updates, one closing and one
      reopening it, both commit; the closed ticket is open again, and its history is no path any
      more, in either order. */
  lemma ClosedCanBeReopened(w: World, id: Id, f: nat, g: nat, actor: Id, order: Order)
    requires Safe(w) && HasPath(w, id, order) && id in w.db.tickets && w.db.tickets[id].status == Resolved
    requires f != g && f !in w.flights && g !in w.flights
    ensures
      var run := TwoReads(f, g, actor, id) + Commit(f);
      var closed, reopened := Exec(w, run), Exec(w, run + Commit(g));
      && id in closed.db.tickets && closed.db.tickets[id].status == Closed && HasPath(closed, id, order)
      && id in reopened.db.tickets && reopened.db.tickets[id].status == Open && !HasPath(reopened, id, order)
  {
    hide Exec, Chain, IsPath;
    var w2 := Exec(w, TwoReads(f, g, actor, id));
    TwoReadsExec(w, f, g, actor, id);
    ExecJoin(w, TwoReads(f, g, actor, id), Commit(f));
    ExecJoin(w, TwoReads(f, g, actor, id) + Commit(f), Commit(g));
    CommitExec(w2, f);
    CommitExec(DoWrite(w2, f), g);
    assert HasPath(w2, id, order);
    WriteKeepsPathIff(w2, f, order);
    WriteSafe(w2, f);
    WriteKeepsPathIff(DoWrite(w2, f), g, order);
  }

  lemma ChainOfOne(h: HistoryRow, order: Order)
    ensures Chain([h], h.ticket, order) == [h]
    ensures IsPath([h], h.from, h.to) <==> Edge(h.from, h.to)
  {
    assert [h][..0] == [];
  }

  lemma ChainOfTwo(g: HistoryRow, h: HistoryRow, order: Order)
    requires g.ticket == h.ticket && Key(g, order) <= Key(h, order)
    ensures Chain([g, h], g.ticket, order) == [g, h]
    ensures IsPath([g, h], g.from, h.to) <==> Edge(g.from, g.to) && Edge(h.from, h.to) && g.to == h.from
  {
    assert [g, h][..1] == [g];
    ChainOfOne(g, order);
    if Edge(g.from, g.to) {
      PathEndsOnce([g], g.from, g.to, h.from);
    }
  }

  function CreatedAndResolved(): seq<Action> {
    Creation(Low) + Whole(0, ToStatus(Resolved))
  }

  lemma ResolvedState(start: Time, order: Order)
    ensures var w := Exec(Empty(start), CreatedAndResolved());
            && Safe(w) && w.flights == map[] && HasPath(w, TICKET, order)
            && TICKET in w.db.tickets && w.db.tickets[TICKET].status == Resolved
  {
    var w0 := Empty(start);
    ExecSafe(w0, CreatedAndResolved());
    hide Exec, Whole, Creation, Chain, IsPath, Safe;
    Created(start, Low);
    ExecJoin(w0, Creation(Low), Whole(0, ToStatus(Resolved)));
    StatusWhole(Exec(w0, Creation(Low)), 0, NewRow(CUSTOMER, Some(Low), start), Resolved);
    ChainOfOne(HistoryRow(TICKET, AGENT, Open, Resolved, 1, 2), order);
  }

  /** Such a state is reached: a ticket is created and resolved. */
  lemma ClosedReopened(start: Time, order: Order)
    ensures
      var run := CreatedAndResolved() + TwoReads(0, 1, AGENT, TICKET) + Commit(0);
      var closed, reopened := Exec(Empty(start), run), Exec(Empty(start), run + Commit(1));
      && TICKET in closed.db.tickets && closed.db.tickets[TICKET].status == Closed
      && TICKET in reopened.db.tickets && reopened.db.tickets[TICKET].status == Open
      && !HasPath(reopened, TICKET, order)
  {
    hide *;
    var w0, first, requests := Empty(start), CreatedAndResolved(), TwoReads(0, 1, AGENT, TICKET);
    ResolvedState(start, order);
    var w := Exec(w0, first);
    ClosedCanBeReopened(w, TICKET, 0, 1, AGENT, order);
    JoinThree(w0, first, requests, Commit(0));
    JoinFour(w0, first, requests, Commit(0), Commit(1));
    ExecJoin(w, requests, Commit(0));
    JoinThree(w, requests, Commit(0), Commit(1));
  }

  // ---------------------------------------------------------------- an edge recorded too early

  function ResolvedAroundTwo(): seq<Action> {
    Creation(Low) + Until(0, AGENT, TICKET, ToStatus(Resolved)) + Whole(1, ToStatus(Pending)) + Whole(1, ToStatus(Open))
  }

  lemma AroundTwo(start: Time)
    ensures var w := Exec(Empty(start), ResolvedAroundTwo());
            && TICKET in w.db.tickets && w.db.tickets[TICKET].status == Open
            && w.db.history == [HistoryRow(TICKET, AGENT, Open, Pending, 3, 4), HistoryRow(TICKET, AGENT, Pending, Open, 5, 6)]
            && Writes(w, 0)
            && var u := w.flights[0];
            && u.id == TICKET && u.base.status == Open && u.patch == ToStatus(Resolved)
            && u.started == 1 && u.inserted == 2 && u.copy.status == Resolved
  {
    hide Exec, Whole, Creation, Until;
    var w0, t0 := Empty(start), NewRow(CUSTOMER, Some(Low), start);
    JoinFour(w0, Creation(Low), Until(0, AGENT, TICKET, ToStatus(Resolved)), Whole(1, ToStatus(Pending)), Whole(1, ToStatus(Open)));
    Created(start, Low);
    var w1 := Exec(w0, Creation(Low));
    StatusUntil(w1, 0, AGENT, TICKET, Resolved);
    var w2 := Exec(w1, Until(0, AGENT, TICKET, ToStatus(Resolved)));
    StatusWhole(w2, 1, t0, Pending);
    var w3 := Exec(w2, Whole(1, ToStatus(Pending)));
    StatusWhole(w3, 1, w3.db.tickets[TICKET], Open);
  }

  lemma CommitIsCurrent(w: World, f: nat)
    ensures AllWrites(w, Commit(f), Current()) <==> CurrentWrite(w, f)
  {
    assert Wait(w, 0) == w;
  }

  lemma AroundTwoIsCurrent(start: Time)
    ensures AllWrites(Empty(start), ResolvedAroundTwo(), Current())
  {
    var w0, t0 := Empty(start), NewRow(CUSTOMER, Some(Low), start);
    var a, b, c, d := Creation(Low), Until(0, AGENT, TICKET, ToStatus(Resolved)), Whole(1, ToStatus(Pending)), Whole(1, ToStatus(Open));
    QuietRun(w0, a, Current());
    Created(start, Low);
    var w1 := Exec(w0, a);
    QuietRun(w1, b, Current());
    StatusUntil(w1, 0, AGENT, TICKET, Resolved);
    hide Exec, AllWrites, Whole, Creation, Until;
    var w2 := Exec(w1, b);
    StatusWhole(w2, 1, t0, Pending);
    AloneIsCurrent(w2, 1, AGENT, TICKET, ToStatus(Pending), 0, 0);
    var w3 := Exec(w2, c);
    AloneIsCurrent(w3, 1, AGENT, TICKET, ToStatus(Open), 0, 0);
    ExecJoin(w0, a, b);
    JoinThree(w0, a, b, c);
    WritesJoin(w0, a, b, Current());
    WritesJoin(w0, a + b, c, Current());
    WritesJoin(w0, a + b + c, d, Current());
  }

  /** An update records open to resolved; before it commits, two whole updates set the ticket
      pending and open again.  Every commit finds the status it read, and yet the rows are no
      path in either order, because the first recorded edge is committed last. */
  lemma CurrentYetNoPath(start: Time, order: Order)
    ensures var run := ResolvedAroundTwo();
            var w, w' := Exec(Empty(start), run), Exec(Empty(start), run + Commit(0));
            && AllWrites(Empty(start), run + Commit(0), Current())
            && HasPath(w, TICKET, order)
            && TICKET in w'.db.tickets && w'.db.tickets[TICKET].status == Resolved
            && !HasPath(w', TICKET, order)
  {
    hide Exec, AllWrites, Chain, IsPath;
    var w := Exec(Empty(start), ResolvedAroundTwo());
    AroundTwo(start);
    AroundTwoIsCurrent(start);
    WritesJoin(Empty(start), ResolvedAroundTwo(), Commit(0), Current());
    CommitIsCurrent(w, 0);
    ExecSafe(Empty(start), ResolvedAroundTwo());
    ExecJoin(Empty(start), ResolvedAroundTwo(), Commit(0));
    CommitExec(w, 0);
    ChainOfTwo(w.db.history[0], w.db.history[1], order);
    WriteKeepsPathIff(w, 0, order);
    assert w.db.history[0] in w.db.history;
  }

  // ---------------------------------------------------------------- a timeline that lags

  function PriorityAroundOne(): seq<Action> {
    Creation(Low) + Until(0, AGENT, TICKET, ToPriority(High)) + Whole(1, ToPriority(Urgent))
  }

  /** Two updates start, the second commits first: the row then holds what the first wrote while
      the timeline still ends with the second. */
  lemma TimelineLags(start: Time)
    ensures var w := Exec(Empty(start), PriorityAroundOne() + Commit(0));
            && TICKET in w.db.tickets && w.db.tickets[TICKET].priority == High
            && var e := LastEntry(w.db.audits, TICKET);
            && e.Some? && e.value.payload.Some? && e.value.payload.value.priority == Urgent
            && !TimelineAgrees(w, TICKET)
  {
    hide Exec, Whole, Creation, Until, LastEntry;
    var w0, t0 := Empty(start), NewRow(CUSTOMER, Some(Low), start);
    ExecJoin(w0, PriorityAroundOne(), Commit(0));
    JoinThree(w0, Creation(Low), Until(0, AGENT, TICKET, ToPriority(High)), Whole(1, ToPriority(Urgent)));
    Created(start, Low);
    var w1 := Exec(w0, Creation(Low));
    PriorityUntil(w1, 0, t0, High);
    var w2 := Exec(w1, Until(0, AGENT, TICKET, ToPriority(High)));
    PriorityWhole(w2, 1, t0, Urgent);
    var w3 := Exec(w2, Whole(1, ToPriority(Urgent)));
    CommitExec(w3, 0);
    var last, late := w3.db.audits[1], AuditRow(TICKET, Some(AGENT), TicketUpdated, Some(w3.flights[0].copy), 1);
    assert w3.db.audits == [w1.db.audits[0]] + [last];
    LastEntryAppend([w1.db.audits[0]], last, TICKET);
    LastEntryAppend(w3.db.audits, late, TICKET);
    assert last in w3.db.audits;
  }
}
