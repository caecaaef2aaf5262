/** The status history of a ticket, read in the order of either column that orders its rows:
    `created_at`, the beginning of the recording transaction, or the id, the instant of the
    insert.  Neither is the order of commits. */
module TicketHistory {
  import opened Entity
  import opened Lifecycle
  import opened Postgres
  import opened TicketProtocol

  datatype Order = ByCreated | ById

  function Key(h: HistoryRow, order: Order): Stamp {
    if order.ByCreated? then h.created else h.inserted
  }

  /** Puts a row behind all rows that are not stamped later. */
  function Place(rows: seq<HistoryRow>, h: HistoryRow, order: Order): seq<HistoryRow> {
    if rows == [] || Key(rows[|rows| - 1], order) <= Key(h, order) then rows + [h]
    else Place(rows[..|rows| - 1], h, order) + [rows[|rows| - 1]]
  }

  /** The rows of one ticket in the order of a column. */
  function Chain(history: seq<HistoryRow>, id: Id, order: Order): seq<HistoryRow> {
    if history == [] then []
    else
      var last, earlier := history[|history| - 1], Chain(history[..|history| - 1], id, order);
      if last.ticket == id then Place(earlier, last, order) else earlier
  }

  predicate Ordered(rows: seq<HistoryRow>, order: Order) {
    forall i, j :: 0 <= i < j < |rows| ==> Key(rows[i], order) <= Key(rows[j], order)
  }

  lemma {:induction false} PlaceKeepsAll(rows: seq<HistoryRow>, h: HistoryRow, order: Order)
    ensures multiset(Place(rows, h, order)) == multiset(rows) + multiset{h}
  {
    if rows != [] && Key(rows[|rows| - 1], order) > Key(h, order) {
      PlaceKeepsAll(rows[..|rows| - 1], h, order);
      assert rows == rows[..|rows| - 1] + [rows[|rows| - 1]];
    }
  }

  lemma {:induction false} PlaceSorts(rows: seq<HistoryRow>, h: HistoryRow, order: Order)
    requires Ordered(rows, order)
    ensures Ordered(Place(rows, h, order), order)
  {
    if rows != [] && Key(rows[|rows| - 1], order) > Key(h, order) {
      var init, last := rows[..|rows| - 1], rows[|rows| - 1];
      PlaceSorts(init, h, order);
      PlaceKeepsAll(init, h, order);
      var placed := Place(init, h, order);
      hide Place;
      forall i | 0 <= i < |placed| ensures Key(placed[i], order) <= Key(last, order) {
        assert placed[i] in multiset(placed);
        assert placed[i] == h || placed[i] in init;
      }
    }
  }

  /** The chain is the ticket's rows, each as often as the table holds it, sorted by the column. */
  lemma {:induction false} ChainSorts(history: seq<HistoryRow>, id: Id, order: Order, h: HistoryRow)
    ensures Ordered(Chain(history, id, order), order)
    ensures multiset(Chain(history, id, order))[h] == if h.ticket == id then multiset(history)[h] else 0
  {
    if history != [] {
      var init, last := history[..|history| - 1], history[|history| - 1];
      ChainSorts(init, id, order, h);
      PlaceSorts(Chain(init, id, order), last, order);
      PlaceKeepsAll(Chain(init, id, order), last, order);
      assert history == init + [last];
    }
  }

  /** No row of the ticket is stamped later than this instant. */
  predicate NoneLater(history: seq<HistoryRow>, id: Id, order: Order, at: Stamp) {
    forall h <- history :: h.ticket == id ==> Key(h, order) <= at
  }

  lemma InChain(history: seq<HistoryRow>, id: Id, order: Order, h: HistoryRow)
    ensures Ordered(Chain(history, id, order), order)
    ensures h in Chain(history, id, order) <==> h in history && h.ticket == id
  {
    ChainSorts(history, id, order, h);
    assert h in Chain(history, id, order) <==> multiset(Chain(history, id, order))[h] > 0;
    assert h in history <==> multiset(history)[h] > 0;
  }

  lemma LastOfChain(history: seq<HistoryRow>, id: Id, order: Order, at: Stamp)
    ensures var chain := Chain(history, id, order);
            NoneLater(history, id, order, at) <==> chain == [] || Key(chain[|chain| - 1], order) <= at
  {
    hide Chain, Key;
    var chain := Chain(history, id, order);
    forall h <- history | h.ticket == id ensures chain != [] && Key(h, order) <= Key(chain[|chain| - 1], order) {
      InChain(history, id, order, h);
      var i :| 0 <= i < |chain| && chain[i] == h;
    }
    if chain != [] {
      InChain(history, id, order, chain[|chain| - 1]);
    }
  }

  lemma ChainAppend(history: seq<HistoryRow>, id: Id, actor: Id, edges: seq<(Status, Status)>,
                    created: Stamp, inserted: Stamp, of: Id, order: Order)
    requires |edges| <= 1
    ensures var chain := Chain(history, of, order);
            Chain(history + HistoryRows(id, actor, edges, created, inserted), of, order)
            == if edges == [] || id != of then chain
               else Place(chain, HistoryRow(id, actor, edges[0].0, edges[0].1, created, inserted), order)
  {
    var rows := HistoryRows(id, actor, edges, created, inserted);
    if edges == [] {
      assert history + rows == history;
    } else {
      assert (history + rows)[..|history|] == history;
    }
  }

  // ---------------------------------------------------------------- paths

  /** A connected walk along allowed transitions; an allowed transition never stays in place. */
  predicate IsPath(rows: seq<HistoryRow>, from: Status, to: Status) {
    if rows == [] then from == to
    else
      var last := rows[|rows| - 1];
      && last.to == to
      && Edge(last.from, last.to)
      && IsPath(rows[..|rows| - 1], from, last.from)
  }

  lemma PathAppend(rows: seq<HistoryRow>, from: Status, h: HistoryRow, to: Status)
    ensures IsPath(rows + [h], from, to) <==> h.to == to && Edge(h.from, h.to) && IsPath(rows, from, h.from)
  {
    assert (rows + [h])[..|rows|] == rows;
  }

  lemma PathEndsOnce(rows: seq<HistoryRow>, from: Status, a: Status, b: Status)
    requires IsPath(rows, from, a)
    ensures IsPath(rows, from, b) <==> a == b
  {
  }

  /** A row that moves, put anywhere into a path, leaves no path between the same ends. */
  lemma {:induction false} OneMoreBreaks(rows: seq<HistoryRow>, h: HistoryRow, order: Order, from: Status, to: Status)
    requires IsPath(rows, from, to) && h.from != h.to
    ensures !IsPath(Place(rows, h, order), from, to)
  {
    hide Key, IsPath;
    if rows == [] || Key(rows[|rows| - 1], order) <= Key(h, order) {
      PathAppend(rows, from, h, to);
      PathEndsOnce(rows, from, to, h.from);
    } else {
      var init, last := rows[..|rows| - 1], rows[|rows| - 1];
      InnerPath(rows, from, to);
      OneMoreBreaks(init, h, order, from, last.from);
      PathAppend(Place(init, h, order), from, last, to);
    }
  }

  lemma InnerPath(rows: seq<HistoryRow>, from: Status, to: Status)
    requires rows != [] && IsPath(rows, from, to)
    ensures IsPath(rows[..|rows| - 1], from, rows[|rows| - 1].from)
  {
  }

  /** A path with one more row is a path to the row's end if and only if the row continues the
      path from its end and is placed last. */
  lemma PlaceKeepsPathIff(rows: seq<HistoryRow>, h: HistoryRow, order: Order, from: Status, to: Status)
    requires IsPath(rows, from, to) && Edge(h.from, h.to)
    ensures IsPath(Place(rows, h, order), from, h.to)
            <==> h.from == to && (rows == [] || Key(rows[|rows| - 1], order) <= Key(h, order))
  {
    hide IsPath, Key;
    PathEndsOnce(rows, from, to, h.from);
    if rows == [] || Key(rows[|rows| - 1], order) <= Key(h, order) {
      PathAppend(rows, from, h, h.to);
    } else {
      var init, last := rows[..|rows| - 1], rows[|rows| - 1];
      InnerPath(rows, from, to);
      OneMoreBreaks(init, h, order, from, last.from);
      PathAppend(Place(init, h, order), from, last, h.to);
    }
  }

  predicate HasPath(w: World, id: Id, order: Order) {
    if id in w.db.tickets then IsPath(Chain(w.db.history, id, order), Open, w.db.tickets[id].status)
    else Chain(w.db.history, id, order) == []
  }

  // ---------------------------------------------------------------- which commits keep the path

  /** The status that the update read is still the stored one when it commits. */
  predicate CurrentWrite(w: World, f: nat) {
    Writes(w, f) ==> w.flights[f].base.status == w.db.tickets[w.flights[f].id].status
  }

  /** If the update records an edge, no edge of the ticket is stamped later than its own. */
  predicate LatestEdge(w: World, f: nat, order: Order) {
    Writes(w, f) ==>
      var u := w.flights[f];
      NewEdges(u.base.status, u.patch) != [] ==>
        NoneLater(w.db.history, u.id, order, if order.ByCreated? then u.started else u.inserted)
  }

  /** A commit keeps the history a path if and only if the status it read is still stored and
      its edge, if it records one, is the latest. */
  lemma WriteKeepsPathIff(w: World, f: nat, order: Order)
    requires Safe(w) && Writes(w, f)
    requires HasPath(w, w.flights[f].id, order)
    ensures HasPath(DoWrite(w, f), w.flights[f].id, order) <==> CurrentWrite(w, f) && LatestEdge(w, f, order)
  {
    var u := w.flights[f];
    assert FlightSound(w, u);
    var chain, stored := Chain(w.db.history, u.id, order), w.db.tickets[u.id].status;
    var added := NewEdges(u.base.status, u.patch);
    ChainAppend(w.db.history, u.id, u.actor, added, u.started, u.inserted, u.id, order);
    if added == [] {
      PathEndsOnce(chain, Open, stored, u.base.status);
    } else {
      var h := HistoryRow(u.id, u.actor, added[0].0, added[0].1, u.started, u.inserted);
      LastOfChain(w.db.history, u.id, order, Key(h, order));
      PlaceKeepsPathIff(chain, h, order, Open, stored);
    }
  }

  /** Only commits touch the history or move the status of a stored ticket. */
  lemma OtherStepsKeep(w: World, s: Step, id: Id)
    requires !s.Write?
    ensures Take(w, s).db.history == w.db.history
    ensures id in w.db.tickets ==>
              id in Take(w, s).db.tickets && Take(w, s).db.tickets[id].status == w.db.tickets[id].status
    ensures id !in w.db.tickets && id in Take(w, s).db.tickets ==> Take(w, s).db.tickets[id].status == Open
  {
  }

  /** A commit that fits the history of ticket id; every other commit leaves it alone. */
  predicate Fits(w: World, f: nat, id: Id, order: Order) {
    Writes(w, f) && w.flights[f].id == id ==> CurrentWrite(w, f) && LatestEdge(w, f, order)
  }

  function PathOf(id: Id, order: Order): World -> bool {
    (w: World) => HasPath(w, id, order)
  }

  function FitsPath(id: Id, order: Order): (World, nat) -> bool {
    (w: World, f: nat) => Fits(w, f, id, order)
  }

  lemma TakeKeepsPathIff(w: World, s: Step, id: Id, order: Order)
    requires Safe(w) && HasPath(w, id, order)
    ensures HasPath(Take(w, s), id, order) <==> (s.Write? ==> Fits(w, s.f, id, order))
  {
    if !s.Write? {
      OtherStepsKeep(w, s, id);
    } else if Writes(w, s.f) {
      var u := w.flights[s.f];
      if u.id == id {
        WriteKeepsPathIff(w, s.f, order);
      } else {
        ChainAppend(w.db.history, u.id, u.actor, NewEdges(u.base.status, u.patch), u.started, u.inserted, id, order);
      }
    }
  }

  /** The history of a ticket is a path at every moment of a run if and only if every commit on
      that ticket finds the status it read and records the latest edge. */
  lemma ExecKeepsPathIff(w: World, run: seq<Action>, id: Id, order: Order)
    requires Safe(w) && HasPath(w, id, order)
    ensures Throughout(w, run, PathOf(id, order)) <==> AllWrites(w, run, FitsPath(id, order))
  {
    hide HasPath, Fits, Take, Safe;
    forall v: World, d: nat | HasPath(v, id, order) ensures HasPath(Wait(v, d), id, order) {
      PathWaits(v, d, id, order);
    }
    forall v: World, s: Step | Safe(v) && HasPath(v, id, order)
      ensures PathOf(id, order)(Take(v, s)) <==> (s.Write? ==> FitsPath(id, order)(v, s.f))
    {
      TakeKeepsPathIff(v, s, id, order);
    }
    ThroughoutIff(w, run, PathOf(id, order), FitsPath(id, order));
  }

  lemma PathWaits(w: World, d: nat, id: Id, order: Order)
    requires HasPath(w, id, order)
    ensures HasPath(Wait(w, d), id, order)
  {
  }

  lemma LastEdge(rows: seq<HistoryRow>, from: Status, to: Status)
    requires IsPath(rows, from, to) && to == Closed && from != Closed
    ensures rows != [] && rows[|rows| - 1].from == Resolved && rows[|rows| - 1].to == Closed
  {
  }

  /** When every commit on a ticket fits, its history rows form a connected walk of allowed
      transitions from open to its status, and a closed ticket got there from resolved. */
  lemma HistoryIsPath(start: Time, run: seq<Action>, id: Id, order: Order)
    requires AllWrites(Empty(start), run, FitsPath(id, order))
    requires id in Exec(Empty(start), run).db.tickets
    ensures var w := Exec(Empty(start), run);
            var rows := Chain(w.db.history, id, order);
            && IsPath(rows, Open, w.db.tickets[id].status)
            && (w.db.tickets[id].status == Closed ==>
                  rows != [] && rows[|rows| - 1].from == Resolved && rows[|rows| - 1].to == Closed)
  {
    ExecKeepsPathIff(Empty(start), run, id, order);
    ThroughoutEnds(Empty(start), run, PathOf(id, order));
    var w := Exec(Empty(start), run);
    assert HasPath(w, id, order);
    if w.db.tickets[id].status == Closed {
      LastEdge(Chain(w.db.history, id, order), Open, Closed);
    }
  }

  // ---------------------------------------------------------------- closed is terminal

  function ClosedIn(id: Id): World -> bool {
    (w: World) => id in w.db.tickets && w.db.tickets[id].status == Closed
  }

  /** The update read the ticket closed or asks for closed. */
  function KeepsClosed(id: Id): (World, nat) -> bool {
    (w: World, f: nat) =>
      Writes(w, f) && w.flights[f].id == id ==>
        w.flights[f].base.status == Closed || w.flights[f].patch.status == Some(Closed)
  }

  lemma TakeKeepsClosedIff(w: World, s: Step, id: Id)
    requires Safe(w) && ClosedIn(id)(w)
    ensures ClosedIn(id)(Take(w, s)) <==> (s.Write? ==> KeepsClosed(id)(w, s.f))
  {
    if !s.Write? {
      OtherStepsKeep(w, s, id);
    } else if Writes(w, s.f) {
      assert FlightSound(w, w.flights[s.f]);
    }
  }

  /** A closed ticket stays closed throughout a run if and only if every update of it that
      commits had read it closed or asks for closed. */
  lemma ClosedIsTerminalIff(w: World, run: seq<Action>, id: Id)
    requires Safe(w) && ClosedIn(id)(w)
    ensures Throughout(w, run, ClosedIn(id)) <==> AllWrites(w, run, KeepsClosed(id))
  {
    hide Take, Safe, Writes;
    forall v: World, s: Step | Safe(v) && ClosedIn(id)(v)
      ensures ClosedIn(id)(Take(v, s)) <==> (s.Write? ==> KeepsClosed(id)(v, s.f))
    {
      TakeKeepsClosedIff(v, s, id);
    }
    ThroughoutIff(w, run, ClosedIn(id), KeepsClosed(id));
  }

  function Current(): (World, nat) -> bool {
    (w: World, f: nat) => CurrentWrite(w, f)
  }

  lemma CurrentKeepsClosed(w: World, s: Step, id: Id)
    requires Safe(w) && ClosedIn(id)(w) && (s.Write? ==> CurrentWrite(w, s.f))
    ensures ClosedIn(id)(Take(w, s))
  {
    TakeKeepsClosedIff(w, s, id);
  }

  /** In particular closed is terminal as long as no commit is overtaken in the status. */
  lemma {:induction false} ClosedIsTerminal(w: World, run: seq<Action>, id: Id)
    requires Safe(w) && ClosedIn(id)(w) && AllWrites(w, run, Current())
    ensures Throughout(w, run, ClosedIn(id))
    decreases |run|
  {
    hide Take, Safe;
    if run != [] {
      var w1 := Wait(w, run[0].wait);
      WaitSafe(w, run[0].wait);
      TakeSafe(w1, run[0].step);
      CurrentKeepsClosed(w1, run[0].step, id);
      ClosedIsTerminal(Do(w, run[0]), run[1..], id);
    }
  }
}
