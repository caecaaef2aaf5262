/** The attachment cap is exact: k concurrent uploads can bring a ticket to 9 + k rows. */
module AttachmentCap {
  import opened Bytes
  import opened Entity
  import opened Attachments

  function Range(n: nat, c: nat): (r: set<nat>)
    requires n <= c
    ensures forall u: nat :: u in r <==> n <= u < c
    ensures |r| == c - n
  {
    if n == c then {} else Range(n, c - 1) + {c - 1}
  }

  function RowsUpTo(t: Id, n: nat): (rows: seq<AttachmentRow>)
    ensures |rows| == n && forall i :: 0 <= i < n ==> rows[i] == AttachmentRow(t, i, 1)
  {
    if n == 0 then [] else RowsUpTo(t, n - 1) + [AttachmentRow(t, n - 1, 1)]
  }

  function FilesUpTo(p: nat): map<Key, seq<Byte>> {
    map i | i in Range(0, p) :: [0]
  }

  function UploadsFor(t: Id, n: nat, p: nat, c: nat): map<nat, Upload>
    requires n <= p <= c
  {
    map u | u in Range(n, c) :: if u < p then Stored(t, u, 1) else Checked(t, [0], 1)
  }

  /** Uploads 0 to n-1 are rows, n to p-1 are stored, p to c-1 are checked. */
  function Stage(t: Id, n: nat, p: nat, c: nat): World
    requires n <= p <= c
  {
    World(RowsUpTo(t, n), FilesUpTo(p), UploadsFor(t, n, p, c))
  }

  lemma StageInFlight(t: Id, n: nat, p: nat, c: nat)
    requires n <= p <= c
    ensures |InFlight(Stage(t, n, p, c), t)| == c - n
  {
    assert InFlight(Stage(t, n, p, c), t) == Range(n, c);
  }

  lemma OneMoreRow(t: Id, n: nat)
    ensures RowsUpTo(t, n + 1) == RowsUpTo(t, n) + [AttachmentRow(t, n, 1)]
    ensures CountFor(RowsUpTo(t, 0), t) == 0
  {
  }

  lemma {:induction false} StageCount(t: Id, n: nat)
    ensures CountFor(RowsUpTo(t, n), t) == n
  {
    hide CountFor, RowsUpTo;
    if n == 0 {
      OneMoreRow(t, 0);
    } else {
      OneMoreRow(t, n - 1);
      StageCount(t, n - 1);
      CountAppend(RowsUpTo(t, n - 1), AttachmentRow(t, n - 1, 1), t);
    }
  }

  lemma CheckStage(t: Id, n: nat, p: nat, c: nat)
    requires n <= p <= c && n < MAX_ROWS
    ensures Do(Stage(t, n, p, c), Check(c, t, [0], 1)) == Stage(t, n, p, c + 1)
  {
    StageCount(t, n);
    UploadChecked(t, n, p, c);
    hide UploadsFor, RowsUpTo, FilesUpTo;
  }

  lemma UploadChecked(t: Id, n: nat, p: nat, c: nat)
    requires n <= p <= c
    ensures c !in UploadsFor(t, n, p, c)
    ensures UploadsFor(t, n, p, c)[c := Checked(t, [0], 1)] == UploadsFor(t, n, p, c + 1)
  {
  }

  lemma PutStage(t: Id, n: nat, p: nat, c: nat)
    requires n <= p < c
    ensures Do(Stage(t, n, p, c), Put(p, p, Disk(true, None))) == Stage(t, n, p + 1, c)
  {
    UploadStored(t, n, p, c);
    FileStored(p);
    hide UploadsFor, RowsUpTo, FilesUpTo;
  }

  lemma UploadStored(t: Id, n: nat, p: nat, c: nat)
    requires n <= p < c
    ensures p in UploadsFor(t, n, p, c) && UploadsFor(t, n, p, c)[p] == Checked(t, [0], 1)
    ensures UploadsFor(t, n, p, c)[p := Stored(t, p, 1)] == UploadsFor(t, n, p + 1, c)
  {
  }

  lemma FileStored(p: nat)
    ensures p !in FilesUpTo(p) && FilesUpTo(p)[p := [0]] == FilesUpTo(p + 1)
  {
  }

  lemma InsertStage(t: Id, n: nat, p: nat, c: nat)
    requires n < p <= c
    ensures Do(Stage(t, n, p, c), Insert(n, true)) == Stage(t, n + 1, p, c)
  {
    UploadInserted(t, n, p, c);
    hide UploadsFor, FilesUpTo;
  }

  lemma UploadInserted(t: Id, n: nat, p: nat, c: nat)
    requires n < p <= c
    ensures n in UploadsFor(t, n, p, c) && UploadsFor(t, n, p, c)[n] == Stored(t, n, 1)
    ensures UploadsFor(t, n, p, c) - {n} == UploadsFor(t, n + 1, p, c)
    ensures !KeyTaken(RowsUpTo(t, n), n)
  {
  }

  /** Some run leads from w to w' with at most k uploads of t in flight. */
  ghost predicate Reaches(w: World, w': World, t: Id, k: nat) {
    exists run :: Concurrency(w, run, t, k) && Exec(w, run) == w'
  }

  lemma {:induction false} RunsJoin(w: World, run: seq<Step>, more: seq<Step>, t: Id, k: nat)
    requires Concurrency(w, run, t, k) && Concurrency(Exec(w, run), more, t, k)
    ensures Concurrency(w, run + more, t, k) && Exec(w, run + more) == Exec(Exec(w, run), more)
    decreases |run|
  {
    if run == [] {
      assert run + more == more;
    } else {
      assert (run + more)[1..] == run[1..] + more;
      RunsJoin(Do(w, run[0]), run[1..], more, t, k);
    }
  }

  lemma ReachesStep(w0: World, w: World, s: Step, t: Id, k: nat)
    requires Reaches(w0, w, t, k) && |InFlight(w, t)| <= k && |InFlight(Do(w, s), t)| <= k
    ensures Reaches(w0, Do(w, s), t, k)
  {
    var run :| Concurrency(w0, run, t, k) && Exec(w0, run) == w;
    assert [s][1..] == [];
    RunsJoin(w0, run, [s], t, k);
  }

  lemma ReachesStart(t: Id, k: nat)
    ensures Reaches(Empty(), Stage(t, 0, 0, 0), t, k)
  {
    assert Stage(t, 0, 0, 0) == Empty();
    StageInFlight(t, 0, 0, 0);
    assert Concurrency(Empty(), [], t, k) && Exec(Empty(), []) == Empty();
  }

  lemma {:induction false} ReachesFilled(t: Id, n: nat, k: nat)
    requires n <= 9 && k >= 1
    ensures Reaches(Empty(), Stage(t, n, n, n), t, k)
  {
    hide Stage, Reaches;
    if n == 0 {
      ReachesStart(t, k);
    } else {
      var m := n - 1;
      ReachesFilled(t, m, k);
      ReachesChecked(t, m, 1, k);
      ReachesStored(t, m, 1, n, k);
      ReachesInserted(t, m, n, n, k);
    }
  }

  lemma {:induction false} ReachesChecked(t: Id, n: nat, more: nat, k: nat)
    requires n <= 9 && more <= k && Reaches(Empty(), Stage(t, n, n, n), t, k)
    ensures Reaches(Empty(), Stage(t, n, n, n + more), t, k)
  {
    hide Stage, Do, Reaches;
    if more > 0 {
      ReachesChecked(t, n, more - 1, k);
      CheckStage(t, n, n, n + more - 1);
      StageInFlight(t, n, n, n + more - 1);
      StageInFlight(t, n, n, n + more);
      ReachesStep(Empty(), Stage(t, n, n, n + more - 1), Check(n + more - 1, t, [0], 1), t, k);
    }
  }

  lemma {:induction false} ReachesStored(t: Id, n: nat, more: nat, p: nat, k: nat)
    requires n <= p <= n + more && more <= k && Reaches(Empty(), Stage(t, n, n, n + more), t, k)
    ensures Reaches(Empty(), Stage(t, n, p, n + more), t, k)
    decreases p
  {
    hide Stage, Do, Reaches;
    if n < p {
      ReachesStored(t, n, more, p - 1, k);
      PutStage(t, n, p - 1, n + more);
      StageInFlight(t, n, p - 1, n + more);
      StageInFlight(t, n, p, n + more);
      ReachesStep(Empty(), Stage(t, n, p - 1, n + more), Put(p - 1, p - 1, Disk(true, None)), t, k);
    }
  }

  lemma {:induction false} ReachesInserted(t: Id, from: nat, n: nat, c: nat, k: nat)
    requires from <= n <= c <= from + k && Reaches(Empty(), Stage(t, from, c, c), t, k)
    ensures Reaches(Empty(), Stage(t, n, c, c), t, k)
    decreases n
  {
    hide Stage, Do, Reaches;
    if from < n {
      ReachesInserted(t, from, n - 1, c, k);
      InsertStage(t, n - 1, c, c);
      StageInFlight(t, n - 1, c, c);
      StageInFlight(t, n, c, c);
      ReachesStep(Empty(), Stage(t, n - 1, c, c), Insert(n - 1, true), t, k);
    }
  }

  lemma ReachesRows(t: Id, n: nat, k: nat)
    requires Reaches(Empty(), Stage(t, n, n, n), t, k)
    ensures exists run :: Concurrency(Empty(), run, t, k) && CountFor(Exec(Empty(), run).rows, t) == n
  {
    hide Concurrency, Exec;
    StageCount(t, n);
    var run :| Concurrency(Empty(), run, t, k) && Exec(Empty(), run) == Stage(t, n, n, n);
  }

  /** The cap is exact: with k concurrent uploads 9 + k rows are reached. */
  lemma CapIsReached(t: Id, k: nat)
    requires k >= 1
    ensures exists run :: Concurrency(Empty(), run, t, k) && CountFor(Exec(Empty(), run).rows, t) == 9 + k
  {
    hide Reaches, Stage, Concurrency, Exec;
    ReachesFilled(t, 9, k);
    ReachesChecked(t, 9, k, k);
    ReachesStored(t, 9, k, 9 + k, k);
    ReachesInserted(t, 9, 9 + k, 9 + k, k);
    ReachesRows(t, 9 + k, k);
  }
}
