/** Attachment uploads: the row count is checked, then the object is stored, then the row is
    inserted; other uploads run in between and each step may fail. */
module Attachments {
  import opened Bytes
  import opened Entity

  type Key = nat

  const MAX_SIZE := 10 * 1024 * 1024
  const MAX_ROWS := 10

  datatype AttachmentRow = AttachmentRow(ticket: Id, key: Key, size: nat)

  /** How a Put fares: whether the file can be created, and after how many bytes copying breaks. */
  datatype Disk = Disk(creates: bool, breaksAfter: Option<nat>)

  /** What ends up in a new file: at most one byte more than announced is copied. */
  function Copied(source: seq<Byte>, size: nat, disk: Disk): seq<Byte> {
    var limited := if |source| > size + 1 then source[..size + 1] else source;
    if disk.breaksAfter.Some? && disk.breaksAfter.value < |limited| then limited[..disk.breaksAfter.value]
    else limited
  }

  predicate Broken(source: seq<Byte>, size: nat, disk: Disk) {
    disk.breaksAfter.Some? && disk.breaksAfter.value < |source| && disk.breaksAfter.value < size + 1
  }

  predicate PutSucceeds(files: map<Key, seq<Byte>>, key: Key, source: seq<Byte>, size: nat, disk: Disk) {
    disk.creates && key !in files && !Broken(source, size, disk) && |source| == size
  }

  /** The files after a Put, successful or not: a file once created is never touched again. */
  function AfterPut(files: map<Key, seq<Byte>>, key: Key, source: seq<Byte>, size: nat, disk: Disk)
    : map<Key, seq<Byte>>
  {
    if disk.creates && key !in files then files[key := Copied(source, size, disk)] else files
  }

  class Local {
    var files: map<Key, seq<Byte>>

    constructor ()
      ensures files == map[]
    {
      files := map[];
    }

    method Put(key: Key, source: seq<Byte>, size: nat, disk: Disk) returns (ok: bool)
      modifies this
      ensures ok <==> disk.creates && key !in old(files) && |source| == size
                      && (disk.breaksAfter.Some? ==> disk.breaksAfter.value >= size)
      ensures
        var offered := if |source| <= size then |source| else size + 1;
        var copied := if disk.breaksAfter.Some? && disk.breaksAfter.value < offered then disk.breaksAfter.value else offered;
        files == if disk.creates && key !in old(files) then old(files)[key := source[..copied]] else old(files)
      ensures ok == PutSucceeds(old(files), key, source, size, disk)
      ensures files == AfterPut(old(files), key, source, size, disk)
      ensures ok ==> files[key] == source
    {
      if !disk.creates || key in files {
        return false;
      }
      var limited := if |source| > size + 1 then source[..size + 1] else source;
      if disk.breaksAfter.Some? && disk.breaksAfter.value < |limited| {
        assert limited[..disk.breaksAfter.value] == source[..disk.breaksAfter.value];
        files := files[key := limited[..disk.breaksAfter.value]];
        return false;
      }
      assert source[..|source|] == source;
      files := files[key := limited];
      return |limited| == size;
    }
  }

  function CountFor(rows: seq<AttachmentRow>, t: Id): nat {
    if rows == [] then 0
    else CountFor(rows[..|rows| - 1], t) + if rows[|rows| - 1].ticket == t then 1 else 0
  }

  lemma CountAppend(rows: seq<AttachmentRow>, r: AttachmentRow, t: Id)
    ensures CountFor(rows + [r], t) == CountFor(rows, t) + if r.ticket == t then 1 else 0
  {
  }

  predicate KeyTaken(rows: seq<AttachmentRow>, key: Key) {
    exists r <- rows :: r.key == key
  }

  /** The checks before anything is written. */
  predicate Admitted(rows: seq<AttachmentRow>, t: Id, size: int) {
    0 < size <= MAX_SIZE && CountFor(rows, t) < MAX_ROWS
  }

  /** Which calls of an upload get through; visible is the access check on the ticket. */
  datatype UploadNet = UploadNet(visible: bool, typed: bool, listed: bool, readable: bool, inserted: bool)

  class Uploads {
    const storage: Local
    var rows: seq<AttachmentRow>

    constructor (storage: Local)
      ensures this.storage == storage && rows == []
    {
      this.storage, rows := storage, [];
    }

    method UploadAttachment(t: Id, key: Key, source: seq<Byte>, size: int, disk: Disk, net: UploadNet)
      returns (ok: bool)
      modifies this, storage
      ensures
        var stores := net.visible && net.typed && net.listed && net.readable
                      && 0 < size <= 10_485_760 && CountFor(old(rows), t) < 10;
        && storage.files == (if stores then AfterPut(old(storage.files), key, source, size, disk)
                             else old(storage.files))
        && (ok <==> && stores && net.inserted
                    && disk.creates && key !in old(storage.files) && |source| == size
                    && (disk.breaksAfter.Some? ==> disk.breaksAfter.value >= size)
                    && forall r <- old(rows) :: r.key != key)
      // An upload that may see the ticket and read its file is the protocol's, whatever comes of it.
      ensures
        net.visible && net.typed && net.listed && net.readable ==>
          var w := Exec(World(old(rows), old(storage.files), map[]), AloneUpload(0, t, key, source, size, disk, net.inserted));
          rows == w.rows && storage.files == w.files
      ensures rows == if ok then old(rows) + [AttachmentRow(t, key, size)] else old(rows)
      ensures ok ==> storage.files[key] == source && |source| == size
    {
      hide Exec, AloneUpload, CountFor;
      AloneIsUpload(World(rows, storage.files, map[]), 0, t, key, source, size, disk, net.inserted);
      if !net.visible || size <= 0 || size > MAX_SIZE || !net.typed || !net.listed {
        return false;
      }
      if CountFor(rows, t) >= MAX_ROWS || !net.readable {
        return false;
      }
      var stored := storage.Put(key, source, size, disk);
      if !stored || !net.inserted || KeyTaken(rows, key) {
        return false;
      }
      rows := rows + [AttachmentRow(t, key, size)];
      return true;
    }
  }

  // ---------------------------------------------------------------- interleaved uploads

  datatype Upload =
    | Checked(ticket: Id, source: seq<Byte>, size: nat)
    | Stored(ticket: Id, key: Key, size: nat)

  datatype World = World(rows: seq<AttachmentRow>, files: map<Key, seq<Byte>>, uploads: map<nat, Upload>)

  datatype Step =
    | Check(u: nat, ticket: Id, source: seq<Byte>, size: int)
    | Put(u: nat, key: Key, disk: Disk)
    | Insert(u: nat, ok: bool)
    | Drop(u: nat)

  function Empty(): World {
    World([], map[], map[])
  }

  function DoCheck(w: World, u: nat, t: Id, source: seq<Byte>, size: int): World {
    if u in w.uploads || !Admitted(w.rows, t, size) then w
    else w.(uploads := w.uploads[u := Checked(t, source, size)])
  }

  function DoPut(w: World, u: nat, key: Key, disk: Disk): World {
    if u !in w.uploads || !w.uploads[u].Checked? then w
    else
      var c := w.uploads[u];
      var files := AfterPut(w.files, key, c.source, c.size, disk);
      if PutSucceeds(w.files, key, c.source, c.size, disk) then
        w.(files := files, uploads := w.uploads[u := Stored(c.ticket, key, c.size)])
      else w.(files := files, uploads := w.uploads - {u})
  }

  function DoInsert(w: World, u: nat, ok: bool): World {
    if u !in w.uploads || !w.uploads[u].Stored? then w
    else
      var s := w.uploads[u];
      w.(rows := if ok && !KeyTaken(w.rows, s.key) then w.rows + [AttachmentRow(s.ticket, s.key, s.size)] else w.rows,
         uploads := w.uploads - {u})
  }

  function Do(w: World, s: Step): World {
    match s
    case Check(u, t, source, size) => DoCheck(w, u, t, source, size)
    case Put(u, key, disk) => DoPut(w, u, key, disk)
    case Insert(u, ok) => DoInsert(w, u, ok)
    case Drop(u) => w.(uploads := w.uploads - {u})
  }

  function Exec(w: World, run: seq<Step>): World
    decreases |run|
  {
    if run == [] then w else Exec(Do(w, run[0]), run[1..])
  }

  function InFlight(w: World, t: Id): set<nat> {
    set u | u in w.uploads && w.uploads[u].ticket == t
  }

  function AloneUpload(u: nat, t: Id, key: Key, source: seq<Byte>, size: int, disk: Disk, inserted: bool): seq<Step> {
    [Check(u, t, source, size), Put(u, key, disk), Insert(u, inserted)]
  }

  lemma ExecThree(w: World, a: Step, b: Step, c: Step)
    ensures Exec(w, [a, b, c]) == Do(Do(Do(w, a), b), c)
  {
    hide Do;
    assert [a, b, c][1..] == [b, c] && [b, c][1..] == [c] && [c][1..] == [];
    var w2 := Do(Do(w, a), b);
    assert Exec(w2, [c]) == Exec(Do(w2, c), []) == Do(w2, c);
    assert Exec(w, [a, b, c]) == Exec(Do(w, a), [b, c]) == Exec(w2, [c]);
  }

  lemma CheckStep(w: World, u: nat, t: Id, source: seq<Byte>, size: int)
    requires u !in w.uploads
    ensures Do(w, Check(u, t, source, size))
            == if 0 < size <= 10_485_760 && CountFor(w.rows, t) < 10
               then w.(uploads := w.uploads[u := Checked(t, source, size)]) else w
  {
    hide CountFor;
  }

  lemma PutStep(w: World, u: nat, c: Upload, key: Key, disk: Disk)
    requires u !in w.uploads && c.Checked?
    ensures
      var whole := disk.creates && key !in w.files && |c.source| == c.size
                   && (disk.breaksAfter.Some? ==> disk.breaksAfter.value >= c.size);
      Do(w.(uploads := w.uploads[u := c]), Put(u, key, disk))
      == w.(files := AfterPut(w.files, key, c.source, c.size, disk),
            uploads := if whole then w.uploads[u := Stored(c.ticket, key, c.size)] else w.uploads)
  {
    hide AfterPut;
    var stored := Stored(c.ticket, key, c.size);
    assert w.uploads[u := c] - {u} == w.uploads && w.uploads[u := c][u := stored] == w.uploads[u := stored];
  }

  lemma InsertStep(w: World, u: nat, s: Upload, ok: bool)
    requires u !in w.uploads && s.Stored?
    ensures Do(w.(uploads := w.uploads[u := s]), Insert(u, ok))
            == if ok && (forall r <- w.rows :: r.key != s.key)
               then w.(rows := w.rows + [AttachmentRow(s.ticket, s.key, s.size)]) else w
  {
    assert w.uploads[u := s] - {u} == w.uploads;
  }

  lemma NothingHeld(w: World, u: nat, key: Key, disk: Disk, ok: bool)
    requires u !in w.uploads
    ensures Do(w, Put(u, key, disk)) == w && Do(w, Insert(u, ok)) == w
  {
  }

  /** An upload that nothing interrupts leaves a row exactly when its size is between one byte and
      10 MiB, fewer than 10 rows were there, and its object was stored whole under a new key. */
  lemma AloneIsUpload(w: World, u: nat, t: Id, key: Key, source: seq<Byte>, size: int, disk: Disk, inserted: bool)
    requires u !in w.uploads
    ensures
      var w' := Exec(w, AloneUpload(u, t, key, source, size, disk, inserted));
      var stores := 0 < size <= 10_485_760 && CountFor(w.rows, t) < 10;
      var whole := stores && disk.creates && key !in w.files && |source| == size
                   && (disk.breaksAfter.Some? ==> disk.breaksAfter.value >= size);
      && w'.uploads == w.uploads
      && w'.files == (if stores then AfterPut(w.files, key, source, size, disk) else w.files)
      && (w'.rows == if whole && inserted && (forall r <- w.rows :: r.key != key)
                     then w.rows + [AttachmentRow(t, key, size)] else w.rows)
  {
    ExecThree(w, Check(u, t, source, size), Put(u, key, disk), Insert(u, inserted));
    hide CountFor, AfterPut, Do, Exec;
    CheckStep(w, u, t, source, size);
    NothingHeld(w, u, key, disk, inserted);
    if 0 < size <= 10_485_760 && CountFor(w.rows, t) < 10 {
      PutStep(w, u, Checked(t, source, size), key, disk);
      var w2 := w.(files := AfterPut(w.files, key, source, size, disk));
      InsertStep(w2, u, Stored(t, key, size), inserted);
      NothingHeld(w2, u, key, disk, inserted);
    }
  }

  /** At no point of the run more than k uploads for the ticket are between check and end. */
  predicate Concurrency(w: World, run: seq<Step>, t: Id, k: nat)
    decreases |run|
  {
    |InFlight(w, t)| <= k && (run == [] || Concurrency(Do(w, run[0]), run[1..], t, k))
  }

  /** Rows and uploads that may still become rows. */
  predicate Capped(w: World, t: Id, k: nat) {
    CountFor(w.rows, t) + |InFlight(w, t)| <= MAX_ROWS - 1 + k
  }

  lemma Replaced(w: World, w': World, u: nat, t: Id)
    requires u in w.uploads && w'.uploads == w.uploads - {u}
    ensures |InFlight(w', t)| == |InFlight(w, t)| - if w.uploads[u].ticket == t then 1 else 0
  {
    assert InFlight(w', t) == InFlight(w, t) - {u};
    assert w.uploads[u].ticket == t ==> InFlight(w, t) == InFlight(w', t) + {u};
  }

  lemma PutCapped(w: World, u: nat, key: Key, disk: Disk, t: Id, k: nat)
    requires Capped(w, t, k)
    ensures Capped(DoPut(w, u, key, disk), t, k)
  {
    hide AfterPut, PutSucceeds;
    var w' := DoPut(w, u, key, disk);
    if u in w.uploads && w.uploads[u].Checked? && w'.uploads == w.uploads - {u} {
      Replaced(w, w', u, t);
    } else {
      assert InFlight(w', t) == InFlight(w, t);
    }
  }

  lemma InsertCapped(w: World, u: nat, ok: bool, t: Id, k: nat)
    requires Capped(w, t, k)
    ensures Capped(DoInsert(w, u, ok), t, k)
  {
    hide CountFor, KeyTaken;
    if u in w.uploads && w.uploads[u].Stored? {
      Replaced(w, DoInsert(w, u, ok), u, t);
      var c := w.uploads[u];
      CountAppend(w.rows, AttachmentRow(c.ticket, c.key, c.size), t);
    }
  }

  lemma StepCapped(w: World, s: Step, t: Id, k: nat)
    requires Capped(w, t, k) && |InFlight(Do(w, s), t)| <= k
    ensures Capped(Do(w, s), t, k)
  {
    hide DoPut, DoInsert, CountFor;
    var w' := Do(w, s);
    match s
    case Check(u, ticket, source, size) =>
      if w' != w {
        assert ticket != t ==> InFlight(w', t) == InFlight(w, t);
      }
    case Put(u, key, disk) =>
      PutCapped(w, u, key, disk, t, k);
    case Insert(u, ok) =>
      InsertCapped(w, u, ok, t, k);
    case Drop(u) =>
      if u in w.uploads {
        Replaced(w, w', u, t);
      } else {
        assert w'.uploads == w.uploads;
      }
  }

  lemma {:induction false} ExecCapped(w: World, run: seq<Step>, t: Id, k: nat)
    requires Capped(w, t, k) && Concurrency(w, run, t, k)
    ensures Capped(Exec(w, run), t, k)
    decreases |run|
  {
    if run != [] {
      StepCapped(w, run[0], t, k);
      ExecCapped(Do(w, run[0]), run[1..], t, k);
    }
  }

  /** With at most k uploads of a ticket in flight at a time it never has more than 9 + k rows;
      10 when uploads are serialized. */
  lemma CapHolds(run: seq<Step>, t: Id, k: nat)
    requires Concurrency(Empty(), run, t, k)
    ensures CountFor(Exec(Empty(), run).rows, t) <= 9 + k
    ensures k <= 1 ==> CountFor(Exec(Empty(), run).rows, t) <= 10
  {
    assert InFlight(Empty(), t) == {};
    ExecCapped(Empty(), run, t, k);
  }

  // ---------------------------------------------------------------- rows and objects

  /** Every row, and every upload past its Put, refers to an object of exactly its size. */
  ghost predicate Backed(w: World) {
    && (forall r <- w.rows :: r.key in w.files && |w.files[r.key]| == r.size && 0 < r.size <= MAX_SIZE)
    && (forall i, j :: 0 <= i < j < |w.rows| ==> w.rows[i].key != w.rows[j].key)
    && (forall u <- w.uploads ::
          && 0 < w.uploads[u].size <= MAX_SIZE
          && (w.uploads[u].Stored? ==>
                w.uploads[u].key in w.files && |w.files[w.uploads[u].key]| == w.uploads[u].size))
  }

  lemma PutBacked(w: World, u: nat, key: Key, disk: Disk)
    requires Backed(w)
    ensures Backed(DoPut(w, u, key, disk))
  {
  }

  lemma InsertBacked(w: World, u: nat, ok: bool)
    requires Backed(w)
    ensures Backed(DoInsert(w, u, ok))
  {
  }

  lemma {:induction false} ExecBacked(w: World, run: seq<Step>)
    requires Backed(w)
    ensures Backed(Exec(w, run))
    decreases |run|
  {
    if run != [] {
      match run[0] {
        case Put(u, key, disk) => PutBacked(w, u, key, disk);
        case Insert(u, ok) => InsertBacked(w, u, ok);
        case _ =>
      }
      ExecBacked(Do(w, run[0]), run[1..]);
    }
  }

  lemma {:induction false} FilesStay(w: World, run: seq<Step>, key: Key)
    requires key in w.files
    ensures key in Exec(w, run).files && Exec(w, run).files[key] == w.files[key]
    decreases |run|
  {
    if run != [] {
      FilesStay(Do(w, run[0]), run[1..], key);
    }
  }

  /** Whatever fails between store and insert, every row refers to a stored object of exactly
      its recorded size, no two rows share one, and no later step changes it. */
  lemma RowsAreBacked(run: seq<Step>, later: seq<Step>, r: AttachmentRow)
    requires r in Exec(Empty(), run).rows
    ensures var w := Exec(Empty(), run);
            && r.key in w.files && |w.files[r.key]| == r.size && 0 < r.size <= 10_485_760
            && r.key in Exec(w, later).files && Exec(w, later).files[r.key] == w.files[r.key]
  {
    ExecBacked(Empty(), run);
    FilesStay(Exec(Empty(), run), later, r.key);
  }
}
