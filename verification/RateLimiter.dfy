/** The sliding-window limiter: a pruned, expiring sorted set per key against the full log of
    attempts.  Scores are milliseconds; each call also has the Redis server's own time, which
    only key expiry looks at. */
module RateLimiter {
  import opened Entity

  /** The two clock readings that name a set member; taken to be distinct between calls. */
  type Member = (int, int)

  datatype ZSet = ZSet(entries: map<Member, int>, deadline: Option<int>)
  datatype Call = Call(member: Member, reading: int, server: int)

  const ABSENT := ZSet(map[], None)

  function Entries(z: ZSet, server: int): map<Member, int> {
    if z.deadline.Some? && z.deadline.value <= server then map[] else z.entries
  }

  /** ZREMRANGEBYSCORE key 0 cut. */
  function Prune(entries: map<Member, int>, cut: int): map<Member, int> {
    map m | m in entries && !(0 <= entries[m] <= cut) :: entries[m]
  }

  /** The entries that ZCARD counts for a call. */
  function Kept(z: ZSet, c: Call, window: int): map<Member, int> {
    Prune(Entries(z, c.server), c.reading - window)
  }

  function After(z: ZSet, c: Call, window: int): ZSet {
    ZSet(Kept(z, c, window)[c.member := c.reading], Some(c.server + window))
  }

  function Milli(nanos: int): int {
    nanos / 1_000_000
  }

  // ---------------------------------------------------------------- runs for one key

  /** The set after all these calls, in order of execution. */
  function State(calls: seq<Call>, window: int): ZSet {
    if calls == [] then ABSENT
    else After(State(calls[..|calls| - 1], window), calls[|calls| - 1], window)
  }

  function KeptAt(calls: seq<Call>, c: nat, window: int): map<Member, int>
    requires c < |calls|
  {
    Kept(State(calls[..c], window), calls[c], window)
  }

  predicate Allowed(calls: seq<Call>, c: nat, window: int, limit: int)
    requires c < |calls|
  {
    |KeptAt(calls, c, window)| < limit
  }

  predicate Distinct(calls: seq<Call>) {
    forall i, j :: 0 <= i < j < |calls| ==> calls[i].member != calls[j].member
  }

  lemma StateStep(calls: seq<Call>, k: nat, window: int)
    requires k < |calls|
    ensures State(calls[..k + 1], window) == After(State(calls[..k], window), calls[k], window)
  {
    assert calls[..k + 1][..k] == calls[..k];
  }

  // ---------------------------------------------------------------- which attempts a call counts

  /** The key is still there at call y. */
  predicate KeyAlive(calls: seq<Call>, y: nat, window: int)
    requires 0 < y < |calls|
  {
    calls[y].server < calls[y - 1].server + window
  }

  /** Call y does not prune the entry of call g. */
  predicate Spares(calls: seq<Call>, g: nat, y: nat, window: int)
    requires g < |calls| && y < |calls|
  {
    !(0 <= calls[g].reading <= calls[y].reading - window)
  }

  predicate Survives(calls: seq<Call>, g: nat, c: nat, window: int)
    requires g < c < |calls|
  {
    forall y | g < y <= c :: KeyAlive(calls, y, window) && Spares(calls, g, y, window)
  }

  /** From one call to the next an entry is kept, with its score, unless the key expires or the
      call prunes it; the only new entry is that of the call before. */
  lemma KeptStep(calls: seq<Call>, c: nat, window: int, m: Member)
    requires 0 < c < |calls|
    ensures var before, kept, last := KeptAt(calls, c - 1, window), KeptAt(calls, c, window), calls[c - 1];
            var score := if m == last.member then Some(last.reading)
                         else if m in before then Some(before[m]) else None;
            && (m in kept <==> score.Some? && KeyAlive(calls, c, window)
                               && !(0 <= score.value <= calls[c].reading - window))
            && (m in kept ==> kept[m] == score.value)
  {
    StateStep(calls, c - 1, window);
  }

  lemma SurvivesStep(calls: seq<Call>, g: nat, c: nat, window: int)
    requires g < c < |calls|
    ensures Survives(calls, g, c, window) <==>
            && KeyAlive(calls, c, window) && Spares(calls, g, c, window)
            && (g < c - 1 ==> Survives(calls, g, c - 1, window))
  {
  }

  /** Whatever the clocks do, a call counts an earlier attempt if and only if neither the key
      expired nor a call pruned the attempt on the way. */
  lemma {:induction false} CountedIff(calls: seq<Call>, g: nat, c: nat, window: int)
    requires Distinct(calls) && g < c < |calls|
    ensures calls[g].member in KeptAt(calls, c, window) <==> Survives(calls, g, c, window)
    ensures calls[g].member in KeptAt(calls, c, window) ==>
              KeptAt(calls, c, window)[calls[g].member] == calls[g].reading
    decreases c
  {
    hide KeptAt, Survives, KeyAlive;
    KeptStep(calls, c, window, calls[g].member);
    SurvivesStep(calls, g, c, window);
    if g < c - 1 {
      CountedIff(calls, g, c - 1, window);
    }
  }

  /** And it counts nothing but earlier attempts. */
  lemma {:induction false} CountsAttempts(calls: seq<Call>, c: nat, window: int, m: Member)
    requires c < |calls| && m in KeptAt(calls, c, window)
    ensures exists i: nat :: i < c && calls[i].member == m
    decreases c
  {
    if c > 0 {
      StateStep(calls, c - 1, window);
      if m == calls[c - 1].member {
        assert calls[c - 1].member == m;
      } else {
        CountsAttempts(calls, c - 1, window, m);
      }
    }
  }

  // ---------------------------------------------------------------- clocks

  /** An earlier call never carries a reading more than d ahead of a later one. */
  predicate Lagged(calls: seq<Call>, d: int) {
    forall i, j :: 0 <= i < j < |calls| ==> calls[i].reading <= calls[j].reading + d
  }

  /** The key does not expire between two calls whose readings lie less than window minus d
      apart. */
  predicate NoEarlyExpiry(calls: seq<Call>, window: int, d: int) {
    forall g, y, c | 0 <= g < y <= c < |calls| && calls[c].reading - calls[g].reading < window - d ::
      KeyAlive(calls, y, window)
  }

  /** Server time never goes back, and between two calls the readings fall short of the time
      that passed on the server by at most d: so it is when every reading lies within a behind
      and b ahead of the server's time, with d = a + b. */
  ghost predicate Skewed(calls: seq<Call>, d: int) {
    forall i, j :: 0 <= i < j < |calls| ==>
      0 <= calls[j].server - calls[i].server <= calls[j].reading - calls[i].reading + d
  }

  lemma SkewedClocks(calls: seq<Call>, window: int, d: int)
    requires Skewed(calls, d) && 0 <= d
    ensures Lagged(calls, d) && NoEarlyExpiry(calls, window, d)
  {
    forall g, y, c | 0 <= g < y <= c < |calls| && calls[c].reading - calls[g].reading < window - d
      ensures KeyAlive(calls, y, window)
    {
      assert 0 <= calls[c].server - calls[g].server <= calls[c].reading - calls[g].reading + d;
      assert y < c ==> 0 <= calls[c].server - calls[y].server;
      assert g < y - 1 ==> calls[g].server <= calls[y - 1].server;
    }
  }

  /** An attempt less than window minus d before a later one is still counted by it. */
  lemma StillCounted(calls: seq<Call>, g: nat, c: nat, window: int, d: int)
    requires Distinct(calls) && 0 <= d && Lagged(calls, d) && NoEarlyExpiry(calls, window, d)
    requires g < c < |calls| && calls[c].reading - calls[g].reading < window - d
    ensures calls[g].member in KeptAt(calls, c, window)
  {
    forall y | g < y <= c ensures KeyAlive(calls, y, window) && Spares(calls, g, y, window) {
      assert y < c ==> calls[y].reading <= calls[c].reading + d;
    }
    CountedIff(calls, g, c, window);
  }

  // ---------------------------------------------------------------- counting

  function MembersOf(calls: seq<Call>, indices: set<nat>): set<Member>
    requires forall i <- indices :: i < |calls|
  {
    set i | i in indices :: calls[i].member
  }

  lemma {:induction false} MembersCount(calls: seq<Call>, indices: set<nat>)
    requires Distinct(calls) && forall i <- indices :: i < |calls|
    ensures |MembersOf(calls, indices)| == |indices|
    decreases indices
  {
    if indices != {} {
      var i :| i in indices;
      var rest := indices - {i};
      MembersCount(calls, rest);
      assert MembersOf(calls, indices) == MembersOf(calls, rest) + {calls[i].member};
      assert calls[i].member !in MembersOf(calls, rest);
    }
  }

  lemma {:induction false} SubsetSmaller<T>(a: set<T>, b: set<T>)
    requires a <= b
    ensures |a| <= |b|
    decreases a
  {
    if a != {} {
      var x :| x in a;
      SubsetSmaller(a - {x}, b - {x});
    }
  }

  lemma {:induction false} Latest(indices: set<nat>) returns (c: nat)
    requires indices != {}
    ensures c in indices && forall i <- indices :: i <= c
    decreases indices
  {
    var i :| i in indices;
    if indices == {i} {
      c := i;
    } else {
      assert indices - {i} != {};
      var c' := Latest(indices - {i});
      c := if i <= c' then c' else i;
      assert forall j <- indices :: j == i || j in indices - {i};
    }
  }

  /** Any group of allowed calls whose readings span less than window minus d has at most `limit`
      members, in runs of any length. */
  lemma LimiterSafety(calls: seq<Call>, window: int, limit: int, d: int, group: set<nat>)
    requires Distinct(calls) && 0 <= d && Lagged(calls, d) && NoEarlyExpiry(calls, window, d)
    requires forall i <- group :: i < |calls| && Allowed(calls, i, window, limit)
    requires forall i, j | i in group && j in group :: calls[j].reading - calls[i].reading < window - d
    ensures group != {} ==> |group| <= limit
  {
    if group != {} {
      var c := Latest(group);
      var earlier := group - {c};
      forall m <- MembersOf(calls, earlier) ensures m in KeptAt(calls, c, window).Keys {
        var g :| g in earlier && calls[g].member == m;
        StillCounted(calls, g, c, window, d);
      }
      SubsetSmaller(MembersOf(calls, earlier), KeptAt(calls, c, window).Keys);
      MembersCount(calls, earlier);
      assert |KeptAt(calls, c, window).Keys| == |KeptAt(calls, c, window)|;
    }
  }

  // ---------------------------------------------------------------- refinement of the full log

  /** The earlier attempts, allowed or not, with readings above now minus window. */
  function Recent(calls: seq<Call>, c: nat, window: int): set<nat>
    requires c < |calls|
  {
    set i: nat | i < c && calls[i].reading > calls[c].reading - window
  }

  predicate SinceEpoch(calls: seq<Call>) {
    forall x <- calls :: x.reading >= 0
  }

  /** Only attempts within the window are counted, whatever the clocks do. */
  lemma CountsOnlyRecent(calls: seq<Call>, c: nat, window: int)
    requires Distinct(calls) && SinceEpoch(calls) && c < |calls|
    ensures KeptAt(calls, c, window).Keys <= MembersOf(calls, Recent(calls, c, window))
  {
    forall m | m in KeptAt(calls, c, window) ensures m in MembersOf(calls, Recent(calls, c, window)) {
      CountsAttempts(calls, c, window, m);
      var i: nat :| i < c && calls[i].member == m;
      CountedIff(calls, i, c, window);
      assert Spares(calls, i, c, window) && calls[i] in calls;
    }
  }

  /** Under skew d the counted entries lie between the attempts within window minus d and those
      within the window, and so does the decision. */
  lemma CountedSandwich(calls: seq<Call>, c: nat, window: int, limit: int, d: int)
    requires Distinct(calls) && SinceEpoch(calls) && c < |calls|
    requires 0 <= d && Lagged(calls, d) && NoEarlyExpiry(calls, window, d)
    ensures MembersOf(calls, Recent(calls, c, window - d)) <= KeptAt(calls, c, window).Keys
            <= MembersOf(calls, Recent(calls, c, window))
    ensures |Recent(calls, c, window)| < limit ==> Allowed(calls, c, window, limit)
    ensures Allowed(calls, c, window, limit) ==> |Recent(calls, c, window - d)| < limit
  {
    var kept, inner, outer := KeptAt(calls, c, window), Recent(calls, c, window - d), Recent(calls, c, window);
    CountsOnlyRecent(calls, c, window);
    forall m <- MembersOf(calls, inner) ensures m in kept {
      var g :| g in inner && calls[g].member == m;
      StillCounted(calls, g, c, window, d);
    }
    MembersCount(calls, inner);
    MembersCount(calls, outer);
    SubsetSmaller(MembersOf(calls, inner), kept.Keys);
    SubsetSmaller(kept.Keys, MembersOf(calls, outer));
    assert |kept.Keys| == |kept|;
  }

  // ---------------------------------------------------------------- readings that never go back

  predicate Monotone(calls: seq<Call>) {
    forall i, j :: 0 <= i < j < |calls| ==> calls[i].reading <= calls[j].reading
  }

  /** At call y the server has not run a whole window ahead of readings that are closer. */
  predicate Paced(calls: seq<Call>, y: nat, window: int)
    requires 0 < y < |calls|
  {
    calls[y].server - calls[y - 1].server >= window ==> calls[y].reading - calls[y - 1].reading >= window
  }

  lemma PacedRun(calls: seq<Call>, window: int)
    requires Monotone(calls) && forall y | 0 < y < |calls| :: Paced(calls, y, window)
    ensures Lagged(calls, 0) && NoEarlyExpiry(calls, window, 0)
  {
    forall g, y, c | 0 <= g < y <= c < |calls| && calls[c].reading - calls[g].reading < window
      ensures KeyAlive(calls, y, window)
    {
      assert Paced(calls, y, window);
      assert y < c ==> calls[y].reading <= calls[c].reading;
      assert g < y - 1 ==> calls[g].reading <= calls[y - 1].reading;
    }
  }

  predicate Refines(calls: seq<Call>, c: nat, window: int)
    requires c < |calls|
  {
    KeptAt(calls, c, window).Keys == MembersOf(calls, Recent(calls, c, window))
  }

  lemma RefinedIsPaced(calls: seq<Call>, y: nat, window: int)
    requires Distinct(calls) && 0 < y < |calls| && Refines(calls, y, window)
    ensures Paced(calls, y, window)
  {
    CountedIff(calls, y - 1, y, window);
    if y - 1 in Recent(calls, y, window) {
      assert calls[y - 1].member in MembersOf(calls, Recent(calls, y, window));
    }
  }

  /** When readings never go back, every call counts exactly the log's attempts inside its window
      if and only if between any two consecutive calls the server never lets a whole window
      pass that their readings do not show. */
  lemma LimiterRefinesLogIff(calls: seq<Call>, window: int)
    requires Distinct(calls) && SinceEpoch(calls) && Monotone(calls)
    ensures (forall c | 0 <= c < |calls| :: Refines(calls, c, window))
            <==> (forall y | 0 < y < |calls| :: Paced(calls, y, window))
  {
    if forall c | 0 <= c < |calls| :: Refines(calls, c, window) {
      forall y | 0 < y < |calls| ensures Paced(calls, y, window) {
        RefinedIsPaced(calls, y, window);
      }
    } else if forall y | 0 < y < |calls| :: Paced(calls, y, window) {
      PacedRun(calls, window);
      forall c | 0 <= c < |calls| ensures Refines(calls, c, window) {
        CountedSandwich(calls, c, window, 0, 0);
      }
    }
  }

  /** And then a call is allowed if and only if fewer than `limit` attempts lie in its window. */
  lemma LimiterRefinesLog(calls: seq<Call>, c: nat, window: int, limit: int)
    requires Distinct(calls) && SinceEpoch(calls) && Monotone(calls) && c < |calls|
    requires forall y | 0 < y < |calls| :: Paced(calls, y, window)
    ensures Allowed(calls, c, window, limit) <==> |Recent(calls, c, window)| < limit
  {
    PacedRun(calls, window);
    CountedSandwich(calls, c, window, limit, 0);
  }

  /** Expiring the key at call c drops nothing that pruning would have kept if and only if the
      pace was kept there; the calls before are arbitrary, with readings that never go back. */
  lemma ExpiryIsRedundantIff(calls: seq<Call>, c: nat, window: int)
    requires Distinct(calls) && SinceEpoch(calls) && Monotone(calls) && 0 < c < |calls|
    ensures KeptAt(calls, c, window) == Prune(State(calls[..c], window).entries, calls[c].reading - window)
            <==> Paced(calls, c, window)
  {
    var z, last := State(calls[..c], window), calls[c - 1];
    StateStep(calls, c - 1, window);
    assert z.entries[last.member] == last.reading && last in calls;
    if !KeyAlive(calls, c, window) {
      forall m | m in z.entries ensures 0 <= z.entries[m] <= last.reading {
        if m != last.member {
          CountsAttempts(calls, c - 1, window, m);
          var i: nat :| i < c - 1 && calls[i].member == m;
          CountedIff(calls, i, c - 1, window);
          assert calls[i] in calls;
        }
      }
      var pruned := Prune(z.entries, calls[c].reading - window);
      assert last.member in pruned <==> last.reading > calls[c].reading - window;
    }
  }

  /** Monotone readings alone are not enough: with a limit of one, two calls one millisecond
      apart by their readings are both allowed when Redis executes the second a window later. */
  lemma LateReplyAdmitsTwo(micros: int)
    ensures var calls := [Call((0, micros), 0, 0), Call((1_000_000, micros), 1, 2000)];
            && Distinct(calls) && Monotone(calls) && SinceEpoch(calls)
            && Allowed(calls, 0, 1000, 1) && Allowed(calls, 1, 1000, 1)
            && |Recent(calls, 1, 1000)| == 1
  {
    var calls := [Call((0, micros), 0, 0), Call((1_000_000, micros), 1, 2000)];
    StateStep(calls, 0, 1000);
    assert Recent(calls, 1, 1000) == {0};
  }

  // ---------------------------------------------------------------- in nanoseconds

  /** One call as the program sees it: its clock in nanoseconds, the second reading that goes
      into the member, and the server's time in milliseconds when Redis runs it. */
  datatype Attempt = Attempt(nanos: int, micros: int, server: int)

  function Calls(log: seq<Attempt>): seq<Call> {
    seq(|log|, i requires 0 <= i < |log| => Call((log[i].nanos, log[i].micros), Milli(log[i].nanos), log[i].server))
  }

  /** The earlier attempts, allowed or not, at most this many nanoseconds old. */
  function Near(log: seq<Attempt>, now: int, nanos: int): (r: set<nat>)
    ensures forall i <- r :: i < |log|
  {
    set i: nat | i < |log| && now - log[i].nanos <= nanos
  }

  /** Clock readings since the epoch that never go back and differ in one of the two parts;
      and where the server lets a whole window pass between two calls, the clock shows it up to
      one millisecond. */
  predicate Steady(log: seq<Attempt>, seconds: nat) {
    && (forall i :: 0 <= i < |log| ==> log[i].nanos >= 0)
    && (forall i, j :: 0 <= i < j < |log| ==>
          log[i].nanos <= log[j].nanos && (log[i].nanos, log[i].micros) != (log[j].nanos, log[j].micros))
    && (forall y | 0 < y < |log| && log[y].server - log[y - 1].server >= seconds * 1000 ::
          log[y].nanos - log[y - 1].nanos > seconds * 1_000_000_000 - 1_000_000)
  }

  /** Nanoseconds and the millisecond scores differ by less than one millisecond. */
  lemma Scores(a: int, b: int, seconds: nat)
    requires 0 <= a <= b
    ensures b - a >= seconds * 1_000_000_000 ==> Milli(b) - Milli(a) >= seconds * 1000
    ensures b - a <= seconds * 1_000_000_000 - 1_000_000 ==> Milli(b) - Milli(a) < seconds * 1000
    ensures 0 <= Milli(a) <= Milli(b)
  {
    assert Milli(a) * 1_000_000 <= a < Milli(a) * 1_000_000 + 1_000_000;
    assert Milli(b) * 1_000_000 <= b < Milli(b) * 1_000_000 + 1_000_000;
  }

  lemma NearSurvives(log: seq<Attempt>, g: nat, c: nat, seconds: nat)
    requires Steady(log, seconds) && g < c < |log|
    requires log[c].nanos - log[g].nanos <= seconds * 1_000_000_000 - 1_000_000
    ensures Survives(Calls(log), g, c, seconds * 1000)
  {
    var calls := Calls(log);
    forall y | g < y <= c ensures KeyAlive(calls, y, seconds * 1000) && Spares(calls, g, y, seconds * 1000) {
      assert log[y].nanos <= log[c].nanos;
      assert log[g].nanos <= log[y - 1].nanos;
      Scores(log[g].nanos, log[y].nanos, seconds);
    }
  }

  lemma FarIsPruned(log: seq<Attempt>, g: nat, c: nat, seconds: nat)
    requires Steady(log, seconds) && g < c < |log|
    requires log[c].nanos - log[g].nanos >= seconds * 1_000_000_000
    ensures !Survives(Calls(log), g, c, seconds * 1000)
  {
    Scores(log[g].nanos, log[c].nanos, seconds);
    assert !Spares(Calls(log), g, c, seconds * 1000);
  }

  lemma CallsDistinct(log: seq<Attempt>, seconds: nat)
    requires Steady(log, seconds)
    ensures Distinct(Calls(log))
  {
  }

  /** On the program's own clock: the last call counts every earlier attempt that is a millisecond
      younger than the window, and none that is as old as the window. */
  lemma CountedNanoseconds(log: seq<Attempt>, seconds: nat)
    requires log != [] && Steady(log, seconds)
    ensures
      var c, window := |log| - 1, seconds * 1_000_000_000;
      var kept, now := KeptAt(Calls(log), c, seconds * 1000), log[c].nanos;
      && MembersOf(Calls(log), Near(log[..c], now, window - 1_000_000)) <= kept.Keys
      && kept.Keys <= MembersOf(Calls(log), Near(log[..c], now, window - 1))
  {
    hide KeptAt, Survives, Steady;
    var c, calls, window := |log| - 1, Calls(log), seconds * 1_000_000_000;
    var kept, now := KeptAt(calls, c, seconds * 1000), log[c].nanos;
    CallsDistinct(log, seconds);
    forall m <- MembersOf(calls, Near(log[..c], now, window - 1_000_000)) ensures m in kept {
      var g :| g in Near(log[..c], now, window - 1_000_000) && calls[g].member == m;
      NearSurvives(log, g, c, seconds);
      CountedIff(calls, g, c, seconds * 1000);
    }
    forall m | m in kept ensures m in MembersOf(calls, Near(log[..c], now, window - 1)) {
      CountsAttempts(calls, c, seconds * 1000, m);
      var i: nat :| i < c && calls[i].member == m;
      CountedIff(calls, i, c, seconds * 1000);
      if now - log[i].nanos >= window {
        FarIsPruned(log, i, c, seconds);
      }
      assert i in Near(log[..c], now, window - 1);
    }
  }

  /** So the number it counts lies between those two. */
  lemma DecidedNanoseconds(log: seq<Attempt>, seconds: nat)
    requires log != [] && Steady(log, seconds)
    ensures
      var c, window := |log| - 1, seconds * 1_000_000_000;
      var kept, now := |KeptAt(Calls(log), c, seconds * 1000)|, log[c].nanos;
      |Near(log[..c], now, window - 1_000_000)| <= kept <= |Near(log[..c], now, window - 1)|
  {
    hide KeptAt, Steady, Near, MembersOf, Distinct;
    var c, calls, window := |log| - 1, Calls(log), seconds * 1_000_000_000;
    var kept, now := KeptAt(calls, c, seconds * 1000), log[c].nanos;
    var young, old' := Near(log[..c], now, window - 1_000_000), Near(log[..c], now, window - 1);
    CountedNanoseconds(log, seconds);
    CallsDistinct(log, seconds);
    MembersCount(calls, young);
    MembersCount(calls, old');
    SubsetSmaller(MembersOf(calls, young), kept.Keys);
    SubsetSmaller(kept.Keys, MembersOf(calls, old'));
    assert |kept.Keys| == |kept|;
  }

  // ---------------------------------------------------------------- the limiter itself

  class Limiter {
    var sets: map<string, ZSet>
    ghost var log: map<string, seq<Attempt>>  // every attempt that Redis ran, per key

    constructor ()
      ensures sets == map[] && log == map[]
    {
      sets, log := map[], map[];
    }

    function Get(key: string): ZSet
      reads this
    {
      if key in sets then sets[key] else ABSENT
    }

    ghost function Log(key: string): seq<Attempt>
      reads this
    {
      if key in log then log[key] else []
    }

    /** The key has only been used with this window; so it is for every key at the start. */
    ghost predicate Uses(key: string, seconds: nat)
      reads this
    {
      Get(key) == State(Calls(Log(key)), seconds * 1000)
    }

    lemma UnusedKey(key: string, seconds: nat)
      requires key !in sets && key !in log
      ensures Uses(key, seconds)
    {
    }

    /** One call: the four commands run as one Redis transaction.  The window is a whole number
        of seconds, as EXPIRE takes it.  Without a reply the call is refused, whether or not
        the commands ran. */
    method Allow(key: string, limit: int, seconds: nat, now: int, micros: int, server: int,
                 executed: bool, replied: bool) returns (allowed: bool, failed: bool)
      modifies this
      ensures
        var c := Call((now, micros), Milli(now), server);
        && Get(key) == (if executed then After(old(Get(key)), c, seconds * 1000) else old(Get(key)))
        && allowed == (executed && replied && |Kept(old(Get(key)), c, seconds * 1000)| < limit)
      ensures failed == !(executed && replied)
      ensures forall other: string | other != key :: Get(other) == old(Get(other)) && Log(other) == old(Log(other))
      ensures Log(key) == old(Log(key)) + if executed then [Attempt(now, micros, server)] else []
      ensures old(Uses(key, seconds)) ==> Uses(key, seconds)
      // In nanoseconds, on a key of this window whose clocks are steady: with fewer than limit
      // attempts younger than the window the call is allowed; it is refused if limit of them are
      // a millisecond younger than the window.
      ensures
        var window := seconds * 1_000_000_000;
        executed && replied && old(Uses(key, seconds)) && Steady(Log(key), seconds) ==>
          && (|Near(old(Log(key)), now, window - 1)| < limit ==> allowed)
          && (allowed ==> |Near(old(Log(key)), now, window - 1_000_000)| < limit)
    {
      hide State, KeptAt, Near, Steady, Calls, Prune, Entries;
      if !executed {
        return false, true;
      }
      ghost var attempts := Log(key) + [Attempt(now, micros, server)];
      LogAppend(Log(key), Attempt(now, micros, server), seconds);
      if Steady(attempts, seconds) {
        DecidedNanoseconds(attempts, seconds);
      }
      var cut := Milli(now - seconds * 1_000_000_000);
      assert cut == Milli(now) - seconds * 1000;
      var z := if key in sets then sets[key] else ABSENT;
      var entries := Prune(Entries(z, server), cut);
      var count := |entries|;
      entries := entries[(now, micros) := Milli(now)];
      sets, log := sets[key := ZSet(entries, Some(server + seconds * 1000))], log[key := attempts];
      if !replied {
        return false, true;
      }
      return count < limit, false;
    }
  }

  lemma LogAppend(log: seq<Attempt>, a: Attempt, seconds: nat)
    ensures
      var c, calls := Call((a.nanos, a.micros), Milli(a.nanos), a.server), Calls(log + [a]);
      && (log + [a])[..|log|] == log
      && State(calls, seconds * 1000) == After(State(Calls(log), seconds * 1000), c, seconds * 1000)
      && KeptAt(calls, |log|, seconds * 1000) == Kept(State(Calls(log), seconds * 1000), c, seconds * 1000)
  {
    var calls := Calls(log + [a]);
    assert calls[..|log|] == Calls(log);
    assert calls == Calls(log) + [calls[|log|]];
  }
}
