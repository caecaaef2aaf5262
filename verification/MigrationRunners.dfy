/** Any number of migration runners against one database, interleaved.  The existence check of a
    version runs outside the transaction that applies it; the table's primary key decides. */
module MigrationRunners {
  import opened Entity
  import opened Migration

  /** A runner walks its sorted directory; after a negative check it holds the script to apply. */
  datatype Runner = Runner(es: seq<Entry>, at: nat, checked: Option<Applied>)

  datatype World = World(log: seq<Applied>, runners: map<nat, Runner>)

  datatype Step =
    | Start(r: nat, es: seq<Entry>)
    | Look(r: nat, asked: bool)
    | Apply(r: nat, good: bool)
    | Crash(r: nat)

  function Empty(): World {
    World([], map[])
  }

  function DoLook(w: World, r: nat, asked: bool): World {
    if r !in w.runners || w.runners[r].checked.Some? || w.runners[r].at >= |w.runners[r].es| then w
    else
      var m := w.runners[r];
      var e := m.es[m.at];
      if !Eligible(e) then w.(runners := w.runners[r := m.(at := m.at + 1)])
      else if Version(e).None? || !asked then w.(runners := w.runners - {r})
      else if Version(e).value in Versions(w.log) then w.(runners := w.runners[r := m.(at := m.at + 1)])
      else w.(runners := w.runners[r := m.(checked := Some(Applied(Version(e).value, e.text)))])
  }

  /** The script and the insert commit together; a taken key or any error rolls back and ends
      the run. */
  function DoApply(w: World, r: nat, good: bool): World {
    if r !in w.runners || w.runners[r].checked.None? then w
    else
      var m := w.runners[r];
      if !good || m.checked.value.version in Versions(w.log) then w.(runners := w.runners - {r})
      else World(w.log + [m.checked.value], w.runners[r := m.(at := m.at + 1, checked := None)])
  }

  function Do(w: World, s: Step): World {
    match s
    case Start(r, es) => if r in w.runners then w else w.(runners := w.runners[r := Runner(es, 0, None)])
    case Look(r, asked) => DoLook(w, r, asked)
    case Apply(r, good) => DoApply(w, r, good)
    case Crash(r) => w.(runners := w.runners - {r})
  }

  function Exec(w: World, run: seq<Step>): World
    decreases |run|
  {
    if run == [] then w else Exec(Do(w, run[0]), run[1..])
  }

  ghost predicate Unique(log: seq<Applied>) {
    forall i, j :: 0 <= i < j < |log| ==> log[i].version != log[j].version
  }

  /** Everything eligible that the runner has passed is applied. */
  ghost predicate Passed(w: World, m: Runner) {
    && m.at <= |m.es|
    && (m.checked.Some? ==>
          m.at < |m.es| && Eligible(m.es[m.at]) && Version(m.es[m.at]) == Some(m.checked.value.version))
    && (forall i :: 0 <= i < m.at && Eligible(m.es[i]) ==>
          Version(m.es[i]).Some? && Version(m.es[i]).value in Versions(w.log))
  }

  ghost predicate Consistent(w: World) {
    Unique(w.log) && forall r <- w.runners :: Passed(w, w.runners[r])
  }

  lemma PassedLater(w: World, a: Applied, m: Runner)
    requires Passed(w, m)
    ensures Passed(w.(log := w.log + [a]), m)
  {
    VersionsAppend(w.log, a);
  }

  lemma AppendUnique(log: seq<Applied>, a: Applied)
    requires Unique(log) && a.version !in Versions(log)
    ensures Unique(log + [a])
  {
    assert forall i :: 0 <= i < |log| ==> log[i] in log && log[i].version in Versions(log);
  }

  lemma OwnStep(w: World, m: Runner)
    requires Passed(w, m) && m.checked.Some?
    ensures Passed(w.(log := w.log + [m.checked.value]), m.(at := m.at + 1, checked := None))
  {
    PassedLater(w, m.checked.value, m);
    VersionsAppend(w.log, m.checked.value);
  }

  lemma ApplyConsistent(w: World, r: nat, good: bool)
    requires Consistent(w)
    ensures Consistent(DoApply(w, r, good))
  {
    hide Passed, Unique, Versions;
    var w' := DoApply(w, r, good);
    if w'.log != w.log {
      var m := w.runners[r];
      var a := m.checked.value;
      AppendUnique(w.log, a);
      forall x <- w'.runners ensures Passed(w', w'.runners[x]) {
        var w1 := w.(log := w.log + [a]);
        if x == r {
          OwnStep(w, m);
          SameLog(w1, w', w'.runners[x]);
        } else {
          PassedLater(w, a, w.runners[x]);
          SameLog(w1, w', w.runners[x]);
        }
      }
    } else {
      forall x <- w'.runners ensures Passed(w', w'.runners[x]) {
        SameLog(w, w', w.runners[x]);
      }
    }
  }

  lemma SameLog(w: World, w': World, m: Runner)
    requires Passed(w, m) && w'.log == w.log
    ensures Passed(w', m)
  {
  }

  lemma LookConsistent(w: World, r: nat, asked: bool)
    requires Consistent(w)
    ensures Consistent(DoLook(w, r, asked))
  {
    var w' := DoLook(w, r, asked);
    forall x <- w'.runners ensures Passed(w', w'.runners[x]) {
      assert Passed(w, w.runners[x]);
    }
  }

  lemma {:induction false} ExecConsistent(w: World, run: seq<Step>)
    requires Consistent(w)
    ensures Consistent(Exec(w, run))
    decreases |run|
  {
    if run != [] {
      match run[0] {
        case Look(r, asked) => LookConsistent(w, r, asked);
        case Apply(r, good) => ApplyConsistent(w, r, good);
        case Start(r, es) =>
          assert forall x <- Do(w, run[0]).runners :: x in w.runners || Passed(w, Do(w, run[0]).runners[x]);
        case Crash(r) =>
      }
      ExecConsistent(Do(w, run[0]), run[1..]);
    }
  }

  /** However many runners, failing scripts and crashes interleave, each version commits at most
      once. */
  lemma CommitsAtMostOnce(run: seq<Step>, i: nat, j: nat)
    requires i < j < |Exec(Empty(), run).log|
    ensures Exec(Empty(), run).log[i].version != Exec(Empty(), run).log[j].version
  {
    ExecConsistent(Empty(), run);
  }

  /** A runner that reaches the end of its directory leaves every eligible version applied,
      whoever applied it, so that nothing is outstanding for a next run. */
  lemma FinishedRunLeavesNothing(run: seq<Step>, r: nat)
    requires var w := Exec(Empty(), run);
             r in w.runners && w.runners[r].at == |w.runners[r].es|
    ensures var w := Exec(Empty(), run);
            var es := w.runners[r].es;
            && WellNamed(es)
            && (forall e | e in es && Eligible(e) :: Version(e).value in Versions(w.log))
            && Outstanding(es, Versions(w.log)) == []
  {
    ExecConsistent(Empty(), run);
    var w := Exec(Empty(), run);
    var es := w.runners[r].es;
    assert Passed(w, w.runners[r]);
    forall e | e in es && Eligible(e) ensures Version(e).Some? && Version(e).value in Versions(w.log) {
      var i :| 0 <= i < |es| && es[i] == e;
    }
    NothingOutstanding(es, Versions(w.log));
  }

  lemma {:induction false} NothingOutstanding(es: seq<Entry>, done: set<int>)
    requires forall e | e in es && Eligible(e) :: Version(e).Some? && Version(e).value in done
    ensures Outstanding(es, done) == []
  {
    if es != [] {
      assert forall e <- es[1..] :: e in es;
      NothingOutstanding(es[1..], done);
    }
  }

  // ---------------------------------------------------------------- one directory, many runners

  /** Every runner walks the same sorted directory. */
  predicate OneDirectory(run: seq<Step>, es: seq<Entry>) {
    forall s <- run :: s.Start? ==> s.es == es
  }

  /** A runner of this directory has only passed versions that are applied, and the script it
      holds is the one of its position. */
  ghost predicate Walks(log: seq<Applied>, m: Runner, es: seq<Entry>) {
    && m.es == es && m.at <= |es|
    && (m.checked.Some? ==>
          && m.at < |es| && Eligible(es[m.at]) && Version(es[m.at]).Some?
          && m.checked.value == Applied(Version(es[m.at]).value, es[m.at].text))
    && (forall i :: 0 <= i < m.at && Eligible(es[i]) ==>
          Version(es[i]).Some? && Version(es[i]).value in Versions(log))
  }

  ghost predicate InPlan(w: World, es: seq<Entry>) {
    && w.log <= Outstanding(es, {})
    && forall r <- w.runners :: Walks(w.log, w.runners[r], es)
  }

  /** What is outstanding begins behind the entries whose versions are all applied. */
  lemma {:induction false} SkipApplied(es: seq<Entry>, at: nat, done: set<int>)
    requires at <= |es|
    requires forall i :: 0 <= i < at && Eligible(es[i]) ==> Version(es[i]).Some? && Version(es[i]).value in done
    ensures Outstanding(es, done) == Outstanding(es[at..], done)
  {
    if at > 0 {
      SkipApplied(es[1..], at - 1, done);
      assert es[1..][at - 1..] == es[at..];
    }
  }

  /** So the script that a runner holds is the next one of the plan. */
  lemma HeldIsNext(log: seq<Applied>, m: Runner, es: seq<Entry>)
    requires log <= Outstanding(es, {}) && Walks(log, m, es) && m.checked.Some?
    requires m.checked.value.version !in Versions(log)
    ensures log + [m.checked.value] <= Outstanding(es, {})
  {
    var plan, k, done := Outstanding(es, {}), |log|, Versions(log);
    OutstandingAfter(es, {}, k);
    assert plan[..k] == log && {} + done == done;
    SkipApplied(es, m.at, done);
    NextEntry(es, m.at, done);
    assert plan[k..][0] == m.checked.value;
    assert plan[..k + 1] == log + [plan[k]];
  }

  lemma WalksLater(log: seq<Applied>, a: Applied, m: Runner, es: seq<Entry>)
    requires Walks(log, m, es)
    ensures Walks(log + [a], m, es)
    ensures m.checked == Some(a) ==> Walks(log + [a], m.(at := m.at + 1, checked := None), es)
  {
    VersionsAppend(log, a);
  }

  lemma ApplyInPlan(w: World, r: nat, good: bool, es: seq<Entry>)
    requires InPlan(w, es)
    ensures InPlan(DoApply(w, r, good), es)
  {
    hide Walks, Versions, Outstanding;
    var w' := DoApply(w, r, good);
    if w'.log != w.log {
      var m := w.runners[r];
      HeldIsNext(w.log, m, es);
      forall x <- w'.runners ensures Walks(w'.log, w'.runners[x], es) {
        WalksLater(w.log, m.checked.value, w.runners[x], es);
      }
    }
  }

  lemma LookInPlan(w: World, r: nat, asked: bool, es: seq<Entry>)
    requires InPlan(w, es)
    ensures InPlan(DoLook(w, r, asked), es)
  {
    hide Versions, Outstanding;
    var w' := DoLook(w, r, asked);
    forall x <- w'.runners ensures Walks(w'.log, w'.runners[x], es) {
      assert Walks(w.log, w.runners[x], es);
    }
  }

  lemma {:induction false} ExecInPlan(w: World, run: seq<Step>, es: seq<Entry>)
    requires InPlan(w, es) && OneDirectory(run, es)
    ensures InPlan(Exec(w, run), es)
    decreases |run|
  {
    if run != [] {
      assert run[0] in run && forall s <- run[1..] :: s in run;
      match run[0] {
        case Look(r, asked) => LookInPlan(w, r, asked, es);
        case Apply(r, good) => ApplyInPlan(w, r, good, es);
        case Start(r, started) =>
          var w' := Do(w, run[0]);
          forall x <- w'.runners ensures Walks(w'.log, w'.runners[x], es) {
            assert x in w.runners ==> Walks(w.log, w.runners[x], es);
          }
        case Crash(r) =>
      }
      ExecInPlan(Do(w, run[0]), run[1..], es);
    }
  }

  /** With any number of runners over one directory, however they interleave, fail and crash,
      the applied scripts are at every moment a prefix of what one undisturbed run applies, and
      all of it as soon as one runner finishes. */
  lemma LogIsPlanPrefix(run: seq<Step>, es: seq<Entry>)
    requires OneDirectory(run, es)
    ensures var w := Exec(Empty(), run);
            && w.log <= Outstanding(es, {})
            && Outstanding(es, Versions(w.log)) == Outstanding(es, {})[|w.log|..]
            && ((exists r <- w.runners :: w.runners[r].at == |es|) ==> w.log == Outstanding(es, {}))
  {
    var w, plan := Exec(Empty(), run), Outstanding(es, {});
    ExecInPlan(Empty(), run, es);
    OutstandingAfter(es, {}, |w.log|);
    assert plan[..|w.log|] == w.log && {} + Versions(w.log) == Versions(w.log);
    if r :| r in w.runners && w.runners[r].at == |es| {
      assert Walks(w.log, w.runners[r], es);
      SkipApplied(es, |es|, Versions(w.log));
      assert plan == plan[..|w.log|] + plan[|w.log|..];
    }
  }

  // ---------------------------------------------------------------- a runner alone

  /** The existence check and the transaction for one entry; a check that finds nothing to do
      leaves the second step without effect. */
  function EntrySteps(r: nat, f: Fate): seq<Step> {
    [Look(r, f.asked), Apply(r, f.readable && f.begun && f.ran && f.committed)]
  }

  function RunnerSteps(r: nat, es: seq<Entry>, fates: string -> Fate): seq<Step> {
    if es == [] then [] else EntrySteps(r, fates(es[0].name)) + RunnerSteps(r, es[1..], fates)
  }

  lemma OneEntry(w: World, r: nat, f: Fate)
    requires r in w.runners && w.runners[r].checked.None? && w.runners[r].at < |w.runners[r].es|
    ensures
      var m, w' := w.runners[r], Do(Do(w, Look(r, f.asked)), Apply(r, f.readable && f.begun && f.ran && f.committed));
      var e := m.es[m.at];
      var next := w.runners[r := m.(at := m.at + 1)];
      w' == if !Eligible(e) || (Version(e).Some? && f.asked && Version(e).value in Versions(w.log)) then w.(runners := next)
            else if Version(e).None? || !f.asked || !(f.readable && f.begun && f.ran && f.committed)
                 then w.(runners := w.runners - {r})
            else World(w.log + [Applied(Version(e).value, e.text)], next)
  {
    var m := w.runners[r];
    var e := m.es[m.at];
    if Eligible(e) && Version(e).Some? {
      var held := m.(checked := Some(Applied(Version(e).value, e.text)));
      assert w.runners[r := held] - {r} == w.runners - {r};
      assert w.runners[r := held][r := m.(at := m.at + 1)] == w.runners[r := m.(at := m.at + 1)];
    }
  }

  lemma {:induction false} EndedRunner(w: World, r: nat, es: seq<Entry>, fates: string -> Fate)
    requires r !in w.runners
    ensures Exec(w, RunnerSteps(r, es, fates)) == w
  {
    if es != [] {
      EndedRunner(w, r, es[1..], fates);
      assert Do(w, Look(r, fates(es[0].name).asked)) == w;
      ExecTwo(w, EntrySteps(r, fates(es[0].name)), RunnerSteps(r, es[1..], fates));
    }
  }

  lemma ExecTwo(w: World, two: seq<Step>, rest: seq<Step>)
    requires |two| == 2
    ensures Exec(w, two + rest) == Exec(Do(Do(w, two[0]), two[1]), rest)
  {
    hide Do;
    assert (two + rest)[1..] == [two[1]] + rest && ([two[1]] + rest)[1..] == rest;
    assert Exec(Do(w, two[0]), [two[1]] + rest) == Exec(Do(Do(w, two[0]), two[1]), rest);
  }

  lemma Overwritten(runners: map<nat, Runner>, r: nat, a: Runner, b: Runner)
    ensures runners[r := a][r := b] == runners[r := b] && runners[r := a] - {r} == runners - {r}
  {
  }

  lemma {:induction false} RestAlone(w: World, r: nat, fates: string -> Fate)
    requires r in w.runners && w.runners[r].checked.None? && w.runners[r].at <= |w.runners[r].es|
    ensures
      var m := w.runners[r];
      var w', ran := Exec(w, RunnerSteps(r, m.es[m.at..], fates)), Ran(m.es[m.at..], Versions(w.log), fates);
      && w'.log == w.log + ran.applied
      && w'.runners == if ran.ok then w.runners[r := m.(at := |m.es|)] else w.runners - {r}
    decreases |w.runners[r].es| - w.runners[r].at
  {
    hide Do, Eligible, Version;
    var m := w.runners[r];
    if m.at < |m.es| {
      var e, f, later := m.es[m.at], fates(m.es[m.at].name), RunnerSteps(r, m.es[m.at + 1..], fates);
      assert m.es[m.at..][1..] == m.es[m.at + 1..] && m.es[m.at..][0] == e;
      ExecTwo(w, EntrySteps(r, f), later);
      OneEntry(w, r, f);
      NextRan(m.es, m.at, Versions(w.log), fates);
      hide Exec, RunnerSteps, Ran, Versions;
      var w2 := Do(Do(w, EntrySteps(r, f)[0]), EntrySteps(r, f)[1]);
      if r in w2.runners {
        VersionsAppend(w.log, Applied(if Version(e).Some? then Version(e).value else 0, e.text));
        RestAlone(w2, r, fates);
        Overwritten(w.runners, r, m.(at := m.at + 1), m.(at := |m.es|));
      } else {
        EndedRunner(w2, r, m.es[m.at + 1..], fates);
      }
    }
  }

  /** A runner that nothing interrupts applies exactly what one run of the manager applies, and
      reaches the end of its directory exactly when that run succeeds. */
  lemma AloneIsMigrate(w: World, r: nat, es: seq<Entry>, fates: string -> Fate)
    requires r !in w.runners
    ensures
      var w', ran := Exec(w, [Start(r, es)] + RunnerSteps(r, es, fates)), Ran(es, Versions(w.log), fates);
      && w'.log == w.log + ran.applied
      && (ran.ok <==> r in w'.runners && w'.runners[r] == Runner(es, |es|, None))
  {
    var started := w.(runners := w.runners[r := Runner(es, 0, None)]);
    assert ([Start(r, es)] + RunnerSteps(r, es, fates))[1..] == RunnerSteps(r, es, fates);
    assert Do(w, Start(r, es)) == started && es[0..] == es;
    RestAlone(started, r, fates);
  }
}
