/** The migration runner: it sorts a directory by name and applies each script not applied yet
    in a transaction of its own. */
module Migration {
  import opened Entity

  datatype Entry = Entry(name: string, isDir: bool, text: string)
  datatype Applied = Applied(version: int, text: string)

  const MAX_VERSION := 0x7fff_ffff_ffff_ffff

  // ---------------------------------------------------------------- names and versions

  predicate HasSuffix(s: string, suffix: string) {
    |suffix| <= |s| && s[|s| - |suffix|..] == suffix
  }

  predicate Eligible(e: Entry) {
    !e.isDir && HasSuffix(e.name, ".up.sql")
  }

  /** The text before the first underscore, or all of it. */
  function Prefix(name: string): string {
    if name == [] || name[0] == '_' then [] else [name[0]] + Prefix(name[1..])
  }

  predicate IsDigit(c: char) {
    '0' <= c <= '9'
  }

  predicate AllDigits(s: string) {
    forall i :: 0 <= i < |s| ==> IsDigit(s[i])
  }

  function Value(s: string): nat
    requires AllDigits(s)
  {
    if s == [] then 0 else 10 * Value(s[..|s| - 1]) + (s[|s| - 1] as int - '0' as int)
  }

  /** Base-10 parsing into 64 bits: an optional sign, then at least one digit, within range. */
  function ParseVersion(s: string): Option<int> {
    var digits := if s != [] && s[0] in {'+', '-'} then s[1..] else s;
    if digits == [] || !AllDigits(digits) then None
    else
      var v: int := if s[0] == '-' then 0 - Value(digits) else Value(digits);
      if -MAX_VERSION - 1 <= v <= MAX_VERSION then Some(v) else None
  }

  function Version(e: Entry): Option<int> {
    ParseVersion(Prefix(e.name))
  }

  /** The order of file names, character by character. */
  predicate Less(a: string, b: string) {
    b != [] && (a == [] || a[0] < b[0] || (a[0] == b[0] && Less(a[1..], b[1..])))
  }

  lemma {:induction false} LessTotal(a: string, b: string)
    ensures a != b ==> Less(a, b) || Less(b, a)
  {
    if a != [] && b != [] && a[0] == b[0] {
      LessTotal(a[1..], b[1..]);
      assert a == [a[0]] + a[1..] && b == [b[0]] + b[1..];
    }
  }

  lemma {:induction false} LessTransitive(a: string, b: string, c: string)
    requires Less(a, b) && Less(b, c)
    ensures Less(a, c)
  {
    if a != [] && a[0] == b[0] && b[0] == c[0] {
      LessTransitive(a[1..], b[1..], c[1..]);
    }
  }

  // ---------------------------------------------------------------- sorting a directory

  predicate DistinctNames(es: seq<Entry>) {
    forall i, j :: 0 <= i < j < |es| ==> es[i].name != es[j].name
  }

  predicate SortedNames(es: seq<Entry>) {
    forall i, j :: 0 <= i < j < |es| ==> Less(es[i].name, es[j].name)
  }

  function Insert(e: Entry, es: seq<Entry>): seq<Entry> {
    if es == [] || Less(e.name, es[0].name) then [e] + es else [es[0]] + Insert(e, es[1..])
  }

  function Sort(es: seq<Entry>): seq<Entry> {
    if es == [] then [] else Insert(es[0], Sort(es[1..]))
  }

  lemma {:induction false} InsertKeepsAll(e: Entry, es: seq<Entry>)
    ensures multiset(Insert(e, es)) == multiset(es) + multiset{e}
  {
    if es != [] && !Less(e.name, es[0].name) {
      InsertKeepsAll(e, es[1..]);
      assert es == [es[0]] + es[1..];
    }
  }

  lemma {:induction false} InsertSorts(e: Entry, es: seq<Entry>)
    requires SortedNames(es) && forall x <- es :: x.name != e.name
    ensures SortedNames(Insert(e, es))
  {
    if es == [] {
    } else if Less(e.name, es[0].name) {
      forall j | 0 <= j < |es| ensures Less(e.name, es[j].name) {
        if j > 0 {
          LessTransitive(e.name, es[0].name, es[j].name);
        }
      }
    } else {
      LessTotal(e.name, es[0].name);
      InsertSorts(e, es[1..]);
      InsertKeepsAll(e, es[1..]);
      var rest := Insert(e, es[1..]);
      forall j | 0 <= j < |rest| ensures Less(es[0].name, rest[j].name) {
        assert rest[j] in multiset(rest);
        assert rest[j] == e || rest[j] in es[1..];
      }
    }
  }

  /** Sorting a directory keeps its entries and orders them by name. */
  lemma {:induction false} SortSorts(es: seq<Entry>)
    requires DistinctNames(es)
    ensures SortedNames(Sort(es)) && multiset(Sort(es)) == multiset(es)
  {
    if es != [] {
      SortSorts(es[1..]);
      InsertKeepsAll(es[0], Sort(es[1..]));
      assert es == [es[0]] + es[1..];
      forall x <- Sort(es[1..]) ensures x.name != es[0].name {
        assert x in multiset(es[1..]);
      }
      InsertSorts(es[0], Sort(es[1..]));
    }
  }

  // ---------------------------------------------------------------- what a run has to do

  function Versions(log: seq<Applied>): set<int> {
    set a | a in log :: a.version
  }

  lemma VersionsAppend(log: seq<Applied>, a: Applied)
    ensures Versions(log + [a]) == Versions(log) + {a.version}
  {
  }

  /** The scripts that a run over these entries still has to apply, up to the first name whose
      version does not parse. */
  function Outstanding(es: seq<Entry>, done: set<int>): seq<Applied> {
    if es == [] then []
    else if !Eligible(es[0]) then Outstanding(es[1..], done)
    else
      match Version(es[0])
      case None => []
      case Some(v) =>
        if v in done then Outstanding(es[1..], done)
        else [Applied(v, es[0].text)] + Outstanding(es[1..], done + {v})
  }

  predicate WellNamed(es: seq<Entry>) {
    forall e <- es :: Eligible(e) ==> Version(e).Some?
  }

  lemma {:induction false} OutstandingAfter(es: seq<Entry>, done: set<int>, k: nat)
    requires k <= |Outstanding(es, done)|
    ensures Outstanding(es, done + Versions(Outstanding(es, done)[..k])) == Outstanding(es, done)[k..]
  {
    var plan := Outstanding(es, done);
    if es == [] {
    } else if !Eligible(es[0]) {
      OutstandingAfter(es[1..], done, k);
    } else if Version(es[0]).Some? {
      var v := Version(es[0]).value;
      if v in done {
        OutstandingAfter(es[1..], done, k);
      } else if k == 0 {
        assert done + Versions(plan[..0]) == done;
      } else {
        var rest := Outstanding(es[1..], done + {v});
        OutstandingAfter(es[1..], done + {v}, k - 1);
        assert plan[..k] == [plan[0]] + rest[..k - 1];
        assert done + Versions(plan[..k]) == (done + {v}) + Versions(rest[..k - 1]);
        assert plan[k..] == rest[k - 1..];
      }
    }
  }

  lemma {:induction false} OutstandingCoversAll(es: seq<Entry>, done: set<int>, e: Entry)
    requires WellNamed(es) && e in es && Eligible(e)
    ensures Version(e).value in done + Versions(Outstanding(es, done))
  {
    if !Eligible(es[0]) {
      OutstandingCoversAll(es[1..], done, e);
    } else {
      assert Version(es[0]).Some?;
      var v := Version(es[0]).value;
      if v in done {
        if e != es[0] {
          OutstandingCoversAll(es[1..], done, e);
        }
      } else {
        var rest := Outstanding(es[1..], done + {v});
        assert Outstanding(es, done) == [Applied(v, es[0].text)] + rest;
        assert Applied(v, es[0].text) in Outstanding(es, done);
        if e != es[0] {
          OutstandingCoversAll(es[1..], done + {v}, e);
          forall x <- Versions(rest) ensures x in Versions(Outstanding(es, done)) {
            var a :| a in rest && a.version == x;
            assert a in Outstanding(es, done);
          }
        }
      }
    }
  }

  /** A run that stopped after k scripts is continued by the next one exactly where it stopped,
      and after a complete run nothing is pending and every eligible version is applied. */
  lemma Resumes(es: seq<Entry>, log: seq<Applied>, k: nat)
    requires k <= |Outstanding(es, Versions(log))|
    ensures var plan := Outstanding(es, Versions(log));
            && Outstanding(es, Versions(log + plan[..k])) == plan[k..]
            && Outstanding(es, Versions(log + plan)) == []
            && (WellNamed(es) ==>
                  forall e | e in es && Eligible(e) :: Version(e).value in Versions(log + plan))
  {
    var plan := Outstanding(es, Versions(log));
    OutstandingAfter(es, Versions(log), k);
    OutstandingAfter(es, Versions(log), |plan|);
    assert Versions(log + plan[..k]) == Versions(log) + Versions(plan[..k]);
    assert plan[..|plan|] == plan && Versions(log + plan) == Versions(log) + Versions(plan);
    if WellNamed(es) {
      forall e | e in es && Eligible(e) ensures Version(e).value in Versions(log + plan) {
        OutstandingCoversAll(es, Versions(log), e);
      }
    }
  }

  // ---------------------------------------------------------------- what a name says

  /** The entry is a file whose name ends like this. */
  ghost predicate FileNamed(e: Entry, suffix: string) {
    !e.isDir && exists p :: e.name == p + suffix
  }

  /** The entries that a run reads are the files named p.up.sql, for any p. */
  lemma EligibleIff(e: Entry)
    ensures Eligible(e) <==> FileNamed(e, ".up.sql")
  {
    var n := |e.name| - |".up.sql"|;
    if Eligible(e) {
      assert e.name == e.name[..n] + ".up.sql";
    }
    if FileNamed(e, ".up.sql") {
      var p :| e.name == p + ".up.sql";
      assert e.name[|p|..] == ".up.sql";
    }
  }

  lemma BeforeSuffix(e: Entry, suffix: string, k: nat)
    requires FileNamed(e, suffix) && k < |suffix|
    ensures |e.name| > k && e.name[|e.name| - 1 - k] == suffix[|suffix| - 1 - k]
  {
    var p :| e.name == p + suffix;
  }

  lemma DownIsNotUp(e: Entry)
    requires FileNamed(e, ".down.sql")
    ensures !FileNamed(e, ".up.sql")
  {
    BeforeSuffix(e, ".down.sql", 4);
    if FileNamed(e, ".up.sql") {
      BeforeSuffix(e, ".up.sql", 4);
    }
  }

  /** A digit string counts in base ten. */
  lemma ValueIsDecimal(s: string, c: char)
    requires AllDigits(s) && '0' <= c <= '9'
    ensures AllDigits(s + [c]) && Value(s + [c]) == 10 * Value(s) + (c as int - '0' as int)
    ensures Value("") == 0
  {
    assert (s + [c])[..|s|] == s;
  }

  /** The prefix of a name ends before its first underscore, or is all of it. */
  lemma {:induction false} PrefixStops(text: string, rest: string)
    requires '_' !in text
    ensures Prefix(text + "_" + rest) == text && Prefix(text) == text
  {
    if text != [] {
      var s := text + "_" + rest;
      assert s[1..] == text[1..] + "_" + rest;
      PrefixStops(text[1..], rest);
      assert text == [text[0]] + text[1..];
    }
  }

  lemma DigitsHoldNoUnderscore(digits: string)
    requires AllDigits(digits)
    ensures '_' !in digits
  {
    forall i | 0 <= i < |digits| ensures digits[i] != '_' {
      assert IsDigit(digits[i]);
    }
  }

  lemma ParseSigned(sign: string, digits: string)
    requires sign in {"", "+", "-"} && digits != "" && AllDigits(digits)
    ensures ParseVersion(sign + digits)
            == if sign == "-" then (if Value(digits) <= 9223372036854775808 then Some(0 - Value(digits)) else None)
               else if Value(digits) <= 9223372036854775807 then Some(Value(digits)) else None
  {
    hide Value;
    assert IsDigit(digits[0]);
    if sign == "" {
      assert sign + digits == digits;
    } else {
      assert (sign + digits)[1..] == digits;
    }
  }

  /** A name that starts with a number, signed or not, and an underscore carries it as its version,
      if it fits 64 signed bits, and none otherwise. */
  lemma VersionOfName(e: Entry, sign: string, digits: string, rest: string)
    requires sign in {"", "+", "-"} && digits != "" && AllDigits(digits)
    requires e.name == sign + digits + "_" + rest
    ensures Version(e)
            == if sign == "-" then (if Value(digits) <= 9223372036854775808 then Some(0 - Value(digits)) else None)
               else if Value(digits) <= 9223372036854775807 then Some(Value(digits)) else None
  {
    hide ParseVersion, Value, Prefix, AllDigits;
    DigitsHoldNoUnderscore(digits);
    PrefixStops(sign + digits, rest);
    ParseSigned(sign, digits);
  }

  /** And only such names, or such a number as the whole name, have one. */
  lemma VersionNeedsNumber(e: Entry)
    requires Version(e).Some?
    ensures exists sign, digits ::
              sign in {"", "+", "-"} && digits != "" && AllDigits(digits) && Prefix(e.name) == sign + digits
  {
    var s := Prefix(e.name);
    if s[0] in {'+', '-'} {
      assert s == s[..1] + s[1..] && s[..1] in {"", "+", "-"} && AllDigits(s[1..]);
    } else {
      assert s == "" + s && AllDigits(s);
    }
  }

  // ---------------------------------------------------------------- the runner

  /** What happens to one file's statements and transaction. */
  datatype Fate = Fate(asked: bool, readable: bool, begun: bool, ran: bool, committed: bool)

  predicate Good(f: Fate) {
    f.asked && f.readable && f.begun && f.ran && f.committed
  }

  /** The scripts that a run over these entries applies before it ends, and whether it succeeds. */
  datatype Outcome = Outcome(applied: seq<Applied>, ok: bool)

  function Ran(es: seq<Entry>, done: set<int>, fates: string -> Fate): Outcome {
    if es == [] then Outcome([], true)
    else
      var e, f := es[0], fates(es[0].name);
      if !Eligible(e) then Ran(es[1..], done, fates)
      else if Version(e).None? || !f.asked then Outcome([], false)
      else if Version(e).value in done then Ran(es[1..], done, fates)
      else if !f.readable || !f.begun || !f.ran || !f.committed then Outcome([], false)
      else
        var v := Version(e).value;
        var rest := Ran(es[1..], done + {v}, fates);
        Outcome([Applied(v, e.text)] + rest.applied, rest.ok)
  }

  /** It is a prefix of what is outstanding, all of it exactly when the run succeeds, and a run
      succeeds if and only if every name read carries a version and no call it makes fails. */
  lemma {:induction false} RanIsPrefix(es: seq<Entry>, done: set<int>, fates: string -> Fate)
    ensures var r := Ran(es, done, fates);
            && r.applied <= Outstanding(es, done)
            && (r.ok ==> WellNamed(es) && r.applied == Outstanding(es, done))
            && (WellNamed(es) && (forall e <- es :: Good(fates(e.name))) ==> r.ok)
  {
    if es != [] {
      var e := es[0];
      RanIsPrefix(es[1..], done, fates);
      if Version(e).Some? {
        RanIsPrefix(es[1..], done + {Version(e).value}, fates);
      }
      assert es == [e] + es[1..];
      assert WellNamed(es) <==> (Eligible(e) ==> Version(e).Some?) && WellNamed(es[1..]);
    }
  }

  // ---------------------------------------------------------------- only the up scripts matter

  function UpOnly(es: seq<Entry>): seq<Entry> {
    if es == [] then []
    else if Eligible(es[0]) then [es[0]] + UpOnly(es[1..])
    else UpOnly(es[1..])
  }

  lemma {:induction false} RanUpOnly(es: seq<Entry>, done: set<int>, fates: string -> Fate)
    ensures Ran(es, done, fates) == Ran(UpOnly(es), done, fates)
  {
    if es != [] {
      RanUpOnly(es[1..], done, fates);
      if Eligible(es[0]) {
        assert ([es[0]] + UpOnly(es[1..]))[1..] == UpOnly(es[1..]);
        if Version(es[0]).Some? {
          RanUpOnly(es[1..], done + {Version(es[0]).value}, fates);
        }
      }
    }
  }

  lemma {:induction false} InUpOnly(es: seq<Entry>, e: Entry)
    ensures e in UpOnly(es) <==> e in es && Eligible(e)
  {
    if es != [] {
      InUpOnly(es[1..], e);
      assert e in es <==> e == es[0] || e in es[1..];
    }
  }

  lemma {:induction false} UpOnlySorted(es: seq<Entry>)
    requires SortedNames(es)
    ensures SortedNames(UpOnly(es))
  {
    if es != [] {
      UpOnlySorted(es[1..]);
      var rest := UpOnly(es[1..]);
      forall j | 0 <= j < |rest| ensures Less(es[0].name, rest[j].name) {
        InUpOnly(es[1..], rest[j]);
      }
    }
  }

  lemma {:induction false} LessIrreflexive(a: string)
    ensures !Less(a, a)
  {
    if a != [] {
      LessIrreflexive(a[1..]);
    }
  }

  lemma HeadIsLeast(a: seq<Entry>, b: seq<Entry>)
    requires SortedNames(a) && SortedNames(b) && a != [] && b != []
    requires a[0] in b && b[0] in a
    ensures a[0] == b[0]
  {
    if a[0] != b[0] {
      LessTransitive(a[0].name, b[0].name, a[0].name);
      LessIrreflexive(a[0].name);
    }
  }

  /** A sorted directory is determined by its entries. */
  lemma {:induction false} SortedOnce(a: seq<Entry>, b: seq<Entry>)
    requires SortedNames(a) && SortedNames(b)
    requires forall e :: e in a <==> e in b
    ensures a == b
  {
    assert b != [] ==> b[0] in b;
    if a != [] {
      assert a[0] in a;
      HeadIsLeast(a, b);
      LessIrreflexive(a[0].name);
      forall e: Entry ensures e in a[1..] <==> e in b[1..] {
        assert e in a <==> e == a[0] || e in a[1..];
        assert e in b <==> e == b[0] || e in b[1..];
      }
      SortedOnce(a[1..], b[1..]);
    }
  }

  lemma InSort(es: seq<Entry>, e: Entry)
    requires DistinctNames(es)
    ensures e in Sort(es) <==> e in es
  {
    SortSorts(es);
    assert e in Sort(es) <==> e in multiset(Sort(es));
    assert e in es <==> e in multiset(es);
  }

  /** Two directories with the same files named p.up.sql, in whatever order and whatever else they
      hold, are migrated alike: the same scripts are applied, with the same success. */
  lemma OnlyUpScriptsMatter(a: seq<Entry>, b: seq<Entry>, done: set<int>, fates: string -> Fate)
    requires DistinctNames(a) && DistinctNames(b)
    requires forall e :: FileNamed(e, ".up.sql") ==> (e in a <==> e in b)
    ensures Ran(Sort(a), done, fates) == Ran(Sort(b), done, fates)
  {
    SortSorts(a);
    SortSorts(b);
    UpOnlySorted(Sort(a));
    UpOnlySorted(Sort(b));
    forall e: Entry ensures e in UpOnly(Sort(a)) <==> e in UpOnly(Sort(b)) {
      EligibleIff(e);
      InUpOnly(Sort(a), e);
      InUpOnly(Sort(b), e);
      InSort(a, e);
      InSort(b, e);
    }
    SortedOnce(UpOnly(Sort(a)), UpOnly(Sort(b)));
    RanUpOnly(Sort(a), done, fates);
    RanUpOnly(Sort(b), done, fates);
  }

  /** In particular down scripts beside them change nothing. */
  lemma DownScriptsDoNotMatter(entries: seq<Entry>, downs: seq<Entry>, done: set<int>, fates: string -> Fate)
    requires DistinctNames(entries + downs)
    requires forall e <- downs :: FileNamed(e, ".down.sql")
    ensures Ran(Sort(entries + downs), done, fates) == Ran(Sort(entries), done, fates)
  {
    assert entries == (entries + downs)[..|entries|];
    forall e: Entry | FileNamed(e, ".up.sql") ensures e in entries + downs <==> e in entries {
      if e in downs {
        DownIsNotUp(e);
      }
    }
    OnlyUpScriptsMatter(entries + downs, entries, done, fates);
  }

  /** Whatever is outstanding is the text of a file named p.up.sql, under the version in its name. */
  lemma {:induction false} OutstandingIsUp(es: seq<Entry>, done: set<int>, a: Applied)
    requires a in Outstanding(es, done)
    ensures exists e <- es :: FileNamed(e, ".up.sql") && e.text == a.text && Version(e) == Some(a.version)
  {
    EligibleIff(es[0]);
    if Eligible(es[0]) && Version(es[0]) == Some(a.version) && es[0].text == a.text {
      assert es[0] in es;
    } else {
      var done' := if Eligible(es[0]) && Version(es[0]).Some? then done + {Version(es[0]).value} else done;
      assert Eligible(es[0]) && Version(es[0]).Some? && Version(es[0]).value in done ==> done' == done;
      OutstandingIsUp(es[1..], done', a);
      var e :| e in es[1..] && FileNamed(e, ".up.sql") && e.text == a.text && Version(e) == Some(a.version);
      assert e in es;
    }
  }

  lemma AllUpApplied(entries: seq<Entry>, log: seq<Applied>)
    requires DistinctNames(entries) && WellNamed(Sort(entries))
    ensures forall e | e in entries && FileNamed(e, ".up.sql") ::
              Version(e).Some? && Version(e).value in Versions(log + Outstanding(Sort(entries), Versions(log)))
  {
    var es := Sort(entries);
    Resumes(es, log, 0);
    forall e | e in entries && FileNamed(e, ".up.sql")
      ensures Version(e).Some? && Version(e).value in Versions(log + Outstanding(es, Versions(log)))
    {
      EligibleIff(e);
      InSort(entries, e);
    }
  }

  lemma OnlyUpApplied(entries: seq<Entry>, done: set<int>, a: Applied)
    requires DistinctNames(entries) && a in Outstanding(Sort(entries), done)
    ensures exists e <- entries :: FileNamed(e, ".up.sql") && e.text == a.text && Version(e) == Some(a.version)
  {
    OutstandingIsUp(Sort(entries), done, a);
    var e :| e in Sort(entries) && FileNamed(e, ".up.sql") && e.text == a.text && Version(e) == Some(a.version);
    InSort(entries, e);
  }

  // ---------------------------------------------------------------- the manager

  /** What the loop does at position i. */
  lemma NextEntry(es: seq<Entry>, i: nat, done: set<int>)
    requires i < |es|
    ensures var e, later := es[i], es[i + 1..];
            Outstanding(es[i..], done)
            == if !Eligible(e) || (Version(e).Some? && Version(e).value in done) then Outstanding(later, done)
               else if Version(e).None? then []
               else [Applied(Version(e).value, e.text)] + Outstanding(later, done + {Version(e).value})
  {
  }

  lemma NextRan(es: seq<Entry>, i: nat, done: set<int>, fates: string -> Fate)
    requires i < |es|
    ensures var e, f, later := es[i], fates(es[i].name), es[i + 1..];
            Ran(es[i..], done, fates)
            == if !Eligible(e) then Ran(later, done, fates)
               else if Version(e).None? || !f.asked then Outcome([], false)
               else if Version(e).value in done then Ran(later, done, fates)
               else if !f.readable || !f.begun || !f.ran || !f.committed then Outcome([], false)
               else
                 var rest := Ran(later, done + {Version(e).value}, fates);
                 Outcome([Applied(Version(e).value, e.text)] + rest.applied, rest.ok)
  {
    assert es[i..][1..] == es[i + 1..];
  }

  class Manager {
    var log: seq<Applied>  // the committed migrations in order; their versions are the table

    constructor ()
      ensures log == []
    {
      log := [];
    }

    /** Applies a prefix of the pending scripts, all of them exactly when it succeeds.  Every script
        applied is a file named p.up.sql, and a successful run leaves the version of every such
        file applied. */
    method Migrate(created: bool, listed: bool, entries: seq<Entry>, fates: string -> Fate) returns (ok: bool)
      modifies this
      ensures old(log) <= log
      ensures log[|old(log)|..] <= Outstanding(Sort(entries), Versions(old(log)))
      ensures ok ==> created && listed && WellNamed(Sort(entries))
                     && log == old(log) + Outstanding(Sort(entries), Versions(old(log)))
      ensures created && listed && WellNamed(Sort(entries)) && (forall e <- Sort(entries) :: Good(fates(e.name)))
              ==> ok
      ensures if created && listed
              then Outcome(log[|old(log)|..], ok) == Ran(Sort(entries), Versions(old(log)), fates)
              else !ok && log == old(log)
      ensures DistinctNames(entries) ==>
                forall a <- log[|old(log)|..] ::
                  exists e <- entries :: FileNamed(e, ".up.sql") && e.text == a.text && Version(e) == Some(a.version)
      ensures DistinctNames(entries) && ok ==>
                forall e <- entries :: FileNamed(e, ".up.sql") ==>
                  Version(e).Some? && Version(e).value in Versions(log)
    {
      if !created || !listed {
        return false;
      }
      ok := ApplyAll(Sort(entries), fates);
      if DistinctNames(entries) {
        forall a <- log[|old(log)|..]
          ensures exists e <- entries :: FileNamed(e, ".up.sql") && e.text == a.text && Version(e) == Some(a.version)
        {
          OnlyUpApplied(entries, Versions(old(log)), a);
        }
        if ok {
          AllUpApplied(entries, old(log));
        }
      }
    }

    /** The loop over the sorted entries. */
    method ApplyAll(es: seq<Entry>, fates: string -> Fate) returns (ok: bool)
      modifies this
      ensures old(log) <= log
      ensures Outcome(log[|old(log)|..], ok) == Ran(es, Versions(old(log)), fates)
      ensures log[|old(log)|..] <= Outstanding(es, Versions(old(log)))
      ensures ok ==> WellNamed(es) && log == old(log) + Outstanding(es, Versions(old(log)))
      ensures WellNamed(es) && (forall e <- es :: Good(fates(e.name))) ==> ok
    {
      hide Ran, Outstanding, WellNamed, Eligible, Version, Versions;
      ghost var r := Ran(es, Versions(log), fates);
      RanIsPrefix(es, Versions(log), fates);
      assert es[0..] == es;
      for i := 0 to |es|
        invariant old(log) <= log
        invariant var rest := Ran(es[i..], Versions(log), fates);
                  r == Outcome(log[|old(log)|..] + rest.applied, rest.ok)
      {
        var e := es[i];
        NextRan(es, i, Versions(log), fates);
        if !Eligible(e) {
          continue;
        }
        var v := Version(e);
        var fate := fates(e.name);
        if v.None? || !fate.asked {
          return false;
        }
        var present := v.value in Versions(log);
        if present {
          continue;
        }
        if !fate.readable || !fate.begun || !fate.ran || !fate.committed {
          return false;
        }
        VersionsAppend(log, Applied(v.value, e.text));
        log := log + [Applied(v.value, e.text)];
      }
      NothingToRun(es, Versions(log), fates);
      return true;
    }
  }

  lemma NothingToRun(es: seq<Entry>, done: set<int>, fates: string -> Fate)
    ensures Ran(es[|es|..], done, fates) == Outcome([], true)
  {
  }
}
