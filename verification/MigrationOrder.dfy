/** Sorting by file name is sorting by version when the version prefixes are distinct digit
    strings of one width. */
module MigrationOrder {
  import opened Entity
  import opened Migration

  lemma {:induction false} LessOnEqualWidth(a: string, b: string, x: string, y: string)
    requires |a| == |b| && Less(a + x, b + y) && a != b
    ensures Less(a, b)
  {
    if a == [] {
    } else if (a + x)[0] == (b + y)[0] {
      assert (a + x)[1..] == a[1..] + x && (b + y)[1..] == b[1..] + y;
      assert a == [a[0]] + a[1..] && b == [b[0]] + b[1..];
      LessOnEqualWidth(a[1..], b[1..], x, y);
    }
  }

  lemma {:induction false} LessLastDigit(a: string, c: char, d: char)
    requires Less(a + [c], a + [d])
    ensures c < d
  {
    if a != [] {
      assert (a + [c])[1..] == a[1..] + [c] && (a + [d])[1..] == a[1..] + [d];
      LessLastDigit(a[1..], c, d);
    }
  }

  /** On digit strings of equal width the order of names is the order of the numbers. */
  lemma {:induction false} LessIsNumeric(a: string, b: string)
    requires |a| == |b| && AllDigits(a) && AllDigits(b)
    requires Less(a, b)
    ensures Value(a) < Value(b)
    decreases |a|
  {
    var n := |a| - 1;
    var a', b' := a[..n], b[..n];
    assert a == a' + [a[n]] && b == b' + [b[n]];
    assert IsDigit(a[n]) && IsDigit(b[n]);
    if a' == b' {
      LessLastDigit(a', a[n], b[n]);
    } else {
      LessOnEqualWidth(a', b', [a[n]], [b[n]]);
      LessIsNumeric(a', b');
    }
  }

  lemma {:induction false} PrefixIsPrefix(name: string)
    ensures |Prefix(name)| <= |name| && name == Prefix(name) + name[|Prefix(name)|..]
  {
    if name != [] && name[0] != '_' {
      PrefixIsPrefix(name[1..]);
      assert name == [name[0]] + name[1..];
    }
  }

  /** The migrations of a directory carry distinct digit prefixes of one width. */
  ghost predicate Numbered(es: seq<Entry>, width: nat) {
    && width > 0
    && (forall e | e in es && Eligible(e) :: |Prefix(e.name)| == width && AllDigits(Prefix(e.name)))
    && (forall a, b | a in es && b in es && a != b && Eligible(a) && Eligible(b) :: Prefix(a.name) != Prefix(b.name))
  }

  lemma EarlierIsSmaller(a: Entry, b: Entry, width: nat)
    requires Less(a.name, b.name) && width > 0
    requires |Prefix(a.name)| == |Prefix(b.name)| == width && Prefix(a.name) != Prefix(b.name)
    requires AllDigits(Prefix(a.name)) && AllDigits(Prefix(b.name))
    requires Version(a).Some? && Version(b).Some?
    ensures Version(a).value < Version(b).value
  {
    var p, q := Prefix(a.name), Prefix(b.name);
    PrefixIsPrefix(a.name);
    PrefixIsPrefix(b.name);
    LessOnEqualWidth(p, q, a.name[width..], b.name[width..]);
    LessIsNumeric(p, q);
    assert IsDigit(p[0]) && IsDigit(q[0]);
  }

  predicate Increasing(log: seq<Applied>) {
    forall i, j :: 0 <= i < j < |log| ==> log[i].version < log[j].version
  }

  lemma {:induction false} OutstandingComesFrom(es: seq<Entry>, done: set<int>, a: Applied)
    requires a in Outstanding(es, done)
    ensures exists i :: 0 <= i < |es| && Eligible(es[i]) && Version(es[i]) == Some(a.version)
  {
    if Eligible(es[0]) && Version(es[0]) == Some(a.version) {
    } else {
      var done' := if Eligible(es[0]) && Version(es[0]).Some? then done + {Version(es[0]).value} else done;
      assert Eligible(es[0]) && Version(es[0]).Some? && Version(es[0]).value in done ==> done' == done;
      OutstandingComesFrom(es[1..], done', a);
      var i :| 0 <= i < |es[1..]| && Eligible(es[1..][i]) && Version(es[1..][i]) == Some(a.version);
      assert es[i + 1] == es[1..][i];
    }
  }

  lemma TailNumbered(es: seq<Entry>, width: nat)
    requires es != [] && SortedNames(es) && Numbered(es, width)
    ensures SortedNames(es[1..]) && Numbered(es[1..], width)
  {
    assert forall e <- es[1..] :: e in es;
  }

  lemma HeadIsSmallest(es: seq<Entry>, width: nat, done: set<int>, a: Applied)
    requires es != [] && SortedNames(es) && Numbered(es, width)
    requires Eligible(es[0]) && Version(es[0]).Some?
    requires a in Outstanding(es[1..], done)
    ensures Version(es[0]).value < a.version
  {
    OutstandingComesFrom(es[1..], done, a);
    var i :| 0 <= i < |es[1..]| && Eligible(es[1..][i]) && Version(es[1..][i]) == Some(a.version);
    assert es[i + 1] == es[1..][i] && es[i + 1] in es && es[0] in es;
    LessIrreflexive(es[0].name);
    EarlierIsSmaller(es[0], es[i + 1], width);
  }

  lemma {:induction false} SortedAppliesInOrder(es: seq<Entry>, width: nat, done: set<int>)
    requires SortedNames(es) && Numbered(es, width)
    ensures Increasing(Outstanding(es, done))
  {
    hide SortedNames, Numbered, Version, Eligible;
    if es == [] {
    } else if !Eligible(es[0]) {
      TailNumbered(es, width);
      SortedAppliesInOrder(es[1..], width, done);
    } else if Version(es[0]).Some? {
      var v := Version(es[0]).value;
      TailNumbered(es, width);
      if v in done {
        SortedAppliesInOrder(es[1..], width, done);
      } else {
        SortedAppliesInOrder(es[1..], width, done + {v});
        var later := Outstanding(es[1..], done + {v});
        forall j | 0 <= j < |later| ensures v < later[j].version {
          HeadIsSmallest(es, width, done + {v}, later[j]);
        }
      }
    }
  }

  /** For a directory of any size whose migrations carry distinct digit prefixes of one width,
      whatever a run applies is applied in strictly increasing version order. */
  lemma AppliesInVersionOrder(entries: seq<Entry>, width: nat, done: set<int>)
    requires DistinctNames(entries) && Numbered(entries, width)
    ensures Increasing(Outstanding(Sort(entries), done))
  {
    SortSorts(entries);
    var es := Sort(entries);
    forall e <- es ensures e in entries {
      assert e in multiset(es);
    }
    SortedAppliesInOrder(es, width, done);
  }
}
