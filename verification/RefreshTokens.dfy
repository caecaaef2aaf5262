/** Refresh-token rotation as a protocol over the refresh_tokens table.  A refresh locks its row,
    checks what it read, revokes, issues and commits; other requests run in between.  A token is
    identified with its hash: the hash function is taken to be injective. */
module RefreshTokens {
  import opened Entity

  type Hash = nat

  datatype Token = Token(user: Id, expires: Time, revoked: bool)

  /** An open transaction of Refresh, holding the row lock of `hash`. */
  datatype Phase =
    | Locked(hash: Hash, seen: Token)
    | Revoked(hash: Hash, user: Id)
    | Issued(hash: Hash, user: Id, next: Hash, expires: Time)

  /** `chains` holds, per login, the tokens that descend from it in order of issue; `loginOf`
      says which login a token descends from; `owners` whose login it was; `exchanges` and
      `endings` log the committed refreshes and the effective logouts. */
  datatype World = World(
    now: Time,
    tokens: map<Hash, Token>,
    txs: map<nat, Phase>,
    chains: seq<seq<Hash>>,
    owners: seq<Id>,
    loginOf: map<Hash, nat>,
    exchanges: seq<(Hash, Hash)>,
    endings: seq<Id>)

  datatype Step =
    | Login(user: Id, issued: Hash, expires: Time)
    | Lock(x: nat, presented: Hash)
    | CheckAndRevoke(x: nat)
    | Issue(x: nat, next: Hash, expires: Time)
    | Commit(x: nat)
    | Abort(x: nat)
    | Logout(presented: Hash)

  /** The clock is read anew before each step; it may be set back. */
  datatype Action = Action(wait: int, step: Step)

  function Empty(now: Time): World {
    World(now, map[], map[], [], [], map[], [], [])
  }

  predicate Held(w: World, h: Hash) {
    exists x <- w.txs :: w.txs[x].hash == h
  }

  predicate BeingIssued(w: World, h: Hash) {
    exists x <- w.txs :: w.txs[x].Issued? && w.txs[x].next == h
  }

  /** The unique key on token_hash, against committed and uncommitted rows. */
  predicate Available(w: World, h: Hash) {
    h !in w.tokens && !BeingIssued(w, h)
  }

  function DoLogin(w: World, user: Id, h: Hash, expires: Time): World {
    if !Available(w, h) then w
    else
      w.(tokens := w.tokens[h := Token(user, expires, false)],
         chains := w.chains + [[h]],
         owners := w.owners + [user],
         loginOf := w.loginOf[h := |w.chains|])
  }

  /** SELECT ... FOR UPDATE: waits while another transaction holds the row; a row that does not
      exist locks nothing and the request ends unauthorized. */
  function DoLock(w: World, x: nat, h: Hash): World {
    if x in w.txs || h !in w.tokens || Held(w, h) then w
    else w.(txs := w.txs[x := Locked(h, w.tokens[h])])
  }

  /** The check uses the values that the locking read returned. */
  function DoCheckAndRevoke(w: World, x: nat): World {
    if x !in w.txs || !w.txs[x].Locked? then w
    else
      var t := w.txs[x];
      if t.seen.revoked || w.now > t.seen.expires then w.(txs := w.txs - {x})
      else w.(txs := w.txs[x := Revoked(t.hash, t.seen.user)])
  }

  function DoIssue(w: World, x: nat, next: Hash, expires: Time): World {
    if x !in w.txs || !w.txs[x].Revoked? then w
    else if !Available(w, next) then w.(txs := w.txs - {x})
    else w.(txs := w.txs[x := Issued(w.txs[x].hash, w.txs[x].user, next, expires)])
  }

  predicate Commits(w: World, x: nat) {
    && x in w.txs && w.txs[x].Issued?
    && w.txs[x].hash in w.tokens && w.txs[x].hash in w.loginOf
    && w.loginOf[w.txs[x].hash] < |w.chains|
  }

  function DoCommit(w: World, x: nat): World {
    if !Commits(w, x) then w
    else
      var t := w.txs[x];
      var login := w.loginOf[t.hash];
      w.(tokens := w.tokens[t.hash := w.tokens[t.hash].(revoked := true)][t.next := Token(t.user, t.expires, false)],
         txs := w.txs - {x},
         chains := w.chains[login := w.chains[login] + [t.next]],
         loginOf := w.loginOf[t.next := login],
         exchanges := w.exchanges + [(t.hash, t.next)])
  }

  /** UPDATE ... WHERE revoked_at IS NULL: waits for the row lock, then revokes if it can. */
  function DoLogout(w: World, h: Hash): World {
    if h !in w.tokens || w.tokens[h].revoked || Held(w, h) then w
    else
      w.(tokens := w.tokens[h := w.tokens[h].(revoked := true)],
         endings := w.endings + [w.tokens[h].user])
  }

  function Take(w: World, s: Step): World {
    match s
    case Login(user, h, expires) => DoLogin(w, user, h, expires)
    case Lock(x, h) => DoLock(w, x, h)
    case CheckAndRevoke(x) => DoCheckAndRevoke(w, x)
    case Issue(x, next, expires) => DoIssue(w, x, next, expires)
    case Commit(x) => DoCommit(w, x)
    case Abort(x) => w.(txs := w.txs - {x})
    case Logout(h) => DoLogout(w, h)
  }

  function Do(w: World, a: Action): World {
    Take(w.(now := w.now + a.wait), a.step)
  }

  function Exec(w: World, run: seq<Action>): World
    decreases |run|
  {
    if run == [] then w else Exec(Do(w, run[0]), run[1..])
  }

  // ---------------------------------------------------------------- locks

  /** What a transaction in this phase may rely on. */
  ghost predicate PhaseHolds(w: World, t: Phase) {
    && t.hash in w.tokens
    && match t
       case Locked(h, seen) => w.tokens[h] == seen
       case Revoked(h, user) => !w.tokens[h].revoked && w.tokens[h].user == user
       case Issued(h, user, next, _) => !w.tokens[h].revoked && w.tokens[h].user == user && next !in w.tokens
  }

  /** Locks exclude each other, issued hashes are distinct, and what was read stays true. */
  ghost predicate LocksHold(w: World) {
    && (forall x <- w.txs :: PhaseHolds(w, w.txs[x]))
    && (forall x, y | x in w.txs && y in w.txs && x != y :: w.txs[x].hash != w.txs[y].hash)
    && (forall x, y | x in w.txs && y in w.txs && x != y && w.txs[x].Issued? && w.txs[y].Issued? ::
          w.txs[x].next != w.txs[y].next)
  }

  lemma CommitKeepsLocks(w: World, x: nat)
    requires LocksHold(w)
    ensures LocksHold(DoCommit(w, x))
  {
    if Commits(w, x) {
      var w' := DoCommit(w, x);
      assert PhaseHolds(w, w.txs[x]);
      forall y <- w'.txs ensures PhaseHolds(w', w'.txs[y]) {
        assert PhaseHolds(w, w.txs[y]);
      }
    }
  }

  lemma LoginKeepsLocks(w: World, user: Id, h: Hash, expires: Time)
    requires LocksHold(w)
    ensures LocksHold(DoLogin(w, user, h, expires))
  {
    var w' := DoLogin(w, user, h, expires);
    forall y <- w'.txs ensures PhaseHolds(w', w'.txs[y]) {
      assert PhaseHolds(w, w.txs[y]);
    }
  }

  lemma LogoutKeepsLocks(w: World, h: Hash)
    requires LocksHold(w)
    ensures LocksHold(DoLogout(w, h))
  {
    var w' := DoLogout(w, h);
    forall y <- w'.txs ensures PhaseHolds(w', w'.txs[y]) {
      assert PhaseHolds(w, w.txs[y]);
    }
  }

  lemma LockKeepsLocks(w: World, x: nat, h: Hash)
    requires LocksHold(w)
    ensures LocksHold(DoLock(w, x, h))
  {
  }

  lemma CheckKeepsLocks(w: World, x: nat)
    requires LocksHold(w)
    ensures LocksHold(DoCheckAndRevoke(w, x))
  {
  }

  lemma IssueKeepsLocks(w: World, x: nat, next: Hash, expires: Time)
    requires LocksHold(w)
    ensures LocksHold(DoIssue(w, x, next, expires))
  {
  }

  lemma AbortKeepsLocks(w: World, x: nat)
    requires LocksHold(w)
    ensures LocksHold(w.(txs := w.txs - {x}))
  {
  }

  /** Steps that commit nothing change only the open transactions. */
  predicate Uncommitted(s: Step) {
    s.Lock? || s.CheckAndRevoke? || s.Issue? || s.Abort?
  }

  lemma UncommittedStep(w: World, s: Step)
    requires Uncommitted(s)
    ensures Take(w, s) == w.(txs := Take(w, s).txs)
  {
  }

  // ---------------------------------------------------------------- chains

  ghost predicate ChainOk(w: World, c: nat)
    requires c < |w.chains| == |w.owners|
  {
    var chain := w.chains[c];
    && chain != []
    && (forall j :: 0 <= j < |chain| ==>
          && chain[j] in w.tokens && chain[j] in w.loginOf && w.loginOf[chain[j]] == c
          && w.tokens[chain[j]].user == w.owners[c]
          && (j < |chain| - 1 ==> w.tokens[chain[j]].revoked))
    && (forall i, j :: 0 <= i < j < |chain| ==> chain[i] != chain[j])
  }

  /** Every token sits in the chain of its login. */
  ghost predicate ChainsOk(w: World) {
    && |w.chains| == |w.owners|
    && w.loginOf.Keys == w.tokens.Keys
    && (forall c: nat | c < |w.chains| :: ChainOk(w, c))
    && (forall h <- w.tokens :: w.loginOf[h] < |w.chains| && h in w.chains[w.loginOf[h]])
  }

  lemma UnrevokedIsLast(w: World, h: Hash)
    requires ChainsOk(w) && h in w.tokens && !w.tokens[h].revoked
    ensures var chain := w.chains[w.loginOf[h]]; chain != [] && chain[|chain| - 1] == h
  {
    assert ChainOk(w, w.loginOf[h]);
  }

  lemma LoginKeepsChains(w: World, user: Id, h: Hash, expires: Time)
    requires ChainsOk(w)
    ensures ChainsOk(DoLogin(w, user, h, expires))
  {
    if Available(w, h) {
      var w' := DoLogin(w, user, h, expires);
      forall c: nat | c < |w'.chains| ensures ChainOk(w', c) {
        if c < |w.chains| {
          assert ChainOk(w, c);
        }
      }
    }
  }

  lemma LogoutKeepsChains(w: World, h: Hash)
    requires ChainsOk(w)
    ensures ChainsOk(DoLogout(w, h))
  {
    var w' := DoLogout(w, h);
    forall c: nat | c < |w'.chains| ensures ChainOk(w', c) {
      assert ChainOk(w, c);
    }
  }

  lemma CommitExtendsChain(w: World, x: nat, c: nat)
    requires LocksHold(w) && ChainsOk(w) && Commits(w, x) && c < |w.chains|
    ensures ChainOk(DoCommit(w, x), c)
  {
    var t, w' := w.txs[x], DoCommit(w, x);
    assert PhaseHolds(w, t) && ChainOk(w, c);
    UnrevokedIsLast(w, t.hash);
    assert ChainOk(w, w.loginOf[t.hash]);
    var chain, chain' := w.chains[c], w'.chains[c];
    forall j | 0 <= j < |chain| ensures chain[j] != t.next {
      assert chain[j] in w.tokens;
    }
  }

  lemma CommitKeepsChains(w: World, x: nat)
    requires LocksHold(w) && ChainsOk(w)
    ensures ChainsOk(DoCommit(w, x))
  {
    if Commits(w, x) {
      var t, w' := w.txs[x], DoCommit(w, x);
      assert PhaseHolds(w, t);
      forall c: nat | c < |w'.chains| ensures ChainOk(w', c) {
        CommitExtendsChain(w, x, c);
      }
      forall h <- w'.tokens ensures w'.loginOf[h] < |w'.chains| && h in w'.chains[w'.loginOf[h]] {
        var login := w.loginOf[t.hash];
        var grown := w.chains[login] + [t.next];
        if h == t.next {
          assert grown[|grown| - 1] == h;
        } else if w.loginOf[h] == login {
          var j :| 0 <= j < |w.chains[login]| && w.chains[login][j] == h;
          assert grown[j] == h;
        }
      }
    }
  }

  // ---------------------------------------------------------------- exchanges

  /** The exchange e is a pair of neighbours in the chain of its login. */
  ghost predicate Neighbours(w: World, e: (Hash, Hash)) {
    && e.0 in w.loginOf && w.loginOf[e.0] < |w.chains|
    && var chain := w.chains[w.loginOf[e.0]];
       exists j :: 0 <= j < |chain| - 1 && chain[j] == e.0 && chain[j + 1] == e.1
  }

  lemma NeighboursCarryOver(w: World, w': World, e: (Hash, Hash))
    requires Neighbours(w, e)
    requires e.0 in w'.loginOf && w'.loginOf[e.0] == w.loginOf[e.0]
    requires w.loginOf[e.0] < |w'.chains| && w'.chains[w.loginOf[e.0]] == w.chains[w.loginOf[e.0]]
    ensures Neighbours(w', e)
  {
  }

  /** Exchanged tokens are revoked, no token is exchanged twice, and the exchanges are exactly
      the neighbours in the chains. */
  ghost predicate ExchangesOk(w: World) {
    && (forall e <- w.exchanges :: e.0 in w.tokens && w.tokens[e.0].revoked && e.1 in w.tokens)
    && (forall i, j :: 0 <= i < j < |w.exchanges| ==>
          w.exchanges[i].0 != w.exchanges[j].0 && w.exchanges[i].1 != w.exchanges[j].1)
    && (forall c, j :: 0 <= c < |w.chains| && 0 <= j < |w.chains[c]| - 1 ==>
          (w.chains[c][j], w.chains[c][j + 1]) in w.exchanges)
    && (forall e <- w.exchanges :: Neighbours(w, e))
  }

  lemma CommitKeepsNeighbours(w: World, x: nat)
    requires LocksHold(w) && ChainsOk(w) && ExchangesOk(w) && Commits(w, x)
    ensures forall e <- DoCommit(w, x).exchanges :: Neighbours(DoCommit(w, x), e)
  {
    var t, w' := w.txs[x], DoCommit(w, x);
    assert PhaseHolds(w, t);
    UnrevokedIsLast(w, t.hash);
    forall e <- w'.exchanges ensures Neighbours(w', e) {
      var chain' := w'.chains[w'.loginOf[t.hash]];
      if e in w.exchanges {
        assert Neighbours(w, e);
        var chain := w.chains[w.loginOf[e.0]];
        var j :| 0 <= j < |chain| - 1 && chain[j] == e.0 && chain[j + 1] == e.1;
        assert w'.loginOf[e.0] == w.loginOf[e.0];
        var grown := w'.chains[w.loginOf[e.0]];
        assert grown[j] == e.0 && grown[j + 1] == e.1;
      } else {
        assert chain'[|chain'| - 2] == e.0 && chain'[|chain'| - 1] == e.1;
      }
    }
  }

  lemma CommitKeepsExchanges(w: World, x: nat)
    requires LocksHold(w) && ChainsOk(w) && ExchangesOk(w)
    ensures ExchangesOk(DoCommit(w, x))
  {
    if Commits(w, x) {
      var t, w' := w.txs[x], DoCommit(w, x);
      assert PhaseHolds(w, t);
      UnrevokedIsLast(w, t.hash);
      var last := (t.hash, t.next);
      assert w'.exchanges[|w.exchanges|] == last;
      CommitKeepsNeighbours(w, x);
      forall e <- w'.exchanges ensures e.0 in w'.tokens && w'.tokens[e.0].revoked && e.1 in w'.tokens {
        assert e in w.exchanges || e == last;
      }
      forall i, j | 0 <= i < j < |w'.exchanges|
        ensures w'.exchanges[i].0 != w'.exchanges[j].0 && w'.exchanges[i].1 != w'.exchanges[j].1
      {
        assert w.exchanges[i] in w.exchanges;
      }
      forall c, j | 0 <= c < |w'.chains| && 0 <= j < |w'.chains[c]| - 1
        ensures (w'.chains[c][j], w'.chains[c][j + 1]) in w'.exchanges
      {
        if j < |w.chains[c]| - 1 {
          assert (w.chains[c][j], w.chains[c][j + 1]) in w.exchanges;
        } else {
          assert (w'.chains[c][j], w'.chains[c][j + 1]) == last;
        }
      }
    }
  }

  // ---------------------------------------------------------------- live tokens

  function Live(w: World, user: Id): set<Hash> {
    set h | h in w.tokens && w.tokens[h].user == user && !w.tokens[h].revoked
  }

  ghost predicate LiveCount(w: World, user: Id) {
    |Live(w, user)| + multiset(w.endings)[user] == multiset(w.owners)[user]
  }

  lemma LoginLive(w: World, user: Id, h: Hash, expires: Time, of: Id)
    requires Available(w, h)
    ensures Live(DoLogin(w, user, h, expires), of) == if user == of then Live(w, of) + {h} else Live(w, of)
  {
  }

  lemma LoginCounts(w: World, user: Id, h: Hash, expires: Time, of: Id)
    requires LiveCount(w, of)
    ensures LiveCount(DoLogin(w, user, h, expires), of)
  {
    if Available(w, h) {
      LoginLive(w, user, h, expires, of);
    }
  }

  lemma LogoutCounts(w: World, h: Hash, of: Id)
    requires LiveCount(w, of)
    ensures LiveCount(DoLogout(w, h), of)
  {
    var w' := DoLogout(w, h);
    if w' != w {
      assert Live(w', of) == if w.tokens[h].user == of then Live(w, of) - {h} else Live(w, of);
    }
  }

  lemma CommitCounts(w: World, x: nat, of: Id)
    requires LocksHold(w) && LiveCount(w, of)
    ensures LiveCount(DoCommit(w, x), of)
  {
    if Commits(w, x) {
      CommitLive(w, x, of);
      assert PhaseHolds(w, w.txs[x]);
    }
  }

  lemma CommitLive(w: World, x: nat, of: Id)
    requires LocksHold(w) && Commits(w, x)
    ensures var t := w.txs[x];
            Live(DoCommit(w, x), of)
            == if t.user == of then Live(w, of) - {t.hash} + {t.next} else Live(w, of)
  {
    assert PhaseHolds(w, w.txs[x]);
  }

  // ---------------------------------------------------------------- every run

  ghost predicate Rotates(w: World) {
    LocksHold(w) && ChainsOk(w) && ExchangesOk(w)
  }

  lemma UncommittedRotates(w: World, s: Step)
    requires Rotates(w) && Uncommitted(s)
    ensures Rotates(Take(w, s))
  {
    UncommittedStep(w, s);
    SameTablesRotate(w, Take(w, s));
    match s
    case Lock(x, h) => LockKeepsLocks(w, x, h);
    case CheckAndRevoke(x) => CheckKeepsLocks(w, x);
    case Issue(x, next, expires) => IssueKeepsLocks(w, x, next, expires);
    case Abort(x) => AbortKeepsLocks(w, x);
  }

  lemma SameTablesRotate(w: World, w': World)
    requires ChainsOk(w) && ExchangesOk(w)
    requires w' == w.(txs := w'.txs, now := w'.now)
    ensures ChainsOk(w') && ExchangesOk(w')
  {
    forall c: nat | c < |w'.chains| ensures ChainOk(w', c) {
      assert ChainOk(w, c);
    }
    forall e <- w'.exchanges ensures Neighbours(w', e) {
      assert Neighbours(w, e);
    }
  }

  lemma TakeRotates(w: World, s: Step)
    requires Rotates(w)
    ensures Rotates(Take(w, s))
  {
    if Uncommitted(s) {
      UncommittedRotates(w, s);
      return;
    }
    match s
    case Login(user, h, expires) =>
      LoginKeepsLocks(w, user, h, expires);
      LoginKeepsChains(w, user, h, expires);
      LoginKeepsExchanges(w, user, h, expires);
    case Commit(x) =>
      CommitKeepsLocks(w, x);
      CommitKeepsChains(w, x);
      CommitKeepsExchanges(w, x);
    case Logout(h) =>
      LogoutKeepsLocks(w, h);
      LogoutKeepsChains(w, h);
      LogoutKeepsExchanges(w, h);
  }

  lemma LoginKeepsExchanges(w: World, user: Id, h: Hash, expires: Time)
    requires ExchangesOk(w) && ChainsOk(w)
    ensures ExchangesOk(DoLogin(w, user, h, expires))
  {
    var w' := DoLogin(w, user, h, expires);
    if Available(w, h) {
      assert w'.exchanges == w.exchanges;
      forall e <- w.exchanges ensures Neighbours(w', e) {
        assert e.0 in w.tokens && e.0 != h;
        NeighboursCarryOver(w, w', e);
      }
      forall c, j | 0 <= c < |w'.chains| && 0 <= j < |w'.chains[c]| - 1
        ensures (w'.chains[c][j], w'.chains[c][j + 1]) in w'.exchanges
      {
        assert c < |w.chains| && w'.chains[c] == w.chains[c];
      }
    }
  }

  lemma LogoutKeepsExchanges(w: World, h: Hash)
    requires ExchangesOk(w)
    ensures ExchangesOk(DoLogout(w, h))
  {
    var w' := DoLogout(w, h);
    forall e <- w'.exchanges ensures Neighbours(w', e) {
      assert Neighbours(w, e);
    }
  }

  lemma TakeCounts(w: World, s: Step, of: Id)
    requires Rotates(w) && LiveCount(w, of)
    ensures LiveCount(Take(w, s), of)
  {
    if Uncommitted(s) {
      UncommittedStep(w, s);
      assert Live(Take(w, s), of) == Live(w, of);
      return;
    }
    match s
    case Login(user, h, expires) => LoginCounts(w, user, h, expires, of);
    case Commit(x) => CommitCounts(w, x, of);
    case Logout(h) => LogoutCounts(w, h, of);
  }

  lemma WaitRotates(w: World, d: int)
    requires Rotates(w)
    ensures Rotates(w.(now := w.now + d))
  {
    var w' := w.(now := w.now + d);
    forall y <- w'.txs ensures PhaseHolds(w', w'.txs[y]) {
      assert PhaseHolds(w, w.txs[y]);
    }
    SameTablesRotate(w, w');
  }

  lemma WaitCounts(w: World, d: int, of: Id)
    requires LiveCount(w, of)
    ensures LiveCount(w.(now := w.now + d), of)
  {
    assert Live(w.(now := w.now + d), of) == Live(w, of);
  }

  lemma DoRotates(w: World, a: Action, of: Id)
    requires Rotates(w) && LiveCount(w, of)
    ensures Rotates(Do(w, a)) && LiveCount(Do(w, a), of)
  {
    hide Rotates, LiveCount, Take;
    var w1 := w.(now := w.now + a.wait);
    WaitRotates(w, a.wait);
    WaitCounts(w, a.wait, of);
    TakeRotates(w1, a.step);
    TakeCounts(w1, a.step, of);
  }

  lemma {:induction false} ExecRotates(w: World, run: seq<Action>, of: Id)
    requires Rotates(w) && LiveCount(w, of)
    ensures Rotates(Exec(w, run)) && LiveCount(Exec(w, run), of)
    decreases |run|
  {
    hide Rotates, LiveCount, Do;
    if run != [] {
      DoRotates(w, run[0], of);
      ExecRotates(Do(w, run[0]), run[1..], of);
    }
  }

  /** In every interleaving of logins, refreshes and logouts no token is exchanged by two
      committed refreshes, no token comes out of two, and every exchange revoked its first
      token and made its second the successor in the chain of one login. */
  lemma ExchangedAtMostOnce(start: Time, run: seq<Action>, i: nat, j: nat)
    requires i < j < |Exec(Empty(start), run).exchanges|
    ensures var w := Exec(Empty(start), run);
            && w.exchanges[i].0 != w.exchanges[j].0
            && w.exchanges[i].1 != w.exchanges[j].1
            && w.exchanges[i].0 in w.tokens && w.tokens[w.exchanges[i].0].revoked
            && Neighbours(w, w.exchanges[i])
  {
    ExecRotates(Empty(start), run, 0);
    assert Exec(Empty(start), run).exchanges[i] in Exec(Empty(start), run).exchanges;
  }

  /** Every login's tokens form one chain of committed exchanges in which only the last token
      can be unrevoked, and every token of the table is in the chain of its login. */
  lemma OneChainPerLogin(start: Time, run: seq<Action>, h: Hash)
    requires h in Exec(Empty(start), run).tokens
    ensures var w := Exec(Empty(start), run);
            && h in w.loginOf && w.loginOf[h] < |w.chains|
            && var chain := w.chains[w.loginOf[h]];
            && h in chain
            && (forall j :: 0 <= j < |chain| - 1 ==> (chain[j], chain[j + 1]) in w.exchanges)
            && (forall j :: 0 <= j < |chain| - 1 ==> chain[j] in w.tokens && w.tokens[chain[j]].revoked)
            && (!w.tokens[h].revoked ==> h == chain[|chain| - 1])
  {
    ExecRotates(Empty(start), run, 0);
    var w := Exec(Empty(start), run);
    assert ChainOk(w, w.loginOf[h]);
  }

  /** A user's unrevoked tokens number that user's logins minus effective logouts. */
  lemma LiveTokensCount(start: Time, run: seq<Action>, user: Id)
    ensures var w := Exec(Empty(start), run);
            |Live(w, user)| + multiset(w.endings)[user] == multiset(w.owners)[user]
  {
    assert Live(Empty(start), user) == {};
    ExecRotates(Empty(start), run, user);
  }

  // ---------------------------------------------------------------- a token nobody else presents

  /** The token is unrevoked and ends the chain of its login. */
  ghost predicate LiveEnd(w: World, h: Hash) {
    && h in w.tokens && !w.tokens[h].revoked
    && h in w.loginOf && w.loginOf[h] < |w.chains|
    && var chain := w.chains[w.loginOf[h]];
    && chain != [] && chain[|chain| - 1] == h
  }

  /** In every reachable world an unrevoked token ends the chain of its login. */
  lemma UnrevokedIsLiveEnd(start: Time, run: seq<Action>, h: Hash)
    requires h in Exec(Empty(start), run).tokens && !Exec(Empty(start), run).tokens[h].revoked
    ensures LiveEnd(Exec(Empty(start), run), h)
  {
    ExecRotates(Empty(start), run, 0);
    UnrevokedIsLast(Exec(Empty(start), run), h);
  }

  predicate Presents(s: Step, h: Hash) {
    (s.Lock? || s.Logout?) && s.presented == h
  }

  lemma TakeLeavesAlone(w: World, s: Step, h: Hash)
    requires Rotates(w) && LiveEnd(w, h) && !Held(w, h) && !Presents(s, h)
    ensures LiveEnd(Take(w, s), h) && !Held(Take(w, s), h)
    ensures Take(w, s).loginOf[h] == w.loginOf[h]
  {
    if s.Commit? && Commits(w, s.x) {
      var t := w.txs[s.x];
      assert PhaseHolds(w, t);
      UnrevokedIsLast(w, t.hash);
    }
  }

  /** Whatever other requests do, a live token that none of them presents stays the live end of
      its chain. */
  lemma {:induction false} LeftAlone(w: World, run: seq<Action>, h: Hash)
    requires Rotates(w) && LiveEnd(w, h) && !Held(w, h)
    requires forall a <- run :: !Presents(a.step, h)
    ensures LiveEnd(Exec(w, run), h) && Exec(w, run).loginOf[h] == w.loginOf[h]
    decreases |run|
  {
    hide Rotates, Take;
    if run != [] {
      var w1 := w.(now := w.now + run[0].wait);
      assert run[0] in run && forall a <- run[1..] :: a in run;
      WaitRotates(w, run[0].wait);
      TakeRotates(w1, run[0].step);
      TakeLeavesAlone(w1, run[0].step, h);
      LeftAlone(Do(w, run[0]), run[1..], h);
    }
  }

  lemma {:induction false} ExecJoin(w: World, run: seq<Action>, more: seq<Action>)
    ensures Exec(w, run + more) == Exec(Exec(w, run), more)
    decreases |run|
  {
    hide Do;
    if run == [] {
      assert run + more == more;
    } else {
      assert (run + more)[1..] == run[1..] + more;
      ExecJoin(Do(w, run[0]), run[1..], more);
    }
  }
}
