/** Login, Refresh and Logout on the refresh_tokens table, one request at a time. */
module AuthUsecase {
  import opened Entity
  import opened Postgres
  import opened RefreshTokens

  /** Which calls of a request get through, from BeginTx to COMMIT. */
  datatype AuthNet = AuthNet(begin: bool, select: bool, revoke: bool, user: bool, sign: bool, random: bool,
                             insert: bool, commit: bool)

  predicate Usable(tokens: map<Hash, Token>, h: Hash, now: Time) {
    h in tokens && !tokens[h].revoked && now <= tokens[h].expires
  }

  function Revoke(tokens: map<Hash, Token>, h: Hash): map<Hash, Token> {
    if h in tokens then tokens[h := tokens[h].(revoked := true)] else tokens
  }

  function Rotated(tokens: map<Hash, Token>, h: Hash, next: Hash, expires: Time): map<Hash, Token>
    requires h in tokens
  {
    Revoke(tokens, h)[next := Token(tokens[h].user, expires, false)]
  }

  predicate RefreshSucceeds(tokens: map<Hash, Token>, h: Hash, next: Hash, now: Time, net: AuthNet) {
    && net.begin && net.select && Usable(tokens, h, now) && net.revoke && net.user
    && net.sign && net.random && net.insert && next !in tokens && net.commit
  }

  class Auth {
    var committed: map<Hash, Token>
    var work: map<Hash, Token>
    var inTx: bool
    ghost var run: seq<Action>  // the committed requests so far, as steps of the protocol

    ghost function Protocol(): World
      reads this
    {
      Exec(Empty(0), run)
    }

    /** Between requests the table is that of the protocol's world. */
    ghost predicate Linked()
      reads this
    {
      !inTx && Protocol().tokens == committed && Protocol().txs == map[]
    }

    constructor ()
      ensures committed == map[] && Linked()
    {
      committed, work, inTx, run := map[], map[], false, [];
    }

    /** Any failure of the locking read also ends as unauthorized: the expiry is then the zero
        time, and that test comes first. */
    method ConsumeRefresh(h: Hash, now: Time, net: AuthNet) returns (r: Result<Id>)
      requires inTx
      modifies this`work
      ensures !net.select || !Usable(old(work), h, now) ==> r == Err(Unauthorized) && work == old(work)
      ensures net.select && Usable(old(work), h, now) ==>
                if net.revoke then r == Ok(old(work)[h].user) && work == Revoke(old(work), h)
                else r == Err(StorageFailure) && work == old(work)
    {
      if !net.select || h !in work || work[h].revoked || now > work[h].expires {
        return Err(Unauthorized);
      }
      if !net.revoke {
        return Err(StorageFailure);
      }
      var user := work[h].user;
      work := work[h := work[h].(revoked := true)];
      return Ok(user);
    }

    method Issue(user: Id, next: Hash, expires: Time, net: AuthNet) returns (err: Option<Error>)
      modifies this`work, this`committed
      ensures
        var before := if inTx then old(work) else old(committed);
        var after := if inTx then work else committed;
        && err == (if net.sign && net.random && net.insert && next !in before then None else Some(StorageFailure))
        && after == (if err.None? then before[next := Token(user, expires, false)] else before)
      ensures if inTx then committed == old(committed) else work == old(work)
    {
      if !net.sign || !net.random || !net.insert {
        return Some(StorageFailure);
      }
      var row := Token(user, expires, false);
      if inTx {
        if next in work {
          return Some(StorageFailure);
        }
        work := work[next := row];
      } else {
        if next in committed {
          return Some(StorageFailure);
        }
        committed := committed[next := row];
      }
      return None;
    }

    /** `user` is the account that the credentials identify, if they do. */
    method Login(user: Option<Id>, next: Hash, expires: Time, net: AuthNet) returns (err: Option<Error>)
      requires Linked()
      modifies this`work, this`committed, this`run
      ensures Linked() && old(run) <= run
      ensures err.None? <==> user.Some? && net.sign && net.random && net.insert && next !in old(committed)
      ensures user.None? ==> err == Some(InvalidCredentials)
      ensures user.Some? && err.Some? ==> err.value == StorageFailure
      ensures committed == if err.None? then old(committed)[next := Token(user.value, expires, false)]
                           else old(committed)
    {
      if user.None? {
        return Some(InvalidCredentials);
      }
      ghost var w := Protocol();
      err := Issue(user.value, next, expires, net);
      if err.None? {
        LoginRuns(w, user.value, next, expires);
        ExecJoin(Empty(0), run, LoginRun(user.value, next, expires));
        run := run + LoginRun(user.value, next, expires);
      }
    }

    method Refresh(h: Hash, next: Hash, now: Time, expires: Time, net: AuthNet) returns (err: Option<Error>)
      requires Linked()
      modifies this
      ensures Linked() && old(run) <= run
      ensures
        var tokens := old(committed);
        var usable := h in tokens && !tokens[h].revoked && now <= tokens[h].expires;
        && (err.None? <==>
              && usable && next !in tokens
              && net.begin && net.select && net.revoke && net.user && net.sign && net.random && net.insert && net.commit)
        && (err.None? ==>
              committed == tokens[h := tokens[h].(revoked := true)][next := Token(tokens[h].user, expires, false)])
        && (err.Some? ==>
              && committed == tokens
              && err.value == if net.begin && (!net.select || !usable) then Unauthorized else StorageFailure)
      // With every call getting through it is the protocol's refresh, whatever comes of it.
      ensures net == AuthNet(true, true, true, true, true, true, true, true) ==>
                committed == Exec(old(Protocol()), RefreshRun(0, h, next, expires, now - old(Protocol()).now)).tokens
    {
      hide Exec, RefreshRun;
      RefreshInProtocol(run, h, next, now, expires);
      if !net.begin {
        return Some(StorageFailure);
      }
      work, inTx := committed, true;
      var user := ConsumeRefresh(h, now, net);
      if user.Err? {
        err := Some(user.error);
      } else if !net.user {
        err := Some(StorageFailure);
      } else {
        err := Issue(user.value, next, expires, net);
      }
      inTx := false;
      if err.Some? {
        return;
      }
      if !net.commit {
        return Some(StorageFailure);
      }
      run := run + RefreshRun(0, h, next, expires, now - Protocol().now);
      committed := work;
    }

    method Logout(h: Hash, ok: bool) returns (err: Option<Error>)
      requires Linked()
      modifies this`committed, this`run
      ensures Linked() && old(run) <= run
      ensures err == if ok then None else Some(StorageFailure)
      ensures committed == if ok && h in old(committed) then old(committed)[h := old(committed)[h].(revoked := true)]
                           else old(committed)
    {
      if !ok {
        return Some(StorageFailure);
      }
      LogoutRuns(Protocol(), h);
      ExecJoin(Empty(0), run, LogoutRun(h));
      run := run + LogoutRun(h);
      if h in committed && !committed[h].revoked {
        committed := committed[h := committed[h].(revoked := true)];
      }
      return None;
    }
  }

  // ---------------------------------------------------------------- the protocol, uninterrupted

  function RefreshRun(x: nat, h: Hash, next: Hash, expires: Time, wait: int): seq<Action> {
    [Action(wait, Lock(x, h)), Action(0, CheckAndRevoke(x)),
     Action(0, RefreshTokens.Issue(x, next, expires)), Action(0, Commit(x))]
  }

  function LoginRun(user: Id, next: Hash, expires: Time): seq<Action> {
    [Action(0, RefreshTokens.Login(user, next, expires))]
  }

  function LogoutRun(h: Hash): seq<Action> {
    [Action(0, RefreshTokens.Logout(h))]
  }

  lemma LoginRuns(w: World, user: Id, next: Hash, expires: Time)
    requires w.txs == map[] && next !in w.tokens
    ensures var w' := Exec(w, LoginRun(user, next, expires));
            w'.tokens == w.tokens[next := Token(user, expires, false)] && w'.txs == map[]
  {
    assert LoginRun(user, next, expires)[1..] == [];
    assert Available(w.(now := w.now + 0), next);
  }

  lemma LogoutRuns(w: World, h: Hash)
    requires w.txs == map[]
    ensures Exec(w, LogoutRun(h)).tokens == Revoke(w.tokens, h) && Exec(w, LogoutRun(h)).txs == map[]
  {
    assert LogoutRun(h)[1..] == [];
    if h in w.tokens && w.tokens[h].revoked {
      assert w.tokens[h := w.tokens[h].(revoked := true)] == w.tokens;
    }
  }

  lemma LoginKnown(run: seq<Action>, h: Hash)
    requires h in Exec(Empty(0), run).tokens
    ensures var w := Exec(Empty(0), run); h in w.loginOf && w.loginOf[h] < |w.chains|
  {
    ExecRotates(Empty(0), run, 0);
  }

  /** In the protocol a refresh that nothing interrupts rotates exactly when the token is stored,
      unrevoked and unexpired and the next one is new. */
  lemma RefreshInProtocol(run: seq<Action>, h: Hash, next: Hash, now: Time, expires: Time)
    requires Exec(Empty(0), run).txs == map[]
    ensures
      var w := Exec(Empty(0), run);
      var more := RefreshRun(0, h, next, expires, now - w.now);
      var w' := Exec(w, more);
      && w'.tokens == (if h in w.tokens && !w.tokens[h].revoked && now <= w.tokens[h].expires && next !in w.tokens
                       then w.tokens[h := w.tokens[h].(revoked := true)][next := Token(w.tokens[h].user, expires, false)]
                       else w.tokens)
      && w'.txs == map[]
      && Exec(Empty(0), run + more) == w'
  {
    var w := Exec(Empty(0), run);
    hide Exec, RefreshRun;
    ExecJoin(Empty(0), run, RefreshRun(0, h, next, expires, now - w.now));
    if h !in w.tokens {
      UnknownToken(w, 0, h, next, expires, now - w.now);
    } else {
      LoginKnown(run, h);
      AloneIsRefresh(w, 0, h, next, expires, now - w.now);
    }
  }

  lemma UnknownToken(w: World, x: nat, h: Hash, next: Hash, expires: Time, wait: int)
    requires x !in w.txs && h !in w.tokens
    ensures var w' := Exec(w, RefreshRun(x, h, next, expires, wait));
            w'.tokens == w.tokens && w'.txs == w.txs
  {
    var w1 := w.(now := w.now + wait);
    RefreshRunSteps(w, x, h, next, expires, wait);
    assert Do(w, Action(wait, Lock(x, h))) == w1 && Do(w1, Action(0, CheckAndRevoke(x))) == w1;
    NothingToDo(w1, x, next, expires);
  }

  lemma ExecFour(w: World, a: Action, b: Action, c: Action, d: Action)
    ensures Exec(w, [a, b, c, d]) == Do(Do(Do(Do(w, a), b), c), d)
  {
    hide Do;
    assert [a, b, c, d][1..] == [b, c, d] && [b, c, d][1..] == [c, d] && [c, d][1..] == [d] && [d][1..] == [];
    var w2 := Do(Do(w, a), b);
    var w3 := Do(w2, c);
    assert Exec(w3, [d]) == Exec(Do(w3, d), []) == Do(w3, d);
    assert Exec(w2, [c, d]) == Exec(w3, [d]);
    assert Exec(w, [a, b, c, d]) == Exec(Do(w, a), [b, c, d]) == Exec(w2, [c, d]);
  }

  lemma RefreshRunSteps(w: World, x: nat, h: Hash, next: Hash, expires: Time, wait: int)
    ensures Exec(w, RefreshRun(x, h, next, expires, wait))
            == Do(Do(Do(Do(w, Action(wait, Lock(x, h))), Action(0, CheckAndRevoke(x))),
                     Action(0, RefreshTokens.Issue(x, next, expires))), Action(0, Commit(x)))
  {
    hide Do;
    ExecFour(w, Action(wait, Lock(x, h)), Action(0, CheckAndRevoke(x)),
             Action(0, RefreshTokens.Issue(x, next, expires)), Action(0, Commit(x)));
  }

  lemma LaterAlike(w: World, wait: int, h: Hash, next: Hash)
    ensures var w1 := w.(now := w.now + wait);
            BeingIssued(w1, next) == BeingIssued(w, next) && Held(w1, h) == Held(w, h)
            && Available(w1, next) == (next !in w.tokens && !BeingIssued(w, next))
  {
  }

  lemma LockStep(w: World, x: nat, h: Hash, d: int)
    requires x !in w.txs && h in w.tokens && !Held(w, h)
    ensures Do(w, Action(d, Lock(x, h))) == w.(now := w.now + d, txs := w.txs[x := Locked(h, w.tokens[h])])
  {
  }

  lemma CheckStep(w: World, x: nat, h: Hash, seen: Token)
    requires x !in w.txs
    ensures Do(w.(txs := w.txs[x := Locked(h, seen)]), Action(0, CheckAndRevoke(x)))
            == if seen.revoked || w.now > seen.expires then w
               else w.(txs := w.txs[x := Revoked(h, seen.user)])
  {
  }

  lemma IssueStep(w: World, x: nat, h: Hash, user: Id, next: Hash, expires: Time)
    requires x !in w.txs && Available(w, next)
    ensures Do(w.(txs := w.txs[x := Revoked(h, user)]), Action(0, RefreshTokens.Issue(x, next, expires)))
            == w.(txs := w.txs[x := Issued(h, user, next, expires)])
  {
  }

  lemma IssueTaken(w: World, x: nat, h: Hash, user: Id, next: Hash, expires: Time)
    requires x !in w.txs && next in w.tokens
    ensures Do(w.(txs := w.txs[x := Revoked(h, user)]), Action(0, RefreshTokens.Issue(x, next, expires))) == w
  {
    assert w.txs[x := Revoked(h, user)] - {x} == w.txs;
  }

  lemma CommitStep(w: World, x: nat, h: Hash, next: Hash, expires: Time)
    requires x !in w.txs && h in w.tokens && h in w.loginOf && w.loginOf[h] < |w.chains|
    ensures var w' := Do(w.(txs := w.txs[x := Issued(h, w.tokens[h].user, next, expires)]), Action(0, Commit(x)));
            w'.tokens == Rotated(w.tokens, h, next, expires) && w'.txs == w.txs
  {
  }

  lemma NothingToDo(w: World, x: nat, next: Hash, expires: Time)
    requires x !in w.txs
    ensures Do(w, Action(0, RefreshTokens.Issue(x, next, expires))) == w && Do(w, Action(0, Commit(x))) == w
  {
  }

  /** Lock, check and revoke, issue and commit, run without interruption on a free row whose login
      is known (as in every reachable world), rotate the token exactly when it is unrevoked and
      unexpired and the next hash is new. */
  lemma AloneIsRefresh(w: World, x: nat, h: Hash, next: Hash, expires: Time, wait: int)
    requires x !in w.txs && h in w.tokens && !Held(w, h) && !BeingIssued(w, next)
    requires h in w.loginOf && w.loginOf[h] < |w.chains|
    ensures
      var w', seen := Exec(w, RefreshRun(x, h, next, expires, wait)), w.tokens[h];
      && w'.tokens == (if !seen.revoked && w.now + wait <= seen.expires && next !in w.tokens
                       then w.tokens[h := seen.(revoked := true)][next := Token(seen.user, expires, false)]
                       else w.tokens)
      && w'.txs == w.txs
  {
    hide Exec, RefreshRun, Do, Held, BeingIssued;
    var w1 := w.(now := w.now + wait);
    RefreshRunSteps(w, x, h, next, expires, wait);
    LaterAlike(w, wait, h, next);
    LockStep(w, x, h, wait);
    CheckStep(w1, x, h, w.tokens[h]);
    if w.tokens[h].revoked || w1.now > w.tokens[h].expires {
      NothingToDo(w1, x, next, expires);
    } else if next in w.tokens {
      IssueTaken(w1, x, h, w.tokens[h].user, next, expires);
      NothingToDo(w1, x, next, expires);
    } else {
      IssueStep(w1, x, h, w.tokens[h].user, next, expires);
      CommitStep(w1, x, h, next, expires);
    }
  }
}
