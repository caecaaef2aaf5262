/** The browser client's request function: it retries once after rotating its tokens. */
module Client {
  import opened Entity
  import opened RefreshTokens
  import opened AuthUsecase

  datatype Tokens = Tokens(access: nat, refresh: Hash)

  /** Requests by their effect on the token table. */
  datatype Request = Plain | LoginRequest(user: Option<Id>) | LogoutRequest(presented: Hash)

  /** What one fetch meets: whether it reaches the server, the status a plain request gets, the
      material for tokens issued on the way, and the server's own calls. */
  datatype Env = Env(reached: bool, status: int, access: nat, next: Hash, now: Time, expires: Time, net: AuthNet)

  /** A call resolves with a body, rejects with a status, or rejects because a fetch threw. */
  datatype Outcome = Fulfilled(issued: Option<Tokens>) | Rejected(status: int) | Threw

  predicate Alive(tokens: map<Hash, Token>, h: Hash) {
    h in tokens && !tokens[h].revoked
  }

  /** Rows are never deleted and revocation is never undone. */
  twostate predicate Grows(a: Auth)
    reads a
  {
    forall h <- old(a.committed) :: h in a.committed && (old(a.committed)[h].revoked ==> a.committed[h].revoked)
  }

  /** The refresh request would go through and rotate the stored token. */
  predicate Renews(store: Option<Tokens>, tokens: map<Hash, Token>, env: Env) {
    store.Some? && env.reached && RefreshSucceeds(tokens, store.value.refresh, env.next, env.now, env.net)
  }

  class Browser {
    const server: Auth
    var store: Option<Tokens>

    constructor (server: Auth)
      ensures this.server == server && store == None
    {
      this.server, store := server, None;
    }

    /** The store is empty or holds an unrevoked refresh token that ends the chain of its login. */
    ghost predicate Agrees()
      reads this, server
    {
      store.Some? ==> LiveEnd(server.Protocol(), store.value.refresh)
    }

    /** In the protocol's worlds it is enough that the stored token is unrevoked. */
    lemma AliveAgrees()
      requires server.Linked() && (store.Some? ==> Alive(server.committed, store.value.refresh))
      ensures Agrees()
    {
      if store.Some? {
        UnrevokedIsLiveEnd(0, server.run, store.value.refresh);
      }
    }

    /** Requests of other clients, in any interleaving, that never present the stored token leave
        it the live end of its chain. */
    lemma OthersKeepAgreement(others: seq<Action>)
      requires server.Linked() && Agrees() && store.Some?
      requires forall a <- others :: !Presents(a.step, store.value.refresh)
      ensures LiveEnd(Exec(server.Protocol(), others), store.value.refresh)
    {
      ExecRotates(Empty(0), server.run, 0);
      LeftAlone(server.Protocol(), others, store.value.refresh);
    }

    method Fetch(req: Request, env: Env) returns (status: int, issued: Option<Tokens>)
      requires server.Linked() && env.reached
      modifies server
      ensures server.Linked() && Grows(server)
      ensures req.Plain? ==> server.committed == old(server.committed) && status == env.status && issued.None?
      ensures req.LoginRequest? ==>
                var got := req.user.Some? && env.net.sign && env.net.random && env.net.insert
                           && env.next !in old(server.committed);
                && issued == (if got then Some(Tokens(env.access, env.next)) else None)
                && status == (if got then 200 else if req.user.None? then 401 else 400)
                && server.committed == (if got then old(server.committed)[env.next := Token(req.user.value, env.expires, false)]
                                        else old(server.committed))
      ensures req.LogoutRequest? ==>
                var old' := old(server.committed);
                && status == (if env.net.revoke then 200 else 400) && issued.None?
                && server.committed == (if env.net.revoke && req.presented in old'
                                        then old'[req.presented := old'[req.presented].(revoked := true)] else old')
    {
      issued := None;
      match req
      case Plain =>
        status := env.status;
      case LoginRequest(user) =>
        var err := server.Login(user, env.next, env.expires, env.net);
        if err.None? {
          status, issued := 200, Some(Tokens(env.access, env.next));
        } else {
          status := if err.value == InvalidCredentials then 401 else 400;
        }
      case LogoutRequest(h) =>
        var err := server.Logout(h, env.net.revoke);
        status := if err.None? then 200 else 400;
    }

    /** Rotates the stored refresh token; the boolean says whether the fetch threw. */
    method RefreshStore(env: Env) returns (renewed: bool, threw: bool, fetches: nat)
      requires server.Linked() && Agrees()
      modifies this`store, server
      ensures server.Linked() && Grows(server) && Agrees()
      ensures fetches == if old(store).Some? then 1 else 0
      ensures renewed <==> Renews(old(store), old(server.committed), env)
      ensures renewed ==>
                && store == Some(Tokens(env.access, env.next))
                && server.committed == Rotated(old(server.committed), old(store).value.refresh, env.next, env.expires)
      ensures !renewed ==> store == old(store) && server.committed == old(server.committed)
      ensures threw <==> old(store).Some? && !env.reached
    {
      if store.None? {
        return false, false, 0;
      }
      if !env.reached {
        return false, true, 1;
      }
      var err := server.Refresh(store.value.refresh, env.next, env.now, env.expires, env.net);
      if err.Some? {
        AliveAgrees();
        return false, false, 1;
      }
      store := Some(Tokens(env.access, env.next));
      AliveAgrees();
      return true, false, 1;
    }

    /** For calls that do not overlap and lose no response: whatever the statuses, the store is
        afterwards empty or holds the live end of its chain, except that a logout that got
        through leaves its own revoked token to the caller's clear; at most three fetches. */
    method Api(req: Request, retry: bool, first: Env, renewal: Env, second: Env)
      returns (out: Outcome, fetches: nat)
      requires server.Linked() && Agrees()
      modifies this`store, server
      ensures server.Linked() && Grows(server)
      ensures 1 <= fetches <= if retry then 3 else 1
      ensures !req.LogoutRequest? || !out.Fulfilled? ==> Agrees()
      ensures out == Rejected(401) ==> store == None
      // A request that never gets through leaves everything as it was.
      ensures !first.reached ==> out == Threw && store == old(store) && server.committed == old(server.committed)
      // A plain request, or a login with wrong credentials, which is answered 401.
      ensures first.reached && (req.Plain? || (req.LoginRequest? && req.user.None?)) ==>
                var before := old(server.committed);
                var answer, answer' := if req.Plain? then first.status else 401, if req.Plain? then second.status else 401;
                if answer != 401 || !retry then
                  && server.committed == before && fetches == 1
                  && out == (if 200 <= answer < 300 then Fulfilled(None) else Rejected(answer))
                  && store == (if answer == 401 then None else old(store))
                else if Renews(old(store), before, renewal) then
                  && fetches == 3
                  && server.committed == Rotated(before, old(store).value.refresh, renewal.next, renewal.expires)
                  && out == (if !second.reached then Threw
                             else if 200 <= answer' < 300 then Fulfilled(None) else Rejected(answer'))
                  && store == (if second.reached && answer' == 401 then None
                               else Some(Tokens(renewal.access, renewal.next)))
                else
                  && server.committed == before && fetches == (if old(store).Some? then 2 else 1)
                  && (if old(store).Some? && !renewal.reached then out == Threw && store == old(store)
                      else out == Rejected(401) && store == None)
      // A login with right credentials is answered at once.
      ensures first.reached && req.LoginRequest? && req.user.Some? ==>
                var got := first.net.sign && first.net.random && first.net.insert && first.next !in old(server.committed);
                && fetches == 1 && store == old(store)
                && out == (if got then Fulfilled(Some(Tokens(first.access, first.next))) else Rejected(400))
                && server.committed
                   == (if got then old(server.committed)[first.next := Token(req.user.value, first.expires, false)]
                       else old(server.committed))
      // So is a logout; it revokes the token it presents.
      ensures req.LogoutRequest? ==> store == old(store) && fetches == 1
      ensures first.reached && req.LogoutRequest? ==>
                var before, h := old(server.committed), req.presented;
                && out == (if first.net.revoke then Fulfilled(None) else Rejected(400))
                && server.committed == (if first.net.revoke && h in before then before[h := before[h].(revoked := true)]
                                        else before)
      decreases retry
    {
      if !first.reached {
        return Threw, 1;
      }
      fetches := 1;
      var status, issued := Fetch(req, first);
      if !req.LogoutRequest? || status != 200 {
        AliveAgrees();
      }
      if status == 401 && retry {
        var renewed, threw, more := RefreshStore(renewal);
        fetches := fetches + more;
        if threw {
          return Threw, fetches;
        }
        if renewed {
          var again;
          out, again := Api(req, false, second, renewal, second);
          return out, fetches + again;
        }
      }
      if status == 401 {
        store := None;
      }
      if status < 200 || 300 <= status {
        return Rejected(status), fetches;
      }
      return Fulfilled(issued), fetches;
    }

    /** The login page: on success the new tokens replace whatever was stored. */
    method LogIn(user: Option<Id>, first: Env, renewal: Env, second: Env) returns (out: Outcome)
      requires server.Linked() && Agrees()
      modifies this`store, server
      ensures server.Linked() && Agrees()
      ensures first.reached && user.Some? && first.net.sign && first.net.random && first.net.insert
              && first.next !in old(server.committed) ==>
                && out == Fulfilled(Some(Tokens(first.access, first.next))) && store == out.issued
                && server.committed
                   == old(server.committed)[first.next := Token(user.value, first.expires, false)]
      ensures out.Fulfilled? ==> out.issued.Some? && store == out.issued
    {
      var fetches;
      out, fetches := Api(LoginRequest(user), true, first, renewal, second);
      if out.Fulfilled? && out.issued.Some? {
        store := out.issued;
        AliveAgrees();
      }
    }

    /** The logout button clears the store whether or not the call got through. */
    method LogOut(first: Env, renewal: Env, second: Env) returns (out: Outcome)
      requires server.Linked() && Agrees()
      modifies this`store, server
      ensures server.Linked() && Agrees() && store == None
      ensures old(store).Some? && first.reached ==>
                && out == (if first.net.revoke then Fulfilled(None) else Rejected(400))
                && (first.net.revoke ==> !Alive(server.committed, old(store).value.refresh))
    {
      var fetches;
      if store.Some? {
        out, fetches := Api(LogoutRequest(store.value.refresh), true, first, renewal, second);
      } else {
        out, fetches := Api(Plain, true, first, renewal, second);
      }
      store := None;
    }
  }
}
