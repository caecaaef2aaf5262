/** The Redis publisher: events go out on a channel, escalations onto a list. */
module Ws {
  import opened Entity
  import opened Postgres

  datatype Payload = TicketPayload(row: Row) | EscalationPayload(actor: Id, next: Option<Priority>) | NoPayload
  datatype EventKind = EventCreated | EventUpdated | EventEscalated | EventBreached
  datatype Event = Event(kind: EventKind, ticket: Id, payload: Payload)

  /** One call of PUBLISH, with the tables that any reader finds at that moment. */
  datatype Attempt = Attempt(event: Event, seen: Tables, delivered: bool)

  /** A list element either decodes to an event or does not. */
  datatype Job = Job(event: Event) | Malformed(text: string)

  function Reversed<T>(s: seq<T>): seq<T> {
    if s == [] then [] else Reversed(s[1..]) + [s[0]]
  }

  lemma {:induction false} ReversedPrepend<T>(x: T, s: seq<T>)
    ensures Reversed([x] + s) == Reversed(s) + [x]
  {
    assert ([x] + s)[1..] == s;
  }

  lemma {:induction false} ReversedLast<T>(s: seq<T>)
    requires s != []
    ensures Reversed(s) == [s[|s| - 1]] + Reversed(s[..|s| - 1])
    decreases |s|
  {
    if |s| > 1 {
      ReversedLast(s[1..]);
      assert s[1..][..|s| - 2] == s[..|s| - 1][1..];
    }
  }

  class Publisher {
    const db: Database
    var attempts: seq<Attempt>
    var list: seq<Job>  // head first: LPUSH prepends, BRPOP takes the last
    ghost var pushed: seq<Job>
    ghost var popped: seq<Job>

    /** First in, first out: what was pushed is what was popped followed by what is waiting. */
    ghost predicate Fifo()
      reads this
    {
      pushed == popped + Reversed(list)
    }

    constructor (db: Database)
      ensures this.db == db && attempts == [] && list == [] && pushed == [] && popped == [] && Fifo()
    {
      this.db := db;
      attempts, list, pushed, popped := [], [], [], [];
    }

    method Publish(event: Event, ok: bool) returns (err: Option<Error>)
      modifies this`attempts
      ensures attempts == old(attempts) + [Attempt(event, db.committed, ok)]
      ensures err == if ok then None else Some(PublishFailure)
    {
      attempts := attempts + [Attempt(event, db.committed, ok)];
      return if ok then None else Some(PublishFailure);
    }

    method EnqueueEscalation(job: Job, ok: bool) returns (err: Option<Error>)
      requires Fifo()
      modifies this`list, this`pushed
      ensures Fifo()
      ensures err == if ok then None else Some(PublishFailure)
      ensures pushed == if ok then old(pushed) + [job] else old(pushed)
    {
      if !ok {
        return Some(PublishFailure);
      }
      ReversedPrepend(job, list);
      list := [job] + list;
      pushed := pushed + [job];
      return None;
    }

    /** BRPOP with a timeout: None when nothing arrives or the call fails. */
    method PopEscalation(ok: bool) returns (job: Option<Job>)
      requires Fifo()
      modifies this`list, this`popped
      ensures Fifo()
      ensures job.Some? <==> ok && |old(popped)| < |pushed|
      ensures job.Some? ==> job.value == pushed[|old(popped)|] && popped == old(popped) + [job.value]
      ensures job.None? ==> popped == old(popped)
    {
      if !ok || list == [] {
        return None;
      }
      ReversedLast(list);
      var last := list[|list| - 1];
      list := list[..|list| - 1];
      popped := popped + [last];
      return Some(last);
    }
  }
}
