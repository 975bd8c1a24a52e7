/** What happens to the workers of Lab4 and Lab5 in a run, and what can be read off from it alone, whatever the states
    that the run goes through. */
module Turns {
  import opened Options
  import opened RingQueue
  import opened Workers

  /** A worker is started, or worker `id` goes on, where `message` is what a producer has generated and `stop` what the
      loop test finds. */
  datatype Event = Spawn(role: Role, id: nat) | Work(id: nat, message: Message, stop: bool)

  // ---- Workers.

  function Roles(ts: Threads): map<nat, Role> {
    map id | id in ts :: ts[id].role
  }

  lemma RolesUpdate(ts: Threads, id: nat, w: Worker)
    ensures Roles(ts[id := w]) == Roles(ts)[id := w.role]
    ensures id in ts && ts[id].role == w.role ==> Roles(ts[id := w]) == Roles(ts)
  {
  }

  function StartedBy(roles: map<nat, Role>, e: Event): map<nat, Role> {
    if e.Spawn? then roles[e.id := e.role] else roles
  }

  /** The workers with their roles after these events, if it was `roles` before. */
  function Started(roles: map<nat, Role>, events: seq<Event>): map<nat, Role>
    decreases |events|
  {
    if events == [] then roles else Started(StartedBy(roles, events[0]), events[1..])
  }

  // ---- Messages.

  function GeneratedBy(roles: map<nat, Role>, e: Event): seq<Message> {
    if e.Work? && e.id in roles && roles[e.id].Producer? then [e.message] else []
  }

  /** The messages with which producers make their steps. */
  function Generated(roles: map<nat, Role>, events: seq<Event>): seq<Message>
    decreases |events|
  {
    if events == [] then [] else GeneratedBy(roles, events[0]) + Generated(StartedBy(roles, events[0]), events[1..])
  }

  /** A step that adds its message to `before` or leaves it alone, and what follows. */
  lemma GeneratedExtends(before: seq<Message>, made: seq<Message>, after: seq<Message>, all: seq<Message>,
                         rest: seq<Message>)
    requires |made| <= 1 && (after == before || after == before + made) && Subsequence(all, after + rest)
    ensures Subsequence(all, before + (made + rest))
  {
    if after == before + made {
      assert after + rest == before + (made + rest);
    } else {
      SubsequenceSkips(all, before, made[0], rest);
      assert before + [made[0]] + rest == before + (made + rest);
    }
  }

  // ---- Loop tests.

  function Found(e: Event, id: nat, before: Option<bool>): Option<bool> {
    if e.Work? && e.id == id then Some(e.stop) else before
  }

  /** What the loop test would find at the last step of worker `id`; `before` if there is none. */
  function Last(events: seq<Event>, id: nat, before: Option<bool>): Option<bool>
    decreases |events|
  {
    if events == [] then before else Last(events[1..], id, Found(events[0], id, before))
  }

  /** Where the last step may have left a worker: at the semaphore only if it may go on, out of the loop only if not. */
  predicate LeftAt(at: Point, last: Option<bool>) {
    match last
    case None => at.Wait?
    case Some(stop) => (at.Wait? ==> !stop) && (at.Stopped? ==> stop)
  }

  predicate Placed(ts: Threads, id: nat, last: Option<bool>) {
    if id in ts then LeftAt(ts[id].at, last) else last == None
  }

  /** All loop tests of worker `id` find the same. */
  predicate AlwaysFinds(events: seq<Event>, id: nat, stop: bool) {
    forall e | e in events && e.Work? && e.id == id :: e.stop == stop
  }

  lemma {:induction false} LastOf(events: seq<Event>, id: nat, before: Option<bool>, stop: bool)
    requires AlwaysFinds(events, id, stop) && (before.Some? ==> before.value == stop)
    ensures Last(events, id, before).Some? ==> Last(events, id, before).value == stop
    decreases |events|
  {
    if events != [] {
      assert events[0] in events;
      LastOf(events[1..], id, Found(events[0], id, before), stop);
    }
  }

  predicate HasStopped(ts: Threads, id: nat) {
    id in ts && ts[id].at.Stopped?
  }

  /** Worker `id` is still to take its first token, or comes back for another one. */
  predicate ToTake(ts: Threads, id: nat) {
    id !in ts || ts[id].at.Wait?
  }

  /** Worker `id` takes a token. */
  predicate Takes(ts: Threads, e: Event, id: nat) {
    e.Work? && e.id == id && id in ts && ts[id].at.Wait?
  }
}
