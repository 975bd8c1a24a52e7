/** Producers and consumers of Lab4 and Lab5 seen from outside: where each of them is in its loop, and
    how many are at a given place. There may be any number of them. */
module Workers {

  datatype Role = Producer | Consumer

  /** The places of the loop: before `sem_wait`; with a token, before the lock; with the lock; with the
      lock, a pass having been used up; with the lock, a message having been moved; unlocked, before
      `sem_post`; at the loop test; out of the loop. */
  datatype Point = Wait | Lock | Hold | Paid | Moved | Post | Test | Stopped

  datatype Worker = Worker(role: Role, at: Point)

  type Threads = map<nat, Worker>

  /** Has taken a token of its semaphore and not used it yet. */
  predicate HasToken(w: Worker, role: Role) {
    w.role == role && (w.at.Lock? || w.at.Hold?)
  }

  /** Has moved a message and not posted the token of the other side yet. */
  predicate OwesToken(w: Worker, role: Role) {
    w.role == role && (w.at.Moved? || w.at.Post?)
  }

  predicate Inside(w: Worker) {
    w.at.Hold? || w.at.Paid? || w.at.Moved?
  }

  ghost function Those(ts: Threads, p: Worker -> bool): set<nat> {
    set t | t in ts && p(ts[t])
  }

  ghost function Count(ts: Threads, p: Worker -> bool): nat {
    |Those(ts, p)|
  }

  function One(b: bool): nat {
    if b then 1 else 0
  }

  lemma WithAndWithout(s: set<nat>, t: nat)
    ensures |s| == |s - {t}| + One(t in s)
  {
    if t in s {
      assert s == (s - {t}) + {t};
    } else {
      assert s == s - {t};
    }
  }

  /** Moving or starting one worker changes a count by that worker only. */
  lemma CountUpdate(ts: Threads, p: Worker -> bool, t: nat, w: Worker)
    ensures Count(ts[t := w], p) == Count(ts, p) - One(t in ts && p(ts[t])) + One(p(w))
  {
    var before, after := Those(ts, p), Those(ts[t := w], p);
    assert after - {t} == before - {t};
    WithAndWithout(before, t);
    WithAndWithout(after, t);
  }

  lemma CountPositive(ts: Threads, p: Worker -> bool, t: nat)
    requires t in ts && p(ts[t])
    ensures Count(ts, p) > 0
  {
    assert t in Those(ts, p);
  }

  lemma CountZero(ts: Threads, p: Worker -> bool)
    requires forall t | t in ts :: !p(ts[t])
    ensures Count(ts, p) == 0
  {
    assert Those(ts, p) == {};
  }
}
