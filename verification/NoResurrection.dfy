/**
  A session key that stops holding a ticket never holds one again, whatever interleaving of
  refreshes, logouts, back-channel logouts, callback guards, sign-ins, stalls and expiries follows,
  and no request that is still without an answer gets a token for it.
 */
module NoResurrection {
  import opened Options
  import opened SessionModel

  /** The key was handed out by a sign-in and holds no ticket now: deleted, or past its expiry. */
  ghost predicate Dead(s: State, key: Key) {
    key in s.shared.grants && !Live(s.shared, key)
  }

  /** The request holds no token: it has not read one from a fresh ticket or from the provider's answer. */
  ghost predicate Unanswered(s: State, pid: Pid, key: Key) {
    && pid in s.procs
    && s.procs[pid].Request?
    && s.procs[pid].key == key
    && !(s.procs[pid].pc.Releasing? && s.procs[pid].pc.answer.Token?)
    && !(s.procs[pid].pc.Done? && s.procs[pid].pc.answer.Token?)
  }

  /** No step of any process makes a key live, forgets that it was handed out, or moves the clock. */
  ghost predicate KeepsDead(s: Shared, t: Shared, key: Key) {
    (key in s.grants ==> key in t.grants) && (Live(t, key) ==> Live(s, key)) && t.now == s.now
  }

  lemma EffectKeepsDead(s: Shared, pid: Pid, e: Effect, key: Key)
    ensures KeepsDead(s, Apply(s, pid, e), key)
  {
  }

  lemma DeadStep(s: State, e: Event, key: Key)
    requires Dead(s, key)
    ensures Dead(Next(s, e), key)
  {
    if e.Step? && e.pid in s.procs {
      EffectKeepsDead(s.shared, e.pid, StepProc(s.shared, s.procs[e.pid], e.outcome, e.clock, e.tokenLife).0, key);
    }
  }

  /** In every run from any state at all, reachable or not. */
  lemma {:induction false} NoResurrection(s: State, run: seq<Event>, key: Key)
    requires Dead(s, key)
    ensures Dead(Exec(s, run), key)
    decreases |run|
  {
    if run != [] {
      DeadStep(s, run[0], key);
      NoResurrection(Next(s, run[0]), run[1..], key);
    }
  }

  lemma UnansweredStep(s: State, e: Event, pid: Pid, key: Key)
    requires Dead(s, key) && Unanswered(s, pid, key)
    ensures Unanswered(Next(s, e), pid, key)
  {
  }

  /** Covers requests already waiting, refreshing or writing back when the key died. */
  lemma {:induction false} NoTokenAfterDeletion(s: State, run: seq<Event>, pid: Pid, key: Key)
    requires Dead(s, key) && Unanswered(s, pid, key)
    ensures Unanswered(Exec(s, run), pid, key)
    decreases |run|
  {
    if run != [] {
      DeadStep(s, run[0], key);
      UnansweredStep(s, run[0], pid, key);
      NoTokenAfterDeletion(Next(s, run[0]), run[1..], pid, key);
    }
  }

  /** A request begun after the deletion also leaves Redis and the provider alone: one read, one 401. */
  lemma {:induction false} LateRequestOnlyReads(s: State, run: seq<Event>, pid: Pid, key: Key)
    requires Dead(s, key) && pid in s.procs && s.procs[pid].Request? && s.procs[pid].key == key
    requires s.procs[pid].pc == Authenticating || s.procs[pid].pc == Done(SessionEnded)
    ensures var after := Exec(s, run);
            && pid in after.procs && after.procs[pid].Request? && after.procs[pid].key == key
            && (after.procs[pid].pc == Authenticating || after.procs[pid].pc == Done(SessionEnded))
    decreases |run|
  {
    if run != [] {
      DeadStep(s, run[0], key);
      LateRequestOnlyReads(Next(s, run[0]), run[1..], pid, key);
    }
  }

  // ----- Which steps end a session -----

  /** The delete of a logout, of a sign-out after a refused refresh, and of the callback guard. */
  ghost predicate DeletesOne(p: Proc, key: Key) {
    match p
    case Request(k, _, _, pc) => k == key && pc.Deleting?
    case Logout(k, _, _, pc) => k == key && pc.LogoutDeleting?
    case Removal(k, pc) => k == key && pc.RemovalDeleting?
    case Backchannel(_, pc) => pc.MembersDeleting? && key in pc.members
  }

  /**
    The end-to-end statement: once the delete of any logout path has reached Redis, the key is dead
    for the rest of every run, and so is every request for it that has no token yet.
   */
  lemma LogoutIsFinal(s: State, deleter: Pid, outcome: Outcome, run: seq<Event>, key: Key, pid: Pid)
    requires key in s.shared.grants
    requires deleter in s.procs && DeletesOne(s.procs[deleter], key)
    requires outcome == Proceed || outcome.lands
    ensures var deleted := Next(s, Step(deleter, outcome, s.shared.now, 0));
            && Dead(Exec(deleted, run), key)
            && (Unanswered(s, pid, key) ==> Unanswered(Exec(deleted, run), pid, key))
  {
    var deleted := Next(s, Step(deleter, outcome, s.shared.now, 0));
    NoResurrection(deleted, run, key);
    if Unanswered(s, pid, key) {
      assert Unanswered(deleted, pid, key);
      NoTokenAfterDeletion(deleted, run, pid, key);
    }
  }
}
