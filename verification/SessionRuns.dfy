/** Runs from an empty Redis, built one event at a time, that the limits of the session results are shown with. */
module SessionRuns {
  import opened Options
  import opened SessionModel
  import opened RefreshChain

  predicate Succeeded(s: Shared, key: Key, position: nat) {
    (key, position) in s.succeeded
  }

  lemma OneMore(run: seq<Event>, s: State, e: Event) returns (longer: seq<Event>, t: State)
    requires s == Exec(Start(0), run)
    ensures longer == run + [e] && t == Next(s, e) == Exec(Start(0), longer)
  {
    longer, t := run + [e], Next(s, e);
    ExecAppend(Start(0), run, [e]);
  }

  /** One session whose access token is never fresh. */
  lemma SignedIn(sid: Option<Sid>) returns (run: seq<Event>, s: State)
    ensures s == Exec(Start(0), run) && s.procs == map[] && s.shared.now == 0 && s.shared.locks == map[]
    ensures s.shared.tickets == map[1 := TicketEntry(Ticket(sid, Some(0), Some(0), None, SESSION_SPAN), SESSION_SPAN)]
    ensures s.shared.grants == map[1 := Grant(0, true, sid, SESSION_SPAN, 0)]
    ensures s.shared.sids == if sid.Some? then map[sid.value := SidEntry({1}, SESSION_SPAN)] else map[]
  {
    run, s := OneMore([], Start(0), SignIn(1, sid, 0, true, None));
    if sid.Some? {
      assert LiveMembers(Start(0).shared, sid.value) + {1} == {1};
    }
  }

  /** A request that finds the lock free takes it and sends whatever token is stored; nothing else changes. */
  lemma RequestSends(given: seq<Event>, before: State, pid: Pid) returns (run: seq<Event>, s: State)
    requires before == Exec(Start(0), given) && pid !in before.procs && LockFree(before.shared, 1)
    requires Live(before.shared, 1) && Stored(before, 1).Some? && before.shared.tickets[1].ticket.accessExpires == None
    ensures s == Exec(Start(0), run) && IsSending(s, pid, 1) && Sent(s, pid, 1) == Stored(before, 1)
    ensures s.procs == before.procs[pid := s.procs[pid]] && s.procs[pid].pc.ticket == before.shared.tickets[1].ticket
    ensures s.shared == before.shared.(locks := before.shared.locks[1 := LockEntry(pid, before.shared.now + LOCK_TTL)])
  {
    var proceed := Step(pid, Proceed, 0, 0);
    run, s := OneMore(given, before, StartRequest(pid, 1));
    run, s := OneMore(run, s, proceed);
    assert s.procs[pid].pc == TryingLock;
    run, s := OneMore(run, s, proceed);
    assert s.procs[pid].pc == ReReading;
    run, s := OneMore(run, s, proceed);
  }

  /** A request that has just refreshed that session and not written back. */
  lemma RefreshedNotWritten(sid: Option<Sid>) returns (run: seq<Event>, s: State)
    ensures s == Exec(Start(0), run) && IsWriting(s, 0, 1) && !s.procs[0].pc.gaveUp && s.procs.Keys == {0}
    ensures s.procs[0].pc.ticket == Ticket(sid, Some(0), Some(0), None, SESSION_SPAN)
    ensures s.shared.tickets == map[1 := TicketEntry(s.procs[0].pc.ticket, SESSION_SPAN)]
    ensures s.shared.sids == if sid.Some? then map[sid.value := SidEntry({1}, SESSION_SPAN)] else map[]
    ensures s.shared.now == 0 && s.shared.locks == map[1 := LockEntry(0, LOCK_TTL)] && Succeeded(s.shared, 1, 0)
  {
    run, s := SignedIn(sid);
    run, s := RequestSends(run, s, 0);
    run, s := OneMore(run, s, Step(0, Proceed, 0, 0));
  }
}
