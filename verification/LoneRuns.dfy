/**
  What one request or logout does when no other process acts and every call comes through, from any state in
  which the session's lock is free: the whole outcome and the whole effect.
 */
module LoneRuns {
  import opened Options
  import opened SessionModel
  import opened TokenOrigin

  /** The event is a step of this process whose call is answered, read with a clock that is right. */
  predicate IsAnswered(e: Event, s: State, pid: Pid, life: nat) {
    e == Step(pid, Proceed, s.shared.now, life)
  }

  ghost predicate Follows(s: State, t: State, pid: Pid, life: nat) {
    forall e :: IsAnswered(e, s, pid, life) ==> t == Next(s, e)
  }

  /** Each state follows from the one before by such a step. */
  ghost predicate Alone(path: seq<State>, pid: Pid, life: nat) {
    forall i :: 0 <= i < |path| - 1 ==> Follows(path[i], path[i + 1], pid, life)
  }

  /** The session's ticket is gone, its key is in the set of its sid no longer, and nothing else of these changed. */
  predicate Removed(s: Shared, t: Shared, key: Key, sid: Option<Sid>) {
    && t.tickets == s.tickets - {key}
    && t.sids.Keys == s.sids.Keys
    && forall d :: d in s.sids ==>
         t.sids[d] == SidEntry(if sid == Some(d) then s.sids[d].members - {key} else s.sids[d].members, s.sids[d].expires)
  }

  function SidIn(s: Shared, key: Key): (sid: Option<Sid>) {
    if Stands(s, key) then s.tickets[key].ticket.sid else None
  }

  // ----- A request, step by step -----

  predicate At(t: State, pid: Pid, key: Key, pc: RequestPc) {
    IsRequest(t, pid, key) && t.procs[pid].pc == pc
  }

  lemma RequestStep(t: State, u: State, pid: Pid, key: Key, life: nat)
    requires Follows(t, u, pid, life) && IsRequest(t, pid, key)
    ensures var (effect, p) := StepRequest(t.shared, t.procs[pid], Proceed, t.shared.now, life);
      At(u, pid, key, p.pc) && u.shared == Apply(t.shared, pid, effect)
    ensures t.procs[pid].pc.Done? ==> u == t
  {
    assert IsAnswered(Step(pid, Proceed, t.shared.now, life), t, pid, life);
    assert u == Next(t, Step(pid, Proceed, t.shared.now, life));
    if t.procs[pid].pc.Done? {
      assert t.procs[pid := t.procs[pid]] == t.procs;
    }
  }

  lemma {:induction false} DoneStays(path: seq<State>, pid: Pid, key: Key, life: nat, i: nat)
    requires Alone(path, pid, life) && i < |path| && IsRequest(path[i], pid, key) && path[i].procs[pid].pc.Done?
    ensures path[|path| - 1] == path[i]
    decreases |path| - i
  {
    if i < |path| - 1 {
      RequestStep(path[i], path[i + 1], pid, key, life);
      DoneStays(path, pid, key, life, i + 1);
    }
  }

  lemma ReadStep(t: State, u: State, pid: Pid, key: Key, life: nat)
    requires Follows(t, u, pid, life) && At(t, pid, key, Authenticating)
    ensures u.shared == t.shared
    ensures At(u, pid, key,
               if !Stands(t.shared, key) then Done(SessionEnded)
               else if LongLived(t.shared.tickets[key].ticket, t.shared.now)
               then Done(Token(t.shared.tickets[key].ticket.access.value)) else TryingLock)
    ensures u.procs[pid].deadline == t.shared.now + 10_000
  {
    RequestStep(t, u, pid, key, life);
    assert u == Next(t, Step(pid, Proceed, t.shared.now, life));
  }

  lemma TakingStep(t: State, u: State, pid: Pid, key: Key, life: nat)
    requires Follows(t, u, pid, life) && At(t, pid, key, TryingLock)
    requires LockFree(t.shared, key) && t.shared.now < t.procs[pid].deadline
    ensures At(u, pid, key, ReReading)
    ensures u.shared == t.shared.(locks := t.shared.locks[key := LockEntry(pid, t.shared.now + 10_000)])
  {
    RequestStep(t, u, pid, key, life);
  }

  lemma ReReadStep(t: State, u: State, pid: Pid, key: Key, life: nat)
    requires Follows(t, u, pid, life) && At(t, pid, key, ReReading)
    requires Stands(t.shared, key) && !LongLived(t.shared.tickets[key].ticket, t.shared.now)
    ensures u.shared == t.shared
    ensures var ticket := t.shared.tickets[key].ticket;
      At(u, pid, key, if ticket.refresh.Some? then Sending(ticket) else Releasing(SessionEnded))
  {
    RequestStep(t, u, pid, key, life);
  }

  /** The provider would take this token: it is the newest of an active chain. */
  predicate Newest(s: Shared, key: Key, token: nat) {
    key in s.grants && s.grants[key].active && s.grants[key].current == token
  }

  lemma SendStep(t: State, u: State, pid: Pid, key: Key, life: nat, ticket: Ticket)
    requires Follows(t, u, pid, life) && At(t, pid, key, Sending(ticket)) && ticket.refresh.Some?
    ensures At(u, pid, key, if Newest(t.shared, key, ticket.refresh.value)
                            then Writing(ticket, ticket.refresh.value + 1, false) else CheckingRace(ticket.refresh.value))
    ensures u.shared ==
      if Newest(t.shared, key, ticket.refresh.value)
      then t.shared.(grants := t.shared.grants[key := t.shared.grants[key].(current := ticket.refresh.value + 1)],
                     succeeded := t.shared.succeeded + {(key, ticket.refresh.value)})
      else t.shared
  {
    RequestStep(t, u, pid, key, life);
  }

  lemma WriteStep(t: State, u: State, pid: Pid, key: Key, life: nat, ticket: Ticket, position: nat)
    requires Follows(t, u, pid, life) && At(t, pid, key, Writing(ticket, position, false)) && Stands(t.shared, key)
    ensures At(u, pid, key, Releasing(Token(position)))
    ensures u.shared == t.shared.(tickets := t.shared.tickets[key := TicketEntry(
      ticket.(refresh := Some(position), access := Some(position), accessExpires := Some(t.shared.now + life)),
      if ticket.expiresUtc > t.shared.now then ticket.expiresUtc else t.shared.now + 1_000)])
  {
    RequestStep(t, u, pid, key, life);
  }

  lemma RaceStep(t: State, u: State, pid: Pid, key: Key, life: nat, sent: nat)
    requires Follows(t, u, pid, life) && At(t, pid, key, CheckingRace(sent))
    requires Stands(t.shared, key) && t.shared.tickets[key].ticket.refresh == Some(sent)
    ensures At(u, pid, key, Releasing(SessionEnded)) && u.shared == t.shared
  {
    RequestStep(t, u, pid, key, life);
  }

  lemma ReleaseStep(t: State, u: State, pid: Pid, key: Key, life: nat, answer: Answer)
    requires Follows(t, u, pid, life) && At(t, pid, key, Releasing(answer))
    requires key in t.shared.locks && t.shared.locks[key].holder == pid
    ensures At(u, pid, key, if answer == SessionEnded then SigningOut else Done(answer))
    ensures u.shared == t.shared.(locks := t.shared.locks - {key})
  {
    RequestStep(t, u, pid, key, life);
  }

  lemma SignOutSteps(t: State, u: State, v: State, pid: Pid, key: Key, life: nat)
    requires Follows(t, u, pid, life) && Follows(u, v, pid, life) && At(t, pid, key, SigningOut)
    ensures At(v, pid, key, Done(SessionEnded)) && Removed(t.shared, v.shared, key, SidIn(t.shared, key))
    ensures v.shared.locks == t.shared.locks && v.shared.grants == t.shared.grants
  {
    RequestStep(t, u, pid, key, life);
    assert At(u, pid, key, Deleting(SidIn(t.shared, key))) && u.shared == t.shared;
    RequestStep(u, v, pid, key, life);
  }

  // ----- A request, all of it -----

  /** Without a ticket the session has ended; with a token that has more than 30 s left, that is the answer. One read. */
  lemma LoneRead(path: seq<State>, pid: Pid, key: Key, life: nat)
    requires |path| > 1 && Alone(path, pid, life) && At(path[0], pid, key, Authenticating)
    requires Stands(path[0].shared, key) ==> LongLived(path[0].shared.tickets[key].ticket, path[0].shared.now)
    ensures var s, t := path[0].shared, path[|path| - 1];
      && t.shared == s
      && At(t, pid, key, Done(if Stands(s, key) then Token(s.tickets[key].ticket.access.value) else SessionEnded))
  {
    ReadStep(path[0], path[1], pid, key, life);
    DoneStays(path, pid, key, life, 1);
  }

  /** The session has a ticket, its access token has no more than 30 s left, and nobody holds its lock. */
  predicate Stale(s: Shared, key: Key) {
    Stands(s, key) && !LongLived(s.tickets[key].ticket, s.now) && LockFree(s, key)
  }

  /** The lock is taken and the ticket read again: where a refresh starts. */
  lemma UnderLock(path: seq<State>, pid: Pid, key: Key, life: nat)
    requires |path| > 3 && Alone(path, pid, life) && At(path[0], pid, key, Authenticating) && Stale(path[0].shared, key)
    ensures var s := path[0].shared;
      var ticket := s.tickets[key].ticket;
      && path[3].shared == s.(locks := s.locks[key := LockEntry(pid, s.now + 10_000)])
      && At(path[3], pid, key, if ticket.refresh.Some? then Sending(ticket) else Releasing(SessionEnded))
  {
    ReadStep(path[0], path[1], pid, key, life);
    TakingStep(path[1], path[2], pid, key, life);
    ReReadStep(path[2], path[3], pid, key, life);
  }

  /** A stale session without a refresh token has ended: it is signed out. */
  lemma LoneRequestWithoutRefreshToken(path: seq<State>, pid: Pid, key: Key, life: nat)
    requires |path| == 9 && Alone(path, pid, life) && At(path[0], pid, key, Authenticating) && Stale(path[0].shared, key)
    requires path[0].shared.tickets[key].ticket.refresh.None?
    ensures At(path[8], pid, key, Done(SessionEnded))
    ensures Removed(path[0].shared, path[8].shared, key, path[0].shared.tickets[key].ticket.sid)
    ensures key !in path[8].shared.locks && path[8].shared.grants == path[0].shared.grants
  {
    UnderLock(path, pid, key, life);
    ReleaseStep(path[3], path[4], pid, key, life, SessionEnded);
    SignOutSteps(path[4], path[5], path[6], pid, key, life);
    DoneStays(path, pid, key, life, 6);
  }

  /** A stale session whose refresh token the provider takes is refreshed, and the new access token is the answer. */
  lemma LoneRefresh(path: seq<State>, pid: Pid, key: Key, life: nat, token: nat)
    requires |path| == 9 && Alone(path, pid, life) && At(path[0], pid, key, Authenticating) && Stale(path[0].shared, key)
    requires path[0].shared.tickets[key].ticket.refresh == Some(token) && Newest(path[0].shared, key, token)
    ensures At(path[8], pid, key, Done(Token(token + 1)))
    ensures var (s, t, ticket) := (path[0].shared, path[8].shared, path[0].shared.tickets[key].ticket);
      && t.tickets == s.tickets[key := TicketEntry(
           ticket.(refresh := Some(token + 1), access := Some(token + 1), accessExpires := Some(s.now + life)),
           if ticket.expiresUtc > s.now then ticket.expiresUtc else s.now + 1_000)]
      && t.grants == s.grants[key := s.grants[key].(current := token + 1)]
      && t.sids == s.sids && key !in t.locks
  {
    var ticket := path[0].shared.tickets[key].ticket;
    UnderLock(path, pid, key, life);
    SendStep(path[3], path[4], pid, key, life, ticket);
    WriteStep(path[4], path[5], pid, key, life, ticket, token + 1);
    ReleaseStep(path[5], path[6], pid, key, life, Token(token + 1));
    DoneStays(path, pid, key, life, 6);
  }

  /** A stale session whose refresh token the provider refuses has ended: it is signed out. */
  lemma LoneRefusal(path: seq<State>, pid: Pid, key: Key, life: nat, token: nat)
    requires |path| == 9 && Alone(path, pid, life) && At(path[0], pid, key, Authenticating) && Stale(path[0].shared, key)
    requires path[0].shared.tickets[key].ticket.refresh == Some(token) && !Newest(path[0].shared, key, token)
    ensures At(path[8], pid, key, Done(SessionEnded))
    ensures Removed(path[0].shared, path[8].shared, key, path[0].shared.tickets[key].ticket.sid)
    ensures key !in path[8].shared.locks && path[8].shared.grants == path[0].shared.grants
  {
    UnderLock(path, pid, key, life);
    SendStep(path[3], path[4], pid, key, life, path[0].shared.tickets[key].ticket);
    RaceStep(path[4], path[5], pid, key, life, token);
    ReleaseStep(path[5], path[6], pid, key, life, SessionEnded);
    SignOutSteps(path[6], path[7], path[8], pid, key, life);
  }

  // ----- Logout, back-channel logout, the callback guard, sign-in -----

  predicate LoggingOut(t: State, pid: Pid, key: Key, pc: LogoutPc) {
    pid in t.procs && t.procs[pid].Logout? && t.procs[pid].key == key && t.procs[pid].logout == pc
  }

  lemma LogoutStep(t: State, u: State, pid: Pid, key: Key, life: nat, pc: LogoutPc)
    requires Follows(t, u, pid, life) && LoggingOut(t, pid, key, pc)
    ensures var (effect, p) := StepLogout(t.shared, t.procs[pid], Proceed);
      p.Logout? && LoggingOut(u, pid, key, p.logout) && u.shared == Apply(t.shared, pid, effect)
  {
    assert IsAnswered(Step(pid, Proceed, t.shared.now, life), t, pid, life);
    assert u == Next(t, Step(pid, Proceed, t.shared.now, life));
  }

  lemma LogoutDeletes(t: State, u: State, v: State, w: State, pid: Pid, key: Key, life: nat)
    requires Follows(t, u, pid, life) && Follows(u, v, pid, life) && Follows(v, w, pid, life)
    requires LoggingOut(t, pid, key, LogoutSigningOut(true))
    requires key in t.shared.locks && t.shared.locks[key].holder == pid
    ensures LoggingOut(w, pid, key, LogoutDone) && Removed(t.shared, w.shared, key, SidIn(t.shared, key))
    ensures w.shared.locks == t.shared.locks - {key} && w.shared.grants == t.shared.grants
  {
    var sid := SidIn(t.shared, key);
    LogoutStep(t, u, pid, key, life, LogoutSigningOut(true));
    assert LoggingOut(u, pid, key, LogoutDeleting(true, sid)) && u.shared == t.shared;
    LogoutStep(u, v, pid, key, life, LogoutDeleting(true, sid));
    assert v.shared == DeleteTicket(u.shared, key, sid);
    LogoutStep(v, w, pid, key, life, LogoutReleasing);
  }

  lemma LogoutReads(t: State, u: State, v: State, pid: Pid, key: Key, life: nat)
    requires Follows(t, u, pid, life) && Follows(u, v, pid, life)
    requires LoggingOut(t, pid, key, LogoutTryingLock) && LockFree(t.shared, key)
    ensures v.shared == t.shared.(locks := t.shared.locks[key := LockEntry(pid, t.shared.now + 10_000)])
    ensures LoggingOut(v, pid, key,
                       if Stands(t.shared, key) && t.shared.tickets[key].ticket.refresh.Some?
                       then LogoutEnding(true) else LogoutSigningOut(true))
  {
    LogoutStep(t, u, pid, key, life, LogoutTryingLock);
    assert LoggingOut(u, pid, key, LogoutReading(true));
    LogoutStep(u, v, pid, key, life, LogoutReading(true));
  }

  /**
    A logout deletes the session and lets the lock go. It ends the provider's session exactly when a refresh token
    is stored.
   */
  lemma LoneLogout(path: seq<State>, pid: Pid, key: Key, life: nat)
    requires |path| == 7 && Alone(path, pid, life)
    requires LoggingOut(path[0], pid, key, LogoutTryingLock) && LockFree(path[0].shared, key)
    ensures LoggingOut(path[6], pid, key, LogoutDone) && key !in path[6].shared.locks
    ensures Removed(path[0].shared, path[6].shared, key, SidIn(path[0].shared, key))
    ensures var s := path[0].shared;
      path[6].shared.grants ==
        if Stands(s, key) && s.tickets[key].ticket.refresh.Some? && key in s.grants
        then s.grants[key := s.grants[key].(active := false)] else s.grants
  {
    LogoutReads(path[0], path[1], path[2], pid, key, life);
    if Stands(path[0].shared, key) && path[0].shared.tickets[key].ticket.refresh.Some? {
      LogoutStep(path[2], path[3], pid, key, life, LogoutEnding(true));
      LogoutDeletes(path[3], path[4], path[5], path[6], pid, key, life);
    } else {
      LogoutDeletes(path[2], path[3], path[4], path[5], pid, key, life);
      LogoutStep(path[5], path[6], pid, key, life, LogoutDone);
    }
  }

  /** A back-channel logout deletes every session its sid's set lists, and the set; other sids keep theirs. */
  lemma LoneBackchannelLogout(path: seq<State>, pid: Pid, sid: Sid, life: nat)
    requires |path| == 3 && Alone(path, pid, life)
    requires pid in path[0].procs && path[0].procs[pid] == Backchannel(sid, MembersReading)
    ensures var s, t := path[0].shared, path[2].shared;
      var listed := sid in s.sids && s.now < s.sids[sid].expires && s.sids[sid].members != {};
      && t.tickets == (if listed then s.tickets - s.sids[sid].members else s.tickets)
      && t.sids == (if listed then s.sids - {sid} else s.sids)
      && t.grants == s.grants && t.locks == s.locks
  {
    assert path[1] == Next(path[0], Step(pid, Proceed, path[0].shared.now, life));
    assert path[2] == Next(path[1], Step(pid, Proceed, path[1].shared.now, life));
  }

  /** The callback guard deletes the session the old cookie names, and its place in the sid set. */
  lemma LoneRemoval(path: seq<State>, pid: Pid, key: Key, life: nat)
    requires |path| == 3 && Alone(path, pid, life)
    requires pid in path[0].procs && path[0].procs[pid] == Removal(key, RemovalReading)
    ensures Removed(path[0].shared, path[2].shared, key, SidIn(path[0].shared, key))
    ensures path[2].shared.grants == path[0].shared.grants && path[2].shared.locks == path[0].shared.locks
  {
    assert path[1] == Next(path[0], Step(pid, Proceed, path[0].shared.now, life));
    assert path[2] == Next(path[1], Step(pid, Proceed, path[1].shared.now, life));
  }

  /**
    A sign-in stores a session for ten hours, under a chain of its own, with the refresh token if there was one, and adds
    it to the set of its sid if it has one.
   */
  lemma SignInStores(s: State, key: Key, sid: Option<Sid>, withRefresh: bool, lifetime: Option<nat>)
    requires key !in s.shared.grants
    ensures var t := Next(s, SignIn(key, sid, s.shared.now, withRefresh, lifetime)).shared;
      && Stands(t, key) && t.tickets[key].expires == s.shared.now + 36_000_000
      && t.tickets[key].ticket == Ticket(sid, if withRefresh then Some(0) else None, Some(0),
           if lifetime.Some? then Some(s.shared.now + lifetime.value) else None, s.shared.now + 36_000_000)
      && Newest(t, key, 0)
      && (forall k :: k != key && k in s.shared.tickets ==> k in t.tickets && t.tickets[k] == s.shared.tickets[k])
      && (sid.None? ==> t.sids == s.shared.sids)
    ensures sid.Some? ==> var t := Next(s, SignIn(key, sid, s.shared.now, withRefresh, lifetime)).shared;
      var live := sid.value in s.shared.sids && s.shared.now < s.shared.sids[sid.value].expires;
      && sid.value in t.sids && t.sids[sid.value].expires == s.shared.now + 36_000_000
      && t.sids[sid.value].members == (if live then s.shared.sids[sid.value].members else {}) + {key}
      && (forall d :: d != sid.value && d in s.shared.sids ==> d in t.sids && t.sids[d] == s.shared.sids[d])
  {
  }
}
