/**
  Which access tokens reach a backend. A request answers with a token it has just read from a live ticket
  with more than 30 s of the token's life left, or with the one its own refresh has just written back.

  How much life a token has left and whether a ticket still stands are spelled out here, apart from the code's own
  tests for them.
 */
module TokenOrigin {
  import opened Options
  import opened SessionModel

  /** The token has more than 30 s left. */
  predicate LongLived(t: Ticket, now: nat) {
    t.access.Some? && t.accessExpires.Some? && now + 30_000 < t.accessExpires.value
  }

  /** The key's ticket is stored and not past its own expiry. */
  predicate Stands(s: Shared, key: Key) {
    key in s.tickets && s.now < s.tickets[key].expires
  }

  predicate IsRequest(s: State, pid: Pid, key: Key) {
    pid in s.procs && s.procs[pid].Request? && s.procs[pid].key == key
  }

  /** The request has this token to answer with. */
  predicate Gives(p: Proc, position: nat) {
    p.Request? && (p.pc == Releasing(Token(position)) || p.pc == Done(Token(position)))
  }

  /** The reads at which a request decides on a refresh: its own, the one after a wait, and the one under the lock. */
  predicate Deciding(pc: RequestPc) {
    pc.Authenticating? || pc.Waiting? || pc.ReReading?
  }

  /**
    A request that reads a ticket answers with its token exactly when that has more than 30 s left; otherwise it
    goes on to the lock, or under the lock to the send, where there is a refresh token. The read changes nothing.
   */
  lemma ReadAnswersIff(s: State, pid: Pid, key: Key, clock: nat, life: nat, position: nat)
    requires IsRequest(s, pid, key) && Deciding(s.procs[pid].pc) && Stands(s.shared, key)
    ensures var t, p, after := s.shared.tickets[key].ticket, s.procs[pid], Next(s, Step(pid, Proceed, clock, life));
      && IsRequest(after, pid, key) && after.shared == s.shared
      && (Gives(after.procs[pid], position) <==> LongLived(t, s.shared.now) && position == t.access.value)
      && (!LongLived(t, s.shared.now) ==>
            after.procs[pid].pc == if !p.pc.ReReading? then TryingLock
                                   else if t.refresh.Some? then Sending(t) else Releasing(SessionEnded))
  {
  }

  /**
    After a refusal a request answers with the token it reads exactly when the stored refresh token is not the one it
    sent and the access token has more than 30 s left; in every other case, a failed read included, the session has ended.
   */
  lemma RaceAnswersIff(s: State, pid: Pid, key: Key, outcome: Outcome, clock: nat, life: nat, position: nat)
    requires IsRequest(s, pid, key) && s.procs[pid].pc.CheckingRace?
    ensures var after := Next(s, Step(pid, outcome, clock, life));
      && IsRequest(after, pid, key) && after.shared == s.shared
      && (after.procs[pid].pc == Releasing(Token(position)) <==>
            && outcome == Proceed && Stands(s.shared, key)
            && s.shared.tickets[key].ticket.refresh != Some(s.procs[pid].pc.sent)
            && LongLived(s.shared.tickets[key].ticket, s.shared.now)
            && s.shared.tickets[key].ticket.access == Some(position))
      && (after.procs[pid].pc == Releasing(SessionEnded)
          || (after.procs[pid].pc.Releasing? && after.procs[pid].pc.answer.Token?))
  {
  }

  // ----- Where a token comes from -----

  /** The event is the request's own successful read of a ticket that gives it this token. */
  predicate ReadsToken(s: State, e: Event, pid: Pid, key: Key, position: nat) {
    && Steps(e, pid) && e.outcome == Proceed && IsRequest(s, pid, key) && Stands(s.shared, key)
    && LongLived(s.shared.tickets[key].ticket, s.shared.now)
    && s.shared.tickets[key].ticket.access == Some(position)
    && (Deciding(s.procs[pid].pc)
        || (s.procs[pid].pc.CheckingRace? && s.shared.tickets[key].ticket.refresh != Some(s.procs[pid].pc.sent)))
  }

  /** The event is the request's own write-back of the tokens it was just granted, to a session that still stands. */
  predicate WritesToken(s: State, e: Event, pid: Pid, key: Key, position: nat) {
    && Steps(e, pid) && e.outcome == Proceed && IsRequest(s, pid, key) && Stands(s.shared, key)
    && s.procs[pid].pc.Writing? && s.procs[pid].pc.position == position
    && key in Next(s, e).shared.tickets
    && Next(s, e).shared.tickets[key].ticket == s.procs[pid].pc.ticket.(
         refresh := Some(position),
         access := Some(position),
         accessExpires := Some((if e.clock <= s.shared.now then e.clock else s.shared.now) + e.tokenLife))
  }

  /** The event is the provider's acceptance of the token before this one, sent by the request. */
  predicate WasGranted(s: State, e: Event, pid: Pid, key: Key, position: nat) {
    && Steps(e, pid) && e.outcome == Proceed && IsRequest(s, pid, key) && position > 0
    && s.procs[pid].pc.Sending? && s.procs[pid].pc.ticket.refresh == Some(position - 1)
    && key in s.shared.grants && s.shared.grants[key].active && s.shared.grants[key].current == position - 1
    && key in Next(s, e).shared.grants && Next(s, e).shared.grants[key].current == position
  }

  predicate Granted(p: Proc, position: nat) {
    p.Request? && p.pc.Writing? && p.pc.position == position
  }

  lemma TokenStep(s: State, e: Event, pid: Pid, key: Key, position: nat)
    requires IsRequest(s, pid, key) && !Gives(s.procs[pid], position)
    ensures IsRequest(Next(s, e), pid, key)
    ensures Gives(Next(s, e).procs[pid], position) ==>
      ReadsToken(s, e, pid, key, position) || WritesToken(s, e, pid, key, position)
  {
  }

  lemma GrantStep(s: State, e: Event, pid: Pid, key: Key, position: nat)
    requires IsRequest(s, pid, key) && !Granted(s.procs[pid], position)
    ensures IsRequest(Next(s, e), pid, key)
    ensures Granted(Next(s, e).procs[pid], position) ==> WasGranted(s, e, pid, key, position)
  {
  }

  lemma Shift(s: State, run: seq<Event>, k: nat)
    requires run != [] && k < |run[1..]|
    ensures Exec(Next(s, run[0]), run[1..][..k]) == Exec(s, run[..k + 1]) && run[1..][k] == run[k + 1]
  {
    assert run[..k + 1][1..] == run[1..][..k] && run[..k + 1][0] == run[0];
  }

  /** The point of a run at which a request came by its token. */
  lemma {:induction false} TokenHasOrigin(s: State, run: seq<Event>, pid: Pid, key: Key, position: nat) returns (k: nat)
    requires IsRequest(s, pid, key) && !Gives(s.procs[pid], position)
    requires IsRequest(Exec(s, run), pid, key) && Gives(Exec(s, run).procs[pid], position)
    ensures k < |run|
    ensures var at := Exec(s, run[..k]);
      ReadsToken(at, run[k], pid, key, position) || WritesToken(at, run[k], pid, key, position)
    decreases |run|
  {
    TokenStep(s, run[0], pid, key, position);
    if Gives(Next(s, run[0]).procs[pid], position) {
      assert run[..0] == [];
      return 0;
    }
    k := TokenHasOrigin(Next(s, run[0]), run[1..], pid, key, position);
    Shift(s, run, k);
    k := k + 1;
  }

  /** And the point at which the provider granted a token that a request is about to write back. */
  lemma {:induction false} GrantHasOrigin(s: State, run: seq<Event>, pid: Pid, key: Key, position: nat) returns (k: nat)
    requires IsRequest(s, pid, key) && !Granted(s.procs[pid], position)
    requires IsRequest(Exec(s, run), pid, key) && Granted(Exec(s, run).procs[pid], position)
    ensures k < |run| && WasGranted(Exec(s, run[..k]), run[k], pid, key, position)
    decreases |run|
  {
    GrantStep(s, run[0], pid, key, position);
    if Granted(Next(s, run[0]).procs[pid], position) {
      assert run[..0] == [];
      return 0;
    }
    k := GrantHasOrigin(Next(s, run[0]), run[1..], pid, key, position);
    Shift(s, run, k);
    k := k + 1;
  }

  ghost predicate Reads(s: State, run: seq<Event>, pid: Pid, key: Key, position: nat) {
    exists k: nat :: k < |run| && ReadsToken(Exec(s, run[..k]), run[k], pid, key, position)
  }

  ghost predicate Refreshes(s: State, run: seq<Event>, pid: Pid, key: Key, position: nat) {
    exists i: nat, k: nat :: i < k < |run|
      && WasGranted(Exec(s, run[..i]), run[i], pid, key, position)
      && WritesToken(Exec(s, run[..k]), run[k], pid, key, position)
  }

  /**
    Every token a request answers with was, in this very run, read from a standing ticket with more than 30 s left, or
    granted by the provider to this request and then written back to the session that still stood.
   */
  lemma TokensAreReadOrRefreshed(s: State, run: seq<Event>, pid: Pid, key: Key, position: nat)
    requires IsRequest(s, pid, key) && s.procs[pid].pc.Authenticating?
    requires IsRequest(Exec(s, run), pid, key) && Gives(Exec(s, run).procs[pid], position)
    ensures Reads(s, run, pid, key, position) || Refreshes(s, run, pid, key, position)
  {
    var k := TokenHasOrigin(s, run, pid, key, position);
    if WritesToken(Exec(s, run[..k]), run[k], pid, key, position) {
      var i := GrantHasOrigin(s, run[..k], pid, key, position);
      assert run[..k][..i] == run[..i] && run[..k][i] == run[i];
    }
  }

  // ----- Waiting, and what is not the end of a session -----

  /** A request waits for the lock for ten seconds from its own read, whatever happens meanwhile. */
  predicate WaitsUntil(s: State, pid: Pid, key: Key, deadline: nat) {
    IsRequest(s, pid, key) && (s.procs[pid].pc.TryingLock? || s.procs[pid].pc.Waiting?) && s.procs[pid].deadline == deadline
  }

  lemma {:induction false} DeadlineStays(s: State, run: seq<Event>, pid: Pid, key: Key, deadline: nat)
    requires IsRequest(s, pid, key) && !s.procs[pid].pc.Authenticating? && s.procs[pid].deadline == deadline
    ensures var t := Exec(s, run);
      IsRequest(t, pid, key) && !t.procs[pid].pc.Authenticating? && t.procs[pid].deadline == deadline
    decreases |run|
  {
    if run != [] {
      DeadlineStays(Next(s, run[0]), run[1..], pid, key, deadline);
    }
  }

  /**
    A request that found its token stale tries the lock until ten seconds after that read and no longer: at a try, it
    gives up exactly when they have passed; before that, a held lock makes it poll and a free one is its own.
   */
  lemma GivesUpAfterTenSecondsIff(s: State, run: seq<Event>, pid: Pid, key: Key, clock: nat, life: nat)
    requires IsRequest(s, pid, key) && s.procs[pid].pc.Authenticating?
    requires Stands(s.shared, key) && !LongLived(s.shared.tickets[key].ticket, s.shared.now)
    requires var t := Exec(Next(s, Step(pid, Proceed, clock, life)), run);
      IsRequest(t, pid, key) && t.procs[pid].pc.TryingLock?
    ensures var t := Exec(Next(s, Step(pid, Proceed, clock, life)), run);
      var after := Next(t, Step(pid, Proceed, clock, life));
      && IsRequest(after, pid, key)
      && (after.procs[pid].pc == Done(Unavailable) <==> s.shared.now + 10_000 <= t.shared.now)
      && (after.procs[pid].pc != Done(Unavailable) ==>
            if LockFree(t.shared, key) then after.procs[pid].pc == ReReading && !LockFree(after.shared, key)
            else after.procs[pid].pc == Waiting && after.shared == t.shared)
  {
    DeadlineStays(Next(s, Step(pid, Proceed, clock, life)), run, pid, key, s.shared.now + 10_000);
  }

  /** The request is on its way to an error answer and deletes nothing. */
  predicate Failing(s: State, pid: Pid, key: Key) {
    && IsRequest(s, pid, key)
    && s.procs[pid].pc in {Releasing(Unavailable), Releasing(Failed), Done(Unavailable), Done(Failed)}
  }

  /** A grant whose answer is lost is an error, whether or not the provider spent the token: never a sign-out. */
  lemma {:induction false} LostGrantIsNoSignOut(s: State, run: seq<Event>, pid: Pid, key: Key)
    requires Failing(s, pid, key)
    ensures Failing(Exec(s, run), pid, key)
    decreases |run|
  {
    if run != [] {
      LostGrantIsNoSignOut(Next(s, run[0]), run[1..], pid, key);
    }
  }

  lemma LostGrantFails(s: State, pid: Pid, key: Key, outcome: Outcome, clock: nat, life: nat, run: seq<Event>)
    requires IsRequest(s, pid, key) && s.procs[pid].pc.Sending? && s.procs[pid].pc.ticket.refresh.Some?
    requires outcome != Proceed
    ensures var after := Next(s, Step(pid, outcome, clock, life));
      && Failing(Exec(after, run), pid, key)
      && after.shared.tickets == s.shared.tickets && after.shared.sids == s.shared.sids
      && (outcome.Fault? ==> after.procs[pid].pc == Releasing(Unavailable))
  {
    LostGrantIsNoSignOut(Next(s, Step(pid, outcome, clock, life)), run, pid, key);
  }

  /**
    How a call that does not come through ends a request. A time-out while it waits for the lock is an outage, not a
    sign-out; a read that fails counts as a session that is not there; what fails after that is a server error.
   */
  lemma FailedCallEndsSo(s: State, pid: Pid, key: Key, outcome: Outcome, clock: nat, life: nat)
    requires IsRequest(s, pid, key) && outcome != Proceed
    ensures var (pc, after) := (s.procs[pid].pc, Next(s, Step(pid, outcome, clock, life)));
      && IsRequest(after, pid, key)
      && (pc.Authenticating? ==> after.procs[pid].pc == Done(SessionEnded))
      && (pc.TryingLock? && s.shared.now < s.procs[pid].deadline ==>
            after.procs[pid].pc == Done(if outcome.Cancel? then Unavailable else Failed))
      && (pc.Waiting? ==>
            after.shared == s.shared && after.procs[pid].pc == if outcome.Cancel? then Done(Unavailable) else SigningOut)
      && (pc.ReReading? ==> after.procs[pid].pc == Releasing(SessionEnded))
      && (pc.Writing? && !pc.gaveUp ==>
            if outcome.Fault? then after.procs[pid].pc == Releasing(Failed)
            else after.procs[pid].pc == pc.(gaveUp := true) && after.shared.tickets == s.shared.tickets)
      && (pc.Releasing? || pc.Deleting? ==> after.procs[pid].pc == Done(Failed))
  {
  }
}
