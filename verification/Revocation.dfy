/**
  A logout ends the provider's session too: a chain that a logout has revoked accepts no refresh token again, and a
  logout leaves the chain active only for one of four reasons, each an event of its own.
 */
module Revocation {
  import opened Options
  import opened SessionModel
  import opened TokenOrigin

  /** The chain was issued and the provider takes no token of it. */
  predicate Revoked(s: Shared, key: Key) {
    key in s.grants && !s.grants[key].active
  }

  lemma EffectKeepsRevoked(s: Shared, pid: Pid, e: Effect, key: Key)
    requires Revoked(s, key)
    ensures Revoked(Apply(s, pid, e), key)
  {
  }

  lemma EventKeepsRevoked(s: State, e: Event, key: Key)
    requires Revoked(s.shared, key)
    ensures Revoked(Next(s, e).shared, key)
  {
    if e.Step? && e.pid in s.procs {
      EffectKeepsRevoked(s.shared, e.pid, StepProc(s.shared, s.procs[e.pid], e.outcome, e.clock, e.tokenLife).0, key);
    }
  }

  /** Revoked once, no refresh token of the chain is accepted again, whatever is still on its way. */
  lemma {:induction false} RevokedForGood(s: State, run: seq<Event>, key: Key)
    requires Revoked(s.shared, key)
    ensures Revoked(Exec(s, run).shared, key) && forall n: nat :: !Accepts(Exec(s, run).shared, key, n)
    decreases |run|
  {
    if run != [] {
      EventKeepsRevoked(s, run[0], key);
      RevokedForGood(Next(s, run[0]), run[1..], key);
    }
  }

  /** A request that sends a token of a revoked chain is refused: it never gets as far as writing one back. */
  lemma RefusedAfterRevocation(s: State, run: seq<Event>, pid: Pid, key: Key, clock: nat, life: nat)
    requires Revoked(s.shared, key)
    requires var t := Exec(s, run);
      IsRequest(t, pid, key) && t.procs[pid].pc.Sending? && t.procs[pid].pc.ticket.refresh.Some?
    ensures var t := Exec(s, run);
      var after := Next(t, Step(pid, Proceed, clock, life));
      && after.shared == t.shared
      && after.procs[pid].pc == CheckingRace(t.procs[pid].pc.ticket.refresh.value)
  {
    RevokedForGood(s, run, key);
  }

  // ----- What a logout does to the chain -----

  predicate IsLogout(s: State, pid: Pid, key: Key) {
    pid in s.procs && s.procs[pid].Logout? && s.procs[pid].key == key
  }

  /** The logout has not come to the provider yet. */
  predicate BeforeEnding(pc: LogoutPc) {
    pc.LogoutTryingLock? || pc.LogoutReading? || pc.LogoutEnding?
  }

  /** The logout reads a live ticket that holds a refresh token. */
  predicate FindsRefreshToken(s: State, e: Event, key: Key) {
    e.Step? && e.outcome == Proceed && Stands(s.shared, key) && s.shared.tickets[key].ticket.refresh.Some?
  }

  /**
    The event is a step of the logout that excuses an active chain: the acquire threw, the read found no refresh
    token, or the end-session call never reached the provider.
   */
  predicate Excuses(s: State, e: Event, pid: Pid, key: Key) {
    && Steps(e, pid) && IsLogout(s, pid, key)
    && match s.procs[pid].logout
       case LogoutTryingLock => e.outcome.Fault?
       case LogoutReading(_) => !FindsRefreshToken(s, e, key)
       case LogoutEnding(_) => e.outcome != Proceed && !e.outcome.lands
       case _ => false
  }

  lemma LogoutMoves(s: State, e: Event, pid: Pid, key: Key)
    requires IsLogout(s, pid, key) && BeforeEnding(s.procs[pid].logout) && key in s.shared.grants
    ensures IsLogout(Next(s, e), pid, key) && key in Next(s, e).shared.grants
    ensures BeforeEnding(Next(s, e).procs[pid].logout) || Revoked(Next(s, e).shared, key) || Excuses(s, e, pid, key)
  {
  }

  ghost predicate Excused(s: State, run: seq<Event>, pid: Pid, key: Key) {
    exists k: nat :: k < |run| && Excuses(Exec(s, run[..k]), run[k], pid, key)
  }

  /** The chain is revoked at the end of the run, or an event of the run says why it is not. */
  ghost predicate EndsTheChain(s: State, run: seq<Event>, pid: Pid, key: Key) {
    key in s.shared.grants ==> Revoked(Exec(s, run).shared, key) || Excused(s, run, pid, key)
  }

  /** A logout that has come past the provider has revoked the chain, or one of its steps excuses it. */
  lemma {:induction false} LogoutRevokes(s: State, run: seq<Event>, pid: Pid, key: Key)
    requires IsLogout(s, pid, key) && BeforeEnding(s.procs[pid].logout)
    requires IsLogout(Exec(s, run), pid, key) && !BeforeEnding(Exec(s, run).procs[pid].logout)
    ensures EndsTheChain(s, run, pid, key)
    decreases |run|
  {
    if run != [] && key in s.shared.grants {
      var next := Next(s, run[0]);
      LogoutMoves(s, run[0], pid, key);
      if Excuses(s, run[0], pid, key) {
        assert run[..0] == [] && Excuses(Exec(s, run[..0]), run[0], pid, key);
      } else if Revoked(next.shared, key) {
        RevokedForGood(next, run[1..], key);
      } else {
        LogoutRevokes(next, run[1..], pid, key);
        if k: nat :| k < |run[1..]| && Excuses(Exec(next, run[1..][..k]), run[1..][k], pid, key) {
          Shift(s, run, k);
          assert Excuses(Exec(s, run[..k + 1]), run[k + 1], pid, key);
        }
      }
    }
  }

  /**
    Step by step, whatever the others do in between: a read that finds a refresh token leads to the end-session call,
    and once that call has reached the provider the chain accepts nothing in any continuation.
   */
  lemma LogoutEndsTheChain(s: State, between: seq<Event>, run: seq<Event>, pid: Pid, key: Key, outcome: Outcome, clock: nat)
    requires IsLogout(s, pid, key) && s.procs[pid].logout.LogoutReading? && key in s.shared.grants
    requires FindsRefreshToken(s, Step(pid, Proceed, clock, 0), key) && (outcome == Proceed || outcome.lands)
    requires forall i :: 0 <= i < |between| ==> !Steps(between[i], pid)
    ensures var called := Exec(Next(s, Step(pid, Proceed, clock, 0)), between);
      var after := Exec(Next(called, Step(pid, outcome, clock, 0)), run);
      Revoked(after.shared, key) && forall n: nat :: !Accepts(after.shared, key, n)
  {
    var read := Next(s, Step(pid, Proceed, clock, 0));
    assert read.procs[pid].logout.LogoutEnding?;
    WaitsForTheProvider(read, between, pid, key);
    var called := Exec(read, between);
    LogoutMoves(called, Step(pid, outcome, clock, 0), pid, key);
    RevokedForGood(Next(called, Step(pid, outcome, clock, 0)), run, key);
  }

  lemma {:induction false} WaitsForTheProvider(s: State, between: seq<Event>, pid: Pid, key: Key)
    requires IsLogout(s, pid, key) && key in s.shared.grants
    requires forall i :: 0 <= i < |between| ==> !Steps(between[i], pid)
    ensures IsLogout(Exec(s, between), pid, key) && Exec(s, between).procs[pid] == s.procs[pid]
    ensures key in Exec(s, between).shared.grants
    decreases |between|
  {
    if between != [] {
      GrantStays(s, between[0], key);
      WaitsForTheProvider(Next(s, between[0]), between[1..], pid, key);
    }
  }

  lemma GrantStays(s: State, e: Event, key: Key)
    requires key in s.shared.grants
    ensures key in Next(s, e).shared.grants
  {
    if e.Step? && e.pid in s.procs {
      var effect := StepProc(s.shared, s.procs[e.pid], e.outcome, e.clock, e.tokenLife).0;
      assert key in Apply(s.shared, e.pid, effect).grants;
    }
  }

  /** From a read that finds no refresh token on, the logout leaves the provider alone, however long the run. */
  lemma {:induction false} NoTokenNoRevocation(s: State, run: seq<Event>, pid: Pid, key: Key, outcome: Outcome, clock: nat)
    requires IsLogout(s, pid, key) && (!BeforeEnding(s.procs[pid].logout) || s.procs[pid].logout.LogoutReading?)
    requires s.procs[pid].logout.LogoutReading? ==>
      run != [] && Steps(run[0], pid) && !FindsRefreshToken(s, run[0], key)
    ensures IsLogout(Exec(s, run), pid, key) && !BeforeEnding(Exec(s, run).procs[pid].logout)
    ensures var t := Exec(s, run); Next(t, Step(pid, outcome, clock, 0)).shared.grants == t.shared.grants
    decreases |run|
  {
    if run != [] {
      NoTokenNoRevocation(Next(s, run[0]), run[1..], pid, key, outcome, clock);
    }
  }

  // ----- A logout's lock, and calls that do not come through -----

  lemma {:induction false} LogoutDeadlineStays(s: State, run: seq<Event>, pid: Pid, key: Key, deadline: nat)
    requires IsLogout(s, pid, key) && s.procs[pid].deadline == deadline
    ensures IsLogout(Exec(s, run), pid, key) && Exec(s, run).procs[pid].deadline == deadline
    decreases |run|
  {
    if run != [] {
      LogoutDeadlineStays(Next(s, run[0]), run[1..], pid, key, deadline);
    }
  }

  /**
    A logout waits for the lock for ten seconds from its start and no longer: a free lock is its own, a held one makes it
    poll until then and go on without it after. A cancelled wait goes on without it too; an acquire that fails ends it.
   */
  lemma LogoutTakesTheLockIff(s: State, run: seq<Event>, pid: Pid, key: Key, outcome: Outcome, clock: nat)
    requires pid !in s.procs
    requires var t := Exec(Next(s, StartLogout(pid, key)), run);
      IsLogout(t, pid, key) && t.procs[pid].logout.LogoutTryingLock?
    ensures var t := Exec(Next(s, StartLogout(pid, key)), run);
      var after := Next(t, Step(pid, outcome, clock, 0));
      && IsLogout(after, pid, key)
      && after.procs[pid].logout ==
           (match outcome
            case Cancel(_) => LogoutReading(false)
            case Fault(_) => LogoutDone
            case Proceed =>
              if LockFree(t.shared, key) then LogoutReading(true)
              else if s.shared.now + 10_000 <= t.shared.now then LogoutReading(false) else LogoutTryingLock)
      && (after.procs[pid].logout == LogoutReading(true) ==>
            key in after.shared.locks && after.shared.locks[key] == LockEntry(pid, t.shared.now + 10_000))
  {
    LogoutDeadlineStays(Next(s, StartLogout(pid, key)), run, pid, key, s.shared.now + 10_000);
  }

  /** Whatever fails after that, a logout goes on to its delete, and lets go of a lock it took also when the delete fails. */
  lemma LogoutGoesOn(s: State, pid: Pid, key: Key, outcome: Outcome, clock: nat, held: bool)
    requires IsLogout(s, pid, key)
    ensures var pc, after := s.procs[pid].logout, Next(s, Step(pid, outcome, clock, 0)).procs[pid].logout;
      && (pc == LogoutReading(held) && outcome != Proceed ==> after == LogoutSigningOut(held))
      && (pc == LogoutEnding(held) ==> after == LogoutSigningOut(held))
      && (pc == LogoutSigningOut(held) ==> after.LogoutDeleting? && after.held == held)
      && (pc.LogoutDeleting? ==> after == if pc.held then LogoutReleasing else LogoutDone)
      && (pc == LogoutReleasing ==> after == LogoutDone)
  {
  }

  /** A back-channel logout whose read of the members fails ends without deleting anything. */
  lemma FailedMemberReadEndsIt(s: State, pid: Pid, sid: Sid, outcome: Outcome, clock: nat)
    requires pid in s.procs && s.procs[pid] == Backchannel(sid, MembersReading) && outcome != Proceed
    ensures var after := Next(s, Step(pid, outcome, clock, 0));
      after.shared == s.shared && after.procs[pid] == Backchannel(sid, BackchannelDone)
  {
  }
}
