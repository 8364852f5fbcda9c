/**
  The per-session lock with an expiry. Without any assumption, a process between taking the lock and
  letting it go either still owns it or has outlived its TTL. So two such processes never overlap in
  time, and in runs where no holder outlives the TTL and no write-back fails, a refresh token whose
  refresh succeeded is never sent a second time.
 */
module LockSafety {
  import opened Options
  import opened SessionModel
  import opened RefreshChain

  /** Between a successful acquire and the release, as the code sees it. */
  predicate Holds(p: Proc) {
    match p
    case Request(_, _, _, pc) =>
      pc.ReReading? || pc.Sending? || (pc.Writing? && !pc.gaveUp) || pc.CheckingRace? || pc.Releasing?
    case Logout(_, _, _, pc) =>
      match pc {
        case LogoutReading(held) => held
        case LogoutEnding(held) => held
        case LogoutSigningOut(held) => held
        case LogoutDeleting(held, _) => held
        case LogoutReleasing => true
        case _ => false
      }
    case Removal(_, _) => false
    case Backchannel(_, _) => false
  }

  /** The holder is past the TTL it took the lock with. */
  predicate Overrun(s: Shared, p: Proc)
    requires Holds(p)
  {
    p.taken + LOCK_TTL <= s.now
  }

  predicate Owns(s: Shared, pid: Pid, p: Proc)
    requires Holds(p)
  {
    p.key in s.locks && s.locks[p.key] == LockEntry(pid, p.taken + LOCK_TTL)
  }

  ghost predicate LockOk(s: State) {
    forall pid :: pid in s.procs && Holds(s.procs[pid]) ==>
      s.procs[pid].taken <= s.shared.now
      && (Owns(s.shared, pid, s.procs[pid]) || Overrun(s.shared, s.procs[pid]))
  }

  // ----- What a step does to a lock -----

  /** A live lock is changed by its holder alone: no late release and no acquire touches it. */
  ghost predicate LeavesOthersLocks(s: Shared, t: Shared, stepper: Pid) {
    && t.now == s.now
    && forall key :: key in s.locks && s.locks[key].holder != stepper && s.now < s.locks[key].expires ==>
         key in t.locks && t.locks[key] == s.locks[key]
  }

  /** A holder after the step was one before it with the lock untouched, or has just taken the lock. */
  ghost predicate HoldsHonestly(s: Shared, t: Shared, pid: Pid, p: Proc, q: Proc) {
    Holds(q) ==>
      || (Holds(p) && q.key == p.key && q.taken == p.taken && t.locks == s.locks)
      || (q.taken == s.now && Owns(t, pid, q))
  }

  lemma EffectLeavesOthersLocks(s: Shared, pid: Pid, e: Effect)
    ensures LeavesOthersLocks(s, Apply(s, pid, e), pid)
  {
  }

  lemma RequestHoldsHonestly(s: Shared, pid: Pid, p: Proc, outcome: Outcome, clock: nat, life: nat)
    requires p.Request?
    ensures var n := StepRequest(s, p, outcome, clock, life); HoldsHonestly(s, Apply(s, pid, n.0), pid, p, n.1)
  {
  }

  lemma ProcHoldsHonestly(s: Shared, pid: Pid, p: Proc, outcome: Outcome, clock: nat, life: nat)
    ensures var n := StepProc(s, p, outcome, clock, life); HoldsHonestly(s, Apply(s, pid, n.0), pid, p, n.1)
  {
    if p.Request? {
      RequestHoldsHonestly(s, pid, p, outcome, ClockRead(s, clock), life);
    }
  }

  lemma StepKeepsLockOk(s: State, t: State, pid: Pid)
    requires LockOk(s) && pid in s.procs && pid in t.procs
    requires t.procs == s.procs[pid := t.procs[pid]]
    requires LeavesOthersLocks(s.shared, t.shared, pid)
    requires HoldsHonestly(s.shared, t.shared, pid, s.procs[pid], t.procs[pid])
    ensures LockOk(t)
  {
  }

  lemma LockOkStep(s: State, e: Event)
    requires LockOk(s)
    ensures LockOk(Next(s, e))
  {
    if e.Step? && e.pid in s.procs {
      EffectLeavesOthersLocks(s.shared, e.pid, StepProc(s.shared, s.procs[e.pid], e.outcome, e.clock, e.tokenLife).0);
      ProcHoldsHonestly(s.shared, e.pid, s.procs[e.pid], e.outcome, e.clock, e.tokenLife);
      StepKeepsLockOk(s, Next(s, e), e.pid);
    }
  }

  lemma {:induction false} LockOkHolds(s: State, run: seq<Event>)
    requires LockOk(s)
    ensures LockOk(Exec(s, run))
    decreases |run|
  {
    if run != [] {
      LockOkStep(s, run[0]);
      LockOkHolds(Next(s, run[0]), run[1..]);
    }
  }

  // ----- Mutual exclusion -----

  /**
    Two processes hold the lock of one session at once only if one of them has outlived the TTL:
    two refreshes, two logouts, or a logout that got the lock and a refresh.
   */
  lemma OneHolder(now: nat, run: seq<Event>, p: Pid, q: Pid)
    requires var s := Exec(Start(now), run);
      && p in s.procs && q in s.procs && p != q
      && Holds(s.procs[p]) && Holds(s.procs[q]) && s.procs[p].key == s.procs[q].key
    ensures var s := Exec(Start(now), run); Overrun(s.shared, s.procs[p]) || Overrun(s.shared, s.procs[q])
  {
    LockOkHolds(Start(now), run);
  }

  /** Whatever the others do, late releases included, an owned lock stays owned until its own TTL or step. */
  lemma {:induction false} OwnershipLasts(s: State, run: seq<Event>, pid: Pid)
    requires pid in s.procs && Holds(s.procs[pid]) && Owns(s.shared, pid, s.procs[pid])
    requires forall i :: 0 <= i < |run| ==> !Steps(run[i], pid)
    ensures var t := Exec(s, run);
      && pid in t.procs && t.procs[pid] == s.procs[pid]
      && (Owns(t.shared, pid, s.procs[pid]) || Overrun(t.shared, s.procs[pid]))
    decreases |run|
  {
    if run != [] {
      var e := run[0];
      if e.Step? && e.pid in s.procs {
        EffectLeavesOthersLocks(s.shared, e.pid, StepProc(s.shared, s.procs[e.pid], e.outcome, e.clock, e.tokenLife).0);
      }
      if Overrun(Next(s, e).shared, s.procs[pid]) {
        StaysOverrun(Next(s, e), run[1..], pid);
      } else {
        OwnershipLasts(Next(s, e), run[1..], pid);
      }
    }
  }

  lemma {:induction false} StaysOverrun(s: State, run: seq<Event>, pid: Pid)
    requires pid in s.procs && Holds(s.procs[pid]) && Overrun(s.shared, s.procs[pid])
    requires forall i :: 0 <= i < |run| ==> !Steps(run[i], pid)
    ensures var t := Exec(s, run);
      pid in t.procs && t.procs[pid] == s.procs[pid] && Overrun(t.shared, s.procs[pid])
    decreases |run|
  {
    if run != [] {
      var e := run[0];
      if e.Step? && e.pid in s.procs {
        EffectLeavesOthersLocks(s.shared, e.pid, StepProc(s.shared, s.procs[e.pid], e.outcome, e.clock, e.tokenLife).0);
      }
      StaysOverrun(Next(s, e), run[1..], pid);
    }
  }
}
