/**
  The lock's purpose: in runs where every holder ends within the TTL and every write-back succeeds,
  a refresh token whose refresh succeeded is never sent again.
 */
module SentOnce {
  import opened Options
  import opened SessionModel
  import opened RefreshChain
  import opened LockSafety
  import opened SessionRuns
  import NoResurrection

  /** No holder has outlived its TTL. */
  ghost predicate InTime(s: State) {
    forall pid :: pid in s.procs && Holds(s.procs[pid]) ==> !Overrun(s.shared, s.procs[pid])
  }

  /** The event is not a write-back that fails or that its caller gives up on. */
  predicate WritesBack(s: State, e: Event) {
    e.Step? && e.pid in s.procs && s.procs[e.pid].Request? && s.procs[e.pid].pc.Writing? ==> e.outcome == Proceed
  }

  /** Both conditions, at every point of the run. */
  ghost predicate Disciplined(s: State, run: seq<Event>)
    decreases |run|
  {
    InTime(s) && (run != [] ==> WritesBack(s, run[0]) && Disciplined(Next(s, run[0]), run[1..]))
  }

  ghost predicate Once(s: State, key: Key) {
    && (forall n: nat :: Succeeded(s.shared, key, n) ==> key in s.shared.grants && n < s.shared.grants[key].current)
    && (forall p, n: nat :: IsSending(s, p, key) && Succeeded(s.shared, key, n) ==> Sent(s, p, key) != Some(n))
    && (forall p :: IsWriting(s, p, key) ==> !s.procs[p].pc.gaveUp)
    && (Live(s.shared, key) && (forall p :: !IsWriting(s, p, key)) ==>
          forall n: nat :: Succeeded(s.shared, key, n) ==> Stored(s, key).Some? && n < Stored(s, key).value)
  }

  /** With everyone in time, two processes that hold the lock of one key are one process. */
  lemma Alone(s: State, p: Pid, q: Pid)
    requires LockOk(s) && InTime(s)
    requires p in s.procs && q in s.procs && Holds(s.procs[p]) && Holds(s.procs[q])
    requires s.procs[p].key == s.procs[q].key
    ensures p == q
  {
    assert Owns(s.shared, p, s.procs[p]) && Owns(s.shared, q, s.procs[q]);
  }

  // ----- Effects, as in RefreshChain, with the history of successes -----

  lemma OthersAddNoSuccess(s: Shared, pid: Pid, p: Proc, outcome: Outcome, clock: nat, life: nat, key: Key)
    requires !Refreshing(p, key)
    ensures var n := StepProc(s, p, outcome, clock, life);
      && (forall m: nat :: Succeeded(Apply(s, pid, n.0), key, m) ==> Succeeded(s, key, m))
      && (Refreshing(n.1, key) ==> Live(s, key) && Holds(p) && p.Request? && p.key == key)
  {
  }

  lemma AnswerAddsOwnToken(s: Shared, pid: Pid, p: Proc, outcome: Outcome, clock: nat, life: nat)
    requires p.Request? && p.pc.Sending? && p.pc.ticket.refresh.Some?
    ensures var n := StepProc(s, p, outcome, clock, life);
      var t := Apply(s, pid, n.0);
      && n.1.Request? && t.now == s.now
      && t.succeeded == (if n.1.pc.Writing? then s.succeeded + {(p.key, p.pc.ticket.refresh.value)} else s.succeeded)
      && (n.1.pc.Writing? ==> !n.1.pc.gaveUp && t.grants != s.grants)
  {
  }

  lemma WriteLands(s: Shared, pid: Pid, p: Proc, clock: nat, life: nat)
    requires p.Request? && p.pc.Writing? && !p.pc.gaveUp
    ensures var n := StepProc(s, p, Proceed, clock, life);
      var t := Apply(s, pid, n.0);
      && t.succeeded == s.succeeded && t.now == s.now
      && n.1.Request? && !n.1.pc.Writing? && !n.1.pc.Sending?
      && (Live(t, p.key) ==> Live(s, p.key) && t.tickets[p.key].ticket.refresh == Some(p.pc.position))
  {
  }

  // ----- Each kind of step keeps it -----

  lemma QuietKeepsOnce(s: State, t: State, stepped: set<Pid>, key: Key)
    requires Chain(s, key) && Once(s, key) && LockOk(s) && InTime(s)
    requires OthersSame(s, t, stepped, key) && Quiet(s.shared, t.shared, key)
    requires forall n: nat :: Succeeded(t.shared, key, n) ==> Succeeded(s.shared, key, n)
    requires key in s.shared.grants && Live(t.shared, key) ==> Live(s.shared, key)
    requires forall p :: p in stepped ==> !IsSending(s, p, key) && !IsWriting(s, p, key) && !IsWriting(t, p, key)
    requires forall p :: p in stepped && IsSending(t, p, key) ==>
      && p in s.procs && Holds(s.procs[p]) && s.procs[p].key == key
      && Live(s.shared, key) && Sent(t, p, key) == Stored(s, key)
    ensures Once(t, key)
  {
    forall p, n: nat | IsSending(t, p, key) && Succeeded(t.shared, key, n)
      ensures Sent(t, p, key) != Some(n)
    {
      if p in stepped {
        forall q ensures !IsWriting(s, q, key) {
          if IsWriting(s, q, key) {
            Alone(s, p, q);
          }
        }
      }
    }
    if forall p :: !IsWriting(t, p, key) {
      forall p ensures !IsWriting(s, p, key) {
        assert !IsWriting(t, p, key);
      }
    }
  }

  lemma AnswerKeepsOnce(s: State, t: State, pid: Pid, key: Key)
    requires Chain(s, key) && Once(s, key) && LockOk(s) && InTime(s)
    requires OthersSame(s, t, {pid}, key) && IsSending(s, pid, key) && pid in t.procs
    requires Answered(s.shared, t.shared, s.procs[pid], t.procs[pid], key)
    requires t.shared.now == s.shared.now
    requires t.shared.succeeded ==
      if t.procs[pid].pc.Writing? then s.shared.succeeded + {(key, Sent(s, pid, key).value)} else s.shared.succeeded
    requires t.procs[pid].pc.Writing? ==> !t.procs[pid].pc.gaveUp && t.shared.grants != s.shared.grants
    ensures Once(t, key)
  {
    forall q ensures !IsSending(t, q, key) {
      if IsSending(t, q, key) {
        Alone(s, pid, q);
      }
    }
    forall n: nat
      ensures Succeeded(t.shared, key, n) ==>
        Succeeded(s.shared, key, n) || (t.procs[pid].pc.Writing? && n == Sent(s, pid, key).value)
    {
    }
    if IsWriting(t, pid, key) {
    } else if forall p :: !IsWriting(t, p, key) {
      forall p ensures !IsWriting(s, p, key) {
        assert !IsWriting(t, p, key);
      }
    }
  }

  lemma WriteKeepsOnce(s: State, t: State, pid: Pid, key: Key)
    requires Chain(s, key) && Once(s, key)
    requires OthersSame(s, t, {pid}, key) && IsWriting(s, pid, key) && pid in t.procs
    requires Written(s.shared, t.shared, s.procs[pid], t.procs[pid], key)
    requires t.shared.succeeded == s.shared.succeeded && t.shared.now == s.shared.now
    requires !IsWriting(t, pid, key)
    requires Live(t.shared, key) ==>
      t.shared.tickets[key].ticket.refresh == Some(s.procs[pid].pc.position)
    ensures Once(t, key)
  {
    forall n: nat ensures Succeeded(t.shared, key, n) == Succeeded(s.shared, key, n) {
    }
  }

  lemma StepKeepsOnce(s: State, e: Event, key: Key)
    requires Chain(s, key) && Once(s, key) && LockOk(s) && InTime(s)
    requires e.Step? && e.pid in s.procs && WritesBack(s, e)
    ensures Once(Next(s, e), key)
  {
    var p := s.procs[e.pid];
    var n := StepProc(s.shared, p, e.outcome, e.clock, e.tokenLife);
    var t := State(Apply(s.shared, e.pid, n.0), s.procs[e.pid := n.1]);
    if IsSending(s, e.pid, key) {
      SendingIsAnswered(s.shared, e.pid, p, e.outcome, e.clock, e.tokenLife);
      AnswerAddsOwnToken(s.shared, e.pid, p, e.outcome, e.clock, e.tokenLife);
      AnswerKeepsOnce(s, t, e.pid, key);
    } else if IsWriting(s, e.pid, key) {
      WritingIsWritten(s.shared, e.pid, p, e.outcome, e.clock, e.tokenLife);
      WriteLands(s.shared, e.pid, p, e.clock, e.tokenLife);
      WriteKeepsOnce(s, t, e.pid, key);
    } else {
      OnlyRefreshingTouches(s.shared, p, e.outcome, e.clock, e.tokenLife, key);
      OthersAreQuiet(s.shared, e.pid, n.0, key);
      OthersAddNoSuccess(s.shared, e.pid, p, e.outcome, e.clock, e.tokenLife, key);
      NoResurrection.EffectKeepsDead(s.shared, e.pid, n.0, key);
      QuietKeepsOnce(s, t, {e.pid}, key);
    }
  }

  lemma EventKeepsOnce(s: State, e: Event, key: Key)
    requires Chain(s, key) && Once(s, key) && LockOk(s) && InTime(s) && !e.Step?
    ensures Once(Next(s, e), key)
  {
    EventIsQuiet(s, e, key);
    QuietKeepsOnce(s, Next(s, e), {}, key);
  }

  lemma EventIsQuiet(s: State, e: Event, key: Key)
    requires !e.Step?
    ensures OthersSame(s, Next(s, e), {}, key) && Quiet(s.shared, Next(s, e).shared, key)
    ensures Next(s, e).shared.succeeded == s.shared.succeeded
    ensures key in s.shared.grants && Live(Next(s, e).shared, key) ==> Live(s.shared, key)
  {
  }

  lemma OnceStep(s: State, e: Event, key: Key)
    requires Chain(s, key) && Once(s, key) && LockOk(s) && InTime(s) && WritesBack(s, e)
    ensures Once(Next(s, e), key)
  {
    if !e.Step? {
      EventKeepsOnce(s, e, key);
    } else if e.pid in s.procs {
      StepKeepsOnce(s, e, key);
    }
  }

  lemma {:induction false} OnceHolds(s: State, run: seq<Event>, key: Key)
    requires Chain(s, key) && Once(s, key) && LockOk(s) && Disciplined(s, run)
    ensures Once(Exec(s, run), key)
    decreases |run|
  {
    if run != [] {
      OnceStep(s, run[0], key);
      ChainStep(s, run[0], key);
      LockOkStep(s, run[0]);
      OnceHolds(Next(s, run[0]), run[1..], key);
    }
  }

  /** A request about to send a refresh token never sends one whose refresh already succeeded. */
  lemma SucceededTokenNeverResent(now: nat, run: seq<Event>, pid: Pid, key: Key)
    requires Disciplined(Start(now), run)
    requires IsSending(Exec(Start(now), run), pid, key)
    ensures var s := Exec(Start(now), run);
      Sent(s, pid, key).Some? && (key, Sent(s, pid, key).value) !in s.shared.succeeded
  {
    var s := Exec(Start(now), run);
    ChainHolds(Start(now), run, key);
    OnceHolds(Start(now), run, key);
    assert Succeeded(s.shared, key, Sent(s, pid, key).value) ==> false;
  }

  // ----- In every run: when the next refresh sends a spent token -----

  /** The provider has moved on from this position. */
  predicate Spent(s: Shared, key: Key, position: nat) {
    key in s.grants && position < s.grants[key].current
  }

  ghost predicate SuccessesAreSpent(s: Shared) {
    forall key, n: nat :: Succeeded(s, key, n) ==> Spent(s, key, n)
  }

  lemma EffectKeepsSuccessesSpent(s: Shared, pid: Pid, e: Effect)
    requires SuccessesAreSpent(s) && (e.Rotates? && e.received ==> Accepts(s, e.key, e.position))
    ensures SuccessesAreSpent(Apply(s, pid, e))
  {
    forall key, n: nat | Succeeded(Apply(s, pid, e), key, n) ensures Spent(Apply(s, pid, e), key, n) {
      assert Succeeded(s, key, n) ==> Spent(s, key, n);
    }
  }

  lemma OnlyAcceptedIsReceived(s: Shared, p: Proc, outcome: Outcome, clock: nat, life: nat)
    ensures var e := StepProc(s, p, outcome, clock, life).0; e.Rotates? && e.received ==> Accepts(s, e.key, e.position)
  {
  }

  lemma SuccessesStaySpent(s: State, e: Event)
    requires SuccessesAreSpent(s.shared)
    ensures SuccessesAreSpent(Next(s, e).shared)
  {
    if e.Step? {
      if e.pid in s.procs {
        OnlyAcceptedIsReceived(s.shared, s.procs[e.pid], e.outcome, e.clock, e.tokenLife);
        EffectKeepsSuccessesSpent(s.shared, e.pid, StepProc(s.shared, s.procs[e.pid], e.outcome, e.clock, e.tokenLife).0);
      }
    } else {
      forall key, n: nat | Succeeded(Next(s, e).shared, key, n) ensures Spent(Next(s, e).shared, key, n) {
        assert Succeeded(s.shared, key, n) && Spent(s.shared, key, n);
      }
    }
  }

  lemma {:induction false} SuccessesAreSpentHolds(s: State, run: seq<Event>)
    requires SuccessesAreSpent(s.shared)
    ensures SuccessesAreSpent(Exec(s, run).shared)
    decreases |run|
  {
    if run != [] {
      SuccessesStaySpent(s, run[0]);
      SuccessesAreSpentHolds(Next(s, run[0]), run[1..]);
    }
  }

  /** A request that holds the lock and whose re-read is about to find a stale ticket with a refresh token. */
  predicate AboutToRefresh(s: State, pid: Pid, key: Key) {
    && pid in s.procs && s.procs[pid].Request? && s.procs[pid].key == key && s.procs[pid].pc.ReReading?
    && Live(s.shared, key) && Stored(s, key).Some? && !IsFresh(s.shared.tickets[key].ticket, s.shared.now)
  }

  /**
    In every run, disciplined or not: the next refresh sends the stored token, and that token is spent exactly
    when the stored position is one behind the provider's newest. Only then can its refresh have succeeded before.
   */
  lemma NextRefreshSendsSpentIff(now: nat, run: seq<Event>, pid: Pid, key: Key, clock: nat, life: nat)
    requires AboutToRefresh(Exec(Start(now), run), pid, key)
    ensures var s := Exec(Start(now), run);
      var t := Next(s, Step(pid, Proceed, clock, life));
      && IsSending(t, pid, key) && Sent(t, pid, key) == Stored(s, key) && key in s.shared.grants
      && (Spent(t.shared, key, Stored(s, key).value) <==> s.shared.grants[key].current == Stored(s, key).value + 1)
      && (Succeeded(t.shared, key, Stored(s, key).value) ==> s.shared.grants[key].current == Stored(s, key).value + 1)
  {
    AtMostOneUnwritten(now, run, key);
    SuccessesAreSpentHolds(Start(now), run);
    var s := Exec(Start(now), run);
    assert Succeeded(s.shared, key, Stored(s, key).value) ==> Spent(s.shared, key, Stored(s, key).value);
  }

  // ----- Both run conditions are needed -----

  /** A holder that outlives the lock before it writes back: the next holder sends the spent token. */
  lemma OverrunResends() returns (run: seq<Event>)
    ensures var s := Exec(Start(0), run); IsSending(s, 1, 1) && Sent(s, 1, 1) == Some(0) && (1, 0) in s.shared.succeeded
  {
    var s: State;
    run, s := RefreshedNotWritten(None);
    run, s := OneMore(run, s, Tick(LOCK_TTL));
    run, s := RequestSends(run, s, 1);
    assert Succeeded(s.shared, 1, 0);
  }

  /** A write-back that fails, all in good time: the next holder sends the spent token. */
  lemma FailedWriteResends() returns (run: seq<Event>)
    ensures var s := Exec(Start(0), run); IsSending(s, 1, 1) && Sent(s, 1, 1) == Some(0) && (1, 0) in s.shared.succeeded
  {
    var s: State;
    run, s := RefreshedNotWritten(None);
    run, s := OneMore(run, s, Step(0, Fault(false), 0, 0));
    assert s.procs[0].pc == Releasing(Failed);
    run, s := OneMore(run, s, Step(0, Proceed, 0, 0));
    run, s := RequestSends(run, s, 1);
    assert Succeeded(s.shared, 1, 0);
  }
}
