/**
  Under strict rotation the stored refresh token only moves forward on the provider's chain, and the
  provider is never more than one position ahead of it, in every run: no assumption is made that a
  holder ends within the lock's TTL, so two holders of one session may run at once.
 */
module RefreshChain {
  import opened Options
  import opened SessionModel

  predicate IsSending(s: State, pid: Pid, key: Key) {
    pid in s.procs && s.procs[pid].Request? && s.procs[pid].key == key && s.procs[pid].pc.Sending?
  }

  predicate IsWriting(s: State, pid: Pid, key: Key) {
    pid in s.procs && s.procs[pid].Request? && s.procs[pid].key == key && s.procs[pid].pc.Writing?
  }

  function Sent(s: State, pid: Pid, key: Key): (t: Option<nat>)
    requires IsSending(s, pid, key)
  {
    s.procs[pid].pc.ticket.refresh
  }

  /** The refresh token in Redis, as a position on the chain. */
  function Stored(s: State, key: Key): (t: Option<nat>)
    requires key in s.shared.tickets
  {
    s.shared.tickets[key].ticket.refresh
  }

  ghost predicate Chain(s: State, key: Key) {
    && (forall p :: IsSending(s, p, key) ==>
          key in s.shared.grants && Sent(s, p, key).Some? && Sent(s, p, key).value <= s.shared.grants[key].current)
    && (forall p :: IsWriting(s, p, key) ==>
          key in s.shared.grants && s.procs[p].pc.position == s.shared.grants[key].current)
    && (forall p, q :: IsWriting(s, p, key) && IsSending(s, q, key) ==>
          Sent(s, q, key).value < s.procs[p].pc.position)
    && (forall p, q :: IsWriting(s, p, key) && IsWriting(s, q, key) ==> p == q)
    && (key in s.shared.tickets ==> ChainStored(s, key))
  }

  ghost predicate ChainStored(s: State, key: Key)
    requires key in s.shared.tickets
  {
    && key in s.shared.grants
    && match Stored(s, key)
       case None => forall p :: !IsSending(s, p, key) && !IsWriting(s, p, key)
       case Some(m) =>
         && m <= s.shared.grants[key].current <= m + 1
         && (forall p :: IsSending(s, p, key) ==> Sent(s, p, key).Some? && Sent(s, p, key).value <= m)
         && (forall p :: IsWriting(s, p, key) ==> s.procs[p].pc.position == m + 1)
  }

  // ----- What one step can do to the chain of one key -----

  /** Nothing but reading the stored token, deleting the ticket, or handing the key out. */
  ghost predicate Quiet(s: Shared, t: Shared, key: Key) {
    && (key in s.grants ==> key in t.grants && t.grants[key].current == s.grants[key].current)
    && (key in s.grants && key in t.tickets ==>
          key in s.tickets && t.tickets[key].ticket.refresh == s.tickets[key].ticket.refresh)
    && (key !in s.grants && key in t.grants ==>
          t.grants[key].current == 0 && key in t.tickets && t.tickets[key].ticket.refresh in {None, Some(0)})
    && (key !in s.grants && key !in t.grants && key in t.tickets ==> key in s.tickets)
  }

  predicate TouchesChain(e: Effect, key: Key) {
    (e.Rotates? || e.Updates?) && e.key == key
  }

  predicate Refreshing(p: Proc, key: Key) {
    p.Request? && p.key == key && (p.pc.Sending? || p.pc.Writing?)
  }

  /** A process that was not refreshing the key starts only from the token it just read. */
  ghost predicate StartsFromStored(s: Shared, p: Proc, key: Key) {
    Refreshing(p, key) ==>
      && p.pc.Sending? && key in s.tickets
      && p.pc.ticket.refresh == s.tickets[key].ticket.refresh && p.pc.ticket.refresh.Some?
  }

  lemma OthersAreQuiet(s: Shared, pid: Pid, e: Effect, key: Key)
    requires !TouchesChain(e, key)
    ensures Quiet(s, Apply(s, pid, e), key)
  {
  }

  lemma OnlyRefreshingTouches(s: Shared, p: Proc, outcome: Outcome, clock: nat, life: nat, key: Key)
    requires !Refreshing(p, key)
    ensures var n := StepProc(s, p, outcome, clock, life);
      && !TouchesChain(n.0, key) && StartsFromStored(s, n.1, key)
      && (n.1.Request? && Refreshing(n.1, key) ==> n.0 == Nothing)
  {
  }

  /** The provider's answer to a token, or no answer. */
  ghost predicate Answered(s: Shared, t: Shared, p: Proc, q: Proc, key: Key)
    requires p.Request? && p.pc.Sending? && p.pc.ticket.refresh.Some?
  {
    && t.tickets == s.tickets
    && q.Request? && q.key == key && !q.pc.Sending?
    && (if t.grants == s.grants then !q.pc.Writing?
        else
          && key in s.grants && s.grants[key].current == p.pc.ticket.refresh.value
          && key in t.grants && t.grants[key].current == s.grants[key].current + 1
          && (q.pc.Writing? ==> q.pc.position == t.grants[key].current))
  }

  lemma SendingIsAnswered(s: Shared, pid: Pid, p: Proc, outcome: Outcome, clock: nat, life: nat)
    requires p.Request? && p.pc.Sending? && p.pc.ticket.refresh.Some?
    ensures var n := StepProc(s, p, outcome, clock, life); Answered(s, Apply(s, pid, n.0), p, n.1, p.key)
  {
  }

  /** A write-back lands or not, and the process is done writing unless it only gave up waiting. */
  ghost predicate Written(s: Shared, t: Shared, p: Proc, q: Proc, key: Key)
    requires p.Request? && p.pc.Writing?
  {
    && t.grants == s.grants
    && q.Request? && q.key == key && !q.pc.Sending?
    && (q.pc.Writing? ==> q.pc.position == p.pc.position && t.tickets == s.tickets)
    && (t.tickets != s.tickets ==>
          && key in s.tickets && key in t.tickets
          && t.tickets[key].ticket.refresh == Some(p.pc.position))
  }

  lemma WritingIsWritten(s: Shared, pid: Pid, p: Proc, outcome: Outcome, clock: nat, life: nat)
    requires p.Request? && p.pc.Writing?
    ensures var n := StepProc(s, p, outcome, clock, life); Written(s, Apply(s, pid, n.0), p, n.1, p.key)
  {
  }

  // ----- Each of the three keeps the chain -----

  ghost predicate OthersSame(s: State, t: State, stepped: set<Pid>, key: Key) {
    && (forall p :: p !in stepped ==> IsSending(t, p, key) == IsSending(s, p, key))
    && (forall p :: p !in stepped ==> IsWriting(t, p, key) == IsWriting(s, p, key))
    && (forall p :: p !in stepped && (IsSending(s, p, key) || IsWriting(s, p, key)) ==> t.procs[p] == s.procs[p])
  }

  /** A clock tick, a sign-in, a revocation, or a new process. */
  lemma EventKeepsChain(s: State, t: State, key: Key)
    requires Chain(s, key) && OthersSame(s, t, {}, key) && Quiet(s.shared, t.shared, key)
    ensures Chain(t, key)
  {
  }

  lemma QuietKeepsChain(s: State, t: State, pid: Pid, key: Key)
    requires Chain(s, key) && OthersSame(s, t, {pid}, key) && Quiet(s.shared, t.shared, key)
    requires !IsSending(s, pid, key) && !IsWriting(s, pid, key)
    requires pid in t.procs ==> StartsFromStored(s.shared, t.procs[pid], key)
    requires IsSending(t, pid, key) ==> t.shared.tickets == s.shared.tickets
    ensures Chain(t, key)
  {
  }

  lemma AnswerKeepsChain(s: State, t: State, pid: Pid, key: Key)
    requires Chain(s, key) && OthersSame(s, t, {pid}, key) && IsSending(s, pid, key)
    requires pid in t.procs && Answered(s.shared, t.shared, s.procs[pid], t.procs[pid], key)
    ensures Chain(t, key)
  {
  }

  lemma WriteKeepsChain(s: State, t: State, pid: Pid, key: Key)
    requires Chain(s, key) && OthersSame(s, t, {pid}, key) && IsWriting(s, pid, key)
    requires pid in t.procs && Written(s.shared, t.shared, s.procs[pid], t.procs[pid], key)
    ensures Chain(t, key)
  {
  }

  lemma StepKeepsChain(s: State, e: Event, key: Key)
    requires Chain(s, key) && e.Step? && e.pid in s.procs
    ensures Chain(Next(s, e), key)
  {
    var p := s.procs[e.pid];
    var n := StepProc(s.shared, p, e.outcome, e.clock, e.tokenLife);
    var t := State(Apply(s.shared, e.pid, n.0), s.procs[e.pid := n.1]);
    if IsSending(s, e.pid, key) {
      SendingIsAnswered(s.shared, e.pid, p, e.outcome, e.clock, e.tokenLife);
      AnswerKeepsChain(s, t, e.pid, key);
    } else if IsWriting(s, e.pid, key) {
      WritingIsWritten(s.shared, e.pid, p, e.outcome, e.clock, e.tokenLife);
      WriteKeepsChain(s, t, e.pid, key);
    } else {
      OnlyRefreshingTouches(s.shared, p, e.outcome, e.clock, e.tokenLife, key);
      OthersAreQuiet(s.shared, e.pid, n.0, key);
      QuietKeepsChain(s, t, e.pid, key);
    }
  }

  lemma ChainStep(s: State, e: Event, key: Key)
    requires Chain(s, key)
    ensures Chain(Next(s, e), key)
  {
    if e.Step? {
      if e.pid in s.procs {
        StepKeepsChain(s, e, key);
      }
    } else {
      EventKeepsChain(s, Next(s, e), key);
    }
  }

  lemma {:induction false} ChainHolds(s: State, run: seq<Event>, key: Key)
    requires Chain(s, key)
    ensures Chain(Exec(s, run), key)
    decreases |run|
  {
    if run != [] {
      ChainStep(s, run[0], key);
      ChainHolds(Next(s, run[0]), run[1..], key);
    }
  }

  // ----- What the chain gives -----

  /** In every run from an empty Redis: the store is at most one position behind the provider, and the
      one position it may lack is in the hands of at most one process. */
  lemma AtMostOneUnwritten(now: nat, run: seq<Event>, key: Key)
    ensures var s := Exec(Start(now), run);
      && (key in s.shared.tickets && Stored(s, key).Some? ==>
            && key in s.shared.grants
            && Stored(s, key).value <= s.shared.grants[key].current <= Stored(s, key).value + 1)
      && (forall p, q :: IsWriting(s, p, key) && IsWriting(s, q, key) ==> p == q)
      && (forall p :: IsWriting(s, p, key) && key in s.shared.tickets ==>
            && Stored(s, key).Some?
            && s.procs[p].pc.position == Stored(s, key).value + 1 == s.shared.grants[key].current)
  {
    assert Chain(Start(now), key);
    ChainHolds(Start(now), run, key);
  }

  lemma EntryStaysStep(s: State, e: Event, key: Key)
    requires key in s.shared.grants
    ensures key in Next(s, e).shared.grants
    ensures key !in s.shared.tickets ==> key !in Next(s, e).shared.tickets
  {
    if e.Step? && e.pid in s.procs {
      EffectMakesNoEntry(s.shared, e.pid, StepProc(s.shared, s.procs[e.pid], e.outcome, e.clock, e.tokenLife).0, key);
    }
  }

  lemma EffectMakesNoEntry(s: Shared, pid: Pid, e: Effect, key: Key)
    ensures key in s.grants ==> key in Apply(s, pid, e).grants
    ensures key !in s.tickets ==> key !in Apply(s, pid, e).tickets
  {
  }

  /** A key that lost its entry does not get one back, so two entries are joined by entries all the way. */
  lemma {:induction false} EntryStays(s: State, run: seq<Event>, key: Key)
    requires key in s.shared.grants && key !in s.shared.tickets
    ensures key !in Exec(s, run).shared.tickets
    decreases |run|
  {
    if run != [] {
      EntryStaysStep(s, run[0], key);
      EntryStays(Next(s, run[0]), run[1..], key);
    }
  }

  lemma EntryStaysGone(s: State, run: seq<Event>, key: Key)
    requires run != [] && Chain(s, key) && key in s.shared.tickets && key !in Next(s, run[0]).shared.tickets
    ensures key !in Exec(s, run).shared.tickets
  {
    EntryStaysStep(s, run[0], key);
    EntryStays(Next(s, run[0]), run[1..], key);
  }

  /** The second state stores nothing older than the first. */
  ghost predicate NotOlder(s: State, t: State, key: Key)
    requires key in s.shared.tickets && key in t.shared.tickets
  {
    if Stored(s, key).None? then Stored(t, key).None?
    else Stored(t, key).Some? && Stored(s, key).value <= Stored(t, key).value
  }

  lemma StoredStep(s: State, e: Event, key: Key)
    requires Chain(s, key) && key in s.shared.tickets && key in Next(s, e).shared.tickets
    ensures NotOlder(s, Next(s, e), key)
  {
    if e.Step? && e.pid in s.procs {
      var p := s.procs[e.pid];
      if IsSending(s, e.pid, key) {
        SendingIsAnswered(s.shared, e.pid, p, e.outcome, e.clock, e.tokenLife);
      } else if IsWriting(s, e.pid, key) {
        WritingIsWritten(s.shared, e.pid, p, e.outcome, e.clock, e.tokenLife);
      } else {
        OnlyRefreshingTouches(s.shared, p, e.outcome, e.clock, e.tokenLife, key);
        OthersAreQuiet(s.shared, e.pid, StepProc(s.shared, p, e.outcome, e.clock, e.tokenLife).0, key);
      }
    }
  }

  lemma NotOlderIsTransitive(s: State, t: State, u: State, key: Key)
    requires key in s.shared.tickets && key in t.shared.tickets && key in u.shared.tickets
    requires NotOlder(s, t, key) && NotOlder(t, u, key)
    ensures NotOlder(s, u, key)
  {
  }

  /** So no write-back, however late, ever overwrites a newer one. */
  lemma {:induction false} StoredNeverGoesBack(s: State, run: seq<Event>, key: Key)
    requires Chain(s, key) && key in s.shared.tickets && key in Exec(s, run).shared.tickets
    ensures NotOlder(s, Exec(s, run), key)
    decreases |run|
  {
    if run != [] {
      var next := Next(s, run[0]);
      ChainStep(s, run[0], key);
      if key !in next.shared.tickets {
        EntryStaysGone(s, run, key);
      } else {
        StoredStep(s, run[0], key);
        StoredNeverGoesBack(next, run[1..], key);
        NotOlderIsTransitive(s, next, Exec(next, run[1..]), key);
      }
    }
  }

  /** A write-back that reaches a live session moves it exactly one position on, whoever holds the lock. */
  lemma WriteBackMovesOneOn(now: nat, run: seq<Event>, pid: Pid, key: Key, clock: nat, life: nat)
    requires var s := Exec(Start(now), run); IsWriting(s, pid, key) && Live(s.shared, key)
    ensures var s := Exec(Start(now), run);
      var t := Next(s, Step(pid, Proceed, clock, life));
      && Stored(s, key).Some? && key in t.shared.tickets && key in t.shared.grants
      && Stored(t, key) == Some(Stored(s, key).value + 1) == Some(t.shared.grants[key].current)
  {
    AtMostOneUnwritten(now, run, key);
  }

  /**
    When the provider takes a token a request sends for a session that is still stored: exactly when
    its chain is active and the token is both the stored one and the newest. A refusal on an active
    chain so means that another request's refresh has rotated the token since it was read.
   */
  lemma AcceptedIffNewest(now: nat, run: seq<Event>, pid: Pid, key: Key)
    requires var s := Exec(Start(now), run); IsSending(s, pid, key) && key in s.shared.tickets
    ensures var s := Exec(Start(now), run);
      && key in s.shared.grants && Sent(s, pid, key).Some? && Stored(s, key).Some?
      && (Accepts(s.shared, key, Sent(s, pid, key).value) <==>
            && s.shared.grants[key].active
            && Sent(s, pid, key) == Stored(s, key)
            && s.shared.grants[key].current == Stored(s, key).value)
  {
    assert Chain(Start(now), key);
    ChainHolds(Start(now), run, key);
  }
}
