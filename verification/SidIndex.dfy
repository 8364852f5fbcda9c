/**
  The sid index and back-channel logout. Deleting by sid ends every session of the sid except the ones
  signed in between the member read and the delete; that holds exactly. In runs without such a
  survivor, where each expiry is computed and applied in one step, the index always covers the live tickets.
 */
module SidIndex {
  import opened Options
  import opened SessionModel
  import NoResurrection
  import RefreshChain
  import SessionRuns

  // ----- In every run: tickets keep the sid and expiration of their sign-in -----

  /** The ticket a request carries between its read and its write-back. */
  function Carried(p: Proc): (t: Option<Ticket>) {
    if p.Request? && p.pc.Sending? then Some(p.pc.ticket)
    else if p.Request? && p.pc.Writing? then Some(p.pc.ticket)
    else None
  }

  predicate Matches(s: Shared, key: Key, t: Ticket) {
    key in s.grants && t.sid == s.grants[key].sid && t.expiresUtc == s.grants[key].expiresUtc
  }

  predicate IssuedBefore(s: Shared, key: Key, order: nat) {
    key in s.grants && s.grants[key].order < order
  }

  predicate Member(s: Shared, sid: Sid, key: Key) {
    sid in s.sids && key in s.sids[sid].members
  }

  ghost predicate KnownShared(s: Shared) {
    && (forall k :: k in s.tickets ==> Matches(s, k, s.tickets[k].ticket))
    && (forall k :: k in s.grants ==> IssuedBefore(s, k, s.signIns) && s.grants[k].expiresUtc <= s.now + SESSION_SPAN)
    && (forall d, k :: Member(s, d, k) ==> IssuedBefore(s, k, s.signIns))
  }

  ghost predicate KnownProc(s: Shared, p: Proc) {
    && (Carried(p).Some? ==> Matches(s, p.key, Carried(p).value))
    && (p.Backchannel? && p.backchannel.MembersDeleting? ==>
          && p.backchannel.since <= s.signIns
          && forall k :: k in p.backchannel.members ==> IssuedBefore(s, k, p.backchannel.since))
  }

  ghost predicate Known(s: State) {
    KnownShared(s.shared) && forall pid :: pid in s.procs ==> KnownProc(s.shared, s.procs[pid])
  }

  /** Grants are never forgotten and their history never changes. */
  ghost predicate GrantsKept(s: Shared, t: Shared) {
    && s.signIns <= t.signIns && s.now <= t.now
    && forall k :: k in s.grants ==>
         k in t.grants && t.grants[k].sid == s.grants[k].sid
         && t.grants[k].expiresUtc == s.grants[k].expiresUtc && t.grants[k].order == s.grants[k].order
  }

  lemma EffectKeepsGrants(s: Shared, pid: Pid, e: Effect)
    ensures var t := Apply(s, pid, e);
      GrantsKept(s, t) && t.signIns == s.signIns && t.now == s.now && t.grants.Keys == s.grants.Keys
  {
  }

  lemma EffectKeepsMembers(s: Shared, pid: Pid, e: Effect, d: Sid, k: Key)
    ensures Member(Apply(s, pid, e), d, k) ==> Member(s, d, k)
  {
  }

  lemma EffectKeepsKnown(s: Shared, pid: Pid, e: Effect)
    requires KnownShared(s) && (e.Updates? ==> Matches(s, e.key, e.ticket))
    ensures KnownShared(Apply(s, pid, e))
  {
    var t := Apply(s, pid, e);
    EffectKeepsGrants(s, pid, e);
    forall d, k | Member(t, d, k) ensures IssuedBefore(t, k, t.signIns) {
      EffectKeepsMembers(s, pid, e, d, k);
      assert Member(s, d, k);
    }
  }

  lemma ProcCarriesKnown(s: Shared, p: Proc, outcome: Outcome, clock: nat, life: nat)
    requires KnownShared(s) && KnownProc(s, p)
    ensures var n := StepProc(s, p, outcome, clock, life);
      KnownProc(s, n.1) && (n.0.Updates? ==> Matches(s, n.0.key, n.0.ticket))
  {
    if p.Backchannel? && p.backchannel.MembersReading? {
      forall k | k in LiveMembers(s, p.sid) ensures IssuedBefore(s, k, s.signIns) {
        assert Member(s, p.sid, k);
      }
    }
  }

  lemma KeptGrantsKeepKnownProc(s: Shared, t: Shared, p: Proc)
    requires KnownProc(s, p) && GrantsKept(s, t)
    ensures KnownProc(t, p)
  {
  }

  lemma SignInKeepsKnown(s: Shared, key: Key, sid: Option<Sid>, clock: nat, withRefresh: bool, life: Option<nat>)
    requires KnownShared(s) && key !in s.grants && clock <= s.now
    ensures var t := StoreSignIn(s, key, sid, clock, withRefresh, life); KnownShared(t) && GrantsKept(s, t)
  {
    var t := StoreSignIn(s, key, sid, clock, withRefresh, life);
    forall d, k | Member(t, d, k) ensures IssuedBefore(t, k, t.signIns) {
      assert k == key || Member(s, d, k);
    }
  }

  lemma StepKeepsKnown(s: State, e: Event)
    requires Known(s) && e.Step? && e.pid in s.procs
    ensures Known(Next(s, e))
  {
    var n := StepProc(s.shared, s.procs[e.pid], e.outcome, e.clock, e.tokenLife);
    var t := Apply(s.shared, e.pid, n.0);
    ProcCarriesKnown(s.shared, s.procs[e.pid], e.outcome, e.clock, e.tokenLife);
    EffectKeepsGrants(s.shared, e.pid, n.0);
    EffectKeepsKnown(s.shared, e.pid, n.0);
    KeptGrantsKeepKnownProc(s.shared, t, n.1);
    forall pid | pid in s.procs ensures KnownProc(t, s.procs[pid]) {
      KeptGrantsKeepKnownProc(s.shared, t, s.procs[pid]);
    }
  }

  lemma KnownStep(s: State, e: Event)
    requires Known(s)
    ensures Known(Next(s, e))
  {
    if e.Step? {
      if e.pid in s.procs {
        StepKeepsKnown(s, e);
      }
    } else {
      var t := Next(s, e);
      if e.SignIn? && e.key !in s.shared.grants {
        SignInKeepsKnown(s.shared, e.key, e.sid, ClockRead(s.shared, e.clock), e.withRefresh, e.lifetime);
      } else {
        forall d, k | Member(t.shared, d, k) ensures IssuedBefore(t.shared, k, t.shared.signIns) {
          assert Member(s.shared, d, k);
        }
      }
      forall pid | pid in t.procs ensures KnownProc(t.shared, t.procs[pid]) {
        if pid in s.procs {
          KeptGrantsKeepKnownProc(s.shared, t.shared, s.procs[pid]);
        }
      }
    }
  }

  // ----- The index -----

  predicate LiveUnder(s: Shared, sid: Sid, key: Key) {
    Live(s, key) && s.tickets[key].ticket.sid == Some(sid)
  }

  predicate InIndex(s: Shared, sid: Sid, key: Key)
    requires key in s.tickets
  {
    Member(s, sid, key) && s.tickets[key].expires <= s.sids[sid].expires
  }

  /** Every live ticket with a sid is in that sid's set, and the set lives at least as long. */
  ghost predicate Index(s: Shared) {
    forall d, k :: LiveUnder(s, d, k) ==> InIndex(s, d, k)
  }

  /** Every live ticket expires exactly when its session does. */
  ghost predicate ExpiresOnTime(s: Shared) {
    forall k :: Live(s, k) ==> s.tickets[k].expires == s.tickets[k].ticket.expiresUtc
  }

  /** A back-channel logout about to delete knows every session signed in before it read the members. */
  ghost predicate Complete(s: Shared, p: Proc) {
    p.Backchannel? && p.backchannel.MembersDeleting? ==>
      forall k :: LiveUnder(s, p.sid, k) && IssuedBefore(s, k, p.backchannel.since) ==> k in p.backchannel.members
  }

  ghost predicate Indexed(s: State) {
    && Known(s) && Index(s.shared) && ExpiresOnTime(s.shared)
    && forall pid :: pid in s.procs ==> Complete(s.shared, s.procs[pid])
  }

  /** A session of the sid that signed in after the process read the members. */
  predicate Late(s: Shared, p: Proc, key: Key)
    requires p.Backchannel? && p.backchannel.MembersDeleting?
  {
    LiveUnder(s, p.sid, key) && !IssuedBefore(s, key, p.backchannel.since)
  }

  /** The clock was read in the step that applies the expiry. */
  predicate OneStep(s: State, e: Event) {
    && (e.SignIn? ==> s.shared.now <= e.clock)
    && (e.Step? && e.pid in s.procs && s.procs[e.pid].Request? && s.procs[e.pid].pc.Writing? ==>
          s.shared.now <= e.clock)
  }

  /** The event is not a back-channel delete with a late session. */
  ghost predicate Unraced(s: State, e: Event) {
    e.Step? && e.pid in s.procs && s.procs[e.pid].Backchannel? && s.procs[e.pid].backchannel.MembersDeleting?
    ==> forall k :: !Late(s.shared, s.procs[e.pid], k)
  }

  ghost predicate Clean(s: State, run: seq<Event>)
    decreases |run|
  {
    run != [] ==> OneStep(s, run[0]) && Unraced(s, run[0]) && Clean(Next(s, run[0]), run[1..])
  }

  // ----- Each step keeps it -----

  /** No ticket becomes live, or outlives what it had, except the one a sign-in stores. */
  ghost predicate LiveOnlyIfLive(s: Shared, t: Shared) {
    forall k :: Live(t, k) ==>
      Live(s, k) && t.tickets[k].ticket.sid == s.tickets[k].ticket.sid && t.tickets[k].expires == s.tickets[k].expires
  }

  lemma EffectKeepsLive(s: Shared, pid: Pid, e: Effect)
    requires KnownShared(s) && ExpiresOnTime(s)
    requires e.Updates? ==> Matches(s, e.key, e.ticket) && e.clock == s.now
    ensures var t := Apply(s, pid, e); ExpiresOnTime(t) && LiveOnlyIfLive(s, t)
  {
  }

  /** A set loses no member whose ticket stays live. */
  lemma EffectKeepsInIndex(s: Shared, pid: Pid, e: Effect, d: Sid, k: Key)
    requires InIndexIfLive(s, d, k) && LiveUnder(s, d, k) && Live(Apply(s, pid, e), k)
    requires e.DeletesMembers? ==> (LiveUnder(s, e.logoutSid, k) ==> k in e.members)
    ensures Member(Apply(s, pid, e), d, k) && Apply(s, pid, e).sids[d].expires == s.sids[d].expires
  {
  }

  predicate InIndexIfLive(s: Shared, sid: Sid, key: Key) {
    LiveUnder(s, sid, key) ==> InIndex(s, sid, key)
  }

  lemma EffectKeepsIndex(s: Shared, pid: Pid, e: Effect)
    requires KnownShared(s) && Index(s) && ExpiresOnTime(s)
    requires e.Updates? ==> Matches(s, e.key, e.ticket) && e.clock == s.now
    requires e.DeletesMembers? ==> forall k :: LiveUnder(s, e.logoutSid, k) ==> k in e.members
    ensures var t := Apply(s, pid, e); Index(t) && ExpiresOnTime(t) && LiveOnlyIfLive(s, t)
  {
    var t := Apply(s, pid, e);
    EffectKeepsLive(s, pid, e);
    forall d, k | LiveUnder(t, d, k) ensures InIndex(t, d, k) {
      assert LiveUnder(s, d, k) && InIndex(s, d, k);
      EffectKeepsInIndex(s, pid, e, d, k);
    }
  }

  lemma SignInKeepsIndex(s: Shared, key: Key, sid: Option<Sid>, withRefresh: bool, life: Option<nat>)
    requires KnownShared(s) && Index(s) && ExpiresOnTime(s) && key !in s.grants
    ensures var t := StoreSignIn(s, key, sid, s.now, withRefresh, life); Index(t) && ExpiresOnTime(t)
  {
    var t := StoreSignIn(s, key, sid, s.now, withRefresh, life);
    forall d, k | LiveUnder(t, d, k) ensures InIndex(t, d, k) {
      if k != key {
        assert LiveUnder(s, d, k) && InIndex(s, d, k);
      }
    }
  }

  lemma LiveOnlyIfLiveKeepsComplete(s: Shared, t: Shared, p: Proc)
    requires Complete(s, p) && LiveOnlyIfLive(s, t) && GrantsKept(s, t) && t.grants.Keys == s.grants.Keys
    ensures Complete(t, p)
  {
  }

  lemma SignInKeepsComplete(s: Shared, p: Proc, key: Key, sid: Option<Sid>, clock: nat, withRefresh: bool, life: Option<nat>)
    requires KnownShared(s) && KnownProc(s, p) && Complete(s, p) && key !in s.grants && clock <= s.now
    ensures Complete(StoreSignIn(s, key, sid, clock, withRefresh, life), p)
  {
  }

  /** A member read answers with everything live under the sid. */
  lemma ProcStaysComplete(s: Shared, p: Proc, outcome: Outcome, clock: nat, life: nat)
    requires KnownShared(s) && Index(s) && Complete(s, p)
    ensures Complete(s, StepProc(s, p, outcome, clock, life).1)
  {
  }

  lemma StepKeepsIndexed(s: State, e: Event)
    requires Indexed(s) && e.Step? && e.pid in s.procs && OneStep(s, e) && Unraced(s, e)
    ensures Indexed(Next(s, e))
  {
    var p := s.procs[e.pid];
    var n := StepProc(s.shared, p, e.outcome, e.clock, e.tokenLife);
    var t := Apply(s.shared, e.pid, n.0);
    ProcCarriesKnown(s.shared, p, e.outcome, e.clock, e.tokenLife);
    EffectOfStep(s.shared, p, e.outcome, e.clock, e.tokenLife);
    EffectKeepsGrants(s.shared, e.pid, n.0);
    EffectKeepsKnown(s.shared, e.pid, n.0);
    EffectKeepsIndex(s.shared, e.pid, n.0);
    ProcStaysComplete(s.shared, p, e.outcome, e.clock, e.tokenLife);
    LiveOnlyIfLiveKeepsComplete(s.shared, t, n.1);
    forall pid | pid in s.procs ensures Complete(t, s.procs[pid]) {
      LiveOnlyIfLiveKeepsComplete(s.shared, t, s.procs[pid]);
    }
    StepKeepsKnown(s, e);
  }

  lemma EffectOfStep(s: Shared, p: Proc, outcome: Outcome, clock: nat, life: nat)
    requires Complete(s, p)
    requires p.Request? && p.pc.Writing? ==> s.now <= clock
    requires p.Backchannel? && p.backchannel.MembersDeleting? ==> forall k :: !Late(s, p, k)
    ensures var e := StepProc(s, p, outcome, clock, life).0;
      && (e.Updates? ==> e.clock == s.now)
      && (e.DeletesMembers? ==> forall k :: LiveUnder(s, e.logoutSid, k) ==> k in e.members)
  {
    var e := StepProc(s, p, outcome, clock, life).0;
    if e.DeletesMembers? {
      forall k | LiveUnder(s, e.logoutSid, k) ensures k in e.members {
        assert !Late(s, p, k);
      }
    }
  }

  lemma IndexedStep(s: State, e: Event)
    requires Indexed(s) && OneStep(s, e) && Unraced(s, e)
    ensures Indexed(Next(s, e))
  {
    KnownStep(s, e);
    if e.Step? {
      if e.pid in s.procs {
        StepKeepsIndexed(s, e);
      }
    } else if e.SignIn? {
      if e.key !in s.shared.grants {
        SignInKeepsIndex(s.shared, e.key, e.sid, e.withRefresh, e.lifetime);
        forall pid | pid in s.procs ensures Complete(Next(s, e).shared, s.procs[pid]) {
          SignInKeepsComplete(s.shared, s.procs[pid], e.key, e.sid, s.shared.now, e.withRefresh, e.lifetime);
        }
      }
    } else {
      var t := Next(s, e).shared;
      assert LiveOnlyIfLive(s.shared, t);
      forall d, k | LiveUnder(t, d, k) ensures InIndex(t, d, k) {
        assert LiveUnder(s.shared, d, k) && InIndex(s.shared, d, k);
      }
      forall pid | pid in s.procs ensures Complete(Next(s, e).shared, s.procs[pid]) {
        LiveOnlyIfLiveKeepsComplete(s.shared, Next(s, e).shared, s.procs[pid]);
      }
    }
  }

  /** In every clean run the index covers every live ticket. */
  lemma {:induction false} IndexHolds(s: State, run: seq<Event>)
    requires Indexed(s) && Clean(s, run)
    ensures Indexed(Exec(s, run))
    decreases |run|
  {
    if run != [] {
      IndexedStep(s, run[0]);
      IndexHolds(Next(s, run[0]), run[1..]);
    }
  }

  /** So from an empty Redis every live ticket with a sid is in its sid's set, and the set outlives it. */
  lemma LiveTicketsAreIndexed(now: nat, run: seq<Event>, sid: Sid, key: Key)
    requires Clean(Start(now), run) && LiveUnder(Exec(Start(now), run).shared, sid, key)
    ensures var s := Exec(Start(now), run).shared;
      Member(s, sid, key) && s.tickets[key].expires <= s.sids[sid].expires && key in LiveMembers(s, sid)
  {
    IndexHolds(Start(now), run);
    assert InIndex(Exec(Start(now), run).shared, sid, key);
  }

  // ----- What a back-channel delete leaves -----

  /** The process is about to delete the sid's sessions. */
  predicate AboutToDelete(s: State, pid: Pid, sid: Sid) {
    && pid in s.procs && s.procs[pid].Backchannel? && s.procs[pid].sid == sid
    && s.procs[pid].backchannel.MembersDeleting?
  }

  /**
    Exactly the sessions of the sid that signed in after the member read survive the delete, whether or
    not there are any. With none, the logout leaves no session of the sid.
   */
  lemma SurvivorsSignedInLate(s: State, pid: Pid, sid: Sid, outcome: Outcome, key: Key)
    requires Indexed(s) && AboutToDelete(s, pid, sid) && Lands(outcome)
    ensures LiveUnder(Next(s, Step(pid, outcome, s.shared.now, 0)).shared, sid, key)
        <==> Late(s.shared, s.procs[pid], key)
  {
    var p := s.procs[pid];
    assert KnownProc(s.shared, p) && Complete(s.shared, p);
    assert LiveUnder(s.shared, sid, key) ==> Matches(s.shared, key, s.shared.tickets[key].ticket);
    if key in p.backchannel.members {
      assert IssuedBefore(s.shared, key, p.backchannel.since);
    }
  }

  /** And then the sessions it ended stay ended. */
  lemma BackchannelLogoutIsFinal(s: State, pid: Pid, sid: Sid, outcome: Outcome, run: seq<Event>, key: Key)
    requires Indexed(s) && AboutToDelete(s, pid, sid) && Lands(outcome)
    requires LiveUnder(s.shared, sid, key) && IssuedBefore(s.shared, key, s.procs[pid].backchannel.since)
    ensures NoResurrection.Dead(Exec(Next(s, Step(pid, outcome, s.shared.now, 0)), run), key)
  {
    NoResurrection.LogoutIsFinal(s, pid, outcome, run, key, pid);
  }

  /** The index survives a delete that had members to delete if and only if no session survives it. */
  lemma DeleteKeepsIndexIff(s: State, pid: Pid, sid: Sid, outcome: Outcome)
    requires Indexed(s) && AboutToDelete(s, pid, sid) && Lands(outcome)
    requires s.procs[pid].backchannel.members != {}
    ensures Index(Next(s, Step(pid, outcome, s.shared.now, 0)).shared)
        <==> forall key :: !Late(s.shared, s.procs[pid], key)
  {
    var e := Step(pid, outcome, s.shared.now, 0);
    var t := Next(s, e);
    if forall key :: !Late(s.shared, s.procs[pid], key) {
      IndexedStep(s, e);
    } else {
      var key :| Late(s.shared, s.procs[pid], key);
      SurvivorsSignedInLate(s, pid, sid, outcome, key);
      assert LiveUnder(t.shared, sid, key) && !InIndex(t.shared, sid, key);
    }
  }

  // ----- A deleted session leaves its set -----

  /** Each set lists only sessions that signed in with its sid. */
  ghost predicate SetsMatch(s: Shared) {
    forall d: Sid, k: Key :: Member(s, d, k) ==> k in s.grants && s.grants[k].sid == Some(d)
  }

  lemma SetsMatchStep(s: State, e: Event)
    requires SetsMatch(s.shared)
    ensures SetsMatch(Next(s, e).shared)
  {
    var t := Next(s, e).shared;
    forall d: Sid, k: Key | Member(t, d, k) ensures k in t.grants && t.grants[k].sid == Some(d) {
      if e.Step? && e.pid in s.procs {
        var effect := StepProc(s.shared, s.procs[e.pid], e.outcome, e.clock, e.tokenLife).0;
        EffectKeepsMembers(s.shared, e.pid, effect, d, k);
        EffectKeepsGrants(s.shared, e.pid, effect);
      }
      assert Member(s.shared, d, k) || (e.SignIn? && k == e.key);
    }
  }

  lemma {:induction false} SetsMatchHolds(s: State, run: seq<Event>)
    requires SetsMatch(s.shared)
    ensures SetsMatch(Exec(s, run).shared)
    decreases |run|
  {
    if run != [] {
      SetsMatchStep(s, run[0]);
      SetsMatchHolds(Next(s, run[0]), run[1..]);
    }
  }

  /** No set lists a session that was handed out and left its set. */
  ghost predicate Unlisted(s: Shared, key: Key) {
    key in s.grants && forall d: Sid :: !Member(s, d, key)
  }

  lemma UnlistedStep(s: State, e: Event, key: Key)
    requires Unlisted(s.shared, key)
    ensures Unlisted(Next(s, e).shared, key)
  {
    var t := Next(s, e).shared;
    if e.Step? && e.pid in s.procs {
      EffectKeepsGrants(s.shared, e.pid, StepProc(s.shared, s.procs[e.pid], e.outcome, e.clock, e.tokenLife).0);
    }
    forall d: Sid ensures !Member(t, d, key) {
      assert !Member(s.shared, d, key);
      if e.Step? && e.pid in s.procs {
        var effect := StepProc(s.shared, s.procs[e.pid], e.outcome, e.clock, e.tokenLife).0;
        EffectKeepsMembers(s.shared, e.pid, effect, d, key);
      }
    }
  }

  lemma {:induction false} UnlistedForGood(s: State, run: seq<Event>, key: Key)
    requires Unlisted(s.shared, key)
    ensures Unlisted(Exec(s, run).shared, key)
    decreases |run|
  {
    if run != [] {
      UnlistedStep(s, run[0], key);
      UnlistedForGood(Next(s, run[0]), run[1..], key);
    }
  }

  /** The delete of a sign-out, a logout or the callback guard, with the sid its own read found. */
  predicate DeletesWith(p: Proc, key: Key, sid: Option<Sid>) {
    match p
    case Request(k, _, _, pc) => k == key && pc == Deleting(sid)
    case Logout(k, _, _, pc) => k == key && pc.LogoutDeleting? && pc.sid == sid
    case Removal(k, pc) => k == key && pc == RemovalDeleting(sid)
    case Backchannel(_, _) => false
  }

  /**
    A delete that knows the session's sid takes it out of every set for good, the expired ones included; one whose
    read failed leaves it listed exactly where it was. Either way the ticket is gone.
   */
  lemma DeleteTakesItsKeyOutOfTheIndex(now: nat, run: seq<Event>, pid: Pid, key: Key, sid: Option<Sid>,
                                       outcome: Outcome, clock: nat, more: seq<Event>)
    requires var s := Exec(Start(now), run);
      pid in s.procs && DeletesWith(s.procs[pid], key, sid) && Lands(outcome) && key in s.shared.grants
    ensures var s := Exec(Start(now), run);
      var t := Next(s, Step(pid, outcome, clock, 0));
      && key !in t.shared.tickets
      && (forall d: Sid :: Member(t.shared, d, key) <==> Member(s.shared, d, key) && sid != Some(d))
      && (sid == s.shared.grants[key].sid ==> Unlisted(Exec(t, more).shared, key))
  {
    var s := Exec(Start(now), run);
    var t := Next(s, Step(pid, outcome, clock, 0));
    SetsMatchHolds(Start(now), run);
    if sid == s.shared.grants[key].sid {
      forall d: Sid ensures !Member(t.shared, d, key) {
        assert Member(s.shared, d, key) ==> s.shared.grants[key].sid == Some(d);
      }
      UnlistedForGood(t, more, key);
    }
  }

  /** And a read that finds the ticket finds the sid of its sign-in. */
  lemma ReadFindsTheSid(now: nat, run: seq<Event>, key: Key)
    requires Live(Exec(Start(now), run).shared, key)
    ensures var s := Exec(Start(now), run).shared;
      key in s.grants && SidOf(Retrieve(s, key, Proceed)) == s.grants[key].sid
  {
    KnownHolds(Start(now), run);
  }

  lemma {:induction false} KnownHolds(s: State, run: seq<Event>)
    requires Known(s)
    ensures Known(Exec(s, run))
    decreases |run|
  {
    if run != [] {
      KnownStep(s, run[0]);
      KnownHolds(Next(s, run[0]), run[1..]);
    }
  }

  // ----- Both run conditions are needed -----

  /** Any sign-in for the sid between the member read and the delete is left live and in no set. */
  lemma SignInDuringDeleteEscapes(s: State, pid: Pid, sid: Sid, key: Key)
    requires AboutToDelete(s, pid, sid) && key !in s.shared.grants
    requires s.procs[pid].backchannel.members != {} && key !in s.procs[pid].backchannel.members
    ensures var t := Next(Next(s, SignIn(key, Some(sid), s.shared.now, true, None)), Step(pid, Proceed, s.shared.now, 0));
      LiveUnder(t.shared, sid, key) && !InIndex(t.shared, sid, key)
  {
  }

  /** A run that gets there from an empty Redis. */
  lemma LateSignInEscapes()
    ensures var s := Exec(Start(0), [SignIn(1, Some(7), 0, true, None), StartBackchannel(0, 7), Step(0, Proceed, 0, 0)]);
      var t := Exec(s, [SignIn(2, Some(7), 0, true, None), Step(0, Proceed, 0, 0)]);
      LiveUnder(t.shared, 7, 2) && !InIndex(t.shared, 7, 2)
  {
    var signedIn := Next(Start(0), SignIn(1, Some(7), 0, true, None));
    var started := Next(signedIn, StartBackchannel(0, 7));
    var s := Next(started, Step(0, Proceed, 0, 0));
    assert LiveMembers(signedIn.shared, 7) == {1};
    assert s.procs[0] == Backchannel(7, MembersDeleting({1}, 1));
    ExecThree(Start(0), SignIn(1, Some(7), 0, true, None), StartBackchannel(0, 7), Step(0, Proceed, 0, 0));
    ExecTwo(s, SignIn(2, Some(7), 0, true, None), Step(0, Proceed, 0, 0));
    SignInDuringDeleteEscapes(s, 0, 7, 2);
  }

  /**
    A write-back whose clock was read earlier than it is applied makes its ticket expire later by exactly the
    delay and leaves the sets alone. So it keeps the index exactly when the later expiry is still within the
    sid set's own, which another sign-in of the sid may have moved.
   */
  lemma DelayedWriteKeepsIndexIff(s: State, pid: Pid, key: Key, sid: Sid, clock: nat)
    requires Indexed(s) && pid in s.procs && s.procs[pid].Request? && s.procs[pid].key == key
    requires s.procs[pid].pc.Writing? && LiveUnder(s.shared, sid, key) && clock <= s.shared.now
    ensures sid in s.shared.sids
    ensures var t := Next(s, Step(pid, Proceed, clock, 0));
      && key in t.shared.tickets && t.shared.sids == s.shared.sids
      && t.shared.tickets[key].expires == s.shared.tickets[key].expires + (s.shared.now - clock)
    ensures Index(Next(s, Step(pid, Proceed, clock, 0)).shared)
       <==> s.shared.tickets[key].expires + (s.shared.now - clock) <= s.shared.sids[sid].expires
  {
    var t := Next(s, Step(pid, Proceed, clock, 0)).shared;
    assert KnownProc(s.shared, s.procs[pid]) && InIndex(s.shared, sid, key);
    assert LiveUnder(t, sid, key);
    if InIndex(t, sid, key) {
      forall d, k | LiveUnder(t, d, k) ensures InIndex(t, d, k) {
        if k != key {
          assert LiveUnder(s.shared, d, k) && InIndex(s.shared, d, k);
        }
      }
    }
  }

  /**
    A run from an empty Redis in which a write-back applied one millisecond late leaves its ticket live when
    the sid set has expired: a back-channel logout then finds no member and ends nothing.
   */
  lemma DelayedWriteEscapes() returns (run: seq<Event>)
    ensures var s := Exec(Start(0), run).shared;
      LiveUnder(s, 7, 1) && !InIndex(s, 7, 1) && LiveMembers(s, 7) == {}
  {
    var s: State;
    run, s := SessionRuns.RefreshedNotWritten(Some(7));
    run, s := SessionRuns.OneMore(run, s, Tick(1));
    run, s := SessionRuns.OneMore(run, s, Step(0, Proceed, 0, 0));
    assert s.shared.tickets[1].expires == SESSION_SPAN + 1 && s.shared.sids[7].expires == SESSION_SPAN;
    run, s := SessionRuns.OneMore(run, s, Tick(SESSION_SPAN - 1));
  }

  lemma ExecTwo(s: State, a: Event, b: Event)
    ensures Exec(s, [a, b]) == Next(Next(s, a), b)
  {
    assert [a, b] == [a] + [b];
    ExecAppend(s, [a], [b]);
  }

  lemma ExecThree(s: State, a: Event, b: Event, c: Event)
    ensures Exec(s, [a, b, c]) == Next(Next(Next(s, a), b), c)
  {
    assert [a, b, c] == [a, b] + [c];
    ExecAppend(s, [a, b], [c]);
    ExecTwo(s, a, b);
  }
}
