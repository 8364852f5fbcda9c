/**
  The session protocol of the BFF as a transition system.

  Any number of BFF requests share one Redis and one identity provider. `Shared` is what they
  share; a `Proc` is one request, logout, back-channel logout or callback guard, stopped between
  two awaits. `Next` executes one event. It is total: an event that is not possible in a state
  leaves the state as it is, so a run is any sequence of events whatever.

  Time is in milliseconds. A process stalls when `Tick` events pass and its own steps do not come;
  a Redis entry whose expiry has passed reads as absent. A random session key, refresh-token chain
  and lock value are fresh: the chain of a session is named by its session key, and the lock value
  of an attempt by the process that makes it (each process takes the lock at most once).
 */
module SessionModel {
  import opened Options

  type Key = nat
  type Sid = nat
  type Pid = nat

  const REFRESH_LEAD_TIME := 30_000
  const LOCK_TTL := 10_000
  const LOCK_WAIT_DEADLINE := 10_000
  const SESSION_SPAN := 36_000_000
  const MIN_TICKET_TTL := 1_000

  /** The ticket's own properties. `refresh` and `access` are positions on the provider's rotation chain. */
  datatype Ticket = Ticket(
    sid: Option<Sid>,
    refresh: Option<nat>,
    access: Option<nat>,
    accessExpires: Option<nat>,
    expiresUtc: nat)

  datatype TicketEntry = TicketEntry(ticket: Ticket, expires: nat)
  datatype SidEntry = SidEntry(members: set<Key>, expires: nat)
  datatype LockEntry = LockEntry(holder: Pid, expires: nat)

  /**
    One refresh-token chain: the one position a refresh is accepted at, while the chain is active.
    The rest is history: the sid and absolute expiration of its sign-in, and how many came before it.
   */
  datatype Grant = Grant(current: nat, active: bool, sid: Option<Sid>, expiresUtc: nat, order: nat)

  /**
    `signIns` and `succeeded` are history: how many sign-ins so far, and every refresh token (by
    session key and position) whose refresh came back as a success.
   */
  datatype Shared = Shared(
    now: nat,
    tickets: map<Key, TicketEntry>,
    sids: map<Sid, SidEntry>,
    locks: map<Key, LockEntry>,
    grants: map<Key, Grant>,
    signIns: nat,
    succeeded: set<(Key, nat)>)

  datatype Answer = Token(position: nat) | SessionEnded | Unavailable | Failed

  datatype RequestPc =
    | Authenticating
    | TryingLock
    | Waiting
    | ReReading
    | Sending(ticket: Ticket)
    | Writing(ticket: Ticket, position: nat, gaveUp: bool)
    | CheckingRace(sent: nat)
    | Releasing(answer: Answer)
    | SigningOut
    | Deleting(sid: Option<Sid>)
    | Done(answer: Answer)

  datatype LogoutPc =
    | LogoutTryingLock
    | LogoutReading(held: bool)
    | LogoutEnding(held: bool)
    | LogoutSigningOut(held: bool)
    | LogoutDeleting(held: bool, sid: Option<Sid>)
    | LogoutReleasing
    | LogoutDone

  datatype RemovalPc = RemovalReading | RemovalDeleting(sid: Option<Sid>) | RemovalDone

  /** `since` is the number of sign-ins when the members were read. */
  datatype BackchannelPc = MembersReading | MembersDeleting(members: set<Key>, since: nat) | BackchannelDone

  datatype Proc =
    | Request(key: Key, deadline: nat, taken: nat, pc: RequestPc)
    | Logout(key: Key, deadline: nat, taken: nat, logout: LogoutPc)
    | Removal(key: Key, removal: RemovalPc)
    | Backchannel(sid: Sid, backchannel: BackchannelPc)

  datatype State = State(shared: Shared, procs: map<Pid, Proc>)

  /** What the environment does to one awaited call. A cancelled or faulted call may still have landed. */
  datatype Outcome = Proceed | Cancel(lands: bool) | Fault(lands: bool)

  datatype Event =
    | Tick(duration: nat)
    | SignIn(key: Key, sid: Option<Sid>, clock: nat, withRefresh: bool, lifetime: Option<nat>)
    | ProviderRevokes(key: Key)
    | StartRequest(pid: Pid, key: Key)
    | StartLogout(pid: Pid, key: Key)
    | StartRemoval(pid: Pid, key: Key)
    | StartBackchannel(pid: Pid, logoutSid: Sid)
    | Step(pid: Pid, outcome: Outcome, clock: nat, tokenLife: nat)

  // ----- What one Redis or provider call does -----

  predicate Live(s: Shared, key: Key) {
    key in s.tickets && s.now < s.tickets[key].expires
  }

  function ReadTicket(s: Shared, key: Key): (r: Option<Ticket>) {
    if Live(s, key) then Some(s.tickets[key].ticket) else None
  }

  /** `RetrieveAsync` answers null for a transient failure too. */
  function Retrieve(s: Shared, key: Key, outcome: Outcome): (r: Option<Ticket>) {
    if outcome == Proceed then ReadTicket(s, key) else None
  }

  predicate IsFresh(t: Ticket, now: nat) {
    t.access.Some? && t.accessExpires.Some? && t.accessExpires.value - now > REFRESH_LEAD_TIME
  }

  /** The relative expiry `ComputeExpiry` hands to Redis, from the clock it read. */
  function TicketTtl(t: Ticket, clock: nat): (ttl: nat) {
    if t.expiresUtc > clock then t.expiresUtc - clock else MIN_TICKET_TTL
  }

  /** Redis evaluates a relative expiry when the command runs, which may be after the clock was read. */
  function ClockRead(s: Shared, clock: nat): (c: nat)
    ensures c <= s.now
  {
    if clock <= s.now then clock else s.now
  }

  function LiveMembers(s: Shared, sid: Sid): (members: set<Key>) {
    if sid in s.sids && s.now < s.sids[sid].expires then s.sids[sid].members else {}
  }

  function StoreTicket(s: Shared, key: Key, t: Ticket, clock: nat): (r: Shared) {
    var expires := s.now + TicketTtl(t, clock);
    s.(tickets := s.tickets[key := TicketEntry(t, expires)],
       sids := match t.sid
               case None => s.sids
               case Some(sid) => s.sids[sid := SidEntry(LiveMembers(s, sid) + {key}, expires)])
  }

  /** The conditional write-back: nothing happens unless the key still exists. */
  function UpdateTicket(s: Shared, key: Key, t: Ticket, clock: nat): (r: Shared) {
    if Live(s, key)
    then s.(tickets := s.tickets[key := TicketEntry(t, s.now + TicketTtl(t, clock))])
    else s
  }

  function DeleteTicket(s: Shared, key: Key, sid: Option<Sid>): (r: Shared) {
    s.(tickets := s.tickets - {key},
       sids := match sid
               case None => s.sids
               case Some(d) => if d in s.sids
                               then s.sids[d := s.sids[d].(members := s.sids[d].members - {key})]
                               else s.sids)
  }

  function DeleteMembers(s: Shared, sid: Sid, members: set<Key>): (r: Shared) {
    if members == {} then s else s.(tickets := s.tickets - members, sids := s.sids - {sid})
  }

  predicate LockFree(s: Shared, key: Key) {
    key !in s.locks || s.locks[key].expires <= s.now
  }

  function TakeLock(s: Shared, key: Key, pid: Pid): (r: Shared) {
    if LockFree(s, key) then s.(locks := s.locks[key := LockEntry(pid, s.now + LOCK_TTL)]) else s
  }

  /** Released only while the stored value is still the holder's own. */
  function ReleaseLock(s: Shared, key: Key, pid: Pid): (r: Shared) {
    if key in s.locks && s.locks[key].holder == pid then s.(locks := s.locks - {key}) else s
  }

  predicate Accepts(s: Shared, key: Key, position: nat) {
    key in s.grants && s.grants[key].active && s.grants[key].current == position
  }

  /** Strict rotation: an accepted token is spent and the next position becomes the only valid one. */
  function Rotate(s: Shared, key: Key, position: nat): (r: Shared) {
    if Accepts(s, key, position)
    then s.(grants := s.grants[key := s.grants[key].(current := position + 1)])
    else s
  }

  function Revoke(s: Shared, key: Key): (r: Shared) {
    if key in s.grants then s.(grants := s.grants[key := s.grants[key].(active := false)]) else s
  }

  function Refreshed(t: Ticket, position: nat, accessExpires: nat): (r: Ticket) {
    t.(refresh := Some(position), access := Some(position), accessExpires := Some(accessExpires))
  }

  /** The one thing a step does to what is shared. */
  datatype Effect =
    | Nothing
    | Takes(key: Key)
    | Releases(key: Key)
    | Rotates(key: Key, position: nat, received: bool)
    | Revokes(key: Key)
    | Updates(key: Key, ticket: Ticket, clock: nat)
    | Deletes(key: Key, sid: Option<Sid>)
    | DeletesMembers(logoutSid: Sid, members: set<Key>)

  function Apply(s: Shared, pid: Pid, e: Effect): (r: Shared) {
    match e
    case Nothing => s
    case Takes(key) => TakeLock(s, key, pid)
    case Releases(key) => ReleaseLock(s, key, pid)
    case Rotates(key, position, received) =>
      var rotated := Rotate(s, key, position);
      if received then rotated.(succeeded := s.succeeded + {(key, position)}) else rotated
    case Revokes(key) => Revoke(s, key)
    case Updates(key, ticket, clock) => UpdateTicket(s, key, ticket, clock)
    case Deletes(key, sid) => DeleteTicket(s, key, sid)
    case DeletesMembers(sid, members) => DeleteMembers(s, sid, members)
  }

  // ----- What one process does between two awaits: an effect, and where it stops next -----

  /** Whether a call with this outcome took effect. */
  predicate Lands(outcome: Outcome) {
    outcome == Proceed || outcome.lands
  }

  function If(happens: bool, e: Effect): (r: Effect) {
    if happens then e else Nothing
  }

  /** A request whose session ended signs out; every other answer is the end of it. */
  function AfterRelease(answer: Answer): (pc: RequestPc) {
    if answer == SessionEnded then SigningOut else Done(answer)
  }

  function AfterReRead(t: Option<Ticket>, now: nat): (pc: RequestPc) {
    match t
    case None => Releasing(SessionEnded)
    case Some(ticket) =>
      if IsFresh(ticket, now) then Releasing(Token(ticket.access.value))
      else if ticket.refresh.None? then Releasing(SessionEnded)
      else Sending(ticket)
  }

  function AfterRace(t: Option<Ticket>, sent: nat, now: nat): (pc: RequestPc) {
    if t.Some? && t.value.refresh != Some(sent) && IsFresh(t.value, now)
    then Releasing(Token(t.value.access.value))
    else Releasing(SessionEnded)
  }

  function StepWriting(s: Shared, r: Proc, outcome: Outcome, clock: nat, life: nat): (n: (Effect, RequestPc))
    requires r.Request? && r.pc.Writing?
  {
    var write := Updates(r.key, Refreshed(r.pc.ticket, r.pc.position, clock + life), clock);
    if r.pc.gaveUp then
      (If(outcome == Proceed, write), Done(Failed))
    else match outcome {
      case Proceed => (write, Releasing(if Live(s, r.key) then Token(r.pc.position) else SessionEnded))
      case Fault(lands) => (If(lands, write), Releasing(Failed))
      case Cancel(_) =>
        // The client timed out and the lock is released, but the write is still on its way to Redis.
        (Releases(r.key), Writing(r.pc.ticket, r.pc.position, true))
    }
  }

  function StepSending(s: Shared, r: Proc, outcome: Outcome): (n: (Effect, RequestPc))
    requires r.Request? && r.pc.Sending? && r.pc.ticket.refresh.Some?
  {
    var sent := r.pc.ticket.refresh.value;
    match outcome
    case Proceed =>
      if Accepts(s, r.key, sent)
      then (Rotates(r.key, sent, true), Writing(r.pc.ticket, sent + 1, false))
      else (Nothing, CheckingRace(sent))
    case Fault(lands) => (If(lands, Rotates(r.key, sent, false)), Releasing(Unavailable))
    case Cancel(lands) => (If(lands, Rotates(r.key, sent, false)), Releasing(Failed))
  }

  function StepTryingLock(s: Shared, r: Proc, outcome: Outcome): (n: (Effect, RequestPc))
    requires r.Request? && r.pc.TryingLock?
  {
    if r.deadline <= s.now then (Nothing, Done(Unavailable))
    else match outcome {
      case Proceed => if LockFree(s, r.key) then (Takes(r.key), ReReading) else (Nothing, Waiting)
      case Cancel(lands) => (If(lands, Takes(r.key)), Done(Unavailable))
      case Fault(lands) => (If(lands, Takes(r.key)), Done(Failed))
    }
  }

  /** Without a ticket the cookie handler knows no session key, so nothing is deleted on the way out. */
  function AfterAuthentication(t: Option<Ticket>, now: nat): (pc: RequestPc) {
    if t.None? then Done(SessionEnded)
    else if IsFresh(t.value, now) then Done(Token(t.value.access.value))
    else TryingLock
  }

  function AfterWait(t: Option<Ticket>, now: nat): (pc: RequestPc) {
    if t.None? then SigningOut
    else if IsFresh(t.value, now) then Done(Token(t.value.access.value))
    else TryingLock
  }

  function SidOf(t: Option<Ticket>): (sid: Option<Sid>) {
    if t.Some? then t.value.sid else None
  }

  function StepPc(s: Shared, r: Proc, outcome: Outcome, clock: nat, life: nat): (n: (Effect, RequestPc))
    requires r.Request?
  {
    var read := Retrieve(s, r.key, outcome);
    match r.pc
    case Authenticating => (Nothing, AfterAuthentication(read, s.now))
    case TryingLock => StepTryingLock(s, r, outcome)
    case Waiting => (Nothing, if outcome.Cancel? then Done(Unavailable) else AfterWait(read, s.now))
    case ReReading => (Nothing, AfterReRead(read, s.now))
    case Sending(t) => if t.refresh.Some? then StepSending(s, r, outcome) else (Nothing, r.pc)
    case Writing(_, _, _) => StepWriting(s, r, outcome, clock, life)
    case CheckingRace(sent) => (Nothing, AfterRace(read, sent, s.now))
    case Releasing(answer) =>
      (If(Lands(outcome), Releases(r.key)), if outcome == Proceed then AfterRelease(answer) else Done(Failed))
    case SigningOut => (Nothing, Deleting(SidOf(read)))
    case Deleting(sid) =>
      (If(Lands(outcome), Deletes(r.key, sid)), Done(if outcome == Proceed then SessionEnded else Failed))
    case Done(_) => (Nothing, r.pc)
  }

  /** The waiting deadline starts when the ticket turns out stale, the lock's own TTL when it is taken. */
  function StepRequest(s: Shared, r: Proc, outcome: Outcome, clock: nat, life: nat): (n: (Effect, Proc))
    requires r.Request?
  {
    var (effect, pc) := StepPc(s, r, outcome, clock, life);
    (effect, r.(deadline := if r.pc.Authenticating? then s.now + LOCK_WAIT_DEADLINE else r.deadline,
                taken := if pc.ReReading? && r.pc.TryingLock? then s.now else r.taken,
                pc := pc))
  }

  function StepLogout(s: Shared, l: Proc, outcome: Outcome): (n: (Effect, Proc))
    requires l.Logout?
  {
    var read := Retrieve(s, l.key, outcome);
    match l.logout
    case LogoutTryingLock =>
      if outcome != Proceed then
        (If(outcome.lands, Takes(l.key)), l.(logout := if outcome.Cancel? then LogoutReading(false) else LogoutDone))
      else if LockFree(s, l.key) then (Takes(l.key), l.(taken := s.now, logout := LogoutReading(true)))
      else (Nothing, if l.deadline <= s.now then l.(logout := LogoutReading(false)) else l)
    case LogoutReading(held) =>
      (Nothing, l.(logout := if read.Some? && read.value.refresh.Some? then LogoutEnding(held) else LogoutSigningOut(held)))
    case LogoutEnding(held) => (If(Lands(outcome), Revokes(l.key)), l.(logout := LogoutSigningOut(held)))
    case LogoutSigningOut(held) => (Nothing, l.(logout := LogoutDeleting(held, SidOf(read))))
    case LogoutDeleting(held, sid) =>
      (If(Lands(outcome), Deletes(l.key, sid)), l.(logout := if held then LogoutReleasing else LogoutDone))
    case LogoutReleasing => (If(Lands(outcome), Releases(l.key)), l.(logout := LogoutDone))
    case LogoutDone => (Nothing, l)
  }

  function StepRemoval(s: Shared, r: Proc, outcome: Outcome): (n: (Effect, Proc))
    requires r.Removal?
  {
    match r.removal
    case RemovalReading => (Nothing, r.(removal := RemovalDeleting(SidOf(Retrieve(s, r.key, outcome)))))
    case RemovalDeleting(sid) => (If(Lands(outcome), Deletes(r.key, sid)), r.(removal := RemovalDone))
    case RemovalDone => (Nothing, r)
  }

  function StepBackchannel(s: Shared, b: Proc, outcome: Outcome): (n: (Effect, Proc))
    requires b.Backchannel?
  {
    match b.backchannel
    case MembersReading =>
      (Nothing,
       b.(backchannel := if outcome == Proceed then MembersDeleting(LiveMembers(s, b.sid), s.signIns) else BackchannelDone))
    case MembersDeleting(members, _) =>
      (If(Lands(outcome), DeletesMembers(b.sid, members)), b.(backchannel := BackchannelDone))
    case BackchannelDone => (Nothing, b)
  }

  function StepProc(s: Shared, p: Proc, outcome: Outcome, clock: nat, life: nat): (n: (Effect, Proc)) {
    match p
    case Request(_, _, _, _) => StepRequest(s, p, outcome, ClockRead(s, clock), life)
    case Logout(_, _, _, _) => StepLogout(s, p, outcome)
    case Removal(_, _) => StepRemoval(s, p, outcome)
    case Backchannel(_, _) => StepBackchannel(s, p, outcome)
  }

  /** The login callback: a fresh session key and a fresh chain, stored with an absolute 10 h expiration. */
  function StoreSignIn(s: Shared, key: Key, sid: Option<Sid>, clock: nat, withRefresh: bool, lifetime: Option<nat>): (r: Shared) {
    var access := if lifetime.Some? then Some(clock + lifetime.value) else None;
    var ticket := Ticket(sid, if withRefresh then Some(0) else None, Some(0), access, clock + SESSION_SPAN);
    StoreTicket(
      s.(grants := s.grants[key := Grant(0, true, sid, clock + SESSION_SPAN, s.signIns)], signIns := s.signIns + 1),
      key, ticket, clock)
  }

  function Spawn(s: State, pid: Pid, p: Proc): (r: State) {
    if pid in s.procs then s else s.(procs := s.procs[pid := p])
  }

  function Next(s: State, e: Event): (r: State) {
    match e
    case Tick(duration) => s.(shared := s.shared.(now := s.shared.now + duration))
    case SignIn(key, sid, clock, withRefresh, lifetime) =>
      if key in s.shared.grants then s
      else s.(shared := StoreSignIn(s.shared, key, sid, ClockRead(s.shared, clock), withRefresh, lifetime))
    case ProviderRevokes(key) => s.(shared := Revoke(s.shared, key))
    case StartRequest(pid, key) => Spawn(s, pid, Request(key, 0, 0, Authenticating))
    case StartLogout(pid, key) =>
      Spawn(s, pid, Logout(key, s.shared.now + LOCK_TTL, 0, LogoutTryingLock))
    case StartRemoval(pid, key) => Spawn(s, pid, Removal(key, RemovalReading))
    case StartBackchannel(pid, sid) => Spawn(s, pid, Backchannel(sid, MembersReading))
    case Step(pid, outcome, clock, life) =>
      if pid !in s.procs then s
      else
        var (effect, proc) := StepProc(s.shared, s.procs[pid], outcome, clock, life);
        State(Apply(s.shared, pid, effect), s.procs[pid := proc])
  }

  /** The event is a step of this process; every other event leaves the process as it is. */
  predicate Steps(e: Event, pid: Pid) {
    e.Step? && e.pid == pid
  }

  function Exec(s: State, run: seq<Event>): (r: State)
    decreases |run|
  {
    if run == [] then s else Exec(Next(s, run[0]), run[1..])
  }

  /** An empty Redis, no chain and no process, at any time. */
  function Start(now: nat): (s: State) {
    State(Shared(now, map[], map[], map[], map[], 0, {}), map[])
  }

  lemma {:induction false} ExecAppend(s: State, a: seq<Event>, b: seq<Event>)
    ensures Exec(s, a + b) == Exec(Exec(s, a), b)
    decreases |a|
  {
    if a == [] {
      assert a + b == b;
    } else {
      assert (a + b)[1..] == a[1..] + b;
      ExecAppend(Next(s, a[0]), a[1..], b);
    }
  }
}
