/**
  The session code itself, over a shared Redis and provider that other processes use between any two
  awaits. `Cluster` holds the shared state and runs the others' events at every await, from a schedule
  that also says how each awaited call comes out; what the code computes is proved to be one run of
  the transition system, for every schedule.
 */
module SessionServices {
  import opened Options
  import opened SessionModel
  import NoResurrection

  /** What the others do during one await, and how the awaited call comes out. */
  datatype Interlude = Interlude(others: seq<Event>, outcome: Outcome, clock: nat, life: nat)

  class Cluster {
    var shared: Shared
    var procs: map<Pid, Proc>
    var schedule: seq<Interlude>

    /** The run so far. */
    ghost var start: State
    ghost var trace: seq<Event>

    constructor (state: State, schedule: seq<Interlude>)
      ensures Valid() && State() == start == state && this.schedule == schedule && trace == []
    {
      shared, procs, this.schedule := state.shared, state.procs, schedule;
      start, trace := state, [];
    }

    ghost function State(): (s: State)
      reads this
    {
      SessionModel.State(shared, procs)
    }

    ghost predicate Valid()
      reads this
    {
      State() == Exec(start, trace)
    }

    /** The process is at this point, and the schedule leaves its steps to it. */
    ghost predicate At(pid: Pid, p: Proc)
      reads this
    {
      && Valid()
      && pid in procs && procs[pid] == p
      && forall i, j :: 0 <= i < |schedule| && 0 <= j < |schedule[i].others| ==> !Steps(schedule[i].others[j], pid)
    }

    /** Lets the others run. When the schedule has run out, the caller's cancellation is next. */
    method Await(pid: Pid) returns (i: Interlude)
      requires pid in procs && At(pid, procs[pid])
      modifies this
      ensures At(pid, old(procs[pid])) && start == old(start) && old(trace) <= trace
      ensures old(schedule) == [] ==> i.outcome == Cancel(false) && schedule == []
      ensures old(schedule) != [] ==> schedule == old(schedule)[1..] && i == old(schedule)[0]
      ensures forall key :: NoResurrection.Dead(old(State()), key) ==> NoResurrection.Dead(State(), key)
      ensures old(shared.grants).Keys <= shared.grants.Keys
    {
      if schedule == [] {
        return Interlude([], Cancel(false), shared.now, 0);
      }
      i := schedule[0];
      schedule := schedule[1..];
      var state := Exec(SessionModel.State(shared, procs), i.others);
      ExecAppend(start, trace, i.others);
      OthersLeave(SessionModel.State(shared, procs), i.others, pid);
      forall key | NoResurrection.Dead(State(), key) ensures NoResurrection.Dead(state, key) {
        NoResurrection.NoResurrection(State(), i.others, key);
      }
      shared, procs, trace := state.shared, state.procs, trace + i.others;
    }

    /** Records where the process stops next. Its own statements must have had the model's effect. */
    method Commit(pid: Pid, i: Interlude, p: Proc, ghost before: State)
      requires before == Exec(start, trace)
      requires pid in procs && procs == before.procs
      requires forall i, j :: 0 <= i < |schedule| && 0 <= j < |schedule[i].others| ==> !Steps(schedule[i].others[j], pid)
      requires StepProc(before.shared, procs[pid], i.outcome, i.clock, i.life).1 == p
      requires Apply(before.shared, pid, StepProc(before.shared, procs[pid], i.outcome, i.clock, i.life).0) == shared
      modifies this
      ensures At(pid, p) && start == old(start) && schedule == old(schedule) && shared == old(shared)
      ensures old(trace) <= trace
    {
      procs := procs[pid := p];
      ExecAppend(start, trace, [Step(pid, i.outcome, i.clock, i.life)]);
      trace := trace + [Step(pid, i.outcome, i.clock, i.life)];
    }
  }

  lemma GrantsStay(s: State, e: Event)
    ensures s.shared.grants.Keys <= Next(s, e).shared.grants.Keys
  {
    if e.Step? && e.pid in s.procs {
      var effect := StepProc(s.shared, s.procs[e.pid], e.outcome, e.clock, e.tokenLife).0;
      forall key | key in s.shared.grants ensures key in Apply(s.shared, e.pid, effect).grants {
        NoResurrection.EffectKeepsDead(s.shared, e.pid, effect, key);
      }
    }
  }

  lemma {:induction false} OthersLeave(s: State, run: seq<Event>, pid: Pid)
    requires pid in s.procs && forall j :: 0 <= j < |run| ==> !Steps(run[j], pid)
    ensures pid in Exec(s, run).procs && Exec(s, run).procs[pid] == s.procs[pid]
    ensures s.shared.grants.Keys <= Exec(s, run).shared.grants.Keys
    decreases |run|
  {
    if run != [] {
      GrantsStay(s, run[0]);
      OthersLeave(Next(s, run[0]), run[1..], pid);
    }
  }

  function Elements(members: seq<Key>): (s: set<Key>)
    ensures forall k :: k in s <==> k in members
  {
    set k | k in members
  }

  class RedisTicketStore {
    const cluster: Cluster

    constructor (cluster: Cluster)
      ensures this.cluster == cluster
    {
      this.cluster := cluster;
    }

    method ComputeExpiry(ticket: Ticket, clock: nat) returns (ttl: nat)
      ensures ttl == TicketTtl(ticket, clock) && ttl > 0
    {
      var left := ticket.expiresUtc - clock;
      ttl := if left > 0 then left else MIN_TICKET_TTL;
    }

    method StoreAsync(key: Key, ticket: Ticket, clock: nat)
      modifies cluster`shared
      ensures cluster.shared == StoreTicket(old(cluster.shared), key, ticket, clock)
    {
      var ttl := ComputeExpiry(ticket, clock);
      var s := cluster.shared;
      cluster.shared := cluster.shared.(tickets := s.tickets[key := TicketEntry(ticket, s.now + ttl)]);
      if ticket.sid.Some? {
        var sid := ticket.sid.value;
        var members := if sid in s.sids && s.now < s.sids[sid].expires then s.sids[sid].members else {};
        cluster.shared := cluster.shared.(sids := s.sids[sid := SidEntry(members + {key}, s.now + ttl)]);
      }
    }

    method RetrieveAsync(key: Key, outcome: Outcome) returns (ticket: Option<Ticket>)
      ensures ticket == Retrieve(cluster.shared, key, outcome)
    {
      if outcome != Proceed {
        return None;
      }
      var s := cluster.shared;
      if key !in s.tickets || s.tickets[key].expires <= s.now {
        return None;
      }
      return Some(s.tickets[key].ticket);
    }

    method TryUpdateTokensAsync(key: Key, ticket: Ticket, clock: nat) returns (updated: bool)
      modifies cluster`shared
      ensures cluster.shared == UpdateTicket(old(cluster.shared), key, ticket, clock)
      ensures updated == Live(old(cluster.shared), key)
    {
      var ttl := ComputeExpiry(ticket, clock);
      var s := cluster.shared;
      updated := key in s.tickets && s.now < s.tickets[key].expires;
      if updated {
        cluster.shared := s.(tickets := s.tickets[key := TicketEntry(ticket, s.now + ttl)]);
      }
    }

    method SetMembersAsync(sid: Sid, outcome: Outcome) returns (members: seq<Key>)
      ensures Elements(members) == if outcome == Proceed then LiveMembers(cluster.shared, sid) else {}
    {
      var s := cluster.shared;
      members := [];
      if outcome == Proceed && sid in s.sids && s.now < s.sids[sid].expires {
        var left := s.sids[sid].members;
        while left != {}
          invariant Elements(members) + left == s.sids[sid].members
          decreases left
        {
          var member :| member in left;
          members, left := members + [member], left - {member};
        }
      }
    }

    /** The transaction at the end of `RemoveAsync`, for the sid its own read found. */
    method DeleteAsync(key: Key, sid: Option<Sid>)
      modifies cluster`shared
      ensures cluster.shared == DeleteTicket(old(cluster.shared), key, sid)
    {
      var s := cluster.shared;
      cluster.shared := cluster.shared.(tickets := s.tickets - {key});
      if sid.Some? && sid.value in s.sids {
        var entry := s.sids[sid.value];
        cluster.shared := cluster.shared.(sids := s.sids[sid.value := entry.(members := entry.members - {key})]);
      }
    }

    /** The loop of `RemoveAllForSessionIdAsync` over the members it read. */
    method DeleteMembersAsync(sid: Sid, members: seq<Key>) returns (removed: bool)
      modifies cluster`shared
      ensures cluster.shared == DeleteMembers(old(cluster.shared), sid, Elements(members))
      ensures removed == (members != [])
    {
      if |members| == 0 {
        return false;
      }
      var s := cluster.shared;
      var tickets := s.tickets;
      for n := 0 to |members|
        invariant tickets == s.tickets - Elements(members[..n])
      {
        tickets := tickets - {members[n]};
        assert members[..n + 1] == members[..n] + [members[n]];
      }
      assert members[..|members|] == members && members[0] in Elements(members);
      cluster.shared := s.(tickets := tickets, sids := s.sids - {sid});
      return true;
    }
  }

  class RedisRefreshLock {
    const cluster: Cluster

    constructor (cluster: Cluster)
      ensures this.cluster == cluster
    {
      this.cluster := cluster;
    }

    /** The lock's value is the process that takes it. */
    method TryAcquireAsync(key: Key, pid: Pid) returns (acquired: bool)
      modifies cluster`shared
      ensures acquired == LockFree(old(cluster.shared), key)
      ensures cluster.shared == TakeLock(old(cluster.shared), key, pid)
    {
      var s := cluster.shared;
      acquired := key !in s.locks || s.locks[key].expires <= s.now;
      if acquired {
        cluster.shared := s.(locks := s.locks[key := LockEntry(pid, s.now + LOCK_TTL)]);
      }
    }

    method DisposeAsync(key: Key, pid: Pid)
      modifies cluster`shared
      ensures cluster.shared == ReleaseLock(old(cluster.shared), key, pid)
    {
      var s := cluster.shared;
      if key in s.locks && s.locks[key].holder == pid {
        cluster.shared := s.(locks := s.locks - {key});
      }
    }

    /** Logout's bounded wait: answers whether the lock was taken, or none when the acquire itself failed. */
    method AcquireOrWaitAsync(key: Key, pid: Pid) returns (held: Option<bool>)
      requires pid in cluster.procs && cluster.procs[pid].Logout? && cluster.procs[pid].key == key
      requires cluster.procs[pid].logout.LogoutTryingLock? && cluster.At(pid, cluster.procs[pid])
      modifies cluster
      ensures pid in cluster.procs && cluster.At(pid, cluster.procs[pid]) && cluster.start == old(cluster.start)
      ensures old(cluster.trace) <= cluster.trace
      ensures cluster.procs[pid].Logout? && cluster.procs[pid].key == key
      ensures cluster.procs[pid].logout == if held.Some? then LogoutReading(held.value) else LogoutDone
      ensures old(cluster.shared.grants).Keys <= cluster.shared.grants.Keys
      ensures held == Some(true) ==>
        key in cluster.shared.locks && cluster.shared.locks[key] == LockEntry(pid, cluster.shared.now + LOCK_TTL)
    {
      var me := cluster.procs[pid];
      while true
        invariant cluster.At(pid, me) && cluster.start == old(cluster.start) && old(cluster.trace) <= cluster.trace
        invariant old(cluster.shared.grants).Keys <= cluster.shared.grants.Keys
        decreases |cluster.schedule|
      {
        var i := cluster.Await(pid);
        ghost var before := cluster.State();
        if i.outcome != Proceed {
          if i.outcome.lands {
            var _ := TryAcquireAsync(key, pid);
          }
          held := if i.outcome.Cancel? then Some(false) else None;
          cluster.Commit(pid, i, me.(logout := if held.Some? then LogoutReading(false) else LogoutDone), before);
          return;
        }
        var acquired := TryAcquireAsync(key, pid);
        if acquired {
          cluster.Commit(pid, i, me.(taken := cluster.shared.now, logout := LogoutReading(true)), before);
          return Some(true);
        }
        if me.deadline <= cluster.shared.now {
          cluster.Commit(pid, i, me.(logout := LogoutReading(false)), before);
          return Some(false);
        }
        cluster.Commit(pid, i, me, before);
      }
    }
  }

  datatype TokenRefreshResult = Success(position: nat) | InvalidGrant | Error | Threw

  class KeycloakTokenClient {
    const cluster: Cluster

    constructor (cluster: Cluster)
      ensures this.cluster == cluster
    {
      this.cluster := cluster;
    }

    /**
      The grant is posted once: a lost answer is an error, never a second post. A send that is cancelled is such
      an error too; the cancellation that propagates is one while the answer is read.
     */
    method RefreshAsync(key: Key, refreshToken: nat, outcome: Outcome) returns (result: TokenRefreshResult)
      modifies cluster`shared
      ensures result == match outcome
                        case Proceed =>
                          if Accepts(old(cluster.shared), key, refreshToken) then Success(refreshToken + 1) else InvalidGrant
                        case Fault(_) => Error
                        case Cancel(_) => Threw
      ensures cluster.shared ==
        (if Lands(outcome) && Accepts(old(cluster.shared), key, refreshToken)
         then Apply(old(cluster.shared), 0, Rotates(key, refreshToken, outcome == Proceed))
         else old(cluster.shared))
    {
      var s := cluster.shared;
      var accepted := key in s.grants && s.grants[key].active && s.grants[key].current == refreshToken;
      if accepted && (outcome == Proceed || outcome.lands) {
        cluster.shared := s.(grants := s.grants[key := s.grants[key].(current := refreshToken + 1)]);
      }
      match outcome {
        case Proceed =>
          if accepted {
            cluster.shared := cluster.shared.(succeeded := s.succeeded + {(key, refreshToken)});
            result := Success(refreshToken + 1);
          } else {
            result := InvalidGrant;
          }
        case Fault(_) => result := Error;
        case Cancel(_) => result := Threw;
      }
    }
  }
}
