/**
  The request, logout and back-channel handlers. For every schedule of the others and of call
  outcomes, the handler's own control flow is a run of the transition system that ends with the answer
  the handler returns; the safety theorems about runs then hold of the handlers.
 */
module AccessTokens {
  import opened Options
  import opened SessionModel
  import opened SessionServices
  import NoResurrection
  import Revocation
  import TokenOrigin

  /** What the cluster has run since then is one run. */
  lemma RunSince(cluster: Cluster, before: State, told: seq<Event>)
    requires cluster.Valid() && told <= cluster.trace && before == Exec(cluster.start, told)
    ensures Exec(before, cluster.trace[|told|..]) == cluster.State()
  {
    assert cluster.trace == told + cluster.trace[|told|..];
    ExecAppend(cluster.start, told, cluster.trace[|told|..]);
  }

  class AccessTokenProvider {
    const cluster: Cluster
    const ticketStore: RedisTicketStore
    const refreshLock: RedisRefreshLock
    const tokenClient: KeycloakTokenClient

    constructor (cluster: Cluster, store: RedisTicketStore, lock: RedisRefreshLock, client: KeycloakTokenClient)
      requires store.cluster == lock.cluster == client.cluster == cluster
      ensures this.cluster == cluster && Wired()
    {
      this.cluster, ticketStore, refreshLock, tokenClient := cluster, store, lock, client;
    }

    predicate Wired() {
      ticketStore.cluster == cluster && refreshLock.cluster == cluster && tokenClient.cluster == cluster
    }

    /**
      Where the model's process is once `GetAsync` has answered: the answer is out, a sign-out is due, or
      the write-back threw while its command may still reach Redis.
     */
    static predicate Answered(pc: RequestPc, answer: Answer) {
      || pc == Done(answer)
      || (pc == SigningOut && answer == SessionEnded)
      || (pc.Writing? && pc.gaveUp && answer == Failed)
    }

    /** The process of this request has answered, and the cluster's history is one run that got it there. */
    ghost predicate Ended(pid: Pid, key: Key, answer: Answer)
      reads cluster
    {
      && pid in cluster.procs && cluster.At(pid, cluster.procs[pid])
      && cluster.procs[pid].Request? && cluster.procs[pid].key == key
      && Answered(cluster.procs[pid].pc, answer)
    }

    /**
      `signOut`: the session ended with the session key known, so the sign-out has a ticket to delete. A token was
      read in the run since then with more than 30 s left, or was granted and written back in it.
     */
    method GetAsync(pid: Pid, key: Key) returns (answer: Answer, signOut: bool)
      requires Wired() && cluster.At(pid, Request(key, 0, 0, Authenticating))
      modifies cluster
      ensures Ended(pid, key, answer) && cluster.start == old(cluster.start) && old(cluster.trace) <= cluster.trace
      ensures signOut == cluster.procs[pid].pc.SigningOut?
      ensures answer == SessionEnded && !signOut ==> cluster.procs[pid].pc == Done(SessionEnded)
      ensures answer.Token? ==> var since := cluster.trace[|old(cluster.trace)|..];
        || TokenOrigin.Reads(old(cluster.State()), since, pid, key, answer.position)
        || TokenOrigin.Refreshes(old(cluster.State()), since, pid, key, answer.position)
    {
      ghost var before, told := cluster.State(), cluster.trace;
      var known, deadline := AuthenticateAsync(pid, key);
      if known.Some? {
        answer, signOut := known.value, false;
      } else {
        answer, signOut := RefreshOrWaitAsync(pid, key, deadline);
      }
      RunSince(cluster, before, told);
      if answer.Token? {
        TokenOrigin.TokensAreReadOrRefreshed(before, cluster.trace[|told|..], pid, key, answer.position);
      }
    }

    /** The polling loop. */
    method RefreshOrWaitAsync(pid: Pid, key: Key, deadline: nat) returns (answer: Answer, signOut: bool)
      requires Wired() && cluster.At(pid, Request(key, deadline, 0, TryingLock))
      modifies cluster
      ensures Ended(pid, key, answer) && cluster.start == old(cluster.start) && old(cluster.trace) <= cluster.trace
      ensures signOut == cluster.procs[pid].pc.SigningOut?
      ensures signOut <==> answer == SessionEnded
    {
      while true
        invariant cluster.At(pid, Request(key, deadline, 0, TryingLock)) && cluster.start == old(cluster.start)
        invariant old(cluster.trace) <= cluster.trace
        decreases |cluster.schedule|
      {
        var i := cluster.Await(pid);
        ghost var before := cluster.State();
        if deadline <= cluster.shared.now {
          cluster.Commit(pid, i, Request(key, deadline, 0, Done(Unavailable)), before);
          return Unavailable, false;
        }
        if i.outcome != Proceed {
          if i.outcome.lands {
            var _ := refreshLock.TryAcquireAsync(key, pid);
          }
          answer := if i.outcome.Cancel? then Unavailable else Failed;
          cluster.Commit(pid, i, Request(key, deadline, 0, Done(answer)), before);
          return answer, false;
        }
        var acquired := refreshLock.TryAcquireAsync(key, pid);
        if acquired {
          var taken := cluster.shared.now;
          cluster.Commit(pid, i, Request(key, deadline, taken, ReReading), before);
          answer := HoldLock(pid, key, deadline, taken);
          return answer, answer == SessionEnded;
        }
        cluster.Commit(pid, i, Request(key, deadline, 0, Waiting), before);
        var seen := WaitForHolder(pid, key, deadline);
        if seen.Some? {
          return seen.value, seen.value == SessionEnded;
        }
      }
    }

    /** The cookie handler's own read: an answer when there is no ticket or a fresh one. */
    method AuthenticateAsync(pid: Pid, key: Key) returns (answer: Option<Answer>, deadline: nat)
      requires Wired() && cluster.At(pid, Request(key, 0, 0, Authenticating))
      modifies cluster
      ensures cluster.start == old(cluster.start)
      ensures old(cluster.trace) <= cluster.trace
      ensures if answer.Some? then Ended(pid, key, answer.value) else cluster.At(pid, Request(key, deadline, 0, TryingLock))
      ensures answer.Some? ==> cluster.procs[pid].pc == Done(answer.value)
    {
      var i := cluster.Await(pid);
      ghost var before := cluster.State();
      var ticket := ticketStore.RetrieveAsync(key, i.outcome);
      deadline := cluster.shared.now + LOCK_WAIT_DEADLINE;
      if ticket.None? {
        answer := Some(SessionEnded);
      } else if IsFresh(ticket.value, cluster.shared.now) {
        answer := Some(Token(ticket.value.access.value));
      } else {
        answer := None;
      }
      cluster.Commit(pid, i, Request(key, deadline, 0, if answer.Some? then Done(answer.value) else TryingLock), before);
    }

    /** One poll while another request holds the lock: an answer, or none to try the lock again. */
    method WaitForHolder(pid: Pid, key: Key, deadline: nat) returns (answer: Option<Answer>)
      requires Wired() && cluster.At(pid, Request(key, deadline, 0, Waiting))
      modifies cluster
      ensures cluster.start == old(cluster.start) && |cluster.schedule| <= |old(cluster.schedule)|
      ensures old(cluster.trace) <= cluster.trace
      ensures if answer.Some? then Ended(pid, key, answer.value) else cluster.At(pid, Request(key, deadline, 0, TryingLock))
      ensures answer.Some? ==> (cluster.procs[pid].pc.SigningOut? <==> answer.value == SessionEnded)
    {
      var i := cluster.Await(pid);
      ghost var before := cluster.State();
      if i.outcome.Cancel? {
        cluster.Commit(pid, i, Request(key, deadline, 0, Done(Unavailable)), before);
        return Some(Unavailable);
      }
      var waiting := ticketStore.RetrieveAsync(key, i.outcome);
      if waiting.None? {
        cluster.Commit(pid, i, Request(key, deadline, 0, SigningOut), before);
        return Some(SessionEnded);
      }
      if IsFresh(waiting.value, cluster.shared.now) {
        answer := Some(Token(waiting.value.access.value));
        cluster.Commit(pid, i, Request(key, deadline, 0, Done(answer.value)), before);
        return;
      }
      cluster.Commit(pid, i, Request(key, deadline, 0, TryingLock), before);
      return None;
    }

    method HoldLock(pid: Pid, key: Key, deadline: nat, taken: nat) returns (answer: Answer)
      requires Wired() && cluster.At(pid, Request(key, deadline, taken, ReReading))
      modifies cluster
      ensures Ended(pid, key, answer) && cluster.start == old(cluster.start)
      ensures old(cluster.trace) <= cluster.trace
      ensures cluster.procs[pid].pc.SigningOut? <==> answer == SessionEnded
    {
      var released;
      answer, released := RefreshUnderLockAsync(pid, key, deadline, taken);
      if !released {
        answer := Release(pid, key, deadline, taken, answer);
      }
    }

    /** Under the lock: the answer is ready to be released with, or a write-back that threw has released. */
    ghost predicate Ready(pid: Pid, key: Key, deadline: nat, taken: nat, answer: Answer, released: bool)
      reads cluster
    {
      if released then Ended(pid, key, answer) && cluster.procs[pid].pc.Writing?
      else cluster.At(pid, Request(key, deadline, taken, Releasing(answer)))
    }

    method RefreshUnderLockAsync(pid: Pid, key: Key, deadline: nat, taken: nat) returns (answer: Answer, released: bool)
      requires Wired() && cluster.At(pid, Request(key, deadline, taken, ReReading))
      modifies cluster
      ensures Ready(pid, key, deadline, taken, answer, released) && cluster.start == old(cluster.start)
      ensures old(cluster.trace) <= cluster.trace
    {
      released := false;
      var i := cluster.Await(pid);
      ghost var before := cluster.State();
      var reRead := ticketStore.RetrieveAsync(key, i.outcome);
      if reRead.None? {
        cluster.Commit(pid, i, Request(key, deadline, taken, Releasing(SessionEnded)), before);
        return SessionEnded, false;
      }
      if IsFresh(reRead.value, cluster.shared.now) {
        answer := Token(reRead.value.access.value);
        cluster.Commit(pid, i, Request(key, deadline, taken, Releasing(answer)), before);
        return;
      }
      if reRead.value.refresh.None? {
        cluster.Commit(pid, i, Request(key, deadline, taken, Releasing(SessionEnded)), before);
        return SessionEnded, false;
      }
      cluster.Commit(pid, i, Request(key, deadline, taken, Sending(reRead.value)), before);
      answer, released := SendAsync(pid, key, deadline, taken, reRead.value, reRead.value.refresh.value);
    }

    /** The grant, and what each of its outcomes leads to. */
    method SendAsync(pid: Pid, key: Key, deadline: nat, taken: nat, ticket: Ticket, refreshToken: nat)
      returns (answer: Answer, released: bool)
      requires Wired() && ticket.refresh == Some(refreshToken)
      requires cluster.At(pid, Request(key, deadline, taken, Sending(ticket)))
      modifies cluster
      ensures Ready(pid, key, deadline, taken, answer, released) && cluster.start == old(cluster.start)
      ensures old(cluster.trace) <= cluster.trace
    {
      released := false;
      var i := cluster.Await(pid);
      ghost var before := cluster.State();
      var result := tokenClient.RefreshAsync(key, refreshToken, i.outcome);
      match result {
        case Success(position) =>
          cluster.Commit(pid, i, Request(key, deadline, taken, Writing(ticket, position, false)), before);
          answer, released := WriteBack(pid, key, deadline, taken, ticket, position);
        case InvalidGrant =>
          cluster.Commit(pid, i, Request(key, deadline, taken, CheckingRace(refreshToken)), before);
          answer := HandleInvalidGrantAsync(pid, key, deadline, taken, refreshToken);
        case Error =>
          answer := Unavailable;
          cluster.Commit(pid, i, Request(key, deadline, taken, Releasing(answer)), before);
        case Threw =>
          answer := Failed;
          cluster.Commit(pid, i, Request(key, deadline, taken, Releasing(answer)), before);
      }
    }

    /** `ApplyRefreshedTokens` sets the ticket's properties in place; the rest of the ticket stays. */
    method ApplyRefreshedTokens(ticket: Ticket, position: nat, expiresAt: nat) returns (t: Ticket)
      ensures t == Refreshed(ticket, position, expiresAt)
      ensures t.sid == ticket.sid && t.expiresUtc == ticket.expiresUtc
    {
      t := ticket;
      t := t.(access := Some(position));
      t := t.(refresh := Some(position));
      t := t.(accessExpires := Some(expiresAt));
    }

    method WriteBack(pid: Pid, key: Key, deadline: nat, taken: nat, ticket: Ticket, position: nat)
      returns (answer: Answer, released: bool)
      requires Wired() && cluster.At(pid, Request(key, deadline, taken, Writing(ticket, position, false)))
      modifies cluster
      ensures Ready(pid, key, deadline, taken, answer, released) && cluster.start == old(cluster.start)
      ensures old(cluster.trace) <= cluster.trace
    {
      var i := cluster.Await(pid);
      ghost var before := cluster.State();
      var next;
      answer, released, next := TryWrite(pid, key, deadline, taken, ticket, position, i);
      cluster.Commit(pid, i, Request(key, deadline, taken, next), before);
    }

    /** What the write-back leads to; one that was cancelled lets the lock go, and its command may still arrive. */
    method TryWrite(pid: Pid, key: Key, deadline: nat, taken: nat, ticket: Ticket, position: nat, i: Interlude)
      returns (answer: Answer, released: bool, next: RequestPc)
      requires Wired()
      modifies cluster`shared
      ensures var me := Request(key, deadline, taken, Writing(ticket, position, false));
        var (effect, p) := StepProc(old(cluster.shared), me, i.outcome, i.clock, i.life);
        cluster.shared == Apply(old(cluster.shared), pid, effect) && p == Request(key, deadline, taken, next)
      ensures next == if released then Writing(ticket, position, true) else Releasing(answer)
      ensures released ==> answer == Failed
    {
      var clock := if i.clock <= cluster.shared.now then i.clock else cluster.shared.now;
      var refreshed := ApplyRefreshedTokens(ticket, position, clock + i.life);
      match i.outcome {
        case Proceed =>
          var updated := ticketStore.TryUpdateTokensAsync(key, refreshed, clock);
          answer, released := if updated then Token(position) else SessionEnded, false;
          next := Releasing(answer);
        case Fault(lands) =>
          if lands {
            var _ := ticketStore.TryUpdateTokensAsync(key, refreshed, clock);
          }
          answer, released := Failed, false;
          next := Releasing(answer);
        case Cancel(_) =>
          refreshLock.DisposeAsync(key, pid);
          answer, released := Failed, true;
          next := Writing(ticket, position, true);
      }
    }

    /** Tells a session another holder has just refreshed from one the provider has ended. */
    method HandleInvalidGrantAsync(pid: Pid, key: Key, deadline: nat, taken: nat, sent: nat) returns (answer: Answer)
      requires Wired() && cluster.At(pid, Request(key, deadline, taken, CheckingRace(sent)))
      modifies cluster
      ensures cluster.At(pid, Request(key, deadline, taken, Releasing(answer))) && cluster.start == old(cluster.start)
      ensures old(cluster.trace) <= cluster.trace
    {
      var i := cluster.Await(pid);
      ghost var before := cluster.State();
      var race := ticketStore.RetrieveAsync(key, i.outcome);
      if race.Some? && race.value.refresh != Some(sent) && IsFresh(race.value, cluster.shared.now) {
        answer := Token(race.value.access.value);
      } else {
        answer := SessionEnded;
      }
      cluster.Commit(pid, i, Request(key, deadline, taken, Releasing(answer)), before);
    }

    /** Disposing the lock handle; when that throws, so does the request. */
    method Release(pid: Pid, key: Key, deadline: nat, taken: nat, answer: Answer) returns (result: Answer)
      requires Wired() && cluster.At(pid, Request(key, deadline, taken, Releasing(answer)))
      modifies cluster
      ensures Ended(pid, key, result) && cluster.start == old(cluster.start)
      ensures old(cluster.trace) <= cluster.trace
      ensures result == answer || result == Failed
      ensures cluster.procs[pid].pc.SigningOut? <==> result == SessionEnded
    {
      var i := cluster.Await(pid);
      ghost var before := cluster.State();
      if i.outcome == Proceed || i.outcome.lands {
        refreshLock.DisposeAsync(key, pid);
      }
      result := if i.outcome == Proceed then answer else Failed;
      cluster.Commit(pid, i, Request(key, deadline, taken, if result == SessionEnded then SigningOut else Done(result)), before);
    }
  }

  datatype Response = Forwarded(position: nat) | Unauthorized | ServiceUnavailable | ServerError

  class AccessTokenMiddleware {
    const provider: AccessTokenProvider

    constructor (provider: AccessTokenProvider)
      ensures this.provider == provider
    {
      this.provider := provider;
    }

    /** What each answer does to the request: a session that ended is signed out, which deletes its ticket. */
    method InvokeAsync(pid: Pid, key: Key) returns (response: Response)
      requires provider.Wired() && provider.cluster.At(pid, Request(key, 0, 0, Authenticating))
      modifies provider.cluster
      ensures provider.cluster.start == old(provider.cluster.start)
      ensures response.Forwarded? ==> provider.Ended(pid, key, Token(response.position))
      ensures response == Unauthorized ==>
        provider.Ended(pid, key, SessionEnded) && provider.cluster.procs[pid].pc == Done(SessionEnded)
      ensures response == ServiceUnavailable ==> provider.Ended(pid, key, Unavailable)
      ensures response == ServerError ==> provider.Ended(pid, key, Failed)
    {
      var answer, signOut := provider.GetAsync(pid, key);
      match answer {
        case Token(position) => response := Forwarded(position);
        case Unavailable => response := ServiceUnavailable;
        case Failed => response := ServerError;
        case SessionEnded =>
          if signOut {
            var threw := SignOutAsync(pid, key);
            response := if threw then ServerError else Unauthorized;
          } else {
            response := Unauthorized;
          }
      }
    }

    method SignOutAsync(pid: Pid, key: Key) returns (threw: bool)
      requires provider.Wired() && provider.Ended(pid, key, SessionEnded) && provider.cluster.procs[pid].pc.SigningOut?
      modifies provider.cluster
      ensures provider.cluster.start == old(provider.cluster.start)
      ensures provider.Ended(pid, key, if threw then Failed else SessionEnded)
      ensures provider.cluster.procs[pid].pc.Done?
    {
      var sid := ReadSidAsync(pid, key);
      threw := DeleteAsync(pid, key, sid);
    }

    method ReadSidAsync(pid: Pid, key: Key) returns (sid: Option<Sid>)
      requires provider.Wired() && provider.Ended(pid, key, SessionEnded) && provider.cluster.procs[pid].pc.SigningOut?
      modifies provider.cluster
      ensures provider.cluster.start == old(provider.cluster.start)
      ensures Deletes(pid, key, sid)
    {
      var cluster := provider.cluster;
      var deadline, taken := cluster.procs[pid].deadline, cluster.procs[pid].taken;
      var i := cluster.Await(pid);
      ghost var before := cluster.State();
      var existing := provider.ticketStore.RetrieveAsync(key, i.outcome);
      sid := if existing.Some? then existing.value.sid else None;
      cluster.Commit(pid, i, Request(key, deadline, taken, Deleting(sid)), before);
    }

    ghost predicate Deletes(pid: Pid, key: Key, sid: Option<Sid>)
      reads provider.cluster
    {
      && pid in provider.cluster.procs && provider.cluster.At(pid, provider.cluster.procs[pid])
      && provider.cluster.procs[pid].Request? && provider.cluster.procs[pid].key == key
      && provider.cluster.procs[pid].pc == Deleting(sid)
    }

    method DeleteAsync(pid: Pid, key: Key, sid: Option<Sid>) returns (threw: bool)
      requires provider.Wired() && Deletes(pid, key, sid)
      modifies provider.cluster
      ensures provider.cluster.start == old(provider.cluster.start)
      ensures provider.Ended(pid, key, if threw then Failed else SessionEnded)
      ensures provider.cluster.procs[pid].pc.Done?
    {
      var cluster := provider.cluster;
      var deadline, taken := cluster.procs[pid].deadline, cluster.procs[pid].taken;
      var i := cluster.Await(pid);
      ghost var before := cluster.State();
      if i.outcome == Proceed || i.outcome.lands {
        provider.ticketStore.DeleteAsync(key, sid);
      }
      threw := i.outcome != Proceed;
      cluster.Commit(pid, i, Request(key, deadline, taken, Done(if threw then Failed else SessionEnded)), before);
    }
  }

  /**
    One request from any state of the system, under any schedule: what the handler answers is what the
    run of the transition system says, and a session that is already gone never yields a token. A token that is
    forwarded was read in this run with more than 30 s left, or was granted and written back in it.
   */
  method Serve(state: State, schedule: seq<Interlude>, pid: Pid, key: Key)
    returns (response: Response, final: State, ghost run: seq<Event>)
    requires pid !in state.procs
    requires forall i, j :: 0 <= i < |schedule| && 0 <= j < |schedule[i].others| ==> !Steps(schedule[i].others[j], pid)
    ensures final == Exec(Next(state, StartRequest(pid, key)), run)
    ensures pid in final.procs && final.procs[pid].Request? && final.procs[pid].key == key
    ensures response.Forwarded? ==> final.procs[pid].pc == Done(Token(response.position))
    ensures response == Unauthorized ==> final.procs[pid].pc == Done(SessionEnded)
    ensures response == ServiceUnavailable ==> final.procs[pid].pc == Done(Unavailable)
    ensures NoResurrection.Dead(state, key) ==> !response.Forwarded?
    ensures response.Forwarded? ==>
      || TokenOrigin.Reads(Next(state, StartRequest(pid, key)), run, pid, key, response.position)
      || TokenOrigin.Refreshes(Next(state, StartRequest(pid, key)), run, pid, key, response.position)
  {
    var cluster := new Cluster(Next(state, StartRequest(pid, key)), schedule);
    var store := new RedisTicketStore(cluster);
    var lock := new RedisRefreshLock(cluster);
    var client := new KeycloakTokenClient(cluster);
    var provider := new AccessTokenProvider(cluster, store, lock, client);
    var middleware := new AccessTokenMiddleware(provider);
    response := middleware.InvokeAsync(pid, key);
    final := SessionModel.State(cluster.shared, cluster.procs);
    run := cluster.trace;
    if NoResurrection.Dead(state, key) {
      NoResurrection.NoTokenAfterDeletion(Next(state, StartRequest(pid, key)), run, pid, key);
    }
    if response.Forwarded? {
      TokenOrigin.TokensAreReadOrRefreshed(Next(state, StartRequest(pid, key)), run, pid, key, response.position);
    }
  }

  // ----- The logout endpoints -----

  class LogoutEndpoint {
    const cluster: Cluster
    const ticketStore: RedisTicketStore
    const refreshLock: RedisRefreshLock

    constructor (cluster: Cluster, store: RedisTicketStore, lock: RedisRefreshLock)
      requires store.cluster == lock.cluster == cluster
      ensures this.cluster == cluster && ticketStore == store && refreshLock == lock
    {
      this.cluster, ticketStore, refreshLock := cluster, store, lock;
    }

    /** Where the process of this logout is. */
    ghost predicate LoggingOut(pid: Pid, key: Key, pc: LogoutPc)
      reads cluster
    {
      && pid in cluster.procs && cluster.At(pid, cluster.procs[pid])
      && cluster.procs[pid].Logout? && cluster.procs[pid].key == key && cluster.procs[pid].logout == pc
    }

    /**
      With the lock or without it, a logout that answers has deleted the session, and it stays deleted. The
      provider's session is ended too, unless the acquire threw, no refresh token was found or the call was lost.
      A lock that was taken is let go also when the delete throws.
     */
    method LogoutAsync(pid: Pid, key: Key) returns (threw: bool)
      requires ticketStore.cluster == cluster && refreshLock.cluster == cluster
      requires LoggingOut(pid, key, LogoutTryingLock)
      modifies cluster
      ensures LoggingOut(pid, key, LogoutDone) && cluster.start == old(cluster.start)
      ensures !threw && key in old(cluster.shared.grants) ==> NoResurrection.Dead(cluster.State(), key)
      ensures old(cluster.trace) <= cluster.trace
      ensures Revocation.EndsTheChain(old(cluster.State()), cluster.trace[|old(cluster.trace)|..], pid, key)
    {
      ghost var before, told := cluster.State(), cluster.trace;
      var held := refreshLock.AcquireOrWaitAsync(key, pid);
      threw := held.None?;
      if held.Some? {
        EndSessionAsync(pid, key, held.value);
        threw := DeleteAsync(pid, key, held.value);
        if held.value {
          var disposed := ReleaseAsync(pid, key);
          threw := threw || !disposed;
        }
      }
      RunSince(cluster, before, told);
      Revocation.LogoutRevokes(before, cluster.trace[|told|..], pid, key);
    }

    method ReleaseAsync(pid: Pid, key: Key) returns (disposed: bool)
      requires refreshLock.cluster == cluster && LoggingOut(pid, key, LogoutReleasing)
      modifies cluster
      ensures LoggingOut(pid, key, LogoutDone) && cluster.start == old(cluster.start)
      ensures old(cluster.trace) <= cluster.trace
      ensures NoResurrection.Dead(old(cluster.State()), key) ==> NoResurrection.Dead(cluster.State(), key)
    {
      var i := cluster.Await(pid);
      ghost var before := cluster.State();
      if i.outcome == Proceed || i.outcome.lands {
        refreshLock.DisposeAsync(key, pid);
      }
      cluster.Commit(pid, i, cluster.procs[pid].(logout := LogoutDone), before);
      disposed := i.outcome == Proceed;
    }

    /**
      Ends the provider's session with the stored refresh token. Without one the provider is left alone. Never throws.
     */
    method EndSessionAsync(pid: Pid, key: Key, held: bool)
      requires ticketStore.cluster == cluster && LoggingOut(pid, key, LogoutReading(held))
      modifies cluster
      ensures LoggingOut(pid, key, LogoutSigningOut(held)) && cluster.start == old(cluster.start)
      ensures old(cluster.shared.grants).Keys <= cluster.shared.grants.Keys && old(cluster.trace) <= cluster.trace
      ensures Revocation.EndsTheChain(old(cluster.State()), cluster.trace[|old(cluster.trace)|..], pid, key)
    {
      ghost var begun, told := cluster.State(), cluster.trace;
      var deadline, taken := cluster.procs[pid].deadline, cluster.procs[pid].taken;
      var i := cluster.Await(pid);
      ghost var before := cluster.State();
      var ticket := ticketStore.RetrieveAsync(key, i.outcome);
      if ticket.None? || ticket.value.refresh.None? {
        cluster.Commit(pid, i, Logout(key, deadline, taken, LogoutSigningOut(held)), before);
      } else {
        cluster.Commit(pid, i, Logout(key, deadline, taken, LogoutEnding(held)), before);
        PostEndSession(pid, key, held);
      }
      RunSince(cluster, begun, told);
      Revocation.LogoutRevokes(begun, cluster.trace[|told|..], pid, key);
    }

    method PostEndSession(pid: Pid, key: Key, held: bool)
      requires LoggingOut(pid, key, LogoutEnding(held))
      modifies cluster
      ensures LoggingOut(pid, key, LogoutSigningOut(held)) && cluster.start == old(cluster.start)
      ensures old(cluster.shared.grants).Keys <= cluster.shared.grants.Keys && old(cluster.trace) <= cluster.trace
    {
      var deadline, taken := cluster.procs[pid].deadline, cluster.procs[pid].taken;
      var i := cluster.Await(pid);
      ghost var before := cluster.State();
      if i.outcome == Proceed || i.outcome.lands {
        cluster.shared := Revoke(cluster.shared, key);
      }
      cluster.Commit(pid, i, Logout(key, deadline, taken, LogoutSigningOut(held)), before);
    }

    /** `RemoveAsync`: a best-effort read of the sid, then the delete. */
    method DeleteAsync(pid: Pid, key: Key, held: bool) returns (threw: bool)
      requires ticketStore.cluster == cluster && LoggingOut(pid, key, LogoutSigningOut(held))
      modifies cluster
      ensures LoggingOut(pid, key, if held then LogoutReleasing else LogoutDone) && cluster.start == old(cluster.start)
      ensures old(cluster.trace) <= cluster.trace
      ensures !threw && key in old(cluster.shared.grants) ==> NoResurrection.Dead(cluster.State(), key)
    {
      var sid := ReadSidAsync(pid, key, held);
      var deadline, taken := cluster.procs[pid].deadline, cluster.procs[pid].taken;
      var i := cluster.Await(pid);
      ghost var before := cluster.State();
      if i.outcome == Proceed || i.outcome.lands {
        ticketStore.DeleteAsync(key, sid);
      }
      threw := i.outcome != Proceed;
      cluster.Commit(pid, i, Logout(key, deadline, taken, if held then LogoutReleasing else LogoutDone), before);
    }

    method ReadSidAsync(pid: Pid, key: Key, held: bool) returns (sid: Option<Sid>)
      requires ticketStore.cluster == cluster && LoggingOut(pid, key, LogoutSigningOut(held))
      modifies cluster
      ensures LoggingOut(pid, key, LogoutDeleting(held, sid)) && cluster.start == old(cluster.start)
      ensures old(cluster.shared.grants).Keys <= cluster.shared.grants.Keys && old(cluster.trace) <= cluster.trace
    {
      var deadline, taken := cluster.procs[pid].deadline, cluster.procs[pid].taken;
      var i := cluster.Await(pid);
      ghost var before := cluster.State();
      var existing := ticketStore.RetrieveAsync(key, i.outcome);
      sid := if existing.Some? then existing.value.sid else None;
      cluster.Commit(pid, i, Logout(key, deadline, taken, LogoutDeleting(held, sid)), before);
    }

    /**
      Answers whether a session was removed. Then every session the sid's set listed at the time of the read,
      a point of this very run, has lost its ticket, and the set is gone.
     */
    method BackchannelLogoutAsync(pid: Pid, sid: Sid) returns (removed: bool, ghost reading: seq<Event>)
      requires ticketStore.cluster == cluster
      requires cluster.At(pid, Backchannel(sid, MembersReading))
      modifies cluster
      ensures cluster.At(pid, Backchannel(sid, BackchannelDone)) && cluster.start == old(cluster.start)
      ensures old(cluster.trace) <= reading <= cluster.trace
      ensures removed ==> sid !in cluster.shared.sids
      ensures removed ==>
        var listed := LiveMembers(Exec(cluster.start, reading).shared, sid);
        listed != {} && listed !! cluster.shared.tickets.Keys
    {
      var i := cluster.Await(pid);
      ghost var before := cluster.State();
      reading := cluster.trace;
      var members := ticketStore.SetMembersAsync(sid, i.outcome);
      if i.outcome != Proceed {
        cluster.Commit(pid, i, Backchannel(sid, BackchannelDone), before);
        return false, reading;
      }
      var since := cluster.shared.signIns;
      cluster.Commit(pid, i, Backchannel(sid, MembersDeleting(Elements(members), since)), before);
      removed := DeleteSessionsAsync(pid, sid, members, since);
      assert removed ==> members[0] in Elements(members);
    }

    method DeleteSessionsAsync(pid: Pid, sid: Sid, members: seq<Key>, since: nat) returns (removed: bool)
      requires ticketStore.cluster == cluster
      requires cluster.At(pid, Backchannel(sid, MembersDeleting(Elements(members), since)))
      modifies cluster
      ensures cluster.At(pid, Backchannel(sid, BackchannelDone)) && cluster.start == old(cluster.start)
      ensures old(cluster.trace) <= cluster.trace
      ensures removed ==>
        members != [] && Elements(members) !! cluster.shared.tickets.Keys && sid !in cluster.shared.sids
    {
      var i := cluster.Await(pid);
      ghost var before := cluster.State();
      removed := false;
      if i.outcome == Proceed || i.outcome.lands {
        removed := ticketStore.DeleteMembersAsync(sid, members);
        assert removed ==> members[0] in Elements(members);
      }
      cluster.Commit(pid, i, Backchannel(sid, BackchannelDone), before);
      removed := removed && i.outcome == Proceed;
    }
  }
}
