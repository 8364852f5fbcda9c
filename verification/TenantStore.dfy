/**
  Tenant-scoped persistence: the query filter, the guard before a save, and the statements a save sends,
  over a database of rows by primary key. Runs interleave any number of tenants' queries and saves.
 */
module TenantStore {
  import opened Options
  import opened TenantText

  datatype Row = Row(tenant: TenantId, data: int)

  type Database = map<int, Row>

  datatype EntityState = Detached | Unchanged | Added | Modified | Deleted

  /** A tracked entity. `original` is whatever the entity was attached with, so it may be forged. */
  datatype Entry = Entry(key: int, state: EntityState, original: TenantId, current: TenantId, data: int)

  datatype Violation = InvalidTenant | NoTenantForWrite | UntenantedEntity | TenantMismatch | TenantChanged

  // ----- The guard -----

  predicate IsWritten(e: Entry) {
    e.state.Added? || e.state.Modified? || e.state.Deleted?
  }

  function EntryViolation(ambient: TenantResolution, e: Entry): (v: Option<Violation>)
    requires !ambient.Invalid?
  {
    if !IsWritten(e) then None
    else if ambient.NoTenant? then Some(NoTenantForWrite)
    else if e.state.Added? then
      if !IsInitialized(e.current) then Some(UntenantedEntity)
      else if e.current != ambient.tenantId then Some(TenantMismatch)
      else None
    else if e.original != ambient.tenantId then Some(TenantMismatch)
    else if e.state.Modified? && e.current != e.original then Some(TenantChanged)
    else None
  }

  function FirstViolation(ambient: TenantResolution, entries: seq<Entry>): (v: Option<Violation>)
    requires !ambient.Invalid?
  {
    if entries == [] then None
    else if EntryViolation(ambient, entries[0]).Some? then EntryViolation(ambient, entries[0])
    else FirstViolation(ambient, entries[1..])
  }

  function Guard(ambient: TenantResolution, entries: seq<Entry>): (v: Option<Violation>) {
    if ambient.Invalid? then Some(InvalidTenant) else FirstViolation(ambient, entries)
  }

  /** An entity that stays in its tenant: it was there before, if it existed, and it is there after. */
  predicate StaysIn(e: Entry, t: TenantId) {
    && (e.state.Added? ==> e.current == t && IsInitialized(t))
    && (e.state.Modified? ==> e.original == t && e.current == t)
    && (e.state.Deleted? ==> e.original == t)
  }

  predicate Allowed(ambient: TenantResolution, e: Entry) {
    match ambient
    case Invalid => false
    case NoTenant => !IsWritten(e)
    case Tenant(t) => StaysIn(e, t)
  }

  /** What the guard lets through: nothing under Invalid, no write under None, else writes inside the tenant. */
  lemma {:induction false} GuardPassesIff(ambient: TenantResolution, entries: seq<Entry>)
    ensures Guard(ambient, entries) == None
       <==> !ambient.Invalid? && forall e :: e in entries ==> Allowed(ambient, e)
  {
    if entries != [] && !ambient.Invalid? {
      GuardPassesIff(ambient, entries[1..]);
      assert entries == [entries[0]] + entries[1..];
      assert entries[0] in entries;
      assert EntryViolation(ambient, entries[0]) == None <==> Allowed(ambient, entries[0]);
    }
  }

  /** A refused save says what is wrong with the first entity that is not allowed. */
  lemma {:induction false} GuardReportsTheFirst(ambient: TenantResolution, entries: seq<Entry>, i: nat)
    requires !ambient.Invalid? && i < |entries| && !Allowed(ambient, entries[i])
    requires forall j :: 0 <= j < i ==> Allowed(ambient, entries[j])
    ensures var e, v := entries[i], Guard(ambient, entries);
      && (ambient.NoTenant? ==> v == Some(NoTenantForWrite))
      && (ambient.Tenant? ==>
            && (v == Some(UntenantedEntity) <==> e.state.Added? && !IsInitialized(e.current))
            && (v == Some(TenantChanged) <==> e.state.Modified? && e.original == ambient.tenantId)
            && v in {Some(UntenantedEntity), Some(TenantChanged), Some(TenantMismatch)})
  {
    if i > 0 {
      GuardReportsTheFirst(ambient, entries[1..], i - 1);
      assert Allowed(ambient, entries[0]);
    }
  }

  // ----- The statements of a save: all of them or none -----

  /** INSERT by key; UPDATE and DELETE by key and original tenant, which must find their row. */
  function Execute(db: Database, e: Entry): (r: Option<Database>) {
    match e.state
    case Added => if e.key in db then None else Some(db[e.key := Row(e.current, e.data)])
    case Modified =>
      if e.key in db && db[e.key].tenant == e.original then Some(db[e.key := Row(e.current, e.data)]) else None
    case Deleted => if e.key in db && db[e.key].tenant == e.original then Some(db - {e.key}) else None
    case _ => Some(db)
  }

  function ExecuteAll(db: Database, entries: seq<Entry>): (r: Option<Database>)
    decreases entries
  {
    if entries == [] then Some(db)
    else match Execute(db, entries[0])
      case None => None
      case Some(next) => ExecuteAll(next, entries[1..])
  }

  // ----- Runs -----

  datatype Operation = Query | Save(entries: seq<Entry>)

  datatype Step = Step(ambient: TenantResolution, operation: Operation)

  datatype Outcome = Rows(rows: Database) | Saved | Refused(violation: Violation) | DatabaseError

  /** A tenant's own rows. */
  function View(t: TenantId, db: Database): (rows: Database)
    ensures forall k :: k in rows <==> k in db && db[k].tenant == t
    ensures forall k :: k in rows ==> rows[k] == db[k]
  {
    map k | k in db && db[k].tenant == t :: db[k]
  }

  /** Under None the filter's parameter is null, which equals no tenant. */
  function QueryOutcome(ambient: TenantResolution, db: Database): (o: Outcome) {
    match ambient
    case Invalid => Refused(InvalidTenant)
    case NoTenant => Rows(map[])
    case Tenant(t) => Rows(View(t, db))
  }

  function SaveOutcome(ambient: TenantResolution, db: Database, entries: seq<Entry>): (o: Outcome) {
    match Guard(ambient, entries)
    case Some(violation) => Refused(violation)
    case None => if ExecuteAll(db, entries).Some? then Saved else DatabaseError
  }

  function OutcomeOf(db: Database, step: Step): (o: Outcome) {
    match step.operation
    case Query => QueryOutcome(step.ambient, db)
    case Save(entries) => SaveOutcome(step.ambient, db, entries)
  }

  function After(db: Database, step: Step): (next: Database) {
    if step.operation.Save? && OutcomeOf(db, step) == Saved then ExecuteAll(db, step.operation.entries).value else db
  }

  function AfterAll(db: Database, steps: seq<Step>): (last: Database) {
    if steps == [] then db else After(AfterAll(db, steps[..|steps| - 1]), steps[|steps| - 1])
  }

  // ----- What a save does: exactly -----

  /** The row a key has once these entities are written: what the last of them to write the key leaves. */
  function RowAt(db: Database, entries: seq<Entry>, k: int): (r: Option<Row>) {
    if entries == [] then if k in db then Some(db[k]) else None
    else
      var last := entries[|entries| - 1];
      if last.key != k || last.state.Detached? || last.state.Unchanged? then RowAt(db, entries[..|entries| - 1], k)
      else if last.state.Deleted? then None
      else Some(Row(last.current, last.data))
  }

  /** An insert finds no row under its key; an update or delete finds the row of the original tenant. */
  predicate FindsItsRow(e: Entry, r: Option<Row>) {
    match e.state
    case Added => r.None?
    case Modified => r.Some? && r.value.tenant == e.original
    case Deleted => r.Some? && r.value.tenant == e.original
    case _ => true
  }

  /** The entity finds its row once those before it are written. */
  predicate FindsAt(db: Database, entries: seq<Entry>, i: nat)
    requires i < |entries|
  {
    FindsItsRow(entries[i], RowAt(db, entries[..i], entries[i].key))
  }

  predicate AllFindTheirRows(db: Database, entries: seq<Entry>) {
    forall i: nat :: i < |entries| ==> FindsAt(db, entries, i)
  }

  lemma {:induction false} ExecuteAllAppend(db: Database, entries: seq<Entry>, e: Entry)
    ensures ExecuteAll(db, entries + [e]) ==
      match ExecuteAll(db, entries) case None => None case Some(next) => Execute(next, e)
    decreases entries
  {
    if entries == [] {
      assert [] + [e] == [e] && [e][1..] == [];
      assert Execute(db, e).Some? ==> ExecuteAll(Execute(db, e).value, []) == Execute(db, e);
    } else {
      assert (entries + [e])[1..] == entries[1..] + [e];
      if Execute(db, entries[0]).Some? {
        ExecuteAllAppend(Execute(db, entries[0]).value, entries[1..], e);
      }
    }
  }

  /** A save's statements all succeed exactly when each finds its row; then every key has the row the last write left. */
  lemma {:induction false} SaveWritesIff(db: Database, entries: seq<Entry>)
    ensures ExecuteAll(db, entries).Some? <==> AllFindTheirRows(db, entries)
    ensures ExecuteAll(db, entries).Some? ==> var after := ExecuteAll(db, entries).value;
      forall k: int :: RowAt(db, entries, k) == if k in after then Some(after[k]) else None
  {
    if entries != [] {
      var n := |entries| - 1;
      var first, last := entries[..n], entries[n];
      assert entries == first + [last];
      ExecuteAllAppend(db, first, last);
      SaveWritesIff(db, first);
      AllButTheLast(db, entries);
      if AllFindTheirRows(db, first) {
        var before := ExecuteAll(db, first).value;
        if Execute(before, last).Some? {
          var after := Execute(before, last).value;
          forall k: int ensures RowAt(db, entries, k) == if k in after then Some(after[k]) else None {
          }
        }
      }
    }
  }

  lemma FindsAtInPrefix(db: Database, entries: seq<Entry>, n: nat, i: nat)
    requires i < n <= |entries|
    ensures FindsAt(db, entries[..n], i) <==> FindsAt(db, entries, i)
  {
    assert entries[..n][..i] == entries[..i];
  }

  lemma AllButTheLast(db: Database, entries: seq<Entry>)
    requires entries != []
    ensures var n := |entries| - 1;
      AllFindTheirRows(db, entries) <==> AllFindTheirRows(db, entries[..n]) && FindsAt(db, entries, n)
  {
    var n := |entries| - 1;
    forall i: nat | i < n ensures FindsAt(db, entries[..n], i) <==> FindsAt(db, entries, i) {
      FindsAtInPrefix(db, entries, n, i);
    }
  }

  /**
    One step of a tenant, in full. A query answers with all of its rows and no other. A save is refused for the guard's
    reason, turned away by the database with nothing written, or writes exactly its entities' last states.
   */
  lemma TenantStep(db: Database, t: TenantId, entries: seq<Entry>, k: int)
    ensures var answer := OutcomeOf(db, Step(Tenant(t), Query));
      && answer.Rows? && After(db, Step(Tenant(t), Query)) == db
      && (k in answer.rows <==> k in db && db[k].tenant == t)
      && (k in answer.rows ==> answer.rows[k] == db[k])
    ensures var (outcome, after) := (OutcomeOf(db, Step(Tenant(t), Save(entries))), After(db, Step(Tenant(t), Save(entries))));
      && (outcome.Refused? <==> exists e :: e in entries && !StaysIn(e, t))
      && (outcome.Saved? <==> (forall e :: e in entries ==> StaysIn(e, t)) && AllFindTheirRows(db, entries))
      && (outcome.Saved? ==> RowAt(db, entries, k) == if k in after then Some(after[k]) else None)
      && (!outcome.Saved? ==> after == db)
  {
    GuardPassesIff(Tenant(t), entries);
    assert (exists e :: e in entries && !StaysIn(e, t)) <==> !(forall e :: e in entries ==> Allowed(Tenant(t), e));
    SaveWritesIff(db, entries);
  }

  // ----- Isolation -----

  /** One statement inside a tenant leaves every other tenant's row alone, and every row in its tenant. */
  lemma ExecuteStaysIn(db: Database, e: Entry, t: TenantId, other: TenantId)
    requires StaysIn(e, t) && other != t && Execute(db, e).Some?
    ensures View(other, Execute(db, e).value) == View(other, db)
    ensures forall k :: k in db && k in Execute(db, e).value ==> Execute(db, e).value[k].tenant == db[k].tenant
  {
  }

  lemma {:induction false} ExecuteAllStaysIn(db: Database, entries: seq<Entry>, t: TenantId, other: TenantId)
    requires (forall e :: e in entries ==> StaysIn(e, t)) && other != t && ExecuteAll(db, entries).Some?
    ensures View(other, ExecuteAll(db, entries).value) == View(other, db)
    decreases entries
  {
    if entries != [] {
      ExecuteStaysIn(db, entries[0], t, other);
      ExecuteAllStaysIn(Execute(db, entries[0]).value, entries[1..], t, other);
    }
  }

  lemma {:induction false} UnwrittenChangesNothing(db: Database, entries: seq<Entry>)
    requires forall e :: e in entries ==> !IsWritten(e)
    ensures ExecuteAll(db, entries) == Some(db)
  {
    if entries != [] {
      assert entries[0] in entries;
      UnwrittenChangesNothing(db, entries[1..]);
    }
  }

  /** A step under another tenant, under None or under Invalid changes none of a tenant's rows. */
  lemma StepLeavesOthersAlone(db: Database, step: Step, t: TenantId)
    requires step.ambient != Tenant(t)
    ensures View(t, After(db, step)) == View(t, db)
    ensures !step.ambient.Tenant? ==> After(db, step) == db
  {
    if step.operation.Save? && OutcomeOf(db, step) == Saved {
      var entries := step.operation.entries;
      GuardPassesIff(step.ambient, entries);
      if step.ambient.Tenant? {
        assert forall e :: e in entries ==> Allowed(step.ambient, e);
        ExecuteAllStaysIn(db, entries, step.ambient.tenantId, t);
      } else {
        UnwrittenChangesNothing(db, entries);
      }
    }
  }

  /** Over any run in which a tenant takes no step, its rows stay as they are, whatever is forged. */
  lemma {:induction false} OthersNeverTouchATenant(db: Database, steps: seq<Step>, t: TenantId)
    requires forall s :: s in steps ==> s.ambient != Tenant(t)
    ensures View(t, AfterAll(db, steps)) == View(t, db)
  {
    if steps != [] {
      var n := |steps| - 1;
      OthersNeverTouchATenant(db, steps[..n], t);
      assert steps[n] in steps;
      StepLeavesOthersAlone(AfterAll(db, steps[..n]), steps[n], t);
    }
  }

  /** Without a tenant a run reads nothing and writes nothing; with an invalid one it gets nothing at all. */
  lemma {:induction false} NoTenantSeesAndWritesNothing(db: Database, steps: seq<Step>, last: Step)
    requires !last.ambient.Tenant? && forall s :: s in steps ==> !s.ambient.Tenant?
    ensures AfterAll(db, steps) == db
    ensures last.ambient.Invalid? ==> OutcomeOf(db, last) == Refused(InvalidTenant)
    ensures last.ambient.NoTenant? && last.operation.Query? ==> OutcomeOf(db, last) == Rows(map[])
    ensures last.ambient.NoTenant? && last.operation.Save? ==>
      (OutcomeOf(db, last) == Saved <==> forall e :: e in last.operation.entries ==> !IsWritten(e))
  {
    if steps != [] {
      var n := |steps| - 1;
      NoTenantSeesAndWritesNothing(db, steps[..n], last);
      assert steps[n] in steps;
      StepLeavesOthersAlone(db, steps[n], TenantId(Zeros(32)));
    }
    if last.operation.Save? {
      GuardPassesIff(last.ambient, last.operation.entries);
      if forall e :: e in last.operation.entries ==> !IsWritten(e) {
        UnwrittenChangesNothing(db, last.operation.entries);
      }
    }
  }

  // ----- No row changes tenant -----

  ghost predicate KeepsTenant(before: Database, after: Database, k: int) {
    k in before && k in after ==> after[k].tenant == before[k].tenant
  }

  lemma RowsOfOthersStay(db: Database, step: Step, t: TenantId, k: int)
    requires step.ambient != Tenant(t)
    ensures k in After(db, step) && After(db, step)[k].tenant == t <==> k in db && db[k].tenant == t
  {
    StepLeavesOthersAlone(db, step, t);
    assert k in View(t, After(db, step)) <==> k in View(t, db);
  }

  lemma StepKeepsTenants(db: Database, step: Step, k: int)
    ensures KeepsTenant(db, After(db, step), k)
  {
    if k in db && k in After(db, step) {
      var was, became := db[k].tenant, After(db, step)[k].tenant;
      if step.ambient != Tenant(was) {
        RowsOfOthersStay(db, step, was, k);
      } else if step.ambient != Tenant(became) {
        RowsOfOthersStay(db, step, became, k);
      }
    }
  }

  ghost predicate PresentThroughout(db: Database, steps: seq<Step>, k: int) {
    forall n: nat :: n <= |steps| ==> k in AfterAll(db, steps[..n])
  }

  /** As long as a row exists it belongs to one tenant, over every run of every tenant. */
  lemma {:induction false} RowsNeverChangeTenant(db: Database, steps: seq<Step>, k: int)
    requires PresentThroughout(db, steps, k)
    ensures k in db && k in AfterAll(db, steps) && AfterAll(db, steps)[k].tenant == db[k].tenant
  {
    assert steps[..0] == [] && steps[..|steps|] == steps;
    assert k in AfterAll(db, steps[..0]) && k in AfterAll(db, steps[..|steps|]);
    if steps != [] {
      var m := |steps| - 1;
      forall n: nat | n <= m ensures k in AfterAll(db, steps[..m][..n]) {
        assert steps[..m][..n] == steps[..n];
      }
      RowsNeverChangeTenant(db, steps[..m], k);
      StepKeepsTenants(AfterAll(db, steps[..m]), steps[m], k);
    }
  }

  // ----- Non-interference -----

  /** An inserted key that another tenant already uses: the one thing of other tenants a save can notice. */
  ghost predicate Collides(db: Database, entries: seq<Entry>, t: TenantId) {
    exists e :: e in entries && Taken(db, e, t)
  }

  predicate Taken(db: Database, e: Entry, t: TenantId) {
    e.state.Added? && e.key in db && db[e.key].tenant != t
  }

  lemma ExecuteInView(db: Database, e: Entry, t: TenantId)
    requires StaysIn(e, t)
    ensures Taken(db, e, t) ==> Execute(db, e) == None
    ensures !Taken(db, e, t) ==> match Execute(db, e)
      case None => Execute(View(t, db), e) == None
      case Some(next) => Execute(View(t, db), e) == Some(View(t, next))
    ensures Execute(db, e).Some? ==> forall d :: Taken(Execute(db, e).value, d, t) <==> Taken(db, d, t)
  {
    if Execute(db, e).Some? && !Taken(db, e, t) && IsWritten(e) {
      var next := Execute(db, e).value;
      assert View(t, next) == Execute(View(t, db), e).value;
    }
  }

  lemma {:induction false} ExecuteAllInView(db: Database, entries: seq<Entry>, t: TenantId)
    requires forall e :: e in entries ==> StaysIn(e, t)
    ensures Collides(db, entries, t) ==> ExecuteAll(db, entries) == None
    ensures !Collides(db, entries, t) ==> match ExecuteAll(db, entries)
      case None => ExecuteAll(View(t, db), entries) == None
      case Some(next) => ExecuteAll(View(t, db), entries) == Some(View(t, next))
    decreases entries
  {
    if entries != [] {
      var first, rest := entries[0], entries[1..];
      assert entries == [first] + rest;
      ExecuteInView(db, first, t);
      if Execute(db, first).Some? {
        ExecuteAllInView(Execute(db, first).value, rest, t);
        CollidesSplits(db, Execute(db, first).value, entries, t);
      } else if !Taken(db, first, t) {
        assert Execute(View(t, db), first) == None;
      } else {
        assert Collides(db, entries, t);
      }
    }
  }

  lemma CollidesSplits(db: Database, next: Database, entries: seq<Entry>, t: TenantId)
    requires entries != [] && forall d :: Taken(next, d, t) <==> Taken(db, d, t)
    ensures Collides(db, entries, t) <==> Taken(db, entries[0], t) || Collides(next, entries[1..], t)
  {
    assert entries == [entries[0]] + entries[1..];
    if Collides(next, entries[1..], t) {
      var e :| e in entries[1..] && Taken(next, e, t);
      assert e in entries && Taken(db, e, t);
    }
    if Collides(db, entries, t) {
      var e :| e in entries && Taken(db, e, t);
      assert Taken(next, e, t);
    }
    if Taken(db, entries[0], t) {
      assert entries[0] in entries;
    }
  }

  /**
    A tenant's save does the same whether or not other tenants' rows exist, exactly when it inserts no
    key they use, or would be turned away in any case.
   */
  lemma SaveIsBlindToOthersIff(db: Database, entries: seq<Entry>, t: TenantId)
    ensures SaveOutcome(Tenant(t), db, entries) == SaveOutcome(Tenant(t), View(t, db), entries)
       <==> (Collides(db, entries, t) ==> SaveOutcome(Tenant(t), View(t, db), entries) != Saved)
  {
    GuardPassesIff(Tenant(t), entries);
    if Guard(Tenant(t), entries) == None {
      ExecuteAllInView(db, entries, t);
    }
  }

  ghost predicate Blind(db: Database, step: Step, t: TenantId) {
    step.ambient == Tenant(t) && step.operation.Save? ==> !Collides(db, step.operation.entries, t)
  }

  lemma OwnStepInView(db: Database, step: Step, t: TenantId)
    requires step.ambient == Tenant(t) && Blind(db, step, t)
    ensures OutcomeOf(View(t, db), step) == OutcomeOf(db, step)
    ensures After(View(t, db), step) == View(t, After(db, step))
  {
    assert View(t, View(t, db)) == View(t, db);
    if step.operation.Save? {
      GuardPassesIff(step.ambient, step.operation.entries);
      if Guard(step.ambient, step.operation.entries) == None {
        ExecuteAllInView(db, step.operation.entries, t);
      }
    }
  }

  function OwnSteps(steps: seq<Step>, t: TenantId): (own: seq<Step>) {
    if steps == [] then []
    else OwnSteps(steps[..|steps| - 1], t) + if steps[|steps| - 1].ambient == Tenant(t) then [steps[|steps| - 1]] else []
  }

  /** What a tenant sees of a run: the outcome of each of its own steps. */
  function Observed(db: Database, steps: seq<Step>, t: TenantId): (seen: seq<Outcome>) {
    if steps == [] then []
    else
      var n := |steps| - 1;
      Observed(db, steps[..n], t)
      + if steps[n].ambient == Tenant(t) then [OutcomeOf(AfterAll(db, steps[..n]), steps[n])] else []
  }

  ghost predicate NeverCollides(db: Database, steps: seq<Step>, t: TenantId) {
    forall n: nat :: n < |steps| ==> Blind(AfterAll(db, steps[..n]), steps[n], t)
  }

  lemma OneMoreStep(db: Database, steps: seq<Step>, step: Step, t: TenantId)
    ensures AfterAll(db, steps + [step]) == After(AfterAll(db, steps), step)
    ensures OwnSteps(steps + [step], t) == OwnSteps(steps, t) + if step.ambient == Tenant(t) then [step] else []
    ensures Observed(db, steps + [step], t)
         == Observed(db, steps, t) + if step.ambient == Tenant(t) then [OutcomeOf(AfterAll(db, steps), step)] else []
  {
    assert (steps + [step])[..|steps|] == steps;
  }

  ghost predicate SeesOnlyItsOwn(db: Database, steps: seq<Step>, t: TenantId) {
    && Observed(db, steps, t) == Observed(View(t, db), OwnSteps(steps, t), t)
    && View(t, AfterAll(db, steps)) == AfterAll(View(t, db), OwnSteps(steps, t))
  }

  lemma OneMoreStepInView(db: Database, steps: seq<Step>, step: Step, t: TenantId)
    requires SeesOnlyItsOwn(db, steps, t) && Blind(AfterAll(db, steps), step, t)
    ensures SeesOnlyItsOwn(db, steps + [step], t)
  {
    var own := OwnSteps(steps, t);
    OneMoreStep(db, steps, step, t);
    if step.ambient == Tenant(t) {
      OwnStepInView(AfterAll(db, steps), step, t);
      OneMoreStep(View(t, db), own, step, t);
    } else {
      StepLeavesOthersAlone(AfterAll(db, steps), step, t);
      assert own + [] == own;
    }
  }

  lemma NeverCollidesBefore(db: Database, steps: seq<Step>, last: Step, t: TenantId)
    requires NeverCollides(db, steps + [last], t)
    ensures NeverCollides(db, steps, t) && Blind(AfterAll(db, steps), last, t)
  {
    var all, n := steps + [last], |steps|;
    assert all[..n] == steps && all[n] == last;
    assert Blind(AfterAll(db, all[..n]), all[n], t);
    forall m: nat | m < n ensures Blind(AfterAll(db, steps[..m]), steps[m], t) {
      assert all[..m] == steps[..m] && all[m] == steps[m];
      assert Blind(AfterAll(db, all[..m]), all[m], t);
    }
  }

  /**
    In a run of any number of tenants a tenant sees, step by step, what it would see alone with its own
    rows, and its rows end up the same, as long as it inserts no key that another tenant uses.
   */
  lemma {:induction false} TenantsDoNotInterfere(db: Database, steps: seq<Step>, t: TenantId)
    requires NeverCollides(db, steps, t)
    ensures SeesOnlyItsOwn(db, steps, t)
  {
    if steps != [] {
      var before, last := steps[..|steps| - 1], steps[|steps| - 1];
      assert steps == before + [last];
      NeverCollidesBefore(db, before, last, t);
      TenantsDoNotInterfere(db, before, t);
      OneMoreStepInView(db, before, last, t);
    }
  }

  /** The limit is real: a tenant that inserts a key another tenant has just used is turned away by the database. */
  lemma CollisionShows(a: TenantId, b: TenantId)
    requires IsInitialized(a) && IsInitialized(b) && a != b
    ensures
      var steps := [Step(Tenant(b), Save([Entry(1, Added, b, b, 0)])), Step(Tenant(a), Save([Entry(1, Added, a, a, 0)]))];
      Observed(map[], steps, a) == [DatabaseError] && Observed(map[], OwnSteps(steps, a), a) == [Saved]
  {
    var ours, theirs := Step(Tenant(a), Save([Entry(1, Added, a, a, 0)])), Step(Tenant(b), Save([Entry(1, Added, b, b, 0)]));
    SingleInsert(map[], b, 1, 0);
    SingleInsert(map[], a, 1, 0);
    SingleInsert(map[1 := Row(b, 0)], a, 1, 0);
    OneMoreStep(map[], [], theirs, a);
    OneMoreStep(map[], [theirs], ours, a);
    OneMoreStep(map[], [], ours, a);
    assert [] + [theirs] == [theirs] && [] + [ours] == [ours] && [theirs] + [ours] == [theirs, ours];
  }

  lemma SingleInsert(db: Database, t: TenantId, key: int, data: int)
    requires IsInitialized(t)
    ensures var step := Step(Tenant(t), Save([Entry(key, Added, t, t, data)]));
      if key in db then OutcomeOf(db, step) == DatabaseError && After(db, step) == db
      else OutcomeOf(db, step) == Saved && After(db, step) == db[key := Row(t, data)]
  {
    var e := Entry(key, Added, t, t, data);
    assert [e][1..] == [] && FirstViolation(Tenant(t), [e][1..]) == None;
    if key !in db {
      var inserted := db[key := Row(t, data)];
      assert Execute(db, e) == Some(inserted) && ExecuteAll(inserted, [e][1..]) == Some(inserted);
    }
  }
}
