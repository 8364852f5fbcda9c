/** The context as it runs: a guard that loops over tracked entries, then one transaction of statements. */
module TenantDbContexts {
  import opened Options
  import opened TenantText
  import opened RequestCallers
  import opened TenantStore

  class DatabaseServer {
    var rows: Database

    constructor (rows: Database)
      ensures this.rows == rows
    {
      this.rows := rows;
    }
  }

  /** What is tracked once a save has been accepted: every written entity as it now stands. */
  function Accepted(entries: seq<Entry>): (rest: seq<Entry>) {
    if entries == [] then []
    else Accepted(entries[..|entries| - 1]) + AcceptedEntry(entries[|entries| - 1])
  }

  function AcceptedEntry(e: Entry): (kept: seq<Entry>) {
    match e.state
    case Added => [e.(state := Unchanged, original := e.current)]
    case Modified => [e.(state := Unchanged, original := e.current)]
    case Unchanged => [e]
    case _ => []
  }

  lemma {:induction false} AcceptedIsUnwritten(entries: seq<Entry>)
    ensures forall e :: e in Accepted(entries) ==> !IsWritten(e)
  {
    if entries != [] {
      AcceptedIsUnwritten(entries[..|entries| - 1]);
    }
  }

  /** After an accepted save exactly the entities that still exist are tracked, unwritten and in the tenant they are in now. */
  lemma {:induction false} AcceptedIs(entries: seq<Entry>, e: Entry)
    ensures e in Accepted(entries) <==> exists d :: d in entries && Becomes(d, e)
  {
    if entries != [] {
      var n := |entries| - 1;
      AcceptedIs(entries[..n], e);
      assert entries == entries[..n] + [entries[n]];
      assert e in AcceptedEntry(entries[n]) <==> Becomes(entries[n], e);
    }
  }

  predicate Becomes(d: Entry, e: Entry) {
    || (d.state.Unchanged? && e == d)
    || ((d.state.Added? || d.state.Modified?) && e == Entry(d.key, Unchanged, d.current, d.current, d.data))
  }

  /** A save that was accepted writes once: saving again passes and changes nothing. */
  lemma SavingAgainWritesNothing(db: Database, t: TenantId, entries: seq<Entry>)
    ensures OutcomeOf(db, Step(Tenant(t), Save(Accepted(entries)))) == Saved
    ensures After(db, Step(Tenant(t), Save(Accepted(entries)))) == db
  {
    AcceptedIsUnwritten(entries);
    GuardPassesIff(Tenant(t), Accepted(entries));
    UnwrittenChangesNothing(db, Accepted(entries));
  }

  lemma {:induction false} ViolationAt(ambient: TenantResolution, entries: seq<Entry>, i: nat)
    requires !ambient.Invalid? && i <= |entries|
    requires forall j :: 0 <= j < i ==> EntryViolation(ambient, entries[j]) == None
    ensures FirstViolation(ambient, entries) == FirstViolation(ambient, entries[i..])
  {
    if i == 0 {
      assert entries[0..] == entries;
    } else {
      ViolationAt(ambient, entries[1..], i - 1);
      assert entries[1..][i - 1..] == entries[i..];
    }
  }

  class TenantDbContext {
    const server: DatabaseServer
    const currentTenant: RequestCaller
    var entries: seq<Entry>

    constructor (server: DatabaseServer, currentTenant: RequestCaller)
      ensures this.server == server && this.currentTenant == currentTenant && entries == []
    {
      this.server, this.currentTenant, entries := server, currentTenant, [];
    }

    /** The resolution is read on every query, never kept. */
    method Query() returns (o: Outcome)
      ensures o == OutcomeOf(server.rows, Step(currentTenant.resolution, Operation.Query))
    {
      match currentTenant.resolution {
        case Tenant(t) => o := Rows(map k | k in server.rows && server.rows[k].tenant == t :: server.rows[k]);
        case NoTenant => o := Rows(map[]);
        case Invalid => o := Refused(InvalidTenant);
      }
    }

    method EnforceTenantIsolation() returns (violation: Option<Violation>)
      ensures violation == Guard(currentTenant.resolution, entries)
    {
      var resolution := currentTenant.resolution;
      if resolution.Invalid? {
        return Some(InvalidTenant);
      }
      for i := 0 to |entries|
        invariant forall j :: 0 <= j < i ==> EntryViolation(resolution, entries[j]) == None
      {
        var entry := entries[i];
        ViolationAt(resolution, entries, i);
        if entry.state.Added? || entry.state.Modified? || entry.state.Deleted? {
          if resolution.NoTenant? {
            return Some(NoTenantForWrite);
          }
          var currentTenantId := resolution.tenantId;
          if entry.state.Added? {
            if !IsInitialized(entry.current) {
              return Some(UntenantedEntity);
            }
            if entry.current != currentTenantId {
              return Some(TenantMismatch);
            }
          } else if entry.original != currentTenantId {
            return Some(TenantMismatch);
          } else if entry.state.Modified? && entry.current != entry.original {
            return Some(TenantChanged);
          }
        }
      }
      ViolationAt(resolution, entries, |entries|);
      violation := None;
    }

    /** One transaction: a statement that fails leaves the database as it was. */
    method SendStatements() returns (committed: bool)
      modifies server
      ensures committed == ExecuteAll(old(server.rows), entries).Some?
      ensures server.rows == if committed then ExecuteAll(old(server.rows), entries).value else old(server.rows)
    {
      var working := server.rows;
      for i := 0 to |entries|
        invariant server.rows == old(server.rows)
        invariant ExecuteAll(server.rows, entries) == ExecuteAll(working, entries[i..])
      {
        var result := Execute(working, entries[i]);
        if result.None? {
          return false;
        }
        working := result.value;
      }
      server.rows := working;
      committed := true;
    }

    method AcceptAllChanges()
      modifies this`entries
      ensures entries == Accepted(old(entries))
    {
      var kept: seq<Entry> := [];
      for i := 0 to |entries|
        invariant entries == old(entries) && kept == Accepted(entries[..i])
      {
        assert entries[..i + 1][..i] == entries[..i];
        kept := kept + AcceptedEntry(entries[i]);
      }
      assert entries[..|entries|] == entries;
      entries := kept;
    }

    method SaveChanges(acceptAllChangesOnSuccess: bool) returns (o: Outcome)
      modifies server, this`entries
      ensures o == OutcomeOf(old(server.rows), Step(currentTenant.resolution, Save(old(entries))))
      ensures server.rows == After(old(server.rows), Step(currentTenant.resolution, Save(old(entries))))
      ensures entries == if o == Saved && acceptAllChangesOnSuccess then Accepted(old(entries)) else old(entries)
    {
      var violation := EnforceTenantIsolation();
      if violation.Some? {
        return Refused(violation.value);
      }
      var committed := SendStatements();
      if !committed {
        return DatabaseError;
      }
      if acceptAllChangesOnSuccess {
        AcceptAllChanges();
      }
      o := Saved;
    }
  }
}
