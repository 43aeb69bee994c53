/** What uploads write: which changes are accepted, what the columns hold afterwards, and over whole runs. */
module SyncContents {
  import opened SyncTables
  import opened SyncUploads
  import opened Wrappers

  // ---- Which changes are accepted ----

  /** The service takes a change of a known table, of properties only from a manager; an id that is not
      stored or is deleted can only be created; a stored version above the claimed one stops it, except for a
      manager's change of a tenant; only payments can be deleted; and the database must take the row. */
  predicate Permitted(s: Store, c: Change, role: Role) {
    && c.key.table in SYNCED_TABLES
    && (c.key.table.Properties? ==> role.ManagerRole?)
    && (c.operation.Create? || (c.key in s && !s[c.key].deleted
                                && (s[c.key].version <= c.version || (c.key.table.Tenants? && role.ManagerRole?))))
    && (if c.operation.Delete? then c.key.table.Payments? else c.storable)
  }

  lemma AcceptedIffPermitted(s: Store, c: Change, userId: string, role: Role)
    ensures Accepted(s, c, userId, role) <==> Permitted(s, c, role)
  {
  }

  // ---- What one change writes ----

  const SYNC_STATUS := "syncStatus"

  /** What a create or update puts into a column, if anything: the sync status and, on a create, who manages,
      recorded or is assigned; else what the change carries. */
  function Carried(c: Change, userId: string, role: Role, column: string): Option<string> {
    if column == SYNC_STATUS then Some("synced")
    else if c.operation.Create? && c.key.table.Properties? && column == "managerId" then Some(userId)
    else if c.operation.Create? && c.key.table.Payments? && column == "recordedById" then Some(userId)
    else if c.operation.Create? && c.key.table.Tenants? && (role.StaffRole? || role.GuardRole?)
            && column == "assignedStaffId" then Some(userId)
    else if column in c.fields then Some(c.fields[column])
    else None
  }

  /** What a column of a row holds. */
  function Column(s: Store, key: Key, column: string): Option<string> {
    if key in s && column in s[key].fields then Some(s[key].fields[column]) else None
  }

  function OrElse(written: Option<string>, stored: Option<string>): Option<string> {
    if written.Some? then written else stored
  }

  /** An accepted create or update leaves in each column what it carries, and elsewhere what was stored; an
      accepted delete only marks the row; a refused change writes nothing; and no other row is touched. */
  lemma ChangeWritesWhatItCarries(s: Store, c: Change, userId: string, role: Role, column: string)
    ensures var after := After(s, c, userId, role);
            && Column(after, c.key, column)
               == (if Permitted(s, c, role) && !c.operation.Delete?
                   then OrElse(Carried(c, userId, role, column), Column(s, c.key, column))
                   else Column(s, c.key, column))
            && (Permitted(s, c, role) ==> c.key in after)
            && (c.key in after && c.key in s ==>
                  after[c.key].deleted == (s[c.key].deleted || (Permitted(s, c, role) && c.operation.Delete?)))
            && (Permitted(s, c, role) && c.key !in s ==> !after[c.key].deleted)
            && (forall key :: key != c.key ==> (key in after <==> key in s) && (key in s ==> after[key] == s[key]))
  {
    if c.operation.Create? && c.key.table in SYNCED_TABLES {
      CreateCarries(c, userId, role, column);
    }
  }

  lemma CreateCarries(c: Change, userId: string, role: Role, column: string)
    requires c.operation.Create? && c.key.table in SYNCED_TABLES
    ensures var fields := CreateFields(c, userId, role);
            Carried(c, userId, role, column) == if column in fields then Some(fields[column]) else None
  {
  }

  /** The version a change leaves: 1 for a new row, 2 over a stored one, two above the claimed one for an
      update; a save in which nothing differs leaves the version it sets, and a delete leaves it alone. */
  lemma VersionAfterChange(s: Store, c: Change, userId: string, role: Role)
    requires Permitted(s, c, role)
    ensures var version := After(s, c, userId, role)[c.key].version;
            match c.operation
            case Create => if c.key !in s then version == 1 else version == 2 || (version == 1 && s[c.key].version == 1)
            case Update => version == c.version + 2 || (version == c.version + 1 && s[c.key].version == version)
            case Delete => version == s[c.key].version
  {
  }

  // ---- Over a run ----

  /** What an event puts into a column of a row, if anything. */
  function Puts(s: Store, e: Event, key: Key, column: string): Option<string> {
    match e
    case ClientChange(c, userId, role) =>
      if c.key == key && Permitted(s, c, role) && !c.operation.Delete? then Carried(c, userId, role, column) else None
    case ServiceSave(k, fields) => 
      if k == key && key in s && !s[key].deleted && column in fields then Some(fields[column]) else None
    case BulkUpdate(k, fields) => if k == key && key in s && column in fields then Some(fields[column]) else None
  }

  lemma EventPuts(s: Store, e: Event, key: Key, column: string)
    ensures Column(Next(s, e), key, column) == OrElse(Puts(s, e, key, column), Column(s, key, column))
  {
    match e
    case ClientChange(c, userId, role) => ChangeWritesWhatItCarries(s, c, userId, role, column);
    case ServiceSave(_, _) =>
    case BulkUpdate(_, _) =>
  }

  /** No event from one position to another puts anything into the column. */
  predicate Silent(s: Store, events: seq<Event>, key: Key, column: string, from: nat, to: nat)
    requires from <= to <= |events|
  {
    from == to
    || (Silent(s, events, key, column, from, to - 1)
        && Puts(StoreAt(s, events, to - 1), events[to - 1], key, column) == None)
  }

  /** As long as nothing is put into a column it keeps what it holds. */
  lemma {:induction false} ColumnsKeep(s: Store, events: seq<Event>, key: Key, column: string, from: nat, to: nat)
    requires from <= to <= |events| && Silent(s, events, key, column, from, to)
    ensures Column(StoreAt(s, events, to), key, column) == Column(StoreAt(s, events, from), key, column)
  {
    if from == to {
    } else {
      ColumnsKeep(s, events, key, column, from, to - 1);
      EventPuts(StoreAt(s, events, to - 1), events[to - 1], key, column);
    }
  }

  /** Over any run a column holds what the last event put into it that put anything: an accepted create or
      update of a client, a save of another service, or a bulk update. */
  lemma {:induction false} ColumnsHoldLastWrite(s: Store, events: seq<Event>, key: Key, column: string, i: nat, j: nat)
    requires i < j <= |events| && Puts(StoreAt(s, events, i), events[i], key, column).Some?
    requires Silent(s, events, key, column, i + 1, j)
    ensures Column(StoreAt(s, events, j), key, column) == Puts(StoreAt(s, events, i), events[i], key, column)
  {
    EventPuts(StoreAt(s, events, i), events[i], key, column);
    ColumnsKeep(s, events, key, column, i + 1, j);
  }

  /** So an applied update is not lost: every column it carries holds what it carried until something is
      put into that column again. */
  lemma {:induction false} AppliedUpdateStays(s: Store, events: seq<Event>, i: nat, j: nat, column: string)
    requires i < j <= |events| && AppliesUpdate(StoreAt(s, events, i), events[i])
    requires column in events[i].change.fields && column != SYNC_STATUS
    requires Silent(s, events, events[i].change.key, column, i + 1, j)
    ensures Column(StoreAt(s, events, j), events[i].change.key, column) == Some(events[i].change.fields[column])
  {
    ColumnsHoldLastWrite(s, events, events[i].change.key, column, i, j);
  }
}
