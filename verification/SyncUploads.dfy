/** Uploading client changes: version checks, conflicts, and why no update is lost. */
module SyncUploads {
  import opened SyncTables
  import opened Wrappers

  datatype Operation = Create | Update | Delete

  datatype Role = OwnerRole | ManagerRole | StaffRole | GuardRole | TenantRole

  /** A stored row: its columns by name, the version column and the delete mark. */
  datatype Row = Row(fields: map<string, string>, version: int, deleted: bool)

  /** A change a client uploads. `storable` says whether the database accepts the resulting row. */
  datatype Change = Change(key: Key, operation: Operation, fields: map<string, string>, version: int, storable: bool)

  type Store = map<Key, Row>

  predicate Found(s: Store, key: Key) {
    key in s && !s[key].deleted
  }

  /** Saving an entity: a new id is inserted as it is; an id that is stored already is updated in the
      columns given, and only if something differs, with the version one higher through the hook. */
  function Save(s: Store, key: Key, fields: map<string, string>, version: int): Store {
    if key !in s then s[key := Row(fields, version, false)]
    else
      var merged := Row(s[key].fields + fields, version, s[key].deleted);
      if merged == s[key] then s else s[key := merged.(version := version + 1)]
  }

  const SYNCED := map["syncStatus" := "synced"]

  /** The columns a create sets besides the client's own. */
  function CreateFields(c: Change, userId: string, role: Role): map<string, string> {
    match c.key.table
    case Properties => c.fields + map["managerId" := userId] + SYNCED
    case Tenants =>
      (if role.StaffRole? || role.GuardRole? then c.fields + map["assignedStaffId" := userId] else c.fields) + SYNCED
    case _ => c.fields + map["recordedById" := userId] + SYNCED
  }

  /** The only table with a delete-date column; removing a row of the others is an error. */
  predicate Deletable(table: Table) {
    table.Payments?
  }

  /** What becomes of one change: the store after it, or None when it is a conflict or an error. */
  function Process(s: Store, c: Change, userId: string, role: Role): Option<Store> {
    if c.key.table.OtherTable? then None
    else if c.key.table.Properties? && !role.ManagerRole? then None
    else if c.operation.Create? then
      if c.storable then Some(Save(s, c.key, CreateFields(c, userId, role), 1)) else None
    else if !Found(s, c.key) then None
    else if s[c.key].version > c.version && !(c.key.table.Tenants? && role.ManagerRole?) then None
    else if c.operation.Update? then
      if c.storable then Some(Save(s, c.key, c.fields + SYNCED, c.version + 1)) else None
    else if Deletable(c.key.table) then Some(s[c.key := s[c.key].(deleted := true)])
    else None
  }

  predicate Accepted(s: Store, c: Change, userId: string, role: Role) {
    Process(s, c, userId, role).Some?
  }

  function After(s: Store, c: Change, userId: string, role: Role): Store {
    var r := Process(s, c, userId, role);
    if r.Some? then r.value else s
  }

  // ---- One upload ----

  /** What processes a change; the lemmas about uploads hold for any such function. */
  type Processor = (Store, Change) -> Option<Store>

  function ProcessorOf(userId: string, role: Role): Processor {
    (s: Store, c: Change) => Process(s, c, userId, role)
  }

  datatype Uploaded = Uploaded(store: Store, conflicts: seq<Change>)

  /** The store and the conflicted records after the first n changes. */
  function UploadAll(process: Processor, s: Store, changes: seq<Change>, n: nat): Uploaded
    requires n <= |changes|
  {
    if n == 0 then Uploaded(s, [])
    else
      var before := UploadAll(process, s, changes, n - 1);
      match process(before.store, changes[n - 1])
      case Some(after) => Uploaded(after, before.conflicts)
      case None => Uploaded(before.store, before.conflicts + [changes[n - 1]])
  }

  class SyncService {
    var store: Store

    constructor ()
      ensures store == map[]
    {
      store := map[];
    }

    /** One change; true is a conflict. An error while saving shows as the refusal. */
    method ProcessChange(c: Change, userId: string, role: Role) returns (r: Result<bool>)
      modifies this
      ensures store == After(old(store), c, userId, role)
      ensures r == Ok(false) <==> Accepted(old(store), c, userId, role)
    {
      match c.key.table
      case OtherTable => r := Err(BadRequest);
      case Tenants => r := ProcessVersioned(c, userId, role, role.ManagerRole?);
      case Payments => r := ProcessVersioned(c, userId, role, false);
      case Properties =>
        if !role.ManagerRole? {
          return Ok(true);
        }
        r := ProcessVersioned(c, userId, role, false);
    }

    /** The part the three tables share; `overrides` lets an older version through. */
    method ProcessVersioned(c: Change, userId: string, role: Role, overrides: bool) returns (r: Result<bool>)
      requires !c.key.table.OtherTable?
      requires c.key.table.Properties? ==> role.ManagerRole?
      requires overrides == (c.key.table.Tenants? && role.ManagerRole?)
      modifies this
      ensures store == After(old(store), c, userId, role)
      ensures r == Ok(false) <==> Accepted(old(store), c, userId, role)
    {
      if c.operation.Create? {
        if !c.storable {
          return Err(BadRequest);
        }
        store := Save(store, c.key, CreateFields(c, userId, role), 1);
        return Ok(false);
      }
      if !Found(store, c.key) {
        return Ok(true);
      }
      var existing := store[c.key];
      if existing.version > c.version && !overrides {
        return Ok(true);
      }
      if c.operation.Update? {
        if !c.storable {
          return Err(BadRequest);
        }
        store := Save(store, c.key, c.fields + SYNCED, c.version + 1);
      } else {
        if !Deletable(c.key.table) {
          return Err(BadRequest);
        }
        store := store[c.key := existing.(deleted := true)];
      }
      r := Ok(false);
    }

    method UploadChanges(changes: seq<Change>, userId: string, role: Role) returns (conflictedRecords: seq<Change>)
      modifies this
      ensures Uploaded(store, conflictedRecords) == UploadAll(ProcessorOf(userId, role), old(store), changes, |changes|)
    {
      conflictedRecords := [];
      for i := 0 to |changes|
        invariant Uploaded(store, conflictedRecords) == UploadAll(ProcessorOf(userId, role), old(store), changes, i)
      {
        var change := changes[i];
        var hasConflict := ProcessChange(change, userId, role);
        if hasConflict != Ok(false) {
          conflictedRecords := conflictedRecords + [change];
        }
      }
    }
  }

  /** Whether the change at position p was refused when its turn came. */
  predicate RefusedInTurn(process: Processor, s: Store, changes: seq<Change>, p: nat)
    requires p < |changes|
  {
    process(UploadAll(process, s, changes, p).store, changes[p]).None?
  }

  /** The applied ones of the first n changes, in order. */
  function AcceptedOf(process: Processor, s: Store, changes: seq<Change>, n: nat): seq<Change>
    requires n <= |changes|
  {
    if n == 0 then []
    else AcceptedOf(process, s, changes, n - 1)
         + if RefusedInTurn(process, s, changes, n - 1) then [] else [changes[n - 1]]
  }

  lemma {:induction false} UploadOfPrefix(process: Processor, s: Store, changes: seq<Change>, more: seq<Change>, n: nat)
    requires n <= |changes|
    ensures UploadAll(process, s, changes + more, n) == UploadAll(process, s, changes, n)
  {
    if n == 0 {
    } else {
      UploadOfPrefix(process, s, changes, more, n - 1);
    }
  }

  /** Leaving out the conflicted records changes nothing: the applied changes alone give the same store,
      and none of them is in conflict. */
  lemma {:induction false} ConflictsLeaveNoTrace(process: Processor, s: Store, changes: seq<Change>, n: nat)
    requires n <= |changes|
    ensures var accepted := AcceptedOf(process, s, changes, n);
            UploadAll(process, s, accepted, |accepted|) == Uploaded(UploadAll(process, s, changes, n).store, [])
  {
    if n == 0 {
    } else {
      var before := AcceptedOf(process, s, changes, n - 1);
      ConflictsLeaveNoTrace(process, s, changes, n - 1);
      if RefusedInTurn(process, s, changes, n - 1) {
        assert AcceptedOf(process, s, changes, n) == before;
      } else {
        UploadOfPrefix(process, s, before, [changes[n - 1]], |before|);
      }
    }
  }

  /** The conflicted records keep the order of the upload, and they are exactly the changes refused
      when their turn came. */
  lemma {:induction false} ConflictsInOrder(process: Processor, s: Store, changes: seq<Change>, n: nat)
    returns (positions: seq<nat>)
    requires n <= |changes|
    ensures |positions| == |UploadAll(process, s, changes, n).conflicts|
    ensures forall i :: 0 <= i < |positions| ==>
              positions[i] < n && changes[positions[i]] == UploadAll(process, s, changes, n).conflicts[i]
    ensures forall i, j :: 0 <= i < j < |positions| ==> positions[i] < positions[j]
    ensures forall p: nat :: p < n ==> (p in positions <==> RefusedInTurn(process, s, changes, p))
  {
    positions := [];
    if n == 0 {
    } else {
      positions := ConflictsInOrder(process, s, changes, n - 1);
      if RefusedInTurn(process, s, changes, n - 1) {
        positions := positions + [n - 1];
      }
    }
  }

  // ---- No update is lost ----

  /** What can happen to the store: a client's change, a save by another service, which raises the
      version by one, or a bulk update, which leaves it. */
  datatype Event =
    | ClientChange(change: Change, userId: string, role: Role)
    | ServiceSave(key: Key, fields: map<string, string>)
    | BulkUpdate(key: Key, fields: map<string, string>)

  function Next(s: Store, e: Event): Store {
    match e
    case ClientChange(c, userId, role) => After(s, c, userId, role)
    case ServiceSave(key, fields) =>
      if Found(s, key) then Save(s, key, fields, s[key].version) else s
    case BulkUpdate(key, fields) => if key in s then s[key := s[key].(fields := s[key].fields + fields)] else s
  }

  function StoreAt(s: Store, events: seq<Event>, n: nat): Store
    requires n <= |events|
  {
    if n == 0 then s else Next(StoreAt(s, events, n - 1), events[n - 1])
  }

  /** Tables whose version check has no override. */
  predicate Checked(key: Key) {
    key.table.Properties? || key.table.Payments?
  }

  /** A create that names a stored id: it saves over the row and sets its version back. */
  predicate SetsBack(s: Store, e: Event, key: Key) {
    e.ClientChange? && e.change.operation.Create? && e.change.key == key && Accepted(s, e.change, e.userId, e.role)
    && key in s && s[key].version > 2
  }

  /** Versions only fall through a create over a stored row, and then always, to 2. */
  lemma VersionFallsIff(s: Store, e: Event, key: Key)
    requires key in s && Checked(key)
    ensures key in Next(s, e)
    ensures Next(s, e)[key].version < s[key].version <==> SetsBack(s, e, key)
    ensures SetsBack(s, e, key) ==> Next(s, e)[key].version == 2
  {
  }

  /** No event from one position to another sets the row back. */
  predicate NeverSetsBack(s: Store, events: seq<Event>, key: Key, from: nat, to: nat)
    requires from <= to <= |events|
  {
    from == to
    || (NeverSetsBack(s, events, key, from, to - 1) && !SetsBack(StoreAt(s, events, to - 1), events[to - 1], key))
  }

  lemma {:induction false} VersionsRise(s: Store, events: seq<Event>, key: Key, i: nat, j: nat)
    requires i <= j <= |events| && NeverSetsBack(s, events, key, i, j) && Checked(key)
    requires key in StoreAt(s, events, i)
    ensures key in StoreAt(s, events, j)
    ensures StoreAt(s, events, i)[key].version <= StoreAt(s, events, j)[key].version
  {
    if i == j {
    } else {
      VersionsRise(s, events, key, i, j - 1);
      VersionFallsIff(StoreAt(s, events, j - 1), events[j - 1], key);
    }
  }

  /** An update of a checked table goes through: the row is there, not newer than the version claimed,
      the role may write the table and the database takes the row. */
  predicate AppliesUpdate(s: Store, e: Event) {
    && e.ClientChange? && e.change.operation.Update? && Checked(e.change.key)
    && Found(s, e.change.key) && s[e.change.key].version <= e.change.version
    && (e.change.key.table.Properties? ==> e.role.ManagerRole?) && e.change.storable
  }

  lemma AppliesIsAccepted(s: Store, e: Event)
    requires e.ClientChange? && e.change.operation.Update? && Checked(e.change.key)
    ensures AppliesUpdate(s, e) <==> Accepted(s, e.change, e.userId, e.role)
    ensures AppliesUpdate(s, e) ==>
              e.change.key in Next(s, e) && Next(s, e)[e.change.key].version == e.change.version + 2
    ensures !AppliesUpdate(s, e) ==> Next(s, e) == s
  {
  }

  /** The client of event i claims a version that the row had when it was downloaded, at time d. */
  ghost predicate Downloaded(s: Store, events: seq<Event>, i: nat, d: nat)
    requires d <= i < |events|
  {
    && events[i].ClientChange?
    && var key := events[i].change.key;
       key in StoreAt(s, events, d) && StoreAt(s, events, d)[key].version == events[i].change.version
  }

  /** An applied update was based on the version stored at that very moment, unless the row was set back
      since the download; storage moves two on, one set by the service and one by the hook. */
  lemma AppliedMeansCurrent(s: Store, events: seq<Event>, i: nat, d: nat)
    requires d <= i < |events| && Downloaded(s, events, i, d)
    requires AppliesUpdate(StoreAt(s, events, i), events[i]) && NeverSetsBack(s, events, events[i].change.key, d, i)
    ensures var key := events[i].change.key;
            && key in StoreAt(s, events, i) && StoreAt(s, events, i)[key].version == events[i].change.version
            && StoreAt(s, events, i + 1)[key].version == events[i].change.version + 2
  {
    VersionsRise(s, events, events[i].change.key, d, i);
    AppliesIsAccepted(StoreAt(s, events, i), events[i]);
  }

  /** Two updates of one row that claim one version, wherever that version comes from. */
  predicate Rivals(events: seq<Event>, i: nat, j: nat)
    requires i < j < |events|
  {
    && events[i].ClientChange? && events[i].change.operation.Update? && Checked(events[i].change.key)
    && events[j].ClientChange? && events[j].change.operation.Update?
    && events[i].change.key == events[j].change.key && events[i].change.version == events[j].change.version
  }

  /** Of two such updates at most the first is applied, whatever happens before, after or to other rows,
      unless the row is set back strictly between them. */
  lemma {:induction false} SecondUpdateConflicts(s: Store, events: seq<Event>, i: nat, j: nat)
    requires i < j < |events| && Rivals(events, i, j)
    requires AppliesUpdate(StoreAt(s, events, i), events[i])
    requires NeverSetsBack(s, events, events[i].change.key, i + 1, j)
    ensures !AppliesUpdate(StoreAt(s, events, j), events[j])
    ensures StoreAt(s, events, j + 1) == StoreAt(s, events, j)
  {
    AppliesIsAccepted(StoreAt(s, events, i), events[i]);
    VersionsRise(s, events, events[i].change.key, i + 1, j);
    AppliesIsAccepted(StoreAt(s, events, j), events[j]);
  }

  /** If both are applied, the row was set back strictly between them; the position is the last such. */
  lemma {:induction false} BothAppliedMeansSetBack(s: Store, events: seq<Event>, i: nat, j: nat) returns (p: nat)
    requires i < j < |events| && Rivals(events, i, j)
    requires AppliesUpdate(StoreAt(s, events, i), events[i]) && AppliesUpdate(StoreAt(s, events, j), events[j])
    ensures i < p < j && SetsBack(StoreAt(s, events, p), events[p], events[i].change.key)
    ensures NeverSetsBack(s, events, events[i].change.key, p + 1, j)
  {
    if NeverSetsBack(s, events, events[i].change.key, i + 1, j) {
      SecondUpdateConflicts(s, events, i, j);
      assert false;
    }
    p := LastSetBack(s, events, events[i].change.key, i + 1, j);
  }

  lemma {:induction false} LastSetBack(s: Store, events: seq<Event>, key: Key, from: nat, to: nat) returns (p: nat)
    requires from <= to <= |events| && !NeverSetsBack(s, events, key, from, to)
    ensures from <= p < to && SetsBack(StoreAt(s, events, p), events[p], key)
    ensures NeverSetsBack(s, events, key, p + 1, to)
  {
    if SetsBack(StoreAt(s, events, to - 1), events[to - 1], key) {
      p := to - 1;
    } else {
      p := LastSetBack(s, events, key, from, to - 1);
    }
  }

  // ---- When a set-back lets the second update through ----

  /** A client's create or update of the row that goes through. */
  predicate ClientWrites(s: Store, e: Event, key: Key) {
    e.ClientChange? && e.change.key == key && !e.change.operation.Delete? && Accepted(s, e.change, e.userId, e.role)
  }

  predicate NoClientWrites(s: Store, events: seq<Event>, key: Key, from: nat, to: nat)
    requires from <= to <= |events|
  {
    from == to
    || (NoClientWrites(s, events, key, from, to - 1) && !ClientWrites(StoreAt(s, events, to - 1), events[to - 1], key))
  }

  /** Another service saves the row and something differs. */
  predicate ServiceWrites(s: Store, e: Event, key: Key) {
    e.ServiceSave? && e.key == key && Found(s, key) && s[key].fields + e.fields != s[key].fields
  }

  function ServiceSaves(s: Store, events: seq<Event>, key: Key, from: nat, to: nat): nat
    requires from <= to <= |events|
  {
    if from == to then 0
    else ServiceSaves(s, events, key, from, to - 1)
         + if ServiceWrites(StoreAt(s, events, to - 1), events[to - 1], key) then 1 else 0
  }

  lemma StepOfVersion(s: Store, e: Event, key: Key)
    requires key in s && Checked(key) && !ClientWrites(s, e, key)
    ensures key in Next(s, e)
    ensures Next(s, e)[key].version == s[key].version + if ServiceWrites(s, e, key) then 1 else 0
  {
  }

  /** Between clients' writes the version rises by one a save. */
  lemma {:induction false} VersionCountsSaves(s: Store, events: seq<Event>, key: Key, from: nat, to: nat)
    requires from <= to <= |events| && Checked(key) && key in StoreAt(s, events, from)
    requires NoClientWrites(s, events, key, from, to)
    ensures key in StoreAt(s, events, to)
    ensures StoreAt(s, events, to)[key].version
            == StoreAt(s, events, from)[key].version + ServiceSaves(s, events, key, from, to)
  {
    if from == to {
    } else {
      VersionCountsSaves(s, events, key, from, to - 1);
      StepOfVersion(StoreAt(s, events, to - 1), events[to - 1], key);
    }
  }

  /** From any state after which no client writes the row: an update goes through exactly when the row is
      not deleted by then, the caller may store it, and the saves since have not taken the version past the
      one it claims. */
  lemma {:induction false} UpdateGoesThroughIff(s: Store, events: seq<Event>, from: nat, j: nat)
    requires from <= j < |events| && events[j].ClientChange? && events[j].change.operation.Update?
    requires Checked(events[j].change.key) && events[j].change.key in StoreAt(s, events, from)
    requires NoClientWrites(s, events, events[j].change.key, from, j)
    ensures var e, key := events[j], events[j].change.key;
            AppliesUpdate(StoreAt(s, events, j), e)
            <==> && Found(StoreAt(s, events, j), key)
                 && e.change.storable && (key.table.Properties? ==> e.role.ManagerRole?)
                 && StoreAt(s, events, from)[key].version + ServiceSaves(s, events, key, from, j) <= e.change.version
  {
    VersionCountsSaves(s, events, events[j].change.key, from, j);
  }

  /** After a set-back the count starts at 2. */
  lemma {:induction false} SetBackLetsThroughIff(s: Store, events: seq<Event>, p: nat, j: nat)
    requires p < j < |events| && events[j].ClientChange? && events[j].change.operation.Update?
    requires Checked(events[j].change.key) && SetsBack(StoreAt(s, events, p), events[p], events[j].change.key)
    requires NoClientWrites(s, events, events[j].change.key, p + 1, j)
    ensures var e, key := events[j], events[j].change.key;
            AppliesUpdate(StoreAt(s, events, j), e)
            <==> && Found(StoreAt(s, events, j), key)
                 && e.change.storable && (key.table.Properties? ==> e.role.ManagerRole?)
                 && 2 + ServiceSaves(s, events, key, p + 1, j) <= e.change.version
  {
    VersionFallsIff(StoreAt(s, events, p), events[p], events[j].change.key);
    UpdateGoesThroughIff(s, events, p + 1, j);
  }

  /** Without the condition an update can be lost: two updates based on version 9 of a row both go through
      when, between them, a create that names the row sets its version back. */
  lemma {:induction false} SetBackLosesUpdate(row: Row, first: map<string, string>, second: map<string, string>,
                                              created: map<string, string>)
    requires row.version == 9 && !row.deleted
    ensures var key := Key(Payments, "p");
            var s: Store := map[key := row];
            var create := ClientChange(Change(key, Create, created, 0, true), "u", OwnerRole);
            var update1 := ClientChange(Change(key, Update, first, 9, true), "u", OwnerRole);
            var update2 := ClientChange(Change(key, Update, second, 9, true), "u", OwnerRole);
            var events := [update1, create, update2];
            && Downloaded(s, events, 0, 0) && AppliesUpdate(StoreAt(s, events, 0), update1)
            && Downloaded(s, events, 2, 0) && AppliesUpdate(StoreAt(s, events, 2), update2)
            && StoreAt(s, events, 1)[key].version == 11 && StoreAt(s, events, 2)[key].version == 2
  {
    var key := Key(Payments, "p");
    var s: Store := map[key := row];
    var create := ClientChange(Change(key, Create, created, 0, true), "u", OwnerRole);
    var update1 := ClientChange(Change(key, Update, first, 9, true), "u", OwnerRole);
    var update2 := ClientChange(Change(key, Update, second, 9, true), "u", OwnerRole);
    var events := [update1, create, update2];
    assert StoreAt(s, events, 0) == s;
    AppliesIsAccepted(s, update1);
    assert StoreAt(s, events, 1) == Next(s, update1);
    assert StoreAt(s, events, 2) == Next(StoreAt(s, events, 1), create);
  }
}
