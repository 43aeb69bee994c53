/** Downloading deltas: an owner's replica converges to the server, whatever writes interleave. */
module SyncReplica {
  import opened SyncTables

  /** A row and the time it was last written. */
  datatype Stamped = Stamped(row: string, updatedAt: int)

  type Database = map<Key, Stamped>

  /** What one table contributes: its rows written after `since`. */
  function Delta(db: Database, table: Table, since: int): Database {
    map k | k in db && k.table == table && db[k].updatedAt > since :: db[k]
  }

  /** The two databases hold the same rows of a table. */
  ghost predicate SameTable(a: Database, b: Database, table: Table) {
    forall k: Key :: k.table == table ==> (k in a <==> k in b) && (k in a ==> a[k] == b[k])
  }

  function RowsOf(db: Database, table: Table): Database {
    map k | k in db && k.table == table :: db[k]
  }

  /** The client between syncs, or in one: `now` was read first, then the tables are queried one by
      one. `seen` keeps each queried table as it stood at its query. */
  datatype Client =
    | Idle(replica: Database, since: int)
    | Syncing(replica: Database, since: int, now: int, queried: set<Table>, response: Database, seen: Database)

  datatype State = State(db: Database, clock: int, client: Client)

  predicate AllQueried(queried: set<Table>) {
    queried == SYNCED_TABLES
  }

  /** Writes include the client's own uploads, which come after `now` is read. */
  datatype Action = Write(key: Key, row: string) | Begin | Query(table: Table) | Finish

  /** The clock advances at every write and every reading of it. */
  function Step(s: State, a: Action): State {
    match a
    case Write(key, row) => s.(db := s.db[key := Stamped(row, s.clock + 1)], clock := s.clock + 1)
    case Begin =>
      if s.client.Idle?
      then s.(clock := s.clock + 1, client := Syncing(s.client.replica, s.client.since, s.clock + 1, {}, map[], map[]))
      else s
    case Query(table) =>
      if s.client.Syncing? && table in SYNCED_TABLES - s.client.queried
      then s.(client := s.client.(queried := s.client.queried + {table},
                                  response := s.client.response + Delta(s.db, table, s.client.since),
                                  seen := s.client.seen + RowsOf(s.db, table)))
      else s
    case Finish =>
      if s.client.Syncing? && AllQueried(s.client.queried)
      then s.(client := Idle(s.client.replica + s.client.response, s.client.now))
      else s
  }

  function Run(s: State, actions: seq<Action>): State
    decreases |actions|
  {
    if actions == [] then s else Run(Step(s, actions[0]), actions[1..])
  }

  /** A client that has downloaded nothing, asking for everything since before the first write. */
  ghost predicate Fresh(s: State) {
    s.client.Idle? && s.client.replica == map[] && s.client.since <= s.clock
    && forall k :: k in s.db ==> s.client.since < s.db[k].updatedAt <= s.clock
  }

  // ---- What every step keeps ----

  ghost predicate ClockAhead(s: State) {
    && (forall k :: k in s.db ==> s.db[k].updatedAt <= s.clock)
    && s.client.since <= s.clock
    && (s.client.Syncing? ==> s.client.since <= s.client.now <= s.clock)
  }

  /** The replica holds every row not written since the last sync began, and no row the server lacks. */
  ghost predicate UpToDate(s: State) {
    && (forall k :: k in s.db && k.table in SYNCED_TABLES && s.db[k].updatedAt <= s.client.since
                    ==> k in s.client.replica && s.client.replica[k] == s.db[k])
    && (forall k :: k in s.client.replica ==> k in s.db && k.table in SYNCED_TABLES)
  }

  /** In a sync, one key at a time: the response is what is new in what was seen, the rest of what was
      seen is in the replica already, and for a queried table later writes are stamped after `now`. */
  ghost predicate Fits(s: State, k: Key)
    requires s.client.Syncing?
  {
    var c := s.client;
    && (k in c.seen ==> k.table in c.queried && k in s.db)
    && (k in c.response <==> k in c.seen && c.seen[k].updatedAt > c.since)
    && (k in c.response ==> c.response[k] == c.seen[k])
    && (k in c.seen && c.seen[k].updatedAt <= c.since ==> k in c.replica && c.replica[k] == c.seen[k])
    && (k.table in c.queried ==>
          && (k in c.replica ==> k in c.seen)
          && (k in s.db && s.db[k].updatedAt <= c.now ==> k in c.seen && c.seen[k] == s.db[k]))
  }

  ghost predicate ResponseFits(s: State) {
    s.client.Syncing? ==> forall k :: Fits(s, k)
  }

  ghost predicate Inv(s: State) {
    ClockAhead(s) && UpToDate(s) && ResponseFits(s)
  }

  lemma WritesKeepInv(s: State, key: Key, row: string)
    requires Inv(s)
    ensures Inv(Step(s, Write(key, row)))
  {
    if s.client.Syncing? {
      var next := Step(s, Write(key, row));
      forall k ensures Fits(next, k) {
        assert Fits(s, k);
      }
    }
  }

  lemma QueriesKeepInv(s: State, table: Table)
    requires Inv(s)
    ensures Inv(Step(s, Query(table)))
  {
    if s.client.Syncing? && table in SYNCED_TABLES - s.client.queried {
      var next := Step(s, Query(table));
      forall k ensures Fits(next, k) {
        assert Fits(s, k);
      }
    }
  }

  /** Merging the response makes the replica exactly what was seen. */
  lemma MergeIsSeen(s: State)
    requires Inv(s) && s.client.Syncing? && AllQueried(s.client.queried)
    ensures s.client.replica + s.client.response == s.client.seen
  {
    var c := s.client;
    var merged := c.replica + c.response;
    forall k ensures k in merged <==> k in c.seen
             ensures k in c.seen ==> merged[k] == c.seen[k]
    {
      assert Fits(s, k);
    }
  }

  lemma FinishKeepsInv(s: State)
    requires Inv(s)
    ensures Inv(Step(s, Finish))
  {
    if s.client.Syncing? && AllQueried(s.client.queried) {
      MergeIsSeen(s);
      forall k
        ensures k in s.db && k.table in SYNCED_TABLES && s.db[k].updatedAt <= s.client.now
                ==> k in s.client.seen && s.client.seen[k] == s.db[k]
        ensures k in s.client.seen ==> k in s.db && k.table in SYNCED_TABLES
      {
        assert Fits(s, k);
      }
    }
  }

  lemma {:induction false} RunsKeepInv(s: State, actions: seq<Action>)
    requires Inv(s)
    ensures Inv(Run(s, actions))
    decreases |actions|
  {
    if actions == [] {
    } else {
      match actions[0] {
        case Write(key, row) => WritesKeepInv(s, key, row);
        case Query(table) => QueriesKeepInv(s, table);
        case Begin =>
        case Finish => FinishKeepsInv(s);
      }
      RunsKeepInv(Step(s, actions[0]), actions[1..]);
    }
  }

  // ---- Convergence ----

  predicate InSync(s: State, table: Table) {
    s.client.Syncing? && table in s.client.queried
  }

  /** A query records the table as it stands. */
  lemma QuerySees(s: State, table: Table)
    requires s.client.Syncing? && table in SYNCED_TABLES - s.client.queried && Inv(s)
    ensures InSync(Step(s, Query(table)), table)
    ensures SameTable(Step(s, Query(table)).client.seen, s.db, table)
  {
    var next := Step(s, Query(table));
    forall k: Key | k.table == table
      ensures k in next.client.seen <==> k in s.db
      ensures k in s.db ==> next.client.seen[k] == s.db[k]
    {
      assert Fits(s, k);
    }
  }

  /** Until the sync finishes, what was recorded stays, whatever is written or queried. */
  lemma {:induction false} SeenStays(s: State, actions: seq<Action>, table: Table)
    requires InSync(s, table) && Finish !in actions
    ensures InSync(Run(s, actions), table)
    ensures SameTable(Run(s, actions).client.seen, s.client.seen, table)
    decreases |actions|
  {
    if actions == [] {
    } else {
      var next := Step(s, actions[0]);
      assert actions[0] in actions && forall a :: a in actions[1..] ==> a in actions;
      StepKeepsSeen(s, actions[0], table);
      SeenStays(next, actions[1..], table);
    }
  }

  lemma StepKeepsSeen(s: State, a: Action, table: Table)
    requires InSync(s, table) && a != Finish
    ensures InSync(Step(s, a), table) && SameTable(Step(s, a).client.seen, s.client.seen, table)
  {
  }

  lemma {:induction false} RunsCompose(s: State, a: seq<Action>, b: seq<Action>)
    ensures Run(s, a + b) == Run(Run(s, a), b)
    decreases |a|
  {
    if a == [] {
      assert a + b == b;
    } else {
      assert (a + b)[1..] == a[1..] + b;
      RunsCompose(Step(s, a[0]), a[1..], b);
    }
  }

  /** In any run, however writes and queries interleave: when a sync finishes, the replica's rows of a
      table are exactly the server's at the moment that table was queried. */
  lemma ReplicaConverges(s: State, before: seq<Action>, table: Table, after: seq<Action>)
    requires Fresh(s) && Finish !in after
    requires Run(s, before).client.Syncing? && table in SYNCED_TABLES - Run(s, before).client.queried
    requires Run(s, before + [Query(table)] + after).client.Syncing?
    requires AllQueried(Run(s, before + [Query(table)] + after).client.queried)
    ensures var end := Run(s, before + [Query(table)] + after + [Finish]);
            end.client.Idle? && SameTable(end.client.replica, Run(s, before).db, table)
  {
    var q := Run(s, before);
    var seen := Step(q, Query(table));
    RunsKeepInv(s, before);
    QuerySees(q, table);
    SeenStays(seen, after, table);
    RunsCompose(s, before, [Query(table)]);
    RunsCompose(s, before + [Query(table)], after);
    RunsCompose(s, before + [Query(table)] + after, [Finish]);
    assert Run(q, [Query(table)]) == seen;
    var last := Run(seen, after);
    RunsKeepInv(s, before + [Query(table)] + after);
    MergeIsSeen(last);
    assert Run(last, [Finish]) == Step(last, Finish);
  }

  // ---- A sync gets under way, and the next one starts where it read the clock ----

  /** A sync begins whenever the client is idle, reads the clock, and has asked for nothing yet. */
  lemma BeginStarts(s: State)
    requires s.client.Idle?
    ensures Step(s, Begin).client
            == Syncing(s.client.replica, s.client.since, Step(s, Begin).clock, {}, map[], map[])
    ensures Step(s, Begin).clock > s.clock && Step(s, Begin).db == s.db
  {
  }

  /** When it finishes, the next one asks for what was written after that reading. */
  lemma {:induction false} NextSinceIsReading(s: State, actions: seq<Action>)
    requires s.client.Syncing? && Finish !in actions
    ensures Run(s, actions).client.Syncing? && Run(s, actions).client.now == s.client.now
    ensures AllQueried(Run(s, actions).client.queried) ==>
              Step(Run(s, actions), Finish).client.Idle? && Step(Run(s, actions), Finish).client.since == s.client.now
    decreases |actions|
  {
    if actions == [] {
    } else {
      assert actions[0] in actions && forall a :: a in actions[1..] ==> a in actions;
      NextSinceIsReading(Step(s, actions[0]), actions[1..]);
    }
  }

  /** A query in a sync: its table is seen, what was seen before stays, and nothing else changes. */
  lemma QueryAdds(s: State, table: Table)
    requires Inv(s) && s.client.Syncing? && table in SYNCED_TABLES - s.client.queried
    ensures var next := Step(s, Query(table));
            && Inv(next) && next.client.Syncing? && next.db == s.db && next.clock == s.clock
            && next.client.now == s.client.now && next.client.queried == s.client.queried + {table}
            && SameTable(next.client.seen, s.db, table)
            && forall t: Table :: t in s.client.queried ==> SameTable(next.client.seen, s.client.seen, t)
  {
    QueriesKeepInv(s, table);
    QuerySees(s, table);
    forall t: Table | t in s.client.queried ensures SameTable(Step(s, Query(table)).client.seen, s.client.seen, t) {
      StepKeepsSeen(s, Query(table), t);
    }
  }

  lemma SameTableTwice(a: Database, b: Database, c: Database, table: Table)
    requires SameTable(a, b, table) && SameTable(b, c, table)
    ensures SameTable(a, c, table)
  {
  }

  lemma ThreeQueries(a: State)
    requires Inv(a) && a.client.Syncing? && a.client.queried == {}
    ensures var d := Step(Step(Step(a, Query(Properties)), Query(Tenants)), Query(Payments));
            && Inv(d) && d.client.Syncing? && AllQueried(d.client.queried) && d.db == a.db && d.clock == a.clock
            && d.client.now == a.client.now
            && SameTable(d.client.seen, a.db, Properties) && SameTable(d.client.seen, a.db, Tenants)
            && SameTable(d.client.seen, a.db, Payments)
  {
    var b := Step(a, Query(Properties));
    var c := Step(b, Query(Tenants));
    var d := Step(c, Query(Payments));
    QueryAdds(a, Properties);
    QueryAdds(b, Tenants);
    QueryAdds(c, Payments);
    SameTableTwice(c.client.seen, b.client.seen, a.db, Properties);
    SameTableTwice(d.client.seen, c.client.seen, a.db, Properties);
    SameTableTwice(d.client.seen, c.client.seen, a.db, Tenants);
    assert d.client.queried == SYNCED_TABLES;
  }

  /** From any state a run can reach, an undisturbed sync brings the replica up to the server. */
  lemma {:induction false} UndisturbedSync(s: State, before: seq<Action>)
    requires Fresh(s) && Run(s, before).client.Idle?
    ensures var now := Run(s, before);
            var end := Run(now, [Begin, Query(Properties), Query(Tenants), Query(Payments), Finish]);
            && end.db == now.db && end.client.Idle? && end.client.since == end.clock > now.clock
            && SameTable(end.client.replica, now.db, Properties) && SameTable(end.client.replica, now.db, Tenants)
            && SameTable(end.client.replica, now.db, Payments)
  {
    var now := Run(s, before);
    RunsKeepInv(s, before);
    BeginKeepsInv(now);
    var a := Step(now, Begin);
    ThreeQueries(a);
    var d := Step(Step(Step(a, Query(Properties)), Query(Tenants)), Query(Payments));
    MergeIsSeen(d);
    FiveSteps(now, Begin, Query(Properties), Query(Tenants), Query(Payments), Finish);
  }

  lemma BeginKeepsInv(s: State)
    requires Inv(s)
    ensures Inv(Step(s, Begin))
  {
  }

  lemma FiveSteps(s: State, a: Action, b: Action, c: Action, d: Action, e: Action)
    ensures Run(s, [a, b, c, d, e]) == Step(Step(Step(Step(Step(s, a), b), c), d), e)
  {
    assert [a, b, c, d, e][1..] == [b, c, d, e] && [b, c, d, e][1..] == [c, d, e];
    assert [c, d, e][1..] == [d, e] && [d, e][1..] == [e] && [e][1..] == [];
    var s4 := Step(Step(Step(Step(s, a), b), c), d);
    assert Run(s4, [e]) == Run(Step(s4, e), []) == Step(s4, e);
    assert Run(Step(Step(Step(s, a), b), c), [d, e]) == Run(s4, [e]);
    assert Run(Step(Step(s, a), b), [c, d, e]) == Run(Step(Step(Step(s, a), b), c), [d, e]);
  }

  /** A write stores its row, stamped later than anything before it. */
  lemma WriteStamps(s: State, key: Key, row: string)
    requires ClockAhead(s)
    ensures var next := Step(s, Write(key, row));
            && key in next.db && next.db[key].row == row
            && (forall k :: k in s.db ==> s.db[k].updatedAt < next.db[key].updatedAt)
            && (forall k :: k != key ==> (k in next.db <==> k in s.db) && (k in s.db ==> next.db[k] == s.db[k]))
            && next.client == s.client
  {
  }
}
