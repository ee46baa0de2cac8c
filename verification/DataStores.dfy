/**
 * The two data stores of the connection tracker: the RAM store, a map of servers to maps of
 * clients, and the MySQL store, one flat table of connections and one of counters.
 *
 * Each class is specified by functions on its value (`RamSaved`, `SqlSaved`, ...); the lemmas show
 * that both refine the same status map, and what their two counters really count.
 */
module DataStores {
  import opened Connections

  // ---------------------------------------------------------------- the RAM store

  datatype ServerEntry = ServerEntry(clients: map<Endpoint, Status>, numArrivals: nat, numDepartures: nat)

  type RamTable = map<Endpoint, ServerEntry>

  const NEW_SERVER := ServerEntry(map[], 0, 0)

  function EntryOf(t: RamTable, server: Endpoint): ServerEntry {
    if server in t then t[server] else NEW_SERVER
  }

  function RamLookup(t: RamTable, k: Key): Status {
    if k.client in EntryOf(t, k.server).clients then EntryOf(t, k.server).clients[k.client] else Unknown
  }

  function RamSaved(t: RamTable, k: Key, status: Status): RamTable {
    var e := EntryOf(t, k.server);
    var arrived := k.client !in e.clients;
    var reopened := RamLookup(t, k) == Closed;
    t[k.server := ServerEntry(e.clients[k.client := status],
                              e.numArrivals + (if arrived then 1 else 0),
                              e.numDepartures + (if reopened then 1 else 0))]
  }

  function RamErased(t: RamTable, k: Key): RamTable {
    if k.server in t then t[k.server := t[k.server].(clients := t[k.server].clients - {k.client})] else t
  }

  /** unsigned long subtraction on a 64-bit machine. */
  function UnsignedDifference(x: nat, y: nat): nat {
    (x - y) % 0x1_0000_0000_0000_0000
  }

  class RamDataStore {
    var store: RamTable

    constructor ()
      ensures store == map[]
    {
      store := map[];
    }

    method Clear()
      modifies this
      ensures store == map[]
    {
      store := map[];
    }

    method Load(k: Key) returns (conn: NetworkConnection)
      ensures conn == NetworkConnection(k, RamLookup(store, k))
    {
      if k.server in store && k.client in store[k.server].clients {
        conn := NetworkConnection(k, store[k.server].clients[k.client]);
      } else {
        conn := NetworkConnection(k, Unknown);
      }
    }

    method Save(conn: NetworkConnection)
      modifies this
      ensures store == RamSaved(old(store), conn.key, conn.status)
    {
      var server, client := conn.key.server, conn.key.client;
      if server !in store {
        store := store[server := NEW_SERVER];
      }
      var e := store[server];
      if client !in e.clients {
        // an arrival
        e := e.(numArrivals := e.numArrivals + 1);
      } else if e.clients[client] == Closed {
        // a departure, booked when the closed record is overwritten
        e := e.(numDepartures := e.numDepartures + 1);
      }
      store := store[server := e.(clients := e.clients[client := conn.status])];
    }

    method Erase(k: Key)
      modifies this
      ensures store == RamErased(old(store), k)
    {
      if k.server in store {
        var e := store[k.server];
        store := store[k.server := e.(clients := e.clients - {k.client})];
      }
    }

    method NumConnectionsWith(server: Endpoint, status: Status) returns (count: nat)
      ensures count == |Having(EntryOf(store, server).clients, status)|
    {
      count := 0;
      if server in store {
        var clients := store[server].clients;
        var rest := clients.Keys;
        assert clients - rest == map[];
        while rest != {}
          invariant rest <= clients.Keys
          invariant count == |Having(clients - rest, status)|
          decreases rest
        {
          var c :| c in rest;
          HavingPut(clients - rest, c, clients[c], status);
          assert clients - (rest - {c}) == (clients - rest)[c := clients[c]];
          if clients[c] == status {
            count := count + 1;
          }
          rest := rest - {c};
        }
        assert clients - {} == clients;
      }
    }

    method NumConnections(server: Endpoint) returns (count: nat)
      ensures count == UnsignedDifference(EntryOf(store, server).numArrivals, EntryOf(store, server).numDepartures)
    {
      count := 0;
      if server in store {
        count := UnsignedDifference(store[server].numArrivals, store[server].numDepartures);
      }
    }
  }

  // ---------------------------------------------------------------- the MySQL store

  datatype Stat = Stat(numArrivals: nat, numDepartures: nat)

  datatype SqlDb = SqlDb(connections: Entries, stats: map<Endpoint, Stat>)

  function StatOf(db: SqlDb, server: Endpoint): Stat {
    if server in db.stats then db.stats[server] else Stat(0, 0)
  }

  function SqlSaved(db: SqlDb, k: Key, status: Status): SqlDb {
    var st := StatOf(db, k.server);
    var connections := db.connections[k := status];
    if status == Closed then SqlDb(connections, db.stats[k.server := st.(numDepartures := st.numDepartures + 1)])
    else if k !in db.connections then SqlDb(connections, db.stats[k.server := st.(numArrivals := st.numArrivals + 1)])
    else SqlDb(connections, db.stats)
  }

  function SqlErased(db: SqlDb, k: Key): SqlDb {
    db.(connections := db.connections - {k})
  }

  datatype CountResult = Count(n: nat) | OutOfRange

  class MysqlDataStore {
    var connections: Entries
    var stats: map<Endpoint, Stat>

    ghost function Db(): SqlDb
      reads this
    {
      SqlDb(connections, stats)
    }

    /** The tables are those the server already has. */
    constructor (existing: SqlDb)
      ensures Db() == existing
    {
      connections, stats := existing.connections, existing.stats;
    }

    method Clear()
      modifies this
      ensures Db() == SqlDb(map[], map[])
    {
      connections := map[];
      stats := map[];
    }

    method Load(k: Key) returns (conn: NetworkConnection)
      ensures conn == NetworkConnection(k, StatusOf(connections, k))
    {
      // SELECT status ... WHERE the four key columns match: no row means unknown.
      conn := NetworkConnection(k, if k in connections then connections[k] else Unknown);
    }

    method Save(conn: NetworkConnection)
      modifies this
      ensures Db() == SqlSaved(old(Db()), conn.key, conn.status)
    {
      // REPLACE affects one row when it inserts and two when it replaces.
      var rows := if conn.key in connections then 2 else 1;
      connections := connections[conn.key := conn.status];
      if rows == 1 || conn.status == Closed {
        var server := conn.key.server;
        if conn.status == Closed {
          // INSERT ... (0, 1) ON DUPLICATE KEY UPDATE num_departures = num_departures + 1
          var st := if server in stats then stats[server].(numDepartures := stats[server].numDepartures + 1) else Stat(0, 1);
          stats := stats[server := st];
        } else {
          var st := if server in stats then stats[server].(numArrivals := stats[server].numArrivals + 1) else Stat(1, 0);
          stats := stats[server := st];
        }
      }
    }

    method Erase(k: Key)
      modifies this
      ensures Db() == SqlErased(old(Db()), k)
    {
      connections := connections - {k};
    }

    /** SELECT COUNT(*) over the rows of a server, grouped by status. */
    method NumConnectionsWith(server: Endpoint, status: Status) returns (count: nat)
      ensures count == |Having(ClientsOf(connections, server), status)|
    {
      var rows := set k | k in connections && k.server == server && connections[k] == status;
      RowsAreClients(connections, server, status, rows);
      count := |rows|;
    }

    /** The difference of two unsigned columns: the query fails when it is negative. */
    method NumConnections(server: Endpoint) returns (count: CountResult)
      ensures var st := StatOf(Db(), server);
              count == if st.numDepartures <= st.numArrivals then Count(st.numArrivals - st.numDepartures) else OutOfRange
    {
      if server in stats {
        var st := stats[server];
        count := if st.numDepartures <= st.numArrivals then Count(st.numArrivals - st.numDepartures) else OutOfRange;
      } else {
        count := Count(0);
      }
    }
  }

  /** Counting a server's rows of one status is counting its clients of that status. */
  lemma RowsAreClients(e: Entries, server: Endpoint, status: Status, rows: set<Key>)
    requires rows == set k | k in e && k.server == server && e[k] == status
    ensures |rows| == |Having(ClientsOf(e, server), status)|
  {
    var clients := Having(ClientsOf(e, server), status);
    forall k | k in rows
      ensures k.client in clients && Key(server, k.client) == k
    {
      assert k in e && Key(server, k.client) == k;
    }
    forall c | c in clients
      ensures Key(server, c) in rows
    {
      assert c in ClientsOf(e, server);
    }
    SameSize(server, rows, clients);
  }

  lemma {:induction false} SameSize(server: Endpoint, rows: set<Key>, clients: set<Endpoint>)
    requires forall k :: k in rows ==> k.client in clients && Key(server, k.client) == k
    requires forall c :: c in clients ==> Key(server, c) in rows
    ensures |rows| == |clients|
  {
    if rows == {} {
      if c :| c in clients {
        assert Key(server, c) in rows;
      }
    } else {
      var k :| k in rows;
      SameSize(server, rows - {k}, clients - {k.client});
      CardWithout(clients, k.client);
    }
  }

  // ---------------------------------------------------------------- runs of manager calls

  function RamStep(t: RamTable, op: Op): RamTable {
    match EffectOf(op, RamLookup(t, op.key))
    case Put(status) => RamSaved(t, op.key, status)
    case Drop => RamErased(t, op.key)
    case Nothing => t
  }

  function RamRun(ops: seq<Op>): RamTable {
    if |ops| == 0 then map[] else RamStep(RamRun(ops[..|ops| - 1]), ops[|ops| - 1])
  }

  function SqlStep(db: SqlDb, op: Op): SqlDb {
    match EffectOf(op, StatusOf(db.connections, op.key))
    case Put(status) => SqlSaved(db, op.key, status)
    case Drop => SqlErased(db, op.key)
    case Nothing => db
  }

  function SqlRun(ops: seq<Op>): SqlDb {
    if |ops| == 0 then SqlDb(map[], map[]) else SqlStep(SqlRun(ops[..|ops| - 1]), ops[|ops| - 1])
  }

  /** A nested table represents a flat status map: server by server, the same clients. */
  ghost predicate Represents(t: RamTable, e: Entries) {
    forall server :: EntryOf(t, server).clients == ClientsOf(e, server)
  }

  lemma LookupAgrees(t: RamTable, e: Entries, k: Key)
    requires Represents(t, e)
    ensures RamLookup(t, k) == StatusOf(e, k)
  {
    assert EntryOf(t, k.server).clients == ClientsOf(e, k.server);
    assert Key(k.server, k.client) == k;
  }

  lemma RamSavedRepresents(t: RamTable, e: Entries, k: Key, status: Status)
    requires Represents(t, e)
    ensures Represents(RamSaved(t, k, status), e[k := status])
  {
    forall server
      ensures EntryOf(RamSaved(t, k, status), server).clients == ClientsOf(e[k := status], server)
    {
      assert EntryOf(t, server).clients == ClientsOf(e, server);
      PutClients(e, k, status, server);
    }
  }

  lemma RamErasedRepresents(t: RamTable, e: Entries, k: Key)
    requires Represents(t, e)
    ensures Represents(RamErased(t, k), e - {k})
  {
    hide ClientsOf;
    forall server
      ensures EntryOf(RamErased(t, k), server).clients == ClientsOf(e - {k}, server)
    {
      assert EntryOf(t, server).clients == ClientsOf(e, server);
      DropClients(e, k, server);
    }
  }

  lemma RamStepRepresents(t: RamTable, e: Entries, op: Op)
    requires Represents(t, e)
    ensures Represents(RamStep(t, op), EntriesStep(e, op))
  {
    hide Represents, RamSaved, RamErased;
    LookupAgrees(t, e, op.key);
    match EffectOf(op, StatusOf(e, op.key)) {
      case Put(status) => RamSavedRepresents(t, e, op.key, status);
      case Drop => RamErasedRepresents(t, e, op.key);
      case Nothing =>
    }
  }

  lemma NoClients()
    ensures forall server {:trigger ClientsOf(map[], server)} :: ClientsOf(map[], server) == map[]
  {
  }

  /** On every sequence of manager calls the two stores hold the same status map. */
  lemma {:induction false} StoresRefineEntries(ops: seq<Op>)
    ensures Represents(RamRun(ops), EntriesRun(ops))
    ensures SqlRun(ops).connections == EntriesRun(ops)
  {
    if |ops| == 0 {
      NoClients();
    } else {
      var front, op := ops[..|ops| - 1], ops[|ops| - 1];
      StoresRefineEntries(front);
      RamStepRepresents(RamRun(front), EntriesRun(front), op);
      SqlStepRefines(SqlRun(front), op);
    }
  }

  lemma SqlStepRefines(db: SqlDb, op: Op)
    ensures SqlStep(db, op).connections == EntriesStep(db.connections, op)
  {
  }

  /** Hence they load the same status and count the same connections of each status. */
  lemma StoresAgree(ops: seq<Op>, k: Key, status: Status)
    ensures RamLookup(RamRun(ops), k) == StatusOf(SqlRun(ops).connections, k)
    ensures Having(EntryOf(RamRun(ops), k.server).clients, status)
            == Having(ClientsOf(SqlRun(ops).connections, k.server), status)
  {
    StoresRefineEntries(ops);
    LookupAgrees(RamRun(ops), EntriesRun(ops), k);
    assert EntryOf(RamRun(ops), k.server).clients == ClientsOf(EntriesRun(ops), k.server);
  }

  // ---------------------------------------------------------------- what the counters count

  ghost predicate RamCounts(e: ServerEntry, t: Tally) {
    e.numArrivals == |e.clients| + t.erased && e.numDepartures == t.reopened
  }

  lemma RamStepCounts(t: RamTable, op: Op, tally: Tally)
    requires RamCounts(EntryOf(t, op.key.server), tally)
    ensures var current := RamLookup(t, op.key);
            RamCounts(EntryOf(RamStep(t, op), op.key.server),
                      TallyEffect(tally, EffectOf(op, current), current, op.key.client in EntryOf(t, op.key.server).clients))
  {
    var k := op.key;
    var m := EntryOf(t, k.server).clients;
    match EffectOf(op, RamLookup(t, k)) {
      case Put(status) => SizePut(m, k.client, status);
      case Drop => SizeDrop(m, k.client);
      case Nothing =>
    }
  }

  lemma OtherServersUntouched(t: RamTable, op: Op, server: Endpoint)
    requires op.key.server != server
    ensures EntryOf(RamStep(t, op), server) == EntryOf(t, server)
  {
  }

  lemma StoredKey(e: Entries, k: Key)
    ensures k in e <==> k.client in ClientsOf(e, k.server)
  {
    assert Key(k.server, k.client) == k;
  }

  /**
   * RAM store: arrivals are the clients stored now and the clients ever erased; departures are
   * the records that were reopened after being closed.
   */
  lemma {:induction false} RamConservation(ops: seq<Op>, server: Endpoint)
    ensures RamCounts(EntryOf(RamRun(ops), server), TallyRun(server, ops))
  {
    if |ops| > 0 {
      var front, op := ops[..|ops| - 1], ops[|ops| - 1];
      RamConservation(front, server);
      StoresRefineEntries(front);
      if op.key.server == server {
        LookupAgrees(RamRun(front), EntriesRun(front), op.key);
        StoredKey(EntriesRun(front), op.key);
        RamStepCounts(RamRun(front), op, TallyRun(server, front));
      } else {
        OtherServersUntouched(RamRun(front), op, server);
      }
    }
  }

  ghost predicate SqlCounts(st: Stat, clients: map<Endpoint, Status>, t: Tally) {
    st.numArrivals == |clients| + t.erased && st.numDepartures == t.closed
  }

  lemma SqlStepCounts(db: SqlDb, op: Op, tally: Tally)
    requires SqlCounts(StatOf(db, op.key.server), ClientsOf(db.connections, op.key.server), tally)
    ensures var current := StatusOf(db.connections, op.key);
            SqlCounts(StatOf(SqlStep(db, op), op.key.server), ClientsOf(SqlStep(db, op).connections, op.key.server),
                      TallyEffect(tally, EffectOf(op, current), current, op.key in db.connections))
  {
    hide ClientsOf, SqlCounts;
    var e, k := db.connections, op.key;
    StoredKey(e, k);
    match EffectOf(op, StatusOf(e, k)) {
      case Put(status) =>
        PutClients(e, k, status, k.server);
        SqlPutCounts(db, k, status, ClientsOf(e, k.server), tally);
      case Drop =>
        DropClients(e, k, k.server);
        SqlDropCounts(db, k, ClientsOf(e, k.server), tally);
      case Nothing =>
    }
  }

  lemma SqlDropCounts(db: SqlDb, k: Key, m: map<Endpoint, Status>, tally: Tally)
    requires SqlCounts(StatOf(db, k.server), m, tally)
    requires k in db.connections <==> k.client in m
    ensures SqlCounts(StatOf(SqlErased(db, k), k.server), m - {k.client},
                      TallyEffect(tally, Drop, StatusOf(db.connections, k), k in db.connections))
  {
    SizeDrop(m, k.client);
  }

  /** Only a connection already stored is ever saved as closed. */
  lemma SqlPutCounts(db: SqlDb, k: Key, status: Status, m: map<Endpoint, Status>, tally: Tally)
    requires SqlCounts(StatOf(db, k.server), m, tally)
    requires k in db.connections <==> k.client in m
    requires status == Closed ==> k in db.connections
    ensures SqlCounts(StatOf(SqlSaved(db, k, status), k.server), m[k.client := status],
                      TallyEffect(tally, Put(status), StatusOf(db.connections, k), k in db.connections))
  {
    SizePut(m, k.client, status);
  }

  lemma OtherRowsUntouched(db: SqlDb, op: Op, server: Endpoint)
    requires op.key.server != server
    ensures StatOf(SqlStep(db, op), server) == StatOf(db, server)
    ensures ClientsOf(SqlStep(db, op).connections, server) == ClientsOf(db.connections, server)
  {
    match EffectOf(op, StatusOf(db.connections, op.key)) {
      case Put(status) => PutClients(db.connections, op.key, status, server);
      case Drop => DropClients(db.connections, op.key, server);
      case Nothing =>
    }
  }

  /** MySQL store: arrivals likewise, but departures are the connections that were closed. */
  lemma {:induction false} SqlConservation(ops: seq<Op>, server: Endpoint)
    ensures SqlCounts(StatOf(SqlRun(ops), server), ClientsOf(SqlRun(ops).connections, server), TallyRun(server, ops))
  {
    if |ops| == 0 {
      NoClients();
    } else {
      var front, op := ops[..|ops| - 1], ops[|ops| - 1];
      SqlConservation(front, server);
      StoresRefineEntries(front);
      if op.key.server == server {
        SqlStepCounts(SqlRun(front), op, TallyRun(server, front));
      } else {
        OtherRowsUntouched(SqlRun(front), op, server);
      }
    }
  }

  function RamBalance(ops: seq<Op>, server: Endpoint): int {
    EntryOf(RamRun(ops), server).numArrivals - EntryOf(RamRun(ops), server).numDepartures
  }

  function SqlBalance(ops: seq<Op>, server: Endpoint): int {
    StatOf(SqlRun(ops), server).numArrivals - StatOf(SqlRun(ops), server).numDepartures
  }

  ghost function LiveConnections(ops: seq<Op>, server: Endpoint): nat {
    var m := ClientsOf(EntriesRun(ops), server);
    |Having(m, Wait)| + |Having(m, Active)|
  }

  ghost function ClosedConnections(ops: seq<Op>, server: Endpoint): nat {
    |Having(ClientsOf(EntriesRun(ops), server), Closed)|
  }

  /**
   * Arrivals minus departures is not the number of live connections.  The two stores miss it by
   * different amounts, and differ from each other by the closed records stored or erased.
   */
  lemma Balances(ops: seq<Op>, server: Endpoint)
    ensures var t := TallyRun(server, ops);
            && RamBalance(ops, server)
               == LiveConnections(ops, server) + ClosedConnections(ops, server) + t.erased - t.reopened
            && SqlBalance(ops, server)
               == LiveConnections(ops, server) + (t.erased - t.erasedClosed) - t.reopened
            && RamBalance(ops, server) - SqlBalance(ops, server)
               == ClosedConnections(ops, server) + t.erasedClosed
  {
    RamConservation(ops, server);
    SqlConservation(ops, server);
    StoresRefineEntries(ops);
    ClosingsConserved(ops, server);
    CountsAddUp(ops, server);
    assert EntryOf(RamRun(ops), server).clients == ClientsOf(EntriesRun(ops), server);
  }

  /**
   * The RAM store's difference is negative, and its unsigned count of connections wraps around,
   * exactly when more closed records were opened again than there are records stored or erased.
   */
  lemma RamWrapsIff(ops: seq<Op>, server: Endpoint)
    ensures var t, e := TallyRun(server, ops), EntryOf(RamRun(ops), server);
            && (RamBalance(ops, server) < 0 <==> t.reopened > |ClientsOf(EntriesRun(ops), server)| + t.erased)
            && (UnsignedDifference(e.numArrivals, e.numDepartures) != RamBalance(ops, server)
                <==> RamBalance(ops, server) < 0 || RamBalance(ops, server) >= 0x1_0000_0000_0000_0000)
  {
    hide UnsignedDifference, ClientsOf, TallyRun, EntriesRun, RamRun;
    RamConservation(ops, server);
    StoresRefineEntries(ops);
    var e := EntryOf(RamRun(ops), server);
    assert e.clients == ClientsOf(EntriesRun(ops), server);
    UnsignedIff(e.numArrivals, e.numDepartures);
  }

  lemma UnsignedIff(x: nat, y: nat)
    ensures UnsignedDifference(x, y) != x - y <==> x < y || x - y >= 0x1_0000_0000_0000_0000
  {
  }

  /** When arrivals minus departures is the number of live connections, exactly, in each store. */
  lemma BalanceIsLiveIff(ops: seq<Op>, server: Endpoint)
    ensures var t := TallyRun(server, ops);
            && (RamBalance(ops, server) == LiveConnections(ops, server)
                <==> t.reopened == ClosedConnections(ops, server) + t.erased)
            && (SqlBalance(ops, server) == LiveConnections(ops, server)
                <==> t.reopened == t.erased - t.erasedClosed)
  {
    hide LiveConnections, ClosedConnections, RamBalance, SqlBalance, TallyRun;
    Balances(ops, server);
  }

  /** The MySQL store's difference is negative, and its query fails, when more was reopened than is live or was erased unclosed. */
  lemma SqlFailsIff(ops: seq<Op>, server: Endpoint)
    ensures var t := TallyRun(server, ops);
            SqlBalance(ops, server) < 0 <==> t.reopened > LiveConnections(ops, server) + t.erased - t.erasedClosed
  {
    hide LiveConnections, ClosedConnections, RamBalance, SqlBalance, TallyRun;
    Balances(ops, server);
  }

  /** It fails no later than the RAM store wraps around. */
  lemma SqlFailsFirst(ops: seq<Op>, server: Endpoint)
    requires RamBalance(ops, server) < 0
    ensures SqlBalance(ops, server) < 0
  {
    hide LiveConnections, ClosedConnections, RamBalance, SqlBalance, TallyRun;
    Balances(ops, server);
  }

  function LifetimeOps(k: Key): seq<Op> {
    [BeginEstablishment(k), EndEstablishment(k), EndTermination(k)]
  }

  lemma SqlRunSnoc(ops: seq<Op>, op: Op)
    ensures SqlRun(ops + [op]) == SqlStep(SqlRun(ops), op)
  {
    assert (ops + [op])[..|ops|] == ops;
  }

  /** One lifetime of a client not yet stored or stored as closed, on the MySQL counters. */
  lemma SqlLifetime(ops: seq<Op>, k: Key)
    requires StatusOf(SqlRun(ops).connections, k) == (if k in SqlRun(ops).connections then Closed else Unknown)
    ensures var db, db' := SqlRun(ops), SqlRun(ops + LifetimeOps(k));
            && k in db'.connections && db'.connections[k] == Closed
            && StatOf(db', k.server).numArrivals == StatOf(db, k.server).numArrivals + (if k in db.connections then 0 else 1)
            && StatOf(db', k.server).numDepartures == StatOf(db, k.server).numDepartures + 1
  {
    hide SqlRun;
    SqlRunSnoc(ops, BeginEstablishment(k));
    var ops1 := ops + [BeginEstablishment(k)];
    SqlRunSnoc(ops1, EndEstablishment(k));
    var ops2 := ops1 + [EndEstablishment(k)];
    SqlRunSnoc(ops2, EndTermination(k));
    assert ops2 + [EndTermination(k)] == ops + LifetimeOps(k);
  }

  /** A client that reconnects once from the same port and is closed again makes the MySQL query fail. */
  lemma ReconnectingOnceFailsSql(k: Key)
    ensures SqlBalance(LifetimeOps(k) + LifetimeOps(k), k.server) == -1
  {
    hide SqlStep;
    var life := LifetimeOps(k);
    assert [] + life == life && SqlRun([]) == SqlDb(map[], map[]);
    SqlLifetime([], k);
    SqlLifetime(life, k);
  }

  function TwiceReconnected(k: Key): seq<Op> {
    [BeginEstablishment(k), EndEstablishment(k), EndTermination(k)]
    + [BeginEstablishment(k), EndEstablishment(k), EndTermination(k)] + [BeginEstablishment(k)]
  }

  /** One client that reconnects twice from the same port drives the RAM balance below zero. */
  lemma ReconnectingTwice(k: Key)
    ensures RamBalance(TwiceReconnected(k), k.server) == -1
    ensures var e := EntryOf(RamRun(TwiceReconnected(k)), k.server);
            UnsignedDifference(e.numArrivals, e.numDepartures) == 0xFFFF_FFFF_FFFF_FFFF
  {
    hide RamSaved, RamErased, UnsignedDifference;
    var life := [BeginEstablishment(k), EndEstablishment(k), EndTermination(k)];
    assert [] + life == life;
    RamLifetime([], k);
    RamLifetime(life, k);
    Reopened(life + life, k);
    assert UnsignedDifference(1, 2) == 0xFFFF_FFFF_FFFF_FFFF by { WrapsOnce(); }
  }

  lemma WrapsOnce()
    ensures UnsignedDifference(1, 2) == 0xFFFF_FFFF_FFFF_FFFF
  {
  }

  /** A SYN on a closed record: no arrival, and a departure. */
  lemma Reopened(ops: seq<Op>, k: Key)
    requires RamLookup(RamRun(ops), k) == Closed
    ensures var e, e' := EntryOf(RamRun(ops), k.server), EntryOf(RamRun(ops + [BeginEstablishment(k)]), k.server);
            e'.numArrivals == e.numArrivals && e'.numDepartures == e.numDepartures + 1
  {
    RamRunSnoc(ops, BeginEstablishment(k));
  }

  /** So the unsigned count of connections can be the largest number there is. */
  lemma RamBalanceCanGoNegative(k: Key)
    ensures exists ops :: RamBalance(ops, k.server) == -1
                          && UnsignedDifference(EntryOf(RamRun(ops), k.server).numArrivals,
                                                EntryOf(RamRun(ops), k.server).numDepartures) == 0xFFFF_FFFF_FFFF_FFFF
  {
    ReconnectingTwice(k);
  }

  /** One lifetime - SYN, data, FIN-ACK - of a client not yet seen or stored as closed. */
  lemma RamLifetime(ops: seq<Op>, k: Key)
    requires RamLookup(RamRun(ops), k) in {Unknown, Closed}
    ensures var ops' := ops + [BeginEstablishment(k), EndEstablishment(k), EndTermination(k)];
            var e, e' := EntryOf(RamRun(ops), k.server), EntryOf(RamRun(ops'), k.server);
            && RamLookup(RamRun(ops'), k) == Closed
            && e'.numArrivals == e.numArrivals + (if k.client in e.clients then 0 else 1)
            && e'.numDepartures == e.numDepartures + (if RamLookup(RamRun(ops), k) == Closed then 1 else 0)
  {
    RamRunSnoc(ops, BeginEstablishment(k));
    var ops1 := ops + [BeginEstablishment(k)];
    RamRunSnoc(ops1, EndEstablishment(k));
    var ops2 := ops1 + [EndEstablishment(k)];
    RamRunSnoc(ops2, EndTermination(k));
    assert ops2 + [EndTermination(k)] == ops + [BeginEstablishment(k), EndEstablishment(k), EndTermination(k)];
  }

  lemma RamRunSnoc(ops: seq<Op>, op: Op)
    ensures RamRun(ops + [op]) == RamStep(RamRun(ops), op)
  {
    assert (ops + [op])[..|ops|] == ops;
  }
}
