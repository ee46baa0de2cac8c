/**
 * The connection manager and the packet analyzer: a passive observer of TCP opening and closing
 * (sections 3.5 and 3.6 of RFC 9293).
 */
module ConnectionTracker {
  import opened Connections
  import opened DataStores

  // ---------------------------------------------------------------- the manager

  /** The manager works on either store. */
  datatype DataStore = Ram(ram: RamDataStore) | Mysql(mysql: MysqlDataStore)

  datatype StoreState = RamState(table: RamTable) | SqlState(db: SqlDb)

  function LoadFrom(s: StoreState, k: Key): Status {
    match s
    case RamState(t) => RamLookup(t, k)
    case SqlState(db) => StatusOf(db.connections, k)
  }

  function SaveTo(s: StoreState, k: Key, status: Status): StoreState {
    match s
    case RamState(t) => RamState(RamSaved(t, k, status))
    case SqlState(db) => SqlState(SqlSaved(db, k, status))
  }

  function EraseFrom(s: StoreState, k: Key): StoreState {
    match s
    case RamState(t) => RamState(RamErased(t, k))
    case SqlState(db) => SqlState(SqlErased(db, k))
  }

  function StoreStep(s: StoreState, op: Op): StoreState {
    match EffectOf(op, LoadFrom(s, op.key))
    case Put(status) => SaveTo(s, op.key, status)
    case Drop => EraseFrom(s, op.key)
    case Nothing => s
  }

  class NetworkConnectionManager {
    const ds: DataStore

    ghost function Repr(): object {
      match ds
      case Ram(r) => r
      case Mysql(m) => m
    }

    ghost function State(): StoreState
      reads Repr()
    {
      match ds
      case Ram(r) => RamState(r.store)
      case Mysql(m) => SqlState(m.Db())
    }

    constructor (ds: DataStore)
      ensures this.ds == ds
    {
      this.ds := ds;
    }

    method Load(k: Key) returns (conn: NetworkConnection)
      ensures conn == NetworkConnection(k, LoadFrom(State(), k))
    {
      match ds
      case Ram(r) => conn := r.Load(k);
      case Mysql(m) => conn := m.Load(k);
    }

    method Save(conn: NetworkConnection)
      modifies Repr()
      ensures State() == SaveTo(old(State()), conn.key, conn.status)
    {
      match ds
      case Ram(r) => r.Save(conn);
      case Mysql(m) => m.Save(conn);
    }

    method Erase(k: Key)
      modifies Repr()
      ensures State() == EraseFrom(old(State()), k)
    {
      match ds
      case Ram(r) => r.Erase(k);
      case Mysql(m) => m.Erase(k);
    }

    method BeginConnectionEstablishment(k: Key)
      modifies Repr()
      ensures State() == StoreStep(old(State()), BeginEstablishment(k))
    {
      var conn := Load(k);
      conn := conn.(status := Wait);
      Save(conn);
    }

    method EndConnectionEstablishment(k: Key)
      modifies Repr()
      ensures State() == StoreStep(old(State()), EndEstablishment(k))
    {
      var conn := Load(k);
      if conn.status == Wait {
        conn := conn.(status := Active);
        Save(conn);
      } else {
        // an unexpected record is dropped
        Erase(conn.key);
      }
    }

    method BeginConnectionTermination(k: Key)
      modifies Repr()
      ensures State() == StoreStep(old(State()), BeginTermination(k))
    {
    }

    method EndConnectionTermination(k: Key)
      modifies Repr()
      ensures State() == StoreStep(old(State()), EndTermination(k))
    {
      var conn := Load(k);
      if conn.status == Active {
        conn := conn.(status := Closed);
        Save(conn);
      } else {
        // an unexpected record is dropped
        Erase(conn.key);
      }
    }

    method ConnectionStatus(k: Key) returns (status: Status)
      ensures status == LoadFrom(State(), k)
    {
      var conn := Load(k);
      status := conn.status;
    }
  }

  // ---------------------------------------------------------------- packets

  datatype Packet = Packet(ipv4: bool, tcp: bool, src: Endpoint, dst: Endpoint,
                           syn: bool, fin: bool, ack: bool, payload: nat)

  /** What a packet says about the connection of one client. */
  datatype Signal = Data | FinAck | Syn | Fin | Other

  /** The client end of a packet to or from the server; a server-side source is tested first. */
  function ClientEnd(server: Endpoint, p: Packet): Endpoint {
    if p.src == server then p.dst else p.src
  }

  predicate Concerns(server: Endpoint, p: Packet) {
    p.src == server || p.dst == server
  }

  function SignalOf(server: Endpoint, p: Packet): Signal {
    if p.src == server then
      if p.payload > 0 then Data
      else if p.fin && p.ack then FinAck
      else Other
    else if p.dst == server && p.syn then Syn
    else if p.dst == server && p.fin then Fin
    else Other
  }

  /** The signals that can change a status; a client's FIN changes nothing. */
  predicate Counts(signal: Signal) {
    signal in {Data, FinAck, Syn}
  }

  /** The manager call, if any, that a signal leads to when the client's record has this status. */
  function CallFor(k: Key, signal: Signal, current: Status): seq<Op> {
    match signal
    case Data => if current == Wait then [EndEstablishment(k)] else []
    case FinAck => [EndTermination(k)]
    case Syn => [BeginEstablishment(k)]
    case Fin => [BeginTermination(k)]
    case Other => []
  }

  function Perform(s: StoreState, call: seq<Op>): StoreState {
    if |call| == 1 then StoreStep(s, call[0]) else s
  }

  function AnalyzeStep(server: Endpoint, s: StoreState, p: Packet): StoreState {
    if Concerns(server, p) then
      var k := Key(server, ClientEnd(server, p));
      Perform(s, CallFor(k, SignalOf(server, p), LoadFrom(s, k)))
    else s
  }

  function AnalyzeRun(server: Endpoint, s: StoreState, packets: seq<Packet>): StoreState {
    if |packets| == 0 then s
    else AnalyzeStep(server, AnalyzeRun(server, s, packets[..|packets| - 1]), packets[|packets| - 1])
  }

  class PacketAnalyzer {
    const server: Endpoint
    const manager: NetworkConnectionManager

    constructor (server: Endpoint, manager: NetworkConnectionManager)
      ensures this.server == server && this.manager == manager
    {
      this.server := server;
      this.manager := manager;
    }

    /** Returns whether the packet raised the "IPv6 not yet implemented" exception. */
    method Process(p: Packet) returns (thrown: bool)
      modifies manager.Repr()
      ensures thrown <==> !p.ipv4
      ensures manager.State() == if thrown then old(manager.State()) else AnalyzeStep(server, old(manager.State()), p)
    {
      if !p.ipv4 {
        return true;
      }
      thrown := false;
      if p.src == server {
        // from the server
        var k := Key(server, p.dst);
        if p.payload > 0 {
          var status := manager.ConnectionStatus(k);
          if status == Wait {
            manager.EndConnectionEstablishment(k);
          }
        } else if p.fin {
          if p.ack {
            manager.EndConnectionTermination(k);
          }
        }
      } else if p.dst == server {
        // to the server
        var k := Key(server, p.src);
        if p.syn {
          manager.BeginConnectionEstablishment(k);
        } else if p.fin {
          manager.BeginConnectionTermination(k);
        }
      }
    }

    /** The packets taken from the queue one after the other, up to one that throws. */
    method ProcessAll(packets: seq<Packet>)
      requires forall i :: 0 <= i < |packets| ==> packets[i].ipv4
      modifies manager.Repr()
      ensures manager.State() == AnalyzeRun(server, old(manager.State()), packets)
    {
      for i := 0 to |packets|
        invariant manager.State() == AnalyzeRun(server, old(manager.State()), packets[..i])
      {
        assert packets[..i + 1][..i] == packets[..i];
        var thrown := Process(packets[i]);
      }
      assert packets[..|packets|] == packets;
    }
  }

  /** Which call a signal leads to, and whether the manager drops the record, at any status. */
  lemma GarbageBranches(k: Key, signal: Signal, current: Status)
    ensures forall op :: op in CallFor(k, signal, current) && op.EndEstablishment? ==> EffectOf(op, current) == Put(Active)
    ensures (exists op :: op in CallFor(k, signal, current) && EffectOf(op, current) == Drop)
            <==> signal == FinAck && current != Active
  {
    if signal == FinAck {
      assert EndTermination(k) in CallFor(k, signal, current);
    }
  }

  // ---------------------------------------------------------------- one client's own history

  /** The signals of one client, in order, out of a trace of all packets. */
  function OwnSignals(server: Endpoint, client: Endpoint, packets: seq<Packet>): seq<Signal> {
    if |packets| == 0 then []
    else
      var p := packets[|packets| - 1];
      var before := OwnSignals(server, client, packets[..|packets| - 1]);
      if Concerns(server, p) && ClientEnd(server, p) == client && Counts(SignalOf(server, p))
      then before + [SignalOf(server, p)] else before
  }

  datatype Opening = Never | Since(signals: seq<Signal>)

  /** What followed the last SYN. */
  function SinceLastSyn(signals: seq<Signal>): Opening {
    if |signals| == 0 then Never
    else if signals[|signals| - 1] == Syn then Since([])
    else
      match SinceLastSyn(signals[..|signals| - 1])
      case Never => Never
      case Since(rest) => Since(rest + [signals[|signals| - 1]])
  }

  function FinAcks(signals: seq<Signal>): nat {
    if |signals| == 0 then 0
    else FinAcks(signals[..|signals| - 1]) + (if signals[|signals| - 1] == FinAck then 1 else 0)
  }

  /**
   * The status that a client's own packets since its last SYN determine: waiting if nothing
   * followed, active if only server data followed, closed if data came first and exactly one
   * FIN-ACK was seen, and not stored otherwise.
   */
  function Verdict(signals: seq<Signal>): Status {
    match SinceLastSyn(signals)
    case Never => Unknown
    case Since(rest) =>
      if |rest| == 0 then Wait
      else if rest[0] == Data && FinAcks(rest) == 0 then Active
      else if rest[0] == Data && FinAcks(rest) == 1 then Closed
      else Unknown
  }

  function NextStatus(current: Status, signal: Signal): Status {
    match signal
    case Syn => Wait
    case Data => if current == Wait then Active else current
    case FinAck => if current == Active then Closed else Unknown
    case Fin => current
    case Other => current
  }

  lemma {:induction false} FinAcksPositive(signals: seq<Signal>)
    ensures |signals| > 0 && signals[0] == FinAck ==> FinAcks(signals) >= 1
  {
    if |signals| > 1 {
      FinAcksPositive(signals[..|signals| - 1]);
    }
  }

  lemma VerdictStep(signals: seq<Signal>, signal: Signal)
    requires Counts(signal)
    ensures Verdict(signals + [signal]) == NextStatus(Verdict(signals), signal)
  {
    var all := signals + [signal];
    assert all[..|signals|] == signals;
    match SinceLastSyn(signals)
    case Never =>
    case Since(rest) =>
      var rest' := rest + [signal];
      assert rest'[..|rest|] == rest;
      if |rest| > 0 {
        assert rest'[0] == rest[0];
      } else {
        assert FinAcks(rest) == 0;
      }
  }

  lemma LoadAfterStep(s: StoreState, op: Op, k: Key)
    ensures LoadFrom(StoreStep(s, op), k)
            == if k != op.key then LoadFrom(s, k)
               else match EffectOf(op, LoadFrom(s, k))
                    case Put(status) => status
                    case Drop => Unknown
                    case Nothing => LoadFrom(s, k)
  {
  }

  lemma AnalyzeOneStep(server: Endpoint, s: StoreState, p: Packet, client: Endpoint)
    ensures LoadFrom(AnalyzeStep(server, s, p), Key(server, client))
            == if Concerns(server, p) && ClientEnd(server, p) == client
               then NextStatus(LoadFrom(s, Key(server, client)), SignalOf(server, p))
               else LoadFrom(s, Key(server, client))
  {
    if Concerns(server, p) {
      var k := Key(server, ClientEnd(server, p));
      var call := CallFor(k, SignalOf(server, p), LoadFrom(s, k));
      if |call| == 1 {
        LoadAfterStep(s, call[0], Key(server, client));
      }
    }
  }

  predicate EmptyStore(s: StoreState) {
    s == RamState(map[]) || s == SqlState(SqlDb(map[], map[]))
  }

  /** For every trace over any number of clients, a client's status is the verdict on its own packets. */
  lemma {:induction false} StatusIsOwnVerdict(server: Endpoint, s: StoreState, packets: seq<Packet>, client: Endpoint)
    requires EmptyStore(s)
    ensures LoadFrom(AnalyzeRun(server, s, packets), Key(server, client))
            == Verdict(OwnSignals(server, client, packets))
  {
    if |packets| > 0 {
      var front, p := packets[..|packets| - 1], packets[|packets| - 1];
      StatusIsOwnVerdict(server, s, front, client);
      AnalyzeOneStep(server, AnalyzeRun(server, s, front), p, client);
      if Concerns(server, p) && ClientEnd(server, p) == client && Counts(SignalOf(server, p)) {
        VerdictStep(OwnSignals(server, client, front), SignalOf(server, p));
      }
    }
  }

  /** Packets of other clients, and the choice of store, make no difference. */
  lemma StatusIgnoresOthers(server: Endpoint, s1: StoreState, s2: StoreState, trace1: seq<Packet>, trace2: seq<Packet>,
                            client: Endpoint)
    requires EmptyStore(s1) && EmptyStore(s2)
    requires OwnSignals(server, client, trace1) == OwnSignals(server, client, trace2)
    ensures LoadFrom(AnalyzeRun(server, s1, trace1), Key(server, client))
            == LoadFrom(AnalyzeRun(server, s2, trace2), Key(server, client))
  {
    StatusIsOwnVerdict(server, s1, trace1, client);
    StatusIsOwnVerdict(server, s2, trace2, client);
  }

  /** No record of another server is ever created. */
  lemma {:induction false} OnlyOwnServer(server: Endpoint, s: StoreState, packets: seq<Packet>, k: Key)
    requires EmptyStore(s) && k.server != server
    ensures LoadFrom(AnalyzeRun(server, s, packets), k) == Unknown
  {
    if |packets| > 0 {
      var front, p := packets[..|packets| - 1], packets[|packets| - 1];
      OnlyOwnServer(server, s, front, k);
      var s' := AnalyzeRun(server, s, front);
      if Concerns(server, p) {
        var kp := Key(server, ClientEnd(server, p));
        var call := CallFor(kp, SignalOf(server, p), LoadFrom(s', kp));
        if |call| == 1 {
          LoadAfterStep(s', call[0], k);
        }
      }
    }
  }

  // ---------------------------------------------------------------- the packets as manager calls

  /** The manager calls that a trace leads to. */
  function Calls(server: Endpoint, packets: seq<Packet>): seq<Op> {
    if |packets| == 0 then []
    else
      var p := packets[|packets| - 1];
      var before := Calls(server, packets[..|packets| - 1]);
      if Concerns(server, p) then
        var k := Key(server, ClientEnd(server, p));
        before + CallFor(k, SignalOf(server, p), StatusOf(EntriesRun(before), k))
      else before
  }

  lemma PerformIsRun(ops: seq<Op>, call: seq<Op>)
    requires |call| <= 1
    ensures Perform(RamState(RamRun(ops)), call) == RamState(RamRun(ops + call))
    ensures Perform(SqlState(SqlRun(ops)), call) == SqlState(SqlRun(ops + call))
  {
    if |call| == 1 {
      assert (ops + call)[..|ops|] == ops;
    } else {
      assert ops + call == ops;
    }
  }

  /** The analyzer drives either store through the same calls, so every law of manager runs holds of traces. */
  lemma {:induction false} TraceIsRun(server: Endpoint, packets: seq<Packet>)
    ensures AnalyzeRun(server, RamState(map[]), packets) == RamState(RamRun(Calls(server, packets)))
    ensures AnalyzeRun(server, SqlState(SqlDb(map[], map[])), packets) == SqlState(SqlRun(Calls(server, packets)))
  {
    if |packets| > 0 {
      var front, p := packets[..|packets| - 1], packets[|packets| - 1];
      TraceIsRun(server, front);
      if Concerns(server, p) {
        var before, k := Calls(server, front), Key(server, ClientEnd(server, p));
        StoresRefineEntries(before);
        LookupAgrees(RamRun(before), EntriesRun(before), k);
        PerformIsRun(before, CallFor(k, SignalOf(server, p), StatusOf(EntriesRun(before), k)));
      }
    }
  }

  // ---------------------------------------------------------------- the garbage branches

  /**
   * On every trace, whenever the analyzer ends an establishment the client's stored record waits:
   * the branch that takes the record for garbage is never reached.
   */
  lemma {:induction false} EstablishmentIsAwaited(server: Endpoint, packets: seq<Packet>, i: nat)
    requires i < |Calls(server, packets)| && Calls(server, packets)[i].EndEstablishment?
    ensures var ops := Calls(server, packets);
            StatusOf(EntriesRun(ops[..i]), ops[i].key) == Wait
  {
    if |packets| > 0 {
      var before, ops := Calls(server, packets[..|packets| - 1]), Calls(server, packets);
      if i < |before| {
        EstablishmentIsAwaited(server, packets[..|packets| - 1], i);
        assert ops[..i] == before[..i];
      } else {
        assert ops[..i] == before;
        var p := packets[|packets| - 1];
        var k := Key(server, ClientEnd(server, p));
        GarbageBranches(k, SignalOf(server, p), StatusOf(EntriesRun(before), k));
      }
    }
  }

  /** The record of a client, in either store, after a number of packets. */
  function StoredAfter(server: Endpoint, s: StoreState, packets: seq<Packet>, n: nat, client: Endpoint): Status
    requires n <= |packets|
  {
    LoadFrom(AnalyzeRun(server, s, packets[..n]), Key(server, client))
  }

  /**
   * What one packet makes of a client's record, in the fields of the packet.  The client's SYN starts
   * it, whatever it was; data from the server make a waiting one active; a FIN-ACK without payload
   * from the server closes an active one and erases any other; all other packets leave it alone.
   */
  lemma StoredStep(server: Endpoint, s: StoreState, packets: seq<Packet>, i: nat, client: Endpoint)
    requires i < |packets|
    ensures var p, before, after := packets[i], StoredAfter(server, s, packets, i, client), StoredAfter(server, s, packets, i + 1, client);
            after == if p.src == server && p.dst == client then
                      if p.payload > 0 then (if before == Wait then Active else before)
                      else if p.fin && p.ack then (if before == Active then Closed else Unknown)
                      else before
                    else if p.src == client && p.dst == server && client != server && p.syn then Wait
                    else before
  {
    hide AnalyzeStep;
    var p := packets[i];
    assert packets[..i + 1][..i] == packets[..i] && packets[..i + 1][i] == p;
    AnalyzeOneStep(server, AnalyzeRun(server, s, packets[..i]), p, client);
  }

  /**
   * On every trace, a packet erases a client's stored record exactly if it is a FIN-ACK without
   * payload from the server to that client, whose own packets so far leave it waiting or closed.
   */
  lemma ErasedIff(server: Endpoint, s: StoreState, packets: seq<Packet>, i: nat, client: Endpoint)
    requires EmptyStore(s) && i < |packets|
    ensures var p := packets[i];
            (StoredAfter(server, s, packets, i, client) != Unknown
             && StoredAfter(server, s, packets, i + 1, client) == Unknown)
            <==> p.src == server && p.dst == client && p.payload == 0 && p.fin && p.ack
                 && Verdict(OwnSignals(server, client, packets[..i])) in {Wait, Closed}
  {
    hide AnalyzeStep, Verdict;
    var p := packets[i];
    StatusIsOwnVerdict(server, s, packets[..i], client);
    assert packets[..i + 1][..i] == packets[..i] && packets[..i + 1][i] == p;
    AnalyzeOneStep(server, AnalyzeRun(server, s, packets[..i]), p, client);
    assert Concerns(server, p) && ClientEnd(server, p) == client && SignalOf(server, p) == FinAck
           <==> p.src == server && p.dst == client && p.payload == 0 && p.fin && p.ack;
  }

  // ---------------------------------------------------------------- a trace that wraps the RAM count

  function Segment(src: Endpoint, dst: Endpoint, syn: bool, fin: bool, payload: nat): Packet {
    Packet(true, true, src, dst, syn, fin, true, payload)
  }

  /** A client opens, gets data and is closed by a FIN-ACK. */
  function Lifetime(server: Endpoint, client: Endpoint): seq<Packet> {
    [Segment(client, server, true, false, 0), Segment(server, client, false, false, 1), Segment(server, client, false, true, 0)]
  }

  lemma CallsSnoc(server: Endpoint, packets: seq<Packet>, p: Packet)
    ensures Calls(server, packets + [p])
            == if Concerns(server, p) then
                 var k := Key(server, ClientEnd(server, p));
                 Calls(server, packets) + CallFor(k, SignalOf(server, p), StatusOf(EntriesRun(Calls(server, packets)), k))
               else Calls(server, packets)
  {
    assert (packets + [p])[..|packets|] == packets;
  }

  lemma EntriesRunSnoc(ops: seq<Op>, op: Op)
    ensures EntriesRun(ops + [op]) == EntriesStep(EntriesRun(ops), op)
  {
    assert (ops + [op])[..|ops|] == ops;
  }

  lemma LifetimeCalls(server: Endpoint, packets: seq<Packet>, client: Endpoint)
    requires server != client
    ensures var k := Key(server, client);
            Calls(server, packets + Lifetime(server, client))
            == Calls(server, packets) + [BeginEstablishment(k), EndEstablishment(k), EndTermination(k)]
  {
    hide Calls, EntriesRun;
    var k, life, ops := Key(server, client), Lifetime(server, client), Calls(server, packets);
    CallsSnoc(server, packets, life[0]);
    var one := packets + [life[0]];
    assert Calls(server, one) == ops + [BeginEstablishment(k)];
    EntriesRunSnoc(ops, BeginEstablishment(k));
    assert StatusOf(EntriesRun(Calls(server, one)), k) == Wait;
    CallsSnoc(server, one, life[1]);
    var two := one + [life[1]];
    assert Calls(server, two) == ops + [BeginEstablishment(k)] + [EndEstablishment(k)];
    CallsSnoc(server, two, life[2]);
    assert packets + life == two + [life[2]];
  }

  /**
   * Seven packets of one client that reconnects twice from the same port: the RAM store then
   * reports the largest number of connections there is.
   */
  lemma ReconnectingClientWraps(server: Endpoint, client: Endpoint)
    requires server != client
    ensures var life := Lifetime(server, client);
            var s := AnalyzeRun(server, RamState(map[]), life + life + [life[0]]);
            && s.RamState?
            && var e := EntryOf(s.table, server);
               UnsignedDifference(e.numArrivals, e.numDepartures) == 0xFFFF_FFFF_FFFF_FFFF
  {
    hide AnalyzeRun, RamRun, UnsignedDifference;
    var k, life := Key(server, client), Lifetime(server, client);
    var begin := BeginEstablishment(k);
    var ops := [begin, EndEstablishment(k), EndTermination(k)];
    assert [] + life == life && Calls(server, []) == [] && [] + ops == ops;
    LifetimeCalls(server, [], client);
    LifetimeCalls(server, life, client);
    CallsSnoc(server, life + life, life[0]);
    assert Calls(server, life + life + [life[0]]) == TwiceReconnected(k);
    TraceIsRun(server, life + life + [life[0]]);
    ReconnectingTwice(k);
  }

  /** Six packets of a client that reconnects once already make the count query of the MySQL store fail. */
  lemma ReconnectingClientFailsSql(server: Endpoint, client: Endpoint)
    requires server != client
    ensures var life := Lifetime(server, client);
            var s := AnalyzeRun(server, SqlState(SqlDb(map[], map[])), life + life);
            && s.SqlState?
            && StatOf(s.db, server).numArrivals == 1 && StatOf(s.db, server).numDepartures == 2
  {
    hide AnalyzeRun;
    var k, life := Key(server, client), Lifetime(server, client);
    var ops := LifetimeOps(k);
    assert [] + life == life && Calls(server, []) == [] && [] + ops == ops;
    LifetimeCalls(server, [], client);
    LifetimeCalls(server, life, client);
    assert Calls(server, life + life) == ops + ops;
    TraceIsRun(server, life + life);
    assert SqlRun([]) == SqlDb(map[], map[]);
    hide SqlRun;
    SqlLifetime([], k);
    SqlLifetime(ops, k);
  }
}
