/**
 * The vocabulary of the connection tracker: endpoints, connection states, and the abstract
 * status map that both data stores implement.
 */
module Connections {

  type Port = n: int | 0 <= n < 0x1_0000

  datatype Endpoint = Endpoint(addr: string, port: Port)

  datatype Status = Unknown | Wait | Active | Closed

  datatype Key = Key(server: Endpoint, client: Endpoint)

  datatype NetworkConnection = NetworkConnection(key: Key, status: Status)

  /** The abstract state of a data store: one status for each stored connection. */
  type Entries = map<Key, Status>

  function StatusOf(e: Entries, k: Key): Status {
    if k in e then e[k] else Unknown
  }

  /** The connections of one server. */
  ghost function ClientsOf(e: Entries, server: Endpoint): map<Endpoint, Status> {
    map k | k in e && k.server == server :: k.client := e[k]
  }

  ghost function Having(clients: map<Endpoint, Status>, status: Status): set<Endpoint> {
    set c | c in clients && clients[c] == status
  }

  ghost predicate AllKnown(e: Entries) {
    forall k :: k in e ==> e[k] != Unknown
  }

  // ---------------------------------------------------------------- manager operations

  /** The calls of the connection manager. */
  datatype Op =
    | BeginEstablishment(key: Key)
    | EndEstablishment(key: Key)
    | BeginTermination(key: Key)
    | EndTermination(key: Key)

  /** What a call does to the stored record, given the status it loads. */
  datatype Effect = Put(status: Status) | Drop | Nothing

  function EffectOf(op: Op, current: Status): Effect {
    match op
    case BeginEstablishment(_) => Put(Wait)
    case EndEstablishment(_) => if current == Wait then Put(Active) else Drop
    case BeginTermination(_) => Nothing
    case EndTermination(_) => if current == Active then Put(Closed) else Drop
  }

  function EntriesStep(e: Entries, op: Op): Entries {
    match EffectOf(op, StatusOf(e, op.key))
    case Put(status) => e[op.key := status]
    case Drop => e - {op.key}
    case Nothing => e
  }

  function EntriesRun(ops: seq<Op>): Entries {
    if |ops| == 0 then map[] else EntriesStep(EntriesRun(ops[..|ops| - 1]), ops[|ops| - 1])
  }

  lemma {:induction false} RunKnown(ops: seq<Op>)
    ensures AllKnown(EntriesRun(ops))
  {
    if |ops| > 0 {
      RunKnown(ops[..|ops| - 1]);
    }
  }

  /**
   * What each call leaves stored: a begun establishment waits whatever was there, an ended one is
   * active only if it waited, an ended termination closes only an active one, and else the record goes.
   */
  lemma StoredAfterCall(ops: seq<Op>, op: Op, k: Key)
    ensures var before, after := StatusOf(EntriesRun(ops), k), StatusOf(EntriesRun(ops + [op]), k);
            && (op.key != k || op.BeginTermination? ==> after == before)
            && (op == BeginEstablishment(k) ==> after == Wait)
            && (op == EndEstablishment(k) ==> after == if before == Wait then Active else Unknown)
            && (op == EndTermination(k) ==> after == if before == Active then Closed else Unknown)
  {
    assert (ops + [op])[..|ops|] == ops;
  }

  // ---------------------------------------------------------------- what happened to a server

  /**
   * The events of a run that concern one server: records erased, records erased while closed,
   * closed records opened again, and connections closed.
   */
  datatype Tally = Tally(erased: nat, erasedClosed: nat, reopened: nat, closed: nat)

  const NO_EVENTS := Tally(0, 0, 0, 0)

  /** Book the effect of one call on a record with the given status, stored or not. */
  function TallyEffect(t: Tally, effect: Effect, current: Status, stored: bool): Tally {
    match effect
    case Put(Closed) => t.(closed := t.closed + 1)
    case Put(_) => if current == Closed then t.(reopened := t.reopened + 1) else t
    case Drop =>
      t.(erased := t.erased + (if stored then 1 else 0),
         erasedClosed := t.erasedClosed + (if current == Closed then 1 else 0))
    case Nothing => t
  }

  function TallyStep(t: Tally, server: Endpoint, e: Entries, op: Op): Tally {
    if op.key.server != server then t
    else TallyEffect(t, EffectOf(op, StatusOf(e, op.key)), StatusOf(e, op.key), op.key in e)
  }

  function TallyRun(server: Endpoint, ops: seq<Op>): Tally {
    if |ops| == 0 then NO_EVENTS
    else
      var front := ops[..|ops| - 1];
      TallyStep(TallyRun(server, front), server, EntriesRun(front), ops[|ops| - 1])
  }

  // ---------------------------------------------------------------- lemmas about the map

  lemma PutClients(e: Entries, k: Key, status: Status, server: Endpoint)
    ensures ClientsOf(e[k := status], server)
            == if k.server == server then ClientsOf(e, server)[k.client := status] else ClientsOf(e, server)
  {
    var e' := e[k := status];
    forall c: Endpoint
      ensures Key(server, c) in e' <==> c in ClientsOf(e', server)
      ensures Key(server, c) in e <==> c in ClientsOf(e, server)
    {
      assert Key(server, c).client == c;
    }
  }

  lemma DropClients(e: Entries, k: Key, server: Endpoint)
    ensures ClientsOf(e - {k}, server)
            == if k.server == server then ClientsOf(e, server) - {k.client} else ClientsOf(e, server)
  {
    var e' := e - {k};
    forall c: Endpoint
      ensures Key(server, c) in e' <==> c in ClientsOf(e', server)
      ensures Key(server, c) in e <==> c in ClientsOf(e, server)
    {
      assert Key(server, c).client == c;
    }
  }

  lemma CardWithout(clients: set<Endpoint>, c: Endpoint)
    ensures |clients| == |clients - {c}| + (if c in clients then 1 else 0)
  {
    if c in clients {
      assert clients == (clients - {c}) + {c};
    } else {
      assert clients == clients - {c};
    }
  }

  /** Away from c itself, an update at c changes nothing. */
  lemma HavingElsewhere(m: map<Endpoint, Status>, c: Endpoint, status: Status, s: Status)
    ensures Having(m[c := status], s) - {c} == Having(m, s) - {c}
    ensures c in Having(m[c := status], s) <==> status == s
  {
  }

  lemma HavingPut(m: map<Endpoint, Status>, c: Endpoint, status: Status, s: Status)
    ensures |Having(m[c := status], s)|
            == |Having(m, s)| - (if c in m && m[c] == s then 1 else 0) + (if status == s then 1 else 0)
  {
    var before, after := Having(m, s), Having(m[c := status], s);
    assert c in before <==> c in m && m[c] == s;
    HavingElsewhere(m, c, status, s);
    hide Having;
    CardWithout(before, c);
    CardWithout(after, c);
  }

  lemma HavingDrop(m: map<Endpoint, Status>, c: Endpoint, s: Status)
    ensures |Having(m - {c}, s)| == |Having(m, s)| - (if c in m && m[c] == s then 1 else 0)
  {
    var before, after := Having(m, s), Having(m - {c}, s);
    CardWithout(before, c);
    assert before - {c} == after;
  }

  lemma SizePut(m: map<Endpoint, Status>, c: Endpoint, status: Status)
    ensures |m[c := status]| == |m| + (if c in m then 0 else 1)
  {
    assert m[c := status].Keys == m.Keys + {c};
  }

  lemma SizeDrop(m: map<Endpoint, Status>, c: Endpoint)
    ensures |m - {c}| == |m| - (if c in m then 1 else 0)
  {
    assert (m - {c}).Keys == m.Keys - {c};
  }

  /** The three per-status counts of a server add up to its stored clients. */
  lemma CountsAddUp(ops: seq<Op>, server: Endpoint)
    ensures var m := ClientsOf(EntriesRun(ops), server);
            |Having(m, Wait)| + |Having(m, Active)| + |Having(m, Closed)| == |m|
  {
    RunKnown(ops);
    Partition(ClientsOf(EntriesRun(ops), server));
  }

  lemma Partition(m: map<Endpoint, Status>)
    requires Unknown !in m.Values
    ensures |Having(m, Wait)| + |Having(m, Active)| + |Having(m, Closed)| == |m|
  {
    var w, a, c := Having(m, Wait), Having(m, Active), Having(m, Closed);
    var wa := w + a;
    assert w !! a && wa !! c;
    assert |wa| == |w| + |a|;
    var all := wa + c;
    assert |all| == |wa| + |c|;
    forall x | x in m.Keys
      ensures x in all
    {
      assert m[x] in m.Values;
    }
    assert m.Keys == all;
  }

  /** Every connection that was closed is still stored closed, was opened again, or was erased. */
  lemma {:induction false} ClosingsConserved(ops: seq<Op>, server: Endpoint)
    ensures var t := TallyRun(server, ops);
            t.closed == |Having(ClientsOf(EntriesRun(ops), server), Closed)| + t.reopened + t.erasedClosed
    ensures TallyRun(server, ops).erasedClosed <= TallyRun(server, ops).erased
  {
    if |ops| == 0 {
      assert ClientsOf(map[], server) == map[];
      assert Having(map[], Closed) == {};
    } else {
      var front, op := ops[..|ops| - 1], ops[|ops| - 1];
      ClosingsConserved(front, server);
      var e := EntriesRun(front);
      var m := ClientsOf(e, server);
      hide Having;
      assert op.key.server == server ==> StatusOf(e, op.key) == (if op.key.client in m then m[op.key.client] else Unknown) by {
        assert Key(server, op.key.client).client == op.key.client;
      }
      match EffectOf(op, StatusOf(e, op.key)) {
        case Put(status) =>
          PutClients(e, op.key, status, server);
          HavingPut(m, op.key.client, status, Closed);
        case Drop =>
          DropClients(e, op.key, server);
          HavingDrop(m, op.key.client, Closed);
        case Nothing =>
      }
    }
  }
}
