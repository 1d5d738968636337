/**
 The ClickHouse client pool: one database handle per configured node, opened in order, and
 none left open when construction fails.
 */
module ClientPool {
  import opened Wrappers

  datatype NodeConfig = NodeConfig(name: string, shard: string, replica: string, dsn: string)

  datatype Node = Node(id: string, shard: string, replica: string, addr: string)

  /** `db` is the number of the handle at the driver. */
  datatype Client = Client(node: Node, db: nat)

  datatype OpenError = NameRequired | ShardRequired | ReplicaRequired | BadDsn | AddrCount(n: nat)

  /** NewPool's error: which node failed and why, joined with the errors of closing the others. */
  datatype PoolError = NoNodes | NodeFailed(index: nat, name: string, cause: OpenError, closing: seq<nat>)

  datatype Result<+T, +E> = Ok(value: T) | Err(error: E)

  /**
   database/sql as the pool uses it. Handles are numbered as they are opened; `closes` counts
   the Close calls on each. `failing` says on which handles Close reports an error, and `parse`
   is clickhouse.ParseDSN reduced to the addresses it finds.
   */
  class Driver {
    var closes: seq<nat>
    const failing: nat -> bool
    const parse: string -> Option<seq<string>>

    constructor (parse: string -> Option<seq<string>>, failing: nat -> bool)
      ensures closes == [] && this.parse == parse && this.failing == failing
    {
      closes := [];
      this.parse := parse;
      this.failing := failing;
    }

    method OpenDB() returns (db: nat)
      modifies this
      ensures db == |old(closes)| && closes == old(closes) + [0]
    {
      db := |closes|;
      closes := closes + [0];
    }

    method CloseDB(db: nat) returns (failed: bool)
      requires db < |closes|
      modifies this
      ensures closes == old(closes)[db := old(closes)[db] + 1] && failed == failing(db)
    {
      closes := closes[db := closes[db] + 1];
      failed := failing(db);
    }
  }

  /** What openNode finds wrong with a node before it opens anything. */
  function Refusal(parse: string -> Option<seq<string>>, node: NodeConfig): Option<OpenError> {
    if node.name == "" then Some(NameRequired)
    else if node.shard == "" then Some(ShardRequired)
    else if node.replica == "" then Some(ReplicaRequired)
    else match parse(node.dsn)
      case None => Some(BadDsn)
      case Some(addrs) => if |addrs| != 1 then Some(AddrCount(|addrs|)) else None
  }

  /** The client of an accepted node on handle `db`. */
  function ClientOf(parse: string -> Option<seq<string>>, node: NodeConfig, db: nat): Client
    requires Refusal(parse, node).None?
  {
    Client(Node(node.name, node.shard, node.replica, parse(node.dsn).value[0]), db)
  }

  /** openNode: every error exit comes before the open. */
  method OpenNode(driver: Driver, node: NodeConfig) returns (r: Result<(nat, string), OpenError>)
    modifies driver
    ensures match Refusal(driver.parse, node)
            case Some(e) => r == Err(e) && driver.closes == old(driver.closes)
            case None =>
              && r == Ok((|old(driver.closes)|, driver.parse(node.dsn).value[0]))
              && driver.closes == old(driver.closes) + [0]
    ensures r == Err(NameRequired) <==> node.name == ""
    ensures r == Err(ShardRequired) <==> node.name != "" && node.shard == ""
    ensures r == Err(ReplicaRequired) <==> node.name != "" && node.shard != "" && node.replica == ""
    ensures var (named, addrs) := (node.name != "" && node.shard != "" && node.replica != "", driver.parse(node.dsn));
            && (r == Err(BadDsn) <==> named && addrs.None?)
            && (forall n :: r == Err(AddrCount(n)) <==> named && addrs.Some? && |addrs.value| == n != 1)
  {
    if node.name == "" {
      return Err(NameRequired);
    }
    if node.shard == "" {
      return Err(ShardRequired);
    }
    if node.replica == "" {
      return Err(ReplicaRequired);
    }
    var opts := driver.parse(node.dsn);
    if opts.None? {
      return Err(BadDsn);
    }
    if |opts.value| != 1 {
      return Err(AddrCount(|opts.value|));
    }
    var db := driver.OpenDB();
    return Ok((db, opts.value[0]));
  }

  function Handles(clients: seq<Client>): (r: seq<nat>)
    ensures |r| == |clients| && forall i :: 0 <= i < |r| ==> r[i] == clients[i].db
  {
    seq(|clients|, i requires 0 <= i < |clients| => clients[i].db)
  }

  function Occurrences(hs: seq<nat>, h: nat): nat {
    if hs == [] then 0 else (if hs[0] == h then 1 else 0) + Occurrences(hs[1..], h)
  }

  function FailedOf(hs: seq<nat>, failing: nat -> bool): seq<nat> {
    if hs == [] then [] else (if failing(hs[0]) then [hs[0]] else []) + FailedOf(hs[1..], failing)
  }

  lemma {:induction false} OccurrencesSnoc(hs: seq<nat>, last: nat, h: nat)
    ensures Occurrences(hs + [last], h) == Occurrences(hs, h) + if last == h then 1 else 0
  {
    if hs == [] {
      assert [] + [last] == [last];
    } else {
      assert (hs + [last])[1..] == hs[1..] + [last];
      OccurrencesSnoc(hs[1..], last, h);
    }
  }

  lemma {:induction false} FailedSnoc(hs: seq<nat>, last: nat, failing: nat -> bool)
    ensures FailedOf(hs + [last], failing) == FailedOf(hs, failing) + if failing(last) then [last] else []
  {
    if hs == [] {
      assert [] + [last] == [last];
    } else {
      assert (hs + [last])[1..] == hs[1..] + [last];
      FailedSnoc(hs[1..], last, failing);
    }
  }

  /** The failures are exactly the handles that fail to close. */
  lemma {:induction false} FailedExactly(hs: seq<nat>, failing: nat -> bool)
    ensures forall h :: multiset(FailedOf(hs, failing))[h] == if failing(h) then multiset(hs)[h] else 0
  {
    if hs != [] {
      FailedExactly(hs[1..], failing);
      assert hs == [hs[0]] + hs[1..];
      assert FailedOf(hs, failing) == (if failing(hs[0]) then [hs[0]] else []) + FailedOf(hs[1..], failing);
    }
  }

  ghost predicate Ascending(hs: seq<nat>) {
    forall i, j :: 0 <= i < j < |hs| ==> hs[i] < hs[j]
  }

  /** They are listed in the order in which the handles were opened. */
  lemma {:induction false} FailedInOrder(hs: seq<nat>, failing: nat -> bool)
    requires Ascending(hs)
    ensures Ascending(FailedOf(hs, failing))
  {
    if hs != [] {
      var tail := hs[1..];
      var rest := FailedOf(tail, failing);
      FailedInOrder(tail, failing);
      FailedExactly(tail, failing);
      forall k | 0 <= k < |rest| ensures hs[0] < rest[k] {
        assert multiset(rest)[rest[k]] > 0;
        assert rest[k] in tail;
      }
    }
  }

  /** closeClients: one Close per client, errors joined, never stopping early. */
  method CloseClients(driver: Driver, clients: seq<Client>) returns (errs: seq<nat>)
    requires forall i :: 0 <= i < |clients| ==> clients[i].db < |driver.closes|
    modifies driver
    ensures |driver.closes| == |old(driver.closes)|
    ensures forall h :: 0 <= h < |driver.closes| ==>
              driver.closes[h] == old(driver.closes)[h] + Occurrences(Handles(clients), h)
    ensures errs == FailedOf(Handles(clients), driver.failing)
  {
    errs := [];
    ghost var hs := Handles(clients);
    for i := 0 to |clients|
      invariant |driver.closes| == |old(driver.closes)|
      invariant forall h :: 0 <= h < |driver.closes| ==>
                  driver.closes[h] == old(driver.closes)[h] + Occurrences(hs[..i], h)
      invariant errs == FailedOf(hs[..i], driver.failing)
    {
      var failed := driver.CloseDB(clients[i].db);
      if failed {
        errs := errs + [clients[i].db];
      }
      assert hs[..i + 1] == hs[..i] + [hs[i]];
      FailedSnoc(hs[..i], hs[i], driver.failing);
      forall h | 0 <= h < |driver.closes|
        ensures Occurrences(hs[..i + 1], h) == Occurrences(hs[..i], h) + if hs[i] == h then 1 else 0
      {
        OccurrencesSnoc(hs[..i], hs[i], h);
      }
    }
    assert hs[..|clients|] == hs;
  }

  /** The pool owns its client list; callers of Clients get a list of their own. */
  class Pool {
    const clients: array<Client>

    constructor (list: seq<Client>)
      ensures fresh(clients) && clients[..] == list
    {
      clients := new Client[|list|](i requires 0 <= i < |list| => list[i]);
    }

    /** Writing to the returned list leaves the pool's own list as it is. */
    method Clients() returns (copied: array<Client>)
      ensures fresh(copied) && copied[..] == clients[..]
    {
      copied := new Client[clients.Length](i requires 0 <= i < clients.Length reads clients => clients[i]);
    }

    method Close(driver: Driver) returns (errs: seq<nat>)
      requires forall i :: 0 <= i < clients.Length ==> clients[i].db < |driver.closes|
      modifies driver
      ensures |driver.closes| == |old(driver.closes)|
      ensures forall h :: 0 <= h < |driver.closes| ==>
                driver.closes[h] == old(driver.closes)[h] + Occurrences(Handles(clients[..]), h)
      ensures errs == FailedOf(Handles(clients[..]), driver.failing)
    {
      errs := CloseClients(driver, clients[..]);
    }
  }

  /** The nodes before `n` are accepted and their clients sit on the handles from `base` on. */
  ghost predicate OpenedUpTo(parse: string -> Option<seq<string>>, nodes: seq<NodeConfig>, n: nat, base: nat,
                             clients: seq<Client>) {
    && n <= |nodes| && |clients| == n
    && forall i :: 0 <= i < n ==> Refusal(parse, nodes[i]).None? && clients[i] == ClientOf(parse, nodes[i], base + i)
  }

  /** Each client has its node's identity, the one address its DSN names, and the next handle. */
  lemma OpenedClients(parse: string -> Option<seq<string>>, nodes: seq<NodeConfig>, base: nat, clients: seq<Client>)
    requires OpenedUpTo(parse, nodes, |nodes|, base, clients)
    ensures forall i :: 0 <= i < |nodes| ==>
              && clients[i].node.id == nodes[i].name && clients[i].node.shard == nodes[i].shard
              && clients[i].node.replica == nodes[i].replica
              && parse(nodes[i].dsn) == Some([clients[i].node.addr])
              && clients[i].db == base + i
    ensures forall i :: 0 <= i < |nodes| ==>
              && nodes[i].name != "" && nodes[i].shard != "" && nodes[i].replica != ""
              && parse(nodes[i].dsn).Some? && |parse(nodes[i].dsn).value| == 1
  {
    forall i | 0 <= i < |nodes|
      ensures parse(nodes[i].dsn).Some? && parse(nodes[i].dsn).value == [clients[i].node.addr]
    {
      assert clients[i] == ClientOf(parse, nodes[i], base + i);
    }
  }

  function Times(n: nat, x: nat): (r: seq<nat>)
    ensures |r| == n && forall i :: 0 <= i < n ==> r[i] == x
  {
    seq(n, i => x)
  }

  /** The `n` handle numbers from `base` on. */
  function Consecutive(base: nat, n: nat): (r: seq<nat>)
    ensures |r| == n && forall i :: 0 <= i < n ==> r[i] == base + i
  {
    seq(n, i requires 0 <= i => base + i)
  }

  lemma {:induction false} ConsecutiveOnce(hs: seq<nat>, base: nat, h: nat)
    requires forall i :: 0 <= i < |hs| ==> hs[i] == base + i
    ensures Occurrences(hs, h) == if base <= h < base + |hs| then 1 else 0
  {
    if hs != [] {
      ConsecutiveOnce(hs[1..], base + 1, h);
    }
  }

  /**
   NewPool: one open handle per node, in node order, with that node's identity and address; or
   an error, naming the first node that is refused, with every handle it had opened closed
   exactly once. Handles opened earlier by others are never touched.
   */
  method NewPool(driver: Driver, nodes: seq<NodeConfig>) returns (r: Result<Pool, PoolError>)
    modifies driver
    ensures r.Ok? ==>
              && fresh(r.value) && fresh(r.value.clients) && nodes != []
              && OpenedUpTo(driver.parse, nodes, |nodes|, |old(driver.closes)|, r.value.clients[..])
              && driver.closes == old(driver.closes) + Times(|nodes|, 0)
    ensures r.Ok? ==>
              var clients := r.value.clients[..];
              && |clients| == |nodes|
              && forall i :: 0 <= i < |nodes| ==>
                   && clients[i].node.id == nodes[i].name && clients[i].node.shard == nodes[i].shard
                   && clients[i].node.replica == nodes[i].replica
                   && driver.parse(nodes[i].dsn) == Some([clients[i].node.addr])
                   && clients[i].db == |old(driver.closes)| + i
    ensures r.Ok? <==>
              && nodes != []
              && forall i :: 0 <= i < |nodes| ==>
                   && nodes[i].name != "" && nodes[i].shard != "" && nodes[i].replica != ""
                   && driver.parse(nodes[i].dsn).Some? && |driver.parse(nodes[i].dsn).value| == 1
    ensures r == Err(NoNodes) <==> nodes == []
    ensures nodes == [] ==> driver.closes == old(driver.closes)
    ensures r.Err? && nodes != [] ==>
              && r.error.NodeFailed? && r.error.index < |nodes|
              && (forall j :: 0 <= j < r.error.index ==> Refusal(driver.parse, nodes[j]).None?)
              && Refusal(driver.parse, nodes[r.error.index]) == Some(r.error.cause)
              && r.error.name == nodes[r.error.index].name
              && r.error.closing == FailedOf(Consecutive(|old(driver.closes)|, r.error.index), driver.failing)
              && driver.closes == old(driver.closes) + Times(r.error.index, 1)
  {
    if |nodes| == 0 {
      return Err(NoNodes);
    }
    ghost var base := |driver.closes|;
    var clients: seq<Client> := [];
    for i := 0 to |nodes|
      invariant OpenedUpTo(driver.parse, nodes, i, base, clients)
      invariant driver.closes == old(driver.closes) + Times(i, 0)
    {
      var node := nodes[i];
      var handle := OpenNode(driver, node);
      if handle.Err? {
        var closing := CloseClients(driver, clients);
        assert Handles(clients) == Consecutive(base, i);
        forall h | 0 <= h < |driver.closes| ensures driver.closes[h] == (old(driver.closes) + Times(i, 1))[h] {
          ConsecutiveOnce(Handles(clients), base, h);
        }
        assert driver.closes == old(driver.closes) + Times(i, 1);
        return Err(NodeFailed(i, node.name, handle.error, closing));
      }
      var (db, addr) := handle.value;
      clients := clients + [Client(Node(node.name, node.shard, node.replica, addr), db)];
    }
    var pool := new Pool(clients);
    OpenedClients(driver.parse, nodes, base, clients);
    return Ok(pool);
  }
}
