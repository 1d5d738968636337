/**
 New (movoor.go): wiring the application together. Whatever it constructed before a failing
 step is released again: no database handle stays open and the ops server is stopped.
 */
module AppConstruction {
  import opened Wrappers
  import opened ClientPool
  import Lifecycle

  /** The ops server as far as New is concerned: how often it has been told to stop. */
  class OpsServer {
    var stops: nat

    constructor ()
      ensures stops == 0
    {
      stops := 0;
    }

    method Stop()
      modifies this
      ensures stops == old(stops) + 1
    {
      stops := stops + 1;
    }
  }

  datatype NewError = OpsCreation | PoolCreation(cause: PoolError) | WebAssets

  datatype Wired = Wired(parts: Lifecycle.Parts, ops: OpsServer, pool: Option<Pool>)

  /**
   The parts of a finished App. The client pool field is an interface holding a pool pointer,
   so it compares unequal to nil even when there are no nodes and the pointer inside is nil.
   */
  function PartsOf(nodes: seq<NodeConfig>, frontend: bool): Lifecycle.Parts {
    Lifecycle.Parts(frontend, true, nodes != [], true, nodes != [])
  }

  /** New's cleanup closure. */
  method Cleanup(driver: Driver, ops: OpsServer, pool: Option<Pool>)
    requires pool.Some? ==>
               forall i :: 0 <= i < pool.value.clients.Length ==> pool.value.clients[i].db < |driver.closes|
    modifies driver, ops
    ensures ops.stops == old(ops.stops) + 1
    ensures pool.None? ==> driver.closes == old(driver.closes)
    ensures pool.Some? ==>
              && |driver.closes| == |old(driver.closes)|
              && forall h :: 0 <= h < |driver.closes| ==>
                   driver.closes[h] == old(driver.closes)[h] + Occurrences(Handles(pool.value.clients[..]), h)
  {
    if pool.Some? {
      var _ := pool.value.Close(driver);
    }
    ops.Stop();
  }

  /**
   New. On success every configured node has one open handle and the ops server has not been
   stopped; on failure every handle opened on the way has been closed exactly once, and the ops server,
   if it was created, has been stopped exactly once.
   */
  method New(driver: Driver, nodes: seq<NodeConfig>, frontend: bool, opsFails: bool, webFails: bool)
    returns (r: Result<Wired, NewError>, ghost created: Option<OpsServer>)
    modifies driver
    ensures created.None? <==> opsFails
    ensures created.Some? ==> fresh(created.value) && created.value.stops == if r.Err? then 1 else 0
    ensures r.Err? ==> exists n: nat :: n <= |nodes| && driver.closes == old(driver.closes) + Times(n, 1)
    ensures r.Ok? ==>
              && r.value.parts == PartsOf(nodes, frontend) && created == Some(r.value.ops)
              && (r.value.pool.Some? <==> nodes != [])
              && driver.closes == old(driver.closes) + Times(|nodes|, 0)
              && (nodes != [] ==>
                    OpenedUpTo(driver.parse, nodes, |nodes|, |old(driver.closes)|, r.value.pool.value.clients[..]))
    ensures r.Ok? ==>
              && r.value.parts.ops && r.value.parts.clients && r.value.parts.server == frontend
              && r.value.parts.tiering == r.value.parts.state == (nodes != [])
    ensures r.Ok? && nodes != [] ==>
              var clients := r.value.pool.value.clients[..];
              && |clients| == |nodes|
              && forall i :: 0 <= i < |nodes| ==>
                   && clients[i].node.id == nodes[i].name && clients[i].node.shard == nodes[i].shard
                   && clients[i].node.replica == nodes[i].replica
                   && driver.parse(nodes[i].dsn) == Some([clients[i].node.addr])
                   && clients[i].db == |old(driver.closes)| + i
    ensures r == Err(OpsCreation) <==> opsFails
    ensures r == Err(WebAssets) <==>
              && !opsFails && frontend && webFails
              && forall i :: 0 <= i < |nodes| ==> Refusal(driver.parse, nodes[i]).None?
    ensures r.Ok? <==> !opsFails && !(frontend && webFails)
                       && forall i :: 0 <= i < |nodes| ==> Refusal(driver.parse, nodes[i]).None?
  {
    ghost var before := driver.closes;
    assert before + Times(0, 1) == before && before + Times(0, 0) == before;
    if opsFails {
      return Err(OpsCreation), None;
    }
    var ops := new OpsServer();
    created := Some(ops);
    var pool: Option<Pool> := None;
    if |nodes| > 0 {
      var made := NewPool(driver, nodes);
      if made.Err? {
        Cleanup(driver, ops, None);
        return Err(PoolCreation(made.error)), created;
      }
      pool := Some(made.value);
    }
    if frontend {
      if webFails {
        Cleanup(driver, ops, pool);
        ClosedOnce(driver, before, nodes, pool);
        return Err(WebAssets), created;
      }
    }
    return Ok(Wired(PartsOf(nodes, frontend), ops, pool)), created;
  }

  /** Closing a freshly built pool closes each of its handles once and no other. */
  lemma ClosedOnce(driver: Driver, before: seq<nat>, nodes: seq<NodeConfig>, pool: Option<Pool>)
    requires pool.Some? <==> nodes != []
    requires pool.None? ==> driver.closes == before
    requires pool.Some? ==>
               && OpenedUpTo(driver.parse, nodes, |nodes|, |before|, pool.value.clients[..])
               && |driver.closes| == |before| + |nodes|
               && forall h :: 0 <= h < |driver.closes| ==>
                    driver.closes[h] == (before + Times(|nodes|, 0))[h]
                      + Occurrences(Handles(pool.value.clients[..]), h)
    ensures driver.closes == before + Times(|nodes|, 1)
  {
    if pool.Some? {
      var hs := Handles(pool.value.clients[..]);
      forall h | 0 <= h < |driver.closes| ensures driver.closes[h] == (before + Times(|nodes|, 1))[h] {
        ConsecutiveOnce(hs, |before|, h);
      }
    }
  }
}
