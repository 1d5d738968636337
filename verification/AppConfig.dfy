/**
 The application configuration: default resolution and validation (config.go). The seen-map
 loops of Validate are proved to be pairwise distinctness, and the first offending entry is
 the one that is reported.
 */
module AppConfig {
  import opened Wrappers
  import opened SqlText
  import opened Utf8Text

  datatype NodeConfig = NodeConfig(name: string, shard: string, replica: string, dsn: string)

  datatype WatchConfig = WatchConfig(database: string, table: string)

  datatype DsnError = DsnRequired | DsnUnparsable | DsnScheme | DsnHost | DsnFailover

  /** url.Parse of a node DSN: scheme and host, or nothing. */
  datatype ParsedUrl = ParsedUrl(scheme: string, host: string)

  datatype ConfigError =
    | BadLogging
    | BadTracing
    | BadTiering
    | NoNodes
    | NodeName(i: nat)
    | NodeDuplicated(i: nat, name: string)
    | NodeShard(i: nat)
    | NodeReplica(i: nat)
    | NodeDsn(i: nat, cause: DsnError)
    | NoWatches
    | WatchDatabase(i: nat)
    | WatchTable(i: nat)
    | WatchDuplicated(i: nat, key: string)
    | FrontendAddr

  /** validateClickHouseNodeDSN */
  function DsnProblem(parse: string -> Option<ParsedUrl>, raw: string): Option<DsnError> {
    if raw == "" then Some(DsnRequired)
    else match parse(raw)
      case None => Some(DsnUnparsable)
      case Some(u) =>
        if u.scheme != "clickhouse" then Some(DsnScheme)
        else if u.host == "" then Some(DsnHost)
        else if ',' in u.host then Some(DsnFailover)
        else None
  }

  /** A node's DSN passes exactly when it is a native one with one host; the first thing amiss is named. */
  lemma DsnExactly(parse: string -> Option<ParsedUrl>, raw: string)
    ensures DsnProblem(parse, raw).None?
       <==> && raw != "" && parse(raw).Some? && parse(raw).value.scheme == "clickhouse"
            && parse(raw).value.host != "" && ',' !in parse(raw).value.host
    ensures DsnProblem(parse, raw) == Some(DsnRequired) <==> raw == ""
    ensures DsnProblem(parse, raw) == Some(DsnUnparsable) <==> raw != "" && parse(raw).None?
    ensures DsnProblem(parse, raw) == Some(DsnScheme)
       <==> raw != "" && parse(raw).Some? && parse(raw).value.scheme != "clickhouse"
    ensures DsnProblem(parse, raw) == Some(DsnHost)
       <==> raw != "" && parse(raw).Some? && parse(raw).value.scheme == "clickhouse" && parse(raw).value.host == ""
    ensures DsnProblem(parse, raw) == Some(DsnFailover)
       <==> && raw != "" && parse(raw).Some? && parse(raw).value.scheme == "clickhouse"
            && ',' in parse(raw).value.host
  {
  }

  function WatchKey(w: WatchConfig): string {
    w.database + "." + w.table
  }

  /** What is wrong with node `i`, given the nodes before it. */
  function NodeProblem(parse: string -> Option<ParsedUrl>, nodes: seq<NodeConfig>, i: nat): Option<ConfigError>
    requires i < |nodes|
  {
    var node := nodes[i];
    if node.name == "" then Some(NodeName(i))
    else if exists j :: 0 <= j < i && nodes[j].name == node.name then Some(NodeDuplicated(i, node.name))
    else if node.shard == "" then Some(NodeShard(i))
    else if node.replica == "" then Some(NodeReplica(i))
    else match DsnProblem(parse, node.dsn)
      case Some(cause) => Some(NodeDsn(i, cause))
      case None => None
  }

  /** What is wrong with watch `i`, given the watches before it. */
  function WatchProblem(watches: seq<WatchConfig>, i: nat): Option<ConfigError>
    requires i < |watches|
  {
    var w := watches[i];
    if w.database == "" then Some(WatchDatabase(i))
    else if w.table == "" then Some(WatchTable(i))
    else if exists j :: 0 <= j < i && WatchKey(watches[j]) == WatchKey(w) then Some(WatchDuplicated(i, WatchKey(w)))
    else None
  }

  /** The first problem among the nodes from `i` on. */
  function FirstNode(parse: string -> Option<ParsedUrl>, nodes: seq<NodeConfig>, i: nat): Option<ConfigError>
    requires i <= |nodes|
    decreases |nodes| - i
  {
    if i == |nodes| then None
    else if NodeProblem(parse, nodes, i).Some? then NodeProblem(parse, nodes, i)
    else FirstNode(parse, nodes, i + 1)
  }

  /** The first problem among the watches from `i` on. */
  function FirstWatch(watches: seq<WatchConfig>, i: nat): Option<ConfigError>
    requires i <= |watches|
    decreases |watches| - i
  {
    if i == |watches| then None
    else if WatchProblem(watches, i).Some? then WatchProblem(watches, i)
    else FirstWatch(watches, i + 1)
  }

  ghost predicate NamesDistinct(nodes: seq<NodeConfig>) {
    forall i, j :: 0 <= i < j < |nodes| ==> nodes[i].name != nodes[j].name
  }

  ghost predicate KeysDistinct(watches: seq<WatchConfig>) {
    forall i, j :: 0 <= i < j < |watches| ==> WatchKey(watches[i]) != WatchKey(watches[j])
  }

  ghost predicate PairsDistinct(watches: seq<WatchConfig>) {
    forall i, j :: 0 <= i < j < |watches| ==> watches[i] != watches[j]
  }

  /** Everything a node needs by itself. */
  predicate NodeComplete(parse: string -> Option<ParsedUrl>, node: NodeConfig) {
    node.name != "" && node.shard != "" && node.replica != "" && DsnProblem(parse, node.dsn).None?
  }

  predicate WatchComplete(w: WatchConfig) {
    w.database != "" && w.table != ""
  }

  method CheckNodes(parse: string -> Option<ParsedUrl>, nodes: seq<NodeConfig>) returns (err: Option<ConfigError>)
    ensures err.None? <==> (forall i :: 0 <= i < |nodes| ==> NodeComplete(parse, nodes[i])) && NamesDistinct(nodes)
    ensures err == FirstNode(parse, nodes, 0)
  {
    var seen: set<string> := {};
    for i := 0 to |nodes|
      invariant forall s :: s in seen <==> exists j :: 0 <= j < i && nodes[j].name == s
      invariant forall j :: 0 <= j < i ==> NodeComplete(parse, nodes[j])
      invariant FirstNode(parse, nodes, 0) == FirstNode(parse, nodes, i)
      invariant forall j, k :: 0 <= j < k < i ==> nodes[j].name != nodes[k].name
    {
      var node := nodes[i];
      if node.name == "" {
        return Some(NodeName(i));
      }
      if node.name in seen {
        return Some(NodeDuplicated(i, node.name));
      }
      seen := seen + {node.name};
      if node.shard == "" {
        return Some(NodeShard(i));
      }
      if node.replica == "" {
        return Some(NodeReplica(i));
      }
      var cause := DsnProblem(parse, node.dsn);
      if cause.Some? {
        return Some(NodeDsn(i, cause.value));
      }
    }
    return None;
  }

  method CheckWatches(watches: seq<WatchConfig>) returns (err: Option<ConfigError>)
    ensures err.None? <==> (forall i :: 0 <= i < |watches| ==> WatchComplete(watches[i])) && KeysDistinct(watches)
    ensures err == FirstWatch(watches, 0)
  {
    var seen: set<string> := {};
    for i := 0 to |watches|
      invariant forall s :: s in seen <==> exists j :: 0 <= j < i && WatchKey(watches[j]) == s
      invariant forall j :: 0 <= j < i ==> WatchComplete(watches[j])
      invariant FirstWatch(watches, 0) == FirstWatch(watches, i)
      invariant forall j, k :: 0 <= j < k < i ==> WatchKey(watches[j]) != WatchKey(watches[k])
    {
      var w := watches[i];
      if w.database == "" {
        return Some(WatchDatabase(i));
      }
      if w.table == "" {
        return Some(WatchTable(i));
      }
      var key := WatchKey(w);
      if key in seen {
        return Some(WatchDuplicated(i, key));
      }
      seen := seen + {key};
    }
    return None;
  }

  /** Verdicts of checks whose bodies lie in other packages, url.Parse, and the table of lower-case forms. */
  datatype Elsewhere = Elsewhere(
    tracingOk: bool,
    tieringOk: bool,
    parse: string -> Option<ParsedUrl>,
    lower: string -> string)

  /** validateLogging: one of five names, in upper or lower case. */
  predicate LoggingOk(lower: string -> string, level: string) {
    var folded := ToLower(lower, level);
    folded == "debug" || folded == "info" || folded == "warn" || folded == "warning" || folded == "error"
  }

  /** The checks of Validate in their order; the first failing one decides. */
  function Verdict(other: Elsewhere, logging: string, frontendAddr: string, enabled: bool, nodes: seq<NodeConfig>,
                   watches: seq<WatchConfig>)
    : Option<ConfigError>
  {
    if !LoggingOk(other.lower, logging) then Some(BadLogging)
    else if !other.tracingOk then Some(BadTracing)
    else if !other.tieringOk then Some(BadTiering)
    else if nodes == [] then Some(NoNodes)
    else if FirstNode(other.parse, nodes, 0).Some? then FirstNode(other.parse, nodes, 0)
    else if watches == [] then Some(NoWatches)
    else if FirstWatch(watches, 0).Some? then FirstWatch(watches, 0)
    else if enabled && frontendAddr == "" then Some(FrontendAddr)
    else None
  }

  const DEFAULT_LOGGING := "info"
  const DEFAULT_METRICS_ADDR := ":9090"
  const DEFAULT_HEALTH_CHECK_ADDR := ":8081"
  const DEFAULT_FRONTEND_ADDR := ":8080"
  const DEFAULT_QUERY_TIMEOUT := 30_000_000_000
  const DEFAULT_DIAL_TIMEOUT := 5_000_000_000

  /** The resolved part of a configuration, as a value. */
  datatype Settings = Settings(
    logging: string,
    metricsAddr: string,
    healthCheckAddr: string,
    sampleRatio: Option<real>,
    queryTimeout: int,
    dialTimeout: int,
    frontendAddr: string)

  function Resolved(s: Settings): Settings {
    Settings(
      if s.logging == "" then DEFAULT_LOGGING else s.logging,
      if s.metricsAddr == "" then DEFAULT_METRICS_ADDR else s.metricsAddr,
      if s.healthCheckAddr == "" then DEFAULT_HEALTH_CHECK_ADDR else s.healthCheckAddr,
      if s.sampleRatio.None? then Some(1.0) else s.sampleRatio,
      if s.queryTimeout == 0 then DEFAULT_QUERY_TIMEOUT else s.queryTimeout,
      if s.dialTimeout == 0 then DEFAULT_DIAL_TIMEOUT else s.dialTimeout,
      if s.frontendAddr == "" then DEFAULT_FRONTEND_ADDR else s.frontendAddr)
  }

  class Config {
    var settings: Settings
    var frontendEnabled: Option<bool>
    var nodes: seq<NodeConfig>
    var watches: seq<WatchConfig>

    constructor (settings: Settings, frontendEnabled: Option<bool>, nodes: seq<NodeConfig>, watches: seq<WatchConfig>)
      ensures this.settings == settings && this.frontendEnabled == frontendEnabled
      ensures this.nodes == nodes && this.watches == watches
    {
      this.settings := settings;
      this.frontendEnabled := frontendEnabled;
      this.nodes := nodes;
      this.watches := watches;
    }

    predicate IsEnabled()
      reads this
    {
      frontendEnabled.None? || frontendEnabled.value
    }

    /** Fills what is unset and nothing else; a second call changes nothing. */
    method ResolveDefaults()
      modifies this`settings
      ensures settings == Resolved(old(settings))
      ensures Resolved(settings) == settings && settings.frontendAddr != ""
      ensures settings.logging == if old(settings).logging == "" then "info" else old(settings).logging
      ensures settings.metricsAddr == if old(settings).metricsAddr == "" then ":9090" else old(settings).metricsAddr
      ensures settings.healthCheckAddr
           == if old(settings).healthCheckAddr == "" then ":8081" else old(settings).healthCheckAddr
      ensures settings.sampleRatio == if old(settings).sampleRatio.None? then Some(1.0) else old(settings).sampleRatio
      ensures settings.queryTimeout
           == if old(settings).queryTimeout == 0 then 30_000_000_000 else old(settings).queryTimeout
      ensures settings.dialTimeout
           == if old(settings).dialTimeout == 0 then 5_000_000_000 else old(settings).dialTimeout
      ensures settings.frontendAddr == if old(settings).frontendAddr == "" then ":8080" else old(settings).frontendAddr
    {
      if settings.logging == "" {
        settings := settings.(logging := DEFAULT_LOGGING);
      }
      if settings.metricsAddr == "" {
        settings := settings.(metricsAddr := DEFAULT_METRICS_ADDR);
      }
      if settings.healthCheckAddr == "" {
        settings := settings.(healthCheckAddr := DEFAULT_HEALTH_CHECK_ADDR);
      }
      if settings.sampleRatio.None? {
        settings := settings.(sampleRatio := Some(1.0));
      }
      if settings.queryTimeout == 0 {
        settings := settings.(queryTimeout := DEFAULT_QUERY_TIMEOUT);
      }
      if settings.dialTimeout == 0 {
        settings := settings.(dialTimeout := DEFAULT_DIAL_TIMEOUT);
      }
      if settings.frontendAddr == "" {
        settings := settings.(frontendAddr := DEFAULT_FRONTEND_ADDR);
      }
    }

    /** Validate accepts exactly the configurations that pass every check. */
    method Validate(other: Elsewhere) returns (err: Option<ConfigError>)
      ensures err.None? <==>
        && ToLower(other.lower, settings.logging) in ["debug", "info", "warn", "warning", "error"]
        && other.tracingOk && other.tieringOk
        && nodes != [] && (forall i :: 0 <= i < |nodes| ==> NodeComplete(other.parse, nodes[i])) && NamesDistinct(nodes)
        && watches != [] && (forall i :: 0 <= i < |watches| ==> WatchComplete(watches[i])) && KeysDistinct(watches)
        && ((frontendEnabled.None? || frontendEnabled.value) ==> settings.frontendAddr != "")
      ensures err == Verdict(other, settings.logging, settings.frontendAddr, IsEnabled(), nodes, watches)
    {
      if !LoggingOk(other.lower, settings.logging) {
        return Some(BadLogging);
      }
      if !other.tracingOk {
        return Some(BadTracing);
      }
      if !other.tieringOk {
        return Some(BadTiering);
      }
      if |nodes| == 0 {
        return Some(NoNodes);
      }
      err := CheckNodes(other.parse, nodes);
      if err.Some? {
        return err;
      }
      if |watches| == 0 {
        return Some(NoWatches);
      }
      err := CheckWatches(watches);
      if err.Some? {
        return err;
      }
      if IsEnabled() && settings.frontendAddr == "" {
        return Some(FrontendAddr);
      }
      return None;
    }

    /** TieringWatches: the watches in configuration order. */
    method TieringWatches() returns (out: seq<WatchConfig>)
      ensures out == watches
    {
      out := [];
      for i := 0 to |watches|
        invariant out == watches[..i]
      {
        out := out + [watches[i]];
      }
    }
  }

  // ---- what is reported -----------------------------------------------------------------------

  /** Node `i` is amiss in this way, by itself or against an earlier one. */
  ghost predicate NodeAmiss(parse: string -> Option<ParsedUrl>, nodes: seq<NodeConfig>, i: nat, e: ConfigError)
    requires i < |nodes|
  {
    var node := nodes[i];
    var named := node.name != "" && forall j :: 0 <= j < i ==> nodes[j].name != node.name;
    match e
    case NodeName(k) => k == i && node.name == ""
    case NodeDuplicated(k, name) =>
      k == i && name == node.name != "" && exists j :: 0 <= j < i && nodes[j].name == node.name
    case NodeShard(k) => k == i && named && node.shard == ""
    case NodeReplica(k) => k == i && named && node.shard != "" && node.replica == ""
    case NodeDsn(k, cause) =>
      k == i && named && node.shard != "" && node.replica != "" && DsnProblem(parse, node.dsn) == Some(cause)
    case _ => false
  }

  ghost predicate WatchAmiss(watches: seq<WatchConfig>, i: nat, e: ConfigError)
    requires i < |watches|
  {
    var w := watches[i];
    match e
    case WatchDatabase(k) => k == i && w.database == ""
    case WatchTable(k) => k == i && w.database != "" && w.table == ""
    case WatchDuplicated(k, key) =>
      && k == i && w.database != "" && w.table != "" && key == w.database + "." + w.table
      && exists j :: 0 <= j < i && watches[j].database + "." + watches[j].table == key
    case _ => false
  }

  /** The nodes are reported by the first one that is amiss. */
  lemma {:induction false} FirstNodeIs(parse: string -> Option<ParsedUrl>, nodes: seq<NodeConfig>, i: nat,
                                       e: ConfigError)
    requires i <= |nodes|
    ensures FirstNode(parse, nodes, i) == Some(e)
       <==> exists k :: i <= k < |nodes| && NodeAmiss(parse, nodes, k, e)
                        && forall j, f :: i <= j < k ==> !NodeAmiss(parse, nodes, j, f)
    decreases |nodes| - i
  {
    if i < |nodes| {
      FirstNodeIs(parse, nodes, i + 1, e);
      AmissAt(parse, nodes, i);
    }
  }

  lemma AmissAt(parse: string -> Option<ParsedUrl>, nodes: seq<NodeConfig>, i: nat)
    requires i < |nodes|
    ensures forall e :: NodeProblem(parse, nodes, i) == Some(e) <==> NodeAmiss(parse, nodes, i, e)
  {
  }

  /** So are the watches. */
  lemma {:induction false} FirstWatchIs(watches: seq<WatchConfig>, i: nat, e: ConfigError)
    requires i <= |watches|
    ensures FirstWatch(watches, i) == Some(e)
       <==> exists k :: i <= k < |watches| && WatchAmiss(watches, k, e)
                        && forall j, f :: i <= j < k ==> !WatchAmiss(watches, j, f)
    decreases |watches| - i
  {
    if i < |watches| {
      FirstWatchIs(watches, i + 1, e);
      WatchAmissAt(watches, i);
    }
  }

  lemma WatchAmissAt(watches: seq<WatchConfig>, i: nat)
    requires i < |watches|
    ensures forall e :: WatchProblem(watches, i) == Some(e) <==> WatchAmiss(watches, i, e)
  {
  }

  /** Logging, tracing, tiering, nodes, watches, frontend: the first check that fails is the one that reports. */
  lemma VerdictIs(other: Elsewhere, logging: string, frontendAddr: string, enabled: bool, nodes: seq<NodeConfig>,
                  watches: seq<WatchConfig>, e: ConfigError)
    ensures var verdict := Verdict(other, logging, frontendAddr, enabled, nodes, watches);
            var loggingOk := LoggingOk(other.lower, logging);
            var nodesReached := loggingOk && other.tracingOk && other.tieringOk;
            var watchesReached := nodesReached && nodes != [] && FirstNode(other.parse, nodes, 0).None?;
            && (verdict == Some(BadLogging) <==> !loggingOk)
            && (verdict == Some(BadTracing) <==> loggingOk && !other.tracingOk)
            && (verdict == Some(BadTiering) <==> loggingOk && other.tracingOk && !other.tieringOk)
            && (verdict == Some(NoNodes) <==> nodesReached && nodes == [])
            && (e.NodeName? || e.NodeDuplicated? || e.NodeShard? || e.NodeReplica? || e.NodeDsn? ==>
                  (verdict == Some(e) <==> nodesReached && FirstNode(other.parse, nodes, 0) == Some(e)))
            && (verdict == Some(NoWatches) <==> watchesReached && watches == [])
            && (e.WatchDatabase? || e.WatchTable? || e.WatchDuplicated? ==>
                  (verdict == Some(e) <==> watchesReached && FirstWatch(watches, 0) == Some(e)))
            && (verdict == Some(FrontendAddr) <==>
                  && watchesReached && watches != [] && FirstWatch(watches, 0).None?
                  && enabled && frontendAddr == "")
  {
    FirstNodeKind(other.parse, nodes, 0);
    FirstWatchKind(watches, 0);
  }

  lemma {:induction false} FirstNodeKind(parse: string -> Option<ParsedUrl>, nodes: seq<NodeConfig>, i: nat)
    requires i <= |nodes|
    ensures match FirstNode(parse, nodes, i)
            case None => true
            case Some(e) => e.NodeName? || e.NodeDuplicated? || e.NodeShard? || e.NodeReplica? || e.NodeDsn?
    decreases |nodes| - i
  {
    if i < |nodes| {
      FirstNodeKind(parse, nodes, i + 1);
    }
  }

  lemma {:induction false} FirstWatchKind(watches: seq<WatchConfig>, i: nat)
    requires i <= |watches|
    ensures match FirstWatch(watches, i)
            case None => true
            case Some(e) => e.WatchDatabase? || e.WatchTable? || e.WatchDuplicated?
    decreases |watches| - i
  {
    if i < |watches| {
      FirstWatchKind(watches, i + 1);
    }
  }

  /** Accepted watches are distinct as (database, table) pairs. */
  lemma KeysSeparatePairs(watches: seq<WatchConfig>)
    requires KeysDistinct(watches)
    ensures PairsDistinct(watches)
  {
    forall i, j | 0 <= i < j < |watches| ensures watches[i] != watches[j] {
      assert WatchKey(watches[i]) != WatchKey(watches[j]);
    }
  }

  /** Without a dot in the database name, the key's first dot is the separator. */
  lemma FirstDot(w: WatchConfig)
    requires '.' !in w.database
    ensures WatchKey(w)[|w.database|] == '.' && forall k :: 0 <= k < |w.database| ==> WatchKey(w)[k] != '.'
    ensures WatchKey(w)[..|w.database|] == w.database && WatchKey(w)[|w.database| + 1..] == w.table
  {
    assert forall k :: 0 <= k < |w.database| ==> WatchKey(w)[k] == w.database[k];
  }

  /** Without dots in database names the key separates watches as finely as the pair does. */
  lemma KeyInjective(a: WatchConfig, b: WatchConfig)
    requires '.' !in a.database && '.' !in b.database && WatchKey(a) == WatchKey(b)
    ensures a == b
  {
    FirstDot(a);
    FirstDot(b);
    assert |a.database| == |b.database|;
  }

  /** `b` splits the same dotted text as `a` at a later dot. */
  ghost predicate SplitsLater(a: WatchConfig, b: WatchConfig, s: string) {
    b.database == a.database + "." + s && a.table == s + "." + b.table
  }

  lemma SplitsLaterCollides(a: WatchConfig, b: WatchConfig, s: string)
    requires SplitsLater(a, b, s)
    ensures WatchKey(a) == WatchKey(b) && a != b
  {
    assert a.database + "." + (s + "." + b.table) == (a.database + "." + s) + "." + b.table;
    assert |b.database| > |a.database|;
  }

  lemma CollidesSplitsLater(a: WatchConfig, b: WatchConfig)
    requires WatchKey(a) == WatchKey(b) && |a.database| < |b.database|
    ensures SplitsLater(a, b, b.database[|a.database| + 1..])
  {
    var key, n, m := WatchKey(a), |a.database|, |b.database|;
    var s := b.database[n + 1..];
    assert b.database == key[..m] && a.database == key[..n] && key[n] == '.';
    assert b.database == key[..n] + [key[n]] + key[n + 1..m];
    assert a.table == key[n + 1..] && b.table == key[m + 1..] && key[m] == '.';
    assert key[n + 1..] == key[n + 1..m] + [key[m]] + key[m + 1..];
  }

  /** Two different watches share a key exactly when one splits the dotted text at a later dot than the other. */
  lemma CollideExactly(a: WatchConfig, b: WatchConfig)
    ensures WatchKey(a) == WatchKey(b) && a != b
       <==> (exists s :: SplitsLater(a, b, s)) || (exists s :: SplitsLater(b, a, s))
  {
    if WatchKey(a) == WatchKey(b) {
      if |a.database| < |b.database| {
        CollidesSplitsLater(a, b);
      } else if |b.database| < |a.database| {
        CollidesSplitsLater(b, a);
      } else {
        assert a.database == WatchKey(a)[..|a.database|] == b.database;
        assert a.table == WatchKey(a)[|a.database| + 1..] == b.table;
      }
    }
    forall s | SplitsLater(a, b, s) ensures WatchKey(a) == WatchKey(b) && a != b {
      SplitsLaterCollides(a, b, s);
    }
    forall s | SplitsLater(b, a, s) ensures WatchKey(a) == WatchKey(b) && a != b {
      SplitsLaterCollides(b, a, s);
    }
  }

  lemma PairsSeparateKeys(watches: seq<WatchConfig>)
    requires forall i :: 0 <= i < |watches| ==> '.' !in watches[i].database
    ensures KeysDistinct(watches) <==> PairsDistinct(watches)
  {
    if PairsDistinct(watches) {
      forall i, j | 0 <= i < j < |watches| ensures WatchKey(watches[i]) != WatchKey(watches[j]) {
        if WatchKey(watches[i]) == WatchKey(watches[j]) {
          KeyInjective(watches[i], watches[j]);
          assert false;
        }
      }
    } else {
      if KeysDistinct(watches) {
        KeysSeparatePairs(watches);
        assert false;
      }
    }
  }

  /** The quoted name used in SQL separates watches exactly; the key is strictly coarser. */
  lemma QuotedFinerThanKey(a: WatchConfig, b: WatchConfig)
    ensures QuoteQualified(a.database, a.table) == QuoteQualified(b.database, b.table) <==> a == b
    ensures a == b ==> WatchKey(a) == WatchKey(b)
  {
    if QuoteQualified(a.database, a.table) == QuoteQualified(b.database, b.table) {
      QualifiedInjective(a.database, a.table, b.database, b.table);
    }
  }

  /** Two different tables that Validate takes for one, so a configuration naming both is refused. */
  lemma DottedWatchesCollide()
    ensures WatchKey(WatchConfig("a.b", "c")) == WatchKey(WatchConfig("a", "b.c"))
    ensures QuoteQualified("a.b", "c") != QuoteQualified("a", "b.c")
  {
    assert "a.b" + "." + "c" == "a" + "." + "b.c";
    QuotedFinerThanKey(WatchConfig("a.b", "c"), WatchConfig("a", "b.c"));
    assert |"a.b"| != |"a"|;
  }
}
