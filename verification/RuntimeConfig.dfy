/** Loading, validating and exporting the runtime configuration. */
module RuntimeConfig {
  import opened Wrappers
  import opened JsonValues
  import opened Protocol

  datatype Config = Config(
    maxConnections: int,
    handshakeTimeout: int,
    maxMessageSize: int,
    maxWriteQueueSize: int,
    maxMessagesPerWindow: int,
    rateLimitWindow: int,
    maxBackoff: int,
    wsIdleTimeout: int,
    maxAmount: int,
    maxSequenceGap: int,
    securityEnabled: bool,
    metricsEnabled: bool)

  const DEFAULTS := Config(1000, 10, 65536, 100, 10, 1, 30, 86400, MAX_AMOUNT, 10000, true, true)

  /** The C++ type a number is read as; `Narrow` is int64 cut down to int before it is checked. */
  datatype Kind = Signed | Size | Narrow

  function ReadAs(j: Json, kind: Kind): Parsed<int> {
    match kind
    case Signed => var n :- GetInt64(j); Ok(n)
    case Size => var n :- GetUint64(j); Ok(n)
    case Narrow => var n :- GetInt64(j); Ok(ToInt32(n))
  }

  /** A numeric setting: absent, of another type or out of range, it takes its default. */
  function Setting(j: Json, key: string, kind: Kind, lo: int, hi: int, default: int): int {
    if !(j.Contains(key) && j.o[key].IsNumber()) then default else
      var n := ReadAs(j.o[key], kind);
      if n.Ok? && lo <= n.value <= hi then n.value else default
  }

  function Flag(j: Json, key: string, default: bool): bool {
    if j.Contains(key) && j.o[key].Boolean? then j.o[key].b else default
  }

  /** The configuration a JSON value describes, whether or not it is accepted. */
  function Described(j: Json): Config {
    Config(
      Setting(j, "max_connections", Narrow, 1, 10000, 1000),
      Setting(j, "handshake_timeout", Signed, 1, 300, 10),
      Setting(j, "max_message_size", Size, 1024, 1024 * 1024, 65536),
      Setting(j, "max_write_queue_size", Size, 10, 1000, 100),
      Setting(j, "max_messages_per_window", Size, 1, 1000, 10),
      Setting(j, "rate_limit_window", Signed, 1, 60, 1),
      Setting(j, "max_backoff", Signed, 1, 300, 30),
      Setting(j, "ws_idle_timeout", Signed, 1, 48 * 3600, 86400),
      Setting(j, "max_amount", Signed, 1000, MAX_AMOUNT, MAX_AMOUNT),
      Setting(j, "max_sequence_gap", Signed, 100, 100000, 10000),
      Flag(j, "security_enabled", true),
      Flag(j, "metrics_enabled", true))
  }

  /** The one rule between fields. */
  predicate Consistent(c: Config) {
    c.maxWriteQueueSize >= c.maxMessagesPerWindow
  }

  predicate InRange(c: Config) {
    && 1 <= c.maxConnections <= 10000
    && 1 <= c.handshakeTimeout <= 300
    && 1024 <= c.maxMessageSize <= 1024 * 1024
    && 10 <= c.maxWriteQueueSize <= 1000
    && 1 <= c.maxMessagesPerWindow <= 1000
    && 1 <= c.rateLimitWindow <= 60
    && 1 <= c.maxBackoff <= 300
    && 1 <= c.wsIdleTimeout <= 48 * 3600
    && 1000 <= c.maxAmount <= 1_000_000_000_000_000
    && 100 <= c.maxSequenceGap <= 100000
    && c.maxWriteQueueSize >= c.maxMessagesPerWindow
  }

  /** A fraction is cast to an integer type that cannot hold it. */
  predicate Overflows(j: Json, key: string, kind: Kind) {
    j.Contains(key) && ReadAs(j.o[key], kind).Undefined?
  }

  /** No setting does that. */
  predicate Castable(j: Json) {
    && !Overflows(j, "max_connections", Narrow)
    && !Overflows(j, "handshake_timeout", Signed)
    && !Overflows(j, "max_message_size", Size)
    && !Overflows(j, "max_write_queue_size", Size)
    && !Overflows(j, "max_messages_per_window", Size)
    && !Overflows(j, "rate_limit_window", Signed)
    && !Overflows(j, "max_backoff", Signed)
    && !Overflows(j, "ws_idle_timeout", Signed)
    && !Overflows(j, "max_amount", Signed)
    && !Overflows(j, "max_sequence_gap", Signed)
  }

  /** What export_to_json writes. */
  function Exported(c: Config, path: string, now: int64): Json
    requires InRange(c)
  {
    Object(map[
      "max_connections" := Integer(c.maxConnections),
      "handshake_timeout" := Integer(c.handshakeTimeout),
      "max_message_size" := Unsigned(c.maxMessageSize),
      "max_write_queue_size" := Unsigned(c.maxWriteQueueSize),
      "max_messages_per_window" := Unsigned(c.maxMessagesPerWindow),
      "rate_limit_window" := Integer(c.rateLimitWindow),
      "max_backoff" := Integer(c.maxBackoff),
      "ws_idle_timeout" := Integer(c.wsIdleTimeout),
      "max_amount" := Integer(c.maxAmount),
      "max_sequence_gap" := Integer(c.maxSequenceGap),
      "security_enabled" := Boolean(c.securityEnabled),
      "metrics_enabled" := Boolean(c.metricsEnabled),
      "config_path" := String(path),
      "last_reload_time" := Integer(now)])
  }

  // ----- the manager

  class RuntimeConfigManager {
    var config: Config

    constructor ()
      ensures config == DEFAULTS
    {
      config := DEFAULTS;
    }

    /** Reads a number if there is one, and replaces it by the default if it is out of bounds. */
    static method ReadNumber(j: Json, key: string, kind: Kind, lo: int, hi: int, default: int) returns (r: Parsed<int>)
      ensures r == if Overflows(j, key, kind) then Undefined else Ok(Setting(j, key, kind, lo, hi, default))
    {
      if !(j.Contains(key) && j.o[key].IsNumber()) {
        return Ok(default);
      }
      var value :- ReadAs(j.o[key], kind);
      if value < lo || value > hi {
        value := default;
      }
      return Ok(value);
    }

    /**
     * All or nothing: a refused load leaves the configuration as it was. Nothing is
     * promised of a load that converts a fraction too large for its integer type,
     * which C++ leaves undefined.
     */
    method LoadFromJson(j: Json) returns (r: Parsed<bool>)
      modifies this
      ensures r.Undefined? <==> !Castable(j)
      ensures !r.Undefined? ==>
                r == Ok(Described(j).maxWriteQueueSize >= Described(j).maxMessagesPerWindow)
      ensures r == Ok(true) ==> config == Described(j)
      ensures r == Ok(false) ==> config == old(config)
    {
      var connections :- ReadNumber(j, "max_connections", Narrow, 1, 10000, 1000);
      var handshake :- ReadNumber(j, "handshake_timeout", Signed, 1, 300, 10);
      var messageSize :- ReadNumber(j, "max_message_size", Size, 1024, 1024 * 1024, 65536);
      var queueSize :- ReadNumber(j, "max_write_queue_size", Size, 10, 1000, 100);
      var perWindow :- ReadNumber(j, "max_messages_per_window", Size, 1, 1000, 10);
      var window :- ReadNumber(j, "rate_limit_window", Signed, 1, 60, 1);
      var backoff :- ReadNumber(j, "max_backoff", Signed, 1, 300, 30);
      var idle :- ReadNumber(j, "ws_idle_timeout", Signed, 1, 48 * 3600, 86400);
      var amount :- ReadNumber(j, "max_amount", Signed, 1000, MAX_AMOUNT, MAX_AMOUNT);
      var gap :- ReadNumber(j, "max_sequence_gap", Signed, 100, 100000, 10000);
      var security, metrics := true, true;
      if j.Contains("security_enabled") && j.o["security_enabled"].Boolean? {
        security := j.o["security_enabled"].b;
      }
      if j.Contains("metrics_enabled") && j.o["metrics_enabled"].Boolean? {
        metrics := j.o["metrics_enabled"].b;
      }
      if queueSize < perWindow {
        return Ok(false);
      }
      config := Config(connections, handshake, messageSize, queueSize, perWindow, window, backoff, idle,
                       amount, gap, security, metrics);
      return Ok(true);
    }

    /** The path and the time of the last reload are the exporter's own additions. */
    method ExportToJson(path: string, now: int64) returns (j: Json)
      requires InRange(config)
      ensures j == Exported(config, path, now)
    {
      var o: map<string, Json> := map[];
      o := o["max_connections" := Integer(config.maxConnections)];
      o := o["handshake_timeout" := Integer(config.handshakeTimeout)];
      o := o["max_message_size" := Unsigned(config.maxMessageSize)];
      o := o["max_write_queue_size" := Unsigned(config.maxWriteQueueSize)];
      o := o["max_messages_per_window" := Unsigned(config.maxMessagesPerWindow)];
      o := o["rate_limit_window" := Integer(config.rateLimitWindow)];
      o := o["max_backoff" := Integer(config.maxBackoff)];
      o := o["ws_idle_timeout" := Integer(config.wsIdleTimeout)];
      o := o["max_amount" := Integer(config.maxAmount)];
      o := o["max_sequence_gap" := Integer(config.maxSequenceGap)];
      o := o["security_enabled" := Boolean(config.securityEnabled)];
      o := o["metrics_enabled" := Boolean(config.metricsEnabled)];
      o := o["config_path" := String(path)];
      o := o["last_reload_time" := Integer(now)];
      j := Object(o);
    }
  }

  // ----- reachable configurations

  /** The configuration after a sequence of loads, the refused ones included. */
  function AfterLoads(loads: seq<Json>): Config {
    if loads == [] then DEFAULTS else
      var c := Described(loads[|loads| - 1]);
      if Consistent(c) then c else AfterLoads(loads[..|loads| - 1])
  }

  /** Whatever was loaded, every setting is in range and the queue holds a window's messages. */
  lemma {:induction false} ReachableInRange(loads: seq<Json>)
    ensures InRange(AfterLoads(loads))
  {
    if loads != [] && !Consistent(Described(loads[|loads| - 1])) {
      ReachableInRange(loads[..|loads| - 1]);
    }
  }

  // ----- what numbers mean

  lemma ReadWhole(j: Json)
    requires j.IsInteger() || j.Real?
    ensures GetInt64(j).Ok? ==> GetInt64(j).value == ToInt64(WholeValue(j))
    ensures GetUint64(j).Ok? ==> GetUint64(j).value == ToUint64(WholeValue(j))
  {
    WrapIsIdentity(WholeValue(j));
  }

  /** A setting is its number if in range and the default otherwise, wrapping conversions or not. */
  lemma NumberSetting(j: Json, key: string, kind: Kind, lo: int, hi: int, default: int)
    requires j.Contains(key) && (j.o[key].IsInteger() || j.o[key].Real?) && kind != Narrow
    requires ReadAs(j.o[key], kind).Ok?
    requires 0 < lo && hi < TWO_TO_THE_63
    ensures Setting(j, key, kind, lo, hi, default)
            == (var n := WholeValue(j.o[key]); if lo <= n <= hi then n else default)
  {
    var n := WholeValue(j.o[key]);
    ReadWhole(j.o[key]);
    WrapIsIdentity(n);
    ReadUnsigned(j.o[key]);
  }

  /** No number below zero is taken for a small one. */
  lemma ReadUnsigned(j: Json)
    requires j.IsInteger() || j.Real?
    ensures var n := WholeValue(j);
            GetUint64(j).Ok? ==>
              GetUint64(j).value == n || (n < 0 && GetUint64(j).value == n + TWO_TO_THE_64 >= TWO_TO_THE_63)
  {
    if j.Integer? && j.i < 0 { assert j.i % 0x1_0000_0000_0000_0000 == j.i + TWO_TO_THE_64; }
  }

  // ----- what a configuration file asks for

  /** The file has a finite number under this key. */
  predicate HasNumber(j: Json, key: string) {
    j.Contains(key) && (j.o[key].IsInteger() || j.o[key].Real?)
  }

  /** What the file asks for where a number from `lo` to `hi` is expected, and `default` if that is none. */
  function Asked(j: Json, key: string, lo: int, hi: int, default: int): int {
    if HasNumber(j, key) && lo <= WholeValue(j.o[key]) <= hi then WholeValue(j.o[key]) else default
  }

  /** The same for a switch. */
  function Switched(j: Json, key: string, default: bool): bool {
    if j.Contains(key) && (j.o[key] == Boolean(true) || j.o[key] == Boolean(false)) then j.o[key] == Boolean(true)
    else default
  }

  lemma SettingIsAsked(j: Json, key: string, kind: Kind, lo: int, hi: int, default: int)
    requires kind != Narrow && !Overflows(j, key, kind) && 0 < lo && hi < TWO_TO_THE_63
    ensures Setting(j, key, kind, lo, hi, default) == Asked(j, key, lo, hi, default)
  {
    if HasNumber(j, key) {
      NumberSetting(j, key, kind, lo, hi, default);
    }
  }

  lemma LimitsAsked(j: Json)
    requires Castable(j)
    ensures var c := Described(j);
            && c.maxMessageSize == Asked(j, "max_message_size", 1024, 1_048_576, 65536)
            && c.maxWriteQueueSize == Asked(j, "max_write_queue_size", 10, 1000, 100)
            && c.maxMessagesPerWindow == Asked(j, "max_messages_per_window", 1, 1000, 10)
            && c.maxAmount == Asked(j, "max_amount", 1000, 1_000_000_000_000_000, 1_000_000_000_000_000)
            && c.maxSequenceGap == Asked(j, "max_sequence_gap", 100, 100_000, 10_000)
  {
    SettingIsAsked(j, "max_message_size", Size, 1024, 1024 * 1024, 65536);
    SettingIsAsked(j, "max_write_queue_size", Size, 10, 1000, 100);
    SettingIsAsked(j, "max_messages_per_window", Size, 1, 1000, 10);
    SettingIsAsked(j, "max_amount", Signed, 1000, MAX_AMOUNT, MAX_AMOUNT);
    SettingIsAsked(j, "max_sequence_gap", Signed, 100, 100000, 10000);
  }

  lemma TimesAsked(j: Json)
    requires Castable(j)
    ensures var c := Described(j);
            && c.handshakeTimeout == Asked(j, "handshake_timeout", 1, 300, 10)
            && c.rateLimitWindow == Asked(j, "rate_limit_window", 1, 60, 1)
            && c.maxBackoff == Asked(j, "max_backoff", 1, 300, 30)
            && c.wsIdleTimeout == Asked(j, "ws_idle_timeout", 1, 172_800, 86_400)
            && c.securityEnabled == Switched(j, "security_enabled", true)
            && c.metricsEnabled == Switched(j, "metrics_enabled", true)
  {
    SettingIsAsked(j, "handshake_timeout", Signed, 1, 300, 10);
    SettingIsAsked(j, "rate_limit_window", Signed, 1, 60, 1);
    SettingIsAsked(j, "max_backoff", Signed, 1, 300, 30);
    SettingIsAsked(j, "ws_idle_timeout", Signed, 1, 48 * 3600, 86400);
  }

  /** Of `max_connections` only the lower 32 bits count. */
  lemma ConnectionsAsked(j: Json)
    requires Castable(j)
    ensures Described(j).maxConnections
            == if HasNumber(j, "max_connections") then
                 var n := WholeValue(j.o["max_connections"]) % 0x1_0000_0000;
                 if 1 <= n <= 10000 then n else 1000
               else 1000
  {
    if HasNumber(j, "max_connections") {
      ReadWhole(j.o["max_connections"]);
      NarrowTwice(WholeValue(j.o["max_connections"]));
    }
  }

  predicate NotANumber(j: Json, key: string) {
    !(j.Contains(key) && j.o[key].IsNumber())
  }

  predicate NotASwitch(j: Json, key: string) {
    !(j.Contains(key) && j.o[key].Boolean?)
  }

  /** Whatever a file leaves out, or gives with another type, takes the default of config.hpp. */
  lemma DefaultsFillIn(j: Json)
    ensures var c := Described(j);
            && (NotANumber(j, "max_connections") ==> c.maxConnections == 1000)
            && (NotANumber(j, "handshake_timeout") ==> c.handshakeTimeout == 10)
            && (NotANumber(j, "max_message_size") ==> c.maxMessageSize == 65536)
            && (NotANumber(j, "max_write_queue_size") ==> c.maxWriteQueueSize == 100)
            && (NotANumber(j, "max_messages_per_window") ==> c.maxMessagesPerWindow == 10)
            && (NotANumber(j, "rate_limit_window") ==> c.rateLimitWindow == 1)
            && (NotANumber(j, "max_backoff") ==> c.maxBackoff == 30)
            && (NotANumber(j, "ws_idle_timeout") ==> c.wsIdleTimeout == 86400)
            && (NotANumber(j, "max_amount") ==> c.maxAmount == 1_000_000_000_000_000)
            && (NotANumber(j, "max_sequence_gap") ==> c.maxSequenceGap == 10000)
            && (NotASwitch(j, "security_enabled") ==> c.securityEnabled)
            && (NotASwitch(j, "metrics_enabled") ==> c.metricsEnabled)
  {
  }

  /** A file that says nothing describes what the server starts with. */
  lemma EmptyFileIsDefault()
    ensures Described(Object(map[])) == DEFAULTS == AfterLoads([]) == AfterLoads([Object(map[])])
    ensures DEFAULTS == Config(1000, 10, 65536, 100, 10, 1, 30, 86400, 1_000_000_000_000_000, 10000, true, true)
  {
    DefaultsFillIn(Object(map[]));
  }

  /** A load is refused exactly when the write queue would not hold a window's messages. */
  lemma RefusedExactly(before: seq<Json>, j: Json)
    requires Castable(j)
    ensures var queue := Asked(j, "max_write_queue_size", 10, 1000, 100);
            var perWindow := Asked(j, "max_messages_per_window", 1, 1000, 10);
            AfterLoads(before + [j]) == if queue >= perWindow then Described(j) else AfterLoads(before)
  {
    LimitsAsked(j);
    LoadForgets(before, before, j);
  }

  /**
   * max_connections is narrowed to int before its range check, so the same is
   * true of it exactly when the value modulo 2^32 does not fall into the range
   * by accident (or onto the default, where the accident does not show).
   */
  lemma ConnectionsSetting(j: Json)
    requires j.Contains("max_connections") && (j.o["max_connections"].IsInteger() || j.o["max_connections"].Real?)
    requires GetInt64(j.o["max_connections"]).Ok?
    ensures var n := WholeValue(j.o["max_connections"]);
            Described(j).maxConnections == (if 1 <= n <= 10000 then n else 1000)
            <==> 1 <= n <= 10000 || !(1 <= n % TWO_TO_THE_32 <= 10000) || n % TWO_TO_THE_32 == 1000
  {
    var n := WholeValue(j.o["max_connections"]);
    ReadWhole(j.o["max_connections"]);
    WrapIsIdentity(n);
    NarrowTwice(n);
  }

  lemma NarrowTwice(n: int)
    ensures ToInt32(ToInt64(n)) == ToInt32(n)
  {
    var q := n / TWO_TO_THE_64;
    assert n == q * TWO_TO_THE_64 + n % TWO_TO_THE_64;
    SameModulo(n % TWO_TO_THE_64, q * TWO_TO_THE_32);
    SameModulo(n % TWO_TO_THE_64, -TWO_TO_THE_32);
  }

  lemma SameModulo(n: int, q: int)
    ensures (n + q * TWO_TO_THE_32) % TWO_TO_THE_32 == n % TWO_TO_THE_32
  {
  }

  /** A number far out of range that is taken for one connection, with or without a fraction. */
  lemma HugeConnectionsBecomeOne()
    ensures Described(Object(map["max_connections" := Unsigned(0x1_0000_0001)])).maxConnections == 1
    ensures Described(Object(map["max_connections" := Real(4294967297.5)])).maxConnections == 1
  {
    HugeNumber(Unsigned(0x1_0000_0001));
    HugeNumber(Real(4294967297.5));
  }

  lemma HugeNumber(number: Json)
    requires number == Unsigned(0x1_0000_0001) || number == Real(4294967297.5)
    ensures Described(Object(map["max_connections" := number])).maxConnections == 1
  {
    assert WholeValue(number) == 0x1_0000_0001;
    WrapIsIdentity(0x1_0000_0001);
    ReadWhole(number);
  }

  // ----- export and load

  /** `j` holds the number `n` under `key`, signed or unsigned. */
  predicate HoldsNumber(j: Json, key: string, n: int) {
    && -TWO_TO_THE_63 <= n < TWO_TO_THE_63
    && j.Contains(key)
    && (j.o[key] == Integer(n) || (0 <= n && j.o[key] == Unsigned(n)))
  }

  predicate HoldsFlag(j: Json, key: string, b: bool) {
    j.Contains(key) && j.o[key] == Boolean(b)
  }

  predicate HoldsLimits(j: Json, c: Config) {
    && HoldsNumber(j, "max_connections", c.maxConnections)
    && HoldsNumber(j, "max_message_size", c.maxMessageSize)
    && HoldsNumber(j, "max_write_queue_size", c.maxWriteQueueSize)
    && HoldsNumber(j, "max_messages_per_window", c.maxMessagesPerWindow)
    && HoldsNumber(j, "max_amount", c.maxAmount)
    && HoldsNumber(j, "max_sequence_gap", c.maxSequenceGap)
  }

  predicate HoldsTimes(j: Json, c: Config) {
    && HoldsNumber(j, "handshake_timeout", c.handshakeTimeout)
    && HoldsNumber(j, "rate_limit_window", c.rateLimitWindow)
    && HoldsNumber(j, "max_backoff", c.maxBackoff)
    && HoldsNumber(j, "ws_idle_timeout", c.wsIdleTimeout)
    && HoldsFlag(j, "security_enabled", c.securityEnabled)
    && HoldsFlag(j, "metrics_enabled", c.metricsEnabled)
  }

  lemma ExportedLimits(c: Config, path: string, now: int64)
    requires InRange(c)
    ensures HoldsLimits(Exported(c, path, now), c)
  {
  }

  lemma ExportedTimes(c: Config, path: string, now: int64)
    requires InRange(c)
    ensures HoldsTimes(Exported(c, path, now), c)
  {
  }

  lemma ReparseHolds(j: Json, c: Config)
    requires j.Object? && HoldsLimits(j, c) && HoldsTimes(j, c)
    ensures HoldsLimits(Reparse(j), c) && HoldsTimes(Reparse(j), c)
  {
  }

  lemma NumberRestored(j: Json, key: string, kind: Kind, lo: int, hi: int, default: int, n: int)
    requires HoldsNumber(j, key, n) && 0 <= lo <= n <= hi && (kind == Narrow ==> hi <= 10000)
    ensures Setting(j, key, kind, lo, hi, default) == n
  {
    WrapIsIdentity(n);
  }

  lemma FieldsRestored(j: Json, c: Config)
    requires InRange(c) && HoldsLimits(j, c) && HoldsTimes(j, c)
    ensures Described(j) == c
  {
    NumberRestored(j, "max_connections", Narrow, 1, 10000, 1000, c.maxConnections);
    NumberRestored(j, "handshake_timeout", Signed, 1, 300, 10, c.handshakeTimeout);
    NumberRestored(j, "max_message_size", Size, 1024, 1024 * 1024, 65536, c.maxMessageSize);
    NumberRestored(j, "max_write_queue_size", Size, 10, 1000, 100, c.maxWriteQueueSize);
    NumberRestored(j, "max_messages_per_window", Size, 1, 1000, 10, c.maxMessagesPerWindow);
    NumberRestored(j, "rate_limit_window", Signed, 1, 60, 1, c.rateLimitWindow);
    NumberRestored(j, "max_backoff", Signed, 1, 300, 30, c.maxBackoff);
    NumberRestored(j, "ws_idle_timeout", Signed, 1, 48 * 3600, 86400, c.wsIdleTimeout);
    NumberRestored(j, "max_amount", Signed, 1000, MAX_AMOUNT, MAX_AMOUNT, c.maxAmount);
    NumberRestored(j, "max_sequence_gap", Signed, 100, 100000, 10000, c.maxSequenceGap);
  }

  /**
   * Loading what was exported, from memory or from its text, is accepted and
   * restores every setting of a reachable configuration.
   */
  lemma ExportRestores(loads: seq<Json>, path: string, now: int64)
    ensures InRange(AfterLoads(loads))
    ensures var j := Exported(AfterLoads(loads), path, now);
            && AfterLoads([j]) == AfterLoads(loads)
            && AfterLoads([Reparse(j)]) == AfterLoads(loads)
  {
    ReachableInRange(loads);
    var c := AfterLoads(loads);
    var j := Exported(c, path, now);
    ExportedLimits(c, path, now);
    ExportedTimes(c, path, now);
    ReparseHolds(j, c);
    FieldsRestored(j, c);
    FieldsRestored(Reparse(j), c);
  }

  /** What a load leaves does not depend on what was configured before, unless it is refused. */
  lemma LoadForgets(before1: seq<Json>, before2: seq<Json>, j: Json)
    ensures Consistent(Described(j)) ==> AfterLoads(before1 + [j]) == AfterLoads(before2 + [j]) == Described(j)
    ensures !Consistent(Described(j)) ==> AfterLoads(before1 + [j]) == AfterLoads(before1)
  {
    assert (before1 + [j])[..|before1|] == before1;
    assert (before2 + [j])[..|before2|] == before2;
  }
}
