/**
 * Change detection and the monitoring cycle: for every active monitor, read
 * the product's inventory (bypassing the client cache), append a stock record
 * carrying the change classification and threshold check, and publish the
 * resulting stock events; a monitor whose read fails is rolled back and
 * reported with a MONITOR_ERROR event.
 *
 * The events handed to the module-level bus are returned as a trace.
 */
module Monitoring {
  import opened Wrappers
  import opened Json
  import opened Seqs
  import Whmcs
  import opened Catalog
  import opened Models
  import opened Events

  // ---------------------------------------------------------------- the detector

  /** `StockChangeDetector.RESTOCK_THRESHOLD`. */
  const RESTOCK_THRESHOLD: int := 0

  /** `detect_change_type`. */
  function DetectChangeType(currentQuantity: int, previousQuantity: Option<int>, delta: int): (k: ChangeKind)
    ensures k == Initial <==> previousQuantity.None?
    ensures previousQuantity.Some? ==>
      && (k == Restock <==> delta > 0)
      && (k == Purchase <==> delta < 0)
      && (k == Unchanged <==> delta == 0)
  {
    if previousQuantity.None? then Initial
    else if delta > RESTOCK_THRESHOLD then Restock
    else if delta < 0 then Purchase
    else Unchanged
  }

  /** `check_threshold_breach`: the low bound is tested first and wins when both are crossed. */
  function CheckThresholdBreach(currentQuantity: int, thresholdLow: Option<int>, thresholdHigh: Option<int>)
    : (r: (bool, Option<ThresholdKind>))
    ensures r.0 <==> r.1.Some?
    ensures r.1 == Some(Low) <==> thresholdLow.Some? && currentQuantity <= thresholdLow.value
    ensures r.1 == Some(High) <==>
      !(thresholdLow.Some? && currentQuantity <= thresholdLow.value) &&
      thresholdHigh.Some? && currentQuantity >= thresholdHigh.value
  {
    if thresholdLow.Some? && currentQuantity <= thresholdLow.value then (true, Some(Low))
    else if thresholdHigh.Some? && currentQuantity >= thresholdHigh.value then (true, Some(High))
    else (false, None)
  }

  // ---------------------------------------------------------------- queries

  /** The positions of the active configurations, in table order (`_get_active_monitors`). */
  function ActivePositions(configs: seq<MonitorConfig>): (ps: seq<nat>)
    ensures forall j | 0 <= j < |ps| :: ps[j] < |configs| && configs[ps[j]].isActive
    ensures forall i | 0 <= i < |configs| && configs[i].isActive :: i in ps
    ensures forall j, k | 0 <= j < k < |ps| :: ps[j] < ps[k]
  {
    if configs == [] then []
    else
      var n := |configs| - 1;
      var init := ActivePositions(configs[..n]);
      assert forall j | 0 <= j < |init| :: configs[init[j]] == configs[..n][init[j]];
      init + (if configs[n].isActive then [n] else [])
  }

  /** `_get_active_monitors`: exactly the active configurations, in table order. */
  function ActiveMonitors(configs: seq<MonitorConfig>): (ms: seq<MonitorConfig>)
    ensures |ms| == |ActivePositions(configs)|
    ensures forall m | m in ms :: m in configs && m.isActive
    ensures forall m | m in configs && m.isActive :: m in ms
  {
    var ps := ActivePositions(configs);
    var ms := seq(|ps|, j requires 0 <= j < |ps| => configs[ps[j]]);
    assert forall m | m in configs && m.isActive :: m in ms by {
      forall m | m in configs && m.isActive
        ensures m in ms
      {
        var i :| 0 <= i < |configs| && configs[i] == m;
        var j :| 0 <= j < |ps| && ps[j] == i;
        assert ms[j] == m;
      }
    }
    ms
  }

  /**
   * `_get_latest_stock_record`: a record of the monitor with the greatest
   * `created_at`; SQL leaves the order of equal instants open, and so does the
   * contract.
   */
  function LatestRecord(records: seq<StockRecord>, monitorConfigId: nat): (r: Option<StockRecord>)
    ensures r.None? <==> forall x | x in records :: x.monitorConfigId != monitorConfigId
    ensures r.Some? ==>
      && r.value in records
      && r.value.monitorConfigId == monitorConfigId
      && forall x | x in records && x.monitorConfigId == monitorConfigId :: x.createdAt <= r.value.createdAt
  {
    if records == [] then None
    else
      var init := records[..|records| - 1];
      var last := records[|records| - 1];
      assert records == init + [last];
      var rest := LatestRecord(init, monitorConfigId);
      if last.monitorConfigId != monitorConfigId then rest
      else if rest.Some? && rest.value.createdAt > last.createdAt then rest
      else Some(last)
  }

  /** A record stamped after every stored one becomes its monitor's latest. */
  lemma LatestAfterAppend(records: seq<StockRecord>, rec: StockRecord)
    requires forall x | x in records :: x.createdAt < rec.createdAt
    ensures LatestRecord(records + [rec], rec.monitorConfigId) == Some(rec)
  {
    assert (records + [rec])[..|records|] == records;
  }

  // ---------------------------------------------------------------- one check

  /** The metadata every stock event of a check carries. */
  function RecordMetadata(rec: StockRecord): Dict {
    [("change_type", match rec.changeType case Some(k) => JStr(ChangeKindName(k)) case None => JNull),
     ("stock_control", JBool(rec.stockControlEnabled)),
     ("available", JBool(rec.available))]
  }

  /** An event about a check, carrying the fields shared by all of them (`base_event_data`). */
  function CheckEvent(t: EventType, m: MonitorConfig, rec: StockRecord, previous: Option<int>, now: nat): StockEvent {
    StockEvent(t, m.id, m.productId, m.productName, Some(rec.quantity), previous, Some(rec.delta),
               None, None, None, RecordMetadata(rec), now)
  }

  /** The threshold part of `_emit_events`. */
  function ThresholdEvents(m: MonitorConfig, rec: StockRecord, previous: Option<int>, now: nat): (es: seq<StockEvent>)
    ensures |es| <= 1
    ensures |es| == 1 <==> rec.thresholdBreached && m.notifyOnThreshold
    ensures |es| == 1 ==>
      && (es[0].eventType == ThresholdBreachLow <==> rec.thresholdType == Some(Low))
      && (es[0].eventType == ThresholdBreachHigh <==> rec.thresholdType != Some(Low))
      && es[0].thresholdValue == (if rec.thresholdType == Some(Low) then m.thresholdLow else m.thresholdHigh)
      && es[0].delta == Some(rec.delta) && es[0].quantity == Some(rec.quantity)
      && (rec.thresholdType == Some(Low) ==> es[0].thresholdType == Some("low"))
      && (rec.thresholdType == Some(High) ==> es[0].thresholdType == Some("high"))
      && es[0].productName == m.productName && es[0].previousQuantity == previous
  {
    if rec.thresholdBreached && m.notifyOnThreshold then
      var isLow := rec.thresholdType == Some(Low);
      var e := CheckEvent(if isLow then ThresholdBreachLow else ThresholdBreachHigh, m, rec, previous, now);
      [e.(thresholdValue := if isLow then m.thresholdLow else m.thresholdHigh,
          thresholdType := match rec.thresholdType case Some(k) => Some(ThresholdKindName(k)) case None => None)]
    else []
  }

  /** The stock-movement part of `_emit_events`: at most one event. */
  function DeltaEvents(m: MonitorConfig, rec: StockRecord, previous: Option<int>, now: nat): (es: seq<StockEvent>)
    ensures |es| <= 1
    ensures (|es| == 1 && es[0].eventType == StockIncreased) <==> rec.delta > 0 && m.notifyOnRestock
    ensures (|es| == 1 && es[0].eventType == StockDecreased) <==> rec.delta < 0 && m.notifyOnPurchase
    ensures (|es| == 1 && es[0].eventType == StockUnchanged) <==> rec.delta == 0 && previous.Some?
    ensures |es| == 1 ==> es[0].delta == Some(rec.delta) && es[0].previousQuantity == previous
  {
    if rec.delta > 0 && m.notifyOnRestock then [CheckEvent(StockIncreased, m, rec, previous, now)]
    else if rec.delta < 0 && m.notifyOnPurchase then [CheckEvent(StockDecreased, m, rec, previous, now)]
    else if rec.delta == 0 && previous.Some? then [CheckEvent(StockUnchanged, m, rec, previous, now)]
    else []
  }

  /** `_emit_events`: the threshold event first, then the movement event. */
  function EmitEvents(m: MonitorConfig, rec: StockRecord, previous: Option<int>, now: nat): (es: seq<StockEvent>)
    ensures es == ThresholdEvents(m, rec, previous, now) + DeltaEvents(m, rec, previous, now)
    ensures |es| <= 2
    ensures forall e | e in es :: e.eventType != MonitorError && e.monitorConfigId == m.id && e.productId == m.productId
  {
    ThresholdEvents(m, rec, previous, now) + DeltaEvents(m, rec, previous, now)
  }

  /** What one successful `_check_monitor` produces. */
  datatype CheckStep = CheckStep(
    config: MonitorConfig,
    record: StockRecord,
    changeDetected: bool,
    thresholdBreached: bool,
    events: seq<StockEvent>)

  /** The configuration after a read: the product name is filled in once, from a truthy upstream name. */
  function NamedConfig(m: MonitorConfig, inv: Inventory): (c: MonitorConfig)
    ensures c == m.(productName := c.productName)
    ensures c.productName == (if m.productName.None? && Truthy(inv.name) then Some(inv.name) else m.productName)
  {
    if m.productName.None? && Truthy(inv.name) then m.(productName := Some(inv.name)) else m
  }

  /** The record a check stores for an inventory reading. */
  function ObservedRecord(m: MonitorConfig, inv: Inventory, previous: Option<int>, id: nat, now: nat): (r: StockRecord)
    ensures r.id == id && r.monitorConfigId == m.id && r.createdAt == now
    ensures r.quantity == inv.quantity
    ensures previous.Some? ==> previous.value + r.delta == inv.quantity
    ensures previous.None? ==> r.delta == 0 && r.changeType == Some(Initial)
    ensures r.changeType == Some(DetectChangeType(inv.quantity, previous, r.delta))
    ensures (r.thresholdBreached, r.thresholdType) == CheckThresholdBreach(inv.quantity, m.thresholdLow, m.thresholdHigh)
    ensures r.stockControlEnabled == inv.stockControl && r.available == inv.available
    ensures r.metadataJson.None?
  {
    var delta := if previous.Some? then inv.quantity - previous.value else 0;
    var (breached, kind) := CheckThresholdBreach(inv.quantity, m.thresholdLow, m.thresholdHigh);
    StockRecord(id, m.id, inv.quantity, delta, inv.stockControl, inv.available,
                Some(DetectChangeType(inv.quantity, previous, delta)), breached, kind, None, now)
  }

  /** `_check_monitor` after a successful read, given the stored records, the next record id and the instant. */
  function CheckOutcome(m: MonitorConfig, inv: Inventory, records: seq<StockRecord>, id: nat, now: nat): (s: CheckStep)
    ensures s.record == ObservedRecord(m, inv, LatestQuantity(records, m.id), id, now)
    ensures s.config == NamedConfig(m, inv)
    ensures s.changeDetected <==> s.record.delta != 0
    ensures s.thresholdBreached == s.record.thresholdBreached
    ensures s.events == EmitEvents(s.config, s.record, LatestQuantity(records, m.id), now)
  {
    var previous := LatestQuantity(records, m.id);
    var config := NamedConfig(m, inv);
    var rec := ObservedRecord(m, inv, previous, id, now);
    CheckStep(config, rec, rec.delta != 0, rec.thresholdBreached, EmitEvents(config, rec, previous, now))
  }

  /** The quantity of the monitor's latest record, if it has one. */
  function LatestQuantity(records: seq<StockRecord>, monitorConfigId: nat): (q: Option<int>)
    ensures q.None? <==> LatestRecord(records, monitorConfigId).None?
    ensures q.Some? ==> q.value == LatestRecord(records, monitorConfigId).value.quantity
  {
    match LatestRecord(records, monitorConfigId)
    case Some(r) => Some(r.quantity)
    case None => None
  }

  /** The first observation of a product never reports STOCK_UNCHANGED, nor any movement. */
  lemma FirstObservationHasNoMovementEvent(m: MonitorConfig, inv: Inventory, records: seq<StockRecord>, id: nat, now: nat)
    requires forall x | x in records :: x.monitorConfigId != m.id
    ensures CheckOutcome(m, inv, records, id, now).record.changeType == Some(Initial)
    ensures DeltaEvents(CheckOutcome(m, inv, records, id, now).config, CheckOutcome(m, inv, records, id, now).record, None, now) == []
    ensures !CheckOutcome(m, inv, records, id, now).changeDetected
  {
  }

  /** Whether a change is detected does not depend on which notifications are switched on. */
  lemma ChangeDetectionIgnoresNotifyFlags(
    m: MonitorConfig, restock: bool, purchase: bool, threshold: bool,
    inv: Inventory, records: seq<StockRecord>, id: nat, now: nat)
    ensures
      var m' := m.(notifyOnRestock := restock, notifyOnPurchase := purchase, notifyOnThreshold := threshold);
      CheckOutcome(m', inv, records, id, now).changeDetected == CheckOutcome(m, inv, records, id, now).changeDetected &&
      CheckOutcome(m', inv, records, id, now).record == CheckOutcome(m, inv, records, id, now).record
  {
  }

  /** Two readings in a row: the second record's delta is the difference of the two quantities. */
  lemma ConsecutiveReadingsDelta(
    m: MonitorConfig, inv1: Inventory, inv2: Inventory, records: seq<StockRecord>, id: nat, t1: nat, t2: nat)
    requires forall x | x in records :: x.createdAt < t1
    requires t1 <= t2
    ensures
      var first := CheckOutcome(m, inv1, records, id, t1);
      var second := CheckOutcome(first.config, inv2, records + [first.record], id + 1, t2);
      second.record.delta == inv2.quantity - inv1.quantity &&
      (second.changeDetected <==> inv1.quantity != inv2.quantity)
  {
    var first := CheckOutcome(m, inv1, records, id, t1);
    LatestAfterAppend(records, first.record);
  }

  // ---------------------------------------------------------------- the cycle's results

  datatype CycleResults = CycleResults(
    startedAt: nat,
    monitorsChecked: nat,
    recordsCreated: nat,
    errors: nat,
    changesDetected: nat,
    thresholdBreaches: nat,
    completedAt: nat)

  /** The `results` dictionary, in the order its keys are set. */
  function ResultsDict(r: CycleResults): (d: Dict)
    ensures DistinctKeys(d)
    ensures Lookup(d, "started_at") == Some(JInt(r.startedAt))
    ensures Lookup(d, "monitors_checked") == Some(JInt(r.monitorsChecked))
    ensures Lookup(d, "records_created") == Some(JInt(r.recordsCreated))
    ensures Lookup(d, "errors") == Some(JInt(r.errors))
    ensures Lookup(d, "changes_detected") == Some(JInt(r.changesDetected))
    ensures Lookup(d, "threshold_breaches") == Some(JInt(r.thresholdBreaches))
    ensures Lookup(d, "completed_at") == Some(JInt(r.completedAt))
  {
    var d := [("started_at", JInt(r.startedAt)),
              ("monitors_checked", JInt(r.monitorsChecked)),
              ("records_created", JInt(r.recordsCreated)),
              ("errors", JInt(r.errors)),
              ("changes_detected", JInt(r.changesDetected)),
              ("threshold_breaches", JInt(r.thresholdBreaches)),
              ("completed_at", JInt(r.completedAt))];
    assert DistinctKeys(d);
    LookupDistinct(d, 0);
    LookupDistinct(d, 1);
    LookupDistinct(d, 2);
    LookupDistinct(d, 3);
    LookupDistinct(d, 4);
    LookupDistinct(d, 5);
    LookupDistinct(d, 6);
    d
  }

  function StartedEvent(now: nat): StockEvent {
    BareEvent(MonitorStarted, 0, 0, [("timestamp", JInt(now))], now)
  }

  function CompletedEvent(r: CycleResults, now: nat): StockEvent {
    BareEvent(MonitorCompleted, 0, 0, ResultsDict(r), now)
  }

  /** The MONITOR_ERROR event for a monitor whose check raised `e`. */
  function ErrorEvent(m: MonitorConfig, e: Whmcs.ClientError, now: nat): (ev: StockEvent)
    ensures ev.eventType == MonitorError && ev.monitorConfigId == m.id && ev.productId == m.productId
    ensures ev.errorMessage == Some(Whmcs.Message(e))
    ensures Lookup(ev.metadata, "error_type") == Some(JStr(Whmcs.TypeName(e)))
  {
    BareEvent(MonitorError, m.id, m.productId, [("error_type", JStr(Whmcs.TypeName(e)))], now)
      .(productName := m.productName, errorMessage := Some(Whmcs.Message(e)))
  }

  /** The types of a trace of events, in order. */
  function EventTypes(es: seq<StockEvent>): (ts: seq<EventType>)
    ensures |ts| == |es| && forall i | 0 <= i < |es| :: ts[i] == es[i].eventType
  {
    seq(|es|, i requires 0 <= i < |es| => es[i].eventType)
  }

  /** The number of events of type `t`. */
  function CountType(es: seq<StockEvent>, t: EventType): nat {
    multiset(EventTypes(es))[t]
  }

  lemma CountTypeAppend(a: seq<StockEvent>, b: seq<StockEvent>, t: EventType)
    ensures CountType(a + b, t) == CountType(a, t) + CountType(b, t)
  {
    assert EventTypes(a + b) == EventTypes(a) + EventTypes(b);
  }

  lemma CountTypeAbsent(es: seq<StockEvent>, t: EventType)
    requires forall e | e in es :: e.eventType != t
    ensures CountType(es, t) == 0
  {
    assert t !in EventTypes(es);
  }

  /** Events of other types around a trace do not change its count of type `t`. */
  lemma CountTypeFramed(first: StockEvent, es: seq<StockEvent>, last: StockEvent, t: EventType)
    requires first.eventType != t && last.eventType != t
    ensures CountType([first] + es + [last], t) == CountType(es, t)
  {
    CountTypeAppend([first], es, t);
    CountTypeAppend([first] + es, [last], t);
    assert [first][..0] == [] && [last][..0] == [];
  }

  /** The configuration columns a monitoring cycle never writes. */
  predicate SameSettings(a: MonitorConfig, b: MonitorConfig) {
    && a.id == b.id && a.productId == b.productId && a.isActive == b.isActive
    && a.thresholdLow == b.thresholdLow && a.thresholdHigh == b.thresholdHigh
    && a.notifyOnRestock == b.notifyOnRestock && a.notifyOnPurchase == b.notifyOnPurchase
    && a.notifyOnThreshold == b.notifyOnThreshold
  }

  /** Configurations that keep their keys keep the store rules. */
  lemma SameKeysKeepStore(cs: seq<MonitorConfig>, cs': seq<MonitorConfig>, records: seq<StockRecord>)
    requires |cs| == |cs'|
    requires forall i | 0 <= i < |cs| :: cs'[i].id == cs[i].id && cs'[i].productId == cs[i].productId
    requires ValidStore(Store(cs, records))
    ensures ValidStore(Store(cs', records))
  {
    forall r | r in records
      ensures HasConfigId(cs', r.monitorConfigId)
    {
      var c :| c in cs && c.id == r.monitorConfigId;
      var i :| 0 <= i < |cs| && cs[i] == c;
      assert cs'[i] in cs';
    }
    assert Pairwise(DifferentConfigIds, cs') by {
      forall i, j | 0 <= i < j < |cs'|
        ensures DifferentConfigIds(cs'[i], cs'[j])
      {
        assert DifferentConfigIds(cs[i], cs[j]);
      }
    }
    assert Pairwise(DifferentProducts, cs') by {
      forall i, j | 0 <= i < j < |cs'|
        ensures DifferentProducts(cs'[i], cs'[j])
      {
        assert DifferentProducts(cs[i], cs[j]);
      }
    }
  }

  /**
   * What a cycle does to one configuration: its read succeeds and it gets the
   * name `NamedConfig` fills in, a `last_checked_at` instant and, on commit, a
   * later `updated_at`; or its read fails and it is left as it was.
   */
  predicate CheckedConfig(src: InventorySource, before: MonitorConfig, after: MonitorConfig) {
    && SameSettings(after, before)
    && var read := src(before.productId);
       if read.Success? then
         && after.lastCheckedAt.Some? && after.lastCheckedAt.value < after.updatedAt
         && after == NamedConfig(before, read.value).(lastCheckedAt := after.lastCheckedAt, updatedAt := after.updatedAt)
       else after == before
  }

  /** The configurations after the monitors at the positions `done` were checked; the others untouched. */
  predicate ConfigsAfter(src: InventorySource, before: seq<MonitorConfig>, after: seq<MonitorConfig>, done: seq<nat>) {
    && |after| == |before|
    && forall i | 0 <= i < |before| ::
         if i in done then CheckedConfig(src, before[i], after[i]) else after[i] == before[i]
  }

  /** How many of the configurations at the positions `ps` fail to read their inventory. */
  function FailedReads(src: InventorySource, configs: seq<MonitorConfig>, ps: seq<nat>): (n: nat)
    ensures n <= |ps|
  {
    if ps == [] then 0
    else
      var last := ps[|ps| - 1];
      FailedReads(src, configs, ps[..|ps| - 1]) +
        (if last < |configs| && src(configs[last].productId).Failure? then 1 else 0)
  }

  lemma FailedReadsSnoc(src: InventorySource, configs: seq<MonitorConfig>, ps: seq<nat>, p: nat)
    ensures FailedReads(src, configs, ps + [p]) ==
      FailedReads(src, configs, ps) + (if p < |configs| && src(configs[p].productId).Failure? then 1 else 0)
  {
    assert (ps + [p])[..|ps|] == ps;
  }

  /** Checking one more, not yet checked, monitor extends `ConfigsAfter` by its position. */
  lemma ConfigsAfterStep(
    src: InventorySource, before: seq<MonitorConfig>, mid: seq<MonitorConfig>, after: seq<MonitorConfig>,
    done: seq<nat>, pos: nat)
    requires ConfigsAfter(src, before, mid, done) && pos < |before| && pos !in done
    requires |after| == |mid| && forall i | 0 <= i < |mid| && i != pos :: after[i] == mid[i]
    requires CheckedConfig(src, mid[pos], after[pos])
    ensures ConfigsAfter(src, before, after, done + [pos])
  {
  }

  // ---------------------------------------------------------------- what the cycle is to produce

  /** A record with the id and the instant the database assigns set aside. */
  function Unstamped(r: StockRecord): StockRecord {
    r.(id := 0, createdAt := 0)
  }

  /** The records of `rs`, unstamped, in order. */
  function UnstampedAll(rs: seq<StockRecord>): (us: seq<StockRecord>)
    ensures |us| == |rs| && forall i | 0 <= i < |rs| :: us[i] == Unstamped(rs[i])
  {
    seq(|rs|, i requires 0 <= i < |rs| => Unstamped(rs[i]))
  }

  /** An event with the instant of its creation set aside. */
  function Untimed(e: StockEvent): StockEvent {
    e.(timestamp := 0)
  }

  /** The events of `es`, untimed, in order. */
  function UntimedAll(es: seq<StockEvent>): (us: seq<StockEvent>)
    ensures |us| == |es| && forall i | 0 <= i < |es| :: us[i] == Untimed(es[i])
  {
    seq(|es|, i requires 0 <= i < |es| => Untimed(es[i]))
  }

  lemma UnstampedAppend(a: seq<StockRecord>, b: seq<StockRecord>)
    ensures UnstampedAll(a + b) == UnstampedAll(a) + UnstampedAll(b)
  {
  }

  lemma UntimedAppend(a: seq<StockEvent>, b: seq<StockEvent>)
    ensures UntimedAll(a + b) == UntimedAll(a) + UntimedAll(b)
  {
  }

  /** The id and instant a check is given change none of its record's columns. */
  lemma StampsOnlyStampRecord(m: MonitorConfig, inv: Inventory, previous: Option<int>, id: nat, now: nat)
    ensures Unstamped(ObservedRecord(m, inv, previous, id, now)) == ObservedRecord(m, inv, previous, 0, 0)
  {
  }

  /** The id and instant a check is given change none of its events but their time. */
  lemma StampsOnlyTimeEvents(m: MonitorConfig, inv: Inventory, previous: Option<int>, id: nat, now: nat)
    ensures UntimedAll(EmitEvents(NamedConfig(m, inv), ObservedRecord(m, inv, previous, id, now), previous, now))
         == EmitEvents(NamedConfig(m, inv), ObservedRecord(m, inv, previous, 0, 0), previous, 0)
  {
    var c := NamedConfig(m, inv);
    var rec := ObservedRecord(m, inv, previous, id, now);
    var rec0 := ObservedRecord(m, inv, previous, 0, 0);
    assert RecordMetadata(rec) == RecordMetadata(rec0);
    UntimedAppend(ThresholdEvents(c, rec, previous, now), DeltaEvents(c, rec, previous, now));
    assert UntimedAll(ThresholdEvents(c, rec, previous, now)) == ThresholdEvents(c, rec0, previous, 0);
    assert UntimedAll(DeltaEvents(c, rec, previous, now)) == DeltaEvents(c, rec0, previous, 0);
  }

  /** Position `p` holds a configuration whose inventory read succeeds. */
  predicate ReadSucceeds(src: InventorySource, configs: seq<MonitorConfig>, p: nat) {
    p < |configs| && src(configs[p].productId).Success?
  }

  /**
   * The record the check of the configuration at `p` stores, unstamped: the
   * quantity read, compared with the latest one stored before the cycle.
   */
  function RecordAt(src: InventorySource, configs: seq<MonitorConfig>, records: seq<StockRecord>, p: nat): (r: StockRecord)
    requires ReadSucceeds(src, configs, p)
    ensures r.monitorConfigId == configs[p].id && r.quantity == src(configs[p].productId).value.quantity
    ensures r.delta != 0 <==>
      LatestQuantity(records, configs[p].id).Some? &&
      LatestQuantity(records, configs[p].id).value != src(configs[p].productId).value.quantity
    ensures r.thresholdBreached <==>
      CheckThresholdBreach(src(configs[p].productId).value.quantity, configs[p].thresholdLow, configs[p].thresholdHigh).0
  {
    var m := configs[p];
    ObservedRecord(m, src(m.productId).value, LatestQuantity(records, m.id), 0, 0)
  }

  /** The events the check of the configuration at `p` publishes, untimed: its stock events or its MONITOR_ERROR. */
  function EventsAt(src: InventorySource, configs: seq<MonitorConfig>, records: seq<StockRecord>, p: nat): (es: seq<StockEvent>)
    ensures p < |configs| && src(configs[p].productId).Failure? ==>
      es == [Untimed(ErrorEvent(configs[p], src(configs[p].productId).error, 0))]
    ensures ReadSucceeds(src, configs, p) ==> forall e | e in es :: e.eventType != MonitorError
  {
    if p < |configs| then
      var m := configs[p];
      match src(m.productId)
      case Success(inv) =>
        var previous := LatestQuantity(records, m.id);
        EmitEvents(NamedConfig(m, inv), ObservedRecord(m, inv, previous, 0, 0), previous, 0)
      case Failure(e) => [ErrorEvent(m, e, 0)]
    else []
  }

  /** The records the checks at the positions `ps` store, in order, unstamped. */
  function RecordsFor(src: InventorySource, configs: seq<MonitorConfig>, records: seq<StockRecord>, ps: seq<nat>)
    : (rs: seq<StockRecord>)
    ensures |rs| <= |ps|
  {
    if ps == [] then []
    else
      var p := ps[|ps| - 1];
      RecordsFor(src, configs, records, ps[..|ps| - 1]) +
        (if ReadSucceeds(src, configs, p) then [RecordAt(src, configs, records, p)] else [])
  }

  lemma RecordsForSnoc(src: InventorySource, configs: seq<MonitorConfig>, records: seq<StockRecord>, ps: seq<nat>, p: nat)
    ensures RecordsFor(src, configs, records, ps + [p]) ==
      RecordsFor(src, configs, records, ps) +
        (if ReadSucceeds(src, configs, p) then [RecordAt(src, configs, records, p)] else [])
  {
    assert (ps + [p])[..|ps|] == ps;
  }

  /** The events the checks at the positions `ps` publish, in order, untimed. */
  function EventsFor(src: InventorySource, configs: seq<MonitorConfig>, records: seq<StockRecord>, ps: seq<nat>)
    : seq<StockEvent>
  {
    if ps == [] then []
    else EventsFor(src, configs, records, ps[..|ps| - 1]) + EventsAt(src, configs, records, ps[|ps| - 1])
  }

  lemma EventsForSnoc(src: InventorySource, configs: seq<MonitorConfig>, records: seq<StockRecord>, ps: seq<nat>, p: nat)
    ensures EventsFor(src, configs, records, ps + [p]) == EventsFor(src, configs, records, ps) + EventsAt(src, configs, records, p)
  {
    assert (ps + [p])[..|ps|] == ps;
  }

  /** Every checked configuration either stores a record or counts as a failed read. */
  lemma {:induction false} RecordsForCount(src: InventorySource, configs: seq<MonitorConfig>, records: seq<StockRecord>, ps: seq<nat>)
    requires forall j | 0 <= j < |ps| :: ps[j] < |configs|
    ensures |RecordsFor(src, configs, records, ps)| + FailedReads(src, configs, ps) == |ps|
  {
    if ps != [] {
      RecordsForCount(src, configs, records, ps[..|ps| - 1]);
    }
  }

  /** The MONITOR_ERROR events among the expected ones are exactly one per failed read. */
  lemma {:induction false} EventsForErrors(src: InventorySource, configs: seq<MonitorConfig>, records: seq<StockRecord>, ps: seq<nat>)
    requires forall j | 0 <= j < |ps| :: ps[j] < |configs|
    ensures CountType(EventsFor(src, configs, records, ps), MonitorError) == FailedReads(src, configs, ps)
  {
    if ps != [] {
      var init, p := ps[..|ps| - 1], ps[|ps| - 1];
      EventsForErrors(src, configs, records, init);
      CountTypeAppend(EventsFor(src, configs, records, init), EventsAt(src, configs, records, p), MonitorError);
      if ReadSucceeds(src, configs, p) {
        CountTypeAbsent(EventsAt(src, configs, records, p), MonitorError);
      } else {
        assert EventTypes(EventsAt(src, configs, records, p)) == [MonitorError];
      }
    }
  }

  /** A record that counts as a detected change: its delta is not zero. */
  predicate Changed(r: StockRecord) {
    r.delta != 0
  }

  /** A record that counts as a threshold breach. */
  predicate Breached(r: StockRecord) {
    r.thresholdBreached
  }

  /** A record of another monitor does not change which record is this monitor's latest. */
  lemma LatestIgnoresOtherMonitors(records: seq<StockRecord>, rec: StockRecord, monitorConfigId: nat)
    requires rec.monitorConfigId != monitorConfigId
    ensures LatestQuantity(records + [rec], monitorConfigId) == LatestQuantity(records, monitorConfigId)
  {
    assert (records + [rec])[..|records|] == records;
  }

  /**
   * One committed turn of the cycle at position `pos`, given the next record id
   * and the instant of the check: only that configuration changes, as
   * `CheckedConfig` allows; a successful read appends the record `CheckOutcome`
   * computes and publishes its events, a failed one keeps the records and
   * publishes one MONITOR_ERROR.
   */
  predicate Committed(
    src: InventorySource, configs: seq<MonitorConfig>, records: seq<StockRecord>, pos: nat, id: nat, now: nat,
    configs': seq<MonitorConfig>, records': seq<StockRecord>,
    outcome: Result<CheckStep, Whmcs.ClientError>, events: seq<StockEvent>)
  {
    && pos < |configs| && |configs'| == |configs|
    && (forall i | 0 <= i < |configs| && i != pos :: configs'[i] == configs[i])
    && CheckedConfig(src, configs[pos], configs'[pos])
    && var read := src(configs[pos].productId);
       if read.Success? then
         && outcome == Success(CheckOutcome(configs[pos], read.value, records, id, now))
         && records' == records + [outcome.value.record]
         && events == outcome.value.events
       else
         && outcome == Failure(read.error)
         && records' == records
         && events == [ErrorEvent(configs[pos], read.error, now)]
  }

  /** A committed successful turn: the named configuration stamped checked, then committed, and one more record. */
  lemma CommitSucceeds(
    src: InventorySource, configs: seq<MonitorConfig>, records: seq<StockRecord>, pos: nat, id: nat, now: nat,
    step: CheckStep, configs': seq<MonitorConfig>, records': seq<StockRecord>)
    requires pos < |configs| && src(configs[pos].productId).Success?
    requires step == CheckOutcome(configs[pos], src(configs[pos].productId).value, records, id, now)
    requires configs' == configs[pos := step.config.(lastCheckedAt := Some(now + 1), updatedAt := now + 2)]
    requires records' == records + [step.record]
    ensures Committed(src, configs, records, pos, id, now, configs', records', Success(step), step.events)
  {
  }

  /** A rolled-back turn: nothing stored and one MONITOR_ERROR. */
  lemma CommitFails(
    src: InventorySource, configs: seq<MonitorConfig>, records: seq<StockRecord>, pos: nat, id: nat, now: nat)
    requires pos < |configs| && src(configs[pos].productId).Failure?
    ensures Committed(src, configs, records, pos, id, now, configs, records,
                      Failure(src(configs[pos].productId).error),
                      [ErrorEvent(configs[pos], src(configs[pos].productId).error, now)])
  {
  }

  /** The cycle's counters and the events it has published so far. */
  datatype Tally = Tally(created: nat, errors: nat, changes: nat, breaches: nat, published: seq<StockEvent>)

  /** The counters after one more turn. */
  function Count(t: Tally, outcome: Result<CheckStep, Whmcs.ClientError>, events: seq<StockEvent>): Tally {
    match outcome
    case Success(step) =>
      Tally(t.created + 1, t.errors,
            t.changes + (if step.changeDetected then 1 else 0),
            t.breaches + (if step.thresholdBreached then 1 else 0),
            t.published + events)
    case Failure(_) => t.(errors := t.errors + 1, published := t.published + events)
  }

  /**
   * The bookkeeping of the cycle after the monitors at the positions `done`
   * were checked: each successful read added one record, each failed one counts
   * as an error and published one MONITOR_ERROR, and the monitors still to
   * check see the same latest quantity as before the cycle.
   */
  predicate Accounted(
    src: InventorySource, configs0: seq<MonitorConfig>, records0: seq<StockRecord>, done: seq<nat>,
    configs: seq<MonitorConfig>, records: seq<StockRecord>, t: Tally)
  {
    && ConfigsAfter(src, configs0, configs, done)
    && t.created + t.errors == |done|
    && t.errors == FailedReads(src, configs0, done)
    && t.errors == CountType(t.published, MonitorError)
    && records0 <= records && |records| == |records0| + t.created
    && forall p | 0 <= p < |configs0| && p !in done ::
         LatestQuantity(records, configs0[p].id) == LatestQuantity(records0, configs0[p].id)
  }

  /**
   * The records the cycle has stored for the positions `done` are, stamps
   * aside, those `RecordsFor` gives, and the counters count the changed and
   * breached ones.
   */
  predicate StoredAsExpected(
    src: InventorySource, configs0: seq<MonitorConfig>, records0: seq<StockRecord>, done: seq<nat>,
    records: seq<StockRecord>, t: Tally)
    requires |records0| <= |records|
  {
    && UnstampedAll(records[|records0|..]) == RecordsFor(src, configs0, records0, done)
    && t.changes == |Filter(Changed, RecordsFor(src, configs0, records0, done))|
    && t.breaches == |Filter(Breached, RecordsFor(src, configs0, records0, done))|
  }

  /** What the cycle has produced for the positions `done`: the expected records and, time aside, the expected events. */
  predicate AsExpected(
    src: InventorySource, configs0: seq<MonitorConfig>, records0: seq<StockRecord>, done: seq<nat>,
    records: seq<StockRecord>, t: Tally)
    requires |records0| <= |records|
  {
    && StoredAsExpected(src, configs0, records0, done, records, t)
    && UntimedAll(t.published) == EventsFor(src, configs0, records0, done)
  }

  /** The state of the cycle after the monitors at the positions `done` were checked. */
  predicate Progress(
    src: InventorySource, configs0: seq<MonitorConfig>, records0: seq<StockRecord>, done: seq<nat>,
    configs: seq<MonitorConfig>, records: seq<StockRecord>, t: Tally)
  {
    && Accounted(src, configs0, records0, done, configs, records, t)
    && AsExpected(src, configs0, records0, done, records, t)
  }

  /**
   * A check of a monitor that still sees its latest quantity from before the
   * cycle stores, stamps aside, the expected record and publishes the expected events.
   */
  lemma CheckMatchesExpected(
    src: InventorySource, configs0: seq<MonitorConfig>, records0: seq<StockRecord>, pos: nat,
    records: seq<StockRecord>, id: nat, now: nat)
    requires ReadSucceeds(src, configs0, pos)
    requires LatestQuantity(records, configs0[pos].id) == LatestQuantity(records0, configs0[pos].id)
    ensures var step := CheckOutcome(configs0[pos], src(configs0[pos].productId).value, records, id, now);
      && Unstamped(step.record) == RecordAt(src, configs0, records0, pos)
      && UntimedAll(step.events) == EventsAt(src, configs0, records0, pos)
      && step.changeDetected == Changed(RecordAt(src, configs0, records0, pos))
      && step.thresholdBreached == Breached(RecordAt(src, configs0, records0, pos))
  {
    var m := configs0[pos];
    var inv := src(m.productId).value;
    StampsOnlyStampRecord(m, inv, LatestQuantity(records0, m.id), id, now);
    StampsOnlyTimeEvents(m, inv, LatestQuantity(records0, m.id), id, now);
  }

  /** A stored record extends the stored suffix by the expected record. */
  lemma RecordsStep(
    src: InventorySource, configs0: seq<MonitorConfig>, records0: seq<StockRecord>, done: seq<nat>, pos: nat,
    records: seq<StockRecord>, rec: StockRecord)
    requires ReadSucceeds(src, configs0, pos)
    requires records0 <= records && UnstampedAll(records[|records0|..]) == RecordsFor(src, configs0, records0, done)
    requires Unstamped(rec) == RecordAt(src, configs0, records0, pos)
    ensures UnstampedAll((records + [rec])[|records0|..]) == RecordsFor(src, configs0, records0, done + [pos])
  {
    RecordsForSnoc(src, configs0, records0, done, pos);
    assert (records + [rec])[|records0|..] == records[|records0|..] + [rec];
    UnstampedAppend(records[|records0|..], [rec]);
  }

  /** Counting one more expected record with a predicate. */
  lemma CountStep(
    q: StockRecord -> bool, src: InventorySource, configs0: seq<MonitorConfig>, records0: seq<StockRecord>,
    done: seq<nat>, pos: nat)
    requires ReadSucceeds(src, configs0, pos)
    ensures |Filter(q, RecordsFor(src, configs0, records0, done + [pos]))| ==
      |Filter(q, RecordsFor(src, configs0, records0, done))| + (if q(RecordAt(src, configs0, records0, pos)) then 1 else 0)
  {
    RecordsForSnoc(src, configs0, records0, done, pos);
    FilterAppend(q, RecordsFor(src, configs0, records0, done), [RecordAt(src, configs0, records0, pos)]);
    FilterSingle(q, RecordAt(src, configs0, records0, pos));
  }

  /** Publishing one turn's events extends the published trace by the expected events. */
  lemma EventsStep(
    src: InventorySource, configs0: seq<MonitorConfig>, records0: seq<StockRecord>, done: seq<nat>, pos: nat,
    published: seq<StockEvent>, events: seq<StockEvent>)
    requires UntimedAll(published) == EventsFor(src, configs0, records0, done)
    requires UntimedAll(events) == EventsAt(src, configs0, records0, pos)
    ensures UntimedAll(published + events) == EventsFor(src, configs0, records0, done + [pos])
  {
    EventsForSnoc(src, configs0, records0, done, pos);
    UntimedAppend(published, events);
  }

  /** The monitors still to check after one more turn still see the latest quantity from before the cycle. */
  lemma ProgressStepLatest(
    configs0: seq<MonitorConfig>, records0: seq<StockRecord>, done: seq<nat>, pos: nat,
    records: seq<StockRecord>, records': seq<StockRecord>)
    requires Pairwise(DifferentConfigIds, configs0) && pos < |configs0|
    requires forall p | 0 <= p < |configs0| && p !in done ::
      LatestQuantity(records, configs0[p].id) == LatestQuantity(records0, configs0[p].id)
    requires records' == records || (|records'| == |records| + 1 && records' == records + [records'[|records|]] &&
                                     records'[|records|].monitorConfigId == configs0[pos].id)
    ensures forall p | 0 <= p < |configs0| && p !in done + [pos] ::
      LatestQuantity(records', configs0[p].id) == LatestQuantity(records0, configs0[p].id)
  {
    forall p | 0 <= p < |configs0| && p !in done + [pos]
      ensures LatestQuantity(records', configs0[p].id) == LatestQuantity(records0, configs0[p].id)
    {
      if records' != records {
        if p < pos {
          assert DifferentConfigIds(configs0[p], configs0[pos]);
        } else {
          assert DifferentConfigIds(configs0[pos], configs0[p]);
        }
        LatestIgnoresOtherMonitors(records, records'[|records|], configs0[p].id);
      }
    }
  }

  /** A turn whose read succeeds keeps the bookkeeping. */
  lemma AccountedStepRead(
    src: InventorySource, configs0: seq<MonitorConfig>, records0: seq<StockRecord>, done: seq<nat>, pos: nat, id: nat, now: nat,
    configs: seq<MonitorConfig>, records: seq<StockRecord>, t: Tally,
    configs': seq<MonitorConfig>, records': seq<StockRecord>,
    outcome: Result<CheckStep, Whmcs.ClientError>, events: seq<StockEvent>)
    requires Pairwise(DifferentConfigIds, configs0)
    requires Accounted(src, configs0, records0, done, configs, records, t)
    requires pos !in done && ReadSucceeds(src, configs0, pos)
    requires Committed(src, configs, records, pos, id, now, configs', records', outcome, events)
    ensures Accounted(src, configs0, records0, done + [pos], configs', records', Count(t, outcome, events))
  {
    ConfigsAfterStep(src, configs0, configs, configs', done, pos);
    FailedReadsSnoc(src, configs0, done, pos);
    CountTypeAppend(t.published, events, MonitorError);
    assert configs[pos] == configs0[pos];
    CountTypeAbsent(events, MonitorError);
    ProgressStepLatest(configs0, records0, done, pos, records, records');
  }

  /** A turn whose read succeeds stores the expected record and counts it. */
  lemma StoredStepRead(
    src: InventorySource, configs0: seq<MonitorConfig>, records0: seq<StockRecord>, done: seq<nat>, pos: nat,
    records: seq<StockRecord>, t: Tally, step: CheckStep, events: seq<StockEvent>)
    requires records0 <= records && StoredAsExpected(src, configs0, records0, done, records, t)
    requires ReadSucceeds(src, configs0, pos)
    requires Unstamped(step.record) == RecordAt(src, configs0, records0, pos)
    requires step.changeDetected == Changed(RecordAt(src, configs0, records0, pos))
    requires step.thresholdBreached == Breached(RecordAt(src, configs0, records0, pos))
    ensures StoredAsExpected(src, configs0, records0, done + [pos], records + [step.record], Count(t, Success(step), events))
  {
    RecordsStep(src, configs0, records0, done, pos, records, step.record);
    CountStep(Changed, src, configs0, records0, done, pos);
    CountStep(Breached, src, configs0, records0, done, pos);
  }

  /** A turn whose read succeeds stores the expected record and publishes the expected events. */
  lemma AsExpectedStepRead(
    src: InventorySource, configs0: seq<MonitorConfig>, records0: seq<StockRecord>, done: seq<nat>, pos: nat, id: nat, now: nat,
    records: seq<StockRecord>, t: Tally, step: CheckStep, events: seq<StockEvent>)
    requires records0 <= records && AsExpected(src, configs0, records0, done, records, t)
    requires ReadSucceeds(src, configs0, pos)
    requires LatestQuantity(records, configs0[pos].id) == LatestQuantity(records0, configs0[pos].id)
    requires step == CheckOutcome(configs0[pos], src(configs0[pos].productId).value, records, id, now)
    requires events == step.events
    ensures AsExpected(src, configs0, records0, done + [pos], records + [step.record], Count(t, Success(step), events))
  {
    CheckMatchesExpected(src, configs0, records0, pos, records, id, now);
    StoredStepRead(src, configs0, records0, done, pos, records, t, step, events);
    EventsStep(src, configs0, records0, done, pos, t.published, events);
  }

  /** A turn whose read succeeds keeps `Progress`. */
  lemma ProgressStepRead(
    src: InventorySource, configs0: seq<MonitorConfig>, records0: seq<StockRecord>, done: seq<nat>, pos: nat, id: nat, now: nat,
    configs: seq<MonitorConfig>, records: seq<StockRecord>, t: Tally,
    configs': seq<MonitorConfig>, records': seq<StockRecord>,
    outcome: Result<CheckStep, Whmcs.ClientError>, events: seq<StockEvent>)
    requires Pairwise(DifferentConfigIds, configs0)
    requires Progress(src, configs0, records0, done, configs, records, t)
    requires pos !in done && ReadSucceeds(src, configs0, pos)
    requires Committed(src, configs, records, pos, id, now, configs', records', outcome, events)
    ensures Progress(src, configs0, records0, done + [pos], configs', records', Count(t, outcome, events))
  {
    AccountedStepRead(src, configs0, records0, done, pos, id, now, configs, records, t, configs', records', outcome, events);
    assert configs[pos] == configs0[pos];
    AsExpectedStepRead(src, configs0, records0, done, pos, id, now, records, t, outcome.value, events);
  }

  /** A turn whose read fails keeps `Progress`. */
  lemma ProgressStepError(
    src: InventorySource, configs0: seq<MonitorConfig>, records0: seq<StockRecord>, done: seq<nat>, pos: nat, id: nat, now: nat,
    configs: seq<MonitorConfig>, records: seq<StockRecord>, t: Tally,
    configs': seq<MonitorConfig>, records': seq<StockRecord>,
    outcome: Result<CheckStep, Whmcs.ClientError>, events: seq<StockEvent>)
    requires Pairwise(DifferentConfigIds, configs0)
    requires Progress(src, configs0, records0, done, configs, records, t)
    requires pos !in done && !ReadSucceeds(src, configs0, pos)
    requires Committed(src, configs, records, pos, id, now, configs', records', outcome, events)
    ensures Progress(src, configs0, records0, done + [pos], configs', records', Count(t, outcome, events))
  {
    ConfigsAfterStep(src, configs0, configs, configs', done, pos);
    FailedReadsSnoc(src, configs0, done, pos);
    CountTypeAppend(t.published, events, MonitorError);
    RecordsForSnoc(src, configs0, records0, done, pos);
    assert configs[pos] == configs0[pos];
    assert EventTypes(events) == [MonitorError];
    EventsStep(src, configs0, records0, done, pos, t.published, events);
    ProgressStepLatest(configs0, records0, done, pos, records, records');
  }

  lemma ProgressStep(
    src: InventorySource, configs0: seq<MonitorConfig>, records0: seq<StockRecord>, done: seq<nat>, pos: nat, id: nat, now: nat,
    configs: seq<MonitorConfig>, records: seq<StockRecord>, t: Tally,
    configs': seq<MonitorConfig>, records': seq<StockRecord>,
    outcome: Result<CheckStep, Whmcs.ClientError>, events: seq<StockEvent>)
    requires Pairwise(DifferentConfigIds, configs0)
    requires Progress(src, configs0, records0, done, configs, records, t)
    requires pos !in done
    requires Committed(src, configs, records, pos, id, now, configs', records', outcome, events)
    ensures Progress(src, configs0, records0, done + [pos], configs', records', Count(t, outcome, events))
  {
    if ReadSucceeds(src, configs0, pos) {
      ProgressStepRead(src, configs0, records0, done, pos, id, now, configs, records, t, configs', records', outcome, events);
    } else {
      ProgressStepError(src, configs0, records0, done, pos, id, now, configs, records, t, configs', records', outcome, events);
    }
  }

  // ---------------------------------------------------------------- the session

  /** The engine's database session: the two tables, the next record id and a logical clock. */
  class EngineDb {
    var configs: seq<MonitorConfig>
    var records: seq<StockRecord>
    var nextRecordId: nat
    var clock: nat

    /** The store rules hold, every record id is below the next one, and every record is in the past. */
    predicate Valid()
      reads this
    {
      && ValidStore(Store(configs, records))
      && (forall r | r in records :: r.id < nextRecordId && r.createdAt < clock)
    }

    constructor(configs: seq<MonitorConfig>)
      requires ValidStore(Store(configs, []))
      ensures this.configs == configs && records == [] && Valid()
    {
      this.configs := configs;
      records := [];
      nextRecordId := 1;
      clock := 0;
    }

    /** `datetime.utcnow()`: the current instant; the clock moves on. */
    method Now() returns (t: nat)
      modifies this
      ensures t == old(clock) && clock == old(clock) + 1
      ensures configs == old(configs) && records == old(records) && nextRecordId == old(nextRecordId)
      ensures old(Valid()) ==> Valid()
    {
      t := clock;
      clock := clock + 1;
    }

    /**
     * `monitor.last_checked_at = datetime.utcnow()` followed by `db.commit()`,
     * whose UPDATE stamps `updated_at` (its `onupdate`) with the next, later instant.
     */
    method MarkChecked(pos: nat)
      requires Valid() && pos < |configs|
      modifies this
      ensures configs == old(configs)[pos := old(configs)[pos].(lastCheckedAt := Some(old(clock)), updatedAt := old(clock) + 1)]
      ensures records == old(records) && nextRecordId == old(nextRecordId) && clock == old(clock) + 2
      ensures Valid()
    {
      var checkedAt := Now();
      var committedAt := Now();
      configs := configs[pos := configs[pos].(lastCheckedAt := Some(checkedAt), updatedAt := committedAt)];
      SameKeysKeepStore(old(configs), configs, records);
    }

    /** `db.rollback()`: the tables return to the last committed state. */
    method Rollback(committedConfigs: seq<MonitorConfig>, committedRecords: seq<StockRecord>)
      requires ValidStore(Store(committedConfigs, committedRecords))
      requires forall r | r in committedRecords :: r.id < nextRecordId && r.createdAt < clock
      modifies this
      ensures configs == committedConfigs && records == committedRecords
      ensures nextRecordId == old(nextRecordId) && clock == old(clock)
      ensures Valid()
    {
      configs := committedConfigs;
      records := committedRecords;
    }
  }

  // ---------------------------------------------------------------- the engine

  /**
   * The inventory reads of one cycle: `get_product_inventory(product_id,
   * use_cache=False)` on the client the engine was given, or on the one it
   * builds for the cycle from the settings.
   */
  type InventorySource = int -> Result<Inventory, Whmcs.ClientError>

  /**
   * `_check_monitor` for the configuration at `pos`: on a successful read the
   * record is appended, the name filled in and the events returned; on a
   * failed read nothing changes and the error is returned.
   */
  method CheckMonitor(db: EngineDb, inventory: InventorySource, pos: nat) returns (r: Result<CheckStep, Whmcs.ClientError>)
    requires db.Valid() && pos < |db.configs|
    modifies db
    ensures db.Valid()
    ensures r.Failure? ==>
      && inventory(old(db.configs[pos]).productId).Failure?
      && r.error == inventory(old(db.configs[pos]).productId).error
      && db.configs == old(db.configs) && db.records == old(db.records)
      && db.nextRecordId == old(db.nextRecordId) && db.clock == old(db.clock)
    ensures r.Success? ==>
      && inventory(old(db.configs[pos]).productId).Success?
      && r.value == CheckOutcome(old(db.configs[pos]), inventory(old(db.configs[pos]).productId).value,
                                 old(db.records), old(db.nextRecordId), old(db.clock))
      && db.configs == old(db.configs)[pos := r.value.config]
      && db.records == old(db.records) + [r.value.record]
      && db.nextRecordId == old(db.nextRecordId) + 1 && db.clock == old(db.clock) + 1
  {
    var monitor := db.configs[pos];
    var read := inventory(monitor.productId);
    if read.Failure? {
      return Failure(read.error);
    }
    var inv := read.value;
    var now := db.Now();
    var step := CheckOutcome(monitor, inv, db.records, db.nextRecordId, now);
    db.configs := db.configs[pos := step.config];
    SameKeysKeepStore(old(db.configs), db.configs, db.records);
    assert HasConfigId(db.configs, monitor.id) by {
      assert db.configs[pos] in db.configs;
    }
    PairwiseAppend(DifferentRecordIds, db.records, step.record);
    db.records := db.records + [step.record];
    db.nextRecordId := db.nextRecordId + 1;
    return Success(step);
  }

  /** The successful branch of a turn: stamp the checked monitor and commit. */
  method CommitTurn(
    db: EngineDb, inventory: InventorySource, pos: nat, step: CheckStep,
    ghost configs: seq<MonitorConfig>, ghost records: seq<StockRecord>, ghost id: nat, ghost now: nat)
    requires db.Valid() && pos < |configs| && inventory(configs[pos].productId).Success?
    requires step == CheckOutcome(configs[pos], inventory(configs[pos].productId).value, records, id, now)
    requires db.configs == configs[pos := step.config] && db.records == records + [step.record]
    requires db.nextRecordId == id + 1 && db.clock == now + 1
    modifies db
    ensures db.Valid()
    ensures Committed(inventory, configs, records, pos, id, now, db.configs, db.records, Success(step), step.events)
    ensures db.configs == configs[pos := step.config.(lastCheckedAt := Some(now + 1), updatedAt := now + 2)]
    ensures db.nextRecordId == id + 1 && db.clock == now + 3
  {
    db.MarkChecked(pos);
    CommitSucceeds(inventory, configs, records, pos, id, now, step, db.configs, db.records);
  }

  /** The failing branch of a turn: report a MONITOR_ERROR and roll back. */
  method RollbackTurn(
    db: EngineDb, inventory: InventorySource, pos: nat, e: Whmcs.ClientError,
    committed: seq<MonitorConfig>, committedRecords: seq<StockRecord>, ghost id: nat, ghost now: nat)
    returns (published: seq<StockEvent>)
    requires db.Valid() && pos < |committed| && inventory(committed[pos].productId) == Failure(e)
    requires db.configs == committed && db.records == committedRecords
    requires db.nextRecordId == id && db.clock == now
    modifies db
    ensures db.Valid()
    ensures Committed(inventory, committed, committedRecords, pos, id, now, db.configs, db.records, Failure(e), published)
    ensures db.configs == committed && db.nextRecordId == id && db.clock == now + 1
  {
    var errorAt := db.Now();
    published := [ErrorEvent(db.configs[pos], e, errorAt)];
    db.Rollback(committed, committedRecords);
    CommitFails(inventory, committed, committedRecords, pos, id, now);
  }

  /**
   * One turn of the cycle's loop: check the monitor and commit with its
   * `last_checked_at` stamped, or roll back and report a MONITOR_ERROR.
   */
  method CheckAndCommit(db: EngineDb, inventory: InventorySource, pos: nat)
    returns (outcome: Result<CheckStep, Whmcs.ClientError>, published: seq<StockEvent>)
    requires db.Valid() && pos < |db.configs|
    modifies db
    ensures db.Valid()
    ensures Committed(inventory, old(db.configs), old(db.records), pos, old(db.nextRecordId), old(db.clock),
                      db.configs, db.records, outcome, published)
    ensures outcome.Success? ==>
      && db.configs == old(db.configs)[pos := outcome.value.config.(lastCheckedAt := Some(old(db.clock) + 1),
                                                                    updatedAt := old(db.clock) + 2)]
      && db.nextRecordId == old(db.nextRecordId) + 1 && db.clock == old(db.clock) + 3
    ensures outcome.Failure? ==>
      db.configs == old(db.configs) && db.nextRecordId == old(db.nextRecordId) && db.clock == old(db.clock) + 1
  {
    var committed := db.configs;
    var committedRecords := db.records;
    ghost var id, now := db.nextRecordId, db.clock;
    outcome := CheckMonitor(db, inventory, pos);
    if outcome.Success? {
      CommitTurn(db, inventory, pos, outcome.value, committed, committedRecords, id, now);
      published := outcome.value.events;
    } else {
      published := RollbackTurn(db, inventory, pos, outcome.error, committed, committedRecords, id, now);
    }
  }

  /**
   * One turn of the cycle's loop with its counters: check and commit the
   * monitor at `pos`, then count the outcome and append the events published.
   */
  method CheckNext(
    db: EngineDb, inventory: InventorySource, pos: nat, tally: Tally,
    ghost configs0: seq<MonitorConfig>, ghost records0: seq<StockRecord>, ghost done: seq<nat>)
    returns (tally': Tally)
    requires db.Valid() && pos < |db.configs| && pos !in done
    requires Pairwise(DifferentConfigIds, configs0)
    requires Progress(inventory, configs0, records0, done, db.configs, db.records, tally)
    modifies db
    ensures db.Valid()
    ensures Progress(inventory, configs0, records0, done + [pos], db.configs, db.records, tally')
  {
    ghost var configs, records, id, now := db.configs, db.records, db.nextRecordId, db.clock;
    var outcome, events := CheckAndCommit(db, inventory, pos);
    ProgressStep(inventory, configs0, records0, done, pos, id, now, configs, records, tally,
                 db.configs, db.records, outcome, events);
    tally' := Count(tally, outcome, events);
  }

  /** In a strictly increasing sequence, no element occurs before its own position. */
  lemma IncreasingPrefix(s: seq<nat>, k: nat)
    requires k < |s|
    requires forall j, l | 0 <= j < l < |s| :: s[j] < s[l]
    ensures s[k] !in s[..k]
    ensures s[..k + 1] == s[..k] + [s[k]]
  {
    forall j | 0 <= j < k
      ensures s[..k][j] != s[k]
    {
      assert s[j] < s[k];
    }
  }

  /** The cycle's loop over the active monitors at `active`, with its counters and published events. */
  method CheckMonitors(db: EngineDb, inventory: InventorySource, active: seq<nat>) returns (tally: Tally)
    requires db.Valid()
    requires forall j | 0 <= j < |active| :: active[j] < |db.configs|
    requires forall j, k | 0 <= j < k < |active| :: active[j] < active[k]
    modifies db
    ensures db.Valid()
    ensures Progress(inventory, old(db.configs), old(db.records), active, db.configs, db.records, tally)
  {
    ghost var configs0 := db.configs;
    ghost var records0 := db.records;
    tally := Tally(0, 0, 0, 0, []);
    assert records0[|records0|..] == [];
    for k := 0 to |active|
      invariant db.Valid()
      invariant Progress(inventory, configs0, records0, active[..k], db.configs, db.records, tally)
    {
      var pos := active[k];
      IncreasingPrefix(active, k);
      tally := CheckNext(db, inventory, pos, tally, configs0, records0, active[..k]);
    }
    assert active[..|active|] == active;
  }

  /**
   * `run_monitoring_cycle` with the inventory reads of this cycle: the results
   * and the events published, in order.
   */
  method RunMonitoringCycle(db: EngineDb, inventory: InventorySource) returns (results: CycleResults, events: seq<StockEvent>)
    requires db.Valid()
    modifies db
    ensures db.Valid()
    ensures |events| >= 1 && events[0] == StartedEvent(results.startedAt)
    ensures results.monitorsChecked == |ActiveMonitors(old(db.configs))|
    ensures results.recordsCreated + results.errors == results.monitorsChecked
    ensures results.errors == FailedReads(inventory, old(db.configs), ActivePositions(old(db.configs)))
    ensures results.errors == CountType(events, MonitorError)
    ensures results.changesDetected <= results.recordsCreated
    ensures results.thresholdBreaches <= results.recordsCreated
    ensures results.monitorsChecked == 0 ==>
      |events| == 1 && db.configs == old(db.configs) && db.records == old(db.records)
    ensures results.monitorsChecked > 0 ==> events[|events| - 1] == CompletedEvent(results, results.completedAt)
    ensures old(db.records) <= db.records
    ensures |db.records| == |old(db.records)| + results.recordsCreated
    ensures ConfigsAfter(inventory, old(db.configs), db.configs, ActivePositions(old(db.configs)))
    ensures UnstampedAll(db.records[|old(db.records)|..]) ==
      RecordsFor(inventory, old(db.configs), old(db.records), ActivePositions(old(db.configs)))
    ensures results.changesDetected ==
      |Filter(Changed, RecordsFor(inventory, old(db.configs), old(db.records), ActivePositions(old(db.configs))))|
    ensures results.thresholdBreaches ==
      |Filter(Breached, RecordsFor(inventory, old(db.configs), old(db.records), ActivePositions(old(db.configs))))|
    ensures results.monitorsChecked > 0 ==>
      UntimedAll(events[1..|events| - 1]) == EventsFor(inventory, old(db.configs), old(db.records), ActivePositions(old(db.configs)))
  {
    var start := db.Now();
    var started := StartedEvent(start);
    var active := ActivePositions(db.configs);
    var checked := |active|;
    if checked == 0 {
      var done := db.Now();
      results := CycleResults(start, 0, 0, 0, 0, 0, done);
      events := [started];
      assert events[..0] == [];
      assert db.records[|old(db.records)|..] == [];
      return;
    }
    var tally := CheckMonitors(db, inventory, active);
    var done := db.Now();
    results := CycleResults(start, checked, tally.created, tally.errors, tally.changes, tally.breaches, done);
    var completed := CompletedEvent(results, done);
    events := [started] + tally.published + [completed];
    CountTypeFramed(started, tally.published, completed, MonitorError);
    assert events[1..|events| - 1] == tally.published;
  }
}
