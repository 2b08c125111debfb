/**
 * The engine's two tables: monitor configurations and the stock records
 * observed for them, with their column defaults and the two store rules
 * (a product is monitored by at most one configuration; deleting a
 * configuration deletes its records).
 *
 * Timestamps are instants of a logical clock (`nat`).
 */
module Models {
  import opened Wrappers
  import opened Json
  import opened Seqs

  /** The `change_type` strings the engine writes. */
  datatype ChangeKind = Initial | Restock | Purchase | Unchanged

  function ChangeKindName(k: ChangeKind): string {
    match k
    case Initial => "initial"
    case Restock => "restock"
    case Purchase => "purchase"
    case Unchanged => "unchanged"
  }

  /** The `threshold_type` strings the engine writes. */
  datatype ThresholdKind = Low | High

  function ThresholdKindName(k: ThresholdKind): string {
    match k
    case Low => "low"
    case High => "high"
  }

  datatype MonitorConfig = MonitorConfig(
    id: nat,
    productId: int,
    productName: Option<Json>,
    isActive: bool,
    thresholdLow: Option<int>,
    thresholdHigh: Option<int>,
    notifyOnRestock: bool,
    notifyOnPurchase: bool,
    notifyOnThreshold: bool,
    createdAt: nat,
    updatedAt: nat,
    lastCheckedAt: Option<nat>)

  datatype StockRecord = StockRecord(
    id: nat,
    monitorConfigId: nat,
    quantity: int,
    delta: int,
    stockControlEnabled: bool,
    available: bool,
    changeType: Option<ChangeKind>,
    thresholdBreached: bool,
    thresholdType: Option<ThresholdKind>,
    metadataJson: Option<string>,
    createdAt: nat)

  /** A configuration row as inserted with only its required columns given. */
  function NewMonitorConfig(id: nat, productId: int, now: nat): (c: MonitorConfig)
    ensures c.id == id && c.productId == productId && c.productName.None?
    ensures c.isActive && c.notifyOnRestock && c.notifyOnPurchase && c.notifyOnThreshold
    ensures c.thresholdLow.None? && c.thresholdHigh.None? && c.lastCheckedAt.None?
    ensures c.createdAt == now && c.updatedAt == now
  {
    MonitorConfig(id, productId, None, true, None, None, true, true, true, now, now, None)
  }

  /** A stock record row as inserted with only its required columns given. */
  function NewStockRecord(id: nat, monitorConfigId: nat, quantity: int, now: nat): (r: StockRecord)
    ensures r.id == id && r.monitorConfigId == monitorConfigId && r.quantity == quantity
    ensures r.delta == 0 && !r.thresholdBreached && r.available && !r.stockControlEnabled
    ensures r.changeType.None? && r.thresholdType.None? && r.metadataJson.None?
    ensures r.createdAt == now
  {
    StockRecord(id, monitorConfigId, quantity, 0, false, true, None, false, None, None, now)
  }

  // ---------------------------------------------------------------- the store

  datatype Store = Store(configs: seq<MonitorConfig>, records: seq<StockRecord>)

  predicate DifferentConfigIds(a: MonitorConfig, b: MonitorConfig) {
    a.id != b.id
  }

  predicate DifferentProducts(a: MonitorConfig, b: MonitorConfig) {
    a.productId != b.productId
  }

  predicate DifferentRecordIds(a: StockRecord, b: StockRecord) {
    a.id != b.id
  }

  predicate HasConfigId(configs: seq<MonitorConfig>, id: nat) {
    exists c | c in configs :: c.id == id
  }

  predicate HasProductId(configs: seq<MonitorConfig>, productId: int) {
    exists c | c in configs :: c.productId == productId
  }

  /** Primary keys are unique, `product_id` is unique, every record belongs to a configuration. */
  predicate ValidStore(s: Store) {
    && Pairwise(DifferentConfigIds, s.configs)
    && Pairwise(DifferentProducts, s.configs)
    && Pairwise(DifferentRecordIds, s.records)
    && forall r | r in s.records :: HasConfigId(s.configs, r.monitorConfigId)
  }

  datatype StoreError = DuplicateConfigId | DuplicateProductId

  /** Inserting a configuration; the unique constraints reject a second row for the same product. */
  function InsertConfig(s: Store, c: MonitorConfig): (r: Result<Store, StoreError>)
    ensures r.Failure? <==> HasConfigId(s.configs, c.id) || HasProductId(s.configs, c.productId)
    ensures HasProductId(s.configs, c.productId) && !HasConfigId(s.configs, c.id) ==> r == Failure(DuplicateProductId)
    ensures r.Success? ==> r.value == Store(s.configs + [c], s.records)
    ensures r.Success? && ValidStore(s) ==> ValidStore(r.value)
  {
    if HasConfigId(s.configs, c.id) then Failure(DuplicateConfigId)
    else if HasProductId(s.configs, c.productId) then Failure(DuplicateProductId)
    else
      PairwiseAppend(DifferentConfigIds, s.configs, c);
      PairwiseAppend(DifferentProducts, s.configs, c);
      Success(Store(s.configs + [c], s.records))
  }

  /** Deleting a configuration; its stock records go with it (`cascade="all, delete-orphan"`). */
  function DeleteConfig(s: Store, id: nat): (r: Store)
    ensures !HasConfigId(r.configs, id)
    ensures forall rec | rec in r.records :: rec.monitorConfigId != id
    ensures forall c | c in s.configs :: c in r.configs <==> c.id != id
    ensures forall rec | rec in s.records :: rec in r.records <==> rec.monitorConfigId != id
    ensures forall c | c in r.configs :: c in s.configs
    ensures forall rec | rec in r.records :: rec in s.records
    ensures ValidStore(s) ==> ValidStore(r)
  {
    var configs := Filter((c: MonitorConfig) => c.id != id, s.configs);
    var records := Filter((rec: StockRecord) => rec.monitorConfigId != id, s.records);
    if ValidStore(s) then
      FilterKeepsPairwise((c: MonitorConfig) => c.id != id, DifferentConfigIds, s.configs);
      FilterKeepsPairwise((c: MonitorConfig) => c.id != id, DifferentProducts, s.configs);
      FilterKeepsPairwise((rec: StockRecord) => rec.monitorConfigId != id, DifferentRecordIds, s.records);
      assert forall rec | rec in records :: HasConfigId(configs, rec.monitorConfigId) by {
        forall rec | rec in records
          ensures HasConfigId(configs, rec.monitorConfigId)
        {
          var c :| c in s.configs && c.id == rec.monitorConfigId;
          assert c in configs;
        }
      }
      Store(configs, records)
    else Store(configs, records)
  }

  /** A rejected insert leaves the store as it was, so a failed duplicate cannot break uniqueness. */
  lemma DuplicateProductRejected(s: Store, c: MonitorConfig, existing: MonitorConfig)
    requires existing in s.configs && existing.productId == c.productId
    ensures InsertConfig(s, c).Failure?
  {
  }
}
