/**
 * The service layer's database session and its four repositories.
 *
 * The session holds one table per row type (websites, monitor
 * configurations, stock records, monitor history), the next autoincrement
 * key of each, and a logical clock standing for `datetime.utcnow()`: every
 * reading of the time ticks it, so two readings never coincide.  Each
 * repository method that writes is a `method` on the session's tables; each
 * query is a function reading them.
 */
module Repositories {
  import opened Wrappers
  import opened Seqs
  import opened Tables

  // ------------------------------------------------------------ row shapes

  /** The columns of a website other than its key and `created_at`. */
  datatype Website = Website(
    name: string,
    websiteUrl: string,
    apiIdentifier: string,
    apiSecret: string,
    region: Option<string>,
    isActive: bool,
    updatedAt: nat)

  /** The columns of a monitor configuration other than its key and `created_at`. */
  datatype Monitor = Monitor(
    websiteId: int,
    productId: int,
    productName: Option<string>,
    thresholdLow: Option<int>,
    thresholdHigh: Option<int>,
    notifyOnRestock: bool,
    notifyOnPurchase: bool,
    notifyOnThreshold: bool,
    purchaseLink: Option<string>,
    isActive: bool,
    status: string,
    lastCheckedAt: Option<nat>,
    updatedAt: nat)

  /** The columns of a stock record other than its key and `created_at`. */
  datatype Record = Record(
    monitorConfigId: int,
    quantity: int,
    delta: int,
    stockControlEnabled: bool,
    available: bool,
    changeType: Option<string>,
    thresholdBreached: bool,
    thresholdType: Option<string>,
    metadataJson: Option<string>)

  /** The columns of a monitor history entry other than its key and `created_at`. */
  datatype History = History(
    monitorConfigId: int,
    eventType: string,
    fromQuantity: Option<int>,
    toQuantity: int,
    delta: int,
    changeType: Option<string>,
    thresholdBreached: bool,
    thresholdType: Option<string>,
    thresholdValue: Option<int>,
    message: Option<string>,
    metadataJson: Option<string>)

  /** Every website was updated after it was created, and both before now. */
  ghost predicate WebsitesStamped(rows: seq<Row<Website>>, clock: nat) {
    forall r | r in rows :: r.createdAt < r.fields.updatedAt < clock
  }

  /** Every monitor was updated after it was created, and both before now. */
  ghost predicate MonitorsStamped(rows: seq<Row<Monitor>>, clock: nat) {
    forall r | r in rows :: r.createdAt < r.fields.updatedAt < clock
  }

  /** Rewriting a website with a fresh `updated_at` keeps every website stamped. */
  lemma ReplaceWebsiteKeepsStamped(rows: seq<Row<Website>>, id: int, fields: Website, clock: nat)
    requires WebsitesStamped(rows, clock)
    requires fields.updatedAt < clock && forall r | r in rows :: r.createdAt < fields.updatedAt
    ensures WebsitesStamped(Replace(rows, id, fields), clock)
  {
    var rows' := Replace(rows, id, fields);
    forall r | r in rows'
      ensures r.createdAt < r.fields.updatedAt < clock
    {
      var i :| 0 <= i < |rows'| && rows'[i] == r;
      assert rows[i] in rows;
    }
  }

  /** Rewriting a monitor with a fresh `updated_at` keeps every monitor stamped. */
  lemma ReplaceMonitorKeepsStamped(rows: seq<Row<Monitor>>, id: int, fields: Monitor, clock: nat)
    requires MonitorsStamped(rows, clock)
    requires fields.updatedAt < clock && forall r | r in rows :: r.createdAt < fields.updatedAt
    ensures MonitorsStamped(Replace(rows, id, fields), clock)
  {
    var rows' := Replace(rows, id, fields);
    forall r | r in rows'
      ensures r.createdAt < r.fields.updatedAt < clock
    {
      var i :| 0 <= i < |rows'| && rows'[i] == r;
      assert rows[i] in rows;
    }
  }

  // ------------------------------------------------------------ the session

  class Session {
    var websites: seq<Row<Website>>
    var monitors: seq<Row<Monitor>>
    var records: seq<Row<Record>>
    var history: seq<Row<History>>
    var nextWebsiteId: nat
    var nextMonitorId: nat
    var nextRecordId: nat
    var nextHistoryId: nat
    var clock: nat

    ghost predicate Valid()
      reads this
    {
      && WellFormed(websites, nextWebsiteId, clock)
      && WellFormed(monitors, nextMonitorId, clock)
      && WellFormed(records, nextRecordId, clock)
      && WellFormed(history, nextHistoryId, clock)
      && WebsitesStamped(websites, clock)
      && MonitorsStamped(monitors, clock)
    }

    /** An empty database; autoincrement keys start at 1. */
    constructor()
      ensures Valid()
      ensures websites == [] && monitors == [] && records == [] && history == []
      ensures nextWebsiteId == 1 && nextMonitorId == 1 && nextRecordId == 1 && nextHistoryId == 1
    {
      websites, monitors, records, history := [], [], [], [];
      nextWebsiteId, nextMonitorId, nextRecordId, nextHistoryId := 1, 1, 1, 1;
      clock := 0;
    }

    /** `datetime.utcnow()`: the current instant; the clock moves past it. */
    method Now() returns (t: nat)
      requires Valid()
      modifies this
      ensures Valid()
      ensures t == old(clock) && clock == t + 1
      ensures websites == old(websites) && monitors == old(monitors)
      ensures records == old(records) && history == old(history)
      ensures nextWebsiteId == old(nextWebsiteId) && nextMonitorId == old(nextMonitorId)
      ensures nextRecordId == old(nextRecordId) && nextHistoryId == old(nextHistoryId)
    {
      t := clock;
      clock := clock + 1;
      LaterKeepsWellFormed(websites, nextWebsiteId, t, clock);
      LaterKeepsWellFormed(monitors, nextMonitorId, t, clock);
      LaterKeepsWellFormed(records, nextRecordId, t, clock);
      LaterKeepsWellFormed(history, nextHistoryId, t, clock);
    }

    /** Flushes new columns, stamped at an instant already read, for the website with key `id`. */
    method RewriteWebsite(id: int, fields: Website)
      requires Valid() && HasId(websites, id)
      requires fields.updatedAt < clock && forall r | r in websites :: r.createdAt < fields.updatedAt
      modifies this
      ensures Valid()
      ensures websites == Replace(old(websites), id, fields)
      ensures monitors == old(monitors) && records == old(records) && history == old(history)
      ensures nextWebsiteId == old(nextWebsiteId) && nextMonitorId == old(nextMonitorId)
      ensures nextRecordId == old(nextRecordId) && nextHistoryId == old(nextHistoryId)
      ensures clock == old(clock)
    {
      ReplaceKeepsWellFormed(websites, nextWebsiteId, clock, id, fields);
      ReplaceWebsiteKeepsStamped(websites, id, fields, clock);
      websites := Replace(websites, id, fields);
    }

    /** Flushes new columns, stamped at an instant already read, for the monitor with key `id`. */
    method RewriteMonitor(id: int, fields: Monitor)
      requires Valid() && HasId(monitors, id)
      requires fields.updatedAt < clock && forall r | r in monitors :: r.createdAt < fields.updatedAt
      modifies this
      ensures Valid()
      ensures monitors == Replace(old(monitors), id, fields)
      ensures websites == old(websites) && records == old(records) && history == old(history)
      ensures nextWebsiteId == old(nextWebsiteId) && nextMonitorId == old(nextMonitorId)
      ensures nextRecordId == old(nextRecordId) && nextHistoryId == old(nextHistoryId)
      ensures clock == old(clock)
    {
      ReplaceKeepsWellFormed(monitors, nextMonitorId, clock, id, fields);
      ReplaceMonitorKeepsStamped(monitors, id, fields, clock);
      monitors := Replace(monitors, id, fields);
    }
  }

  // ------------------------------------------------------------ websites

  class WebsiteRepository {
    const session: Session

    constructor(session: Session)
      ensures this.session == session
    {
      this.session := session;
    }

    /**
     * `create`: the row gets the next key, `created_at` and then
     * `updated_at` are read from the clock, and it is appended.
     */
    method Create(w: Website) returns (row: Row<Website>)
      requires session.Valid()
      modifies session
      ensures session.Valid()
      ensures !HasId(old(session.websites), row.id) && row.id == old(session.nextWebsiteId)
      ensures row.createdAt == old(session.clock) && row.createdAt < row.fields.updatedAt
      ensures row.fields == w.(updatedAt := row.fields.updatedAt)
      ensures session.websites == old(session.websites) + [row]
      ensures session.nextWebsiteId == old(session.nextWebsiteId) + 1
      ensures session.monitors == old(session.monitors) && session.nextMonitorId == old(session.nextMonitorId)
      ensures session.records == old(session.records) && session.nextRecordId == old(session.nextRecordId)
      ensures session.history == old(session.history) && session.nextHistoryId == old(session.nextHistoryId)
    {
      var created := session.Now();
      var updated := session.Now();
      row := Row(session.nextWebsiteId, created, w.(updatedAt := updated));
      InsertKeepsWellFormed(session.websites, session.nextWebsiteId, created, row.fields, session.clock);
      session.websites := session.websites + [row];
      session.nextWebsiteId := session.nextWebsiteId + 1;
    }

    /** `get_by_id`. */
    function GetById(id: int): (r: Option<Row<Website>>)
      reads session
      ensures r.None? <==> !HasId(session.websites, id)
      ensures r.Some? ==> r.value in session.websites && r.value.id == id
    {
      Find(session.websites, id)
    }

    /** `get_by_name`: the first website with that name. */
    function GetByName(name: string): (r: Option<Row<Website>>)
      reads session
      ensures r.None? <==> forall w | w in session.websites :: w.fields.name != name
      ensures r.Some? ==> r.value in session.websites && r.value.fields.name == name
    {
      First(session.websites, (w: Row<Website>) => w.fields.name == name)
    }

    /** `get_all`: every website, or only the active ones, in table order. */
    function GetAll(activeOnly: bool): (r: seq<Row<Website>>)
      reads session
      ensures forall w | w in r :: w in session.websites && (activeOnly ==> w.fields.isActive)
      ensures forall w | w in session.websites && (activeOnly ==> w.fields.isActive) :: w in r
      ensures !activeOnly ==> r == session.websites
    {
      if activeOnly then Filter((w: Row<Website>) => w.fields.isActive, session.websites)
      else session.websites
    }

    /** `update`: the columns are written back and `updated_at` is read from the clock. */
    method Update(id: int, w: Website) returns (row: Row<Website>)
      requires session.Valid() && HasId(session.websites, id)
      modifies session
      ensures session.Valid()
      ensures row == old(GetById(id)).value.(fields := w.(updatedAt := old(session.clock)))
      ensures row.id == id && row.createdAt < row.fields.updatedAt
      ensures session.websites == Replace(old(session.websites), id, row.fields)
      ensures GetById(id) == Some(row)
      ensures session.nextWebsiteId == old(session.nextWebsiteId)
      ensures session.monitors == old(session.monitors) && session.nextMonitorId == old(session.nextMonitorId)
      ensures session.records == old(session.records) && session.nextRecordId == old(session.nextRecordId)
      ensures session.history == old(session.history) && session.nextHistoryId == old(session.nextHistoryId)
    {
      var current := GetById(id).value;
      var updated := session.Now();
      var fields := w.(updatedAt := updated);
      row := current.(fields := fields);
      FindAfterReplace(session.websites, session.nextWebsiteId, session.clock, id, fields);
      session.RewriteWebsite(id, fields);
    }

    /** `delete`: true exactly when a website with that key existed; it is gone afterwards. */
    method Delete(id: int) returns (deleted: bool)
      requires session.Valid()
      modifies session
      ensures session.Valid()
      ensures deleted <==> old(HasId(session.websites, id))
      ensures deleted ==> session.websites == Remove(old(session.websites), id)
      ensures !deleted ==> session.websites == old(session.websites)
      ensures GetById(id).None?
      ensures session.nextWebsiteId == old(session.nextWebsiteId) && session.clock == old(session.clock)
      ensures session.monitors == old(session.monitors) && session.nextMonitorId == old(session.nextMonitorId)
      ensures session.records == old(session.records) && session.nextRecordId == old(session.nextRecordId)
      ensures session.history == old(session.history) && session.nextHistoryId == old(session.nextHistoryId)
    {
      var found := GetById(id);
      if found.Some? {
        RemoveKeepsWellFormed(session.websites, session.nextWebsiteId, session.clock, id);
        session.websites := Remove(session.websites, id);
        deleted := true;
      } else {
        deleted := false;
      }
    }
  }

  // ------------------------------------------------------------ monitors

  class MonitorConfigRepository {
    const session: Session

    constructor(session: Session)
      ensures this.session == session
    {
      this.session := session;
    }

    /**
     * `create`: the row gets the next key, `created_at` and then
     * `updated_at` are read from the clock, and it is appended.
     */
    method Create(m: Monitor) returns (row: Row<Monitor>)
      requires session.Valid()
      modifies session
      ensures session.Valid()
      ensures !HasId(old(session.monitors), row.id) && row.id == old(session.nextMonitorId)
      ensures row.createdAt == old(session.clock) && row.createdAt < row.fields.updatedAt
      ensures row.fields == m.(updatedAt := row.fields.updatedAt)
      ensures session.monitors == old(session.monitors) + [row]
      ensures session.nextMonitorId == old(session.nextMonitorId) + 1
      ensures session.websites == old(session.websites) && session.nextWebsiteId == old(session.nextWebsiteId)
      ensures session.records == old(session.records) && session.nextRecordId == old(session.nextRecordId)
      ensures session.history == old(session.history) && session.nextHistoryId == old(session.nextHistoryId)
    {
      var created := session.Now();
      var updated := session.Now();
      row := Row(session.nextMonitorId, created, m.(updatedAt := updated));
      InsertKeepsWellFormed(session.monitors, session.nextMonitorId, created, row.fields, session.clock);
      session.monitors := session.monitors + [row];
      session.nextMonitorId := session.nextMonitorId + 1;
    }

    /** `get_by_id`. */
    function GetById(id: int): (r: Option<Row<Monitor>>)
      reads session
      ensures r.None? <==> !HasId(session.monitors, id)
      ensures r.Some? ==> r.value in session.monitors && r.value.id == id
    {
      Find(session.monitors, id)
    }

    /** `get_by_website_and_product`: the first monitor with both keys. */
    function GetByWebsiteAndProduct(websiteId: int, productId: int): (r: Option<Row<Monitor>>)
      reads session
      ensures r.None? <==>
        forall m | m in session.monitors :: !(m.fields.websiteId == websiteId && m.fields.productId == productId)
      ensures r.Some? ==>
        r.value in session.monitors && r.value.fields.websiteId == websiteId && r.value.fields.productId == productId
    {
      First(session.monitors, (m: Row<Monitor>) => m.fields.websiteId == websiteId && m.fields.productId == productId)
    }

    /** `get_active_by_website`: the active monitors of one website, in table order. */
    function GetActiveByWebsite(websiteId: int): (r: seq<Row<Monitor>>)
      reads session
      ensures forall m | m in r :: m in session.monitors && m.fields.websiteId == websiteId && m.fields.isActive
      ensures forall m | m in session.monitors && m.fields.websiteId == websiteId && m.fields.isActive :: m in r
    {
      Filter((m: Row<Monitor>) => m.fields.websiteId == websiteId && m.fields.isActive, session.monitors)
    }

    /** `get_all_active`: the active monitors of every website, in table order. */
    function GetAllActive(): (r: seq<Row<Monitor>>)
      reads session
      ensures forall m | m in r :: m in session.monitors && m.fields.isActive
      ensures forall m | m in session.monitors && m.fields.isActive :: m in r
    {
      Filter((m: Row<Monitor>) => m.fields.isActive, session.monitors)
    }

    /** `update`: the columns are written back and `updated_at` is read from the clock. */
    method Update(id: int, m: Monitor) returns (row: Row<Monitor>)
      requires session.Valid() && HasId(session.monitors, id)
      modifies session
      ensures session.Valid()
      ensures row == old(GetById(id)).value.(fields := m.(updatedAt := old(session.clock)))
      ensures row.id == id && row.createdAt < row.fields.updatedAt
      ensures session.monitors == Replace(old(session.monitors), id, row.fields)
      ensures GetById(id) == Some(row)
      ensures session.nextMonitorId == old(session.nextMonitorId)
      ensures session.websites == old(session.websites) && session.nextWebsiteId == old(session.nextWebsiteId)
      ensures session.records == old(session.records) && session.nextRecordId == old(session.nextRecordId)
      ensures session.history == old(session.history) && session.nextHistoryId == old(session.nextHistoryId)
    {
      var current := GetById(id).value;
      var updated := session.Now();
      var fields := m.(updatedAt := updated);
      row := current.(fields := fields);
      FindAfterReplace(session.monitors, session.nextMonitorId, session.clock, id, fields);
      session.RewriteMonitor(id, fields);
    }

    /** `delete`: true exactly when a monitor with that key existed; it is gone afterwards. */
    method Delete(id: int) returns (deleted: bool)
      requires session.Valid()
      modifies session
      ensures session.Valid()
      ensures deleted <==> old(HasId(session.monitors, id))
      ensures deleted ==> session.monitors == Remove(old(session.monitors), id)
      ensures !deleted ==> session.monitors == old(session.monitors)
      ensures GetById(id).None?
      ensures session.nextMonitorId == old(session.nextMonitorId) && session.clock == old(session.clock)
      ensures session.websites == old(session.websites) && session.nextWebsiteId == old(session.nextWebsiteId)
      ensures session.records == old(session.records) && session.nextRecordId == old(session.nextRecordId)
      ensures session.history == old(session.history) && session.nextHistoryId == old(session.nextHistoryId)
    {
      var found := GetById(id);
      if found.Some? {
        RemoveKeepsWellFormed(session.monitors, session.nextMonitorId, session.clock, id);
        session.monitors := Remove(session.monitors, id);
        deleted := true;
      } else {
        deleted := false;
      }
    }
  }

  // ------------------------------------------------------------ stock records

  /** The filter `monitor_config_id == id` on stock records. */
  function RecordsOf(monitorConfigId: int): Row<Record> -> bool {
    (x: Row<Record>) => x.fields.monitorConfigId == monitorConfigId
  }

  class StockRecordRepository {
    const session: Session

    constructor(session: Session)
      ensures this.session == session
    {
      this.session := session;
    }

    /** `create`: the row gets the next key and `created_at` is read from the clock. */
    method Create(rec: Record) returns (row: Row<Record>)
      requires session.Valid()
      modifies session
      ensures session.Valid()
      ensures !HasId(old(session.records), row.id)
      ensures row == Row(old(session.nextRecordId), old(session.clock), rec)
      ensures session.records == old(session.records) + [row]
      ensures session.nextRecordId == old(session.nextRecordId) + 1
      ensures session.websites == old(session.websites) && session.nextWebsiteId == old(session.nextWebsiteId)
      ensures session.monitors == old(session.monitors) && session.nextMonitorId == old(session.nextMonitorId)
      ensures session.history == old(session.history) && session.nextHistoryId == old(session.nextHistoryId)
    {
      var created := session.Now();
      row := Row(session.nextRecordId, created, rec);
      InsertKeepsWellFormed(session.records, session.nextRecordId, created, rec, session.clock);
      session.records := session.records + [row];
      session.nextRecordId := session.nextRecordId + 1;
    }

    /** `get_latest_by_monitor`: the monitor's record with the greatest `created_at`. */
    function GetLatestByMonitor(monitorConfigId: int): (r: Option<Row<Record>>)
      reads session
      ensures r.None? <==> forall x | x in session.records :: x.fields.monitorConfigId != monitorConfigId
      ensures r.Some? ==> r.value in session.records && r.value.fields.monitorConfigId == monitorConfigId
      ensures r.Some? && session.Valid() ==>
        forall x | x in session.records && x.fields.monitorConfigId == monitorConfigId && x != r.value ::
          x.createdAt < r.value.createdAt
    {
      var r := Latest(session.records, RecordsOf(monitorConfigId));
      assert session.Valid() && r.Some? ==>
        forall x | x in session.records && RecordsOf(monitorConfigId)(x) && x != r.value :: x.createdAt < r.value.createdAt
      by {
        if session.Valid() {
          LatestIsNewest(session.records, session.nextRecordId, session.clock, RecordsOf(monitorConfigId));
        }
      }
      r
    }

    /** `get_by_monitor`: the monitor's records, newest first, at most `limit`. */
    function GetByMonitor(monitorConfigId: int, limit: nat): (r: seq<Row<Record>>)
      reads session
      ensures |r| == if |Filter(RecordsOf(monitorConfigId), session.records)| <= limit
        then |Filter(RecordsOf(monitorConfigId), session.records)| else limit
      ensures forall x | x in r :: x in session.records && x.fields.monitorConfigId == monitorConfigId
      ensures session.Valid() ==> NewestFirst(r)
      ensures session.Valid() ==>
        forall x, y | x in session.records && x.fields.monitorConfigId == monitorConfigId && x !in r && y in r ::
          x.createdAt < y.createdAt
    {
      var r := Newest(session.records, RecordsOf(monitorConfigId), limit);
      assert session.Valid() ==> NewestFirst(r) && forall x, y |
        x in session.records && RecordsOf(monitorConfigId)(x) && x !in r && y in r :: x.createdAt < y.createdAt
      by {
        if session.Valid() {
          NewestIsOrdered(session.records, session.nextRecordId, session.clock, RecordsOf(monitorConfigId), limit);
          NewestLeavesOutOlder(session.records, session.nextRecordId, session.clock, RecordsOf(monitorConfigId), limit);
        }
      }
      r
    }
  }

  // ------------------------------------------------------------ history

  /** The filter `monitor_config_id == id` on history entries. */
  function HistoryOf(monitorConfigId: int): Row<History> -> bool {
    (h: Row<History>) => h.fields.monitorConfigId == monitorConfigId
  }

  /** The filter `event_type == t` on history entries. */
  function HistoryOfType(eventType: string): Row<History> -> bool {
    (h: Row<History>) => h.fields.eventType == eventType
  }

  class MonitorHistoryRepository {
    const session: Session

    constructor(session: Session)
      ensures this.session == session
    {
      this.session := session;
    }

    /** `create`: the row gets the next key and `created_at` is read from the clock. */
    method Create(h: History) returns (row: Row<History>)
      requires session.Valid()
      modifies session
      ensures session.Valid()
      ensures !HasId(old(session.history), row.id)
      ensures row == Row(old(session.nextHistoryId), old(session.clock), h)
      ensures session.history == old(session.history) + [row]
      ensures session.nextHistoryId == old(session.nextHistoryId) + 1
      ensures session.websites == old(session.websites) && session.nextWebsiteId == old(session.nextWebsiteId)
      ensures session.monitors == old(session.monitors) && session.nextMonitorId == old(session.nextMonitorId)
      ensures session.records == old(session.records) && session.nextRecordId == old(session.nextRecordId)
    {
      var created := session.Now();
      row := Row(session.nextHistoryId, created, h);
      InsertKeepsWellFormed(session.history, session.nextHistoryId, created, h, session.clock);
      session.history := session.history + [row];
      session.nextHistoryId := session.nextHistoryId + 1;
    }

    /** `get_by_monitor`: the monitor's history, newest first, at most `limit`. */
    function GetByMonitor(monitorConfigId: int, limit: nat): (r: seq<Row<History>>)
      reads session
      ensures |r| == if |Filter(HistoryOf(monitorConfigId), session.history)| <= limit
        then |Filter(HistoryOf(monitorConfigId), session.history)| else limit
      ensures forall x | x in r :: x in session.history && x.fields.monitorConfigId == monitorConfigId
      ensures session.Valid() ==> NewestFirst(r)
      ensures session.Valid() ==>
        forall x, y | x in session.history && x.fields.monitorConfigId == monitorConfigId && x !in r && y in r ::
          x.createdAt < y.createdAt
    {
      var r := Newest(session.history, HistoryOf(monitorConfigId), limit);
      assert session.Valid() ==> NewestFirst(r) && forall x, y |
        x in session.history && HistoryOf(monitorConfigId)(x) && x !in r && y in r :: x.createdAt < y.createdAt
      by {
        if session.Valid() {
          NewestIsOrdered(session.history, session.nextHistoryId, session.clock, HistoryOf(monitorConfigId), limit);
          NewestLeavesOutOlder(session.history, session.nextHistoryId, session.clock, HistoryOf(monitorConfigId), limit);
        }
      }
      r
    }

    /** `get_by_event_type`: the entries of one event type, newest first, at most `limit`. */
    function GetByEventType(eventType: string, limit: nat): (r: seq<Row<History>>)
      reads session
      ensures |r| == if |Filter(HistoryOfType(eventType), session.history)| <= limit
        then |Filter(HistoryOfType(eventType), session.history)| else limit
      ensures forall x | x in r :: x in session.history && x.fields.eventType == eventType
      ensures session.Valid() ==> NewestFirst(r)
      ensures session.Valid() ==>
        forall x, y | x in session.history && x.fields.eventType == eventType && x !in r && y in r ::
          x.createdAt < y.createdAt
    {
      var r := Newest(session.history, HistoryOfType(eventType), limit);
      assert session.Valid() ==> NewestFirst(r) && forall x, y |
        x in session.history && HistoryOfType(eventType)(x) && x !in r && y in r :: x.createdAt < y.createdAt
      by {
        if session.Valid() {
          NewestIsOrdered(session.history, session.nextHistoryId, session.clock, HistoryOfType(eventType), limit);
          NewestLeavesOutOlder(session.history, session.nextHistoryId, session.clock, HistoryOfType(eventType), limit);
        }
      }
      r
    }
  }
}
