/**
 * The service layer: validation in front of the repositories.
 *
 * `WebsiteService` refuses a second website with the same name,
 * `MonitorConfigService` refuses a monitor for an unknown website or a second
 * monitor for the same (website, product) pair and applies partial updates,
 * and `MonitoringService` records stock changes and history and summarises a
 * monitor's state.  A `ValueError` raised by a service is a `Failure`.
 */
module Services {
  import opened Wrappers
  import opened Seqs
  import opened Text
  import opened Json
  import opened Tables
  import opened Repositories

  datatype ServiceError = ValueError(message: string)

  // ------------------------------------------------------------ websites

  /**
   * The assignments of `update_website`: each argument other than none
   * overwrites its column; the other columns keep their values.
   */
  method OverwriteGiven(
    w: Website, name: Option<string>, websiteUrl: Option<string>, apiIdentifier: Option<string>,
    apiSecret: Option<string>, region: Option<string>, isActive: Option<bool>)
    returns (w': Website)
    ensures w'.name == name.GetOr(w.name) && w'.websiteUrl == websiteUrl.GetOr(w.websiteUrl)
    ensures w'.apiIdentifier == apiIdentifier.GetOr(w.apiIdentifier) && w'.apiSecret == apiSecret.GetOr(w.apiSecret)
    ensures w'.region == (if region.Some? then region else w.region)
    ensures w'.isActive == isActive.GetOr(w.isActive)
    ensures w'.updatedAt == w.updatedAt
  {
    w' := w;
    if name.Some? {
      w' := w'.(name := name.value);
    }
    if websiteUrl.Some? {
      w' := w'.(websiteUrl := websiteUrl.value);
    }
    if apiIdentifier.Some? {
      w' := w'.(apiIdentifier := apiIdentifier.value);
    }
    if apiSecret.Some? {
      w' := w'.(apiSecret := apiSecret.value);
    }
    if region.Some? {
      w' := w'.(region := region);
    }
    if isActive.Some? {
      w' := w'.(isActive := isActive.value);
    }
  }

  class WebsiteService {
    const session: Session
    const repository: WebsiteRepository

    constructor(session: Session)
      ensures this.session == session && repository.session == session
    {
      this.session := session;
      repository := new WebsiteRepository(session);
    }

    /**
     * `create_website`: refused when a website already has the name, and the
     * table is then left as it was; otherwise the website is inserted.
     */
    method CreateWebsite(
      name: string, websiteUrl: string, apiIdentifier: string, apiSecret: string,
      region: Option<string> := None, isActive: bool := true)
      returns (r: Result<Row<Website>, ServiceError>)
      requires repository.session.Valid()
      modifies repository.session
      ensures repository.session.Valid()
      ensures r.Failure? <==> exists w | w in old(repository.session.websites) :: w.fields.name == name
      ensures r.Failure? ==>
        && r.error == ValueError("Website with name '" + name + "' already exists")
        && unchanged(repository.session)
      ensures r.Success? ==>
        && r.value.fields == Website(name, websiteUrl, apiIdentifier, apiSecret, region, isActive, r.value.fields.updatedAt)
        && !HasId(old(repository.session.websites), r.value.id)
        && repository.session.websites == old(repository.session.websites) + [r.value]
    {
      var existing := repository.GetByName(name);
      if existing.Some? {
        return Failure(ValueError("Website with name '" + name + "' already exists"));
      }
      var row := repository.Create(Website(name, websiteUrl, apiIdentifier, apiSecret, region, isActive, 0));
      r := Success(row);
    }

    /** `get_website`. */
    function GetWebsite(id: int): (r: Option<Row<Website>>)
      reads repository.session
      ensures r.None? <==> !HasId(repository.session.websites, id)
      ensures r.Some? ==> r.value in repository.session.websites && r.value.id == id
    {
      repository.GetById(id)
    }

    /** `get_all_websites`. */
    function GetAllWebsites(activeOnly: bool := false): (r: seq<Row<Website>>)
      reads repository.session
      ensures forall w | w in r :: w in repository.session.websites && (activeOnly ==> w.fields.isActive)
      ensures forall w | w in repository.session.websites && (activeOnly ==> w.fields.isActive) :: w in r
    {
      repository.GetAll(activeOnly)
    }

    /**
     * `update_website`: none for an unknown key; otherwise exactly the
     * arguments given (not none) overwrite their columns, and `updated_at`
     * moves forward.
     */
    method UpdateWebsite(
      id: int, name: Option<string> := None, websiteUrl: Option<string> := None,
      apiIdentifier: Option<string> := None, apiSecret: Option<string> := None,
      region: Option<string> := None, isActive: Option<bool> := None)
      returns (r: Option<Row<Website>>)
      requires repository.session.Valid()
      modifies repository.session
      ensures repository.session.Valid()
      ensures r.None? <==> !old(HasId(repository.session.websites, id))
      ensures r.None? ==> unchanged(repository.session)
      ensures r.Some? ==>
        var before := old(Find(repository.session.websites, id)).value;
        && r.value.id == id && r.value.createdAt == before.createdAt
        && r.value.fields.name == name.GetOr(before.fields.name)
        && r.value.fields.websiteUrl == websiteUrl.GetOr(before.fields.websiteUrl)
        && r.value.fields.apiIdentifier == apiIdentifier.GetOr(before.fields.apiIdentifier)
        && r.value.fields.apiSecret == apiSecret.GetOr(before.fields.apiSecret)
        && r.value.fields.region == (if region.Some? then region else before.fields.region)
        && r.value.fields.isActive == isActive.GetOr(before.fields.isActive)
        && before.fields.updatedAt < r.value.fields.updatedAt
        && repository.session.websites == Replace(old(repository.session.websites), id, r.value.fields)
        && Find(repository.session.websites, id) == r
    {
      var found := repository.GetById(id);
      if found.None? {
        return None;
      }
      var w := OverwriteGiven(found.value.fields, name, websiteUrl, apiIdentifier, apiSecret, region, isActive);
      assert found.value in repository.session.websites;
      var row := repository.Update(id, w);
      r := Some(row);
    }

    /** `delete_website`: true exactly when the website existed; it is gone afterwards. */
    method DeleteWebsite(id: int) returns (deleted: bool)
      requires repository.session.Valid()
      modifies repository.session
      ensures repository.session.Valid()
      ensures deleted <==> old(HasId(repository.session.websites, id))
      ensures deleted ==> repository.session.websites == Remove(old(repository.session.websites), id)
      ensures !deleted ==> repository.session.websites == old(repository.session.websites)
      ensures !HasId(repository.session.websites, id)
      ensures repository.session.monitors == old(repository.session.monitors)
      ensures repository.session.records == old(repository.session.records)
      ensures repository.session.history == old(repository.session.history)
    {
      deleted := repository.Delete(id);
    }
  }

  // ------------------------------------------------------------ monitors

  /** The columns `update_monitor` may set by name. */
  datatype Attr =
    | WebsiteIdAttr | ProductIdAttr | ProductNameAttr | ThresholdLowAttr | ThresholdHighAttr
    | NotifyOnRestockAttr | NotifyOnPurchaseAttr | NotifyOnThresholdAttr
    | PurchaseLinkAttr | IsActiveAttr | StatusAttr

  function AttrName(a: Attr): string {
    match a
    case WebsiteIdAttr => "website_id"
    case ProductIdAttr => "product_id"
    case ProductNameAttr => "product_name"
    case ThresholdLowAttr => "threshold_low"
    case ThresholdHighAttr => "threshold_high"
    case NotifyOnRestockAttr => "notify_on_restock"
    case NotifyOnPurchaseAttr => "notify_on_purchase"
    case NotifyOnThresholdAttr => "notify_on_threshold"
    case PurchaseLinkAttr => "purchase_link"
    case IsActiveAttr => "is_active"
    case StatusAttr => "status"
  }

  /** `hasattr(monitor, key)` for the settable columns: the column with that name, if any. */
  function AttrNamed(key: string): (r: Option<Attr>)
    ensures r.Some? ==> AttrName(r.value) == key
    ensures r.None? <==> forall a: Attr :: AttrName(a) != key
    ensures forall a: Attr :: AttrName(a) == key ==> r == Some(a)
  {
    if key == "website_id" then Some(WebsiteIdAttr)
    else if key == "product_id" then Some(ProductIdAttr)
    else if key == "product_name" then Some(ProductNameAttr)
    else if key == "threshold_low" then Some(ThresholdLowAttr)
    else if key == "threshold_high" then Some(ThresholdHighAttr)
    else if key == "notify_on_restock" then Some(NotifyOnRestockAttr)
    else if key == "notify_on_purchase" then Some(NotifyOnPurchaseAttr)
    else if key == "notify_on_threshold" then Some(NotifyOnThresholdAttr)
    else if key == "purchase_link" then Some(PurchaseLinkAttr)
    else if key == "is_active" then Some(IsActiveAttr)
    else if key == "status" then Some(StatusAttr)
    else None
  }

  /** Attributes of a monitor row that this model does not let `update_monitor` set. */
  predicate ReservedAttr(key: string) {
    key == "id" || key == "created_at" || key == "updated_at" || key == "last_checked_at"
  }

  /** A keyword argument's value. */
  datatype Value = VNone | VInt(i: int) | VStr(s: string) | VBool(b: bool)

  /** The value has the column's type. */
  predicate Fits(a: Attr, v: Value) {
    match a
    case WebsiteIdAttr | ProductIdAttr | ThresholdLowAttr | ThresholdHighAttr => v.VInt?
    case ProductNameAttr | PurchaseLinkAttr | StatusAttr => v.VStr?
    case NotifyOnRestockAttr | NotifyOnPurchaseAttr | NotifyOnThresholdAttr | IsActiveAttr => v.VBool?
  }

  /** `update_monitor`'s keyword arguments as this model takes them: reserved names only with none, settable ones well typed. */
  predicate WellTypedKwargs(kwargs: seq<(string, Value)>) {
    forall kv | kv in kwargs ::
      && (ReservedAttr(kv.0) ==> kv.1 == VNone)
      && (AttrNamed(kv.0).Some? && kv.1 != VNone ==> Fits(AttrNamed(kv.0).value, kv.1))
  }

  function OptIntValue(v: Option<int>): Value {
    match v
    case Some(i) => VInt(i)
    case None => VNone
  }

  function OptStrValue(v: Option<string>): Value {
    match v
    case Some(s) => VStr(s)
    case None => VNone
  }

  /** `getattr(monitor, name)` for a settable column; a null column reads as none. */
  function Column(m: Monitor, a: Attr): Value {
    match a
    case WebsiteIdAttr => VInt(m.websiteId)
    case ProductIdAttr => VInt(m.productId)
    case ProductNameAttr => OptStrValue(m.productName)
    case ThresholdLowAttr => OptIntValue(m.thresholdLow)
    case ThresholdHighAttr => OptIntValue(m.thresholdHigh)
    case NotifyOnRestockAttr => VBool(m.notifyOnRestock)
    case NotifyOnPurchaseAttr => VBool(m.notifyOnPurchase)
    case NotifyOnThresholdAttr => VBool(m.notifyOnThreshold)
    case PurchaseLinkAttr => OptStrValue(m.purchaseLink)
    case IsActiveAttr => VBool(m.isActive)
    case StatusAttr => VStr(m.status)
  }

  /** `setattr(monitor, name, value)`: that column now reads as the value, every other column as before. */
  function SetAttr(m: Monitor, a: Attr, v: Value): (m': Monitor)
    requires Fits(a, v)
    ensures Column(m', a) == v
    ensures forall b | b != a :: Column(m', b) == Column(m, b)
    ensures m'.lastCheckedAt == m.lastCheckedAt && m'.updatedAt == m.updatedAt
  {
    match a
    case WebsiteIdAttr => m.(websiteId := v.i)
    case ProductIdAttr => m.(productId := v.i)
    case ProductNameAttr => m.(productName := Some(v.s))
    case ThresholdLowAttr => m.(thresholdLow := Some(v.i))
    case ThresholdHighAttr => m.(thresholdHigh := Some(v.i))
    case NotifyOnRestockAttr => m.(notifyOnRestock := v.b)
    case NotifyOnPurchaseAttr => m.(notifyOnPurchase := v.b)
    case NotifyOnThresholdAttr => m.(notifyOnThreshold := v.b)
    case PurchaseLinkAttr => m.(purchaseLink := Some(v.s))
    case IsActiveAttr => m.(isActive := v.b)
    case StatusAttr => m.(status := v.s)
  }

  /** The keyword argument sets a column: the monitor has the attribute and the value is not none. */
  predicate Sets(kv: (string, Value), a: Attr) {
    AttrNamed(kv.0) == Some(a) && kv.1 != VNone
  }

  /** One turn of the `setattr` loop. */
  function Assign(m: Monitor, kv: (string, Value)): Monitor {
    match AttrNamed(kv.0)
    case Some(a) => if kv.1 != VNone && Fits(a, kv.1) then SetAttr(m, a, kv.1) else m
    case None => m
  }

  /** The whole `setattr` loop, in argument order. */
  function AssignAll(m: Monitor, kwargs: seq<(string, Value)>): Monitor {
    if kwargs == [] then m
    else Assign(AssignAll(m, kwargs[..|kwargs| - 1]), kwargs[|kwargs| - 1])
  }

  /** A column no argument sets keeps its value, and neither `last_checked_at` nor `updated_at` changes. */
  lemma {:induction false} AssignAllKeepsOthers(m: Monitor, kwargs: seq<(string, Value)>, a: Attr)
    requires forall kv | kv in kwargs :: !Sets(kv, a)
    ensures Column(AssignAll(m, kwargs), a) == Column(m, a)
    ensures AssignAll(m, kwargs).lastCheckedAt == m.lastCheckedAt
    ensures AssignAll(m, kwargs).updatedAt == m.updatedAt
  {
    if kwargs != [] {
      var init := kwargs[..|kwargs| - 1];
      assert forall kv | kv in init :: kv in kwargs;
      AssignAllKeepsOthers(m, init, a);
      assert kwargs[|kwargs| - 1] in kwargs;
    }
  }

  /** In a keyword dictionary (distinct keys) a well-typed, non-none value for a column is what the column holds afterwards. */
  lemma {:induction false} AssignAllSets(m: Monitor, kwargs: seq<(string, Value)>, i: nat, a: Attr)
    requires i < |kwargs| && Sets(kwargs[i], a) && Fits(a, kwargs[i].1)
    requires forall j, k | 0 <= j < k < |kwargs| :: kwargs[j].0 != kwargs[k].0
    ensures Column(AssignAll(m, kwargs), a) == kwargs[i].1
  {
    var init := kwargs[..|kwargs| - 1];
    var last := kwargs[|kwargs| - 1];
    if i == |kwargs| - 1 {
      assert AssignAll(m, kwargs) == SetAttr(AssignAll(m, init), a, last.1);
    } else {
      AssignAllSets(m, init, i, a);
      assert last.0 != kwargs[i].0;
      if AttrNamed(last.0).Some? {
        assert AttrNamed(last.0).value != a;
      }
    }
  }

  /** No two monitors share a (website, product) pair. */
  predicate DifferentPairs(x: Row<Monitor>, y: Row<Monitor>) {
    !(x.fields.websiteId == y.fields.websiteId && x.fields.productId == y.fields.productId)
  }

  class MonitorConfigService {
    const session: Session
    const repository: MonitorConfigRepository
    const websiteRepository: WebsiteRepository

    /** Both repositories work on the service's session. */
    predicate Wired() {
      repository.session == session && websiteRepository.session == session
    }

    constructor(session: Session)
      ensures this.session == session && Wired()
    {
      this.session := session;
      repository := new MonitorConfigRepository(session);
      websiteRepository := new WebsiteRepository(session);
    }

    /**
     * `create_monitor`: refused for an unknown website, then for a (website,
     * product) pair already monitored, leaving the tables as they were;
     * otherwise the monitor is inserted.  The same product may be monitored
     * on different websites.
     */
    method CreateMonitor(
      websiteId: int, productId: int, productName: Option<string> := None,
      thresholdLow: Option<int> := None, thresholdHigh: Option<int> := None,
      notifyOnRestock: bool := true, notifyOnPurchase: bool := true, notifyOnThreshold: bool := true,
      purchaseLink: Option<string> := None, isActive: bool := true, status: string := "active")
      returns (r: Result<Row<Monitor>, ServiceError>)
      requires Wired() && session.Valid()
      modifies session
      ensures session.Valid()
      ensures !old(HasId(session.websites, websiteId)) ==>
        && r == Failure(ValueError("Website with ID " + ShowInt(websiteId) + " does not exist"))
        && unchanged(session)
      ensures
        (&& old(HasId(session.websites, websiteId))
         && exists m | m in old(session.monitors) :: m.fields.websiteId == websiteId && m.fields.productId == productId)
        ==>
        (&& r == Failure(ValueError("Monitor for product " + ShowInt(productId) + " on website " + ShowInt(websiteId) + " already exists"))
         && unchanged(session))
      ensures r.Success? <==>
        && old(HasId(session.websites, websiteId))
        && forall m | m in old(session.monitors) :: !(m.fields.websiteId == websiteId && m.fields.productId == productId)
      ensures r.Success? ==>
        && r.value.fields == Monitor(websiteId, productId, productName, thresholdLow, thresholdHigh,
             notifyOnRestock, notifyOnPurchase, notifyOnThreshold, purchaseLink, isActive, status,
             None, r.value.fields.updatedAt)
        && !HasId(old(session.monitors), r.value.id)
        && session.monitors == old(session.monitors) + [r.value]
      ensures old(Pairwise(DifferentPairs, session.monitors)) ==> Pairwise(DifferentPairs, session.monitors)
    {
      var website := websiteRepository.GetById(websiteId);
      if website.None? {
        return Failure(ValueError("Website with ID " + ShowInt(websiteId) + " does not exist"));
      }
      var existing := repository.GetByWebsiteAndProduct(websiteId, productId);
      if existing.Some? {
        return Failure(ValueError("Monitor for product " + ShowInt(productId) + " on website " + ShowInt(websiteId) + " already exists"));
      }
      var row := repository.Create(Monitor(websiteId, productId, productName, thresholdLow, thresholdHigh,
        notifyOnRestock, notifyOnPurchase, notifyOnThreshold, purchaseLink, isActive, status, None, 0));
      PairwiseAppend(DifferentPairs, old(session.monitors), row);
      r := Success(row);
    }

    /** `get_monitor`. */
    function GetMonitor(id: int): (r: Option<Row<Monitor>>)
      reads repository.session
      ensures r.None? <==> !HasId(repository.session.monitors, id)
      ensures r.Some? ==> r.value in repository.session.monitors && r.value.id == id
    {
      repository.GetById(id)
    }

    /**
     * `get_active_monitors`: the active monitors of the given website, or of
     * every website when the id is falsy (none or 0).
     */
    function GetActiveMonitors(websiteId: Option<int> := None): (r: seq<Row<Monitor>>)
      reads repository.session
      ensures forall m | m in r ::
        && m in repository.session.monitors && m.fields.isActive
        && (websiteId.Some? && websiteId.value != 0 ==> m.fields.websiteId == websiteId.value)
      ensures forall m | m in repository.session.monitors && m.fields.isActive &&
        (websiteId.Some? && websiteId.value != 0 ==> m.fields.websiteId == websiteId.value) :: m in r
    {
      if websiteId.Some? && websiteId.value != 0 then repository.GetActiveByWebsite(websiteId.value)
      else repository.GetAllActive()
    }

    /**
     * `update_monitor`: none for an unknown key; otherwise each keyword
     * argument naming a settable column with a value other than none is
     * assigned, in argument order, and the row is written back.
     */
    method UpdateMonitor(id: int, kwargs: seq<(string, Value)>) returns (r: Option<Row<Monitor>>)
      requires Wired() && session.Valid() && WellTypedKwargs(kwargs)
      modifies session
      ensures session.Valid()
      ensures r.None? <==> !old(HasId(session.monitors, id))
      ensures r.None? ==> unchanged(session)
      ensures r.Some? ==>
        var before := old(Find(session.monitors, id)).value;
        && r.value.id == id && r.value.createdAt == before.createdAt
        && r.value.fields == AssignAll(before.fields, kwargs).(updatedAt := r.value.fields.updatedAt)
        && before.fields.updatedAt < r.value.fields.updatedAt
        && session.monitors == Replace(old(session.monitors), id, r.value.fields)
        && Find(session.monitors, id) == r
    {
      var found := repository.GetById(id);
      if found.None? {
        return None;
      }
      var m := found.value.fields;
      for k := 0 to |kwargs|
        invariant m == AssignAll(found.value.fields, kwargs[..k])
      {
        assert kwargs[..k + 1][..k] == kwargs[..k];
        m := Assign(m, kwargs[k]);
      }
      assert kwargs[..|kwargs|] == kwargs;
      assert found.value in session.monitors;
      var row := repository.Update(id, m);
      r := Some(row);
    }

    /** `delete_monitor`: true exactly when the monitor existed; it is gone afterwards. */
    method DeleteMonitor(id: int) returns (deleted: bool)
      requires Wired() && session.Valid()
      modifies session
      ensures session.Valid()
      ensures deleted <==> old(HasId(session.monitors, id))
      ensures deleted ==> session.monitors == Remove(old(session.monitors), id)
      ensures !deleted ==> session.monitors == old(session.monitors)
      ensures !HasId(session.monitors, id)
      ensures session.websites == old(session.websites)
      ensures session.records == old(session.records) && session.history == old(session.history)
    {
      deleted := repository.Delete(id);
    }
  }

  /** Only settable columns given a value other than none change: everything else about the monitor stays. */
  lemma UpdateMonitorTouchesOnlyNamed(before: Monitor, kwargs: seq<(string, Value)>, a: Attr)
    requires forall kv | kv in kwargs :: !Sets(kv, a)
    ensures Column(AssignAll(before, kwargs), a) == Column(before, a)
  {
    AssignAllKeepsOthers(before, kwargs, a);
  }

  // ------------------------------------------------------------ monitoring

  /** The entries of `get_status_summary`'s dictionary, in the order the source writes them. */
  function SummaryEntries(m: Row<Monitor>, latest: Option<Row<Record>>, recentEvents: nat): Dict {
    [
      ("monitor_id", JInt(m.id)),
      ("website_id", JInt(m.fields.websiteId)),
      ("product_id", JInt(m.fields.productId)),
      ("product_name", OptStr(m.fields.productName)),
      ("is_active", JBool(m.fields.isActive)),
      ("status", JStr(m.fields.status)),
      ("last_checked_at", OptInt(m.fields.lastCheckedAt)),
      ("current_quantity", if latest.Some? then JInt(latest.value.fields.quantity) else JNull),
      ("last_change_type", if latest.Some? then OptStr(latest.value.fields.changeType) else JNull),
      ("threshold_breached", if latest.Some? then JBool(latest.value.fields.thresholdBreached) else JBool(false)),
      ("recent_events", JInt(recentEvents))
    ]
  }

  lemma SummaryKeysDistinct(m: Row<Monitor>, latest: Option<Row<Record>>, recentEvents: nat)
    ensures DistinctKeys(SummaryEntries(m, latest, recentEvents))
  {
  }

  lemma SummaryMonitorColumns(m: Row<Monitor>, latest: Option<Row<Record>>, recentEvents: nat)
    requires DistinctKeys(SummaryEntries(m, latest, recentEvents))
    ensures var d := SummaryEntries(m, latest, recentEvents);
      && Lookup(d, "monitor_id") == Some(JInt(m.id))
      && Lookup(d, "website_id") == Some(JInt(m.fields.websiteId))
      && Lookup(d, "product_id") == Some(JInt(m.fields.productId))
      && Lookup(d, "product_name") == Some(OptStr(m.fields.productName))
      && Lookup(d, "is_active") == Some(JBool(m.fields.isActive))
      && Lookup(d, "status") == Some(JStr(m.fields.status))
  {
    var d := SummaryEntries(m, latest, recentEvents);
    LookupDistinct(d, 0);
    LookupDistinct(d, 1);
    LookupDistinct(d, 2);
    LookupDistinct(d, 3);
    LookupDistinct(d, 4);
    LookupDistinct(d, 5);
  }

  lemma SummaryStockColumns(m: Row<Monitor>, latest: Option<Row<Record>>, recentEvents: nat)
    requires DistinctKeys(SummaryEntries(m, latest, recentEvents))
    ensures var d := SummaryEntries(m, latest, recentEvents);
      && Lookup(d, "last_checked_at") == Some(OptInt(m.fields.lastCheckedAt))
      && Lookup(d, "current_quantity") == Some(if latest.Some? then JInt(latest.value.fields.quantity) else JNull)
      && Lookup(d, "last_change_type") == Some(if latest.Some? then OptStr(latest.value.fields.changeType) else JNull)
      && Lookup(d, "threshold_breached") == Some(JBool(latest.Some? && latest.value.fields.thresholdBreached))
      && Lookup(d, "recent_events") == Some(JInt(recentEvents))
  {
    var d := SummaryEntries(m, latest, recentEvents);
    LookupDistinct(d, 6);
    LookupDistinct(d, 7);
    LookupDistinct(d, 8);
    LookupDistinct(d, 9);
    LookupDistinct(d, 10);
  }

  /**
   * The status summary of a monitor, given its latest stock record and how many
   * recent history entries it has: the monitor's columns, then the latest
   * record's quantity, change type and breach flag (null, null and false
   * without a record), then the count.
   */
  function SummaryDict(m: Row<Monitor>, latest: Option<Row<Record>>, recentEvents: nat): (d: Dict)
    ensures d != [] && DistinctKeys(d)
    ensures Lookup(d, "monitor_id") == Some(JInt(m.id))
    ensures Lookup(d, "website_id") == Some(JInt(m.fields.websiteId))
    ensures Lookup(d, "product_id") == Some(JInt(m.fields.productId))
    ensures Lookup(d, "product_name") == Some(OptStr(m.fields.productName))
    ensures Lookup(d, "is_active") == Some(JBool(m.fields.isActive))
    ensures Lookup(d, "status") == Some(JStr(m.fields.status))
    ensures Lookup(d, "last_checked_at") == Some(OptInt(m.fields.lastCheckedAt))
    ensures Lookup(d, "current_quantity") == Some(if latest.Some? then JInt(latest.value.fields.quantity) else JNull)
    ensures Lookup(d, "last_change_type") == Some(if latest.Some? then OptStr(latest.value.fields.changeType) else JNull)
    ensures Lookup(d, "threshold_breached") == Some(JBool(latest.Some? && latest.value.fields.thresholdBreached))
    ensures Lookup(d, "recent_events") == Some(JInt(recentEvents))
  {
    SummaryKeysDistinct(m, latest, recentEvents);
    SummaryMonitorColumns(m, latest, recentEvents);
    SummaryStockColumns(m, latest, recentEvents);
    SummaryEntries(m, latest, recentEvents)
  }

  class MonitoringService {
    const session: Session
    const stockRepo: StockRecordRepository
    const historyRepo: MonitorHistoryRepository
    const monitorRepo: MonitorConfigRepository

    /** The three repositories work on the service's session. */
    predicate Wired() {
      stockRepo.session == session && historyRepo.session == session && monitorRepo.session == session
    }

    constructor(session: Session)
      ensures this.session == session && Wired()
    {
      this.session := session;
      stockRepo := new StockRecordRepository(session);
      historyRepo := new MonitorHistoryRepository(session);
      monitorRepo := new MonitorConfigRepository(session);
    }

    /** `record_stock_change`: a stock record with the given columns is appended. */
    method RecordStockChange(
      monitorConfigId: int, quantity: int, delta: int,
      stockControlEnabled: bool := false, available: bool := true, changeType: Option<string> := None,
      thresholdBreached: bool := false, thresholdType: Option<string> := None, metadataJson: Option<string> := None)
      returns (row: Row<Record>)
      requires Wired() && session.Valid()
      modifies session
      ensures session.Valid()
      ensures row.fields == Record(monitorConfigId, quantity, delta, stockControlEnabled, available,
        changeType, thresholdBreached, thresholdType, metadataJson)
      ensures !HasId(old(session.records), row.id) && row.createdAt == old(session.clock)
      ensures session.records == old(session.records) + [row]
      ensures session.websites == old(session.websites) && session.monitors == old(session.monitors)
      ensures session.history == old(session.history)
    {
      row := stockRepo.Create(Record(monitorConfigId, quantity, delta, stockControlEnabled, available,
        changeType, thresholdBreached, thresholdType, metadataJson));
    }

    /** `record_history`: a history entry with the given columns is appended. */
    method RecordHistory(
      monitorConfigId: int, eventType: string, toQuantity: int,
      fromQuantity: Option<int> := None, delta: int := 0, changeType: Option<string> := None,
      thresholdBreached: bool := false, thresholdType: Option<string> := None,
      thresholdValue: Option<int> := None, message: Option<string> := None, metadataJson: Option<string> := None)
      returns (row: Row<History>)
      requires Wired() && session.Valid()
      modifies session
      ensures session.Valid()
      ensures row.fields == History(monitorConfigId, eventType, fromQuantity, toQuantity, delta, changeType,
        thresholdBreached, thresholdType, thresholdValue, message, metadataJson)
      ensures !HasId(old(session.history), row.id) && row.createdAt == old(session.clock)
      ensures session.history == old(session.history) + [row]
      ensures session.websites == old(session.websites) && session.monitors == old(session.monitors)
      ensures session.records == old(session.records)
    {
      row := historyRepo.Create(History(monitorConfigId, eventType, fromQuantity, toQuantity, delta, changeType,
        thresholdBreached, thresholdType, thresholdValue, message, metadataJson));
    }

    /**
     * `get_status_summary`: `{}` for an unknown monitor; otherwise the
     * monitor's columns, its latest stock record's quantity, change type and
     * breach flag (none, none and false without a record), and how many
     * history entries the ten most recent are.
     */
    function GetStatusSummary(id: int): (d: Dict)
      reads session
      requires Wired()
      ensures d == [] <==> !HasId(session.monitors, id)
      ensures d != [] ==>
        var m := Find(session.monitors, id).value.fields;
        var latest := stockRepo.GetLatestByMonitor(id);
        var n := |Filter(HistoryOf(id), session.history)|;
        && DistinctKeys(d)
        && Lookup(d, "monitor_id") == Some(JInt(id))
        && Lookup(d, "website_id") == Some(JInt(m.websiteId))
        && Lookup(d, "product_id") == Some(JInt(m.productId))
        && Lookup(d, "product_name") == Some(OptStr(m.productName))
        && Lookup(d, "is_active") == Some(JBool(m.isActive))
        && Lookup(d, "status") == Some(JStr(m.status))
        && Lookup(d, "last_checked_at") == Some(OptInt(m.lastCheckedAt))
        && Lookup(d, "current_quantity") == Some(if latest.Some? then JInt(latest.value.fields.quantity) else JNull)
        && Lookup(d, "last_change_type") == Some(if latest.Some? then OptStr(latest.value.fields.changeType) else JNull)
        && Lookup(d, "threshold_breached") == Some(JBool(latest.Some? && latest.value.fields.thresholdBreached))
        && Lookup(d, "recent_events") == Some(JInt(if n <= 10 then n else 10))
    {
      var monitor := monitorRepo.GetById(id);
      if monitor.None? then []
      else SummaryDict(monitor.value, stockRepo.GetLatestByMonitor(id), |historyRepo.GetByMonitor(id, 10)|)
    }

    /** `get_latest_stock`. */
    function GetLatestStock(id: int): (r: Option<Row<Record>>)
      reads session
      requires Wired()
      ensures r.None? <==> forall x | x in session.records :: x.fields.monitorConfigId != id
      ensures r.Some? ==> r.value in session.records && r.value.fields.monitorConfigId == id
      ensures r.Some? && session.Valid() ==>
        forall x | x in session.records && x.fields.monitorConfigId == id && x != r.value :: x.createdAt < r.value.createdAt
    {
      stockRepo.GetLatestByMonitor(id)
    }

    /** `get_stock_history`: the monitor's records, newest first, at most `limit`. */
    function GetStockHistory(id: int, limit: nat := 100): (r: seq<Row<Record>>)
      reads session
      requires Wired()
      ensures |r| == if |Filter(RecordsOf(id), session.records)| <= limit then |Filter(RecordsOf(id), session.records)| else limit
      ensures forall x | x in r :: x in session.records && x.fields.monitorConfigId == id
      ensures session.Valid() ==> NewestFirst(r)
      ensures session.Valid() ==>
        forall x, y | x in session.records && x.fields.monitorConfigId == id && x !in r && y in r :: x.createdAt < y.createdAt
    {
      stockRepo.GetByMonitor(id, limit)
    }

    /** `get_monitor_history`: the monitor's history entries, newest first, at most `limit`. */
    function GetMonitorHistory(id: int, limit: nat := 100): (r: seq<Row<History>>)
      reads session
      requires Wired()
      ensures |r| == if |Filter(HistoryOf(id), session.history)| <= limit then |Filter(HistoryOf(id), session.history)| else limit
      ensures forall x | x in r :: x in session.history && x.fields.monitorConfigId == id
      ensures session.Valid() ==> NewestFirst(r)
      ensures session.Valid() ==>
        forall x, y | x in session.history && x.fields.monitorConfigId == id && x !in r && y in r :: x.createdAt < y.createdAt
    {
      historyRepo.GetByMonitor(id, limit)
    }
  }
}
