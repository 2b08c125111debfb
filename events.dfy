/**
 * Stock events and the publish/subscribe bus that delivers them.  Handlers
 * are identified by `HandlerId`s; whether a handler raises on an event is a
 * parameter of delivery, since handler bodies are arbitrary code.
 */
module Events {
  import opened Wrappers
  import opened Json
  import opened Seqs

  datatype EventType =
    | StockIncreased
    | StockDecreased
    | StockUnchanged
    | ThresholdBreachLow
    | ThresholdBreachHigh
    | MonitorError
    | MonitorStarted
    | MonitorCompleted

  /** The enum member's string value. */
  function EventTypeValue(t: EventType): string {
    match t
    case StockIncreased => "stock_increased"
    case StockDecreased => "stock_decreased"
    case StockUnchanged => "stock_unchanged"
    case ThresholdBreachLow => "threshold_breach_low"
    case ThresholdBreachHigh => "threshold_breach_high"
    case MonitorError => "monitor_error"
    case MonitorStarted => "monitor_started"
    case MonitorCompleted => "monitor_completed"
  }

  /** `EventType(value)`: the member with that value, if any. */
  function EventTypeFromValue(s: string): (r: Option<EventType>)
    ensures r.Some? ==> EventTypeValue(r.value) == s
    ensures r.None? <==> forall e: EventType :: EventTypeValue(e) != s
  {
    if s == "stock_increased" then Some(StockIncreased)
    else if s == "stock_decreased" then Some(StockDecreased)
    else if s == "stock_unchanged" then Some(StockUnchanged)
    else if s == "threshold_breach_low" then Some(ThresholdBreachLow)
    else if s == "threshold_breach_high" then Some(ThresholdBreachHigh)
    else if s == "monitor_error" then Some(MonitorError)
    else if s == "monitor_started" then Some(MonitorStarted)
    else if s == "monitor_completed" then Some(MonitorCompleted)
    else None
  }

  /** Every member is found again from its value, so values are pairwise distinct. */
  lemma EventTypeValueRoundTrip(t: EventType)
    ensures EventTypeFromValue(EventTypeValue(t)) == Some(t)
  {
  }

  datatype StockEvent = StockEvent(
    eventType: EventType,
    monitorConfigId: int,
    productId: int,
    productName: Option<Json>,
    quantity: Option<int>,
    previousQuantity: Option<int>,
    delta: Option<int>,
    thresholdValue: Option<int>,
    thresholdType: Option<string>,
    errorMessage: Option<string>,
    metadata: Dict,
    timestamp: nat)

  /** An event with only its required fields and metadata given; the optional fields default to None. */
  function BareEvent(t: EventType, monitorConfigId: int, productId: int, metadata: Dict, now: nat): (e: StockEvent)
    ensures e.eventType == t && e.monitorConfigId == monitorConfigId && e.productId == productId
    ensures e.productName.None? && e.quantity.None? && e.previousQuantity.None? && e.delta.None?
    ensures e.thresholdValue.None? && e.thresholdType.None? && e.errorMessage.None?
    ensures e.metadata == metadata && e.timestamp == now
  {
    StockEvent(t, monitorConfigId, productId, None, None, None, None, None, None, None, metadata, now)
  }

  /**
   * `to_dict`: the fields in declaration order, the event type as its string
   * value; the timestamp is the logical instant.
   */
  function ToDict(e: StockEvent): (d: Dict)
    ensures DistinctKeys(d)
    ensures Lookup(d, "event_type") == Some(JStr(EventTypeValue(e.eventType)))
    ensures Lookup(d, "product_id") == Some(JInt(e.productId))
    ensures Lookup(d, "monitor_config_id") == Some(JInt(e.monitorConfigId))
    ensures Lookup(d, "delta") == Some(OptInt(e.delta))
    ensures Lookup(d, "quantity") == Some(OptInt(e.quantity))
    ensures Lookup(d, "metadata") == Some(JObj(e.metadata))
    ensures Lookup(d, "product_name") == Some(OptJson(e.productName))
    ensures Lookup(d, "previous_quantity") == Some(OptInt(e.previousQuantity))
    ensures Lookup(d, "threshold_value") == Some(OptInt(e.thresholdValue))
    ensures Lookup(d, "threshold_type") == Some(OptStr(e.thresholdType))
    ensures Lookup(d, "error_message") == Some(OptStr(e.errorMessage))
    ensures Lookup(d, "timestamp") == Some(JInt(e.timestamp))
  {
    var d := [
      ("event_type", JStr(EventTypeValue(e.eventType))),
      ("monitor_config_id", JInt(e.monitorConfigId)),
      ("product_id", JInt(e.productId)),
      ("product_name", OptJson(e.productName)),
      ("quantity", OptInt(e.quantity)),
      ("previous_quantity", OptInt(e.previousQuantity)),
      ("delta", OptInt(e.delta)),
      ("threshold_value", OptInt(e.thresholdValue)),
      ("threshold_type", OptStr(e.thresholdType)),
      ("error_message", OptStr(e.errorMessage)),
      ("metadata", JObj(e.metadata)),
      ("timestamp", JInt(e.timestamp))
    ];
    assert DistinctKeys(d);
    LookupDistinct(d, 0);
    LookupDistinct(d, 1);
    LookupDistinct(d, 2);
    LookupDistinct(d, 4);
    LookupDistinct(d, 6);
    LookupDistinct(d, 10);
    LookupDistinct(d, 3);
    LookupDistinct(d, 5);
    LookupDistinct(d, 7);
    LookupDistinct(d, 8);
    LookupDistinct(d, 9);
    LookupDistinct(d, 11);
    d
  }

  /** The event type can be read back from a serialised event. */
  lemma ToDictKeepsEventType(e: StockEvent)
    ensures Lookup(ToDict(e), "event_type").Some?
    ensures Lookup(ToDict(e), "event_type").value.JStr?
    ensures EventTypeFromValue(Lookup(ToDict(e), "event_type").value.s) == Some(e.eventType)
  {
    EventTypeValueRoundTrip(e.eventType);
  }

  // ---------------------------------------------------------------- the bus

  type HandlerId = nat

  /** `log_event_handler`, registered globally on the module-level bus. */
  const LOG_EVENT_HANDLER: HandlerId := 0

  /** The per-type list of a registry (`self._handlers.get(event_type, [])`). */
  function Registered(handlers: map<EventType, seq<HandlerId>>, t: EventType): seq<HandlerId> {
    if t in handlers then handlers[t] else []
  }

  /** The handlers `emit` calls for an event of type `t`, in call order. */
  function DispatchOrder(handlers: map<EventType, seq<HandlerId>>, globals: seq<HandlerId>, t: EventType): (r: seq<HandlerId>)
    ensures |r| == |Registered(handlers, t)| + |globals|
    ensures Registered(handlers, t) <= r
    ensures r[|Registered(handlers, t)|..] == globals
  {
    Registered(handlers, t) + globals
  }

  /** Whether a handler raises on `e`. */
  function RaisesOn(raises: (HandlerId, StockEvent) -> bool, e: StockEvent): HandlerId -> bool {
    (h: HandlerId) => raises(h, e)
  }

  /** The handlers among `hs` that raise on `e`, in call order. */
  function Failing(hs: seq<HandlerId>, e: StockEvent, raises: (HandlerId, StockEvent) -> bool): (r: seq<HandlerId>)
    ensures |r| <= |hs|
    ensures forall h | h in r :: h in hs && raises(h, e)
    ensures forall h | h in hs && raises(h, e) :: h in r
  {
    if hs == [] then []
    else
      var init := hs[..|hs| - 1];
      var last := hs[|hs| - 1];
      assert hs == init + [last];
      Failing(init, e, raises) + (if raises(last, e) then [last] else [])
  }

  /**
   * The failing handlers are the called ones filtered by the raise predicate:
   * in call order, one entry per raising call.
   */
  lemma {:induction false} FailingInCallOrder(hs: seq<HandlerId>, e: StockEvent, raises: (HandlerId, StockEvent) -> bool)
    ensures Failing(hs, e, raises) == Filter(RaisesOn(raises, e), hs)
    ensures |Failing(hs, e, raises)| == |Positions(RaisesOn(raises, e), hs)|
    decreases |hs|
  {
    if hs != [] {
      var init := hs[..|hs| - 1];
      var last := hs[|hs| - 1];
      assert hs == init + [last];
      FailingInCallOrder(init, e, raises);
      FilterAppend(RaisesOn(raises, e), init, [last]);
      FilterSingle(RaisesOn(raises, e), last);
    }
    FilterCount(RaisesOn(raises, e), hs);
  }

  /** One more call adds its handler to the failing ones exactly when it raises. */
  lemma FailingSnoc(hs: seq<HandlerId>, h: HandlerId, e: StockEvent, raises: (HandlerId, StockEvent) -> bool)
    ensures Failing(hs + [h], e, raises) == Failing(hs, e, raises) + (if raises(h, e) then [h] else [])
  {
    assert (hs + [h])[..|hs|] == hs;
  }

  /** Subscribing a handler to one type never changes which handlers another type reaches. */
  lemma SubscribeIsolated(
    handlers: map<EventType, seq<HandlerId>>, globals: seq<HandlerId>, t: EventType, h: HandlerId, other: EventType)
    requires other != t
    ensures DispatchOrder(handlers[t := Registered(handlers, t) + [h]], globals, other) == DispatchOrder(handlers, globals, other)
    ensures DispatchOrder(handlers[t := Registered(handlers, t) + [h]], globals, t) ==
      Registered(handlers, t) + [h] + globals
  {
  }

  class EventBus {
    var handlers: map<EventType, seq<HandlerId>>
    var globalHandlers: seq<HandlerId>

    constructor()
      ensures handlers == map[] && globalHandlers == []
    {
      handlers := map[];
      globalHandlers := [];
    }

    /** `subscribe`: appended to the list for its type. */
    method Subscribe(t: EventType, h: HandlerId)
      modifies this
      ensures handlers == old(handlers)[t := Registered(old(handlers), t) + [h]]
      ensures globalHandlers == old(globalHandlers)
    {
      if t !in handlers {
        handlers := handlers[t := []];
      }
      handlers := handlers[t := handlers[t] + [h]];
    }

    /** `subscribe_all`: appended to the global list. */
    method SubscribeAll(h: HandlerId)
      modifies this
      ensures globalHandlers == old(globalHandlers) + [h]
      ensures handlers == old(handlers)
    {
      globalHandlers := globalHandlers + [h];
    }

    /**
     * `emit`: every handler for the event's type, then every global handler,
     * each called once in registration order; a handler that raises is logged
     * and delivery goes on.  Returns the handlers called and those that raised.
     */
    method Emit(e: StockEvent, raises: (HandlerId, StockEvent) -> bool)
      returns (invoked: seq<HandlerId>, failed: seq<HandlerId>)
      ensures invoked == DispatchOrder(handlers, globalHandlers, e.eventType)
      ensures failed == Failing(invoked, e, raises)
    {
      var all := Registered(handlers, e.eventType) + globalHandlers;
      invoked := [];
      failed := [];
      for k := 0 to |all|
        invariant invoked == all[..k]
        invariant failed == Failing(invoked, e, raises)
      {
        var h := all[k];
        assert all[..k + 1] == all[..k] + [h];
        FailingSnoc(invoked, h, e, raises);
        invoked := invoked + [h];
        if raises(h, e) {
          failed := failed + [h];
        }
      }
      assert all[..|all|] == all;
    }

    /** `clear_handlers`. */
    method ClearHandlers()
      modifies this
      ensures handlers == map[] && globalHandlers == []
    {
      handlers := map[];
      globalHandlers := [];
    }
  }

  /** After `clear_handlers` no event reaches any handler. */
  lemma ClearedBusDeliversNothing(t: EventType)
    ensures DispatchOrder(map[], [], t) == []
  {
  }

  /** The module-level `event_bus`: a fresh bus with only `log_event_handler`, registered globally. */
  method DefaultBus() returns (bus: EventBus)
    ensures fresh(bus)
    ensures bus.handlers == map[] && bus.globalHandlers == [LOG_EVENT_HANDLER]
  {
    bus := new EventBus();
    bus.SubscribeAll(LOG_EVENT_HANDLER);
  }

  /** On the default bus every event reaches the logging handler, and only it. */
  lemma DefaultBusLogsEverything(t: EventType)
    ensures DispatchOrder(map[], [LOG_EVENT_HANDLER], t) == [LOG_EVENT_HANDLER]
  {
  }
}
