/** Data models of the warehouse robot: the configuration values, the robot
    status enumeration, and the construction-time validation of items and
    orders (models.py). */
module Models {
  import opened Wrappers
  import opened Text

  /** The constants the system reads from its configuration module. They are
      not fixed here: every property below holds for any choice of them. */
  datatype Config = Config(
    minItemWeight: real,
    maxItemWeight: real,
    maxItemsPerOrder: int,
    initialBattery: real,
    chargingThreshold: real,
    navigationCost: real,
    retrievalCost: real,
    packingCost: real,
    homeLocation: string,
    chargingStation: string)

  /** What the robot needs of its configuration: a full battery is not negative
      and no action gives charge back, so the battery level stays within
      [0, initialBattery] under the clamped consumption of the robot
      coordinator. */
  predicate ValidConfig(cfg: Config) {
    && cfg.initialBattery >= 0.0
    && cfg.navigationCost >= 0.0 && cfg.retrievalCost >= 0.0 && cfg.packingCost >= 0.0
  }

  // ---------------------------------------------------------------------------
  // RobotStatus

  /** The robot's operational states. */
  datatype RobotStatus = Idle | Retrieving | Packing | Charging | Error

  /** Looks a status up by its enumeration value, as `RobotStatus(value)` does. */
  function StatusFromValue(v: string): Option<RobotStatus> {
    if v == "IDLE" then Some(Idle)
    else if v == "RETRIEVING" then Some(Retrieving)
    else if v == "PACKING" then Some(Packing)
    else if v == "CHARGING" then Some(Charging)
    else if v == "ERROR" then Some(Error)
    else None
  }

  /** The enumeration value of a status; the lookup by value inverts it. */
  function StatusValue(s: RobotStatus): (v: string)
    ensures StatusFromValue(v) == Some(s)
  {
    match s
    case Idle => "IDLE"
    case Retrieving => "RETRIEVING"
    case Packing => "PACKING"
    case Charging => "CHARGING"
    case Error => "ERROR"
  }

  /** Exactly five statuses exist: every value the lookup accepts is one of the
      five names, and it names the status it returns. */
  lemma StatusValuesExact(v: string)
    ensures StatusFromValue(v).Some? <==> v in ["IDLE", "RETRIEVING", "PACKING", "CHARGING", "ERROR"]
    ensures StatusFromValue(v).Some? ==> StatusValue(StatusFromValue(v).value) == v
  {
  }

  // ---------------------------------------------------------------------------
  // Item

  datatype Item = Item(itemId: string, name: string, weight: real, fragility: bool)

  datatype ItemError = EmptyItemId | EmptyName | WeightTooLow | WeightTooHigh

  /** Identifier normalisation: surrounding white space removed, letters
      upper-cased. */
  function NormalizeId(s: string): (r: string)
    ensures Trimmed(r)
    ensures forall i :: 0 <= i < |r| ==> !IsLower(r[i])
    ensures r == [] <==> Strip(s) == []
  {
    UpperKeepsTrimmed(Strip(s));
    Upper(Strip(s))
  }

  /** Normalising an identifier twice is normalising it once. */
  lemma NormalizeIdIdempotent(s: string)
    ensures NormalizeId(NormalizeId(s)) == NormalizeId(s)
  {
    var n := NormalizeId(s);
    StripTrimmed(n);
    UpperIdempotent(Strip(s));
  }

  /** The shape of every item the constructor accepts. */
  predicate ValidItem(cfg: Config, it: Item) {
    && it.itemId != [] && NormalizeId(it.itemId) == it.itemId
    && it.name != [] && Strip(it.name) == it.name
    && cfg.minItemWeight < it.weight <= cfg.maxItemWeight
  }

  /** `Item(...)` with its `__post_init__` checks: the first failing check names
      the error; an accepted item has its id stripped and upper-cased and its name
      stripped. */
  function NewItem(cfg: Config, itemId: string, name: string, weight: real, fragility: bool): (r: Result<Item, ItemError>)
    ensures r.Success? <==> Strip(itemId) != [] && Strip(name) != [] && cfg.minItemWeight < weight <= cfg.maxItemWeight
    ensures r.Success? ==> ValidItem(cfg, r.value)
    ensures r.Success? ==> r.value == Item(NormalizeId(itemId), Strip(name), weight, fragility)
    ensures r == Failure(EmptyItemId) <==> Strip(itemId) == []
    ensures r == Failure(EmptyName) <==> Strip(itemId) != [] && Strip(name) == []
    ensures r == Failure(WeightTooLow) <==> Strip(itemId) != [] && Strip(name) != [] && weight <= cfg.minItemWeight
    ensures r == Failure(WeightTooHigh) <==>
      Strip(itemId) != [] && Strip(name) != [] && cfg.minItemWeight < weight && cfg.maxItemWeight < weight
  {
    if Strip(itemId) == [] then Failure(EmptyItemId)
    else if Strip(name) == [] then Failure(EmptyName)
    else if weight <= cfg.minItemWeight then Failure(WeightTooLow)
    else if weight > cfg.maxItemWeight then Failure(WeightTooHigh)
    else
      NormalizeIdIdempotent(itemId);
      StripIdempotent(name);
      Success(Item(NormalizeId(itemId), Strip(name), weight, fragility))
  }

  /** Validation is idempotent: building an item again from the fields of an
      accepted item accepts it and gives back the same item. */
  lemma NewItemIdempotent(cfg: Config, itemId: string, name: string, weight: real, fragility: bool)
    requires NewItem(cfg, itemId, name, weight, fragility).Success?
    ensures var it := NewItem(cfg, itemId, name, weight, fragility).value;
      NewItem(cfg, it.itemId, it.name, it.weight, it.fragility) == Success(it)
  {
    var it := NewItem(cfg, itemId, name, weight, fragility).value;
    NormalizeIdIdempotent(itemId);
    StripIdempotent(name);
    assert Strip(it.itemId) == it.itemId by { StripTrimmed(it.itemId); }
  }

  // ---------------------------------------------------------------------------
  // Order and Task

  datatype Order = Order(orderId: string, itemsRequired: seq<string>)

  datatype OrderError = EmptyOrderId | NoItems | TooManyItems

  /** `Order(...)` with its `__post_init__` checks: the order id is normalised,
      the list of required item ids is kept as given (ids are not normalised,
      so duplicates express quantities). */
  function NewOrder(cfg: Config, orderId: string, itemsRequired: seq<string>): (r: Result<Order, OrderError>)
    ensures r.Success? <==> Strip(orderId) != [] && 1 <= |itemsRequired| <= cfg.maxItemsPerOrder
    ensures r.Success? ==> r.value == Order(NormalizeId(orderId), itemsRequired)
    ensures r == Failure(EmptyOrderId) <==> Strip(orderId) == []
    ensures r == Failure(NoItems) <==> Strip(orderId) != [] && itemsRequired == []
    ensures r == Failure(TooManyItems) <==> Strip(orderId) != [] && itemsRequired != [] && |itemsRequired| > cfg.maxItemsPerOrder
  {
    if Strip(orderId) == [] then Failure(EmptyOrderId)
    else if itemsRequired == [] then Failure(NoItems)
    else if |itemsRequired| > cfg.maxItemsPerOrder then Failure(TooManyItems)
    else Success(Order(NormalizeId(orderId), itemsRequired))
  }

  /** Re-validating an accepted order gives back the same order. */
  lemma NewOrderIdempotent(cfg: Config, orderId: string, itemsRequired: seq<string>)
    requires NewOrder(cfg, orderId, itemsRequired).Success?
    ensures var o := NewOrder(cfg, orderId, itemsRequired).value;
      NewOrder(cfg, o.orderId, o.itemsRequired) == Success(o)
  {
    var o := NewOrder(cfg, orderId, itemsRequired).value;
    NormalizeIdIdempotent(orderId);
    StripTrimmed(o.orderId);
  }

  /** A unit of robot work derived from an accepted order. */
  datatype Task = Task(taskId: string, orderId: string, itemIds: seq<string>)
}
