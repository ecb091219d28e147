/** Inventory storage and the order/task pipeline (warehouse.py): the
    triple-indexed Warehouse, the InventoryManager that validates orders, the
    FIFO TaskManager and the PackagingStation. */
module Storage {
  import opened Wrappers
  import opened Models
  import Text

  /** One inventory record: an item and the location it is stored at. */
  datatype Record = Record(item: Item, location: string)

  /** The ids of the records of an inventory list. */
  function Ids(inv: seq<Record>): set<string> {
    set r | r in inv :: r.item.itemId
  }

  /** The locations that hold at least one record. */
  function Locations(inv: seq<Record>): set<string> {
    set r | r in inv :: r.location
  }

  predicate UniqueIds(inv: seq<Record>) {
    forall i, j :: 0 <= i < j < |inv| ==> inv[i].item.itemId != inv[j].item.itemId
  }

  /** The records stored at `loc`, in the order they were added. */
  function AtLocation(inv: seq<Record>, loc: string): (r: seq<Record>)
    ensures |r| <= |inv|
    ensures forall x :: x in r <==> x in inv && x.location == loc
    ensures r == [] <==> loc !in Locations(inv)
  {
    if inv == [] then []
    else
      var last := inv[|inv| - 1];
      AtLocation(inv[..|inv| - 1], loc) + (if last.location == loc then [last] else [])
  }

  lemma AtLocationAppend(inv: seq<Record>, rec: Record, loc: string)
    ensures AtLocation(inv + [rec], loc) == AtLocation(inv, loc) + (if rec.location == loc then [rec] else [])
  {
    assert (inv + [rec])[..|inv|] == inv;
  }

  /** The records at `loc` according to a location map, empty when absent. */
  function LocationLookup(li: map<string, seq<Record>>, loc: string): seq<Record> {
    if loc in li then li[loc] else []
  }

  /** The three views of the inventory describe the same records: ids are unique,
      the id map holds exactly the listed ids, each pointing at its record, and
      the location map holds exactly the occupied locations, each with its
      records in list order. */
  ghost predicate Consistent(inv: seq<Record>, idx: map<string, Record>, li: map<string, seq<Record>>) {
    && UniqueIds(inv)
    && idx.Keys == Ids(inv)
    && (forall id :: id in idx ==> idx[id] in inv && idx[id].item.itemId == id)
    && li.Keys == Locations(inv)
    && (forall loc :: loc in li ==> li[loc] == AtLocation(inv, loc))
  }

  lemma IdsAppend(inv: seq<Record>, rec: Record)
    ensures Ids(inv + [rec]) == Ids(inv) + {rec.item.itemId}
  {
    assert rec in inv + [rec];
    forall x | x in inv ensures x in inv + [rec] { }
  }

  lemma LocationsAppend(inv: seq<Record>, rec: Record)
    ensures Locations(inv + [rec]) == Locations(inv) + {rec.location}
  {
    assert rec in inv + [rec];
    forall x | x in inv ensures x in inv + [rec] { }
  }

  lemma UniqueAfterAdd(inv: seq<Record>, rec: Record)
    requires UniqueIds(inv) && rec.item.itemId !in Ids(inv)
    ensures UniqueIds(inv + [rec])
  {
    var inv' := inv + [rec];
    forall i, j | 0 <= i < j < |inv'|
      ensures inv'[i].item.itemId != inv'[j].item.itemId
    {
      if j == |inv| {
        assert inv[i] in inv;
      }
    }
  }

  lemma LocationIndexAfterAdd(inv: seq<Record>, li: map<string, seq<Record>>, rec: Record)
    requires li.Keys == Locations(inv)
    requires forall loc :: loc in li ==> li[loc] == AtLocation(inv, loc)
    ensures var li' := li[rec.location := LocationLookup(li, rec.location) + [rec]];
      forall loc :: loc in li' ==> li'[loc] == AtLocation(inv + [rec], loc)
  {
    var li' := li[rec.location := LocationLookup(li, rec.location) + [rec]];
    forall loc | loc in li'
      ensures li'[loc] == AtLocation(inv + [rec], loc)
    {
      AtLocationAppend(inv, rec, loc);
      if loc == rec.location && loc !in li {
        assert AtLocation(inv, loc) == [];
      }
    }
  }

  lemma IdIndexAfterAdd(inv: seq<Record>, idx: map<string, Record>, rec: Record)
    requires idx.Keys == Ids(inv) && rec.item.itemId !in idx
    requires forall id :: id in idx ==> idx[id] in inv && idx[id].item.itemId == id
    ensures var idx' := idx[rec.item.itemId := rec];
      && idx'.Keys == Ids(inv + [rec])
      && forall id :: id in idx' ==> idx'[id] in inv + [rec] && idx'[id].item.itemId == id
  {
    IdsAppend(inv, rec);
    var idx' := idx[rec.item.itemId := rec];
    forall id | id in idx' ensures idx'[id] in inv + [rec] && idx'[id].item.itemId == id {
      if id != rec.item.itemId {
        assert idx'[id] == idx[id] && idx[id] in inv;
      }
    }
  }

  /** Entering a record with a fresh id in all three views keeps them consistent. */
  lemma ConsistentAfterAdd(inv: seq<Record>, idx: map<string, Record>, li: map<string, seq<Record>>, rec: Record)
    requires Consistent(inv, idx, li) && rec.item.itemId !in idx
    ensures Consistent(inv + [rec], idx[rec.item.itemId := rec],
                       li[rec.location := LocationLookup(li, rec.location) + [rec]])
  {
    var inv' := inv + [rec];
    var idx' := idx[rec.item.itemId := rec];
    var li' := li[rec.location := LocationLookup(li, rec.location) + [rec]];
    assert UniqueIds(inv') by {
      UniqueAfterAdd(inv, rec);
    }
    assert idx'.Keys == Ids(inv') && forall id :: id in idx' ==> idx'[id] in inv' && idx'[id].item.itemId == id by {
      IdIndexAfterAdd(inv, idx, rec);
    }
    assert li'.Keys == Locations(inv') by {
      LocationsAppend(inv, rec);
    }
    assert forall loc :: loc in li' ==> li'[loc] == AtLocation(inv', loc) by {
      LocationIndexAfterAdd(inv, li, rec);
    }
  }

  class Warehouse {
    /** Every record, in insertion order. */
    var inventory: seq<Record>
    /** Item id to record. */
    var inventoryIndex: map<string, Record>
    /** Location to the records stored there, in insertion order. */
    var locationIndex: map<string, seq<Record>>

    /** The three views describe the same records (see Consistent). */
    ghost predicate Valid()
      reads this
    {
      Consistent(inventory, inventoryIndex, locationIndex)
    }

    constructor ()
      ensures Valid()
      ensures inventory == [] && inventoryIndex == map[] && locationIndex == map[]
    {
      inventory := [];
      inventoryIndex := map[];
      locationIndex := map[];
    }

    /** `add_item`: refuses a duplicate id and changes nothing; otherwise appends
        the record to the list and enters it in both indexes. */
    method AddItem(item: Item, location: string) returns (ok: bool)
      requires Valid()
      modifies this
      ensures Valid()
      ensures ok <==> item.itemId !in old(inventoryIndex)
      ensures !ok ==> inventory == old(inventory) && inventoryIndex == old(inventoryIndex)
                      && locationIndex == old(locationIndex)
      ensures ok ==>
        var rec := Record(item, location);
        && inventory == old(inventory) + [rec]
        && inventoryIndex == old(inventoryIndex)[item.itemId := rec]
        && locationIndex == old(locationIndex)[location := LocationLookup(old(locationIndex), location) + [rec]]
    {
      if item.itemId in inventoryIndex {
        return false;
      }
      var rec := Record(item, location);
      ConsistentAfterAdd(inventory, inventoryIndex, locationIndex, rec);
      var bucket := if location in locationIndex then locationIndex[location] else [];
      inventory := inventory + [rec];
      inventoryIndex := inventoryIndex[item.itemId := rec];
      locationIndex := locationIndex[location := bucket + [rec]];
      return true;
    }

    /** `find_item_linear`: the first record, in list order, whose item has the
        id; none if no record has it. On a consistent warehouse this is the record
        the id index gives. */
    method FindItemLinear(itemId: string) returns (r: Option<Record>)
      ensures r.None? <==> itemId !in Ids(inventory)
      ensures r.Some? ==> r.value.item.itemId == itemId
      ensures r.Some? ==> exists i :: 0 <= i < |inventory| && inventory[i] == r.value &&
                            forall j :: 0 <= j < i ==> inventory[j].item.itemId != itemId
      ensures Valid() ==> r == FindItem(itemId)
    {
      for i := 0 to |inventory|
        invariant forall j :: 0 <= j < i ==> inventory[j].item.itemId != itemId
      {
        if inventory[i].item.itemId == itemId {
          if Valid() {
            UniqueRecord(itemId, i);
          }
          return Some(inventory[i]);
        }
      }
      return None;
    }

    lemma UniqueRecord(itemId: string, i: nat)
      requires Valid()
      requires i < |inventory| && inventory[i].item.itemId == itemId
      ensures itemId in inventoryIndex && inventoryIndex[itemId] == inventory[i]
    {
      assert inventory[i] in inventory;
      var rec := inventoryIndex[itemId];
      var k :| 0 <= k < |inventory| && inventory[k] == rec;
      assert k == i;
    }

    /** `find_item`: the id index lookup. On a consistent warehouse it finds a
        record exactly for the ids in the list, and the record carries that id. */
    function FindItem(itemId: string): (r: Option<Record>)
      reads this
      ensures Valid() ==> (r.Some? <==> itemId in Ids(inventory))
      ensures Valid() && r.Some? ==> r.value in inventory && r.value.item.itemId == itemId
    {
      if itemId in inventoryIndex then Some(inventoryIndex[itemId]) else None
    }

    /** `find_items_by_location`: on a consistent warehouse, the records stored
        at the location in insertion order; empty for a location that holds
        nothing. */
    function FindItemsByLocation(location: string): (r: seq<Record>)
      reads this
      ensures Valid() ==> r == AtLocation(inventory, location)
      ensures Valid() ==> (r == [] <==> location !in Locations(inventory))
    {
      if location in locationIndex then locationIndex[location] else []
    }

    /** The three views hold the same set of records. */
    lemma ViewsAgree()
      requires Valid()
      ensures (set r | r in inventory) == inventoryIndex.Values
      ensures forall r :: r in inventory <==> r.location in locationIndex && r in locationIndex[r.location]
    {
      forall r | r in inventory ensures r in inventoryIndex.Values {
        var i :| 0 <= i < |inventory| && inventory[i] == r;
        UniqueRecord(r.item.itemId, i);
      }
    }
  }

  /** Adding the same item twice: the first call succeeds, the second refuses, and
      the inventory grows by exactly one record. */
  method AddTwice(w: Warehouse, item: Item, location: string) returns (first: bool, second: bool)
    requires w.Valid() && item.itemId !in w.inventoryIndex
    modifies w
    ensures w.Valid()
    ensures first && !second
    ensures |w.inventory| == |old(w.inventory)| + 1
  {
    first := w.AddItem(item, location);
    second := w.AddItem(item, location);
  }

  class InventoryManager {
    const warehouse: Warehouse

    constructor (warehouse: Warehouse)
      ensures this.warehouse == warehouse
    {
      this.warehouse := warehouse;
    }

    /** `validate_order`: all-or-nothing; true exactly when every required id
        resolves in the id index, that is, on a consistent warehouse, when every
        required id is the id of a listed record. Being a function, it changes
        nothing. */
    function ValidateOrder(order: Order): (r: bool)
      reads warehouse
      ensures r <==> forall i :: 0 <= i < |order.itemsRequired| ==> order.itemsRequired[i] in warehouse.inventoryIndex
      ensures warehouse.Valid() ==>
        (r <==> forall i :: 0 <= i < |order.itemsRequired| ==> order.itemsRequired[i] in Ids(warehouse.inventory))
    {
      forall i | 0 <= i < |order.itemsRequired| :: warehouse.FindItem(order.itemsRequired[i]).Some?
    }

    /** `get_item_record`: the id index lookup. */
    function GetItemRecord(itemId: string): (r: Option<Record>)
      reads warehouse
      ensures r.Some? <==> itemId in warehouse.inventoryIndex
      ensures r.Some? ==> r.value == warehouse.inventoryIndex[itemId]
    {
      warehouse.FindItem(itemId)
    }
  }

  /** The task derived from an accepted order. */
  function TaskFor(order: Order): (t: Task)
    ensures t.orderId == order.orderId && t.itemIds == order.itemsRequired
    ensures t.taskId == "T_" + t.orderId
  {
    Task("T_" + order.orderId, order.orderId, order.itemsRequired)
  }

  /** The order id issued for counter value `n`: "ORD" and `n` in at least four
      zero-padded digits. */
  function OrderIdFor(n: nat): (id: string)
    ensures |id| >= 7 && id[..3] == "ORD" && Text.AllDigits(id[3..])
    ensures n < 10000 ==> |id| == 7
  {
    assert n < 10000 ==> |Text.ZeroPad(n, 4)| == 4 by {
      if n < 10000 { Text.ZeroPadLength(n, 4); }
    }
    "ORD" + Text.ZeroPad(n, 4)
  }

  /** Order ids are never reused: distinct counter values give distinct ids. */
  lemma OrderIdsDistinct(n: nat, m: nat)
    requires n != m
    ensures OrderIdFor(n) != OrderIdFor(m)
  {
    if OrderIdFor(n) == OrderIdFor(m) {
      assert OrderIdFor(n)[3..] == Text.ZeroPad(n, 4);
      assert OrderIdFor(m)[3..] == Text.ZeroPad(m, 4);
      Text.ZeroPadInjective(n, m, 4);
    }
  }

  class TaskManager {
    const inventoryManager: InventoryManager
    /** Pending tasks, head first. */
    var taskQueue: seq<Task>
    var completedTasks: seq<string>
    var orderCounter: nat

    constructor (inventoryManager: InventoryManager)
      ensures this.inventoryManager == inventoryManager
      ensures taskQueue == [] && completedTasks == [] && orderCounter == 1
    {
      this.inventoryManager := inventoryManager;
      taskQueue := [];
      completedTasks := [];
      orderCounter := 1;
    }

    /** `process_order`: an order that does not validate is refused and the queue
        is left alone; a valid one puts its task at the tail. */
    method ProcessOrder(order: Order) returns (ok: bool)
      modifies this`taskQueue
      ensures ok == inventoryManager.ValidateOrder(order)
      ensures taskQueue == if ok then old(taskQueue) + [TaskFor(order)] else old(taskQueue)
    {
      if !inventoryManager.ValidateOrder(order) {
        return false;
      }
      taskQueue := taskQueue + [TaskFor(order)];
      return true;
    }

    /** `get_next_order_id`: issues the id for the current counter and advances
        the counter by one. */
    method GetNextOrderId() returns (id: string)
      modifies this`orderCounter
      ensures id == OrderIdFor(old(orderCounter))
      ensures orderCounter == old(orderCounter) + 1
    {
      id := OrderIdFor(orderCounter);
      orderCounter := orderCounter + 1;
    }

    /** `get_next_task`: removes and returns the head of the queue; none, and no
        change, on an empty queue. */
    method GetNextTask() returns (t: Option<Task>)
      modifies this`taskQueue
      ensures old(taskQueue) == [] ==> t == None && taskQueue == []
      ensures old(taskQueue) != [] ==> t == Some(old(taskQueue)[0]) && taskQueue == old(taskQueue)[1..]
    {
      if taskQueue == [] {
        return None;
      }
      t := Some(taskQueue[0]);
      taskQueue := taskQueue[1..];
    }
  }

  /** Draining the queue until it reports none returns the tasks in the order
      they were queued (the FIFO discipline). */
  method DrainTasks(tm: TaskManager) returns (drained: seq<Task>)
    modifies tm
    ensures drained == old(tm.taskQueue) && tm.taskQueue == []
  {
    drained := [];
    while true
      invariant drained + tm.taskQueue == old(tm.taskQueue)
      decreases |tm.taskQueue|
    {
      var t := tm.GetNextTask();
      if t.None? {
        break;
      }
      drained := drained + [t.value];
    }
  }

  /** Orders submitted one after another come out of the queue in submission
      order. */
  method SubmitAndDrain(tm: TaskManager, orders: seq<Order>) returns (drained: seq<Task>)
    requires tm.taskQueue == []
    requires forall i :: 0 <= i < |orders| ==> tm.inventoryManager.ValidateOrder(orders[i])
    modifies tm
    ensures |drained| == |orders|
    ensures forall i :: 0 <= i < |orders| ==> drained[i] == TaskFor(orders[i])
  {
    for i := 0 to |orders|
      invariant |tm.taskQueue| == i
      invariant forall k :: 0 <= k < i ==> tm.taskQueue[k] == TaskFor(orders[k])
    {
      var _ := tm.ProcessOrder(orders[i]);
    }
    drained := DrainTasks(tm);
  }

  class PackagingStation {
    const stationId: string
    /** Items delivered by the robot and not yet packed, in arrival order. */
    var stagedItems: seq<Item>
    var packedOrders: seq<string>

    constructor (stationId: string)
      ensures this.stationId == stationId && stagedItems == [] && packedOrders == []
    {
      this.stationId := stationId;
      stagedItems := [];
      packedOrders := [];
    }

    /** `receive_staged_item`. */
    method ReceiveStagedItem(item: Item)
      modifies this`stagedItems
      ensures stagedItems == old(stagedItems) + [item]
    {
      stagedItems := stagedItems + [item];
    }

    /** `get_staged_items_for_packing`: returns the staged items in arrival order
        and leaves the staging area empty. */
    method GetStagedItemsForPacking() returns (items: seq<Item>)
      modifies this`stagedItems
      ensures items == old(stagedItems) && stagedItems == []
    {
      items := stagedItems;
      stagedItems := [];
    }

    /** `receive_order`: records a packed order. */
    method ReceiveOrder(orderId: string)
      modifies this`packedOrders
      ensures packedOrders == old(packedOrders) + [orderId]
    {
      packedOrders := packedOrders + [orderId];
    }
  }
}
