# Warehouse robot and classroom exercises, modelled in Dafny

This project models the Python sources of an object-oriented programming course.
The main part is the humanoid-robot warehouse simulation of Unit 11. It has five pieces:

- **Inventory.** A triple-indexed inventory: an insertion-ordered list, an id map and a location map.
- **Task queue.** A first-in-first-out queue of tasks, built from validated orders.
- **Packaging station.** Items are staged there and drained once per pack.
- **Packing optimiser.** A stack that sorts items by weight and pops the heaviest first.
- **Robot.** A coordinator that runs the per-item state machine (battery check, navigate, scan, pick, navigate, drop and stage), packs orders and completes tasks.

Alongside it, the project models these classroom exercises:

- the Unit 04 leave-management system;
- the Unit 05 playing cards and bridge hands;
- the Unit 05 polymorphic robot fleet;
- the Unit 08 linear searches and recursive doubling;
- the Unit 06 bank account;
- the Unit 02 annual-leave counter.

Modules, one per source file:

| module | file | models |
|---|---|---|
| `Models` | models.dfy | `RobotStatus`, `Item`, `Order`, `Task`; the configuration as a `Config` value |
| `Storage` | warehouse.dfy | `Warehouse`, `InventoryManager`, `TaskManager`, `PackagingStation` |
| `Subsystems` | subsystems.dfy | `NavigationSystem`, `SensorArray`, `Gripper`, `PackingOptimizer` |
| `Robot` | robot.dfy | `HumanoidRobot` |
| `LeaveSystem` | leave.dfy | Unit04 `Employee`, `LeaveRequest`, `LeaveManager`, `EmployeeDatabase` |
| `Cards` | cards.dfy | Unit05 `Card`, `Deck`, `Hand`, `BridgeHand` |
| `Fleet` | fleet.dfy | Unit05 `WarehouseRobot` and its three subclasses |
| `Search` | search.dfy | Unit08 `linear_search`, `linear_search_employee_id` |
| `Banking` | banking.dfy | Unit06 `BankAccount` |
| `AnnualLeave` | annual_leave.dfy | Unit02 `Employee` |
| `Recursion` | recursion.dfy | Unit08 `double` |

Three modules are shared helpers:

- `Wrappers` holds `Option` and `Result`.
- `Text` holds Python's `strip()`, `upper()` and zero-padded number formatting.
- `Sequences` holds list reversal and a generic insertion sort under a total preorder, which both `sorted(key=weight)` and the card sort use.

Some choices about how the model is built:

- **Mutable objects become classes.** Each object the source updates in place is a Dafny `class` whose fields the methods reassign. Lists and dicts become `seq` and `map` fields.
- **Construction checks become functions.** `models.py` is pure. Its validating constructors are functions that return a `Result`.
- **Random draws and prompts become a stream.** `random.random()` and the `input()` prompts in navigation and sensing are replaced by a stream of decisions that the object holds. Move number *n* reads `draws(n)`, and scan number *n* reads the *n*-th scan draw. The robot's body (battery, moves, location, obstacle events, scan readings and gripper) is collected in a `Body` value. Every robot method states its new body as a function of the old one, on every path, failures included. Those functions compose one step function per source method (`CheckBody`, `ReachBody`, `DeliverBody` and so on). The log is stated exactly up to one task's retrieval loop; the loop and the methods above it state it only as growing (see "## Left out").
- **Configuration values are parameters.** `config.py` is not part of this model. Its values are the fields of `Models.Config`, and every property holds for any configuration in which the initial battery and the battery costs are not negative.
- **The operation log is a sequence of entries.** Each entry is a `LogEntry` value, with no timestamp and no number formatting.
- **Dates are day numbers.** Day 1 is 1 January of year 1, a Monday, so `weekday()` of day *d* is `(d + 6) % 7`. "Today" is a parameter. Python dates run only from day 1 to day 3652059 (31 December 9999); the model does not bound them (see "## Left out").
- **Hands are decks.** The `Hand` and `BridgeHand` subclasses of `Deck` become the single class `Cards.Deck`. It carries a `player` field and has a named constructor `Hand`.
- **The fleet is one class.** The polymorphic fleet is `Fleet.WarehouseRobot`. It has a `kind` tag and one constructor per subclass.
- **Clamping is explicit.** Battery consumption's clamp at zero is written out.

Behaviours of the code that the model keeps:

- **`approve_leave` never succeeds.** `book_leave` stores a request only after approving it. So on a ledger that `LeaveManager` keeps, no request is Pending, and `approve_leave` never succeeds (`LeaveSystem.NothingPending`).
- **`book_leave` cannot fail after validation.** The failure branch after `deduct_leave` in `book_leave` is unreachable, because validation has already checked the balance.
- **`reject_leave` credits any employee.** It restores the days to whatever employee is passed in, not necessarily the one who booked.
- **Item ids in an order are not normalised.** `Order` normalises its own id but leaves its item ids as given, so an id that differs only in case from an inventory id is refused by `validate_order`.
- **Full-Auto ignores the operator.** In Full-Auto mode, navigation and sensing never read the operator's answers.

## Model

| member | source | states |
|---|---|---|
| Models.StatusValue | Unit11/assigment2/humanoidrobot/models.py:12-18 | each status's enumeration value looks up that same status |
| Models.StatusValuesExact | Unit11/assigment2/humanoidrobot/models.py:12-18 | exactly the five values IDLE, RETRIEVING, PACKING, CHARGING, ERROR name a status, and each names the one whose value it is |
| Models.NormalizeId | Unit11/assigment2/humanoidrobot/models.py:47 | the normalised id has no white space at either end and no lower-case letter; it is empty iff the input is all white space |
| Models.NormalizeIdIdempotent | Unit11/assigment2/humanoidrobot/models.py:47 | normalising twice equals normalising once |
| Models.NewItem | Unit11/assigment2/humanoidrobot/models.py:29-48 | accepted iff the stripped id and name are non-empty and MIN < weight <= MAX; each error is named by the first failing check, in source order; an accepted item has a stripped upper-case id and a stripped name |
| Models.NewItemIdempotent | Unit11/assigment2/humanoidrobot/models.py:29-48 | rebuilding an item from an accepted item's fields accepts it unchanged |
| Models.NewOrder | Unit11/assigment2/humanoidrobot/models.py:57-67 | accepted iff the stripped order id is non-empty and 1 <= number of items <= MAX_ITEMS_PER_ORDER; each error is named in source order; the id is normalised and the item list is kept as given |
| Models.NewOrderIdempotent | Unit11/assigment2/humanoidrobot/models.py:57-67 | re-validating an accepted order gives it back unchanged |
| Text.Strip | Unit11/assigment2/humanoidrobot/models.py:31-34 | `strip()` is an infix of the input with no white space at either end; it is empty iff the input is all white space |
| Text.StripIdempotent | Unit11/assigment2/humanoidrobot/models.py:47-48 | stripping twice equals stripping once |
| Text.Upper | Unit11/assigment2/humanoidrobot/models.py:47 | `upper()` keeps the length and maps each character through the ASCII upper-case map |
| Text.UpperIdempotent | Unit11/assigment2/humanoidrobot/models.py:47 | upper-casing twice equals upper-casing once |
| Text.Decimal | Unit02/activity_employee.py:25 | `str(n)` is a non-empty digit string with no leading zero |
| Text.DecimalValue | Unit02/activity_employee.py:25 | reading `str(n)` back as digits gives n |
| Text.ZeroPadValue | Unit11/assigment2/humanoidrobot/warehouse.py:101 | a zero-padded number reads back as the number |
| Text.ZeroPadInjective | Unit11/assigment2/humanoidrobot/warehouse.py:101 | distinct numbers pad to distinct strings |
| Text.ZeroPadLength | Unit11/assigment2/humanoidrobot/warehouse.py:101 | a number below 10^width pads to exactly `width` characters |
| Text.PaddedIdNumber | Unit04/seminar_activities/employee_mg_system.py:113-114 | a prefix followed by the padded counter value n carries the number n and no smaller bound |
| Storage.AtLocation | Unit11/assigment2/humanoidrobot/warehouse.py:35-37 | the records at a location are exactly the listed records stored there, in list order; empty iff no record is there |
| Storage.ConsistentAfterAdd | Unit11/assigment2/humanoidrobot/warehouse.py:32-37 | entering a record with a fresh id in the list, the id map and the location map keeps the three views consistent |
| Storage.Warehouse.constructor | Unit11/assigment2/humanoidrobot/warehouse.py:20-24 | all three views start empty and consistent |
| Storage.Warehouse.AddItem | Unit11/assigment2/humanoidrobot/warehouse.py:26-38 | a duplicate id returns false and changes none of the three views; otherwise exactly one record is appended to the list, mapped by its id and appended to its location; consistency is preserved |
| Storage.Warehouse.FindItemLinear | Unit11/assigment2/humanoidrobot/warehouse.py:40-45 | none iff no listed record has the id; otherwise the first record in list order with that id; on a consistent warehouse it equals `find_item` |
| Storage.Warehouse.UniqueRecord | Unit11/assigment2/humanoidrobot/warehouse.py:40-49 | on a consistent warehouse the id map holds the listed record of each listed id |
| Storage.Warehouse.FindItem | Unit11/assigment2/humanoidrobot/warehouse.py:47-49 | on a consistent warehouse it finds a record iff the id is listed, and that record is listed and has the id |
| Storage.Warehouse.FindItemsByLocation | Unit11/assigment2/humanoidrobot/warehouse.py:51-53 | on a consistent warehouse, the records at the location in insertion order; empty for an unknown location |
| Storage.Warehouse.ViewsAgree | Unit11/assigment2/humanoidrobot/warehouse.py:32-37 | the list and the values of the id map hold the same records; a record is listed iff it appears under its location |
| Storage.AddTwice | Unit11/assigment2/humanoidrobot/warehouse.py:29-38 | adding the same item twice succeeds, then refuses, and the list grows by exactly one |
| Storage.InventoryManager.constructor | Unit11/assigment2/humanoidrobot/warehouse.py:59-60 | the manager refers to the given warehouse |
| Storage.InventoryManager.ValidateOrder | Unit11/assigment2/humanoidrobot/warehouse.py:62-66 | true iff every required id is in the id map, that is, on a consistent warehouse, iff every id is listed; it changes nothing |
| Storage.InventoryManager.GetItemRecord | Unit11/assigment2/humanoidrobot/warehouse.py:68-70 | some iff the id is in the id map, and then its record |
| Storage.TaskFor | Unit11/assigment2/humanoidrobot/warehouse.py:91-95 | the task keeps the order id and its items, and its id is "T_" + order id |
| Storage.OrderIdFor | Unit11/assigment2/humanoidrobot/warehouse.py:101 | "ORD" followed by digits, exactly 7 characters below 10000 |
| Storage.OrderIdsDistinct | Unit11/assigment2/humanoidrobot/warehouse.py:99-103 | distinct counter values give distinct order ids |
| Storage.TaskManager.constructor | Unit11/assigment2/humanoidrobot/warehouse.py:81-85 | an empty queue, no completed tasks, and the counter at 1 |
| Storage.TaskManager.ProcessOrder | Unit11/assigment2/humanoidrobot/warehouse.py:87-97 | returns the validation result; an invalid order leaves the queue as it was; a valid one appends its task at the tail |
| Storage.TaskManager.GetNextOrderId | Unit11/assigment2/humanoidrobot/warehouse.py:99-103 | returns the id for the current counter, and the counter goes up by exactly one |
| Storage.TaskManager.GetNextTask | Unit11/assigment2/humanoidrobot/warehouse.py:105-107 | pops the head of the queue; none and no change on an empty queue |
| Storage.DrainTasks | Unit11/assigment2/humanoidrobot/warehouse.py:105-107 | popping until none gives back the queued tasks in queue order |
| Storage.SubmitAndDrain | Unit11/assigment2/humanoidrobot/warehouse.py:87-107 | valid orders submitted in turn come out as their tasks in submission order |
| Storage.PackagingStation.constructor | Unit11/assigment2/humanoidrobot/warehouse.py:113-116 | both lists start empty |
| Storage.PackagingStation.ReceiveStagedItem | Unit11/assigment2/humanoidrobot/warehouse.py:118-120 | the item is appended to the staging area |
| Storage.PackagingStation.GetStagedItemsForPacking | Unit11/assigment2/humanoidrobot/warehouse.py:122-126 | returns the staged items in arrival order and empties the staging area |
| Storage.PackagingStation.ReceiveOrder | Unit11/assigment2/humanoidrobot/warehouse.py:128-130 | the order id is appended to the packed orders |
| Subsystems.MoveSucceeds | Unit11/assigment2/humanoidrobot/subsystems.py:30-59 | a move with no obstacle arrives; a declined reroute fails; an attempted reroute that succeeds arrives; after a failed reroute it arrives iff in Semi-Auto the operator accepts the retry |
| Subsystems.ObstacleEventsShape | Unit11/assigment2/humanoidrobot/subsystems.py:30-59 | no events iff no obstacle; the first is the obstacle, a second one, the failed reroute, comes iff a reroute was attempted and failed, and then the move arrives only by a Semi-Auto retry |
| Subsystems.FullAutoMoveFails | Unit11/assigment2/humanoidrobot/subsystems.py:30-59 | in Full-Auto a move fails iff the obstacle draw and the reroute-failure draw both fire |
| Subsystems.FullAutoIgnoresOperator | Unit11/assigment2/humanoidrobot/subsystems.py:34-59 | in Full-Auto the operator's answers change neither the outcome nor the obstacle events |
| Subsystems.ManualRetryOnlySemiAuto | Unit11/assigment2/humanoidrobot/subsystems.py:45-59 | a move that arrives after a failed reroute happened in Semi-Auto, with the operator accepting both prompts |
| Subsystems.SemiAutoWithCooperativeOperator | Unit11/assigment2/humanoidrobot/subsystems.py:30-65 | with an operator who always answers "y", a Semi-Auto move always arrives, and it arrives whenever the Full-Auto move would |
| Subsystems.NavigationSystem.constructor | Unit11/assigment2/humanoidrobot/subsystems.py:20-23 | the robot starts at home with no obstacle events |
| Subsystems.NavigationSystem.MoveTo | Unit11/assigment2/humanoidrobot/subsystems.py:25-65 | success is decided by the move's draw; on success the location becomes the target, on failure it is unchanged; the obstacle events only grow, by the obstacle and failed-reroute entries |
| Subsystems.ScanSucceeds | Unit11/assigment2/humanoidrobot/subsystems.py:82-97 | a successful draw succeeds; a failed one succeeds iff in Semi-Auto the operator accepts the retry |
| Subsystems.ScanReadingShape | Unit11/assigment2/humanoidrobot/subsystems.py:82-83 | the reading names the location and ends in OK iff the random draw succeeded |
| Subsystems.ScanOutcome | Unit11/assigment2/humanoidrobot/subsystems.py:82-97 | in Full-Auto a scan reports exactly its random outcome; a failed draw turns into success only in Semi-Auto, with an accepted retry |
| Subsystems.SensorArray.constructor | Unit11/assigment2/humanoidrobot/subsystems.py:71-73 | no readings at the start |
| Subsystems.SensorArray.ScanLocation | Unit11/assigment2/humanoidrobot/subsystems.py:75-97 | exactly one reading is appended, holding the random outcome; the result follows the scan's draw |
| Subsystems.Gripper.constructor | Unit11/assigment2/humanoidrobot/subsystems.py:103-106 | the gripper starts open and empty |
| Subsystems.Gripper.PickItem | Unit11/assigment2/humanoidrobot/subsystems.py:108-114 | the item is appended and the gripper is CLOSED |
| Subsystems.Gripper.DropItem | Unit11/assigment2/humanoidrobot/subsystems.py:116-125 | returns and removes the most recently picked item and opens; none and no change when empty |
| Subsystems.Gripper.ClearItems | Unit11/assigment2/humanoidrobot/subsystems.py:127-130 | the gripper is empty and OPEN |
| Subsystems.PickThenDrop | Unit11/assigment2/humanoidrobot/subsystems.py:108-125 | picking then dropping gives the item back and restores the carried items |
| Sequences.InsertBy | Unit11/assigment2/humanoidrobot/subsystems.py:152 | insertion adds exactly the element, as a multiset |
| Sequences.InsertBySorted | Unit11/assigment2/humanoidrobot/subsystems.py:152 | under a total preorder, inserting into a sorted list keeps it sorted |
| Sequences.SortBy | Unit11/assigment2/humanoidrobot/subsystems.py:152 | insertion sort under a total preorder gives a sorted permutation of its input |
| Subsystems.SortByWeight | Unit11/assigment2/humanoidrobot/subsystems.py:152 | `sorted(key=weight)` is ascending by weight and a permutation of its input |
| Subsystems.InsertByWeightOfWeight | Unit11/assigment2/humanoidrobot/subsystems.py:152 | inserting an item puts it before every item of its weight already present, keeping their order |
| Subsystems.SortByWeightStable | Unit11/assigment2/humanoidrobot/subsystems.py:152 | the sort is stable: items of equal weight keep their input order |
| Subsystems.PackingOrder | Unit11/assigment2/humanoidrobot/subsystems.py:149-158 | the items popped from a prepared stack have non-increasing weights and are the same multiset as the items prepared |
| Subsystems.PackingOptimizer.constructor | Unit11/assigment2/humanoidrobot/subsystems.py:146-147 | the stack starts empty |
| Subsystems.PackingOptimizer.PreparePackingSequence | Unit11/assigment2/humanoidrobot/subsystems.py:149-154 | the previous contents are discarded and the stack holds the items sorted ascending by weight, heaviest on top |
| Subsystems.PackingOptimizer.GetNextItemToPack | Unit11/assigment2/humanoidrobot/subsystems.py:156-158 | pops the top item; none and no change when empty |
| Subsystems.DrainPackingStack | Unit11/assigment2/humanoidrobot/subsystems.py:156-158 | popping until none gives the stack read from the top, then the stack is empty |
| Robot.Consumed | Unit11/assigment2/humanoidrobot/robot.py:84-88 | max(0, level - amount): never negative, and equal to level - amount unless that is negative |
| Robot.ConsumedBounds | Unit11/assigment2/humanoidrobot/robot.py:84-88 | spending never raises the level, and a positive amount from a positive level lowers it |
| Robot.PackLogAt | Unit11/assigment2/humanoidrobot/robot.py:159-171 | line k of a pack log is "packed item k + 1 of n" with the k-th popped item |
| Robot.ItemsForComplete | Unit11/assigment2/humanoidrobot/robot.py:199-205 | no id is skipped iff every id has an inventory record |
| Robot.HumanoidRobot.constructor | Unit11/assigment2/humanoidrobot/robot.py:29-44 | full battery, IDLE, an empty log, and fresh subsystems in their initial states |
| Robot.HumanoidRobot.Log | Unit11/assigment2/humanoidrobot/robot.py:46-52 | exactly one entry is appended |
| Robot.HumanoidRobot.ConsumeBattery | Unit11/assigment2/humanoidrobot/robot.py:84-88 | the level becomes max(0, level - amount) |
| Robot.HumanoidRobot.CheckBatteryAndCharge | Unit11/assigment2/humanoidrobot/robot.py:54-82 | passes iff the level is above the threshold or the move to the charger arrives; the new body is `CheckBody` of the old one: above the threshold nothing changes; at or below it one move is drawn and its obstacle events are recorded, and an arrival puts the robot at the charger with a full battery while a failed move leaves location and battery as they were; the log gains exactly the critical, navigating and charged or unreachable lines; the status is CHARGING, or IDLE after charging, and unchanged above the threshold |
| Robot.HumanoidRobot.RetrieveAndStageOneItem | Unit11/assigment2/humanoidrobot/robot.py:90-139 | succeeds iff the battery check passes and the fetch succeeds from the checked body; the new body is `RetrieveBody` and the log gains exactly `RetrieveLog` on every path, failures included; the status is RETRIEVING once the check passed and CHARGING otherwise; the record's item is staged iff it succeeds |
| Robot.HumanoidRobot.FetchAndStage | Unit11/assigment2/humanoidrobot/robot.py:100-139 | succeeds iff the id has an inventory record and carrying its item succeeds; an unknown id logs StartRetrieving and ItemNotFound and leaves the body unchanged; a known one leaves the body as `CarryBody` of the record's item and location, on every path; the status is RETRIEVING and the item is staged iff it succeeds |
| Robot.HumanoidRobot.CarryToStation | Unit11/assigment2/humanoidrobot/robot.py:108-139 | succeeds iff the move to the item, the scan and the move to the station all succeed; the body becomes `CarryBody` and the log gains exactly `CarryLog`, failures included; the station gains the item iff it succeeds |
| Robot.HumanoidRobot.ReachAndPick | Unit11/assigment2/humanoidrobot/robot.py:108-121 | succeeds iff the move arrives and the scan confirms; a failed move records its obstacle events and NavigationFailed and changes nothing else; an arrival costs one navigation cost, moves the robot and appends one scan reading; a failed scan logs SensorFailed with the argument id and leaves the gripper as it was; a confirmed one grips the item, CLOSED |
| Robot.HumanoidRobot.DeliverAndStage | Unit11/assigment2/humanoidrobot/robot.py:123-139 | succeeds iff the move to the station arrives and the gripper holds an item; a failed move logs StationUnreachable and leaves battery, location and gripper as they were; an arrival costs one navigation cost and moves the robot; an empty gripper then logs GripperEmpty and stages nothing; otherwise the last gripped item is staged, the gripper opens, one retrieval cost is spent and Staged is logged with the new level |
| Robot.HumanoidRobot.PackOrder | Unit11/assigment2/humanoidrobot/robot.py:141-179 | succeeds iff the battery check passes; the body is `PackBody`: the check's effect on battery and navigation, then one packing cost only when something was staged; a failure changes no station or stack state and logs only the check; an empty staging area logs Nothing to pack and leaves the stack and the orders; otherwise the drained items are packed heaviest first, the order is recorded, the stack ends empty and the log is exact |
| Robot.HumanoidRobot.PackStation | Unit11/assigment2/humanoidrobot/robot.py:146-179 | staging is drained and the status is PACKING; an empty drain logs Nothing to pack and leaves battery, stack and orders as they were; otherwise the sorted items are popped heaviest first with one log line each, the order is recorded, the stack ends empty and one packing cost is spent |
| Robot.HumanoidRobot.PackAndRecord | Unit11/assigment2/humanoidrobot/robot.py:156-178 | the drained items are packed heaviest first, the order is recorded, the packing cost is spent and the log gets the pack lines |
| Robot.HumanoidRobot.RecordPackage | Unit11/assigment2/humanoidrobot/robot.py:173-178 | the order id is appended to the packed orders, the packing cost is spent and one entry is logged |
| Robot.HumanoidRobot.PackStaged | Unit11/assigment2/humanoidrobot/robot.py:156-171 | the packed items are the weight-sorted items in reverse, and each is logged as item k of n |
| Robot.HumanoidRobot.PackNext | Unit11/assigment2/humanoidrobot/robot.py:160-171 | one pop: none leaves the empty stack and the log as they were; an item is the old top and is logged as item count + 1 |
| Robot.HumanoidRobot.PackAll | Unit11/assigment2/humanoidrobot/robot.py:159-171 | the items packed are the stack read from the top, the stack ends empty, and the log gains one line per item |
| Robot.HumanoidRobot.LeadingRetrievals | Unit11/assigment2/humanoidrobot/robot.py:198-205 | the number of leading ids that retrieve one after another from a body, at most the number of ids |
| Robot.HumanoidRobot.LeadingRetrievalsSpec | Unit11/assigment2/humanoidrobot/robot.py:198-205 | every id before that count retrieves from the body the retrievals before it leave, and the id at the count, if any, does not |
| Robot.HumanoidRobot.RetrievalSucceeds | Unit11/assigment2/humanoidrobot/robot.py:90-139 | a successful retrieval ends in `Retrieved`: after the battery check, two moves with their obstacle events, one scan, two navigation costs and a retrieval cost, at the station, open, holding what it held before |
| Robot.HumanoidRobot.RetrievalFails | Unit11/assigment2/humanoidrobot/robot.py:90-139 | a failed retrieval leaves the gripper as it was, unless the move back to the station failed with the item gripped at its location; an unknown id changes only what the battery check changes |
| Robot.HumanoidRobot.RetrievalNeverFindsGripperEmpty | Unit11/assigment2/humanoidrobot/robot.py:121-139 | a whole retrieval never logs the gripper-empty error: the delivery always follows a pick |
| Robot.HumanoidRobot.AfterRetrievalsGripper | Unit11/assigment2/humanoidrobot/robot.py:198-205 | leading retrievals keep the gripper's contents, and after at least one the robot is at the station with the gripper open |
| Robot.HumanoidRobot.TaskSteps | Unit11/assigment2/humanoidrobot/robot.py:198-220 | a task's body is the retrieval loop's body followed by packing when every item was staged, or by clearing the gripper otherwise |
| Robot.HumanoidRobot.TaskGripper | Unit11/assigment2/humanoidrobot/robot.py:207-220 | after a task the gripper is empty and open if a retrieval failed, and otherwise holds what it held before, open once an item was retrieved |
| Robot.HumanoidRobot.StageItem | Unit11/assigment2/humanoidrobot/robot.py:199-205 | one loop turn: succeeds iff the id retrieves from the current body; the body becomes `RetrieveBody` and the log gains RetrievingItem(idx + 1, n) and then exactly `RetrieveLog`; the item of the id's record is staged iff it succeeds |
| Robot.HumanoidRobot.StageStep | Unit11/assigment2/humanoidrobot/robot.py:199-205 | one loop turn keeps the loop invariant: it succeeds iff the next id retrieves; a success means the staging area holds the items of the first idx + 1 ids and the body is the one those idx + 1 retrievals leave; a failure fixes the count of leading retrievals at the turn number and leaves the body as the failed retrieval from the body the earlier turns left |
| Robot.HumanoidRobot.StageAll | Unit11/assigment2/humanoidrobot/robot.py:198-205 | retrieval stops at the first failure: the number staged is the number of leading ids that retrieve from the starting body, the staging area gains exactly their items, all were staged iff none failed, and the body is `StagingBody`: the successful retrievals, then the failed one |
| Robot.HumanoidRobot.FinishTask | Unit11/assigment2/humanoidrobot/robot.py:207-214 | the task completes, IDLE, iff the battery check passes; the body is `PackBody`; a completion with staged items records the order and empties the stack; otherwise ERROR, with nothing packed, staging and stack unchanged |
| Robot.HumanoidRobot.ConcludeTask | Unit11/assigment2/humanoidrobot/robot.py:207-220 | with every item staged it is `FinishTask`: completed iff the battery check passes, the body is `PackBody`; otherwise the task is abandoned, ERROR, with the gripper cleared and opened and nothing else of the body, staging, stack or orders changed |
| Robot.HumanoidRobot.RunTask | Unit11/assigment2/humanoidrobot/robot.py:198-220 | the number staged is the number of leading retrievals; completed iff every item was staged and the battery check after staging passes; a failure leaves ERROR with the leading items staged and nothing packed; the stack is empty iff the task completed with something to pack, and unchanged otherwise; the body is `TaskBody`: after a failed retrieval the failed body with the gripper cleared, otherwise the packing body after all retrievals |
| Robot.HumanoidRobot.AbandonTask | Unit11/assigment2/humanoidrobot/robot.py:215-220 | the task is marked ERROR, the gripper is cleared and opened, and RetrievalFailed is logged |
| Robot.HumanoidRobot.ExecuteWorkflow | Unit11/assigment2/humanoidrobot/robot.py:181-220 | an empty queue logs QueueEmpty and changes nothing else; otherwise exactly one task leaves the queue for good, and it completes iff all its items retrieve and the packing battery check passes; the completed-task list gains its id iff it completed; staging, packed orders, stack and body after the task are those of `RunTask` |
| LeaveSystem.Restored | Unit04/seminar_activities/employee_mg_system.py:51-53 | min(balance + days, cap) |
| LeaveSystem.DeductRestore | Unit04/seminar_activities/employee_mg_system.py:44-53 | deducting then restoring the same days within the allowance gives back the balance |
| LeaveSystem.Employee.constructor | Unit04/seminar_activities/employee_mg_system.py:7-16 | the given details, with an allowance and a balance of 20 |
| LeaveSystem.Employee.UpdateDetails | Unit04/seminar_activities/employee_mg_system.py:28-38 | exactly the fields passed truthy values are overwritten |
| LeaveSystem.Employee.DeductLeave | Unit04/seminar_activities/employee_mg_system.py:44-49 | succeeds iff the days fit in the balance, and then subtracts them; a failure leaves the balance alone; the balance stays in range |
| LeaveSystem.Employee.RestoreLeave | Unit04/seminar_activities/employee_mg_system.py:51-53 | the balance becomes min(balance + days, allowance) and never exceeds the allowance |
| LeaveSystem.Weekday | Unit04/seminar_activities/employee_mg_system.py:75 | `weekday()` is in 0..6 |
| LeaveSystem.WeekdayPeriodic | Unit04/seminar_activities/employee_mg_system.py:75 | weekdays repeat every 7 days, and day 1 is a Monday |
| LeaveSystem.WorkdaysIsSetSize | Unit04/seminar_activities/employee_mg_system.py:69-78 | the working-day count is the number of Monday-to-Friday days in [start, end], each counted once, and 0 when start > end |
| LeaveSystem.FullWeek | Unit04/seminar_activities/employee_mg_system.py:69-78 | any 7 consecutive days hold exactly 5 working days |
| LeaveSystem.CalculateDays | Unit04/seminar_activities/employee_mg_system.py:69-78 | the loop returns the working-day count of [start, end] |
| LeaveSystem.LeaveRequest.constructor | Unit04/seminar_activities/employee_mg_system.py:59-67 | the given fields; the working-day count of the range; status Pending; request date today |
| LeaveSystem.LeaveRequest.UpdateStatus | Unit04/seminar_activities/employee_mg_system.py:94-97 | only Pending, Approved or Rejected are taken; anything else is ignored |
| LeaveSystem.RequestId | Unit04/seminar_activities/employee_mg_system.py:113-114 | "LR" followed by the counter's digits, 7 characters below 100000, carrying no smaller counter value |
| LeaveSystem.NothingPending | Unit04/seminar_activities/employee_mg_system.py:118-132 | no stored request is ever Pending, so `approve_leave` never succeeds on a ledger kept by `LeaveManager` |
| LeaveSystem.LeaveManager.constructor | Unit04/seminar_activities/employee_mg_system.py:103-105 | no requests and the counter at 0 |
| LeaveSystem.LeaveManager.ValidateLeaveDates | Unit04/seminar_activities/employee_mg_system.py:149-170 | true iff start <= end, start >= today and the working days fit in the balance |
| LeaveSystem.LeaveManager.BookLeave | Unit04/seminar_activities/employee_mg_system.py:107-123 | a failed validation changes nothing; otherwise the counter goes up by one, the working days are deducted, and a fresh Approved request under a new "LR" id is stored |
| LeaveSystem.LeaveManager.ApproveLeave | Unit04/seminar_activities/employee_mg_system.py:125-132 | true iff the id is stored as Pending, which then becomes Approved; otherwise nothing changes |
| LeaveSystem.LeaveManager.RejectLeave | Unit04/seminar_activities/employee_mg_system.py:134-142 | true iff the id is stored as Pending or Approved, which becomes Rejected and restores its days capped at the allowance; otherwise nothing is restored |
| LeaveSystem.LeaveManager.GetEmployeeLeaves | Unit04/seminar_activities/employee_mg_system.py:144-147 | exactly the stored requests of that employee |
| LeaveSystem.RejectTwice | Unit04/seminar_activities/employee_mg_system.py:134-142 | a second reject returns false and restores nothing more |
| LeaveSystem.EmployeeId | Unit04/seminar_activities/employee_mg_system.py:183-184 | "EMP" followed by the counter's digits, 7 characters below 10000, carrying no smaller counter value |
| LeaveSystem.EmployeeIdsDistinct | Unit04/seminar_activities/employee_mg_system.py:183-184 | increasing counter values give distinct employee ids |
| LeaveSystem.EmployeeDatabase.constructor | Unit04/seminar_activities/employee_mg_system.py:176-178 | no employees and the counter at 0 |
| LeaveSystem.EmployeeDatabase.AddEmployee | Unit04/seminar_activities/employee_mg_system.py:180-188 | the counter goes up by one; a fresh employee with the full allowance is filed under the new id, which was not in use |
| LeaveSystem.EmployeeDatabase.GetEmployee | Unit04/seminar_activities/employee_mg_system.py:190-192 | some iff the id is filed, and then the employee with that id |
| LeaveSystem.EmployeeDatabase.UpdateEmployee | Unit04/seminar_activities/employee_mg_system.py:194-199 | false for an unknown id; otherwise the details are updated as `update_details` does |
| LeaveSystem.EmployeeDatabase.DeleteEmployee | Unit04/seminar_activities/employee_mg_system.py:201-206 | true iff the id was filed; exactly that id is removed |
| LeaveSystem.EmployeeDatabase.ListAllEmployees | Unit04/seminar_activities/employee_mg_system.py:208-210 | every filed employee, each findable by its own id |
| Cards.OrderIsSuitThenRank | Unit05/cards.py:20-39 | cards are equal iff their tuples are; `<`, `<=`, `>`, `>=` are lexicographic on (suit, rank) |
| Cards.CardOrderTotal | Unit05/cards.py:26-39 | `<` is irreflexive, transitive and total, and `<=` is the negation of the reversed `<` |
| Cards.CardOrderPreorder | Unit05/cards.py:20-39 | `<=` on cards is a total preorder, so `list.sort()` is well defined on hands |
| Cards.SortedCards | Unit05/cards.py:71-72 | `list.sort()` is non-decreasing and a permutation |
| Cards.SortedUnique | Unit05/cards.py:71-72 | two sorted arrangements of the same cards are equal, so sorting has one result |
| Cards.StandardDeck | Unit05/cards.py:47-54 | 52 cards |
| Cards.StandardDeckComplete | Unit05/cards.py:47-54 | every card has a suit in 0..3 and a rank in 2..14; each such pair sits at its place; the 52 cards are pairwise distinct |
| Cards.CardRankScore | Unit05/cards.py:112-115 | the score of a rank is at most 4 |
| Cards.RankScores | Unit05/cards.py:105-115 | Ace (rank 1 or 14) scores 4, King 3, Queen 2, Jack 1, all others 0; a negative index scores like the rank 15 above it |
| Cards.HandPointsBound | Unit05/cards.py:117-122 | a hand scores at most 4 points per card |
| Cards.MaxPointsIsMax | Unit05/cards.py:137-142 | the running maximum from 0 is at least every score and, with some hands, equal to one of them |
| Cards.Collect | Unit05/cards.py:145-148 | at most one name per hand is collected |
| Cards.CollectSpec | Unit05/cards.py:145-150 | every player scoring the best is collected |
| Cards.BestPositions | Unit05/cards.py:145-150 | exactly the positions whose score is the best, in increasing order |
| Cards.CollectAtBestPositions | Unit05/cards.py:145-150 | the k-th collected name is the player at the k-th best-scoring position: each such player once, in argument order |
| Cards.CollectOnlyBest | Unit05/cards.py:145-150 | only players scoring the best are collected |
| Cards.WinnersNonEmpty | Unit05/cards.py:130-150 | with at least one hand there is a winner, and every winner has the top score |
| Cards.Deck.constructor | Unit05/cards.py:44-45 | the deck holds the given cards |
| Cards.Deck.Hand | Unit05/cards.py:85-88 | an empty hand for the player |
| Cards.Deck.MakeCards | Unit05/cards.py:47-54 | the nested loops build the 52-card deck, suit-major |
| Cards.Deck.TakeCard | Unit05/cards.py:62-63 | removes and returns the last card; none, with no change, on an empty deck, where the source raises |
| Cards.Deck.AddCard | Unit05/cards.py:65-66 | the card is appended |
| Cards.Deck.SortCards | Unit05/cards.py:71-72 | the cards become their sorted permutation |
| Cards.Deck.MoveCards | Unit05/cards.py:74-77 | onto another deck the last min(num, n) cards arrive in reverse order and the total card count is kept; false iff num exceeds the cards held; onto itself nothing changes |
| Cards.Deck.PointsInHand | Unit05/cards.py:117-122 | the loop returns the hand's high-card points, at most 4 per card |
| Cards.Deck.WinningHand | Unit05/cards.py:124-128 | this hand's player wins iff it has strictly more points; otherwise the other player wins |
| Cards.AddThenTake | Unit05/cards.py:62-66 | add then take gives the card back and restores the deck |
| Cards.Players | Unit05/cards.py:146-148 | the hands' players in argument order |
| Cards.PointsOf | Unit05/cards.py:139-140 | each hand's points in argument order |
| Cards.BestPoints | Unit05/cards.py:137-142 | the loop computes the running maximum of the scores from 0 |
| Cards.PlayersWith | Unit05/cards.py:144-150 | the loop collects, in order, the players scoring the given points |
| Cards.WinningAmong | Unit05/cards.py:130-150 | no hands give no winners; otherwise the players with the top score in argument order, which is never empty |
| Fleet.TaskDrain | Unit05/Portfolio_Activity_Unit_5_polymorphism.py:66-164 | 5, 8 or 3 for Humanoid, Transport or Inventory, and 0 only for the generic robot |
| Fleet.WarehouseRobot.constructor | Unit05/Portfolio_Activity_Unit_5_polymorphism.py:7-18 | full battery, inactive |
| Fleet.WarehouseRobot.Humanoid | Unit05/Portfolio_Activity_Unit_5_polymorphism.py:53-64 | full battery, inactive, carrying nothing |
| Fleet.WarehouseRobot.Transport | Unit05/Portfolio_Activity_Unit_5_polymorphism.py:96-107 | full battery, inactive, no load; within capacity iff the capacity is not negative |
| Fleet.WarehouseRobot.Inventory | Unit05/Portfolio_Activity_Unit_5_polymorphism.py:139-150 | full battery, inactive, nothing scanned |
| Fleet.WarehouseRobot.Activate | Unit05/Portfolio_Activity_Unit_5_polymorphism.py:20-30 | switches on only when the battery is above 10; otherwise unchanged |
| Fleet.WarehouseRobot.Deactivate | Unit05/Portfolio_Activity_Unit_5_polymorphism.py:32-42 | always inactive afterwards |
| Fleet.WarehouseRobot.PerformTask | Unit05/Portfolio_Activity_Unit_5_polymorphism.py:44-164 | an active robot loses its kind's drain, with no clamping; an inactive one is untouched |
| Fleet.WarehouseRobot.PickItem | Unit05/Portfolio_Activity_Unit_5_polymorphism.py:80-91 | the item is appended only while active |
| Fleet.WarehouseRobot.LoadPallet | Unit05/Portfolio_Activity_Unit_5_polymorphism.py:123-134 | loads iff active and the new total is within capacity, so the load never exceeds the capacity |
| Fleet.WarehouseRobot.ScanItem | Unit05/Portfolio_Activity_Unit_5_polymorphism.py:166-177 | the scan count goes up by one only while active |
| Search.FirstIndexSpec | Unit08/seminar.py:143-150 | the reference index is the least index holding the target, -1 iff it is absent, and within [-1, len) |
| Search.LinearSearch | Unit08/seminar.py:125-150 | returns the least index holding the target, -1 iff absent, always within [-1, len) |
| Search.LinearSearchEmployeeId | Unit08/seminar.py:156-168 | returns the reference first index over the id list |
| Search.SearchesAgree | Unit08/seminar.py:125-168 | any result meeting the contract of `linear_search` is the reference first index, so both searches agree |
| Banking.BankAccount.constructor | Unit06/Encapsulation/ex3.py:2-4 | both balances start at 0 |
| Banking.BankAccount.GetChecking | Unit06/Encapsulation/ex3.py:18-19 | on a valid account the balance is not negative |
| Banking.BankAccount.GetSavings | Unit06/Encapsulation/ex3.py:21-22 | on a valid account the balance is not negative |
| Banking.BankAccount.SetChecking | Unit06/Encapsulation/ex3.py:6-10 | sets only a non-negative amount; savings is untouched; balances stay non-negative |
| Banking.BankAccount.SetSavings | Unit06/Encapsulation/ex3.py:12-16 | sets only a non-negative amount; checking is untouched; balances stay non-negative |
| Banking.BankAccount.Deposit | Unit06/Encapsulation/ex3.py:24-29 | only a positive amount is added, only to the named account; an unknown account changes nothing |
| Banking.BankAccount.Withdraw | Unit06/Encapsulation/ex3.py:31-39 | subtracts only when the amount is at most the named account's balance; otherwise both balances are unchanged; balances stay non-negative |
| Banking.DepositThenWithdraw | Unit06/Encapsulation/ex3.py:24-39 | depositing then withdrawing the same positive amount restores both balances |
| AnnualLeave.Employee.constructor | Unit02/activity_employee.py:3-7 | the counter starts at 22 |
| AnnualLeave.Employee.BookDay | Unit02/activity_employee.py:12-21 | true and one day fewer iff days remain; otherwise the counter is unchanged; the counter is never negative |
| AnnualLeave.Employee.DaysOff | Unit02/activity_employee.py:23-25 | the fixed prefix followed by the digits of the remaining days |
| AnnualLeave.BookUntilRefused | Unit02/activity_employee.py:32-40 | booking until refused books exactly the remaining days and leaves 0 |
| AnnualLeave.FreshEmployeeBookings | Unit02/activity_employee.py:29-40 | a fresh employee books exactly 22 days |
| Recursion.Double | Unit08/3_recursion.py:3-10 | double(amount) = 2 * amount for every non-negative amount |
| Recursion.DoubleTermination | Unit08/3_recursion.py:3-10 | a negative amount never reaches the base case, however many calls are allowed; a non-negative one finishes with 2 * amount iff more than amount calls are allowed, and otherwise exhausts the budget (the RecursionError) |

## Left out

- Console output: every `print`, the `time.strftime` timestamp of the operation log, the `sleeper` delays and the number formatting inside log lines are not modelled; they do not affect state.
- Randomness and prompts: the probabilities of `random.random()` and the text of the `input()` prompts are not modelled, only the decisions they produce.
- Deck.shuffle: not modelled, because it is random.
- Configuration: `config.py` is not part of this model; its constants are parameters.
- Other files: app.py, cli.py, utils.py and the tests directory of the warehouse system (console front ends, demo scripting and test drivers), Unit10/seminar.py, Unit06/Encapsulation/ex1.py and the other demos in Unit08/seminar.py are not part of this model.
- Demo scripts: the module-level scripts and `__main__` blocks (cards.py:158-232, ex3.py:42-51, employee_mg_system.py:213-262, 3_recursion.py:13-15) are left out; the Unit02 program loop (activity_employee.py:28-42) is modelled only for an operator who always answers "y".
- String formatting: `get_details`, `get_request_details` and the `__str__` methods only build display text; `get_status` and `get_leave_balance` only read a field.
- Floating point: weights, battery levels and balances are exact reals, not binary floats.
- Text functions: `strip()`, `upper()` and `lower()` are modelled for ASCII only, with no Unicode white space or case mapping.
- Integer widths: Python integers are unbounded, so no wrap-around is modelled.
- LeaveSystem.LeaveManager.GetEmployeeLeaves: returns a set, not a list in dict insertion order.
- LeaveSystem.EmployeeDatabase.ListAllEmployees: returns a set, not a list in dict insertion order.
- LeaveSystem.EmployeeDatabase.UpdateEmployee: takes the four detail fields as optional parameters; the source's `**kwargs` also accepts any other keyword, on which `update_details` raises TypeError before `return True`, and the model has no such error path.
- Robot.HumanoidRobot.ExecuteWorkflow: returns, as ghost values, whether the task completed and how many items were staged; the source returns nothing.
- Search.LinearSearch: the `except TypeError` branch is left out, because `==` never raises in the model.
- Search.LinearSearchEmployeeId: the `except TypeError` branch is left out for the same reason.
- Cards.CardRankScore: requires a rank within -15..14; the source raises IndexError otherwise.
- Cards.Deck.PointsInHand: requires every rank within -15..14, for the same reason.
- Cards.Deck.WinningHand: requires every rank within -15..14, and returns the winner's name where the source prints it.
- Cards.WinningAmong: requires every rank within -15..14.
- Cards.Deck.TakeCard: returns none on an empty deck, where the source raises IndexError.
- Cards.Deck.MoveCards: returns false where the source raises IndexError after moving every card held.
- Cards.Deck.constructor: a plain deck gets the empty player name; the source's plain `Deck` has no `player` attribute.
- Cards.Deck.constructor: stores the cards as a value; the source keeps the caller's list itself, so two decks built on one list share it.
- Cards.Deck.MoveCards: treats the two decks' card lists as separate; when both decks share one list in the source, each move pops from it and appends back to it, so neither deck changes.
- Fleet.WarehouseRobot.PickItem: requires a humanoid robot; on another kind the source raises AttributeError.
- Fleet.WarehouseRobot.LoadPallet: requires a transport robot, for the same reason.
- Fleet.WarehouseRobot.ScanItem: requires an inventory robot, for the same reason.
- Recursion.Double: CPython stops at its recursion limit (about 1000 frames by default), so a large amount raises RecursionError; `Recursion.DoubleWithin` models that limit only as a call budget given by the caller, because the exact depth depends on the frames already on the stack.
- LeaveSystem.Workdays: day numbers are unbounded; Python dates run only from day 1 to day 3652059, which the model does not enforce.
- LeaveSystem.CalculateDays: does not model the OverflowError that `current += timedelta(days=1)` raises when the end date is `date.max`; the model counts that range like any other.
- Banking.BankAccount.Withdraw: returns whether the withdrawal happened; the source only prints.
- Robot.HumanoidRobot.StageStep: states the log only as growing, and not the status; the exact lines and the status of one turn are stated by `Robot.HumanoidRobot.StageItem`.
- Robot.HumanoidRobot.StageAll: states the log only as growing, and not the status after the loop, for the same reason.
- Robot.HumanoidRobot.FinishTask: states the log only as growing; the exact packing lines are stated by `Robot.HumanoidRobot.PackOrder`.
- Robot.HumanoidRobot.RunTask: states the log only as growing.
- Robot.HumanoidRobot.ExecuteWorkflow: on a non-empty queue, states the log only as growing.
