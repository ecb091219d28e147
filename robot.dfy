/** The robot coordinator (robot.py): battery management, the per-item
    retrieval state machine, packing through the optimiser, and the one-task
    workflow. */
module Robot {
  import opened Wrappers
  import opened Models
  import opened Storage
  import opened Subsystems
  import opened Sequences

  /** The messages the robot logs, without the timestamp and the number
      formatting of the console text. */
  datatype LogEntry =
    | BatteryCritical(level: real)
    | NavigatingToCharger
    | ChargerUnreachable
    | ChargingStarted
    | ChargeComplete(level: real)
    | StartRetrieving(itemId: string)
    | ItemNotFound(itemId: string)
    | NavigationFailed(location: string)
    | SensorFailed(itemId: string, location: string)
    | StationUnreachable(stationId: string)
    | GripperEmpty(itemId: string)
    | Staged(itemId: string, stationId: string, level: real)
    | PackingStarted(count: nat, orderId: string)
    | NothingToPack
    | OptimizingSequence
    | PackedItem(index: nat, total: nat, item: Item)
    | OrderPackaged(orderId: string, level: real)
    | QueueEmpty
    | ProcessingOrder(orderId: string, count: nat)
    | RetrievingItem(index: nat, total: nat)
    | OrderComplete(orderId: string)
    | PackingFailed(orderId: string)
    | RetrievalFailed(orderId: string)

  /** `consume_battery`: the level after spending `amount`, clamped at zero,
      that is max(0, level - amount). */
  function Consumed(level: real, amount: real): (r: real)
    ensures r >= 0.0
    ensures r >= level - amount
    ensures r == level - amount || r == 0.0
  {
    if level - amount < 0.0 then 0.0 else level - amount
  }

  /** Spending never raises the level, and spending a positive amount from a
      positive level strictly lowers it. */
  lemma ConsumedBounds(level: real, amount: real)
    requires level >= 0.0 && amount >= 0.0
    ensures Consumed(level, amount) <= level
    ensures amount > 0.0 && level > 0.0 ==> Consumed(level, amount) < level
  {
  }

  /** Prefixes compose: the log only ever grows. */
  lemma PrefixTrans<T>(a: seq<T>, b: seq<T>, c: seq<T>)
    requires a <= b && b <= c
    ensures a <= c
  {
    assert forall i | 0 <= i < |a| :: a[i] == b[i] == c[i];
  }

  /** The log lines of one pack: item `k` of `n` for each popped item. */
  function PackLog(packed: seq<Item>, n: nat): (r: seq<LogEntry>)
    ensures |r| == |packed|
  {
    if packed == [] then [] else PackLog(packed[..|packed| - 1], n) + [PackedItem(|packed|, n, packed[|packed| - 1])]
  }

  /** Line `k` of a pack log names item `k + 1` of `n` and the item popped `k`-th. */
  lemma {:induction false} PackLogAt(packed: seq<Item>, n: nat, k: nat)
    requires k < |packed|
    ensures PackLog(packed, n)[k] == PackedItem(k + 1, n, packed[k])
  {
    if k < |packed| - 1 {
      PackLogAt(packed[..|packed| - 1], n, k);
    }
  }

  lemma PackLogSnoc(packed: seq<Item>, x: Item, n: nat)
    ensures PackLog(packed + [x], n) == PackLog(packed, n) + [PackedItem(|packed| + 1, n, x)]
  {
    assert (packed + [x])[..|packed|] == packed;
  }

  /** Popping `x` off the stack moves it to the end of the popped items. */
  lemma PopStep(stack0: seq<Item>, before: seq<Item>, after: seq<Item>, packed: seq<Item>, x: Item)
    requires stack0 == before + Reverse(packed) && before == after + [x]
    ensures stack0 == after + Reverse(packed + [x])
  {
    ReverseSnoc(packed, x);
    assert before + Reverse(packed) == after + ([x] + Reverse(packed));
  }

  /** Logging the next pop extends the pack log by one line. */
  lemma PackLogStep(log0: seq<LogEntry>, before: seq<LogEntry>, after: seq<LogEntry>,
                    packed: seq<Item>, x: Item, total: nat)
    requires before == log0 + PackLog(packed, total)
    requires after == before + [PackedItem(|packed| + 1, total, x)]
    ensures after == log0 + PackLog(packed + [x], total)
  {
    PackLogSnoc(packed, x, total);
    assert log0 + PackLog(packed, total) + [PackedItem(|packed| + 1, total, x)]
        == log0 + (PackLog(packed, total) + [PackedItem(|packed| + 1, total, x)]);
  }

  lemma PackedLength(items: seq<Item>)
    ensures |Reverse(SortByWeight(items))| == |items|
  {
    assert |SortByWeight(items)| == |multiset(SortByWeight(items))| == |multiset(items)| == |items|;
  }

  /** The items the id index `index` holds for `ids`, in order, skipping
      unknown ids. */
  function ItemsFor(index: map<string, Record>, ids: seq<string>): (r: seq<Item>)
    ensures |r| <= |ids|
  {
    if ids == [] then []
    else
      var id := ids[|ids| - 1];
      ItemsFor(index, ids[..|ids| - 1]) + (if id in index then [index[id].item] else [])
  }

  /** No id is skipped exactly when every id has a record. */
  lemma {:induction false} ItemsForComplete(index: map<string, Record>, ids: seq<string>)
    ensures |ItemsFor(index, ids)| == |ids| <==> forall i :: 0 <= i < |ids| ==> ids[i] in index
  {
    if ids != [] {
      var init := ids[..|ids| - 1];
      ItemsForComplete(index, init);
      assert forall i :: 0 <= i < |init| ==> init[i] == ids[i];
    }
  }

  lemma ItemsForSnoc(index: map<string, Record>, ids: seq<string>, id: string)
    requires id in index
    ensures ItemsFor(index, ids + [id]) == ItemsFor(index, ids) + [index[id].item]
  {
    assert (ids + [id])[..|ids|] == ids;
  }

  /** Extending the prefix of ids by one known id stages its item next. */
  lemma ItemsForStep(index: map<string, Record>, ids: seq<string>, idx: nat)
    requires idx < |ids| && ids[idx] in index
    ensures ItemsFor(index, ids[..idx + 1]) == ItemsFor(index, ids[..idx]) + [index[ids[idx]].item]
  {
    assert ids[..idx + 1] == ids[..idx] + [ids[idx]];
    ItemsForSnoc(index, ids[..idx], ids[idx]);
  }


  /** The state that moving, scanning, gripping and spending battery change:
      the battery level, the position in the navigation decision stream, the
      location, the obstacle events, the scan readings (their number is the
      position in the sensor decision stream) and the gripper. */
  datatype Body = Body(mode: Mode, level: real, moves: nat, location: string, events: seq<string>,
                       readings: seq<string>, carried: seq<Item>, grip: GripperStatus)

  class HumanoidRobot {
    const robotId: string
    const config: Config
    var batteryLevel: real
    var status: RobotStatus
    var automationMode: Mode
    const navigation: NavigationSystem
    const sensors: SensorArray
    const gripper: Gripper
    const packingOptimizer: PackingOptimizer
    /** Append-only operation history. */
    var operationLog: seq<LogEntry>

    /** The battery level stays between empty and full. */
    ghost predicate Valid()
      reads this`batteryLevel
    {
      ValidConfig(config) && 0.0 <= batteryLevel <= config.initialBattery
    }

    constructor (robotId: string, automationMode: Mode, config: Config,
                 navDraws: nat -> NavDraw, scanDraws: nat -> ScanDraw)
      requires ValidConfig(config)
      ensures Valid()
      ensures this.robotId == robotId && this.config == config && this.automationMode == automationMode
      ensures batteryLevel == config.initialBattery && status == Idle && operationLog == []
      ensures fresh(navigation) && fresh(sensors) && fresh(gripper) && fresh(packingOptimizer)
      ensures navigation.currentLocation == config.homeLocation && navigation.obstacleEvents == []
      ensures navigation.draws == navDraws && navigation.moves == 0
      ensures sensors.draws == scanDraws && sensors.readings == []
      ensures gripper.carriedItems == [] && gripper.status == Open && packingOptimizer.packingStack == []
    {
      this.robotId := robotId;
      this.config := config;
      this.automationMode := automationMode;
      batteryLevel := config.initialBattery;
      status := Idle;
      navigation := new NavigationSystem(config.homeLocation, navDraws);
      sensors := new SensorArray(scanDraws);
      gripper := new Gripper();
      packingOptimizer := new PackingOptimizer();
      operationLog := [];
    }

    /** The robot's body as it is now. */
    function Snapshot(): Body
      reads this`automationMode, this`batteryLevel, navigation`moves, navigation`currentLocation,
            navigation`obstacleEvents, sensors`readings, gripper`carriedItems, gripper`status
    {
      Body(automationMode, batteryLevel, navigation.moves, navigation.currentLocation, navigation.obstacleEvents,
           sensors.readings, gripper.carriedItems, gripper.status)
    }

    // Each step of the robot, as a function of the body it starts from.

    /** The next move from `b` arrives. */
    predicate MoveArrives(b: Body)
    {
      MoveSucceeds(b.mode, navigation.draws(b.moves))
    }

    /** A move from `b` towards `destination` uses up one navigation decision
        and records its obstacle events; where it ends is up to the caller. */
    function Moved(b: Body, destination: string): Body
    {
      b.(moves := b.moves + 1,
         events := b.events + ObstacleEvents(b.mode, navigation.draws(b.moves), destination))
    }

    /** The battery check passes from `b`: no charge needed, or the move to the
        charging station arrives. */
    predicate PassesAt(b: Body)
    {
      !(b.level <= config.chargingThreshold) || MoveArrives(b)
    }

    /** The body after a passing battery check: above the threshold nothing
        changes; otherwise the robot is at the charging station with a full
        battery, one move later. */
    function ChargedAt(b: Body): Body
    {
      if !(b.level <= config.chargingThreshold) then b
      else Moved(b, config.chargingStation).(level := config.initialBattery, location := config.chargingStation)
    }

    /** The body after the battery check, whatever its outcome: a failed move
        to the charger leaves the robot where it was with the battery as it was. */
    function CheckBody(b: Body): Body
    {
      if PassesAt(b) then ChargedAt(b) else Moved(b, config.chargingStation)
    }

    /** The log lines of the battery check. */
    function CheckLog(b: Body): seq<LogEntry>
    {
      if !(b.level <= config.chargingThreshold) then []
      else [BatteryCritical(b.level), NavigatingToCharger]
           + (if MoveArrives(b) then [ChargingStarted, ChargeComplete(config.initialBattery)] else [ChargerUnreachable])
    }

    /** The next scan from `b` confirms. */
    predicate ScanConfirms(b: Body)
    {
      ScanSucceeds(b.mode, sensors.draws(|b.readings|))
    }

    /** The move to the item arrives and the scan there confirms. */
    predicate Reaches(b: Body)
    {
      MoveArrives(b) && ScanConfirms(b)
    }

    /** The body after reaching for `item` at `location`: a failed move leaves
        the robot where it was; an arrival costs one navigation cost and
        records one scan; a confirmed scan grips the item. */
    function ReachBody(b: Body, item: Item, location: string): Body
    {
      if !MoveArrives(b) then Moved(b, location)
      else
        var scanned := Moved(b, location).(level := Consumed(b.level, config.navigationCost), location := location,
                                            readings := b.readings + [ScanReading(location, sensors.draws(|b.readings|).success)]);
        if !ScanConfirms(b) then scanned else scanned.(carried := b.carried + [item], grip := Closed)
    }

    /** The log lines of reaching for item `itemId` at `location`. */
    function ReachLog(b: Body, itemId: string, location: string): seq<LogEntry>
    {
      if !MoveArrives(b) then [NavigationFailed(location)]
      else if !ScanConfirms(b) then [SensorFailed(itemId, location)]
      else []
    }

    /** The body after delivering to `stationId`: a failed move leaves the
        robot where it was, holding what it held; an arrival costs one
        navigation cost; then the last gripped item, if any, is dropped, which
        opens the gripper and costs one retrieval cost. */
    function DeliverBody(b: Body, stationId: string): Body
    {
      if !MoveArrives(b) then Moved(b, stationId)
      else
        var arrived := Moved(b, stationId).(level := Consumed(b.level, config.navigationCost), location := stationId);
        if b.carried == [] then arrived
        else arrived.(level := Consumed(arrived.level, config.retrievalCost),
                      carried := b.carried[..|b.carried| - 1], grip := Open)
    }

    /** The log lines of delivering item `itemId` to `stationId`. */
    function DeliverLog(b: Body, itemId: string, stationId: string): seq<LogEntry>
    {
      if !MoveArrives(b) then [StationUnreachable(stationId)]
      else if b.carried == [] then [GripperEmpty(itemId)]
      else [Staged(itemId, stationId, DeliverBody(b, stationId).level)]
    }

    /** Carrying succeeds from `b`: the move to the item, the scan and the move
        to the station succeed. */
    predicate Carries(b: Body)
    {
      Reaches(b) && MoveSucceeds(b.mode, navigation.draws(b.moves + 1))
    }

    /** The body after carrying `item` from `location` to `stationId`: reach
        for it and, if it was gripped, deliver it. */
    function CarryBody(b: Body, item: Item, location: string, stationId: string): Body
    {
      var reached := ReachBody(b, item, location);
      if Reaches(b) then DeliverBody(reached, stationId) else reached
    }

    /** The log lines of carrying item `itemId`. */
    function CarryLog(b: Body, itemId: string, item: Item, location: string, stationId: string): seq<LogEntry>
    {
      ReachLog(b, itemId, location)
      + (if Reaches(b) then DeliverLog(ReachBody(b, item, location), itemId, stationId) else [])
    }

    /** A retrieval past the battery check succeeds from `b`: the id is known
        and carrying its item succeeds. */
    predicate FetchesAt(index: map<string, Record>, b: Body, itemId: string)
    {
      itemId in index && Carries(b)
    }

    /** The body after a retrieval past the battery check: an unknown id
        changes nothing; otherwise the record's item is carried. */
    function FetchBody(index: map<string, Record>, b: Body, itemId: string, stationId: string): Body
    {
      if itemId !in index then b else CarryBody(b, index[itemId].item, index[itemId].location, stationId)
    }

    /** The log lines of a retrieval past the battery check. */
    function FetchLog(index: map<string, Record>, b: Body, itemId: string, stationId: string): seq<LogEntry>
    {
      [StartRetrieving(itemId)]
      + (if itemId !in index then [ItemNotFound(itemId)]
         else CarryLog(b, itemId, index[itemId].item, index[itemId].location, stationId))
    }

    /** A whole retrieval, battery check included, succeeds from `b`. */
    predicate RetrievesAt(index: map<string, Record>, b: Body, itemId: string)
    {
      PassesAt(b) && FetchesAt(index, CheckBody(b), itemId)
    }

    /** The body after a whole retrieval, whatever its outcome. */
    function RetrieveBody(index: map<string, Record>, b: Body, itemId: string, stationId: string): Body
    {
      if PassesAt(b) then FetchBody(index, CheckBody(b), itemId, stationId) else CheckBody(b)
    }

    /** The log lines of a whole retrieval. */
    function RetrieveLog(index: map<string, Record>, b: Body, itemId: string, stationId: string): seq<LogEntry>
    {
      CheckLog(b) + (if PassesAt(b) then FetchLog(index, CheckBody(b), itemId, stationId) else [])
    }

    /** The body after a successful retrieval of `itemId` from `b`: after a
        passing battery check, two moves (to the item's location and to the
        station) with their obstacle events, one scan there, two navigation
        costs and one retrieval cost, each clamped at zero; the robot is at the
        station holding what it held before, with the gripper open. (An
        unknown id never succeeds, and the location given to it is immaterial.) */
    function Retrieved(index: map<string, Record>, b: Body, itemId: string, stationId: string): Body
    {
      var c := ChargedAt(b);
      var location := if itemId in index then index[itemId].location else c.location;
      Body(b.mode,
           Consumed(Consumed(Consumed(c.level, config.navigationCost), config.navigationCost), config.retrievalCost),
           c.moves + 2, stationId,
           c.events + ObstacleEvents(b.mode, navigation.draws(c.moves), location)
                    + ObstacleEvents(b.mode, navigation.draws(c.moves + 1), stationId),
           b.readings + [ScanReading(location, sensors.draws(|b.readings|).success)],
           b.carried, Open)
    }

    /** A successful retrieval ends in `Retrieved`. */
    lemma RetrievalSucceeds(index: map<string, Record>, b: Body, itemId: string, stationId: string)
      requires RetrievesAt(index, b, itemId)
      ensures RetrieveBody(index, b, itemId, stationId) == Retrieved(index, b, itemId, stationId)
    {
      var c := ChargedAt(b);
      assert (c.carried + [index[itemId].item])[..|c.carried|] == c.carried;
    }

    /** A failed retrieval leaves the gripper as it was, unless the move back
        to the station failed with the item gripped; an unknown id changes only
        what the battery check changes. */
    lemma RetrievalFails(index: map<string, Record>, b: Body, itemId: string, stationId: string)
      requires !RetrievesAt(index, b, itemId)
      ensures var r := RetrieveBody(index, b, itemId, stationId);
        && (|| (r.carried == b.carried && r.grip == b.grip)
            || (itemId in index && r.carried == b.carried + [index[itemId].item] && r.grip == Closed
                && r.location == index[itemId].location))
        && (itemId !in index ==> r == CheckBody(b))
    {
    }

    /** Within a whole retrieval the gripper-empty failure of the delivery
        cannot happen: the delivery follows a pick, so the gripper holds
        an item. */
    lemma RetrievalNeverFindsGripperEmpty(index: map<string, Record>, b: Body, itemId: string, stationId: string,
                                          someId: string)
      ensures GripperEmpty(someId) !in RetrieveLog(index, b, itemId, stationId)
    {
    }

    /** The body after the first `n` of `ids` were retrieved one after another
        from `b`. */
    function AfterRetrievals(index: map<string, Record>, b: Body, ids: seq<string>, stationId: string, n: nat): Body
      requires n <= |ids|
      decreases n
    {
      if n == 0 then b
      else AfterRetrievals(index, Retrieved(index, b, ids[0], stationId), ids[1..], stationId, n - 1)
    }

    /** How many of `ids`, from the first, are retrieved before the first
        failure, starting from `b`. */
    function LeadingRetrievals(index: map<string, Record>, b: Body, ids: seq<string>, stationId: string): (r: nat)
      ensures r <= |ids|
      decreases |ids|
    {
      if ids == [] || !RetrievesAt(index, b, ids[0]) then 0
      else 1 + LeadingRetrievals(index, Retrieved(index, b, ids[0], stationId), ids[1..], stationId)
    }

    lemma {:induction false} AfterRetrievalsSnoc(index: map<string, Record>, b: Body, ids: seq<string>,
                                                 stationId: string, n: nat)
      requires n < |ids|
      ensures AfterRetrievals(index, b, ids, stationId, n + 1)
           == Retrieved(index, AfterRetrievals(index, b, ids, stationId, n), ids[n], stationId)
      decreases n
    {
      if n > 0 {
        AfterRetrievalsSnoc(index, Retrieved(index, b, ids[0], stationId), ids[1..], stationId, n - 1);
        assert ids[1..][n - 1] == ids[n];
      }
    }

    /** The count of leading retrievals is the place of the first failure:
        every id before it is retrieved from the body the earlier retrievals
        leave, and the id at it, if any, is not. */
    lemma {:induction false} LeadingRetrievalsSpec(index: map<string, Record>, b: Body, ids: seq<string>, stationId: string)
      ensures var k := LeadingRetrievals(index, b, ids, stationId);
        && (forall i :: 0 <= i < k ==> RetrievesAt(index, AfterRetrievals(index, b, ids, stationId, i), ids[i]))
        && (k < |ids| ==> !RetrievesAt(index, AfterRetrievals(index, b, ids, stationId, k), ids[k]))
      decreases |ids|
    {
      if ids != [] && RetrievesAt(index, b, ids[0]) {
        var next, tail := Retrieved(index, b, ids[0], stationId), ids[1..];
        LeadingRetrievalsSpec(index, next, tail, stationId);
        var k := LeadingRetrievals(index, b, ids, stationId);
        forall i | 0 <= i < k
          ensures RetrievesAt(index, AfterRetrievals(index, b, ids, stationId, i), ids[i])
        {
          if i > 0 {
            assert ids[i] == tail[i - 1];
          }
        }
        if k < |ids| {
          assert ids[k] == tail[k - 1];
        }
      }
    }

    /** Successful retrievals keep what the gripper holds; after at least one
        the robot is at the station with the gripper open. */
    lemma {:induction false} AfterRetrievalsGripper(index: map<string, Record>, b: Body, ids: seq<string>,
                                                    stationId: string, n: nat)
      requires n <= LeadingRetrievals(index, b, ids, stationId)
      ensures var q := AfterRetrievals(index, b, ids, stationId, n);
        && q.carried == b.carried
        && (n > 0 ==> q.grip == Open && q.location == stationId)
      decreases n
    {
      if n > 0 {
        AfterRetrievalsGripper(index, Retrieved(index, b, ids[0], stationId), ids[1..], stationId, n - 1);
      }
    }

    /** One more turn of the retrieval loop from `before`, the body the first
        `idx` retrievals left: on a failure the count of leading retrievals is
        `idx`, on a success the count goes on from the body it leaves. */
    lemma LeadingStep(index: map<string, Record>, start: Body, ids: seq<string>, stationId: string, idx: nat,
                      before: Body, after: Body, ok: bool)
      requires idx < |ids|
      requires LeadingRetrievals(index, start, ids, stationId) == idx + LeadingRetrievals(index, before, ids[idx..], stationId)
      requires before == AfterRetrievals(index, start, ids, stationId, idx)
      requires ok == RetrievesAt(index, before, ids[idx])
      requires ok ==> after == Retrieved(index, before, ids[idx], stationId)
      ensures ok ==> after == AfterRetrievals(index, start, ids, stationId, idx + 1)
      ensures !ok ==> LeadingRetrievals(index, start, ids, stationId) == idx
      ensures ok ==>
        LeadingRetrievals(index, start, ids, stationId) == idx + 1 + LeadingRetrievals(index, after, ids[idx + 1..], stationId)
    {
      assert ids[idx..][0] == ids[idx] && ids[idx..][1..] == ids[idx + 1..];
      if ok {
        AfterRetrievalsSnoc(index, start, ids, stationId, idx);
      }
    }

    /** The retrieval loop after `idx` turns without a failure, from the
        staging area `prefix` and the body `start`: the staging area `staged`
        holds the items of those ids, none was skipped, and `now` is the body
        they leave. */
    ghost predicate StagedSoFar(index: map<string, Record>, stationId: string, ids: seq<string>, idx: nat,
                                prefix: seq<Item>, start: Body, staged: seq<Item>, now: Body)
    {
      && idx <= |ids|
      && staged == prefix + ItemsFor(index, ids[..idx])
      && |ItemsFor(index, ids[..idx])| == idx
      && LeadingRetrievals(index, start, ids, stationId) == idx + LeadingRetrievals(index, now, ids[idx..], stationId)
      && now == AfterRetrievals(index, start, ids, stationId, idx)
    }

    /** One turn of the retrieval loop from `before` and `staged`, ending in
        `after` and `stagedAfter`: a failure is the end of the leading
        retrievals, a success keeps `StagedSoFar`. */
    lemma StagedStep(index: map<string, Record>, stationId: string, ids: seq<string>, idx: nat,
                     prefix: seq<Item>, start: Body, staged: seq<Item>, before: Body,
                     stagedAfter: seq<Item>, after: Body, ok: bool)
      requires idx < |ids| && StagedSoFar(index, stationId, ids, idx, prefix, start, staged, before)
      requires ok == RetrievesAt(index, before, ids[idx])
      requires after == RetrieveBody(index, before, ids[idx], stationId)
      requires ok ==> ids[idx] in index && stagedAfter == staged + [index[ids[idx]].item]
      ensures !ok ==>
        && LeadingRetrievals(index, start, ids, stationId) == idx
        && after == RetrieveBody(index, AfterRetrievals(index, start, ids, stationId, idx), ids[idx], stationId)
      ensures ok ==> StagedSoFar(index, stationId, ids, idx + 1, prefix, start, stagedAfter, after)
    {
      if ok {
        RetrievalSucceeds(index, before, ids[idx], stationId);
        ItemsForStep(index, ids, idx);
      }
      LeadingStep(index, start, ids, stationId, idx, before, after, ok);
    }

    /** The body after the retrieval loop: the leading retrievals, then the
        failed one, if any. */
    function StagingBody(index: map<string, Record>, b: Body, ids: seq<string>, stationId: string): Body
    {
      var k := LeadingRetrievals(index, b, ids, stationId);
      var q := AfterRetrievals(index, b, ids, stationId, k);
      if k < |ids| then RetrieveBody(index, q, ids[k], stationId) else q
    }

    /** The body after `pack_order`: the battery check, then one packing cost
        when it passed and there was something to pack. */
    function PackBody(b: Body, nonEmpty: bool): Body
    {
      var c := CheckBody(b);
      if PassesAt(b) && nonEmpty then c.(level := Consumed(c.level, config.packingCost)) else c
    }

    /** The body after one task of `execute_workflow` with items `ids`, where
        `nonEmpty` says whether items were already staged: a retrieval failure
        clears and opens the gripper; otherwise the order is packed. */
    function TaskBody(index: map<string, Record>, b: Body, ids: seq<string>, stationId: string, nonEmpty: bool): Body
    {
      var staging := StagingBody(index, b, ids, stationId);
      if LeadingRetrievals(index, b, ids, stationId) < |ids| then staging.(carried := [], grip := Open)
      else PackBody(staging, nonEmpty || ids != [])
    }

    /** A task is its retrieval loop followed by packing, when every item was
        staged, or by clearing the gripper otherwise. */
    lemma TaskSteps(index: map<string, Record>, b: Body, ids: seq<string>, stationId: string, nonEmpty: bool,
                    staging: Body, after: Body)
      requires staging == StagingBody(index, b, ids, stationId)
      requires LeadingRetrievals(index, b, ids, stationId) == |ids| ==> after == PackBody(staging, nonEmpty || ids != [])
      requires LeadingRetrievals(index, b, ids, stationId) < |ids| ==> after == staging.(carried := [], grip := Open)
      ensures after == TaskBody(index, b, ids, stationId, nonEmpty)
    {
    }

    /** After a task the gripper is empty and open if a retrieval failed, and
        holds what it held before otherwise. */
    lemma TaskGripper(index: map<string, Record>, b: Body, ids: seq<string>, stationId: string, nonEmpty: bool)
      ensures var r, k := TaskBody(index, b, ids, stationId, nonEmpty), LeadingRetrievals(index, b, ids, stationId);
        && (k < |ids| ==> r.carried == [] && r.grip == Open)
        && (k == |ids| ==> r.carried == b.carried && (ids != [] ==> r.grip == Open))
    {
      if LeadingRetrievals(index, b, ids, stationId) == |ids| {
        AfterRetrievalsGripper(index, b, ids, stationId, |ids|);
      }
    }

    /** `log`: appends one entry. */
    method Log(entry: LogEntry)
      modifies this`operationLog
      ensures operationLog == old(operationLog) + [entry]
      ensures old(operationLog) <= operationLog
    {
      operationLog := operationLog + [entry];
    }

    /** `consume_battery`. */
    method ConsumeBattery(amount: real)
      modifies this`batteryLevel
      ensures batteryLevel == Consumed(old(batteryLevel), amount)
    {
      batteryLevel := batteryLevel - amount;
      if batteryLevel < 0.0 {
        batteryLevel := 0.0;
      }
    }

    /** `check_battery_and_charge`: above the threshold it passes and changes
        nothing; otherwise the robot switches to CHARGING and heads for the
        charging station; failing to get there returns false with the battery as
        it was, arriving recharges to full and returns to IDLE. */
    method CheckBatteryAndCharge() returns (ok: bool)
      requires Valid()
      modifies this`batteryLevel, this`status, this`operationLog,
               navigation`currentLocation, navigation`obstacleEvents, navigation`moves
      ensures Valid()
      ensures ok == PassesAt(old(Snapshot()))
      ensures Snapshot() == CheckBody(old(Snapshot()))
      ensures operationLog == old(operationLog) + CheckLog(old(Snapshot()))
      ensures old(batteryLevel) > config.chargingThreshold ==> status == old(status)
      ensures old(batteryLevel) <= config.chargingThreshold ==> status == (if ok then Idle else Charging)
    {
      if batteryLevel <= config.chargingThreshold {
        status := Charging;
        Log(BatteryCritical(batteryLevel));
        Log(NavigatingToCharger);
        var arrived := navigation.MoveTo(config.chargingStation, automationMode);
        if !arrived {
          Log(ChargerUnreachable);
          return false;
        }
        Log(ChargingStarted);
        batteryLevel := config.initialBattery;
        Log(ChargeComplete(batteryLevel));
        status := Idle;
        return true;
      }
      return true;
    }

    /** `retrieve_and_stage_one_item`: the battery check, then the retrieval
        proper. A success stages exactly the item of the record; any failure
        leaves the staging area as it was. */
    method RetrieveAndStageOneItem(itemId: string, inventoryManager: InventoryManager, station: PackagingStation)
      returns (ok: bool)
      requires Valid()
      modifies this`batteryLevel, this`status, this`operationLog,
               navigation`currentLocation, navigation`obstacleEvents, navigation`moves,
               sensors`readings, gripper`status, gripper`carriedItems, station`stagedItems
      ensures Valid()
      ensures ok == RetrievesAt(inventoryManager.warehouse.inventoryIndex, old(Snapshot()), itemId)
      ensures Snapshot() == RetrieveBody(inventoryManager.warehouse.inventoryIndex, old(Snapshot()), itemId, station.stationId)
      ensures operationLog == old(operationLog)
                + RetrieveLog(inventoryManager.warehouse.inventoryIndex, old(Snapshot()), itemId, station.stationId)
      ensures status == (if PassesAt(old(Snapshot())) then Retrieving else Charging)
      ensures !ok ==> station.stagedItems == old(station.stagedItems)
      ensures ok ==>
        && itemId in inventoryManager.warehouse.inventoryIndex
        && station.stagedItems == old(station.stagedItems) + [inventoryManager.warehouse.inventoryIndex[itemId].item]
    {
      ghost var index, before := inventoryManager.warehouse.inventoryIndex, Snapshot();
      var charged := CheckBatteryAndCharge();
      if !charged {
        return false;
      }
      ghost var checked := Snapshot();
      ok := FetchAndStage(itemId, inventoryManager, station);
      assert RetrieveBody(index, before, itemId, station.stationId) == FetchBody(index, checked, itemId, station.stationId);
      assert RetrieveLog(index, before, itemId, station.stationId)
          == CheckLog(before) + FetchLog(index, checked, itemId, station.stationId);
    }

    /** A retrieval once the battery check has passed: look the item up, reach
        for it and deliver it to the station, or log that it is not in the
        inventory. */
    method FetchAndStage(itemId: string, inventoryManager: InventoryManager, station: PackagingStation)
      returns (ok: bool)
      requires Valid()
      modifies this`batteryLevel, this`status, this`operationLog,
               navigation`currentLocation, navigation`obstacleEvents, navigation`moves,
               sensors`readings, gripper`status, gripper`carriedItems, station`stagedItems
      ensures Valid()
      ensures status == Retrieving
      ensures ok == FetchesAt(inventoryManager.warehouse.inventoryIndex, old(Snapshot()), itemId)
      ensures Snapshot() == FetchBody(inventoryManager.warehouse.inventoryIndex, old(Snapshot()), itemId, station.stationId)
      ensures operationLog == old(operationLog)
                + FetchLog(inventoryManager.warehouse.inventoryIndex, old(Snapshot()), itemId, station.stationId)
      ensures !ok ==> station.stagedItems == old(station.stagedItems)
      ensures ok ==>
        && itemId in inventoryManager.warehouse.inventoryIndex
        && station.stagedItems == old(station.stagedItems) + [inventoryManager.warehouse.inventoryIndex[itemId].item]
    {
      status := Retrieving;
      Log(StartRetrieving(itemId));
      var record := inventoryManager.GetItemRecord(itemId);
      if record.None? {
        Log(ItemNotFound(itemId));
        return false;
      }
      ok := CarryToStation(itemId, record.value.item, record.value.location, station);
    }

    /** The retrieval proper, for a known item: reach for it at `location`,
        grip it, carry it to the station and stage it there. */
    method CarryToStation(itemId: string, item: Item, location: string, station: PackagingStation)
      returns (ok: bool)
      requires Valid()
      modifies this`batteryLevel, this`operationLog,
               navigation`currentLocation, navigation`obstacleEvents, navigation`moves,
               sensors`readings, gripper`status, gripper`carriedItems, station`stagedItems
      ensures Valid()
      ensures ok == Carries(old(Snapshot()))
      ensures Snapshot() == CarryBody(old(Snapshot()), item, location, station.stationId)
      ensures operationLog == old(operationLog) + CarryLog(old(Snapshot()), itemId, item, location, station.stationId)
      ensures !ok ==> station.stagedItems == old(station.stagedItems)
      ensures ok ==> station.stagedItems == old(station.stagedItems) + [item]
    {
      var picked := ReachAndPick(itemId, item, location);
      if !picked {
        return false;
      }
      ghost var held := old(gripper.carriedItems) + [item];
      assert gripper.carriedItems == held && held[|held| - 1] == item;
      ok := DeliverAndStage(itemId, station);
    }

    /** The first half of a retrieval: navigate to the item, pay for the move,
        confirm it with a scan and grip it. */
    method ReachAndPick(itemId: string, item: Item, location: string) returns (ok: bool)
      requires Valid()
      modifies this`batteryLevel, this`operationLog,
               navigation`currentLocation, navigation`obstacleEvents, navigation`moves,
               sensors`readings, gripper`status, gripper`carriedItems
      ensures Valid()
      ensures ok == Reaches(old(Snapshot()))
      ensures Snapshot() == ReachBody(old(Snapshot()), item, location)
      ensures operationLog == old(operationLog) + ReachLog(old(Snapshot()), itemId, location)
    {
      var there := navigation.MoveTo(location, automationMode);
      if !there {
        Log(NavigationFailed(location));
        return false;
      }
      ConsumeBattery(config.navigationCost);
      var seen := sensors.ScanLocation(location, automationMode);
      if !seen {
        Log(SensorFailed(itemId, location));
        return false;
      }
      gripper.PickItem(item);
      return true;
    }

    /** The second half of a retrieval: navigate to the station, pay for the
        move, drop the last gripped item there and pay for the retrieval. With
        nothing in the gripper it fails without staging anything. */
    method DeliverAndStage(itemId: string, station: PackagingStation) returns (ok: bool)
      requires Valid()
      modifies this`batteryLevel, this`operationLog,
               navigation`currentLocation, navigation`obstacleEvents, navigation`moves,
               gripper`status, gripper`carriedItems, station`stagedItems
      ensures Valid()
      ensures ok == (MoveArrives(old(Snapshot())) && old(gripper.carriedItems) != [])
      ensures Snapshot() == DeliverBody(old(Snapshot()), station.stationId)
      ensures operationLog == old(operationLog) + DeliverLog(old(Snapshot()), itemId, station.stationId)
      ensures !ok ==> station.stagedItems == old(station.stagedItems)
      ensures ok ==>
        station.stagedItems == old(station.stagedItems) + [old(gripper.carriedItems)[|old(gripper.carriedItems)| - 1]]
    {
      var back := navigation.MoveTo(station.stationId, automationMode);
      if !back {
        Log(StationUnreachable(station.stationId));
        return false;
      }
      ConsumeBattery(config.navigationCost);
      var dropped := gripper.DropItem();
      if dropped.None? {
        Log(GripperEmpty(itemId));
        return false;
      }
      station.ReceiveStagedItem(dropped.value);
      ConsumeBattery(config.retrievalCost);
      Log(Staged(itemId, station.stationId, batteryLevel));
      return true;
    }

    /** `pack_order`: battery check, then the staging area is emptied and its
        items are packed in the optimiser's order (heaviest first), the order is
        recorded at the station and one packing cost is spent. An empty staging
        area is a success that records nothing and costs nothing. Packing fails
        only when the battery check does. */
    method PackOrder(task: Task, station: PackagingStation) returns (ok: bool, ghost packed: seq<Item>)
      requires Valid()
      modifies this`batteryLevel, this`status, this`operationLog,
               navigation`currentLocation, navigation`obstacleEvents, navigation`moves,
               packingOptimizer`packingStack, station`stagedItems, station`packedOrders
      ensures Valid()
      ensures old(operationLog) <= operationLog
      ensures ok == PassesAt(old(Snapshot()))
      ensures Snapshot() == PackBody(old(Snapshot()), old(station.stagedItems) != [])
      ensures !ok ==>
        && packed == []
        && status == Charging
        && station.stagedItems == old(station.stagedItems)
        && station.packedOrders == old(station.packedOrders)
        && packingOptimizer.packingStack == old(packingOptimizer.packingStack)
        && operationLog == old(operationLog) + CheckLog(old(Snapshot()))
      ensures ok ==> station.stagedItems == [] && status == Packing
      ensures ok && old(station.stagedItems) == [] ==>
        && packed == []
        && station.packedOrders == old(station.packedOrders)
        && packingOptimizer.packingStack == old(packingOptimizer.packingStack)
        && operationLog == old(operationLog) + CheckLog(old(Snapshot())) + [PackingStarted(0, task.orderId), NothingToPack]
      ensures ok && old(station.stagedItems) != [] ==>
        && packed == Reverse(SortByWeight(old(station.stagedItems)))
        && station.packedOrders == old(station.packedOrders) + [task.orderId]
        && packingOptimizer.packingStack == []
        && operationLog == old(operationLog) + CheckLog(old(Snapshot()))
             + [PackingStarted(|packed|, task.orderId)] + [OptimizingSequence]
             + PackLog(packed, |packed|) + [OrderPackaged(task.orderId, batteryLevel)]
    {
      packed := [];
      var charged := CheckBatteryAndCharge();
      if !charged {
        return false, packed;
      }
      ghost var checked := operationLog;
      packed := PackStation(task, station);
      PrefixTrans(old(operationLog), checked, operationLog);
      return true, packed;
    }

    /** `pack_order` once the battery check has passed. */
    method PackStation(task: Task, station: PackagingStation) returns (ghost packed: seq<Item>)
      requires Valid()
      modifies this`batteryLevel, this`status, this`operationLog, packingOptimizer`packingStack,
               station`stagedItems, station`packedOrders
      ensures Valid()
      ensures old(operationLog) <= operationLog
      ensures station.stagedItems == [] && status == Packing
      ensures old(station.stagedItems) == [] ==>
        && packed == []
        && station.packedOrders == old(station.packedOrders)
        && batteryLevel == old(batteryLevel)
        && packingOptimizer.packingStack == old(packingOptimizer.packingStack)
        && operationLog == old(operationLog) + [PackingStarted(0, task.orderId), NothingToPack]
      ensures old(station.stagedItems) != [] ==>
        && packed == Reverse(SortByWeight(old(station.stagedItems)))
        && station.packedOrders == old(station.packedOrders) + [task.orderId]
        && batteryLevel == Consumed(old(batteryLevel), config.packingCost)
        && packingOptimizer.packingStack == []
        && operationLog == old(operationLog)
             + [PackingStarted(|packed|, task.orderId)] + [OptimizingSequence]
             + PackLog(packed, |packed|) + [OrderPackaged(task.orderId, batteryLevel)]
    {
      packed := [];
      status := Packing;
      var items := station.GetStagedItemsForPacking();
      Log(PackingStarted(|items|, task.orderId));
      ghost var started := operationLog;
      if items == [] {
        Log(NothingToPack);
        PrefixTrans(old(operationLog), started, operationLog);
        return packed;
      }
      packed := PackAndRecord(task, station, items);
      PrefixTrans(old(operationLog), started, operationLog);
    }

    /** Packs the drained staging area `items`, records the order at the
        station, pays the packing cost and logs the package. */
    method PackAndRecord(task: Task, station: PackagingStation, items: seq<Item>) returns (ghost packed: seq<Item>)
      requires Valid()
      modifies this`batteryLevel, this`operationLog, packingOptimizer`packingStack, station`packedOrders
      ensures Valid()
      ensures packed == Reverse(SortByWeight(items)) && |packed| == |items|
      ensures station.packedOrders == old(station.packedOrders) + [task.orderId]
      ensures batteryLevel == Consumed(old(batteryLevel), config.packingCost)
      ensures packingOptimizer.packingStack == []
      ensures old(operationLog) <= operationLog
      ensures operationLog == old(operationLog) + [OptimizingSequence]
                + PackLog(packed, |items|) + [OrderPackaged(task.orderId, batteryLevel)]
    {
      ghost var level := batteryLevel;
      packed := PackStaged(items);
      assert batteryLevel == level;
      RecordPackage(task, station);
    }

    /** The end of `pack_order`: the station records the order, the packing
        cost is paid and the package is logged. */
    method RecordPackage(task: Task, station: PackagingStation)
      requires Valid()
      modifies this`batteryLevel, this`operationLog, station`packedOrders
      ensures Valid()
      ensures station.packedOrders == old(station.packedOrders) + [task.orderId]
      ensures batteryLevel == Consumed(old(batteryLevel), config.packingCost)
      ensures operationLog == old(operationLog) + [OrderPackaged(task.orderId, batteryLevel)]
    {
      station.ReceiveOrder(task.orderId);
      ConsumedBounds(batteryLevel, config.packingCost);
      ConsumeBattery(config.packingCost);
      Log(OrderPackaged(task.orderId, batteryLevel));
    }

    /** The packing loop of `pack_order`: the optimiser orders the items, then
        they are popped and logged one by one until the stack is empty. */
    method PackStaged(items: seq<Item>) returns (ghost packed: seq<Item>)
      modifies this`operationLog, packingOptimizer`packingStack
      ensures packed == Reverse(SortByWeight(items)) && |packed| == |items|
      ensures packingOptimizer.packingStack == []
      ensures operationLog == old(operationLog) + [OptimizingSequence] + PackLog(packed, |items|)
    {
      packingOptimizer.PreparePackingSequence(items);
      Log(OptimizingSequence);
      PackedLength(items);
      packed := PackAll(|items|);
    }

    /** One pass of the packing loop: pop the optimiser's top item and, if
        there was one, log it as item `count + 1` of `total`. */
    method PackNext(count: nat, total: nat) returns (item: Option<Item>)
      modifies this`operationLog, packingOptimizer`packingStack
      ensures item.None? ==> old(packingOptimizer.packingStack) == packingOptimizer.packingStack == [] && operationLog == old(operationLog)
      ensures item.Some? ==>
        && old(packingOptimizer.packingStack) == packingOptimizer.packingStack + [item.value]
        && operationLog == old(operationLog) + [PackedItem(count + 1, total, item.value)]
    {
      item := packingOptimizer.GetNextItemToPack();
      if item.Some? {
        Log(PackedItem(count + 1, total, item.value));
      }
    }

    /** Pops the optimiser's stack to the end, logging item `k` of `total` for
        each pop: the items come off top first. */
    method PackAll(total: nat) returns (ghost packed: seq<Item>)
      modifies this`operationLog, packingOptimizer`packingStack
      ensures packed == Reverse(old(packingOptimizer.packingStack))
      ensures packingOptimizer.packingStack == []
      ensures operationLog == old(operationLog) + PackLog(packed, total)
    {
      ghost var stack0, log0 := packingOptimizer.packingStack, operationLog;
      var packCount: nat := 0;
      packed := [];
      while true
        invariant stack0 == packingOptimizer.packingStack + Reverse(packed)
        invariant packCount == |packed|
        invariant operationLog == log0 + PackLog(packed, total)
        decreases |packingOptimizer.packingStack|
      {
        ghost var stackBefore, logBefore := packingOptimizer.packingStack, operationLog;
        var item := PackNext(packCount, total);
        if item.None? {
          break;
        }
        PopStep(stack0, stackBefore, packingOptimizer.packingStack, packed, item.value);
        PackLogStep(log0, logBefore, operationLog, packed, item.value, total);
        packed := packed + [item.value];
        packCount := packCount + 1;
      }
      assert stack0 == Reverse(packed);
      ReverseInvolution(packed);
    }

    /** One pass of the retrieval loop: announce item `idx + 1` of `|ids|`, then
        retrieve and stage it. */
    method StageItem(idx: nat, ids: seq<string>, inventoryManager: InventoryManager, station: PackagingStation)
      returns (ok: bool)
      requires Valid() && idx < |ids|
      modifies this`batteryLevel, this`status, this`operationLog,
               navigation`currentLocation, navigation`obstacleEvents, navigation`moves,
               sensors`readings, gripper`status, gripper`carriedItems, station`stagedItems
      ensures Valid()
      ensures old(operationLog) <= operationLog
      ensures ok == RetrievesAt(inventoryManager.warehouse.inventoryIndex, old(Snapshot()), ids[idx])
      ensures Snapshot() == RetrieveBody(inventoryManager.warehouse.inventoryIndex, old(Snapshot()), ids[idx], station.stationId)
      ensures operationLog == old(operationLog) + [RetrievingItem(idx + 1, |ids|)]
                + RetrieveLog(inventoryManager.warehouse.inventoryIndex, old(Snapshot()), ids[idx], station.stationId)
      ensures status == (if PassesAt(old(Snapshot())) then Retrieving else Charging)
      ensures !ok ==> station.stagedItems == old(station.stagedItems)
      ensures ok ==>
        && ids[idx] in inventoryManager.warehouse.inventoryIndex
        && station.stagedItems == old(station.stagedItems) + [inventoryManager.warehouse.inventoryIndex[ids[idx]].item]
    {
      Log(RetrievingItem(idx + 1, |ids|));
      ok := RetrieveAndStageOneItem(ids[idx], inventoryManager, station);
    }

    /** The retrieval loop of `execute_workflow`: items are retrieved in order
        and the loop stops at the first failure. Staged are exactly the items of
        the ids retrieved so far, and all ids were retrieved iff none failed. */
    method StageAll(ids: seq<string>, inventoryManager: InventoryManager, station: PackagingStation)
      returns (allStaged: bool, ghost staged: nat)
      requires Valid()
      modifies this`batteryLevel, this`status, this`operationLog,
               navigation`currentLocation, navigation`obstacleEvents, navigation`moves,
               sensors`readings, gripper`status, gripper`carriedItems, station`stagedItems
      ensures Valid()
      ensures old(operationLog) <= operationLog
      ensures staged <= |ids|
      ensures allStaged <==> staged == |ids|
      ensures station.stagedItems == old(station.stagedItems) + ItemsFor(inventoryManager.warehouse.inventoryIndex, ids[..staged])
      ensures |ItemsFor(inventoryManager.warehouse.inventoryIndex, ids[..staged])| == staged
      ensures staged == LeadingRetrievals(inventoryManager.warehouse.inventoryIndex, old(Snapshot()), ids, station.stationId)
      ensures Snapshot() == StagingBody(inventoryManager.warehouse.inventoryIndex, old(Snapshot()), ids, station.stationId)
    {
      allStaged := true;
      staged := 0;
      ghost var log0, staged0, start := operationLog, station.stagedItems, Snapshot();
      for idx := 0 to |ids|
        invariant Valid()
        invariant allStaged && staged == idx
        invariant log0 <= operationLog
        invariant StagedSoFar(inventoryManager.warehouse.inventoryIndex, station.stationId, ids, idx, staged0, start,
                              station.stagedItems, Snapshot())
      {
        ghost var logBefore := operationLog;
        var ok := StageStep(idx, ids, inventoryManager, station, staged0, start);
        PrefixTrans(log0, logBefore, operationLog);
        if !ok {
          allStaged := false;
          break;
        }
        staged := staged + 1;
      }
      assert staged == LeadingRetrievals(inventoryManager.warehouse.inventoryIndex, start, ids, station.stationId);
    }

    /** One turn of the retrieval loop, stated against the items staged so far:
        a failure is the end of the leading retrievals and leaves the body the
        failed retrieval leaves; a success keeps the loop's invariant. */
    method StageStep(idx: nat, ids: seq<string>, inventoryManager: InventoryManager, station: PackagingStation,
                     ghost prefix: seq<Item>, ghost start: Body)
      returns (ok: bool)
      requires Valid() && idx < |ids|
      requires StagedSoFar(inventoryManager.warehouse.inventoryIndex, station.stationId, ids, idx, prefix, start,
                           station.stagedItems, Snapshot())
      modifies this`batteryLevel, this`status, this`operationLog,
               navigation`currentLocation, navigation`obstacleEvents, navigation`moves,
               sensors`readings, gripper`status, gripper`carriedItems, station`stagedItems
      ensures Valid()
      ensures old(operationLog) <= operationLog
      ensures !ok ==> station.stagedItems == old(station.stagedItems)
      ensures ok == RetrievesAt(inventoryManager.warehouse.inventoryIndex, old(Snapshot()), ids[idx])
      ensures !ok ==>
        && LeadingRetrievals(inventoryManager.warehouse.inventoryIndex, start, ids, station.stationId) == idx
        && Snapshot() == RetrieveBody(inventoryManager.warehouse.inventoryIndex,
                                      AfterRetrievals(inventoryManager.warehouse.inventoryIndex, start, ids, station.stationId, idx),
                                      ids[idx], station.stationId)
      ensures ok ==> StagedSoFar(inventoryManager.warehouse.inventoryIndex, station.stationId, ids, idx + 1, prefix, start,
                                 station.stagedItems, Snapshot())
    {
      ghost var before, staged := Snapshot(), station.stagedItems;
      ok := StageItem(idx, ids, inventoryManager, station);
      StagedStep(inventoryManager.warehouse.inventoryIndex, station.stationId, ids, idx, prefix, start,
                 staged, before, station.stagedItems, Snapshot(), ok);
    }

    /** `execute_workflow`: takes the next task, if any, stages its items one by
        one and packs them. With an empty queue only the log changes. Otherwise
        the task leaves the queue for good, the robot's body ends as `TaskBody`
        says, and the task is recorded as completed iff `RunTask` completes it. */
    method ExecuteWorkflow(taskManager: TaskManager, inventoryManager: InventoryManager, station: PackagingStation)
      returns (ghost completed: bool, ghost staged: nat)
      requires Valid()
      modifies this`batteryLevel, this`status, this`operationLog,
               navigation`currentLocation, navigation`obstacleEvents, navigation`moves,
               sensors`readings, gripper`status, gripper`carriedItems, packingOptimizer`packingStack, station`stagedItems, station`packedOrders,
               taskManager`taskQueue, taskManager`completedTasks
      ensures Valid()
      ensures old(operationLog) <= operationLog
      ensures old(taskManager.taskQueue) == [] ==>
        && !completed
        && operationLog == old(operationLog) + [QueueEmpty]
        && Snapshot() == old(Snapshot()) && status == old(status)
        && packingOptimizer.packingStack == old(packingOptimizer.packingStack)
        && station.stagedItems == old(station.stagedItems)
        && station.packedOrders == old(station.packedOrders)
        && taskManager.taskQueue == [] && taskManager.completedTasks == old(taskManager.completedTasks)
      ensures old(taskManager.taskQueue) != [] ==>
        var task := old(taskManager.taskQueue)[0];
        && taskManager.taskQueue == old(taskManager.taskQueue)[1..]
        && taskManager.completedTasks == old(taskManager.completedTasks) + (if completed then [task.taskId] else [])
        && staged <= |task.itemIds|
        && (completed ==> status == Idle && station.stagedItems == [])
        && (!completed ==> status == Error)
        && (!completed ==>
              && station.stagedItems == old(station.stagedItems) + ItemsFor(inventoryManager.warehouse.inventoryIndex, task.itemIds[..staged])
              && station.packedOrders == old(station.packedOrders))
        && (completed && (old(station.stagedItems) != [] || task.itemIds != []) ==>
              && station.packedOrders == old(station.packedOrders) + [task.orderId]
              && packingOptimizer.packingStack == [])
        && (!(completed && (old(station.stagedItems) != [] || task.itemIds != [])) ==>
              packingOptimizer.packingStack == old(packingOptimizer.packingStack))
        && staged == LeadingRetrievals(inventoryManager.warehouse.inventoryIndex, old(Snapshot()), task.itemIds, station.stationId)
        && (completed <==>
              && staged == |task.itemIds|
              && PassesAt(StagingBody(inventoryManager.warehouse.inventoryIndex, old(Snapshot()), task.itemIds,
                                      station.stationId)))
        && Snapshot() == TaskBody(inventoryManager.warehouse.inventoryIndex, old(Snapshot()), task.itemIds,
                                  station.stationId, old(station.stagedItems) != [])
    {
      var next := taskManager.GetNextTask();
      if next.None? {
        Log(QueueEmpty);
        return false, 0;
      }
      var task := next.value;
      Log(ProcessingOrder(task.orderId, |task.itemIds|));
      var done;
      done, staged := RunTask(task, inventoryManager, station);
      if done {
        taskManager.completedTasks := taskManager.completedTasks + [task.taskId];
      }
      completed := done;
    }

    /** The packing half of `execute_workflow` for a task whose items were all
        staged: the task completes, with the robot IDLE, iff the battery check
        passes; otherwise the robot is in ERROR and nothing is packed. */
    method FinishTask(task: Task, station: PackagingStation) returns (completed: bool)
      requires Valid()
      modifies this`batteryLevel, this`status, this`operationLog,
               navigation`currentLocation, navigation`obstacleEvents, navigation`moves,
               packingOptimizer`packingStack, station`stagedItems, station`packedOrders
      ensures Valid()
      ensures old(operationLog) <= operationLog
      ensures completed == PassesAt(old(Snapshot()))
      ensures Snapshot() == PackBody(old(Snapshot()), old(station.stagedItems) != [])
      ensures completed ==> status == Idle && station.stagedItems == []
      ensures !completed ==>
        && status == Error
        && station.stagedItems == old(station.stagedItems)
        && station.packedOrders == old(station.packedOrders)
      ensures completed && old(station.stagedItems) != [] ==>
        station.packedOrders == old(station.packedOrders) + [task.orderId] && packingOptimizer.packingStack == []
      ensures !(completed && old(station.stagedItems) != []) ==>
        packingOptimizer.packingStack == old(packingOptimizer.packingStack)
    {
      var packedOk, packed := PackOrder(task, station);
      ghost var packing := operationLog;
      if packedOk {
        status := Idle;
        Log(OrderComplete(task.orderId));
        completed := true;
      } else {
        status := Error;
        Log(PackingFailed(task.orderId));
        completed := false;
      }
      PrefixTrans(old(operationLog), packing, operationLog);
    }

    /** The body of `execute_workflow` for one task. The task completes, with
        the robot IDLE, iff every item was staged and packing succeeded. Any
        failure leaves the robot in ERROR and packs nothing: a retrieval failure
        also empties the gripper and leaves staged what was retrieved so far; a
        packing failure (a failed battery check) leaves every item staged. */
    method RunTask(task: Task, inventoryManager: InventoryManager, station: PackagingStation)
      returns (completed: bool, ghost staged: nat)
      requires Valid()
      modifies this`batteryLevel, this`status, this`operationLog,
               navigation`currentLocation, navigation`obstacleEvents, navigation`moves,
               sensors`readings, gripper`status, gripper`carriedItems, packingOptimizer`packingStack, station`stagedItems, station`packedOrders
      ensures Valid()
      ensures old(operationLog) <= operationLog
      ensures staged <= |task.itemIds|
      ensures completed ==> status == Idle && station.stagedItems == []
      ensures !completed ==> status == Error
      ensures !completed ==>
        && station.stagedItems == old(station.stagedItems) + ItemsFor(inventoryManager.warehouse.inventoryIndex, task.itemIds[..staged])
        && station.packedOrders == old(station.packedOrders)
      ensures completed && (old(station.stagedItems) != [] || task.itemIds != []) ==>
        station.packedOrders == old(station.packedOrders) + [task.orderId] && packingOptimizer.packingStack == []
      ensures !(completed && (old(station.stagedItems) != [] || task.itemIds != [])) ==>
        packingOptimizer.packingStack == old(packingOptimizer.packingStack)
      ensures staged == LeadingRetrievals(inventoryManager.warehouse.inventoryIndex, old(Snapshot()), task.itemIds, station.stationId)
      ensures completed <==>
        && staged == |task.itemIds|
        && PassesAt(StagingBody(inventoryManager.warehouse.inventoryIndex, old(Snapshot()), task.itemIds,
                                station.stationId))
      ensures Snapshot() == TaskBody(inventoryManager.warehouse.inventoryIndex, old(Snapshot()), task.itemIds,
                                     station.stationId, old(station.stagedItems) != [])
    {
      ghost var index, before := inventoryManager.warehouse.inventoryIndex, Snapshot();
      var allStaged;
      allStaged, staged := StageAll(task.itemIds, inventoryManager, station);
      ghost var staging, mid, stagedNow := operationLog, Snapshot(), station.stagedItems;
      if allStaged {
        assert task.itemIds[..staged] == task.itemIds;
      }
      assert allStaged ==> (stagedNow != []) == (old(station.stagedItems) != [] || task.itemIds != []);
      completed := ConcludeTask(task, station, allStaged);
      assert !completed ==> station.stagedItems == stagedNow;
      TaskSteps(index, before, task.itemIds, station.stationId, old(station.stagedItems) != [], mid, Snapshot());
      PrefixTrans(old(operationLog), staging, operationLog);
    }

    /** The end of `execute_workflow`: the order is packed when every item was
        staged, and the task is abandoned otherwise. */
    method ConcludeTask(task: Task, station: PackagingStation, allStaged: bool) returns (completed: bool)
      requires Valid()
      modifies this`batteryLevel, this`status, this`operationLog,
               navigation`currentLocation, navigation`obstacleEvents, navigation`moves,
               gripper`status, gripper`carriedItems, packingOptimizer`packingStack, station`stagedItems, station`packedOrders
      ensures Valid()
      ensures old(operationLog) <= operationLog
      ensures completed == (allStaged && PassesAt(old(Snapshot())))
      ensures Snapshot() == if allStaged then PackBody(old(Snapshot()), old(station.stagedItems) != [])
                            else old(Snapshot()).(carried := [], grip := Open)
      ensures completed ==> status == Idle && station.stagedItems == []
      ensures !completed ==>
        && status == Error
        && station.stagedItems == old(station.stagedItems)
        && station.packedOrders == old(station.packedOrders)
      ensures completed && old(station.stagedItems) != [] ==>
        station.packedOrders == old(station.packedOrders) + [task.orderId] && packingOptimizer.packingStack == []
      ensures !(completed && old(station.stagedItems) != []) ==>
        packingOptimizer.packingStack == old(packingOptimizer.packingStack)
    {
      if allStaged {
        completed := FinishTask(task, station);
      } else {
        AbandonTask(task);
        completed := false;
      }
    }

    /** The failure path of `execute_workflow` once a retrieval has failed:
        the robot goes to ERROR, the gripper is emptied and the failure is
        logged. */
    method AbandonTask(task: Task)
      modifies this`status, this`operationLog, gripper`status, gripper`carriedItems
      ensures status == Error && gripper.carriedItems == [] && gripper.status == Open
      ensures operationLog == old(operationLog) + [RetrievalFailed(task.orderId)]
      ensures old(operationLog) <= operationLog
    {
      status := Error;
      gripper.ClearItems();
      Log(RetrievalFailed(task.orderId));
    }
  }
}
