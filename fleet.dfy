/** The polymorphic warehouse-robot fleet of Unit05 (Portfolio_Activity_Unit_5_polymorphism.py).
    The base class and its three subclasses become one class whose `kind`
    records which subclass an object is, together with that subclass's own
    constructor argument. */
module Fleet {

  datatype RobotKind =
    | GenericKind
    | HumanoidKind(gripperType: string)
    | TransportKind(loadCapacity: real)
    | InventoryKind(scannerType: string)

  /** Battery drained by one `perform_task` of an active robot of `kind`. */
  function TaskDrain(kind: RobotKind): (d: real)
    ensures d >= 0.0
    ensures d == 0.0 <==> kind.GenericKind?
  {
    match kind
    case GenericKind => 0.0
    case HumanoidKind(_) => 5.0
    case TransportKind(_) => 8.0
    case InventoryKind(_) => 3.0
  }

  /** Activation needs more than 10 percent battery. */
  predicate CanActivate(batteryLevel: real) {
    batteryLevel > 10.0
  }

  class WarehouseRobot {
    const robotId: string
    const batteryCapacity: real
    const kind: RobotKind
    var batteryLevel: real
    var isActive: bool
    var itemsCarried: seq<string>
    var currentLoad: real
    var itemsScanned: nat

    /** A transport robot never carries more than its capacity. */
    predicate WithinCapacity()
      reads this`currentLoad
    {
      kind.TransportKind? ==> currentLoad <= kind.loadCapacity
    }

    /** `WarehouseRobot(robot_id, battery_capacity)`: full battery, inactive. */
    constructor (robotId: string, batteryCapacity: real)
      ensures this.robotId == robotId && this.batteryCapacity == batteryCapacity && kind == GenericKind
      ensures batteryLevel == batteryCapacity && !isActive
    {
      this.robotId := robotId;
      this.batteryCapacity := batteryCapacity;
      kind := GenericKind;
      batteryLevel := batteryCapacity;
      isActive := false;
    }

    /** `HumanoidRobot(robot_id, battery_capacity, gripper_type)`. */
    constructor Humanoid(robotId: string, batteryCapacity: real, gripperType: string)
      ensures this.robotId == robotId && this.batteryCapacity == batteryCapacity
      ensures kind == HumanoidKind(gripperType)
      ensures batteryLevel == batteryCapacity && !isActive && itemsCarried == []
    {
      this.robotId := robotId;
      this.batteryCapacity := batteryCapacity;
      kind := HumanoidKind(gripperType);
      batteryLevel := batteryCapacity;
      isActive := false;
      itemsCarried := [];
    }

    /** `TransportRobot(robot_id, battery_capacity, load_capacity)`: starts
        empty, so it is within capacity whenever the capacity is not negative. */
    constructor Transport(robotId: string, batteryCapacity: real, loadCapacity: real)
      ensures this.robotId == robotId && this.batteryCapacity == batteryCapacity
      ensures kind == TransportKind(loadCapacity)
      ensures batteryLevel == batteryCapacity && !isActive && currentLoad == 0.0
      ensures WithinCapacity() <==> loadCapacity >= 0.0
    {
      this.robotId := robotId;
      this.batteryCapacity := batteryCapacity;
      kind := TransportKind(loadCapacity);
      batteryLevel := batteryCapacity;
      isActive := false;
      currentLoad := 0.0;
    }

    /** `InventoryRobot(robot_id, battery_capacity, scanner_type)`. */
    constructor Inventory(robotId: string, batteryCapacity: real, scannerType: string)
      ensures this.robotId == robotId && this.batteryCapacity == batteryCapacity
      ensures kind == InventoryKind(scannerType)
      ensures batteryLevel == batteryCapacity && !isActive && itemsScanned == 0
    {
      this.robotId := robotId;
      this.batteryCapacity := batteryCapacity;
      kind := InventoryKind(scannerType);
      batteryLevel := batteryCapacity;
      isActive := false;
      itemsScanned := 0;
    }

    /** `activate`: switches on only above 10 percent; otherwise nothing changes. */
    method Activate()
      modifies this`isActive
      ensures isActive == (CanActivate(batteryLevel) || old(isActive))
    {
      if batteryLevel > 10.0 {
        isActive := true;
      }
    }

    /** `deactivate`: the robot is inactive afterwards, whatever it was before. */
    method Deactivate()
      modifies this`isActive
      ensures !isActive
    {
      if isActive {
        isActive := false;
      }
    }

    /** `perform_task` of each subclass: an active robot loses its kind's drain,
        with no lower bound; an inactive one is untouched. */
    method PerformTask()
      modifies this`batteryLevel
      ensures isActive ==> batteryLevel == old(batteryLevel) - TaskDrain(kind)
      ensures !isActive ==> batteryLevel == old(batteryLevel)
    {
      if isActive {
        match kind
        case GenericKind =>
        case HumanoidKind(_) => batteryLevel := batteryLevel - 5.0;
        case TransportKind(_) => batteryLevel := batteryLevel - 8.0;
        case InventoryKind(_) => batteryLevel := batteryLevel - 3.0;
      }
    }

    /** `HumanoidRobot.pick_item`: carried only while active. */
    method PickItem(itemName: string)
      requires kind.HumanoidKind?
      modifies this`itemsCarried
      ensures itemsCarried == if isActive then old(itemsCarried) + [itemName] else old(itemsCarried)
    {
      if isActive {
        itemsCarried := itemsCarried + [itemName];
      }
    }

    /** `TransportRobot.load_pallet`: the weight is added only while active and
        when the total stays within capacity, so capacity is never exceeded. */
    method LoadPallet(weight: real) returns (loaded: bool)
      requires kind.TransportKind?
      modifies this`currentLoad
      ensures loaded == (isActive && old(currentLoad) + weight <= kind.loadCapacity)
      ensures currentLoad == if loaded then old(currentLoad) + weight else old(currentLoad)
      ensures old(WithinCapacity()) ==> WithinCapacity()
      ensures loaded ==> WithinCapacity()
    {
      loaded := isActive && currentLoad + weight <= kind.loadCapacity;
      if loaded {
        currentLoad := currentLoad + weight;
      }
    }

    /** `InventoryRobot.scan_item`: counted only while active. */
    method ScanItem(itemId: string)
      requires kind.InventoryKind?
      modifies this`itemsScanned
      ensures itemsScanned == if isActive then old(itemsScanned) + 1 else old(itemsScanned)
    {
      if isActive {
        itemsScanned := itemsScanned + 1;
      }
    }
  }
}
