/** The robot's subsystems (subsystems.py): navigation and sensing with their
    random failures and operator prompts supplied as decision streams, the
    single-slot gripper, and the LIFO packing optimiser. */
module Subsystems {
  import opened Wrappers
  import opened Models
  import opened Sequences

  /** MODE_FULL_AUTO and MODE_SEMI_AUTO. */
  datatype Mode = FullAuto | SemiAuto

  // ---------------------------------------------------------------------------
  // Navigation

  /** The outside decisions one `move_to` call may consult: whether the random
      draw raises an obstacle, whether the operator answers "y" to the reroute
      prompt, whether the second random draw makes the reroute fail, and whether
      the operator answers "y" to the manual-retry prompt. The prompts are only
      consulted in Semi-Auto mode. */
  datatype NavDraw = NavDraw(obstacle: bool, acceptReroute: bool, rerouteFails: bool, retryAccepted: bool)

  /** A move arrives when there is no obstacle, or when the reroute is attempted
      (always in Full-Auto, on the operator's say-so in Semi-Auto) and either
      succeeds or, in Semi-Auto, is followed by an accepted manual retry. */
  predicate MoveSucceeds(mode: Mode, d: NavDraw): (ok: bool)
    ensures !d.obstacle ==> ok
    ensures d.obstacle && mode == SemiAuto && !d.acceptReroute ==> !ok
    ensures d.obstacle && (mode == SemiAuto ==> d.acceptReroute) && !d.rerouteFails ==> ok
    ensures d.obstacle && (mode == SemiAuto ==> d.acceptReroute) && d.rerouteFails ==>
      (ok <==> mode == SemiAuto && d.retryAccepted)
  {
    !d.obstacle ||
    ((mode == SemiAuto ==> d.acceptReroute) && (!d.rerouteFails || (mode == SemiAuto && d.retryAccepted)))
  }

  /** The obstacle events one move appends: the obstacle itself, then the failed
      reroute if a reroute was attempted and failed. */
  function ObstacleEvents(mode: Mode, d: NavDraw, location: string): seq<string> {
    (if d.obstacle then ["Obstacle en route to " + location] else [])
    + (if d.obstacle && (mode == SemiAuto ==> d.acceptReroute) && d.rerouteFails
       then ["Reroute failed to " + location] else [])
  }

  /** A move records no event iff there is no obstacle; otherwise the
      obstacle comes first, and a second event, the failed reroute, comes iff
      a reroute was attempted and failed, after which only a Semi-Auto retry
      makes the move arrive. */
  lemma ObstacleEventsShape(mode: Mode, d: NavDraw, location: string)
    ensures var events := ObstacleEvents(mode, d, location);
      && (events == [] <==> !d.obstacle)
      && (d.obstacle ==> events[0] == "Obstacle en route to " + location)
      && |events| <= 2
      && (|events| == 2 <==> d.obstacle && (mode == SemiAuto ==> d.acceptReroute) && d.rerouteFails)
      && (|events| == 2 ==> events[1] == "Reroute failed to " + location)
      && (|events| == 2 ==> (MoveSucceeds(mode, d) <==> mode == SemiAuto && d.retryAccepted))
  {
  }

  /** In Full-Auto a move fails exactly when an obstacle appears and the reroute
      fails. */
  lemma FullAutoMoveFails(d: NavDraw)
    ensures !MoveSucceeds(FullAuto, d) <==> d.obstacle && d.rerouteFails
  {
  }

  /** Full-Auto never consults the operator: the answers make no difference. */
  lemma FullAutoIgnoresOperator(d: NavDraw, accept: bool, retry: bool, location: string)
    ensures MoveSucceeds(FullAuto, d) == MoveSucceeds(FullAuto, d.(acceptReroute := accept, retryAccepted := retry))
    ensures ObstacleEvents(FullAuto, d, location)
         == ObstacleEvents(FullAuto, d.(acceptReroute := accept, retryAccepted := retry), location)
  {
  }

  /** The manual-retry success path exists only in Semi-Auto: a move that
      arrives although its reroute failed was retried by the operator there. */
  lemma ManualRetryOnlySemiAuto(mode: Mode, d: NavDraw)
    requires d.obstacle && d.rerouteFails && MoveSucceeds(mode, d)
    ensures mode == SemiAuto && d.acceptReroute && d.retryAccepted
  {
  }

  /** With an operator who answers "y" to every prompt, a Semi-Auto move always
      arrives, and Full-Auto moves arrive whenever Semi-Auto ones would. */
  lemma SemiAutoWithCooperativeOperator(d: NavDraw)
    ensures MoveSucceeds(SemiAuto, d.(acceptReroute := true, retryAccepted := true))
    ensures MoveSucceeds(FullAuto, d) ==> MoveSucceeds(SemiAuto, d.(acceptReroute := true, retryAccepted := true))
  {
  }

  class NavigationSystem {
    var currentLocation: string
    /** Append-only record of obstacles and failed reroutes. */
    var obstacleEvents: seq<string>
    /** The outside decision stream: move number `n` consults `draws(n)`. */
    const draws: nat -> NavDraw
    /** How many moves have been made, that is, the position in the stream. */
    var moves: nat

    constructor (home: string, draws: nat -> NavDraw)
      ensures currentLocation == home && obstacleEvents == [] && moves == 0 && this.draws == draws
    {
      currentLocation := home;
      obstacleEvents := [];
      this.draws := draws;
      moves := 0;
    }

    /** `move_to`: the location changes exactly when the move succeeds; the
        obstacle events only grow. */
    method MoveTo(location: string, mode: Mode) returns (ok: bool)
      modifies this`currentLocation, this`obstacleEvents, this`moves
      ensures var d := draws(old(moves));
        && ok == MoveSucceeds(mode, d)
        && obstacleEvents == old(obstacleEvents) + ObstacleEvents(mode, d, location)
      ensures ok ==> currentLocation == location
      ensures !ok ==> currentLocation == old(currentLocation)
      ensures moves == old(moves) + 1
    {
      var d := draws(moves);
      moves := moves + 1;
      if d.obstacle {
        obstacleEvents := obstacleEvents + ["Obstacle en route to " + location];
        if mode == SemiAuto {
          if !d.acceptReroute {
            return false;
          }
        }
        if d.rerouteFails {
          obstacleEvents := obstacleEvents + ["Reroute failed to " + location];
          if mode == SemiAuto {
            if d.retryAccepted {
              currentLocation := location;
              return true;
            }
          }
          return false;
        }
      }
      currentLocation := location;
      return true;
    }
  }

  // ---------------------------------------------------------------------------
  // Sensing

  /** The outside decisions of one `scan_location` call: whether the random draw
      is a success, and whether the operator answers "y" to the retry prompt
      (consulted only in Semi-Auto after a failure). */
  datatype ScanDraw = ScanDraw(success: bool, retryAccepted: bool)

  /** A scan succeeds when its random draw does, or, in Semi-Auto, when the
      operator accepts the retry after a failed draw. */
  predicate ScanSucceeds(mode: Mode, d: ScanDraw): (ok: bool)
    ensures d.success ==> ok
    ensures !d.success ==> (ok <==> mode == SemiAuto && d.retryAccepted)
  {
    d.success || (mode == SemiAuto && d.retryAccepted)
  }

  /** The reading a scan records: its first, random outcome. */
  function ScanReading(location: string, success: bool): string {
    "Scan " + location + ": " + (if success then "OK" else "FAIL")
  }

  /** A reading names the scanned location and ends in OK iff the random draw
      succeeded. */
  lemma ScanReadingShape(location: string, success: bool)
    ensures var reading := ScanReading(location, success);
      && "Scan " + location + ": " <= reading
      && (reading[|reading| - 2..] == "OK" <==> success)
  {
    var prefix, outcome := "Scan " + location + ": ", if success then "OK" else "FAIL";
    assert (prefix + outcome)[|prefix + outcome| - 2..] == outcome[|outcome| - 2..];
  }

  /** In Full-Auto a scan reports exactly its random outcome; only Semi-Auto can
      turn a failed draw into a success, and only by an accepted retry. */
  lemma ScanOutcome(mode: Mode, d: ScanDraw)
    ensures mode == FullAuto ==> (ScanSucceeds(mode, d) <==> d.success)
    ensures ScanSucceeds(mode, d) && !d.success ==> mode == SemiAuto && d.retryAccepted
  {
  }

  class SensorArray {
    /** Append-only record of scans, one per call. */
    var readings: seq<string>
    /** The outside decision stream: scan number `n` (the n-th reading)
        consults `draws(n)`. */
    const draws: nat -> ScanDraw

    constructor (draws: nat -> ScanDraw)
      ensures readings == [] && this.draws == draws
    {
      readings := [];
      this.draws := draws;
    }

    /** `scan_location`: appends exactly one reading per call, holding the random
        outcome, and reports success as ScanSucceeds says. */
    method ScanLocation(location: string, mode: Mode) returns (ok: bool)
      modifies this`readings
      ensures var d := draws(|old(readings)|);
        && readings == old(readings) + [ScanReading(location, d.success)]
        && ok == ScanSucceeds(mode, d)
    {
      var d := draws(|readings|);
      readings := readings + [ScanReading(location, d.success)];
      if !d.success {
        if mode == SemiAuto {
          if d.retryAccepted {
            return true;
          }
        }
        return false;
      }
      return true;
    }
  }

  // ---------------------------------------------------------------------------
  // Gripper

  datatype GripperStatus = Open | Closed

  class Gripper {
    var status: GripperStatus
    var carriedItems: seq<Item>

    constructor ()
      ensures status == Open && carriedItems == []
    {
      status := Open;
      carriedItems := [];
    }

    /** `pick_item`: holds the item and closes. */
    method PickItem(item: Item)
      modifies this`status, this`carriedItems
      ensures carriedItems == old(carriedItems) + [item] && status == Closed
    {
      carriedItems := carriedItems + [item];
      status := Closed;
    }

    /** `drop_item`: releases and returns the most recently picked item and
        opens; on an empty gripper returns none and changes nothing. */
    method DropItem() returns (r: Option<Item>)
      modifies this`status, this`carriedItems
      ensures old(carriedItems) == [] ==> r == None && carriedItems == [] && status == old(status)
      ensures old(carriedItems) != [] ==>
        && r == Some(old(carriedItems)[|old(carriedItems)| - 1])
        && carriedItems == old(carriedItems)[..|old(carriedItems)| - 1]
        && status == Open
    {
      if carriedItems == [] {
        return None;
      }
      r := Some(carriedItems[|carriedItems| - 1]);
      carriedItems := carriedItems[..|carriedItems| - 1];
      status := Open;
    }

    /** `clear_items`: error recovery, empty and open. */
    method ClearItems()
      modifies this`status, this`carriedItems
      ensures carriedItems == [] && status == Open
    {
      carriedItems := [];
      status := Open;
    }
  }

  /** Picking an item and dropping it gives the item back and restores what the
      gripper held before. */
  method PickThenDrop(g: Gripper, item: Item) returns (r: Option<Item>)
    modifies g`status, g`carriedItems
    ensures r == Some(item) && g.carriedItems == old(g.carriedItems) && g.status == Open
  {
    g.PickItem(item);
    r := g.DropItem();
    assert (old(g.carriedItems) + [item])[..|old(g.carriedItems)|] == old(g.carriedItems);
  }

  // ---------------------------------------------------------------------------
  // Packing optimiser

  predicate SortedByWeight(s: seq<Item>) {
    forall i, j :: 0 <= i < j < |s| ==> s[i].weight <= s[j].weight
  }

  predicate NonIncreasingWeight(s: seq<Item>) {
    forall i, j :: 0 <= i < j < |s| ==> s[i].weight >= s[j].weight
  }

  /** The order `sorted(items, key=lambda x: x.weight)` sorts by. */
  predicate LighterOrEqual(a: Item, b: Item) {
    a.weight <= b.weight
  }

  lemma WeightOrderTotal()
    ensures TotalPreorder(LighterOrEqual)
  {
  }

  /** `sorted(items, key=weight)`: ascending by weight and a permutation of the
      input; `SortByWeightStable` shows that equal weights keep their input
      order, as Python's sort is stable. */
  function SortByWeight(s: seq<Item>): (r: seq<Item>)
    ensures SortedByWeight(r)
    ensures multiset(r) == multiset(s)
  {
    WeightOrderTotal();
    SortBy(LighterOrEqual, s)
  }

  /** The items of `s` that weigh exactly `w`, in their order in `s`. */
  function OfWeight(w: real, s: seq<Item>): (r: seq<Item>)
    ensures |r| <= |s|
  {
    if s == [] then [] else (if s[0].weight == w then [s[0]] else []) + OfWeight(w, s[1..])
  }

  /** Insertion places `x` ahead of the items of its own weight and changes the
      order of no weight class. */
  lemma {:induction false} InsertByWeightOfWeight(w: real, x: Item, s: seq<Item>)
    ensures OfWeight(w, InsertBy(LighterOrEqual, x, s)) == (if x.weight == w then [x] else []) + OfWeight(w, s)
  {
    if s == [] || LighterOrEqual(x, s[0]) {
      assert ([x] + s)[1..] == s;
    } else {
      var r := InsertBy(LighterOrEqual, x, s[1..]);
      InsertByWeightOfWeight(w, x, s[1..]);
      assert ([s[0]] + r)[1..] == r;
    }
  }

  /** Stability: for every weight, the items of that weight come out of the
      sort in the order they went in. */
  lemma {:induction false} SortByWeightStable(w: real, s: seq<Item>)
    ensures OfWeight(w, SortByWeight(s)) == OfWeight(w, s)
  {
    if s != [] {
      WeightOrderTotal();
      SortByWeightStable(w, s[1..]);
      InsertByWeightOfWeight(w, s[0], SortByWeight(s[1..]));
    }
  }

  /** The packing order: popping a stack prepared from `items` until it is
      empty yields the items heaviest first, each exactly as often as it was
      staged. */
  lemma PackingOrder(items: seq<Item>)
    ensures NonIncreasingWeight(Reverse(SortByWeight(items)))
    ensures multiset(Reverse(SortByWeight(items))) == multiset(items)
  {
    var sorted := SortByWeight(items);
    var r := Reverse(sorted);
    ReverseMultiset(sorted);
    ReverseAt(sorted);
    forall i, j | 0 <= i < j < |r| ensures r[i].weight >= r[j].weight {
      assert r[i] == sorted[|sorted| - 1 - i] && r[j] == sorted[|sorted| - 1 - j];
    }
  }

  class PackingOptimizer {
    /** The packing stack, bottom first: the last element is the top. */
    var packingStack: seq<Item>

    constructor ()
      ensures packingStack == []
    {
      packingStack := [];
    }

    /** `prepare_packing_sequence`: drops whatever was left on the stack and
        pushes the items lightest first, so the heaviest ends on top. */
    method PreparePackingSequence(items: seq<Item>)
      modifies this`packingStack
      ensures packingStack == SortByWeight(items)
    {
      packingStack := [];
      var sorted := SortByWeight(items);
      for i := 0 to |sorted|
        invariant packingStack == sorted[..i]
      {
        packingStack := packingStack + [sorted[i]];
      }
    }

    /** `get_next_item_to_pack`: pops the top of the stack; none when empty. */
    method GetNextItemToPack() returns (r: Option<Item>)
      modifies this`packingStack
      ensures old(packingStack) == [] ==> r == None && packingStack == []
      ensures old(packingStack) != [] ==>
        && r == Some(old(packingStack)[|old(packingStack)| - 1])
        && packingStack == old(packingStack)[..|old(packingStack)| - 1]
        && old(packingStack) == packingStack + [r.value]
    {
      if packingStack == [] {
        return None;
      }
      r := Some(packingStack[|packingStack| - 1]);
      packingStack := packingStack[..|packingStack| - 1];
      assert old(packingStack) == packingStack + [r.value];
    }
  }

  /** Popping until none: the popped items are the stack read from the top, and
      the stack is left empty. */
  method DrainPackingStack(opt: PackingOptimizer) returns (popped: seq<Item>)
    modifies opt`packingStack
    ensures popped == Reverse(old(opt.packingStack)) && opt.packingStack == []
  {
    popped := [];
    while true
      invariant old(opt.packingStack) == opt.packingStack + Reverse(popped)
      decreases |opt.packingStack|
    {
      var next := opt.GetNextItemToPack();
      if next.None? {
        break;
      }
      ReverseSnoc(popped, next.value);
      popped := popped + [next.value];
    }
    assert old(opt.packingStack) == Reverse(popped);
    ReverseInvolution(popped);
  }
}
