/**
 * The fleet registry carousel: three robot cards on an endless ring. A
 * real-valued `position` is normalised to the active card's index, each
 * card's offset from the centre is wrapped into half a ring either side,
 * drag and wheel handlers move the target, and deploying navigates to the
 * active robot's page.
 */
module FleetRegistry {
  import opened Text

  datatype Robot = Robot(id: string, status: string, unitClass: string)

  const Robots: seq<Robot> := [
    Robot("V1-RG", "ONLINE", "EXPLORER"),
    Robot("K4ZU", "ENCRYPTED", "HEAVY_COMBAT"),
    Robot("ZN-01", "WAIT_LIST", "STEALTH")
  ]

  /** `ROBOTS.length`. */
  const Total: int := 3

  /** `Math.round`: the nearest integer, halves rounded up. */
  function Round(x: real): (n: int)
    ensures x - 0.5 < n as real <= x + 0.5
  {
    (x + 0.5).Floor
  }

  /**
   * JavaScript's `a % total`: the remainder takes the dividend's sign, so
   * it lies strictly between `-total` and `total`.
   */
  function JsRem(a: int): (r: int)
    ensures -Total < r < Total
    ensures a >= 0 ==> r >= 0
    ensures a < 0 ==> r <= 0
    ensures (a - r) % Total == 0
  {
    if a >= 0 then a % Total else -((-a) % Total)
  }

  /**
   * The polling sync's index: `Math.round(position) % total`, plus `total`
   * when negative. It always names a card, and the one congruent to the
   * rounded position.
   */
  function ActiveIndex(position: real): (idx: int)
    ensures 0 <= idx < Total
    ensures (Round(position) - idx) % Total == 0
  {
    var idx := JsRem(Round(position));
    if idx < 0 then idx + Total else idx
  }

  /** The two-step normalisation is the floored remainder of the rounded position. */
  lemma ActiveIndexIsModulo(position: real)
    ensures ActiveIndex(position) == Round(position) % Total
  {
    var n := Round(position);
    var idx := ActiveIndex(position);
    var q := (n - idx) / Total;
    assert n == q * Total + idx;
    ModuloUnique(n, q, idx);
  }

  lemma ModuloUnique(n: int, q: int, r: int)
    requires 0 <= r < Total && n == q * Total + r
    ensures n % Total == r
  {
  }

  /** A full turn of the ring selects the same card. */
  lemma ActiveIndexPeriodic(position: real, turns: int)
    ensures ActiveIndex(position + (turns * Total) as real) == ActiveIndex(position)
  {
    var n := Round(position);
    assert Round(position + (turns * Total) as real) == n + turns * Total;
    ActiveIndexIsModulo(position);
    ActiveIndexIsModulo(position + (turns * Total) as real);
    ModuloUnique(n + turns * Total, n / Total + turns, n % Total);
  }

  /**
   * The wrap loops for card `i`: starting from `i - position`, whole turns
   * are taken off while the offset is right of half the ring and added
   * while it is left of it. The result lies within half a ring of the
   * centre and differs from the start by `shift` whole turns.
   */
  method RelativePos(i: int, position: real) returns (relativePos: real, ghost shift: int)
    ensures -(Total as real) / 2.0 <= relativePos <= (Total as real) / 2.0
    ensures relativePos == (i as real - position) + (shift * Total) as real
  {
    var total := Total as real;
    relativePos := i as real - position;
    shift := 0;
    while relativePos > total / 2.0
      invariant relativePos == (i as real - position) + (shift * Total) as real
      decreases relativePos.Floor
    {
      relativePos := relativePos - total;
      shift := shift - 1;
    }
    while relativePos < -total / 2.0
      invariant relativePos <= total / 2.0
      invariant relativePos == (i as real - position) + (shift * Total) as real
      decreases (-relativePos).Floor
    {
      relativePos := relativePos + total;
      shift := shift + 1;
    }
  }

  /**
   * The card the render loop highlights (offset under half a card) is the
   * active card the sync reports.
   */
  lemma HighlightedIsActive(i: int, position: real, relativePos: real, shift: int)
    requires 0 <= i < Total
    requires relativePos == (i as real - position) + (shift * Total) as real
    requires -0.5 < relativePos < 0.5
    ensures ActiveIndex(position) == i
  {
    var n := i + shift * Total;
    assert position == n as real - relativePos;
    assert Round(position) == n;
    ActiveIndexIsModulo(position);
    ModuloUnique(n, shift, i);
  }

  /** The deploy target of a robot: `/robots/` and its id in lower case. */
  function DeployRoute(r: Robot): (route: string)
    ensures |route| == 8 + |r.id| && route[..8] == "/robots/"
    ensures forall k :: 0 <= k < |r.id| ==> route[8 + k] == LowerChar(r.id[k])
  {
    "/robots/" + LowerAscii(r.id)
  }

  /** The three units deploy to their own pages. */
  lemma DeployRoutes()
    ensures DeployRoute(Robots[0]) == "/robots/v1-rg"
    ensures DeployRoute(Robots[1]) == "/robots/k4zu"
    ensures DeployRoute(Robots[2]) == "/robots/zn-01"
  {
    RouteOfFirst();
    RouteOfSecond();
    RouteOfThird();
  }

  lemma RouteOfFirst()
    ensures DeployRoute(Robots[0]) == "/robots/v1-rg"
  {
    RouteOf(Robots[0], "v1-rg");
  }

  lemma RouteOfSecond()
    ensures DeployRoute(Robots[1]) == "/robots/k4zu"
  {
    RouteOf(Robots[1], "k4zu");
  }

  lemma RouteOfThird()
    ensures DeployRoute(Robots[2]) == "/robots/zn-01"
  {
    RouteOf(Robots[2], "zn-01");
  }

  lemma RouteOf(r: Robot, lower: string)
    requires |lower| == |r.id| && forall k :: 0 <= k < |r.id| ==> lower[k] == LowerChar(r.id[k])
    ensures DeployRoute(r) == "/robots/" + lower
  {
    var route := DeployRoute(r);
    assert route[..8] == "/robots/";
    assert route[8..] == lower;
    assert route == route[..8] + route[8..];
  }

  /** The carousel's interaction state (`state.current`) and its React state. */
  class Carousel {
    var position: real
    var target: real
    var velocity: real
    var isDragging: bool
    var startX: real
    var lastX: real
    var activeIndex: int
    /** How many times `setActiveIndex` has been called. */
    var indexWrites: nat
    /** The addresses passed to `router.push`. */
    var navigations: seq<string>

    ghost predicate Valid()
      reads this
    {
      0 <= activeIndex < |Robots|
    }

    constructor ()
      ensures Valid()
      ensures position == 0.0 && target == 0.0 && velocity == 0.0 && !isDragging
      ensures activeIndex == 0 && indexWrites == 0 && navigations == []
    {
      position, target, velocity := 0.0, 0.0, 0.0;
      isDragging, startX, lastX := false, 0.0, 0.0;
      activeIndex, indexWrites, navigations := 0, 0, [];
    }

    /** `handlePointerDown`: start dragging from `clientX`, with no momentum. */
    method PointerDown(clientX: real)
      modifies this`isDragging, this`startX, this`lastX, this`velocity
      ensures isDragging && startX == clientX && lastX == clientX && velocity == 0.0
    {
      isDragging := true;
      startX, lastX := clientX, clientX;
      velocity := 0.0;
    }

    /**
     * `handlePointerMove`: ignored unless dragging; otherwise the target
     * follows the pointer, the position tracks it directly and the drag
     * becomes momentum.
     */
    method PointerMove(clientX: real)
      modifies this`lastX, this`target, this`position, this`velocity
      ensures !old(isDragging) ==>
        lastX == old(lastX) && target == old(target) && position == old(position) && velocity == old(velocity)
      ensures old(isDragging) ==>
        var deltaX := clientX - old(lastX);
        && lastX == clientX
        && target == old(target) - deltaX * 0.003 * 1.5
        && position == target
        && velocity == -deltaX * 0.003 * 2.5
    {
      if !isDragging {
        return;
      }
      var deltaX := clientX - lastX;
      lastX := clientX;
      target := target - deltaX * 0.003 * 1.5;
      position := target;
      velocity := -deltaX * 0.003 * 2.5;
    }

    /** `handlePointerUp` (also on pointer leave). */
    method PointerUp()
      modifies this`isDragging
      ensures !isDragging
    {
      isDragging := false;
    }

    /**
     * `handleWheel`: a mostly vertical scroll is left to the page and
     * changes nothing; otherwise the event is consumed (`handled`) and
     * nudges the target and the momentum.
     */
    method Wheel(deltaX: real, deltaY: real) returns (handled: bool)
      modifies this`target, this`velocity
      ensures handled <==> Abs(deltaY) <= Abs(deltaX)
      ensures !handled ==> target == old(target) && velocity == old(velocity)
      ensures handled ==>
        target == old(target) + deltaX * 0.003 && velocity == old(velocity) + deltaX * 0.003 * 0.1
    {
      if Abs(deltaY) > Abs(deltaX) {
        return false;
      }
      handled := true;
      target := target + deltaX * 0.003;
      velocity := velocity + deltaX * 0.003 * 0.1;
    }

    /**
     * The 200 ms polling sync: the active index becomes the normalised
     * position, and the setter is called only when that index differs.
     */
    method Sync()
      requires Valid()
      modifies this`activeIndex, this`indexWrites
      ensures Valid()
      ensures activeIndex == ActiveIndex(position)
      ensures indexWrites == old(indexWrites) + (if ActiveIndex(position) == old(activeIndex) then 0 else 1)
    {
      var idx := ActiveIndex(position);
      if idx != activeIndex {
        activeIndex := idx;
        indexWrites := indexWrites + 1;
      }
    }

    /** `handleDeploy`: go to the active robot's page. */
    method Deploy()
      requires Valid()
      modifies this`navigations
      ensures navigations == old(navigations) + [DeployRoute(Robots[activeIndex])]
    {
      var robot := Robots[activeIndex];
      navigations := navigations + [DeployRoute(robot)];
    }
  }

  function Abs(x: real): (a: real)
    ensures a >= 0.0 && (a == x || a == -x)
  {
    if x < 0.0 then -x else x
  }

  /**
   * Polling twice without moving writes the index at most once: the second
   * sync finds the index it just set.
   */
  method SyncTwice(position: real, activeIndex: int) returns (first: int, second: int, writes: nat)
    requires 0 <= activeIndex < |Robots|
    ensures first == second == ActiveIndex(position)
    ensures writes == (if ActiveIndex(position) == activeIndex then 0 else 1)
  {
    var c := new Carousel();
    c.position, c.activeIndex := position, activeIndex;
    c.Sync();
    first := c.activeIndex;
    c.Sync();
    second, writes := c.activeIndex, c.indexWrites;
  }
}
