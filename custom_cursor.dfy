/**
 * The custom cursor: a pointer position, a pressed flag, and a short trail of paw
 * prints that mouse moves append to (on a random gate) and a periodic tick trims.
 */
module Cursor {
  import opened JsBuiltins

  /** One paw print: where the pointer was, and the id taken from the counter. */
  datatype TrailPoint = TrailPoint(x: real, y: real, id: nat)

  /** How many earlier points an append keeps (`slice(-15)`). */
  const Kept := 15

  /** The append of a mouse move: the last (at most) fifteen points, then the new one. */
  function AddTrail(trails: seq<TrailPoint>, point: TrailPoint): (r: seq<TrailPoint>)
    ensures |r| == Min(|trails|, Kept) + 1 && |r| <= Kept + 1
    ensures r[..|r| - 1] == trails[|trails| - (|r| - 1)..]
    ensures r[|r| - 1] == point
  {
    Slice(trails, -Kept) + [point]
  }

  /** The cleanup tick (`slice(1)`): the oldest point goes, the rest keep their order. */
  function DropOldest(trails: seq<TrailPoint>): (r: seq<TrailPoint>)
    ensures trails == [] ==> r == []
    ensures trails != [] ==> r == trails[1..]
  {
    Slice(trails, 1)
  }

  /** Ids strictly increase from the oldest point to the newest, and all are below the counter. */
  ghost predicate IdsIncreasing(trails: seq<TrailPoint>, idCounter: nat) {
    (forall i, j :: 0 <= i < j < |trails| ==> trails[i].id < trails[j].id) &&
    (forall i :: 0 <= i < |trails| ==> trails[i].id < idCounter)
  }

  /** Appending a point that takes the counter's value, then bumping the counter, keeps ids increasing. */
  lemma AddTrailKeepsIdsIncreasing(trails: seq<TrailPoint>, idCounter: nat, x: real, y: real)
    requires IdsIncreasing(trails, idCounter)
    ensures IdsIncreasing(AddTrail(trails, TrailPoint(x, y, idCounter)), idCounter + 1)
  {
    var r := AddTrail(trails, TrailPoint(x, y, idCounter));
    var d := |trails| - (|r| - 1);
    forall i | 0 <= i < |r| - 1 ensures r[i] == trails[d + i] {
      assert r[i] == r[..|r| - 1][i];
    }
  }

  /** The tick keeps ids increasing. */
  lemma DropOldestKeepsIdsIncreasing(trails: seq<TrailPoint>, idCounter: nat)
    requires IdsIncreasing(trails, idCounter)
    ensures IdsIncreasing(DropOldest(trails), idCounter)
  {
  }

  class CustomCursor {
    var cursorX: real
    var cursorY: real
    var isClicking: bool
    var trails: seq<TrailPoint>
    var idCounter: nat

    ghost predicate Valid()
      reads this
    {
      |trails| <= Kept + 1 && IdsIncreasing(trails, idCounter)
    }

    /** The cursor as mounted: off screen at (-100, -100), not pressed, no trail, counter at zero. */
    constructor ()
      ensures Valid()
      ensures cursorX == -100.0 && cursorY == -100.0 && !isClicking && trails == [] && idCounter == 0
    {
      cursorX, cursorY := -100.0, -100.0;
      isClicking := false;
      trails := [];
      idCounter := 0;
    }

    /**
     * The `mousemove` handler: the pointer moves, and when the random gate fires
     * (`Math.random() > 0.8`) a point with the counter's current value as id is
     * appended and the counter advances; otherwise trail and counter stay.
     */
    method MoveCursor(clientX: real, clientY: real, gate: bool)
      requires Valid()
      modifies this
      ensures Valid()
      ensures cursorX == clientX && cursorY == clientY && isClicking == old(isClicking)
      ensures gate ==> trails == AddTrail(old(trails), TrailPoint(clientX, clientY, old(idCounter))) &&
                       idCounter == old(idCounter) + 1
      ensures !gate ==> trails == old(trails) && idCounter == old(idCounter)
    {
      cursorX, cursorY := clientX, clientY;
      if gate {
        AddTrailKeepsIdsIncreasing(trails, idCounter, clientX, clientY);
        trails := AddTrail(trails, TrailPoint(clientX, clientY, idCounter));
        idCounter := idCounter + 1;
      }
    }

    /** The `mousedown` handler. */
    method MouseDown()
      requires Valid()
      modifies this`isClicking
      ensures Valid() && isClicking
    {
      isClicking := true;
    }

    /** The `mouseup` handler. */
    method MouseUp()
      requires Valid()
      modifies this`isClicking
      ensures Valid() && !isClicking
    {
      isClicking := false;
    }

    /** The 100 ms cleanup tick: the oldest point goes; nothing else changes. */
    method Tick()
      requires Valid()
      modifies this`trails
      ensures Valid()
      ensures trails == DropOldest(old(trails))
    {
      DropOldestKeepsIdsIncreasing(trails, idCounter);
      trails := DropOldest(trails);
    }
  }
}
