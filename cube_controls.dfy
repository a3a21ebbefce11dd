/** The input handling of the big cube in src/components/Cube.jsx: the set of
    held keys and the rotation it asks for, the auto-spin switch, dragging with
    the pointer, and the `fuseActive` flag that a click on the small cube
    (src/components/SmallCube.jsx) clears. */
module CubeControls {
  import opened JsRuntime
  import opened Wrappers

  /** Degrees turned per key-loop frame about an axis whose key is held. */
  const KeyRotationSpeed: int := 2

  /** Keys whose browser default the key-down handler prevents. */
  const PreventedKeys: set<string> :=
    {"arrowup", "arrowdown", "arrowleft", "arrowright", "i", "j", "k", "l"}

  /** Keys that rotate the cube, and so switch auto-spin off when pressed. */
  const MovementKeys: set<string> :=
    {"w", "a", "s", "d", "arrowup", "arrowdown", "arrowleft", "arrowright"}

  /** A pointer position, `{ x: clientX, y: clientY }`. */
  datatype PointerPos = PointerPos(x: int, y: int)

  /** The rotations applied to the cube's group, in order. The composition
      of quaternions itself belongs to three.js and is not modelled. */
  datatype Turn =
    | AutoSpin(speed: real)                   // rotation.x and rotation.y both += speed
    | KeyTurn(degX: int, degY: int)           // Euler(degToRad(degX), degToRad(degY), 0)
    | DragTurn(movementX: int, movementY: int) // Euler scaled from the pointer movement

  /** One of the two keys of a direction is held. */
  predicate Held(keys: set<string>, key: string, arrow: string) {
    key in keys || arrow in keys
  }

  predicate UpHeld(keys: set<string>)    { Held(keys, "w", "arrowup") }
  predicate DownHeld(keys: set<string>)  { Held(keys, "s", "arrowdown") }
  predicate LeftHeld(keys: set<string>)  { Held(keys, "a", "arrowleft") }
  predicate RightHeld(keys: set<string>) { Held(keys, "d", "arrowright") }

  /** The rotation, in degrees about x and about y, that the key loop asks
      for when `keys` are held: up and down cancel, and so do left and
      right. */
  function KeyDeltas(keys: set<string>): (d: (int, int))
    ensures d.0 in {-KeyRotationSpeed, 0, KeyRotationSpeed}
    ensures d.1 in {-KeyRotationSpeed, 0, KeyRotationSpeed}
    ensures d.0 == 0 <==> (UpHeld(keys) <==> DownHeld(keys))
    ensures d.0 < 0 <==> UpHeld(keys) && !DownHeld(keys)
    ensures d.1 == 0 <==> (LeftHeld(keys) <==> RightHeld(keys))
    ensures d.1 < 0 <==> LeftHeld(keys) && !RightHeld(keys)
  {
    var deltaX := (if UpHeld(keys) then -KeyRotationSpeed else 0)
      + (if DownHeld(keys) then KeyRotationSpeed else 0);
    var deltaY := (if LeftHeld(keys) then -KeyRotationSpeed else 0)
      + (if RightHeld(keys) then KeyRotationSpeed else 0);
    (deltaX, deltaY)
  }

  /** Only the eight movement keys matter to the key loop: whatever else is
      held (i, j, k, l, shift, ...) does not change the rotation. */
  lemma KeyDeltasIgnoreOtherKeys(keys: set<string>)
    ensures KeyDeltas(keys) == KeyDeltas(keys * MovementKeys)
  {
  }

  /** Shifted letters reach the handlers as capitals; `toLowerCase` turns
      them into the movement keys. */
  lemma ShiftedLettersAreMovementKeys()
    ensures LowerCase("W") == "w" && LowerCase("A") == "a"
    ensures LowerCase("S") == "s" && LowerCase("D") == "d"
  {
  }

  /** The browser names the arrow keys "ArrowUp" etc.; `toLowerCase` turns
      them into the entries of the key lists. */
  lemma ArrowKeyNames()
    ensures LowerCase("ArrowUp") == "arrowup"
    ensures LowerCase("ArrowDown") == "arrowdown"
    ensures LowerCase("ArrowLeft") == "arrowleft"
    ensures LowerCase("ArrowRight") == "arrowright"
  {
    LowerCaseOf("ArrowUp", "arrowup");
    LowerCaseOf("ArrowDown", "arrowdown");
    LowerCaseOf("ArrowLeft", "arrowleft");
    LowerCaseOf("ArrowRight", "arrowright");
  }

  /** The colour of the cube's material. */
  function CubeColor(spinToggle: bool): (colour: string)
    ensures colour == "hotpink" <==> spinToggle
    ensures colour == "blue" <==> !spinToggle
  {
    if spinToggle then "hotpink" else "blue"
  }

  /** An input or timer callback, with what the callback reads from outside:
      whether the cube's group is mounted (`cubeRef.current`) and whether the
      orbit controls exist (`controlsRef?.current`). */
  datatype Event =
    | KeyPressed(key: string)
    | KeyReleased(key: string)
    | KeyLoopFrame(mounted: bool)
    | SpinIntervalTick(rotationSpeed: real, mounted: bool)
    | PointerPressed(clientX: int, clientY: int, hasControls: bool)
    | PointerMoved(clientX: int, clientY: int, movementX: int, movementY: int, mounted: bool)
    | PointerReleased(hasControls: bool)
    | SmallCubeClicked

  /** The component's state: the held keys of the key effect, whether the key
      loop still has an animation frame requested, the React state
      `isDragged`, `lastMousePos`, `spinToggle` and `fuseActive`, the orbit
      controls' `enabled` flag, and the rotations applied to the group. */
  class Cube {
    var activeKeys: set<string>
    var keyLoopScheduled: bool
    var spinToggle: bool
    var fuseActive: bool
    var isDragged: bool
    var lastMousePos: Option<PointerPos>
    var controlsEnabled: bool
    var turns: seq<Turn>

    /** Held keys are stored lower-cased; a drag always has a last position
        and has switched auto-spin off. */
    ghost predicate Valid()
      reads this
    {
      (forall k :: k in activeKeys ==> IsLower(k)) &&
      (isDragged ==> lastMousePos.Some? && !spinToggle)
    }

    /** The state after mounting: the key effect has requested the first
        frame of its loop. */
    constructor ()
      ensures Valid()
      ensures activeKeys == {} && keyLoopScheduled && spinToggle && fuseActive && !isDragged
      ensures lastMousePos == None && controlsEnabled && turns == []
    {
      activeKeys := {};
      keyLoopScheduled := true;
      spinToggle := true;
      fuseActive := true;
      isDragged := false;
      lastMousePos := None;
      controlsEnabled := true;
      turns := [];
    }

    /** `handleKeyDown`: lower-cases the key, holds it, and switches auto-spin
        off for a movement key. `preventDefault` tells whether the browser's
        default was prevented. */
    method KeyDown(key: string) returns (preventDefault: bool)
      requires Valid()
      modifies this
      ensures Valid()
      ensures preventDefault <==> LowerCase(key) in PreventedKeys
      ensures activeKeys == old(activeKeys) + {LowerCase(key)}
      ensures spinToggle == (old(spinToggle) && LowerCase(key) !in MovementKeys)
      ensures fuseActive == old(fuseActive) && isDragged == old(isDragged)
      ensures lastMousePos == old(lastMousePos) && controlsEnabled == old(controlsEnabled)
      ensures turns == old(turns)
      ensures keyLoopScheduled == old(keyLoopScheduled)
    {
      var k := LowerCase(key);
      LowerCaseIdempotent(key);
      preventDefault := k in PreventedKeys;
      activeKeys := activeKeys + {k};
      if k in MovementKeys {
        spinToggle := false;
      }
    }

    /** `handleKeyUp`: releases the lower-cased key and no other. */
    method KeyUp(key: string)
      requires Valid()
      modifies this
      ensures Valid()
      ensures activeKeys == old(activeKeys) - {LowerCase(key)}
      ensures key in old(activeKeys) ==> key !in activeKeys
      ensures spinToggle == old(spinToggle) && fuseActive == old(fuseActive)
      ensures isDragged == old(isDragged) && lastMousePos == old(lastMousePos)
      ensures controlsEnabled == old(controlsEnabled) && turns == old(turns)
      ensures keyLoopScheduled == old(keyLoopScheduled)
    {
      if key in activeKeys {
        LowerCaseOfLower(key);
      }
      activeKeys := activeKeys - {LowerCase(key)};
    }

    /** One animation frame of `updateRotation`, if one is requested: turns
        the cube by the held keys' deltas when at least one of them is not
        zero, and requests the next frame. A frame that finds the group
        unmounted returns without requesting another, which ends the loop for
        good. */
    method KeyLoopFrame(mounted: bool)
      requires Valid()
      modifies this
      ensures Valid()
      ensures keyLoopScheduled == (old(keyLoopScheduled) && mounted)
      ensures var d := KeyDeltas(activeKeys);
        turns == if old(keyLoopScheduled) && mounted && d != (0, 0)
          then old(turns) + [KeyTurn(d.0, d.1)] else old(turns)
      ensures activeKeys == old(activeKeys) && spinToggle == old(spinToggle)
      ensures fuseActive == old(fuseActive) && isDragged == old(isDragged)
      ensures lastMousePos == old(lastMousePos) && controlsEnabled == old(controlsEnabled)
    {
      if keyLoopScheduled {
        if !mounted {
          keyLoopScheduled := false;
        } else {
          var (deltaX, deltaY) := KeyDeltas(activeKeys);
          if deltaX != 0 || deltaY != 0 {
            turns := turns + [KeyTurn(deltaX, deltaY)];
          }
        }
      }
    }

    /** One run of the 16 ms auto-spin interval, which exists only while
        `spinToggle && !isDragged`: both angles grow by `rotationSpeed`. */
    method SpinIntervalTick(rotationSpeed: real, mounted: bool)
      requires Valid()
      modifies this
      ensures Valid()
      ensures turns == if spinToggle && !isDragged && mounted
        then old(turns) + [AutoSpin(rotationSpeed)] else old(turns)
      ensures activeKeys == old(activeKeys) && spinToggle == old(spinToggle)
      ensures fuseActive == old(fuseActive) && isDragged == old(isDragged)
      ensures lastMousePos == old(lastMousePos) && controlsEnabled == old(controlsEnabled)
      ensures keyLoopScheduled == old(keyLoopScheduled)
    {
      if spinToggle && !isDragged && mounted {
        turns := turns + [AutoSpin(rotationSpeed)];
      }
    }

    /** `handlePointerDown`: starts a drag at the pointer, disables the orbit
        controls and switches auto-spin off. */
    method PointerDown(clientX: int, clientY: int, hasControls: bool)
      requires Valid()
      modifies this
      ensures Valid()
      ensures isDragged && !spinToggle
      ensures lastMousePos == Some(PointerPos(clientX, clientY))
      ensures controlsEnabled == (if hasControls then false else old(controlsEnabled))
      ensures activeKeys == old(activeKeys) && fuseActive == old(fuseActive)
      ensures turns == old(turns)
      ensures keyLoopScheduled == old(keyLoopScheduled)
    {
      if hasControls {
        controlsEnabled := false;
      }
      isDragged := true;
      lastMousePos := Some(PointerPos(clientX, clientY));
      spinToggle := false;
    }

    /** A `mousemove` on the window: `handlePointerMove` is listening only
        while a drag is under way, and acts only when a position is recorded;
        then turns the cube by the movement and records the
        new position. */
    method PointerMove(clientX: int, clientY: int, movementX: int, movementY: int, mounted: bool)
      requires Valid()
      modifies this
      ensures Valid()
      ensures var dragging := old(isDragged) && old(lastMousePos).Some?;
        && turns == (if dragging && mounted
                     then old(turns) + [DragTurn(movementX, movementY)] else old(turns))
        && lastMousePos == (if dragging then Some(PointerPos(clientX, clientY))
                            else old(lastMousePos))
      ensures activeKeys == old(activeKeys) && spinToggle == old(spinToggle)
      ensures fuseActive == old(fuseActive) && isDragged == old(isDragged)
      ensures controlsEnabled == old(controlsEnabled)
      ensures keyLoopScheduled == old(keyLoopScheduled)
    {
      if isDragged && lastMousePos.Some? {
        if mounted {
          turns := turns + [DragTurn(movementX, movementY)];
        }
        lastMousePos := Some(PointerPos(clientX, clientY));
      }
    }

    /** A `mouseup` on the window: `handlePointerUp` is listening only while a
        drag is under way, and then ends the drag and re-enables the orbit
        controls. */
    method PointerUp(hasControls: bool)
      requires Valid()
      modifies this
      ensures Valid()
      ensures !isDragged
      ensures controlsEnabled == (if old(isDragged) && hasControls then true else old(controlsEnabled))
      ensures activeKeys == old(activeKeys) && spinToggle == old(spinToggle)
      ensures fuseActive == old(fuseActive) && lastMousePos == old(lastMousePos)
      ensures turns == old(turns)
      ensures keyLoopScheduled == old(keyLoopScheduled)
    {
      if isDragged {
        isDragged := false;
        if hasControls {
          controlsEnabled := true;
        }
      }
    }

    /** The small cube's click handler: `setFuseActive(false)`. Clicking
        again changes nothing. */
    method SmallCubeClick()
      requires Valid()
      modifies this
      ensures Valid()
      ensures !fuseActive
      ensures activeKeys == old(activeKeys) && spinToggle == old(spinToggle)
      ensures isDragged == old(isDragged) && lastMousePos == old(lastMousePos)
      ensures controlsEnabled == old(controlsEnabled) && turns == old(turns)
      ensures keyLoopScheduled == old(keyLoopScheduled)
    {
      fuseActive := false;
    }

    /** Runs one callback. */
    method Dispatch(e: Event)
      requires Valid()
      modifies this
      ensures Valid()
      ensures spinToggle ==> old(spinToggle)
      ensures fuseActive ==> old(fuseActive)
      ensures keyLoopScheduled ==> old(keyLoopScheduled)
      ensures old(turns) <= turns
      ensures !old(spinToggle) ==> forall k :: |old(turns)| <= k < |turns| ==> !turns[k].AutoSpin?
      ensures !old(keyLoopScheduled) ==> forall k :: |old(turns)| <= k < |turns| ==> !turns[k].KeyTurn?
    {
      match e
      case KeyPressed(key) =>
        var _ := KeyDown(key);
      case KeyReleased(key) =>
        KeyUp(key);
      case KeyLoopFrame(mounted) =>
        KeyLoopFrame(mounted);
      case SpinIntervalTick(speed, mounted) =>
        SpinIntervalTick(speed, mounted);
      case PointerPressed(x, y, hasControls) =>
        PointerDown(x, y, hasControls);
      case PointerMoved(x, y, mx, my, mounted) =>
        PointerMove(x, y, mx, my, mounted);
      case PointerReleased(hasControls) =>
        PointerUp(hasControls);
      case SmallCubeClicked =>
        SmallCubeClick();
    }

    /** Any run of callbacks: `spinToggle`, `fuseActive` and the key loop only
        ever go from on to off, rotations are only added, once auto-spin is
        off no run of the spin interval turns the cube again, and once the key
        loop has ended no key turns it again. */
    method Run(events: seq<Event>)
      requires Valid()
      modifies this
      ensures Valid()
      ensures spinToggle ==> old(spinToggle)
      ensures fuseActive ==> old(fuseActive)
      ensures keyLoopScheduled ==> old(keyLoopScheduled)
      ensures old(turns) <= turns
      ensures !old(spinToggle) ==> forall k :: |old(turns)| <= k < |turns| ==> !turns[k].AutoSpin?
      ensures !old(keyLoopScheduled) ==> forall k :: |old(turns)| <= k < |turns| ==> !turns[k].KeyTurn?
    {
      var i := 0;
      while i < |events|
        invariant 0 <= i <= |events|
        invariant Valid()
        invariant spinToggle ==> old(spinToggle)
        invariant fuseActive ==> old(fuseActive)
        invariant keyLoopScheduled ==> old(keyLoopScheduled)
        invariant old(turns) <= turns
        invariant !old(spinToggle) ==>
          forall k :: |old(turns)| <= k < |turns| ==> !turns[k].AutoSpin?
        invariant !old(keyLoopScheduled) ==>
          forall k :: |old(turns)| <= k < |turns| ==> !turns[k].KeyTurn?
      {
        Dispatch(events[i]);
        i := i + 1;
      }
    }
  }
}
