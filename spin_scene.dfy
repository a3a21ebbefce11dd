/** The early spinning cube of src/Cube.jsx: the `Scene` flips `spinToggle`
    on the `r` key, and while it is set the `Cube` turns by 0.05 about x and
    about y on every run of its 16 ms interval. */
module SpinScene {
  import opened JsRuntime

  /** Radians added to each angle per interval run. */
  const SpinStep: real := 0.05

  /** The key that flips the spin: `event.key.toLowerCase() === 'r'`. */
  predicate IsToggleKey(key: string) {
    LowerCase(key) == "r"
  }

  /** Exactly `r` and `R` flip the spin. */
  lemma ToggleKeyIsR(key: string)
    ensures IsToggleKey(key) <==> key == "r" || key == "R"
  {
    if IsToggleKey(key) {
      assert |key| == 1;
      assert LowerChar(key[0]) == 'r';
      assert key == [key[0]];
    } else {
      LowerCaseOf("r", "r");
      LowerCaseOf("R", "r");
    }
  }

  /** `spinToggle` after a key-down of `key`. */
  function Toggled(spin: bool, key: string): (next: bool)
    ensures next != spin <==> IsToggleKey(key)
  {
    if IsToggleKey(key) then !spin else spin
  }

  /** Pressing the same key twice leaves `spinToggle` as it was. */
  lemma PressTwice(spin: bool, key: string)
    ensures Toggled(Toggled(spin, key), key) == spin
  {
  }

  /** `spinToggle` after a run of key-downs. */
  function AfterKeys(spin: bool, keys: seq<string>): (next: bool) {
    if keys == [] then spin
    else Toggled(AfterKeys(spin, keys[..|keys| - 1]), keys[|keys| - 1])
  }

  /** How many of the keys flip the spin: none exactly when no key is `r` or
      `R`, and all exactly when every key is. */
  function ToggleCount(keys: seq<string>): (n: nat)
    ensures n <= |keys|
    ensures n == 0 <==> forall i :: 0 <= i < |keys| ==> !IsToggleKey(keys[i])
    ensures n == |keys| <==> forall i :: 0 <= i < |keys| ==> IsToggleKey(keys[i])
  {
    if keys == [] then 0
    else ToggleCount(keys[..|keys| - 1]) + (if IsToggleKey(keys[|keys| - 1]) then 1 else 0)
  }

  /** After any run of key-downs the spin is flipped exactly when an odd
      number of them were `r` or `R`. */
  lemma {:induction false} AfterKeysParity(spin: bool, keys: seq<string>)
    ensures AfterKeys(spin, keys) == (spin != (ToggleCount(keys) % 2 == 1))
  {
    if keys != [] {
      AfterKeysParity(spin, keys[..|keys| - 1]);
    }
  }

  /** The colour of the cube: `hotpink` while spinning, `green` otherwise. */
  function CubeColor(spinToggle: bool): (colour: string)
    ensures colour == "hotpink" <==> spinToggle
    ensures colour == "green" <==> !spinToggle
  {
    if spinToggle then "hotpink" else "green"
  }

  /** The scene's `spinToggle` state and the cube group's two angles. */
  class Scene {
    var spinToggle: bool
    var rotationX: real
    var rotationY: real

    /** `useState(false)`; a fresh group is not rotated. */
    constructor ()
      ensures !spinToggle && rotationX == 0.0 && rotationY == 0.0
    {
      spinToggle := false;
      rotationX := 0.0;
      rotationY := 0.0;
    }

    /** `handleKeyPress`: flips the spin on `r` or `R`, leaves it otherwise. */
    method KeyDown(key: string)
      modifies this
      ensures spinToggle == Toggled(old(spinToggle), key)
      ensures rotationX == old(rotationX) && rotationY == old(rotationY)
    {
      if LowerCase(key) == "r" {
        spinToggle := !spinToggle;
      }
    }

    /** A run of key-downs, one per key. */
    method KeyDowns(keys: seq<string>)
      modifies this
      ensures spinToggle == AfterKeys(old(spinToggle), keys)
      ensures rotationX == old(rotationX) && rotationY == old(rotationY)
    {
      var i := 0;
      while i < |keys|
        invariant 0 <= i <= |keys|
        invariant spinToggle == AfterKeys(old(spinToggle), keys[..i])
        invariant rotationX == old(rotationX) && rotationY == old(rotationY)
      {
        assert keys[..i + 1][..i] == keys[..i];
        KeyDown(keys[i]);
        i := i + 1;
      }
      assert keys[..|keys|] == keys;
    }

    /** One run of the cube's interval, which exists only while spinning:
        both angles grow by 0.05; when not spinning they stay. */
    method SpinTick(mounted: bool)
      modifies this
      ensures spinToggle == old(spinToggle)
      ensures spinToggle && mounted ==>
        rotationX == old(rotationX) + SpinStep && rotationY == old(rotationY) + SpinStep
      ensures !(spinToggle && mounted) ==>
        rotationX == old(rotationX) && rotationY == old(rotationY)
    {
      if spinToggle && mounted {
        rotationX := rotationX + SpinStep;
        rotationY := rotationY + SpinStep;
      }
    }

    /** `n` runs of the interval while spinning turn each angle by `n * 0.05`. */
    method SpinTicks(n: nat, mounted: bool)
      modifies this
      ensures spinToggle == old(spinToggle)
      ensures spinToggle && mounted ==>
        rotationX == old(rotationX) + n as real * SpinStep &&
        rotationY == old(rotationY) + n as real * SpinStep
      ensures !(spinToggle && mounted) ==>
        rotationX == old(rotationX) && rotationY == old(rotationY)
    {
      var i := 0;
      while i < n
        invariant 0 <= i <= n
        invariant spinToggle == old(spinToggle)
        invariant spinToggle && mounted ==>
          rotationX == old(rotationX) + i as real * SpinStep &&
          rotationY == old(rotationY) + i as real * SpinStep
        invariant !(spinToggle && mounted) ==>
          rotationX == old(rotationX) && rotationY == old(rotationY)
      {
        SpinTick(mounted);
        i := i + 1;
      }
    }
  }
}
