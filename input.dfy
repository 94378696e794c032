/**
 * Input::State and the two update passes of src/input.hpp. The keyboard,
 * the mouse buttons and the wheel are read through raylib, which is not part
 * of this model: each update takes the set of keys and buttons held down and
 * the direction of the wheel movement (WheelDirection applies the source's
 * threshold to raylib's float) as parameters. The mouse-position and cursor
 * helpers are left out.
 */
module Input {
  /** The three values of Input::State; a State starts UP. */
  datatype State = Pressed | Down | Up
  {
    /** operator bool: held in any way. */
    predicate Active() { this == Down || this == Pressed }
    predicate IsPressed() { this == Pressed }
    predicate IsDown() { this == Down }
  }

  /** The two boolean views agree with the enum: active means pressed or down. */
  lemma ActiveIsPressedOrDown(s: State)
    ensures s.Active() <==> s.IsPressed() || s.IsDown()
    ensures !Up.Active() && Pressed.Active() && Down.Active()
  {
  }

  datatype Key = KeyLeft | KeyA | KeyRight | KeyD | KeyUp | KeyW | KeySpace | KeyDown | KeyS
               | KeyOne | KeyZ | KeyTwo | KeyX | KeyM

  datatype Button = MouseLeft | MouseRight

  /** The wheel counts as moved beyond this magnitude, as the source's 1e-8. */
  const WHEEL_EPSILON: real := 1.0 / 100000000.0

  /** One discrete pass for one key: a held key turns UP into PRESSED; nothing else changes. */
  function DiscreteStep(s: State, held: bool): State
  {
    if held && s == Up then Pressed else s
  }

  /** Two discrete passes for two keys bound to the same state act as one pass for either key. */
  lemma DiscreteStepsCombine(s: State, a: bool, b: bool)
    ensures DiscreteStep(DiscreteStep(s, a), b) == DiscreteStep(s, a || b)
  {
  }

  /** Discrete updates never demote: an active state stays active. */
  lemma DiscreteNeverDemotes(s: State, held: bool)
    ensures DiscreteStep(s, held) == s || (s == Up && held && DiscreteStep(s, held) == Pressed)
    ensures s.Active() ==> DiscreteStep(s, held) == s
    ensures DiscreteStep(s, held).Active() <==> s.Active() || held
  {
  }

  /** update_continuous_state */
  function ContinuousStep(s: State, held: bool): State
  {
    if held then (if s == Up then Pressed else Down) else Up
  }

  /** A continuous update follows the key: held from UP gives PRESSED, held otherwise DOWN, released UP. */
  lemma ContinuousStepFollowsKey(s: State, held: bool)
    ensures ContinuousStep(s, held).Active() <==> held
    ensures ContinuousStep(s, held).IsPressed() <==> held && s == Up
    ensures ContinuousStep(s, held).IsDown() <==> held && s != Up
  {
  }

  /** The states after each of a run of continuous updates. */
  function ContinuousRun(s: State, held: seq<bool>): (r: seq<State>)
    ensures |r| == |held|
    decreases |held|
  {
    if held == [] then [] else
      var next := ContinuousStep(s, held[0]);
      [next] + ContinuousRun(next, held[1..])
  }

  /**
   * While a key is held through a run of continuous updates, the state is
   * PRESSED after exactly one of them, the first, when it started UP, and
   * after none of them otherwise; after every other update it is DOWN.
   */
  lemma {:induction false} HeldRunPressedOnce(s: State, held: seq<bool>, k: nat)
    requires forall j :: 0 <= j < |held| ==> held[j]
    requires k < |held|
    ensures ContinuousRun(s, held)[k] == Pressed <==> k == 0 && s == Up
    ensures ContinuousRun(s, held)[k] == Down <==> k > 0 || s != Up
    decreases k
  {
    if k > 0 {
      HeldRunPressedOnce(ContinuousStep(s, held[0]), held[1..], k - 1);
    }
  }

  /** any_key_down over the keys bound to each control by update_continuous. */
  predicate LeftHeld(keys: set<Key>) { KeyLeft in keys || KeyA in keys }
  predicate RightHeld(keys: set<Key>) { KeyRight in keys || KeyD in keys }
  predicate UpHeld(keys: set<Key>) { KeyUp in keys || KeyW in keys || KeySpace in keys }
  predicate DownHeld(keys: set<Key>) { KeyDown in keys || KeyS in keys }
  predicate Action1Held(keys: set<Key>) { KeyOne in keys || KeyZ in keys }
  predicate Action2Held(keys: set<Key>) { KeyTwo in keys || KeyX in keys }

  /** The two wheel states as a pair (down, up). */
  datatype Wheel = Wheel(down: State, up: State)

  /** Which way the wheel turned this frame. */
  datatype WheelMove = Downward | Upward | Still

  /** A move counts only beyond the threshold: below -1e-8 is downward, above 1e-8 upward. */
  function WheelDirection(move: real): (m: WheelMove)
    ensures m == Downward <==> move < -WHEEL_EPSILON
    ensures m == Upward <==> move > WHEEL_EPSILON
  {
    if move < -WHEEL_EPSILON then Downward
    else if move > WHEEL_EPSILON then Upward
    else Still
  }

  /** The discrete wheel pass: a move presses its direction and releases the other; no move only releases DOWN. */
  function WheelDiscrete(w: Wheel, m: WheelMove): (r: Wheel)
    ensures m == Downward ==> r == Wheel(Pressed, Up)
    ensures m == Upward ==> r == Wheel(Up, Pressed)
    ensures m == Still ==> !r.down.IsDown() && !r.up.IsDown()
    ensures m == Still ==> (w.down != Down ==> r.down == w.down) && (w.up != Down ==> r.up == w.up)
  {
    match m
    case Downward => Wheel(Pressed, Up)
    case Upward => Wheel(Up, Pressed)
    case Still => Wheel(if w.down == Down then Up else w.down, if w.up == Down then Up else w.up)
  }

  /** The continuous wheel pass: a move holds its direction DOWN and the other UP; no move releases both. */
  function WheelContinuous(m: WheelMove): (r: Wheel)
    ensures !(r.down.Active() && r.up.Active())
    ensures r.down.Active() <==> m == Downward
    ensures r.up.Active() <==> m == Upward
    ensures !r.down.IsPressed() && !r.up.IsPressed()
  {
    match m
    case Downward => Wheel(Down, Up)
    case Upward => Wheel(Up, Down)
    case Still => Wheel(Up, Up)
  }

  /** The mouse buttons follow the same continuous transitions as keys: the key step applied to the button's held flag. */
  lemma ButtonsFollowKeyTransitions(s: State, buttons: set<Button>, b: Button)
    ensures ContinuousStep(s, b in buttons).IsPressed() <==> b in buttons && s == Up
  {
  }

  /** The eleven States of an Input, in declaration order. */
  datatype Controls = Controls(
    left: State, right: State, up: State, down: State, action1: State, action2: State,
    mouseLeft: State, mouseRight: State, mouseWheelUp: State, mouseWheelDown: State, mute: State)

  /** update_discrete: each binding is applied one key at a time, in the source's order. */
  function UpdateDiscreteSpec(c: Controls, keys: set<Key>, buttons: set<Button>, wheel: WheelMove): Controls
  {
    var w := WheelDiscrete(Wheel(c.mouseWheelDown, c.mouseWheelUp), wheel);
    Controls(
      DiscreteStep(DiscreteStep(c.left, KeyLeft in keys), KeyA in keys),
      DiscreteStep(DiscreteStep(c.right, KeyRight in keys), KeyD in keys),
      DiscreteStep(DiscreteStep(DiscreteStep(c.up, KeyUp in keys), KeyW in keys), KeySpace in keys),
      DiscreteStep(DiscreteStep(c.down, KeyDown in keys), KeyS in keys),
      DiscreteStep(DiscreteStep(c.action1, KeyOne in keys), KeyZ in keys),
      DiscreteStep(DiscreteStep(c.action2, KeyTwo in keys), KeyX in keys),
      DiscreteStep(c.mouseLeft, MouseLeft in buttons),
      DiscreteStep(c.mouseRight, MouseRight in buttons),
      w.up, w.down,
      DiscreteStep(c.mute, KeyM in keys))
  }

  /** The key-by-key discrete pass is one discrete step per State, held when any of its keys is. */
  lemma DiscretePassPerState(c: Controls, keys: set<Key>, buttons: set<Button>, wheel: WheelMove)
    ensures UpdateDiscreteSpec(c, keys, buttons, wheel).left == DiscreteStep(c.left, LeftHeld(keys))
    ensures UpdateDiscreteSpec(c, keys, buttons, wheel).right == DiscreteStep(c.right, RightHeld(keys))
    ensures UpdateDiscreteSpec(c, keys, buttons, wheel).up == DiscreteStep(c.up, UpHeld(keys))
    ensures UpdateDiscreteSpec(c, keys, buttons, wheel).down == DiscreteStep(c.down, DownHeld(keys))
    ensures UpdateDiscreteSpec(c, keys, buttons, wheel).action1 == DiscreteStep(c.action1, Action1Held(keys))
    ensures UpdateDiscreteSpec(c, keys, buttons, wheel).action2 == DiscreteStep(c.action2, Action2Held(keys))
  {
    DiscreteStepsCombine(c.left, KeyLeft in keys, KeyA in keys);
    DiscreteStepsCombine(c.right, KeyRight in keys, KeyD in keys);
    DiscreteStepsCombine(c.up, KeyUp in keys, KeyW in keys);
    DiscreteStepsCombine(c.up, KeyUp in keys || KeyW in keys, KeySpace in keys);
    DiscreteStepsCombine(c.down, KeyDown in keys, KeyS in keys);
    DiscreteStepsCombine(c.action1, KeyOne in keys, KeyZ in keys);
    DiscreteStepsCombine(c.action2, KeyTwo in keys, KeyX in keys);
  }

  /** A discrete pass never releases anything but the wheel: every active key or button State stays as it was. */
  lemma DiscretePassKeepsActive(c: Controls, keys: set<Key>, buttons: set<Button>, wheel: WheelMove)
    ensures var r := UpdateDiscreteSpec(c, keys, buttons, wheel);
      && (c.left.Active() ==> r.left == c.left) && (c.right.Active() ==> r.right == c.right)
      && (c.up.Active() ==> r.up == c.up) && (c.down.Active() ==> r.down == c.down)
      && (c.action1.Active() ==> r.action1 == c.action1) && (c.action2.Active() ==> r.action2 == c.action2)
      && (c.mouseLeft.Active() ==> r.mouseLeft == c.mouseLeft) && (c.mouseRight.Active() ==> r.mouseRight == c.mouseRight)
      && (c.mute.Active() ==> r.mute == c.mute)
  {
  }

  /** update_continuous: every State follows whether any of its keys or buttons is held now. */
  function UpdateContinuousSpec(c: Controls, keys: set<Key>, buttons: set<Button>, wheel: WheelMove): (r: Controls)
  {
    var w := WheelContinuous(wheel);
    Controls(
      ContinuousStep(c.left, LeftHeld(keys)),
      ContinuousStep(c.right, RightHeld(keys)),
      ContinuousStep(c.up, UpHeld(keys)),
      ContinuousStep(c.down, DownHeld(keys)),
      ContinuousStep(c.action1, Action1Held(keys)),
      ContinuousStep(c.action2, Action2Held(keys)),
      ContinuousStep(c.mouseLeft, MouseLeft in buttons),
      ContinuousStep(c.mouseRight, MouseRight in buttons),
      w.up, w.down,
      ContinuousStep(c.mute, KeyM in keys))
  }

  /** After a continuous pass exactly the held controls are active, and a control is PRESSED only if it was UP. */
  lemma ContinuousPassFollowsHeld(c: Controls, keys: set<Key>, buttons: set<Button>, wheel: WheelMove)
    ensures var r := UpdateContinuousSpec(c, keys, buttons, wheel);
      && (r.left.Active() <==> LeftHeld(keys))
      && (r.right.Active() <==> RightHeld(keys))
      && (r.up.Active() <==> UpHeld(keys))
      && (r.down.Active() <==> DownHeld(keys))
      && (r.action1.Active() <==> Action1Held(keys))
      && (r.action2.Active() <==> Action2Held(keys))
      && (r.mouseLeft.Active() <==> MouseLeft in buttons)
      && (r.mouseRight.Active() <==> MouseRight in buttons)
      && (r.mute.Active() <==> KeyM in keys)
      && (r.left.IsPressed() ==> c.left == Up) && (r.mute.IsPressed() ==> c.mute == Up)
      && (r.mouseLeft.IsPressed() ==> c.mouseLeft == Up)
  {
  }

  class Input {
    var left: State
    var right: State
    var up: State
    var down: State
    var action1: State
    var action2: State
    var mouseLeft: State
    var mouseRight: State
    var mouseWheelUp: State
    var mouseWheelDown: State
    var mute: State

    function View(): Controls
      reads this
    {
      Controls(left, right, up, down, action1, action2, mouseLeft, mouseRight, mouseWheelUp, mouseWheelDown, mute)
    }

    constructor ()
      ensures View() == Controls(Up, Up, Up, Up, Up, Up, Up, Up, Up, Up, Up)
    {
      left, right, up, down, action1, action2 := Up, Up, Up, Up, Up, Up;
      mouseLeft, mouseRight, mouseWheelUp, mouseWheelDown, mute := Up, Up, Up, Up, Up;
    }

    method UpdateDiscrete(keys: set<Key>, buttons: set<Button>, wheel: WheelMove)
      modifies this
      ensures View() == UpdateDiscreteSpec(old(View()), keys, buttons, wheel)
    {
      var next := UpdateDiscreteSpec(View(), keys, buttons, wheel);
      left, right, up, down, action1, action2 := next.left, next.right, next.up, next.down, next.action1, next.action2;
      mouseLeft, mouseRight, mouseWheelUp, mouseWheelDown, mute := next.mouseLeft, next.mouseRight, next.mouseWheelUp, next.mouseWheelDown, next.mute;
    }

    method UpdateContinuous(keys: set<Key>, buttons: set<Button>, wheel: WheelMove)
      modifies this
      ensures View() == UpdateContinuousSpec(old(View()), keys, buttons, wheel)
    {
      var next := UpdateContinuousSpec(View(), keys, buttons, wheel);
      left, right, up, down, action1, action2 := next.left, next.right, next.up, next.down, next.action1, next.action2;
      mouseLeft, mouseRight, mouseWheelUp, mouseWheelDown, mute := next.mouseLeft, next.mouseRight, next.mouseWheelUp, next.mouseWheelDown, next.mute;
    }
  }
}
