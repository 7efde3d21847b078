/**
  The mouse tracker of wgpu-app/src/io/mouse.rs: which of ten buttons are
  held and which changed during the current frame, the cursor position,
  and the motion and scroll accumulated since the last frame.
*/
module InputMouse {
  import opened Wrappers
  import opened Winit
  import opened VarInt

  /** The number of buttons tracked (the length of both arrays). */
  const BUTTONS := 10

  /** `MouseButton`. */
  datatype MouseButton = Left | Middle | Right | Back | Forward | Other(number: U16)

  /** The events `handle_event` looks at, with everything else as `Unrelated`. */
  datatype Event =
    | CursorMoved(x: real, y: real)                     // a window event, in physical pixels
    | MouseInput(state: ElementState, button: MouseButton)
    | LineScroll(lines: (real, real))                   // `MouseWheel` with a `LineDelta`
    | PixelScroll(pixels: (real, real))                 // `MouseWheel` with a `PixelDelta`
    | Focused(focused: bool)
    | MouseMotion(motion: (real, real))                 // a device event, raw motion
    | Unrelated

  /** The array slot of a button; `None` for the buttons `handle_event` ignores. */
  function ButtonIndex(button: MouseButton): (r: Option<nat>)
    ensures r.Some? ==> r.value < BUTTONS
    ensures r.None? <==> button.Back? || button.Forward? || (button.Other? && button.number > 9)
    ensures button.Other? && r.Some? ==> r.value == button.number
  {
    match button
    case Left => Some(0)
    case Middle => Some(1)
    case Right => Some(2)
    case Other(n) => if n > 9 then None else Some(n)
    case Back => None
    case Forward => None
  }

  /** Rust's `f64 as i32`: rounds toward zero and saturates at the bounds of `i32`. */
  function CastI32(x: real): (r: I32)
    ensures x >= 0.0 ==> 0 <= r && r as real <= x && (x < 0x7FFF_FFFF as real ==> x < (r + 1) as real)
    ensures x <= 0.0 ==> r <= 0 && x <= r as real && (x > -0x8000_0000 as real ==> (r - 1) as real < x)
    ensures x >= 0x7FFF_FFFF as real ==> r == 0x7FFF_FFFF
    ensures x <= -0x8000_0000 as real ==> r == -0x8000_0000
  {
    var t := if x >= 0.0 then x.Floor else -((-x).Floor);
    if t < -0x8000_0000 then -0x8000_0000 else if t > 0x7FFF_FFFF then 0x7FFF_FFFF else t
  }

  /** `Mouse`. */
  class Mouse {
    const thisFrame: array<bool>
    const pressed: array<bool>
    var pos: (I32, I32)
    var delta: (real, real)
    var wheel: (real, real)
    var focused: bool

    /** Both arrays hold one entry per tracked button and are distinct. */
    ghost predicate Valid()
      reads this
    {
      thisFrame.Length == BUTTONS && pressed.Length == BUTTONS && thisFrame != pressed
    }

    /** `Mouse::new`. */
    constructor ()
      ensures Valid() && fresh(thisFrame) && fresh(pressed)
      ensures forall b :: 0 <= b < BUTTONS ==> !pressed[b] && !thisFrame[b]
      ensures pos == (0, 0) && delta == (0.0, 0.0) && wheel == (0.0, 0.0) && focused
    {
      thisFrame := new bool[BUTTONS](_ => false);
      pressed := new bool[BUTTONS](_ => false);
      pos := (0, 0);
      delta := (0.0, 0.0);
      wheel := (0.0, 0.0);
      focused := true;
    }

    /** `press_button`: the button is down, and changed this frame; no other slot moves. */
    method PressButton(button: nat)
      requires Valid() && button < BUTTONS
      modifies pressed, thisFrame
      ensures pressed[..] == old(pressed[..])[button := true]
      ensures thisFrame[..] == old(thisFrame[..])[button := true]
      ensures IsPressed(button) && PressedThisFrame(button)
    {
      thisFrame[button] := true;
      pressed[button] := true;
    }

    /** `release_button`: the button is up, and changed this frame; no other slot moves. */
    method ReleaseButton(button: nat)
      requires Valid() && button < BUTTONS
      modifies pressed, thisFrame
      ensures pressed[..] == old(pressed[..])[button := false]
      ensures thisFrame[..] == old(thisFrame[..])[button := true]
      ensures !IsPressed(button) && ReleasedThisFrame(button)
    {
      thisFrame[button] := true;
      pressed[button] := false;
    }

    /** `translate`. */
    method Translate(d: (real, real))
      modifies this
      ensures delta == (old(delta.0) + d.0, old(delta.1) + d.1)
      ensures pos == old(pos) && wheel == old(wheel) && focused == old(focused)
    {
      delta := (delta.0 + d.0, delta.1 + d.1);
    }

    /** `scroll`: accumulates only while the window has the focus. */
    method Scroll(w: (real, real))
      modifies this
      ensures wheel == if focused then (old(wheel.0) + w.0, old(wheel.1) + w.1) else old(wheel)
      ensures pos == old(pos) && delta == old(delta) && focused == old(focused)
    {
      if !focused {
        return;
      }
      wheel := (wheel.0 + w.0, wheel.1 + w.1);
    }

    /** `update_pos`. */
    method UpdatePos(p: (I32, I32))
      modifies this
      ensures pos == p
      ensures delta == old(delta) && wheel == old(wheel) && focused == old(focused)
    {
      pos := p;
    }

    /** `handle_event`. */
    method HandleEvent(e: Event)
      requires Valid()
      modifies this, pressed, thisFrame
      ensures Valid()
      ensures pos == if e.CursorMoved? then (CastI32(e.x), CastI32(e.y)) else old(pos)
      ensures focused == if e.Focused? then e.focused else old(focused)
      ensures wheel == if e.LineScroll? && old(focused)
                       then (old(wheel.0) + e.lines.0, old(wheel.1) + e.lines.1) else old(wheel)
      ensures delta == if e.MouseMotion? && old(focused)
                       then (old(delta.0) + e.motion.0, old(delta.1) + e.motion.1) else old(delta)
      ensures e.MouseInput? && ButtonIndex(e.button).Some? ==>
        var b := ButtonIndex(e.button).value;
        && pressed[..] == old(pressed[..])[b := e.state == Pressed]
        && thisFrame[..] == old(thisFrame[..])[b := true]
      ensures !(e.MouseInput? && ButtonIndex(e.button).Some?) ==>
        pressed[..] == old(pressed[..]) && thisFrame[..] == old(thisFrame[..])
    {
      match e
      case CursorMoved(x, y) =>
        UpdatePos((CastI32(x), CastI32(y)));
      case MouseInput(state, button) =>
        var b := ButtonIndex(button);
        if b.None? {
          return;
        }
        if state == Pressed {
          PressButton(b.value);
        } else {
          ReleaseButton(b.value);
        }
      case LineScroll(lines) =>
        Scroll(lines);
      case PixelScroll(_) =>
      case Focused(f) =>
        focused := f;
      case MouseMotion(motion) =>
        if focused {
          Translate(motion);
        }
      case Unrelated =>
    }

    /** `next_frame`: no button has changed yet in the new frame; what is held stays held. */
    method NextFrame()
      requires Valid()
      modifies this, thisFrame
      ensures Valid()
      ensures forall b :: 0 <= b < BUTTONS ==> !thisFrame[b]
      ensures pressed[..] == old(pressed[..]) && pos == old(pos) && focused == old(focused)
      ensures delta == (0.0, 0.0) && wheel == (0.0, 0.0)
      ensures forall b :: 0 <= b < BUTTONS ==>
        !PressedThisFrame(b) && !ReleasedThisFrame(b) && IsPressed(b) == old(IsPressed(b))
    {
      delta := (0.0, 0.0);
      wheel := (0.0, 0.0);
      forall b | 0 <= b < BUTTONS {
        thisFrame[b] := false;
      }
    }

    /** `is_pressed`. */
    function IsPressed(button: nat): bool
      requires Valid() && button < BUTTONS
      reads this, pressed
    {
      pressed[button]
    }

    /** `pressed_this_frame`. */
    function PressedThisFrame(button: nat): (r: bool)
      requires Valid() && button < BUTTONS
      reads this, pressed, thisFrame
      ensures r ==> thisFrame[button] && IsPressed(button)
    {
      pressed[button] && thisFrame[button]
    }

    /** `released_this_frame`. */
    function ReleasedThisFrame(button: nat): (r: bool)
      requires Valid() && button < BUTTONS
      reads this, pressed, thisFrame
      ensures r ==> thisFrame[button] && !IsPressed(button)
      ensures r ==> !PressedThisFrame(button)
    {
      !pressed[button] && thisFrame[button]
    }
  }

  /** A button pressed and then carried into the next frame is held but no longer new. */
  method PressThenNextFrame(m: Mouse, button: nat)
    requires m.Valid() && button < BUTTONS
    modifies m, m.pressed, m.thisFrame
    ensures m.Valid() && m.IsPressed(button)
    ensures !m.PressedThisFrame(button) && !m.ReleasedThisFrame(button)
  {
    m.PressButton(button);
    m.NextFrame();
  }

  /** A button pressed and released within one frame reports only the release. */
  method ClickWithinFrame(m: Mouse, button: nat)
    requires m.Valid() && button < BUTTONS
    modifies m, m.pressed, m.thisFrame
    ensures m.Valid() && m.ReleasedThisFrame(button)
    ensures !m.PressedThisFrame(button) && !m.IsPressed(button)
  {
    m.HandleEvent(MouseInput(Pressed, Other(button)));
    m.HandleEvent(MouseInput(Released, Other(button)));
  }
}
