/**
  The keyboard tracker of wgpu-app/src/io/keyboard.rs: for every key seen,
  whether it is held, and which keys changed during the current frame.
*/
module InputKeyboard {
  import opened Wrappers
  import opened Winit

  /** `PhysicalKey`: a known key code, or the platform's scan code for an unknown key. */
  datatype PhysicalKey = Code(code: nat) | Unidentified(native: nat)

  /** The events `handle_event` looks at, with everything else as `Unrelated`. */
  datatype Event =
    | KeyboardInput(state: ElementState, key: PhysicalKey)
    | Unrelated

  /** `Keyboard`. */
  class Keyboard {
    /** For every key seen: true while it is held. */
    var keys: map<PhysicalKey, bool>
    /** The keys that went down or up during the current frame, each mapped to true. */
    var thisFrame: map<PhysicalKey, bool>

    /** `Keyboard::new`. */
    constructor ()
      ensures keys == map[] && thisFrame == map[]
      ensures forall k :: !IsPressed(k) && !PressedThisFrame(k) && !ReleasedThisFrame(k)
    {
      keys := map[];
      thisFrame := map[];
    }

    /** `press`. */
    method Press(key: PhysicalKey)
      modifies this
      ensures keys == old(keys)[key := true] && thisFrame == old(thisFrame)[key := true]
      ensures IsPressed(key) && PressedThisFrame(key)
    {
      keys := keys[key := true];
      thisFrame := thisFrame[key := true];
    }

    /** `release`. */
    method Release(key: PhysicalKey)
      modifies this
      ensures keys == old(keys)[key := false] && thisFrame == old(thisFrame)[key := true]
      ensures !IsPressed(key) && ReleasedThisFrame(key)
    {
      keys := keys[key := false];
      thisFrame := thisFrame[key := true];
    }

    /** `handle_event`: a key going down is a press, any other key event a release. */
    method HandleEvent(e: Event)
      modifies this
      ensures e.KeyboardInput? && e.state == Pressed ==>
        keys == old(keys)[e.key := true] && thisFrame == old(thisFrame)[e.key := true]
      ensures e.KeyboardInput? && e.state != Pressed ==>
        keys == old(keys)[e.key := false] && thisFrame == old(thisFrame)[e.key := true]
      ensures !e.KeyboardInput? ==> keys == old(keys) && thisFrame == old(thisFrame)
    {
      if e.KeyboardInput? {
        if e.state == Pressed {
          Press(e.key);
        } else {
          Release(e.key);
        }
      }
    }

    /** `pressed_this_frame`. */
    function PressedThisFrame(key: PhysicalKey): (r: bool)
      reads this
      ensures r <==> IsPressed(key) && key in thisFrame && thisFrame[key]
    {
      match if key in keys then Some(keys[key]) else None
      case None => false
      case Some(false) => false
      case Some(true) => key in thisFrame && thisFrame[key]
    }

    /** `released_this_frame`. */
    function ReleasedThisFrame(key: PhysicalKey): (r: bool)
      reads this
      ensures r <==> !IsPressed(key) && key in thisFrame && thisFrame[key]
      ensures r ==> !PressedThisFrame(key)
    {
      match if key in keys then Some(keys[key]) else None
      case Some(true) => false
      case _ => key in thisFrame && thisFrame[key]
    }

    /** `is_pressed`. */
    function IsPressed(key: PhysicalKey): (r: bool)
      reads this
      ensures key !in keys ==> !r
    {
      key in keys && keys[key]
    }

    /** `next_frame`: every key is unchanged for the new frame; what is held stays held. */
    method NextFrame()
      modifies this
      ensures thisFrame == map[] && keys == old(keys)
      ensures forall k :: !PressedThisFrame(k) && !ReleasedThisFrame(k)
      ensures forall k :: IsPressed(k) == old(IsPressed(k))
    {
      thisFrame := map[];
    }
  }

  /** A key pressed and released within one frame reports only the release. */
  method TapWithinFrame(kb: Keyboard, key: PhysicalKey)
    modifies kb
    ensures kb.ReleasedThisFrame(key) && !kb.PressedThisFrame(key) && !kb.IsPressed(key)
  {
    kb.HandleEvent(KeyboardInput(Pressed, key));
    kb.HandleEvent(KeyboardInput(Released, key));
  }
}
