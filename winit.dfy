/** The few window-system event types the input trackers match on. */
module Winit {
  /** `ElementState`: whether a key or button went down or up. */
  datatype ElementState = Pressed | Released
}
