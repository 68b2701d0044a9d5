/** Small shared vocabulary: an optional value and the float geometry
    (points and rectangles, y growing downwards) that the preview widgets use.
    Floats are modelled as mathematical reals. */
module Basics {

  datatype Option<+T> = None | Some(value: T)

  /** A point in component coordinates; y grows downwards, as on screen. */
  datatype Point = Point(x: real, y: real)

  /** A rectangle given by its top-left corner, width and height. */
  datatype Rect = Rect(x: real, y: real, w: real, h: real) {
    function Right(): real { x + w }
    function Bottom(): real { y + h }
    function BottomLeft(): Point { Point(x, y + h) }
    function BottomRight(): Point { Point(x + w, y + h) }
  }

  function Min(a: real, b: real): real { if a <= b then a else b }
  function Abs(a: real): real { if a < 0.0 then -a else a }
}
