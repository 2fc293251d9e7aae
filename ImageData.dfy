/** The image record of the component and its rotation state. */
module Images {

  datatype Option<+T> = None | Some(value: T)

  /** A preview handle as returned by the browser's object-URL factory.
      The factory never hands out the same handle twice, so the model
      represents a handle by the serial number of the call that made it. */
  datatype Url = Url(id: nat)

  /** A selected image file. The model keeps its name and the pixel size the
      browser decodes it to; the bytes themselves are not modelled. */
  datatype File = File(name: string, width: nat, height: nat)

  /** One imported image: its file, its preview handle and its rotation in degrees. */
  datatype ImageData = ImageData(file: File, url: Url, rotated: nat)

  /** The angles a record can hold: every record starts at 0 and only ever turns by 90. */
  predicate IsQuarterTurn(angle: nat)
  {
    angle == 0 || angle == 90 || angle == 180 || angle == 270
  }

  /** One press of the rotate button: a quarter turn clockwise, wrapping at 360. */
  function Rotate(angle: nat): (r: nat)
    ensures r < 360
    ensures r % 90 == angle % 90
    ensures IsQuarterTurn(angle) ==> IsQuarterTurn(r)
    ensures angle < 270 ==> r == angle + 90
    ensures angle == 270 ==> r == 0
  {
    (angle + 90) % 360
  }

  /** The angle after `n` presses of the rotate button, starting from `angle`. */
  function RotateTimes(angle: nat, n: nat): nat
  {
    if n == 0 then angle else Rotate(RotateTimes(angle, n - 1))
  }

  lemma ModOfSum(a: nat)
    ensures (a % 360 + 90) % 360 == (a + 90) % 360
  {
  }

  /** n presses turn the record by 90·n degrees, taken modulo 360 — in particular
      a fresh record (angle 0) is at (90·n) mod 360. */
  lemma {:induction false} RotateTimesClosedForm(angle: nat, n: nat)
    requires angle < 360
    ensures RotateTimes(angle, n) == (angle + 90 * n) % 360
  {
    if n > 0 {
      RotateTimesClosedForm(angle, n - 1);
      ModOfSum(angle + 90 * (n - 1));
      assert angle + 90 * (n - 1) + 90 == angle + 90 * n;
    }
  }

  /** Four presses bring a record back to where it started, and every angle
      reached from a quarter turn is again a quarter turn. */
  lemma {:induction false} RotateCycle(angle: nat, n: nat)
    requires IsQuarterTurn(angle)
    ensures IsQuarterTurn(RotateTimes(angle, n))
    ensures RotateTimes(angle, n + 4) == RotateTimes(angle, n)
  {
    if n == 0 {
      assert RotateTimes(angle, 4) == angle;
    } else {
      RotateCycle(angle, n - 1);
    }
  }
}
