/**
 * The process-wide `Math.random()` source, made explicit. Every call returns a
 * number in [0, 1); the engine either scales and floors it or interpolates its
 * printed form into the output. A draw therefore carries both its value and
 * the text JavaScript prints for it. The source is an infinite stream indexed
 * by position; each generator takes the position of its first draw and
 * returns the position after its last one.
 */
module RandomSource {

  datatype Draw = Draw(value: real, text: string)

  /** The printed form of a number: non-empty, digits, point, exponent and sign only. */
  predicate IsNumberText(t: string) {
    |t| > 0 && forall i :: 0 <= i < |t| ==> IsNumberChar(t[i])
  }

  predicate IsNumberChar(c: char) {
    '0' <= c <= '9' || c == '.' || c == 'e' || c == '+' || c == '-'
  }

  type Uniform = d: Draw | 0.0 <= d.value < 1.0 && IsNumberText(d.text) witness Draw(0.0, "0")

  type Stream = nat -> Uniform

  /** `${Math.random()}`: the printed form of one draw. */
  function PrintedDraw(rs: Stream, at: nat): (t: string)
    ensures IsNumberText(t)
  {
    rs(at).text
  }

  /** A generated value and the stream position after the draws it consumed. */
  datatype Gen<T> = Gen(value: T, next: nat)

  lemma FloorWithin(x: real, lo: int, hi: int)
    requires lo as real <= x < hi as real
    ensures lo <= x.Floor < hi
  {
  }

  lemma ScaledRange(u: real, n: int)
    requires 0.0 <= u < 1.0
    ensures n > 0 ==> 0.0 <= u * (n as real) < n as real
    ensures n <= 0 ==> n as real <= u * (n as real) <= 0.0
  {
    var m := n as real;
    if n > 0 {
      assert m - u * m == m * (1.0 - u);
    } else {
      assert u * m - m == (-m) * (1.0 - u);
    }
  }

  /** The floor of a scaled draw stays in the range of the scale. */
  lemma ScaledFloorRange(u: real, n: int)
    requires 0.0 <= u < 1.0
    ensures n > 0 ==> 0 <= (u * (n as real)).Floor < n
    ensures n <= 0 ==> n <= (u * (n as real)).Floor <= 0
  {
    var x := u * (n as real);
    ScaledRange(u, n);
    if n > 0 {
      FloorWithin(x, 0, n);
    } else {
      FloorWithin(x, n, 1);
    }
  }

  /** `Math.floor(Math.random() * n)`. */
  function Scale(u: Uniform, n: int): (r: int)
    ensures n > 0 ==> 0 <= r < n
    ensures n <= 0 ==> n <= r <= 0
  {
    ScaledFloorRange(u.value, n);
    (u.value * (n as real)).Floor
  }

}
