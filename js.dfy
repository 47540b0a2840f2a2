/** The few JavaScript value rules the games depend on. */
module Js {

  datatype Option<+T> = None | Some(value: T)

  /** An operand or expected answer of a question. `tables[k]` past the end of an empty
      table list is `undefined`, and arithmetic on `undefined` gives `NaN`; every other
      operand the games build is a non-negative whole number. */
  datatype Num = Whole(n: nat) | Undefined | NaN

  /** `x + y` */
  function Plus(x: Num, y: Num): (r: Num)
    ensures r.Whole? <==> x.Whole? && y.Whole?
    ensures r.Whole? ==> r.n == x.n + y.n
  {
    if x.Whole? && y.Whole? then Whole(x.n + y.n) else NaN
  }

  /** `x * y` */
  function Times(x: Num, y: Num): (r: Num)
    ensures r.Whole? <==> x.Whole? && y.Whole?
    ensures r.Whole? ==> r.n == x.n * y.n
  {
    if x.Whole? && y.Whole? then Whole(x.n * y.n) else NaN
  }

  /** The value `Number(input.value)` of the custom-seconds field: a finite number, or NaN
      or an infinity. */
  datatype JsNumber = Finite(value: real) | NonFinite

  /** `Number.isInteger(x)` */
  predicate IsInteger(x: JsNumber) {
    x.Finite? && x.value == x.value.Floor as real
  }

  /** `total ? Math.round(score / total * 100) : 0`, on exact rationals. */
  function Percent(score: nat, total: nat): (acc: nat)
    ensures total == 0 ==> acc == 0
    ensures total > 0 ==> 2 * total * acc <= 200 * score + total < 2 * total * (acc + 1)
    ensures score <= total ==> acc <= 100
  {
    if total == 0 then 0
    else
      var acc := (200 * score + total) / (2 * total);
      PercentAtMost100(score, total, acc);
      acc
  }

  lemma PercentAtMost100(score: nat, total: nat, acc: nat)
    requires total > 0 && acc == (200 * score + total) / (2 * total)
    ensures 2 * total * acc <= 200 * score + total < 2 * total * (acc + 1)
    ensures score <= total ==> acc <= 100
  {
    var d := 2 * total;
    var x := 200 * score + total;
    var r := x % d;
    assert x == d * acc + r && 0 <= r < d;
    assert d * (acc + 1) == d * acc + d;
    if score <= total {
      assert d * acc <= x <= 201 * total < d * 101;
      LessAfterScaling(d, acc, 101);
    }
  }

  lemma LessAfterScaling(d: nat, a: nat, b: nat)
    requires d > 0 && d * a < d * b
    ensures a < b
  {
  }

  /** `(ms / 1000).toFixed(1)` read back as a number of tenths of a second: the nearest
      tenth, halves rounded away from zero. */
  function Tenths(ms: int): (t: int)
    ensures ms >= 0 ==> t >= 0 && 100 * t - 50 <= ms < 100 * t + 50
    ensures ms < 0 ==> t <= 0 && 100 * t - 50 < ms <= 100 * t + 50
  {
    if ms >= 0 then (ms + 50) / 100 else -((-ms + 50) / 100)
  }
}
