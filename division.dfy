/** Division Masters (`games/division.js`): a multiplication fact shown backwards, so the
    answer is always a whole number. */
module Division {
  import opened Js
  import opened Questions
  import opened Tables

  /** U+00F7, the operation symbol and the symbol in the anti-repeat key. */
  const Divide: char := '\U{F7}'

  const Config: GameConfig := GameConfig("division", Divide, InvertedDivision, 1, 12)

  /** `NaN÷undefined`: the key of every question drawn from an empty selection. */
  const DeadKey: Key := Key(NaN, Divide, Undefined)

  /** The overriding `nextQuestion` draw: the divisor from the selected tables, the
      quotient from 1..12, the dividend their product, remembered as
      `${dividend}÷${divisor}`. */
  function Generate(tables: seq<nat>, d: Draw): (c: Candidate)
    ensures c.key == Key(c.question.a, Divide, c.question.b)
    ensures c.question.result == Whole(d.second)
    ensures c.question.a.Whole? <==> c.question.b.Whole?
    ensures c.question.b.Whole? && c.question.b.n > 0 ==>
      c.question.a.n % c.question.b.n == 0 && c.question.a.n / c.question.b.n == c.question.result.n
  {
    var divisor := Pick(tables, d.index);
    var quotient := Whole(d.second);
    var dividend := Times(divisor, quotient);
    var c := Candidate(Key(dividend, Divide, divisor), Question(dividend, divisor, quotient));
    if divisor.Whole? && divisor.n > 0 then ExactQuotient(divisor.n, d.second); c else c
  }

  /** With a table selected every question divides exactly: the divisor is a selected
      table and the expected answer is the whole quotient, in 1..12. */
  lemma WholeAnswers(tables: seq<nat>, d: Draw)
    requires InRange(tables) && |tables| > 0 && ValidDraw(d, |tables|)
    ensures var q := Generate(tables, d).question;
      && q.a.Whole? && q.b.Whole? && q.result.Whole?
      && q.b.n in tables && 1 <= q.result.n <= 12
      && q.a.n % q.b.n == 0 && q.a.n / q.b.n == q.result.n
  {
  }

  /** The multiple `t * k` of a positive `t` divides by `t` exactly, to `k`. */
  lemma ExactQuotient(t: nat, k: nat)
    requires t > 0
    ensures (t * k) % t == 0 && (t * k) / t == k
  {
    var q := (t * k) / t;
    var r := (t * k) % t;
    assert t * k == t * q + r && 0 <= r < t;
    var e := k - q;
    assert t * e == r;
  }

  /** The question is the multiplication question the same draw gives, turned around:
      the dividend is that product and the expected answer is its second operand. */
  lemma InvertsMultiplication(tables: seq<nat>, d: Draw)
    ensures var div := Generate(tables, d).question;
      var mul := StandardCandidate(Product, Divide, tables, d).question;
      div.a == mul.result && div.b == mul.a && div.result == mul.b
  {
  }

  /** With no table selected every draw is remembered under the one key `NaN÷undefined`,
      yet its expected answer is the drawn quotient. */
  lemma EmptySelectionOneKey(d: Draw)
    requires ValidDraw(d, 0)
    ensures Generate([], d).key == DeadKey
    ensures Generate([], d).question.result == Whole(d.second)
  {
  }

  /** With a table selected, two draws of the same divisor and different quotients are
      remembered under different keys. */
  lemma KeysSeparate(tables: seq<nat>, d1: Draw, d2: Draw)
    requires InRange(tables) && d1.index == d2.index < |tables| && d1.second != d2.second
    ensures Generate(tables, d1).key != Generate(tables, d2).key
  {
    var t := tables[d1.index];
    if t * d1.second == t * d2.second {
      ExactQuotient(t, d1.second);
      ExactQuotient(t, d2.second);
    }
  }
}
