/** Subtraction Challenge (`games/subtraction.js`): an addition fact shown backwards, so the
    answer is always one of the selected tables. */
module Subtraction {
  import opened Js
  import opened Questions
  import opened Tables

  /** U+2212, the operation symbol and the symbol in the anti-repeat key. */
  const Minus: char := '\U{2212}'

  const Config: GameConfig := GameConfig("subtraction", Minus, InvertedSubtraction, 1, 12)

  /** The overriding `nextQuestion` draw: the answer from the selected tables, the
      subtrahend from 1..12, the minuend their sum, remembered as `${minuend}−${subtrahend}`. */
  function Generate(tables: seq<nat>, d: Draw): (c: Candidate)
    ensures c.key == Key(c.question.a, Minus, c.question.b)
    ensures c.question.b == Whole(d.second)
    ensures c.question.a.Whole? <==> c.question.result.Whole?
    ensures c.question.result.Whole? ==> c.question.a.n - c.question.b.n == c.question.result.n
  {
    var result := Pick(tables, d.index);
    var subtrahend := Whole(d.second);
    var minuend := Plus(result, subtrahend);
    Candidate(Key(minuend, Minus, subtrahend), Question(minuend, subtrahend, result))
  }

  /** With a table selected every question shows whole operands whose difference is the
      expected answer, and that answer is one of the selected tables: never negative. */
  lemma PositiveAnswers(tables: seq<nat>, d: Draw)
    requires InRange(tables) && |tables| > 0 && ValidDraw(d, |tables|)
    ensures var q := Generate(tables, d).question;
      && q.a.Whole? && q.b.Whole? && q.result.Whole?
      && q.a.n - q.b.n == q.result.n
      && q.result.n in tables && 1 <= q.result.n <= 12
      && 1 <= q.b.n <= 12 && 2 <= q.a.n <= 24
  {
  }

  /** The question is the addition question the same draw gives, turned around: the
      minuend is that sum and the expected answer is its first operand. */
  lemma InvertsAddition(tables: seq<nat>, d: Draw)
    ensures var sub := Generate(tables, d).question;
      var add := StandardCandidate(Sum, '+', tables, d).question;
      sub.a == add.result && sub.b == add.b && sub.result == add.a
  {
  }

  /** With no table selected the expected answer is `undefined`, which no typed number
      equals. */
  lemma NoTablesNoAnswer(d: Draw, v: nat)
    ensures Generate([], d).question.result != Whole(v)
  {
  }

  /** Two draws of different subtrahends are remembered under different keys. */
  lemma KeysSeparate(tables: seq<nat>, d1: Draw, d2: Draw)
    requires d1.second != d2.second
    ensures Generate(tables, d1).key != Generate(tables, d2).key
  {
  }
}
