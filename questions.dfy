/** Questions of the classic games and the anti-repeat rule shared by every generator. */
module Questions {
  import opened Js

  /** `current`: the two operands shown and the expected answer. */
  datatype Question = Question(a: Num, b: Num, result: Num)

  /** The anti-repeat key `${left}${symbol}${right}`. Number renderings contain no operator
      symbol, so two rendered keys are equal exactly when these three parts are. */
  datatype Key = Key(left: Num, symbol: char, right: Num)

  /** The `operationFn` a standard game computes its answer with. */
  datatype ArithFn = Sum | Product

  /** How a game builds its questions: the shared generator with the configured
      `operationFn`, or one of the two overrides that draw the answer first. */
  datatype Generator = Standard(fn: ArithFn) | InvertedSubtraction | InvertedDivision

  /** What a game's constructor passes to the shared engine. `minFactor` and `maxFactor`
      are stored but read by nothing. */
  datatype GameConfig = GameConfig(
    gameId: string, operation: char, generator: Generator, minFactor: int, maxFactor: int)

  /** One use of `Math.random` twice: `index` is `Math.floor(Math.random() * tables.length)`
      and `second` is `Math.floor(Math.random() * 12) + 1`. */
  datatype Draw = Draw(index: nat, second: nat)

  predicate ValidDraw(d: Draw, size: nat) {
    (if size == 0 then d.index == 0 else d.index < size) && 1 <= d.second <= 12
  }

  predicate DrawsValid(draws: seq<Draw>, size: nat) {
    forall i :: 0 <= i < |draws| ==> ValidDraw(draws[i], size)
  }

  /** `tables[index]`, which is `undefined` past the end. */
  function Pick(tables: seq<nat>, index: nat): (a: Num)
    ensures index < |tables| ==> a == Whole(tables[index])
    ensures index >= |tables| ==> a == Undefined
  {
    if index < |tables| then Whole(tables[index]) else Undefined
  }

  /** A generated question with the key it is remembered by. */
  datatype Candidate = Candidate(key: Key, question: Question)

  /** `lastPair === pair` */
  predicate Repeats(c: Candidate, lastPair: Option<Key>) {
    lastPair == Some(c.key)
  }

  predicate HasFresh(cands: seq<Candidate>, lastPair: Option<Key>) {
    exists i :: 0 <= i < |cands| && !Repeats(cands[i], lastPair)
  }

  /** Which draw the re-drawing recursion settles on: the first whose key differs from
      the previous one. */
  function FirstFresh(cands: seq<Candidate>, lastPair: Option<Key>): (k: nat)
    requires HasFresh(cands, lastPair)
    ensures k < |cands| && !Repeats(cands[k], lastPair)
    ensures forall j :: 0 <= j < k ==> Repeats(cands[j], lastPair)
  {
    if !Repeats(cands[0], lastPair) then 0
    else
      assert HasFresh(cands[1..], lastPair) by {
        var i :| 0 <= i < |cands| && !Repeats(cands[i], lastPair);
        assert cands[1..][i - 1] == cands[i];
      }
      1 + FirstFresh(cands[1..], lastPair)
  }

  /** `operationFn(a, b)` of the standard games. */
  function Apply(fn: ArithFn, a: Num, b: Num): Num
  {
    match fn
    case Sum => Plus(a, b)
    case Product => Times(a, b)
  }

  /** The shared generator: `a` from the selected tables, `b` from 1..12, the answer
      `operationFn(a, b)` and the key `${a}${operation}${b}`. */
  function StandardCandidate(fn: ArithFn, symbol: char, tables: seq<nat>, d: Draw): (c: Candidate)
    ensures c.question.a == Pick(tables, d.index) && c.question.b == Whole(d.second)
    ensures c.question.result == Apply(fn, c.question.a, c.question.b)
    ensures c.key == Key(c.question.a, symbol, c.question.b)
  {
    var a := Pick(tables, d.index);
    var b := Whole(d.second);
    Candidate(Key(a, symbol, b), Question(a, b, Apply(fn, a, b)))
  }

  /** With tables drawn from 1..12 the shared generator shows operands in the selected
      tables and 1..12, and its answer is a whole number exactly when a table is selected. */
  lemma StandardOperands(fn: ArithFn, symbol: char, tables: seq<nat>, d: Draw)
    requires ValidDraw(d, |tables|)
    ensures var q := StandardCandidate(fn, symbol, tables, d).question;
      && (q.a.Whole? <==> |tables| > 0)
      && (q.a.Whole? ==> q.a.n in tables)
      && q.b.Whole? && 1 <= q.b.n <= 12
      && (q.result.Whole? <==> |tables| > 0)
  {
  }
}
