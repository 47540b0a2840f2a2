/** The answer buffer every engine keeps: digits appended while shorter than three
    characters, the last character dropped by the back key. */
module Keypad {
  import opened Text

  const Cap: nat := 3

  /** What a keypad click lands on: a digit key, the back key, the enter key, or no key
      at all (`closest('.key')` is null). */
  datatype Button = DigitKey(face: char) | BackKey | EnterKey | NoKey

  /** `s.slice(0, -1)`, which leaves the empty string empty. */
  function DropLast(s: string): (r: string)
    ensures |s| > 0 ==> |r| == |s| - 1 && s == r + [s[|s| - 1]]
    ensures |s| == 0 ==> r == s
  {
    if |s| == 0 then s else s[..|s| - 1]
  }

  /** A digit key: `if (/\d/.test(c) && s.length < 3) s += c`. */
  function Typed(s: string, c: char): (r: string)
    ensures IsDigit(c) && |s| < Cap ==> r == s + [c]
    ensures !(IsDigit(c) && |s| < Cap) ==> r == s
  {
    if IsDigit(c) && |s| < Cap then s + [c] else s
  }

  predicate WellFormed(s: string) {
    IsDigits(s) && |s| <= Cap
  }

  /** Keys keep the buffer a string of at most three digits, so `Number(buffer)` is never
      NaN and is below 1000. */
  lemma KeysKeepBuffer(s: string, c: char)
    requires WellFormed(s)
    ensures WellFormed(Typed(s, c)) && WellFormed(DropLast(s))
    ensures DecimalValue(Typed(s, c)) < 1000
  {
    var t := Typed(s, c);
    DecimalValueBound(t);
    assert Pow10(|t|) <= Pow10(3) == 1000 by {
      if |t| < 3 {
        if |t| < 2 {
          if |t| < 1 {
          }
        }
      }
    }
  }

  /** The back key undoes an accepted digit. */
  lemma BackUndoesDigit(s: string, c: char)
    requires IsDigit(c) && |s| < Cap
    ensures DropLast(Typed(s, c)) == s
  {
  }

  /** Typing the digits of any answer below 1000 from an empty buffer fills the buffer
      with exactly those digits, which read back as the answer. */
  lemma {:induction false} TypeAnswer(n: nat)
    requires n < 1000
    ensures TypeAll("", Decimal(n)) == Decimal(n)
    ensures DecimalValue(TypeAll("", Decimal(n))) == n
  {
    DecimalLength(n, 3);
    TypeAllShort("", Decimal(n));
    DecimalRoundTrip(n);
  }

  /** The buffer after pressing the keys `keys` in order. */
  function TypeAll(s: string, keys: string): string
    decreases |keys|
  {
    if keys == [] then s else TypeAll(Typed(s, keys[0]), keys[1..])
  }

  lemma {:induction false} TypeAllShort(s: string, keys: string)
    requires IsDigits(keys) && |s| + |keys| <= Cap
    ensures TypeAll(s, keys) == s + keys
    decreases |keys|
  {
    if keys != [] {
      TypeAllShort(s + [keys[0]], keys[1..]);
      assert s + [keys[0]] + keys[1..] == s + keys;
    }
  }
}
