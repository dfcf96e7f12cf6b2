/** Indices of the queue are 64-bit words that wrap; the model counts without bound and maps to words. */
module Circular {
  const WORD: int := 0x1_0000_0000_0000_0000
  const HALF: int := 0x8000_0000_0000_0000

  type word = w: int | 0 <= w < WORD

  /** The word an unbounded index is stored as. */
  function Word(x: int): (w: word) {
    x % WORD
  }

  /** Unsigned subtraction of words. */
  function Sub(a: word, b: word): (w: word) {
    if a >= b then a - b else a - b + WORD
  }

  predicate CircularLess(a: word, b: word) {
    Sub(a, b) > HALF
  }

  predicate Near(x: int, y: int) {
    -HALF < x - y < HALF
  }

  /** Word subtraction is integer subtraction modulo the word size. */
  lemma WordSub(x: int, y: int)
    ensures Sub(Word(x), Word(y)) == Word(x - y)
  { }

  /** Within half the range the circular comparison of words is the integer order. */
  lemma CircularIsOrder(x: int, y: int)
    requires Near(x, y)
    ensures CircularLess(Word(x), Word(y)) <==> x < y
  { }

  /** Up to distance half the range it agrees with the integer order exactly when `y` is not `x` plus half. */
  lemma CircularIsOrderExactly(x: int, y: int)
    requires -HALF <= x - y <= HALF
    ensures (CircularLess(Word(x), Word(y)) <==> x < y) <==> y - x != HALF
  { }
}
