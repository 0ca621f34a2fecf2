/** Prices become integer cents by way of floating point. */
module Money {
  /** Half a unit in the last place of a double, relative: 2^-53. */
  const U: real := 1.0 / 9007199254740992.0

  const MAX_CENTS: nat := 1125899906842624 // 2^50

  /** If the decimal is read and the product by 100 is rounded with relative errors
      of at most 2^-53 each, Math.round gives back exactly the cents that were written. */
  lemma CentsAreExact(cents: nat, read: real, product: real)
    requires cents <= MAX_CENTS
    requires -U * (cents as real) <= 100.0 * read - cents as real <= U * (cents as real)
    requires -U * (100.0 * read) <= product - 100.0 * read <= U * (100.0 * read)
    ensures (product + 0.5).Floor == cents
  {
    var c := cents as real;
    var error := U * c;
    assert error <= 0.125;
    assert 100.0 * read <= c + error;
    assert U * (100.0 * read) <= 0.25;
    assert c - 0.5 < product < c + 0.5;
  }
}
