/** Text is put together piece by piece; the solver needs to be told when pieces regroup. */
module Strings {

  lemma Assoc(a: string, b: string, c: string)
    ensures (a + b) + c == a + (b + c)
  {
  }
}
