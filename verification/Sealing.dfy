/** How this project keeps a definition folded.

    The verifier unfolds every definition it meets.  Where a name is to be reasoned about as a name, its
    predicate says what it says in a quantifier that only `Open` sets off:

      forall x {:trigger Open(x)} :: x == s ==> Body(x)

    This is just `Body(s)`: where `Body(s)` is known the predicate holds.  But the body comes out of it only
    where `assert Open(s)` is written.  The modules that use this name the body beside the sealed predicate
    (`RoundOf` beside `Round`, `UnlinkWrites` beside `Unlink`). */
module Sealing {
  ghost predicate Open<T>(x: T) { true }
}
