/** Reading back a list of things printed one after another, given that one thing is read back. */
module Lists {
  import opened Options

  /** What reads one thing at a position of a text: the thing, and the length of text it takes. */
  type Reader<!T> = (string, nat) -> Option<(T, nat)>

  function PrintAll<T>(show: T -> string, v: seq<T>): string {
    if v == [] then "" else PrintAll(show, v[..|v| - 1]) + show(v[|v| - 1])
  }

  /** One thing more, after those in `some`. */
  function AndNext<T>(one: Reader<T>, s: string, some: Option<(seq<T>, nat)>): Option<(seq<T>, nat)> {
    if some.None? then None
    else
      var next := one(s, some.value.1);
      if next.None? then None else Some((some.value.0 + [next.value.0], some.value.1 + next.value.1))
  }

  /** The next `n` things from `pos` on, and where they end. */
  function ReadAll<T>(one: Reader<T>, s: string, pos: nat, n: nat): Option<(seq<T>, nat)> {
    if n == 0 then Some(([], pos)) else AndNext(one, s, ReadAll(one, s, pos, n - 1))
  }

  /** Reading goes on where it stopped. */
  lemma OneRead<T>(one: Reader<T>, s: string, pos: nat, n: nat, some: seq<T>, p: nat, next: Option<(T, nat)>)
    requires ReadAll(one, s, pos, n) == Some((some, p)) && next == one(s, p)
    ensures next.Some? ==> ReadAll(one, s, pos, n + 1) == Some((some + [next.value.0], p + next.value.1))
    ensures next.None? ==> ReadAll(one, s, pos, n + 1).None?
  {
  }

  lemma {:induction false} NoneStays<T>(one: Reader<T>, s: string, pos: nat, n: nat, m: nat)
    requires n <= m && ReadAll(one, s, pos, n).None?
    ensures ReadAll(one, s, pos, m).None?
  {
    if n < m { NoneStays(one, s, pos, n, m - 1); }
  }

  /** Whatever is `good` and printed is read back with its exact length, wherever it stands and whatever
      follows it. */
  ghost predicate ReadsBack<T(!new)>(one: Reader<T>, show: T -> string, good: T -> bool) {
    forall x: T, before: string, rest: string {:trigger before + show(x) + rest} ::
      good(x) ==> one(before + show(x) + rest, |before|) == Some((x, |show(x)|))
  }

  lemma Regroup(a: string, b: string, c: string, d: string)
    ensures a + (b + c) + d == a + b + (c + d) == (a + b) + c + d
  {
  }

  /** The element after what has been printed is read. */
  lemma NextReadBack<T(!new)>(one: Reader<T>, show: T -> string, good: T -> bool, before: string, x: T, rest: string)
    requires ReadsBack(one, show, good) && good(x)
    ensures one(before + show(x) + rest, |before|) == Some((x, |show(x)|))
  {
  }

  lemma {:induction false} AllReadBack<T(!new)>(one: Reader<T>, show: T -> string, good: T -> bool, before: string,
                                                v: seq<T>, rest: string)
    requires ReadsBack(one, show, good) && forall x {:trigger good(x)} :: x in v ==> good(x)
    ensures ReadAll(one, before + PrintAll(show, v) + rest, |before|, |v|) == Some((v, |before| + |PrintAll(show, v)|))
    decreases |v|
  {
    if v != [] {
      var w, x := v[..|v| - 1], v[|v| - 1];
      var sw, m := PrintAll(show, w), show(x);
      assert x in v && good(x);
      AllReadBack(one, show, good, before, w, m + rest);
      NextReadBack(one, show, good, before + sw, x, rest);
      assert PrintAll(show, v) == sw + m;
      Regroup(before, sw, m, rest);
      assert |before + sw| == |before| + |sw|;
      assert v == w + [x];
    }
  }
}
