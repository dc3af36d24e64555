/** Small shared vocabulary: optional values, results with an error, and
    sequence selection by a boolean mask (the way a data frame is filtered). */
module Prelude {

  datatype Option<+T> = None | Some(value: T)

  datatype Result<+T, +E> = Ok(value: T) | Err(error: E)

  /** The elements of `s` for which `p` holds, in their original order:
      what `frame[mask]` keeps. */
  function Filter<T>(s: seq<T>, p: T -> bool): (r: seq<T>)
    ensures |r| <= |s|
  {
    if s == [] then [] else (if p(s[0]) then [s[0]] else []) + Filter(s[1..], p)
  }

  /** What is selected comes from the sequence and satisfies the mask, and every
      element that satisfies the mask is selected. */
  lemma {:induction false} FilterMembers<T>(s: seq<T>, p: T -> bool)
    ensures forall i :: 0 <= i < |Filter(s, p)| ==> Filter(s, p)[i] in s && p(Filter(s, p)[i])
    ensures forall i :: 0 <= i < |s| && p(s[i]) ==> s[i] in Filter(s, p)
  {
    if s != [] {
      var rest := s[1..];
      FilterMembers(rest, p);
      var head := if p(s[0]) then [s[0]] else [];
      assert Filter(s, p) == head + Filter(rest, p);
      forall i | 0 <= i < |s| && p(s[i]) ensures s[i] in Filter(s, p) {
        if i > 0 {
          assert s[i] == rest[i - 1];
        }
      }
    }
  }

  /** Selection distributes over concatenation: it keeps the relative order of what it keeps. */
  lemma {:induction false} FilterAppend<T>(a: seq<T>, b: seq<T>, p: T -> bool)
    ensures Filter(a + b, p) == Filter(a, p) + Filter(b, p)
  {
    if a == [] {
      assert a + b == b;
    } else {
      var ab := a + b;
      var rest := a[1..];
      assert ab[0] == a[0] && ab[1..] == rest + b;
      FilterAppend(rest, b, p);
      var head := if p(a[0]) then [a[0]] else [];
      assert Filter(ab, p) == head + Filter(rest + b, p);
      assert Filter(a, p) == head + Filter(rest, p);
    }
  }

  /** Selecting from a sequence with one more element at the end. */
  lemma FilterSnoc<T>(s: seq<T>, x: T, p: T -> bool)
    ensures Filter(s + [x], p) == Filter(s, p) + (if p(x) then [x] else [])
  {
    FilterAppend(s, [x], p);
  }

  /** Masks that agree on the elements select the same. */
  lemma {:induction false} FilterCongruent<T>(s: seq<T>, p: T -> bool, q: T -> bool)
    requires forall i :: 0 <= i < |s| ==> p(s[i]) == q(s[i])
    ensures Filter(s, p) == Filter(s, q)
  {
    if s != [] {
      var rest := s[1..];
      FilterCongruent(rest, p, q);
    }
  }

  /** Nothing is selected exactly when the mask holds of no element. */
  lemma FilterEmpty<T>(s: seq<T>, p: T -> bool)
    ensures Filter(s, p) == [] <==> forall i :: 0 <= i < |s| ==> !p(s[i])
  {
    FilterMembers(s, p);
    if Filter(s, p) != [] {
      assert Filter(s, p)[0] in s;
    }
  }

  /** Selecting twice with the same mask selects nothing more. */
  lemma {:induction false} FilterIdempotent<T>(s: seq<T>, p: T -> bool)
    ensures Filter(Filter(s, p), p) == Filter(s, p)
  {
    if s != [] {
      var rest := s[1..];
      FilterIdempotent(rest, p);
      var head := if p(s[0]) then [s[0]] else [];
      FilterAppend(head, Filter(rest, p), p);
    }
  }

  /** Two selections in a row are one selection by the conjunction of the masks. */
  lemma {:induction false} FilterFilter<T>(s: seq<T>, p: T -> bool, q: T -> bool, both: T -> bool)
    requires forall i :: 0 <= i < |s| ==> both(s[i]) == (p(s[i]) && q(s[i]))
    ensures Filter(Filter(s, p), q) == Filter(s, both)
  {
    if s != [] {
      var rest := s[1..];
      FilterFilter(rest, p, q, both);
      var head := if p(s[0]) then [s[0]] else [];
      FilterAppend(head, Filter(rest, p), q);
    }
  }

  /** A mask and its complement split a sequence into two parts that together
      hold every element exactly as often as the sequence does. */
  lemma {:induction false} FilterPartition<T>(s: seq<T>, p: T -> bool, q: T -> bool)
    requires forall i :: 0 <= i < |s| ==> q(s[i]) == !p(s[i])
    ensures multiset(Filter(s, p)) + multiset(Filter(s, q)) == multiset(s)
  {
    if s != [] {
      var rest := s[1..];
      FilterPartition(rest, p, q);
      assert s == [s[0]] + rest;
    }
  }

  /** One decimal digit. */
  function Digit(n: int): char
    requires 0 <= n <= 9
  {
    (n + '0' as int) as char
  }

  /** The value of a decimal digit character. */
  function DigitValue(c: char): int
  {
    c as int - '0' as int
  }
}
