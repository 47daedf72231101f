/**
 * The Levenshtein distance the recognition check compares titles with: the
 * fewest single-character insertions, deletions and substitutions that turn
 * one string into the other, counted over characters.
 */
module Levenshtein {

  function Min3(x: nat, y: nat, z: nat): (m: nat)
    ensures m <= x && m <= y && m <= z
    ensures m == x || m == y || m == z
  {
    if x <= y && x <= z then x else if y <= z then y else z
  }

  function Distance(a: string, b: string): nat
    decreases |a| + |b|
  {
    if a == [] then |b|
    else if b == [] then |a|
    else Min3(
      Distance(a[1..], b) + 1,
      Distance(a, b[1..]) + 1,
      Distance(a[1..], b[1..]) + (if a[0] == b[0] then 0 else 1))
  }

  /** Against the empty string the distance is the length. */
  lemma DistanceToEmpty(a: string)
    ensures Distance(a, "") == |a| && Distance("", a) == |a|
  {
  }

  /** A string is at distance 0 from another exactly when they are equal. */
  lemma {:induction false} DistanceZeroIffEqual(a: string, b: string)
    ensures Distance(a, b) == 0 <==> a == b
    decreases |a| + |b|
  {
    if a != [] && b != [] {
      DistanceZeroIffEqual(a[1..], b[1..]);
      assert a == [a[0]] + a[1..] && b == [b[0]] + b[1..];
    }
  }

  /** The distance does not depend on which string comes first. */
  lemma {:induction false} DistanceSymmetric(a: string, b: string)
    ensures Distance(a, b) == Distance(b, a)
    decreases |a| + |b|
  {
    if a != [] && b != [] {
      DistanceSymmetric(a[1..], b);
      DistanceSymmetric(a, b[1..]);
      DistanceSymmetric(a[1..], b[1..]);
    }
  }

  /** The distance is at least the difference of the lengths and at most the longer length. */
  lemma {:induction false} DistanceBounds(a: string, b: string)
    ensures Distance(a, b) >= |a| - |b| && Distance(a, b) >= |b| - |a|
    ensures Distance(a, b) <= if |a| < |b| then |b| else |a|
    decreases |a| + |b|
  {
    if a != [] && b != [] {
      DistanceBounds(a[1..], b);
      DistanceBounds(a, b[1..]);
      DistanceBounds(a[1..], b[1..]);
    }
  }

  /**
   * Deleting one character after a common prefix costs at most one edit more
   * than turning what follows it into the other string's rest.
   */
  lemma {:induction false} DistanceAfterDeletion(x: string, c: char, y: string, z: string)
    ensures Distance(x + [c] + y, x + z) <= 1 + Distance(y, z)
  {
    if x == [] {
      assert x + [c] + y == [c] + y && x + z == z;
      assert ([c] + y)[1..] == y;
    } else {
      DistanceAfterDeletion(x[1..], c, y, z);
      assert (x + [c] + y)[1..] == x[1..] + [c] + y;
      assert (x + z)[1..] == x[1..] + z;
    }
  }
}
