/**
 * The order ORDER BY name lists tenant addresses in, taken as the
 * lexicographic order of the names' characters.
 */
module NameOrder {

  /** a sorts before or equal to b. */
  predicate LexLe(a: string, b: string)
    decreases |a|
  {
    |a| == 0 || (|b| > 0 && (a[0] < b[0] || (a[0] == b[0] && LexLe(a[1..], b[1..]))))
  }

  lemma {:induction false} LexLeRefl(a: string)
    ensures LexLe(a, a)
    decreases |a|
  {
    if |a| > 0 {
      LexLeRefl(a[1..]);
    }
  }

  lemma {:induction false} LexLeAntisym(a: string, b: string)
    requires LexLe(a, b) && LexLe(b, a)
    ensures a == b
    decreases |a|
  {
    if |a| > 0 {
      LexLeAntisym(a[1..], b[1..]);
      assert a == [a[0]] + a[1..] && b == [b[0]] + b[1..];
    }
  }

  lemma {:induction false} LexLeTrans(a: string, b: string, c: string)
    requires LexLe(a, b) && LexLe(b, c)
    ensures LexLe(a, c)
    decreases |a|
  {
    if |a| > 0 && a[0] == b[0] && b[0] == c[0] {
      LexLeTrans(a[1..], b[1..], c[1..]);
    }
  }

  lemma {:induction false} LexLeTotal(a: string, b: string)
    ensures LexLe(a, b) || LexLe(b, a)
    decreases |a|
  {
    if |a| > 0 && |b| > 0 && a[0] == b[0] {
      LexLeTotal(a[1..], b[1..]);
    }
  }

  /** The order is the total order ORDER BY needs: reflexive, antisymmetric,
      transitive and total. */
  lemma LexLeTotalOrder(a: string, b: string, c: string)
    ensures LexLe(a, a)
    ensures LexLe(a, b) && LexLe(b, a) ==> a == b
    ensures LexLe(a, b) && LexLe(b, c) ==> LexLe(a, c)
    ensures LexLe(a, b) || LexLe(b, a)
  {
    LexLeRefl(a);
    if LexLe(a, b) && LexLe(b, a) {
      LexLeAntisym(a, b);
    }
    if LexLe(a, b) && LexLe(b, c) {
      LexLeTrans(a, b, c);
    }
    LexLeTotal(a, b);
  }
}
