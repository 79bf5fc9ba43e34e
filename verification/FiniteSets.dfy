/** Sizes of finite sets, for the searches that end because what is left to visit shrinks. */
module FiniteSets {

  lemma SizeLeq<T>(a: set<T>, b: set<T>)
    requires a <= b
    ensures |a| <= |b|
  {
    assert b == a + (b - a);
  }

  lemma Shrinks<T>(a: set<T>, b: set<T>, n: T)
    requires b <= a && n in a && n !in b
    ensures |b| < |a|
  {
    SizeLeq(b + {n}, a);
  }

  /** Induction from one number to another. */
  lemma {:induction false} UpTo(good: iset<nat>, lo: nat, n: nat)
    requires lo <= n && lo in good && forall i: nat | lo <= i < n && i in good :: i + 1 in good
    ensures n in good
  {
    if lo < n {
      UpTo(good, lo, n - 1);
    }
  }
}
