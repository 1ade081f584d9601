/** Small facts about sequences, proved once so that the proofs using them
    need not rediscover them among the definitions of the model. */
module SeqFacts {

  lemma Rejoin<T>(s: seq<T>, n: nat)
    requires n <= |s|
    ensures s[..n] + s[n..] == s
  {
  }

  lemma TakeOfAppend<T>(a: seq<T>, b: seq<T>, k: nat)
    requires k <= |a| + |b|
    ensures k <= |a| ==> (a + b)[..k] == a[..k]
    ensures |a| <= k ==> (a + b)[..k] == a + b[..k - |a|]
  {
  }

  /** Moves the head `a` of `(a + b) + c` out: `x` is `a` followed by
      `y == b + c`. */
  lemma Regroup<T>(x: seq<T>, y: seq<T>, a: seq<T>, b: seq<T>, c: seq<T>)
    requires x == (a + b) + c && y == b + c
    ensures x == a + y
  {
  }
}
