/** Facts about sequences that hold by extensionality, named so that proofs can use them one at a
    time. */
module Sequences {

  lemma SnocFront<T>(s: seq<T>, x: T)
    ensures (s + [x])[..|s|] == s && (s + [x])[|s|] == x
  {
  }

  lemma TakeOneMore<T>(s: seq<T>, k: nat)
    requires k < |s|
    ensures s[..k + 1] == s[..k] + [s[k]] && s[..k + 1][..k] == s[..k]
  {
  }

  lemma TakeAll<T>(s: seq<T>)
    ensures s[..|s|] == s
  {
  }

  lemma SkipOneMore<T>(s: seq<T>, k: nat)
    requires k < |s|
    ensures s[k..][0] == s[k] && s[k..][1..] == s[k + 1..]
  {
  }

  lemma FrontAndLast<T>(s: seq<T>)
    requires s != []
    ensures s == s[..|s| - 1] + [s[|s| - 1]]
  {
  }

  lemma ConcatFront<T>(a: seq<T>, b: seq<T>)
    requires b != []
    ensures (a + b)[..|a + b| - 1] == a + b[..|b| - 1] && (a + b)[|a + b| - 1] == b[|b| - 1]
  {
  }

  lemma Associates<T>(a: seq<T>, b: seq<T>, c: seq<T>)
    ensures a + b + c == a + (b + c)
  {
  }

  lemma HeadThenRest<T>(a: seq<T>, xs: seq<T>)
    requires xs != []
    ensures a + [xs[0]] + xs[1..] == a + xs
  {
  }

  lemma PrefixAndRest<T>(a: seq<T>, s: seq<T>)
    requires a <= s
    ensures s == a + s[|a|..] && s[..|a|] == a
  {
  }

  ghost predicate Distinct<T>(s: seq<T>) {
    forall i, j :: 0 <= i < j < |s| ==> s[i] != s[j]
  }

  lemma {:induction false} DistinctOnce<T>(s: seq<T>, x: T)
    requires Distinct(s)
    ensures multiset(s)[x] == if x in s then 1 else 0
  {
    if s != [] {
      var front, last := s[..|s| - 1], s[|s| - 1];
      FrontAndLast(s);
      DistinctOnce(front, x);
      assert multiset(s) == multiset(front) + multiset{last};
      assert last !in front;
    }
  }

  /** What is left of a queue after `n` takes: nothing once it has run dry. */
  function Dropped<T>(s: seq<T>, n: nat): seq<T> {
    if n <= |s| then s[n..] else []
  }

  lemma DroppedTwice<T>(s: seq<T>, m: nat, n: nat)
    ensures Dropped(Dropped(s, m), n) == Dropped(s, m + n)
  {
  }

  /** `a` is what is left of `b` once some of its front has been taken. */
  ghost predicate IsSuffix<T>(a: seq<T>, b: seq<T>) {
    |a| <= |b| && a == b[|b| - |a|..]
  }

  lemma SuffixOfItself<T>(s: seq<T>)
    ensures IsSuffix(s, s)
  {
  }

  lemma RestIsSuffix<T>(s: seq<T>)
    requires s != []
    ensures IsSuffix(s[1..], s)
  {
  }

  lemma SuffixRest<T>(a: seq<T>, b: seq<T>)
    requires IsSuffix(a, b) && a != []
    ensures IsSuffix(a[1..], b) && a[0] in b && a[0] == b[|b| - |a|]
  {
  }

  lemma SuffixOfSuffix<T>(a: seq<T>, b: seq<T>, c: seq<T>)
    requires IsSuffix(a, b) && IsSuffix(b, c)
    ensures IsSuffix(a, c)
  {
  }

  /** What has been taken from the front of a queue, when `left` is still to come. */
  function TakenFrom<T>(s: seq<T>, left: seq<T>): seq<T>
    requires |left| <= |s|
  {
    s[..|s| - |left|]
  }

  ghost predicate StretchAt<T>(s: seq<T>, part: seq<T>, i: nat) {
    i + |part| <= |s| && s[i..i + |part|] == part
  }

  /** Reading the queue `q` down to `left` is a stretch of what is read in all. */
  ghost predicate Reading<T>(seen: seq<T>, q: seq<T>, left: seq<T>) {
    IsSuffix(left, q) && exists i: nat :: StretchAt(seen, TakenFrom(q, left), i)
  }

  lemma ReadAll<T>(q: seq<T>, left: seq<T>)
    requires IsSuffix(left, q)
    ensures Reading(TakenFrom(q, left), q, left)
  {
    assert StretchAt(TakenFrom(q, left), TakenFrom(q, left), 0);
  }

  lemma ReadSplit<T>(seen: seq<T>, q: seq<T>, mid: seq<T>, left: seq<T>)
    requires Reading(seen, q, left) && IsSuffix(mid, q) && IsSuffix(left, mid)
    ensures Reading(seen, q, mid) && Reading(seen, mid, left)
  {
    var i: nat :| StretchAt(seen, TakenFrom(q, left), i);
    var n := |q| - |mid|;
    assert TakenFrom(q, left)[..n] == TakenFrom(q, mid) && TakenFrom(q, left)[n..] == TakenFrom(mid, left);
    assert StretchAt(seen, TakenFrom(q, mid), i) && StretchAt(seen, TakenFrom(mid, left), i + n);
  }

  lemma ReadFirst<T>(seen: seq<T>, q: seq<T>, left: seq<T>)
    requires q != [] && Reading(seen, q, left) && IsSuffix(left, q[1..])
    ensures q[0] in seen && Reading(seen, q[1..], left)
  {
    RestIsSuffix(q);
    ReadSplit(seen, q, q[1..], left);
    var i: nat :| StretchAt(seen, TakenFrom(q, left), i);
    assert TakenFrom(q, left)[0] == q[0] == seen[i..i + |q| - |left|][0];
  }
}
