/**
 Last-writer-wins maps and counts over an event list, as the projection folds them
 (core/src/projection.rs `replace_latest` and its rejection counter).
 */
module Latest {
  import opened Answers

  /** What decides between two entries with the same key: time, then event id. */
  type Rank = (nat, string)

  predicate Wins(a: Rank, b: Rank) {
    Later(a.0, a.1, b.0, b.1)
  }

  datatype Entry<K, V> = Entry(key: K, value: V, stamp: Rank)

  /** `replace_latest`: the candidate enters unless the current holder is at least as late. */
  function ReplaceLatest<K, V>(values: map<K, Entry<K, V>>, candidate: Entry<K, V>): map<K, Entry<K, V>> {
    if candidate.key !in values || Wins(candidate.stamp, values[candidate.key].stamp) then
      values[candidate.key := candidate]
    else values
  }

  function LatestOf<K, V>(entries: seq<Entry<K, V>>): map<K, Entry<K, V>> {
    if entries == [] then map[]
    else ReplaceLatest(LatestOf(entries[..|entries| - 1]), entries[|entries| - 1])
  }

  /** The map holds each key's greatest entry, and only keys that occur. */
  lemma {:induction false} LatestIsGreatest<K, V>(entries: seq<Entry<K, V>>)
    ensures forall k :: k in LatestOf(entries) <==> exists e <- entries :: e.key == k
    ensures forall k <- LatestOf(entries) :: LatestOf(entries)[k] in entries && LatestOf(entries)[k].key == k
    ensures forall e <- entries :: !Wins(e.stamp, LatestOf(entries)[e.key].stamp)
  {
    if entries != [] {
      var init, last := entries[..|entries| - 1], entries[|entries| - 1];
      LatestIsGreatest(init);
      assert entries == init + [last];
      var before, after := LatestOf(init), LatestOf(entries);
      forall e | e in entries ensures e.key in after && !Wins(e.stamp, after[e.key].stamp) {
        LaterIsStrict(e.stamp.0, e.stamp.1, e.stamp.0, e.stamp.1, 0, "");
        if e in init && e.key == last.key {
          var held := before[e.key].stamp;
          LaterIsStrict(e.stamp.0, e.stamp.1, last.stamp.0, last.stamp.1, held.0, held.1);
          LaterIsStrict(last.stamp.0, last.stamp.1, held.0, held.1, e.stamp.0, e.stamp.1);
        }
      }
    }
  }

  /** One event per id: equal stamps mean equal entries. */
  ghost predicate StampsUnique<K(!new), V(!new)>(entries: seq<Entry<K, V>>) {
    forall a <- entries, b <- entries :: a.stamp.1 == b.stamp.1 ==> a == b
  }

  lemma SameWinner<K(!new), V(!new)>(a: seq<Entry<K, V>>, b: seq<Entry<K, V>>, k: K)
    requires StampsUnique(a) && (forall e :: e in a <==> e in b) && k in LatestOf(a)
    ensures k in LatestOf(b) && LatestOf(b)[k] == LatestOf(a)[k]
  {
    hide LatestOf, Wins;
    LatestIsGreatest(a);
    LatestIsGreatest(b);
    var x := LatestOf(a)[k];
    assert x in a && x in b && x.key == k;
    var y := LatestOf(b)[k];
    assert y in b && y in a;
    WinsIsTotal(x.stamp, y.stamp);
  }

  lemma WinsIsTotal(s: Rank, t: Rank)
    ensures Wins(s, t) || Wins(t, s) || s == t
  {
    LaterIsStrict(s.0, s.1, t.0, t.1, 0, "");
  }

  /** The map depends only on which entries occur, not on order or repetition. */
  lemma LatestOfSameSet<K(!new), V(!new)>(a: seq<Entry<K, V>>, b: seq<Entry<K, V>>)
    requires StampsUnique(a) && forall e :: e in a <==> e in b
    ensures LatestOf(a) == LatestOf(b)
  {
    hide LatestOf;
    forall k | k in LatestOf(a) ensures k in LatestOf(b) && LatestOf(a)[k] == LatestOf(b)[k] {
      SameWinner(a, b, k);
    }
    forall k | k in LatestOf(b) ensures k in LatestOf(a) {
      SameWinner(b, a, k);
    }
  }

  // ----- counting -----

  /** How many elements satisfy a predicate, each occurrence once. */
  ghost function Tally<T(!new)>(list: seq<T>, p: T -> bool): nat {
    if list == [] then 0
    else Tally(list[..|list| - 1], p) + (if p(list[|list| - 1]) then 1 else 0)
  }

  lemma {:induction false} TallySplits<T(!new)>(list: seq<T>, p: T -> bool, q: T -> bool, both: T -> bool)
    requires forall x <- list :: (both(x) <==> p(x) || q(x)) && !(p(x) && q(x))
    ensures Tally(list, both) == Tally(list, p) + Tally(list, q)
  {
    if list != [] {
      var init, last := list[..|list| - 1], list[|list| - 1];
      assert last in list;
      TallySplits(init, p, q, both);
    }
  }

  lemma {:induction false} TallyAgrees<T(!new)>(list: seq<T>, p: T -> bool, q: T -> bool)
    requires forall x <- list :: p(x) <==> q(x)
    ensures Tally(list, p) == Tally(list, q)
  {
    if list != [] {
      assert list[|list| - 1] in list;
      TallyAgrees(list[..|list| - 1], p, q);
    }
  }

  lemma {:induction false} TallyNone<T(!new)>(list: seq<T>, p: T -> bool)
    requires forall x <- list :: !p(x)
    ensures Tally(list, p) == 0
  {
    if list != [] {
      assert list[|list| - 1] in list;
      TallyNone(list[..|list| - 1], p);
    }
  }

  lemma {:induction false} TallyRemove<T(!new)>(list: seq<T>, i: nat, p: T -> bool)
    requires i < |list|
    ensures Tally(list, p) == Tally(list[..i] + list[i + 1..], p) + (if p(list[i]) then 1 else 0)
  {
    if i < |list| - 1 {
      var init, rest := list[..|list| - 1], list[..i] + list[i + 1..];
      TallyRemove(init, i, p);
      assert rest[..|rest| - 1] == init[..i] + init[i + 1..] && rest[|rest| - 1] == list[|list| - 1];
    } else {
      assert list[..i] + list[i + 1..] == list[..|list| - 1];
    }
  }

  /** Taking the last element of one list out of a permutation of it. */
  lemma Unpermute<T>(a: seq<T>, b: seq<T>) returns (i: nat)
    requires a != [] && multiset(a) == multiset(b)
    ensures i < |b| && b[i] == a[|a| - 1]
    ensures multiset(a[..|a| - 1]) == multiset(b[..i] + b[i + 1..])
  {
    var init, last := a[..|a| - 1], a[|a| - 1];
    assert last in multiset(b) by { assert last in multiset(a); }
    i :| 0 <= i < |b| && b[i] == last;
    assert a == init + [last] && b == b[..i] + [last] + b[i + 1..];
    WithoutOne(init, last, b[..i], b[i + 1..]);
  }

  lemma WithoutOne<T>(init: seq<T>, last: T, left: seq<T>, right: seq<T>)
    requires multiset(init + [last]) == multiset(left + [last] + right)
    ensures multiset(init) == multiset(left + right)
  {
    var one := multiset([last]);
    assert multiset(init + [last]) == multiset(init) + one;
    assert multiset(left + [last] + right) == multiset(left) + one + multiset(right);
    assert multiset(left + right) == multiset(left) + multiset(right);
    Cancel(multiset(init), multiset(left) + multiset(right), one, multiset(left) + one + multiset(right));
  }

  lemma Cancel<T>(x: multiset<T>, y: multiset<T>, one: multiset<T>, sum: multiset<T>)
    requires x + one == sum && (forall e :: sum[e] == y[e] + one[e])
    ensures x == y
  {
    forall e ensures x[e] == y[e] { assert (x + one)[e] == x[e] + one[e]; }
  }

  lemma PermutationOfNothing<T>(b: seq<T>)
    requires multiset(b) == multiset{}
    ensures b == []
  {
    assert |b| == |multiset(b)|;
  }

  /** Counting ignores order. */
  lemma {:induction false} TallyOfPermutation<T(!new)>(a: seq<T>, b: seq<T>, p: T -> bool)
    requires multiset(a) == multiset(b)
    ensures Tally(a, p) == Tally(b, p)
    decreases |a|
  {
    if a == [] {
      PermutationOfNothing(b);
    } else {
      var i := Unpermute(a, b);
      TallyOfPermutation(a[..|a| - 1], b[..i] + b[i + 1..], p);
      TallyRemove(b, i, p);
    }
  }
}
