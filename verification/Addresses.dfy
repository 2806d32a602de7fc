/** Lists of addresses collected from trait values: one record for every distinct (value, via) pair. */
module Addresses {
  import opened Basics
  import opened Wrappers

  type Key = (string, string)

  /** `detail` is what a kind of address keeps beyond what identifies it. */
  datatype Address<D> = Address(value: string, via: string, owner: Uuid, detail: D)

  function KeyOf<D>(a: Address<D>): Key {
    (a.value, a.via)
  }

  function Keys<D>(list: seq<Address<D>>): seq<Key> {
    seq(|list|, i requires 0 <= i < |list| => KeyOf(list[i]))
  }

  /** Every element where it first occurs. */
  function FirstOccurrences<T(==)>(xs: seq<T>): seq<T> {
    if xs == [] then []
    else
      var init, last := xs[..|xs| - 1], xs[|xs| - 1];
      if last in init then FirstOccurrences(init) else FirstOccurrences(init) + [last]
  }

  /** First occurrences are the same elements, each once. */
  lemma {:induction false} FirstOccurrencesExact<T>(xs: seq<T>)
    ensures Distinct(FirstOccurrences(xs))
    ensures forall x :: x in FirstOccurrences(xs) <==> x in xs
  {
    if xs != [] {
      var init, last := xs[..|xs| - 1], xs[|xs| - 1];
      FirstOccurrencesExact(init);
      assert xs == init + [last];
    }
  }

  /** They come in order: those of a beginning are a beginning of all of them. */
  lemma {:induction false} FirstOccurrencesOrdered<T>(xs: seq<T>, n: nat)
    requires n <= |xs|
    ensures FirstOccurrences(xs[..n]) <= FirstOccurrences(xs)
    decreases |xs|
  {
    if n == |xs| {
      assert xs[..n] == xs;
    } else {
      var init := xs[..|xs| - 1];
      FirstOccurrencesOrdered(init, n);
      assert init[..n] == xs[..n];
    }
  }

  lemma FirstOccurrencesOneMore<T>(xs: seq<T>, x: T)
    ensures FirstOccurrences(xs + [x]) == if x in xs then FirstOccurrences(xs) else FirstOccurrences(xs) + [x]
  {
    assert (xs + [x])[..|xs|] == xs;
  }

  lemma {:induction false} FirstOccurrencesOfDistinct<T>(xs: seq<T>)
    requires Distinct(xs)
    ensures FirstOccurrences(xs) == xs
  {
    if xs != [] {
      var init, last := xs[..|xs| - 1], xs[|xs| - 1];
      assert xs == init + [last];
      FirstOccurrencesOfDistinct(init);
    }
  }

  /** Dropping repetitions as elements arrive is dropping them at the end. */
  lemma FirstOccurrencesStep<T>(xs: seq<T>, x: T)
    ensures FirstOccurrences(FirstOccurrences(xs) + [x]) == FirstOccurrences(xs + [x])
  {
    var firsts := FirstOccurrences(xs);
    FirstOccurrencesExact(xs);
    FirstOccurrencesOfDistinct(firsts);
    assert (xs + [x])[..|xs|] == xs && (firsts + [x])[..|firsts|] == firsts;
  }

  // Looking up and collecting

  /** `has`: the first record with a key. */
  function Find<D>(list: seq<Address<D>>, key: Key): Option<Address<D>> {
    if list == [] then None
    else if KeyOf(list[0]) == key then Some(list[0])
    else Find(list[1..], key)
  }

  /** The identity's record with the key of a new one if it has one, and the new one otherwise. */
  function Kept<D>(existing: seq<Address<D>>, a: Address<D>): (r: Address<D>)
    ensures KeyOf(r) == KeyOf(a)
  {
    FindExact(existing, KeyOf(a));
    var h := Find(existing, KeyOf(a));
    if h.Some? then h.value else a
  }

  /** The records for the first occurrence of every key among those visited. */
  function Collected<D>(existing: seq<Address<D>>, visited: seq<Address<D>>): seq<Address<D>> {
    if visited == [] then []
    else
      var init, last := visited[..|visited| - 1], visited[|visited| - 1];
      if Find(Collected(existing, init), KeyOf(last)).Some? then Collected(existing, init)
      else Collected(existing, init) + [Kept(existing, last)]
  }

  lemma {:induction false} FindExact<D>(list: seq<Address<D>>, key: Key)
    ensures Find(list, key).Some? <==> key in Keys(list)
    ensures Find(list, key).Some? ==> Find(list, key).value in list && KeyOf(Find(list, key).value) == key
  {
    if list != [] {
      FindExact(list[1..], key);
      assert Keys(list) == [KeyOf(list[0])] + Keys(list[1..]);
    }
  }

  /** In a list without repeated keys every record is found under its key. */
  lemma {:induction false} FindOwn<D>(list: seq<Address<D>>, i: nat)
    requires i < |list| && Distinct(Keys(list))
    ensures Find(list, KeyOf(list[i])) == Some(list[i])
  {
    if i > 0 {
      assert Keys(list)[0] != Keys(list)[i];
      assert Keys(list[1..]) == Keys(list)[1..];
      FindOwn(list[1..], i - 1);
    }
  }

  /** The keys collected are the first occurrences of the keys visited. */
  lemma {:induction false} CollectedKeys<D>(existing: seq<Address<D>>, visited: seq<Address<D>>)
    ensures Keys(Collected(existing, visited)) == FirstOccurrences(Keys(visited))
  {
    if visited != [] {
      var init, last := visited[..|visited| - 1], visited[|visited| - 1];
      CollectedKeys(existing, init);
      FirstOccurrencesExact(Keys(init));
      FindExact(Collected(existing, init), KeyOf(last));
      assert Keys(visited)[..|visited| - 1] == Keys(init) && Keys(visited)[|visited| - 1] == KeyOf(last);
    }
  }

  /** Every record collected is the existing one with its key, or else one that was visited and is new. */
  lemma {:induction false} CollectedRecords<D>(existing: seq<Address<D>>, visited: seq<Address<D>>, i: nat)
    requires i < |Collected(existing, visited)|
    ensures var r := Collected(existing, visited)[i];
            if KeyOf(r) in Keys(existing) then Find(existing, KeyOf(r)) == Some(r) else r in visited
  {
    var init, last := visited[..|visited| - 1], visited[|visited| - 1];
    if i < |Collected(existing, init)| {
      CollectedRecords(existing, init, i);
    } else {
      FindExact(existing, KeyOf(last));
    }
  }

  lemma KeysHold<D>(list: seq<Address<D>>, key: Key)
    ensures key in Keys(list) <==> exists a :: a in list && KeyOf(a) == key
  {
    if key in Keys(list) {
      var i :| 0 <= i < |list| && Keys(list)[i] == key;
      assert list[i] in list;
    }
    if a :| a in list && KeyOf(a) == key {
      var i :| 0 <= i < |list| && list[i] == a;
      assert Keys(list)[i] == key;
    }
  }

  /** Collecting again, with what was collected as the existing records, changes nothing. */
  lemma CollectedAgain<D>(existing: seq<Address<D>>, visited: seq<Address<D>>)
    ensures var once := Collected(existing, visited); Collected(once, visited) == once
  {
    var once := Collected(existing, visited);
    CollectedKeys(existing, visited);
    FirstOccurrencesExact(Keys(visited));
    CollectedSettled(once, visited);
  }

  /** A list is left as it is exactly when its keys are the first occurrences of those visited, whatever else its
      records hold. */
  lemma CollectedSettled<D>(list: seq<Address<D>>, visited: seq<Address<D>>)
    ensures Collected(list, visited) == list <==> Keys(list) == FirstOccurrences(Keys(visited))
  {
    var again := Collected(list, visited);
    CollectedKeys(list, visited);
    FirstOccurrencesExact(Keys(visited));
    if Keys(again) == Keys(list) {
      assert |again| == |Keys(again)| == |Keys(list)| == |list|;
      forall i | 0 <= i < |list| ensures again[i] == list[i] {
        assert Keys(again)[i] == Keys(list)[i];
        CollectedRecords(list, visited, i);
        FindOwn(list, i);
      }
    }
  }

  /** New records with the same key are the same. */
  ghost predicate Uniform<D>(visited: seq<Address<D>>) {
    forall a, b :: a in visited && b in visited && KeyOf(a) == KeyOf(b) ==> a == b
  }

  lemma CollectedWithin<D>(existing: seq<Address<D>>, one: seq<Address<D>>, other: seq<Address<D>>, r: Address<D>)
    requires Uniform(one) && forall a :: a in one <==> a in other
    requires r in Collected(existing, one)
    ensures r in Collected(existing, other)
  {
    var i :| 0 <= i < |Collected(existing, one)| && Collected(existing, one)[i] == r;
    CollectedRecords(existing, one, i);
    CollectedKeys(existing, one);
    CollectedKeys(existing, other);
    FirstOccurrencesExact(Keys(one));
    FirstOccurrencesExact(Keys(other));
    var key := KeyOf(r);
    assert key == Keys(Collected(existing, one))[i];
    KeysHold(one, key);
    KeysHold(other, key);
    KeysHold(Collected(existing, other), key);
    var q :| q in Collected(existing, other) && KeyOf(q) == key;
    var j :| 0 <= j < |Collected(existing, other)| && Collected(existing, other)[j] == q;
    CollectedRecords(existing, other, j);
  }

  /** As a set the records collected do not depend on the order of the visits, nor on repeated ones. */
  lemma OrderIrrelevant<D>(existing: seq<Address<D>>, one: seq<Address<D>>, other: seq<Address<D>>, r: Address<D>)
    requires Uniform(one) && forall a :: a in one <==> a in other
    ensures r in Collected(existing, one) <==> r in Collected(existing, other)
  {
    if r in Collected(existing, one) {
      CollectedWithin(existing, one, other, r);
    }
    if r in Collected(existing, other) {
      CollectedWithin(existing, other, one, r);
    }
  }

  // Lists up to their order

  /** The same elements equally often. */
  ghost predicate Permuted<T>(a: seq<T>, b: seq<T>) {
    multiset(a) == multiset(b)
  }

  lemma {:induction false} DistinctCounts<T>(xs: seq<T>, x: T)
    requires Distinct(xs)
    ensures multiset(xs)[x] == if x in xs then 1 else 0
  {
    if xs != [] {
      var init, last := xs[..|xs| - 1], xs[|xs| - 1];
      DistinctCounts(init, x);
      assert xs == init + [last];
    }
  }

  lemma SameElements<T>(a: seq<T>, b: seq<T>)
    requires Distinct(a) && Distinct(b) && forall x :: x in a <==> x in b
    ensures Permuted(a, b)
  {
    forall x ensures multiset(a)[x] == multiset(b)[x] {
      DistinctCounts(a, x);
      DistinctCounts(b, x);
    }
  }

  lemma PermutedElements<T>(a: seq<T>, b: seq<T>, x: T)
    requires Permuted(a, b)
    ensures x in a <==> x in b
  {
    assert x in a <==> x in multiset(a);
    assert x in b <==> x in multiset(b);
  }

  lemma PermutedDistinct<T>(a: seq<T>, b: seq<T>)
    requires Permuted(a, b) && Distinct(a)
    ensures Distinct(b)
  {
    forall i, j | 0 <= i < j < |b| ensures b[i] != b[j] {
      DistinctCounts(a, b[i]);
      assert b == b[..j] + b[j..];
      assert b[i] in b[..j] && b[j] in b[j..];
      assert multiset(b)[b[j]] == multiset(b[..j])[b[j]] + multiset(b[j..])[b[j]];
    }
  }

  function Without<T>(xs: seq<T>, j: nat): seq<T>
    requires j < |xs|
  {
    xs[..j] + xs[j + 1..]
  }

  lemma WithoutOne<T>(xs: seq<T>, j: nat)
    requires j < |xs|
    ensures multiset(xs) == multiset(Without(xs, j)) + multiset{xs[j]}
    ensures multiset(xs) - multiset{xs[j]} == multiset(Without(xs, j))
  {
    assert xs == xs[..j] + ([xs[j]] + xs[j + 1..]);
  }

  lemma KeysWithout<D>(list: seq<Address<D>>, j: nat)
    requires j < |list|
    ensures Keys(Without(list, j)) == Without(Keys(list), j)
  {
  }

  /** Reordering records reorders their keys. */
  lemma {:induction false} PermutedKeys<D>(a: seq<Address<D>>, b: seq<Address<D>>)
    requires Permuted(a, b)
    ensures Permuted(Keys(a), Keys(b))
    decreases |a|
  {
    if a == [] {
      assert |multiset(b)| == |b|;
    } else {
      PermutedElements(a, b, a[0]);
      var j :| 0 <= j < |b| && b[j] == a[0];
      WithoutOne(a, 0);
      WithoutOne(b, j);
      assert Permuted(Without(a, 0), Without(b, j));
      PermutedKeys(Without(a, 0), Without(b, j));
      KeysWithout(a, 0);
      KeysWithout(b, j);
      WithoutOne(Keys(a), 0);
      WithoutOne(Keys(b), j);
    }
  }

  lemma DistinctByKey<D>(list: seq<Address<D>>)
    requires Distinct(Keys(list))
    ensures Distinct(list)
  {
    forall i, j | 0 <= i < j < |list| ensures list[i] != list[j] {
      assert Keys(list)[i] != Keys(list)[j];
    }
  }

  /** A list whose keys are those visited, in whatever order, is only put in order by collecting again. */
  lemma CollectedReorders<D>(list: seq<Address<D>>, visited: seq<Address<D>>)
    ensures Permuted(list, Collected(list, visited)) <==> Permuted(Keys(list), FirstOccurrences(Keys(visited)))
  {
    var again := Collected(list, visited);
    CollectedKeys(list, visited);
    if Permuted(list, again) {
      PermutedKeys(list, again);
    }
    if Permuted(Keys(list), Keys(again)) {
      FirstOccurrencesExact(Keys(visited));
      PermutedDistinct(Keys(again), Keys(list));
      DistinctByKey(list);
      DistinctByKey(again);
      forall x ensures x in list <==> x in again {
        SameRecord(list, visited, x);
      }
      SameElements(list, again);
    }
  }

  lemma SameRecord<D>(list: seq<Address<D>>, visited: seq<Address<D>>, x: Address<D>)
    requires Distinct(Keys(list)) && Permuted(Keys(list), Keys(Collected(list, visited)))
    ensures x in list <==> x in Collected(list, visited)
  {
    var again := Collected(list, visited);
    KeysHold(list, KeyOf(x));
    KeysHold(again, KeyOf(x));
    PermutedElements(Keys(list), Keys(again), KeyOf(x));
    if KeyOf(x) in Keys(list) {
      var i :| 0 <= i < |list| && KeyOf(list[i]) == KeyOf(x);
      FindOwn(list, i);
      var j :| 0 <= j < |again| && KeyOf(again[j]) == KeyOf(x);
      CollectedRecords(list, visited, j);
      if k :| 0 <= k < |list| && list[k] == x {
        FindOwn(list, k);
      }
      if k :| 0 <= k < |again| && again[k] == x {
        CollectedRecords(list, visited, k);
      }
    }
  }
}
