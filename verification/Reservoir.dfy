/** `ReservoirSampler`: keeps the items with the largest keys of a stream.  The keys
    are drawn by the caller; the sampler only compares them. */
module Reservoir {
  datatype Item<T> = Item(sample: T, key: real)

  function Min(a: nat, b: nat): nat {
    if a <= b then a else b
  }

  // ------------------------------------------------------------ what `add` does

  /** The first smallest key. */
  function MinIndex(keys: seq<real>): (i: nat)
    requires keys != []
    ensures i < |keys| && forall j :: 0 <= j < |keys| ==> keys[i] <= keys[j]
    ensures forall j :: 0 <= j < i ==> keys[i] < keys[j]
  {
    var n := |keys| - 1;
    if n == 0 then 0
    else
      var i := MinIndex(keys[..n]);
      assert forall j :: 0 <= j < n ==> keys[..n][j] == keys[j];
      if keys[n] < keys[i] then n else i
  }

  function KeysOf<T>(items: seq<Item<T>>): (keys: seq<real>)
    ensures |keys| == |items| && forall i :: 0 <= i < |keys| ==> keys[i] == items[i].key
  {
    seq(|items|, i requires 0 <= i < |items| => items[i].key)
  }

  function Add<T>(kept: seq<Item<T>>, m: nat, item: Item<T>): seq<Item<T>> {
    if m == 0 then kept
    else if |kept| < m then kept + [item]
    else
      var i := MinIndex(KeysOf(kept));
      if kept[i].key < item.key then kept[i := item] else kept
  }

  function AddAll<T>(m: nat, items: seq<Item<T>>): seq<Item<T>> {
    if items == [] then [] else Add(AddAll(m, items[..|items| - 1]), m, items[|items| - 1])
  }

  // ------------------------------------------------------------- counting keys

  function Above(keys: seq<real>, t: real, strictly: bool): nat {
    if keys == [] then 0
    else
      var n := |keys| - 1;
      Above(keys[..n], t, strictly) + if Counts(keys[n], t, strictly) then 1 else 0
  }

  predicate Counts(key: real, t: real, strictly: bool) {
    key > t || (key == t && !strictly)
  }

  lemma {:induction false} AboveUpdate(keys: seq<real>, i: nat, key: real, t: real, strictly: bool)
    requires i < |keys|
    ensures Above(keys[i := key], t, strictly) + (if Counts(keys[i], t, strictly) then 1 else 0)
         == Above(keys, t, strictly) + if Counts(key, t, strictly) then 1 else 0
    decreases |keys|
  {
    var n := |keys| - 1;
    if i < n {
      AboveUpdate(keys[..n], i, key, t, strictly);
      assert keys[i := key][..n] == keys[..n][i := key];
    } else {
      assert keys[i := key][..n] == keys[..n];
    }
  }

  lemma AboveAppend(keys: seq<real>, key: real, t: real, strictly: bool)
    ensures Above(keys + [key], t, strictly) == Above(keys, t, strictly) + if Counts(key, t, strictly) then 1 else 0
  {
    assert (keys + [key])[..|keys|] == keys;
  }

  /** No more than all of them, and all of them only if each one counts. */
  lemma {:induction false} AboveBound(keys: seq<real>, t: real, strictly: bool)
    ensures Above(keys, t, strictly) <= |keys|
    ensures Above(keys, t, strictly) == |keys| <==> forall i :: 0 <= i < |keys| ==> Counts(keys[i], t, strictly)
  {
    if keys != [] {
      var n := |keys| - 1;
      AboveBound(keys[..n], t, strictly);
      assert forall i :: 0 <= i < n ==> keys[..n][i] == keys[i];
    }
  }

  lemma {:induction false} TimesIsDifference(keys: seq<real>, t: real)
    ensures Above(keys, t, false) == Above(keys, t, true) + multiset(keys)[t]
  {
    if keys != [] {
      var n := |keys| - 1;
      TimesIsDifference(keys[..n], t);
      assert keys == keys[..n] + [keys[n]];
    }
  }

  function Without(keys: seq<real>, i: nat): seq<real>
    requires i < |keys|
  {
    keys[..i] + keys[i + 1..]
  }

  lemma WithoutMultiset(keys: seq<real>, i: nat)
    requires i < |keys|
    ensures multiset(Without(keys, i)) == multiset(keys) - multiset{keys[i]}
  {
    assert keys == keys[..i] + [keys[i]] + keys[i + 1..];
  }

  lemma {:induction false} AboveWithout(keys: seq<real>, i: nat, t: real, strictly: bool)
    requires i < |keys|
    ensures Above(keys, t, strictly) == Above(Without(keys, i), t, strictly) + if Counts(keys[i], t, strictly) then 1 else 0
    decreases |keys|
  {
    var n := |keys| - 1;
    if i < n {
      AboveWithout(keys[..n], i, t, strictly);
      assert Without(keys, i) == Without(keys[..n], i) + [keys[n]];
      AboveAppend(Without(keys[..n], i), keys[n], t, strictly);
    } else {
      assert Without(keys, i) == keys[..n];
    }
  }

  /** The count does not depend on the order. */
  lemma {:induction false} AboveOfPermutation(a: seq<real>, b: seq<real>, t: real, strictly: bool)
    requires multiset(a) == multiset(b)
    ensures Above(a, t, strictly) == Above(b, t, strictly)
    decreases |a|
  {
    if a == [] {
      assert |b| == |multiset(b)| == 0;
    } else {
      var n := |a| - 1;
      assert a[n] in multiset(b);
      var i :| 0 <= i < |b| && b[i] == a[n];
      WithoutMultiset(a, n);
      WithoutMultiset(b, i);
      assert Without(a, n) == a[..n];
      AboveOfPermutation(a[..n], Without(b, i), t, strictly);
      AboveWithout(b, i, t, strictly);
    }
  }

  // ------------------------------------------------------------- the m largest

  /** Of any threshold, as many kept keys lie above it as seen keys do, up to m. */
  ghost predicate CountsAgree(keys: seq<real>, seen: seq<real>, m: nat) {
    forall t, strictly :: Above(keys, t, strictly) == Min(m, Above(seen, t, strictly))
  }

  ghost predicate Inv<T>(kept: seq<Item<T>>, seen: seq<Item<T>>, m: nat) {
    && |kept| == Min(m, |seen|)
    && multiset(kept) <= multiset(seen)
    && CountsAgree(KeysOf(kept), KeysOf(seen), m)
  }

  lemma AppendCounts(keys: seq<real>, seen: seq<real>, m: nat, key: real)
    requires CountsAgree(keys, seen, m) && |keys| == |seen| < m
    ensures CountsAgree(keys + [key], seen + [key], m)
  {
    forall t, strictly
      ensures Above(keys + [key], t, strictly) == Min(m, Above(seen + [key], t, strictly))
    {
      AboveAppend(keys, key, t, strictly);
      AboveAppend(seen, key, t, strictly);
      AboveBound(seen, t, strictly);
      assert Above(keys, t, strictly) == Min(m, Above(seen, t, strictly));
    }
  }

  /** Replacing the least kept key by a larger one, or dropping a key no larger. */
  lemma ReplaceCounts(keys: seq<real>, seen: seq<real>, m: nat, key: real, i: nat)
    requires CountsAgree(keys, seen, m) && |keys| == m && i < m
    requires forall j :: 0 <= j < |keys| ==> keys[i] <= keys[j]
    ensures CountsAgree(if keys[i] < key then keys[i := key] else keys, seen + [key], m)
  {
    var keys' := if keys[i] < key then keys[i := key] else keys;
    forall t, strictly
      ensures Above(keys', t, strictly) == Min(m, Above(seen + [key], t, strictly))
    {
      AboveAppend(seen, key, t, strictly);
      AboveUpdate(keys, i, key, t, strictly);
      AboveBound(keys, t, strictly);
      AboveBound(keys', t, strictly);
      assert Above(keys, t, strictly) == Min(m, Above(seen, t, strictly));
      if Counts(keys[i], t, strictly) {
        assert forall j :: 0 <= j < |keys| ==> Counts(keys[j], t, strictly);
      }
    }
  }

  lemma AddInv<T>(kept: seq<Item<T>>, seen: seq<Item<T>>, m: nat, item: Item<T>)
    requires Inv(kept, seen, m)
    ensures Inv(Add(kept, m, item), seen + [item], m)
  {
    hide CountsAgree, Above, MinIndex;
    assert KeysOf(seen + [item]) == KeysOf(seen) + [item.key];
    if m == 0 {
      NothingCounts(KeysOf(kept), KeysOf(seen + [item]));
    } else if |kept| < m {
      assert KeysOf(kept + [item]) == KeysOf(kept) + [item.key];
      AppendCounts(KeysOf(kept), KeysOf(seen), m, item.key);
    } else {
      var i := MinIndex(KeysOf(kept));
      ReplaceCounts(KeysOf(kept), KeysOf(seen), m, item.key, i);
      assert KeysOf(kept[i := item]) == KeysOf(kept)[i := item.key];
      ReplacedIsSeen(kept, seen, i, item);
    }
  }

  lemma ReplacedIsSeen<T>(kept: seq<Item<T>>, seen: seq<Item<T>>, i: nat, item: Item<T>)
    requires i < |kept| && multiset(kept) <= multiset(seen)
    ensures multiset(kept[i := item]) <= multiset(seen + [item]) && multiset(kept) <= multiset(seen + [item])
  {
    assert multiset(kept[i := item]) == multiset(kept) - multiset{kept[i]} + multiset{item};
  }

  lemma NothingCounts(keys: seq<real>, seen: seq<real>)
    requires keys == []
    ensures CountsAgree(keys, seen, 0)
  {
  }

  lemma {:induction false} AddAllInv<T>(m: nat, items: seq<Item<T>>)
    ensures Inv(AddAll(m, items), items, m)
    decreases |items|
  {
    hide Inv, Add;
    if items == [] {
      StartInv<T>(m);
    } else {
      var n := |items| - 1;
      AddAllInv(m, items[..n]);
      AddInv(AddAll(m, items[..n]), items[..n], m, items[n]);
      assert items == items[..n] + [items[n]];
    }
  }

  lemma StartInv<T>(m: nat)
    ensures Inv<T>([], [], m)
  {
  }

  /** The kept keys are the m largest keys seen: a sub-multiset of the right size, and
      no key left out is larger than a key kept. */
  ghost predicate Largest(keys: seq<real>, seen: seq<real>, m: nat) {
    && |keys| == Min(m, |seen|)
    && (forall x :: multiset(keys)[x] <= multiset(seen)[x])
    && forall x, y :: x in multiset(seen) - multiset(keys) && y in multiset(keys) ==> x <= y
  }

  lemma CountsGiveLargest(keys: seq<real>, seen: seq<real>, m: nat)
    requires |keys| == Min(m, |seen|) && CountsAgree(keys, seen, m)
    ensures Largest(keys, seen, m)
  {
    forall x
      ensures multiset(keys)[x] <= multiset(seen)[x]
      ensures multiset(keys)[x] < multiset(seen)[x] ==> Above(seen, x, false) > m
    {
      TimesIsDifference(keys, x);
      TimesIsDifference(seen, x);
      assert Above(keys, x, true) == Min(m, Above(seen, x, true));
      assert Above(keys, x, false) == Min(m, Above(seen, x, false));
    }
    forall x, y | x in multiset(seen) - multiset(keys) && y in multiset(keys) ensures x <= y {
      assert Above(keys, x, false) == Min(m, Above(seen, x, false)) == m;
      AboveBound(keys, x, false);
      var j :| 0 <= j < |keys| && keys[j] == y;
      assert Counts(keys[j], x, false);
    }
  }

  /** After any stream: the kept items are among the items seen, each with the key
      that admitted it, and their keys are the m largest. */
  lemma KeepsTheLargest<T>(m: nat, items: seq<Item<T>>)
    ensures multiset(AddAll(m, items)) <= multiset(items)
    ensures Largest(KeysOf(AddAll(m, items)), KeysOf(items), m)
  {
    AddAllInv(m, items);
    CountsGiveLargest(KeysOf(AddAll(m, items)), KeysOf(items), m);
  }

  lemma CountsDetermine(a: seq<real>, b: seq<real>)
    requires forall t, strictly :: Above(a, t, strictly) == Above(b, t, strictly)
    ensures multiset(a) == multiset(b)
  {
    forall x ensures multiset(a)[x] == multiset(b)[x] {
      TimesIsDifference(a, x);
      TimesIsDifference(b, x);
    }
  }

  /** The kept keys do not depend on the order of arrival. */
  lemma OrderDoesNotMatter<T>(m: nat, first: seq<Item<T>>, second: seq<Item<T>>)
    requires multiset(KeysOf(first)) == multiset(KeysOf(second))
    ensures multiset(KeysOf(AddAll(m, first))) == multiset(KeysOf(AddAll(m, second)))
  {
    AddAllInv(m, first);
    AddAllInv(m, second);
    var a, b := KeysOf(AddAll(m, first)), KeysOf(AddAll(m, second));
    forall t, strictly ensures Above(a, t, strictly) == Above(b, t, strictly) {
      AboveOfPermutation(KeysOf(first), KeysOf(second), t, strictly);
    }
    CountsDetermine(a, b);
  }

  // --------------------------------------------------------------- the sampler

  class ReservoirSampler<T> {
    var maxSelected: nat
    var selected: seq<T>
    var keys: seq<real>
    ghost var seen: seq<Item<T>>

    ghost predicate Valid()
      reads this
    {
      |selected| == |keys| && Zip(selected, keys) == AddAll(maxSelected, seen)
    }

    constructor (maxSelected: nat)
      ensures Valid() && seen == [] && this.maxSelected == maxSelected
    {
      this.maxSelected := maxSelected;
      selected, keys, seen := [], [], [];
    }

    method Clear(maxSelected: nat)
      modifies this
      ensures Valid() && seen == [] && this.maxSelected == maxSelected
    {
      selected, keys, seen := [], [], [];
      this.maxSelected := maxSelected;
    }

    /** `add`, with the key drawn for the item. */
    method Insert(s: T, key: real)
      requires Valid()
      modifies this
      ensures Valid() && seen == old(seen) + [Item(s, key)] && maxSelected == old(maxSelected)
    {
      hide AddAll;
      ghost var kept := Zip(selected, keys);
      AddAllStep(maxSelected, seen, Item(s, key));
      seen := seen + [Item(s, key)];
      if maxSelected == 0 {
        return;
      }
      if |selected| < maxSelected {
        selected := selected + [s];
        keys := keys + [key];
        assert Zip(selected, keys) == kept + [Item(s, key)];
        return;
      }
      var minI := FindMin(keys);
      assert KeysOf(kept) == keys;
      if keys[minI] < key {
        keys := keys[minI := key];
        selected := selected[minI := s];
        assert Zip(selected, keys) == kept[minI := Item(s, key)];
      }
    }
  }

  function Zip<T>(samples: seq<T>, keys: seq<real>): (items: seq<Item<T>>)
    requires |samples| == |keys|
    ensures |items| == |keys| && forall i :: 0 <= i < |keys| ==> items[i] == Item(samples[i], keys[i])
  {
    seq(|keys|, i requires 0 <= i < |keys| => Item(samples[i], keys[i]))
  }

  lemma AddAllStep<T>(m: nat, items: seq<Item<T>>, item: Item<T>)
    ensures AddAll(m, items + [item]) == Add(AddAll(m, items), m, item)
  {
    assert (items + [item])[..|items|] == items;
  }

  /** The linear scan for the least key to evict. */
  method FindMin(keys: seq<real>) returns (minI: nat)
    requires keys != []
    ensures minI == MinIndex(keys)
  {
    minI := 0;
    for i := 1 to |keys|
      invariant minI < i
      invariant forall j :: 0 <= j < i ==> keys[minI] <= keys[j]
      invariant forall j :: 0 <= j < minI ==> keys[minI] < keys[j]
    {
      if keys[i] < keys[minI] {
        minI := i;
      }
    }
  }
}
