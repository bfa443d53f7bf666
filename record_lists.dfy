/** The list updaters the hooks and the tables apply to their record lists:
    `list.map(x => x[key] === id ? r : x)`, `list.filter(x => x[key] !== id)`
    and the search filters `list.filter(keep)`. */
module RecordLists {
  import opened Fields
  import opened Js

  /** `x[key] === id`: the record carries `id` under `key`. */
  predicate HasKey(x: Record, key: Key, id: Value) {
    Get(x, key) == id
  }

  /** How many entries carry `id` under `key`. */
  function Count(xs: seq<Record>, key: Key, id: Value): (n: nat)
    ensures n <= |xs|
  {
    if xs == [] then 0 else (if HasKey(xs[0], key, id) then 1 else 0) + Count(xs[1..], key, id)
  }

  lemma {:induction false} CountAppend(a: seq<Record>, b: seq<Record>, key: Key, id: Value)
    ensures Count(a + b, key, id) == Count(a, key, id) + Count(b, key, id)
  {
    if a == [] {
      assert a + b == b;
    } else {
      assert (a + b)[0] == a[0] && (a + b)[1..] == a[1..] + b;
      CountAppend(a[1..], b, key, id);
    }
  }

  lemma {:induction false} CountZeroAbsent(xs: seq<Record>, key: Key, id: Value)
    requires Count(xs, key, id) == 0
    ensures forall i :: 0 <= i < |xs| ==> !HasKey(xs[i], key, id)
  {
    if xs != [] {
      var tail := xs[1..];
      CountZeroAbsent(tail, key, id);
      forall i | 1 <= i < |xs| ensures !HasKey(xs[i], key, id) {
        assert xs[i] == tail[i - 1];
      }
    }
  }

  lemma {:induction false} AbsentCountZero(xs: seq<Record>, key: Key, id: Value)
    requires forall i :: 0 <= i < |xs| ==> !HasKey(xs[i], key, id)
    ensures Count(xs, key, id) == 0
  {
    if xs != [] {
      var tail := xs[1..];
      forall j | 0 <= j < |tail| ensures !HasKey(tail[j], key, id) {
        assert tail[j] == xs[j + 1];
      }
      AbsentCountZero(tail, key, id);
      assert !HasKey(xs[0], key, id);
    }
  }

  /** No entry carries `id` exactly when the count of `id` is zero. */
  lemma CountZeroIffAbsent(xs: seq<Record>, key: Key, id: Value)
    ensures Count(xs, key, id) == 0 <==> forall i :: 0 <= i < |xs| ==> !HasKey(xs[i], key, id)
  {
    if Count(xs, key, id) == 0 {
      CountZeroAbsent(xs, key, id);
    }
    if forall i :: 0 <= i < |xs| ==> !HasKey(xs[i], key, id) {
      AbsentCountZero(xs, key, id);
    }
  }

  /** `xs.map(x => x[key] === id ? r : x)`. */
  function ReplaceByKey(xs: seq<Record>, key: Key, id: Value, r: Record): (ys: seq<Record>)
    ensures |ys| == |xs|
    ensures forall i :: 0 <= i < |xs| ==> ys[i] == if HasKey(xs[i], key, id) then r else xs[i]
  {
    if xs == [] then []
    else [if HasKey(xs[0], key, id) then r else xs[0]] + ReplaceByKey(xs[1..], key, id, r)
  }

  /** An `id` that no entry carries leaves the list as it was. */
  lemma ReplaceUnmatched(xs: seq<Record>, key: Key, id: Value, r: Record)
    requires Count(xs, key, id) == 0
    ensures ReplaceByKey(xs, key, id, r) == xs
  {
    CountZeroIffAbsent(xs, key, id);
  }

  /** Replacing twice with the same record is replacing once. */
  lemma ReplaceIdempotent(xs: seq<Record>, key: Key, id: Value, r: Record)
    ensures ReplaceByKey(ReplaceByKey(xs, key, id, r), key, id, r) == ReplaceByKey(xs, key, id, r)
  {
  }

  /** When the replacement still carries `id` (the server echoes the identity
      key), the number of entries with that `id` is unchanged. */
  lemma {:induction false} ReplaceKeepsCount(xs: seq<Record>, key: Key, id: Value, r: Record)
    requires HasKey(r, key, id)
    ensures Count(ReplaceByKey(xs, key, id, r), key, id) == Count(xs, key, id)
  {
    if xs != [] {
      var ys := ReplaceByKey(xs, key, id, r);
      assert ys[1..] == ReplaceByKey(xs[1..], key, id, r);
      ReplaceKeepsCount(xs[1..], key, id, r);
    }
  }

  /** Replacing with a record that every matching entry already equals changes
      nothing. */
  lemma ReplaceBySelf(xs: seq<Record>, key: Key, r: Record)
    requires forall i :: 0 <= i < |xs| && HasKey(xs[i], key, Get(r, key)) ==> xs[i] == r
    ensures ReplaceByKey(xs, key, Get(r, key), r) == xs
  {
    var ys := ReplaceByKey(xs, key, Get(r, key), r);
    assert forall i :: 0 <= i < |xs| ==> ys[i] == xs[i];
  }

  /** `xs.filter(x => x[key] !== id)`. */
  function RemoveByKey(xs: seq<Record>, key: Key, id: Value): seq<Record> {
    if xs == [] then []
    else (if HasKey(xs[0], key, id) then [] else [xs[0]]) + RemoveByKey(xs[1..], key, id)
  }

  /** Removal drops exactly the entries carrying `id`: as many as `Count` says,
      and every survivor is an entry of the list without it. */
  lemma {:induction false} RemoveDropsMatches(xs: seq<Record>, key: Key, id: Value)
    ensures |RemoveByKey(xs, key, id)| == |xs| - Count(xs, key, id)
    ensures forall y :: y in RemoveByKey(xs, key, id) ==> y in xs && !HasKey(y, key, id)
  {
    if xs != [] {
      RemoveDropsMatches(xs[1..], key, id);
      var head := if HasKey(xs[0], key, id) then [] else [xs[0]];
      assert RemoveByKey(xs, key, id) == head + RemoveByKey(xs[1..], key, id);
      forall y | y in RemoveByKey(xs, key, id) ensures y in xs && !HasKey(y, key, id) {
        if y !in head {
          assert y in RemoveByKey(xs[1..], key, id);
        }
      }
    }
  }

  /** Every entry that does not carry `id` survives the removal. */
  lemma {:induction false} RemoveKeepsOthers(xs: seq<Record>, key: Key, id: Value, x: Record)
    requires x in xs && !HasKey(x, key, id)
    ensures x in RemoveByKey(xs, key, id)
  {
    if xs[0] != x {
      assert x in xs[1..];
      RemoveKeepsOthers(xs[1..], key, id, x);
    }
  }

  /** Removal works piecewise, so the survivors keep their relative order. */
  lemma {:induction false} RemoveAppend(a: seq<Record>, b: seq<Record>, key: Key, id: Value)
    ensures RemoveByKey(a + b, key, id) == RemoveByKey(a, key, id) + RemoveByKey(b, key, id)
  {
    if a == [] {
      assert a + b == b;
    } else {
      assert (a + b)[0] == a[0] && (a + b)[1..] == a[1..] + b;
      RemoveAppend(a[1..], b, key, id);
    }
  }

  /** An `id` that no entry carries leaves the list as it was. */
  lemma {:induction false} RemoveUnmatched(xs: seq<Record>, key: Key, id: Value)
    requires Count(xs, key, id) == 0
    ensures RemoveByKey(xs, key, id) == xs
  {
    if xs != [] {
      RemoveUnmatched(xs[1..], key, id);
    }
  }

  /** After a removal no entry carries `id`, so removing again changes nothing. */
  lemma RemoveIdempotent(xs: seq<Record>, key: Key, id: Value)
    ensures Count(RemoveByKey(xs, key, id), key, id) == 0
    ensures RemoveByKey(RemoveByKey(xs, key, id), key, id) == RemoveByKey(xs, key, id)
  {
    var ys := RemoveByKey(xs, key, id);
    RemoveDropsMatches(xs, key, id);
    forall i | 0 <= i < |ys| ensures !HasKey(ys[i], key, id) {
      assert ys[i] in ys;
    }
    CountZeroIffAbsent(ys, key, id);
    RemoveUnmatched(ys, key, id);
  }

  /** With exactly one entry carrying `id`, at index `i`, removal takes out that
      entry and nothing else. */
  lemma RemoveUniqueAt(xs: seq<Record>, key: Key, id: Value, i: nat)
    requires i < |xs| && HasKey(xs[i], key, id) && Count(xs, key, id) == 1
    ensures RemoveByKey(xs, key, id) == xs[..i] + xs[i + 1..]
  {
    var pre, mid, post := xs[..i], [xs[i]], xs[i + 1..];
    assert xs == (pre + mid) + post;
    CountAppend(pre + mid, post, key, id);
    CountAppend(pre, mid, key, id);
    assert Count(mid, key, id) == 1;
    assert Count(pre, key, id) == 0 && Count(post, key, id) == 0;
    RemoveUnmatched(pre, key, id);
    RemoveUnmatched(post, key, id);
    calc {
      RemoveByKey(xs, key, id);
      { RemoveAppend(pre + mid, post, key, id); }
      RemoveByKey(pre + mid, key, id) + RemoveByKey(post, key, id);
      { RemoveAppend(pre, mid, key, id); }
      RemoveByKey(pre, key, id) + RemoveByKey(mid, key, id) + post;
      pre + [] + post;
    }
  }

  /** Appending one record raises the count of its own `id` by exactly one. */
  lemma AppendCount(xs: seq<Record>, key: Key, r: Record)
    ensures Count(xs + [r], key, Get(r, key)) == Count(xs, key, Get(r, key)) + 1
  {
    CountAppend(xs, [r], key, Get(r, key));
  }

  /** `xs.filter(keep)`. */
  function Filter(xs: seq<Record>, keep: Record -> bool): (ys: seq<Record>)
    ensures |ys| <= |xs|
    ensures forall y :: y in ys ==> y in xs && keep(y)
  {
    if xs == [] then []
    else (if keep(xs[0]) then [xs[0]] else []) + Filter(xs[1..], keep)
  }

  /** Filtering works piecewise over concatenation, so the kept entries stay in
      the order of the list. */
  lemma {:induction false} FilterAppend(a: seq<Record>, b: seq<Record>, keep: Record -> bool)
    ensures Filter(a + b, keep) == Filter(a, keep) + Filter(b, keep)
  {
    if a == [] {
      assert a + b == b;
    } else {
      assert (a + b)[0] == a[0];
      assert (a + b)[1..] == a[1..] + b;
      FilterAppend(a[1..], b, keep);
    }
  }

  lemma {:induction false} FilterKeeps(xs: seq<Record>, keep: Record -> bool, x: Record)
    requires x in xs && keep(x)
    ensures x in Filter(xs, keep)
  {
    if xs[0] != x {
      assert x in xs[1..];
      FilterKeeps(xs[1..], keep, x);
    }
  }

  /** Two filters that agree on every entry keep the same entries. */
  lemma {:induction false} FilterSame(xs: seq<Record>, f: Record -> bool, g: Record -> bool)
    requires forall x :: x in xs ==> f(x) == g(x)
    ensures Filter(xs, f) == Filter(xs, g)
  {
    if xs != [] {
      assert forall x :: x in xs[1..] ==> x in xs;
      FilterSame(xs[1..], f, g);
    }
  }

  /** A filter that keeps every entry returns the list itself. */
  lemma {:induction false} FilterAll(xs: seq<Record>, keep: Record -> bool)
    requires forall x :: x in xs ==> keep(x)
    ensures Filter(xs, keep) == xs
  {
    if xs != [] {
      assert forall x :: x in xs[1..] ==> x in xs;
      FilterAll(xs[1..], keep);
    }
  }
}
