/** The entry loop that every loader runs over its directory records: each record yields a path
    and a value or fails, the first failure ends the loop (`?` / early `return Err`), and the
    pairs are put into a `HashMap` with `insert`, so a later record with the same path replaces an
    earlier one. */
module Insertion {
  import opened Bytes

  /** `HashMap::insert` of each pair in turn, starting from `acc`. */
  function Inserted<K, V>(acc: map<K, V>, pairs: seq<(K, V)>): (r: map<K, V>)
    decreases |pairs|
  {
    if pairs == [] then acc else Inserted(acc[pairs[0].0 := pairs[0].1], pairs[1..])
  }

  /** The keys after insertion are the old keys and every inserted key. */
  lemma {:induction false} InsertedKeys<K, V>(acc: map<K, V>, pairs: seq<(K, V)>)
    ensures Inserted(acc, pairs).Keys == acc.Keys + (set i | 0 <= i < |pairs| :: pairs[i].0)
    decreases |pairs|
  {
    if pairs != [] {
      InsertedKeys(acc[pairs[0].0 := pairs[0].1], pairs[1..]);
      var rest := set i | 0 <= i < |pairs| - 1 :: pairs[1..][i].0;
      var all := set i | 0 <= i < |pairs| :: pairs[i].0;
      assert all == {pairs[0].0} + rest by {
        forall k | k in all ensures k in {pairs[0].0} + rest {
          var i :| 0 <= i < |pairs| && pairs[i].0 == k;
          if i > 0 {
            assert pairs[1..][i - 1].0 == k;
          }
        }
        forall k | k in rest ensures k in all {
          var i :| 0 <= i < |pairs| - 1 && pairs[1..][i].0 == k;
          assert pairs[i + 1].0 == k;
        }
      }
    }
  }

  /** The value under a key is the one of the last pair with that key. */
  lemma {:induction false} InsertedLastWins<K, V>(acc: map<K, V>, pairs: seq<(K, V)>, j: nat)
    requires j < |pairs|
    requires forall l :: j < l < |pairs| ==> pairs[l].0 != pairs[j].0
    ensures pairs[j].0 in Inserted(acc, pairs) && Inserted(acc, pairs)[pairs[j].0] == pairs[j].1
    decreases |pairs|
  {
    var acc' := acc[pairs[0].0 := pairs[0].1];
    if j == 0 {
      InsertedUntouched(acc', pairs[1..], pairs[0].0);
    } else {
      InsertedLastWins(acc', pairs[1..], j - 1);
    }
  }

  /** A key that no pair mentions keeps its old value. */
  lemma {:induction false} InsertedUntouched<K, V>(acc: map<K, V>, pairs: seq<(K, V)>, k: K)
    requires k in acc
    requires forall l :: 0 <= l < |pairs| ==> pairs[l].0 != k
    ensures k in Inserted(acc, pairs) && Inserted(acc, pairs)[k] == acc[k]
    decreases |pairs|
  {
    if pairs != [] {
      InsertedUntouched(acc[pairs[0].0 := pairs[0].1], pairs[1..], k);
    }
  }

  /** When every pair has the same key, only the last value is left under it. */
  lemma {:induction false} InsertedSameKey<K, V>(acc: map<K, V>, pairs: seq<(K, V)>, k: K)
    requires forall i :: 0 <= i < |pairs| ==> pairs[i].0 == k
    ensures Inserted(acc, pairs) == if pairs == [] then acc else acc[k := pairs[|pairs| - 1].1]
    decreases |pairs|
  {
    if pairs != [] {
      var rest := pairs[1..];
      InsertedSameKey(acc[k := pairs[0].1], rest, k);
      if rest != [] {
        assert rest[|rest| - 1] == pairs[|pairs| - 1];
        assert acc[k := pairs[0].1][k := rest[|rest| - 1].1] == acc[k := pairs[|pairs| - 1].1];
      }
    }
  }

  /** Inserting `n` pairs into an empty map leaves at most `n` keys. */
  lemma InsertedSize<K, V>(pairs: seq<(K, V)>)
    ensures |Inserted(map[], pairs).Keys| <= |pairs|
  {
    InsertedKeys(map[], pairs);
    KeySetSize(pairs);
  }

  lemma {:induction false} KeySetSize<K, V>(pairs: seq<(K, V)>)
    ensures |set i | 0 <= i < |pairs| :: pairs[i].0| <= |pairs|
    decreases |pairs|
  {
    if pairs != [] {
      var init := pairs[..|pairs| - 1];
      KeySetSize(init);
      var s := set i | 0 <= i < |pairs| :: pairs[i].0;
      var s' := set i | 0 <= i < |init| :: init[i].0;
      assert s == s' + {pairs[|pairs| - 1].0} by {
        forall k | k in s ensures k in s' + {pairs[|pairs| - 1].0} {
          var i :| 0 <= i < |pairs| && pairs[i].0 == k;
          if i < |init| {
            assert init[i].0 == k;
          }
        }
      }
    }
  }

  /** The entry loop from `acc` over `items`: the first failing step is the result, otherwise
      the map with every step's pair inserted. */
  function FoldInsert<T, K, V, E>(step: T -> Run<(K, V), E>, items: seq<T>, acc: map<K, V>): (r: Run<map<K, V>, E>)
    decreases |items|
  {
    if items == [] then Ok(acc)
    else
      var r := step(items[0]);
      if r.Ok? then FoldInsert(step, items[1..], acc[r.value.0 := r.value.1])
      else r.PropagateFailure()
  }

  predicate AllOk<T, K, V, E>(step: T -> Run<(K, V), E>, items: seq<T>)
  {
    forall i :: 0 <= i < |items| ==> step(items[i]).Ok?
  }

  /** The pairs of a loop in which every step succeeded. */
  function Pairs<T, K, V, E>(step: T -> Run<(K, V), E>, items: seq<T>): (ps: seq<(K, V)>)
    requires AllOk(step, items)
    ensures |ps| == |items|
  {
    seq(|items|, i requires 0 <= i < |items| => step(items[i]).value)
  }

  /** The loop succeeds exactly when every step does, and then holds every pair inserted in
      order. */
  lemma {:induction false} FoldAllOk<T, K, V, E>(step: T -> Run<(K, V), E>, items: seq<T>, acc: map<K, V>)
    ensures FoldInsert(step, items, acc).Ok? <==> AllOk(step, items)
    ensures AllOk(step, items) ==> FoldInsert(step, items, acc).value == Inserted(acc, Pairs(step, items))
    decreases |items|
  {
    if items != [] {
      var r := step(items[0]);
      if r.Ok? {
        FoldAllOk(step, items[1..], acc[r.value.0 := r.value.1]);
        assert AllOk(step, items) <==> AllOk(step, items[1..]) by {
          if AllOk(step, items[1..]) {
            forall i | 0 <= i < |items| ensures step(items[i]).Ok? {
              if i > 0 {
                assert items[i] == items[1..][i - 1];
              }
            }
          }
        }
        if AllOk(step, items) {
          assert Pairs(step, items)[1..] == Pairs(step, items[1..]);
        }
      }
    }
  }

  /** When step `k` is the first to fail, the loop ends with its failure. */
  lemma {:induction false} FoldFirstFailure<T, K, V, E>(step: T -> Run<(K, V), E>, items: seq<T>, acc: map<K, V>, k: nat)
    requires k < |items| && !step(items[k]).Ok?
    requires forall i :: 0 <= i < k ==> step(items[i]).Ok?
    ensures FoldInsert(step, items, acc) == step(items[k]).PropagateFailure()
    decreases k
  {
    if k > 0 {
      var r := step(items[0]);
      FoldFirstFailure(step, items[1..], acc[r.value.0 := r.value.1], k - 1);
    }
  }

  /** A failed loop failed with the failure of one of its steps. */
  lemma {:induction false} FoldFailureIsStepFailure<T, K, V, E>(step: T -> Run<(K, V), E>, items: seq<T>, acc: map<K, V>)
    requires !FoldInsert(step, items, acc).Ok?
    ensures exists i :: 0 <= i < |items| && !step(items[i]).Ok? && FoldInsert(step, items, acc) == step(items[i]).PropagateFailure()
    decreases |items|
  {
    var r := step(items[0]);
    if r.Ok? {
      FoldFailureIsStepFailure(step, items[1..], acc[r.value.0 := r.value.1]);
      var i :| 0 <= i < |items[1..]| && !step(items[1..][i]).Ok? && FoldInsert(step, items[1..], acc[r.value.0 := r.value.1]) == step(items[1..][i]).PropagateFailure();
      assert items[1..][i] == items[i + 1];
    } else {
      assert !step(items[0]).Ok?;
    }
  }

  /** Whatever every step can fail with, the loop can fail with and nothing else. */
  lemma {:induction false} FoldErrors<T, K, V, E>(step: T -> Run<(K, V), E>, items: seq<T>, acc: map<K, V>, allowed: E -> bool)
    requires forall x :: step(x).Err? ==> allowed(step(x).error)
    ensures FoldInsert(step, items, acc).Err? ==> allowed(FoldInsert(step, items, acc).error)
    decreases |items|
  {
    if items != [] {
      var r := step(items[0]);
      if r.Ok? {
        FoldErrors(step, items[1..], acc[r.value.0 := r.value.1], allowed);
      }
    }
  }

  /** One more step of the loop: the remaining computation after a successful step. */
  lemma FoldStep<T, K, V, E>(step: T -> Run<(K, V), E>, items: seq<T>, i: nat, acc: map<K, V>)
    requires i < |items| && step(items[i]).Ok?
    ensures FoldInsert(step, items[i..], acc) ==
      FoldInsert(step, items[i + 1..], acc[step(items[i]).value.0 := step(items[i]).value.1])
  {
    assert items[i..][1..] == items[i + 1..];
  }
}
