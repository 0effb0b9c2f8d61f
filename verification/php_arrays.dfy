/**
 * PHP arrays with string keys. A PHP array is an ordered map: iteration follows insertion
 * order, assigning to an existing key overwrites its value in place, and assigning to a new
 * key appends it at the end. The model is the list of (key, value) entries in that order.
 */
module PhpArrays {
  import opened Wrappers
  import opened Sequences

  type Arr<V> = seq<(string, V)>

  /** The keys in iteration order (`array_keys`). */
  function Keys<V>(a: Arr<V>): (ks: seq<string>)
    ensures |ks| == |a|
  {
    if |a| == 0 then [] else [a[0].0] + Keys(a[1..])
  }

  /** `array_key_exists($k, $a)`; also `isset($a[$k])`, since the model has no null values. */
  predicate HasKey<V>(a: Arr<V>, k: string)
  {
    k in Keys(a)
  }

  /** A key is set exactly when some entry carries it. */
  lemma HasKeyMeansEntry<V>(a: Arr<V>, k: string)
    ensures HasKey(a, k) <==> exists i :: 0 <= i < |a| && a[i].0 == k
  {
    KeysAt(a);
  }

  /** The i-th key is the key of the i-th entry. */
  lemma {:induction false} KeysAt<V>(a: Arr<V>)
    ensures forall i :: 0 <= i < |a| ==> Keys(a)[i] == a[i].0
  {
    if |a| > 0 {
      KeysAt(a[1..]);
      assert forall i :: 1 <= i < |a| ==> Keys(a)[i] == Keys(a[1..])[i - 1];
    }
  }

  /** A well-formed PHP array never holds the same key twice. */
  ghost predicate UniqueKeys<V>(a: Arr<V>)
  {
    Distinct(Keys(a))
  }

  /** `$a[$k]`, with `None` for a missing key. */
  function Get<V>(a: Arr<V>, k: string): (r: Option<V>)
    ensures r.Some? <==> HasKey(a, k)
    ensures r.Some? ==> (k, r.value) in a
  {
    if |a| == 0 then None
    else if a[0].0 == k then Some(a[0].1)
    else Get(a[1..], k)
  }

  /** The assignment `$a[$k] = $v`. */
  function Put<V>(a: Arr<V>, k: string, v: V): (r: Arr<V>)
    ensures Get(r, k) == Some(v)
    ensures forall k' :: k' != k ==> Get(r, k') == Get(a, k')
    ensures HasKey(a, k) ==> Keys(r) == Keys(a)
    ensures !HasKey(a, k) ==> r == a + [(k, v)]
    ensures Keys(a) <= Keys(r)
  {
    if |a| == 0 then [(k, v)]
    else if a[0].0 == k then [(k, v)] + a[1..]
    else
      var rest := Put(a[1..], k, v);
      assert ([a[0]] + rest)[1..] == rest;
      [a[0]] + rest
  }

  /** `unset($a[$k])`. */
  function Unset<V>(a: Arr<V>, k: string): (r: Arr<V>)
    ensures !HasKey(r, k)
    ensures forall k' :: k' != k ==> Get(r, k') == Get(a, k')
    ensures !HasKey(a, k) ==> r == a
  {
    if |a| == 0 then []
    else if a[0].0 == k then Unset(a[1..], k)
    else
      var rest := Unset(a[1..], k);
      assert ([a[0]] + rest)[1..] == rest;
      [a[0]] + rest
  }

  /** `unset` keeps the order of the remaining keys, and unique keys stay unique. */
  lemma {:induction false} UnsetOrder<V>(a: Arr<V>, k: string)
    ensures Keys(Unset(a, k)) == Remove(Keys(a), k)
    ensures UniqueKeys(a) ==> UniqueKeys(Unset(a, k))
  {
    if |a| > 0 {
      UnsetOrder(a[1..], k);
      var rest := Unset(a[1..], k);
      if a[0].0 != k {
        assert ([a[0]] + rest)[1..] == rest;
      }
    }
    DistinctRemove(Keys(a), k);
  }

  /** A run of assignments `$a[k1] = v1; $a[k2] = v2; ...` to distinct keys. */
  function PutAll<V>(a: Arr<V>, writes: Arr<V>): (r: Arr<V>)
    requires UniqueKeys(writes)
    ensures forall k :: Get(r, k) == (if HasKey(writes, k) then Get(writes, k) else Get(a, k))
    ensures Keys(a) <= Keys(r)
    decreases |writes|
  {
    if |writes| == 0 then a
    else
      DistinctUncons(Keys(writes));
      PutAll(Put(a, writes[0].0, writes[0].1), writes[1..])
  }

  /**
   * The key order after a run of assignments: the old keys, then the assigned keys that were
   * not there before, in assignment order. Unique keys stay unique.
   */
  lemma {:induction false} PutAllOrder<V>(a: Arr<V>, writes: Arr<V>)
    requires UniqueKeys(writes)
    ensures Keys(PutAll(a, writes)) == Keys(a) + Fresh(Keys(writes), Keys(a))
    ensures UniqueKeys(a) ==> UniqueKeys(PutAll(a, writes))
    decreases |writes|
  {
    if |writes| > 0 {
      DistinctUncons(Keys(writes));
      assert Keys(writes) == [writes[0].0] + Keys(writes[1..]);
      PutKeys(a, writes[0].0, writes[0].1, Keys(writes[1..]));
      PutAllOrder(Put(a, writes[0].0, writes[0].1), writes[1..]);
    }
  }

  lemma {:induction false} KeysConcat<V>(a: Arr<V>, b: Arr<V>)
    ensures Keys(a + b) == Keys(a) + Keys(b)
  {
    if |a| > 0 {
      assert (a + b)[1..] == a[1..] + b;
      KeysConcat(a[1..], b);
    } else {
      assert a + b == b;
    }
  }

  /** Putting a key that already holds the value leaves the array as it was. */
  lemma {:induction false} PutExisting<V>(a: Arr<V>, k: string, v: V)
    requires Get(a, k) == Some(v)
    ensures Put(a, k, v) == a
  {
    if a[0].0 != k {
      PutExisting(a[1..], k, v);
    }
  }

  /** Re-running assignments whose values are already in place leaves the array as it was. */
  lemma {:induction false} PutAllExisting<V>(a: Arr<V>, writes: Arr<V>)
    requires UniqueKeys(writes)
    requires forall k :: HasKey(writes, k) ==> Get(a, k) == Get(writes, k)
    ensures PutAll(a, writes) == a
    decreases |writes|
  {
    if |writes| > 0 {
      DistinctUncons(Keys(writes));
      PutExisting(a, writes[0].0, writes[0].1);
      PutAllExisting(a, writes[1..]);
    }
  }

  /**
   * One assignment followed by assignments to the keys `rest`, which do not include `k`: the
   * key order it leads to is the old keys followed by the keys not seen before, in order.
   */
  lemma PutKeys<V>(a: Arr<V>, k: string, v: V, rest: seq<string>)
    requires k !in rest
    ensures Keys(Put(a, k, v)) + Fresh(rest, Keys(Put(a, k, v))) == Keys(a) + Fresh([k] + rest, Keys(a))
    ensures UniqueKeys(a) ==> UniqueKeys(Put(a, k, v))
  {
    var s := [k] + rest;
    assert s[1..] == rest;
    var ks := Keys(a);
    var r := Put(a, k, v);
    if HasKey(a, k) {
      assert Fresh(s, ks) == Fresh(rest, ks);
      assert Keys(r) == ks;
    } else {
      assert Fresh(s, ks) == [k] + Fresh(rest, ks);
      assert r == a + [(k, v)];
      KeysConcat(a, [(k, v)]);
      assert Keys(r) == ks + [k];
      FreshSkip(rest, ks, k);
      assert Fresh(rest, Keys(r)) == Fresh(rest, ks);
      AppendAssoc(ks, [k], Fresh(rest, ks));
    }
    if UniqueKeys(a) {
      PutUnique(a, k, v);
    }
  }

  /** Assignment keeps the keys unique. */
  lemma PutUnique<V>(a: Arr<V>, k: string, v: V)
    requires UniqueKeys(a)
    ensures UniqueKeys(Put(a, k, v))
  {
    if !HasKey(a, k) {
      KeysConcat(a, [(k, v)]);
    }
  }
}
