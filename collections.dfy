/** Rust's `zip` followed by `collect` into a `HashMap`, used by several services. */
module Collections {

  /**
   * `zip` followed by `collect` into a map: pairs stop at the shorter of
   * the two lists, and a later pair overwrites an earlier one with the
   * same key.
   */
  function ZipMap<K(==,!new), V>(keys: seq<K>, values: seq<V>): (m: map<K, V>)
    ensures forall k :: k in m <==> exists i :: 0 <= i < |keys| && i < |values| && keys[i] == k
  {
    var n := if |keys| < |values| then |keys| else |values|;
    if n == 0 then map[]
    else
      var m := ZipMap(keys[..n - 1], values[..n - 1]);
      assert forall i :: 0 <= i < n - 1 ==> keys[..n - 1][i] == keys[i];
      m[keys[n - 1] := values[n - 1]]
  }

  /** A key the later pairs do not repeat maps to its own partner. */
  lemma {:induction false} ZipMapAt<K(!new), V>(keys: seq<K>, values: seq<V>, i: nat)
    requires i < |keys| && i < |values|
    requires forall j :: i < j < |keys| && j < |values| ==> keys[j] != keys[i]
    ensures keys[i] in ZipMap(keys, values) && ZipMap(keys, values)[keys[i]] == values[i]
    decreases |keys|
  {
    var n := if |keys| < |values| then |keys| else |values|;
    if i < n - 1 {
      ZipMapAt(keys[..n - 1], values[..n - 1], i);
    }
  }

  /** Every value of the slot map is one of the listed players. */
  lemma {:induction false} ZipMapValues<K(!new), V>(keys: seq<K>, values: seq<V>)
    ensures forall v :: v in ZipMap(keys, values).Values ==> v in values
    decreases |keys|
  {
    var n := if |keys| < |values| then |keys| else |values|;
    if n > 0 {
      ZipMapValues(keys[..n - 1], values[..n - 1]);
      var m := ZipMap(keys[..n - 1], values[..n - 1]);
      forall v | v in ZipMap(keys, values).Values
        ensures v in values
      {
        var k :| k in ZipMap(keys, values) && ZipMap(keys, values)[k] == v;
        if k != keys[n - 1] {
          assert k in m && m[k] == v;
          assert v in m.Values;
        }
      }
    }
  }

  /** Some element of `s` satisfies `p`. */
  predicate Any<T>(s: seq<T>, p: T -> bool)
  {
    exists i :: 0 <= i < |s| && p(s[i])
  }

  /** An element satisfying `p` is among the earlier ones or is the last. */
  lemma AnySnoc<T>(s: seq<T>, p: T -> bool)
    requires s != []
    ensures Any(s, p) <==> Any(s[..|s| - 1], p) || p(s[|s| - 1])
  {
    var front := s[..|s| - 1];
    if Any(front, p) {
      var i :| 0 <= i < |front| && p(front[i]);
      assert s[i] == front[i];
    }
    if Any(s, p) {
      var i :| 0 <= i < |s| && p(s[i]);
      if i < |front| {
        assert front[i] == s[i];
      }
    }
  }

  /** A prefix of a prefix is a prefix. */
  lemma PrefixOfPrefix<T>(s: seq<T>, n: nat, i: nat)
    requires i <= n <= |s|
    ensures s[..n][..i] == s[..i]
  {
  }
}
