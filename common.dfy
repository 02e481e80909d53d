/** Small shared vocabulary: optional values, results with an error, and the
    dictionary that a sequence of `d[key] = value` assignments builds. */
module Common {

  datatype Option<+T> = None | Some(value: T)

  datatype Result<+T, +E> = Ok(value: T) | Err(error: E)

  /** Python truthiness of an optional string: present and not empty. */
  predicate Truthy(s: Option<string>)
  {
    s.Some? && s.value != ""
  }

  /** Python's `a or b` on optional strings. */
  function OrElse(a: Option<string>, b: Option<string>): (r: Option<string>)
    ensures Truthy(a) ==> r == a
    ensures !Truthy(a) ==> r == b
  {
    if Truthy(a) then a else b
  }

  /** The dictionary obtained from `m` by executing `d[keys[i]] = vals[i]` for
      i = 0, 1, ... in order. */
  function Assoc<K, V>(m: map<K, V>, keys: seq<K>, vals: seq<V>): map<K, V>
    requires |keys| == |vals|
    decreases |keys|
  {
    if keys == [] then m
    else Assoc(m, keys[..|keys| - 1], vals[..|vals| - 1])[keys[|keys| - 1] := vals[|vals| - 1]]
  }

  /** One more assignment extends the dictionary built so far. */
  lemma AssocSnoc<K, V>(m: map<K, V>, keys: seq<K>, vals: seq<V>, i: nat)
    requires |keys| == |vals| && i < |keys|
    ensures Assoc(m, keys[..i + 1], vals[..i + 1]) == Assoc(m, keys[..i], vals[..i])[keys[i] := vals[i]]
  {
    assert keys[..i + 1][..i] == keys[..i];
    assert vals[..i + 1][..i] == vals[..i];
  }

  /** Assigning keys one after the other adds exactly those keys. */
  lemma {:induction false} AssocKeys<K, V>(m: map<K, V>, keys: seq<K>, vals: seq<V>)
    requires |keys| == |vals|
    ensures Assoc(m, keys, vals).Keys == m.Keys + set k | k in keys
    decreases |keys|
  {
    if keys != [] {
      var n := |keys| - 1;
      AssocKeys(m, keys[..n], vals[..n]);
      assert keys == keys[..n] + [keys[n]];
    }
  }

  /** The value stored under a key is the one written by its LAST assignment;
      a key never assigned keeps its value in `m`. */
  lemma {:induction false} AssocLastWins<K, V>(m: map<K, V>, keys: seq<K>, vals: seq<V>, k: nat)
    requires |keys| == |vals|
    requires k < |keys|
    requires keys[k] !in keys[k + 1..]
    ensures keys[k] in Assoc(m, keys, vals)
    ensures Assoc(m, keys, vals)[keys[k]] == vals[k]
    decreases |keys|
  {
    var n := |keys| - 1;
    if k < n {
      assert keys[n] in keys[k + 1..];
      assert keys[..n][k + 1..] == keys[k + 1..n];
      AssocLastWins(m, keys[..n], vals[..n], k);
    }
  }
}
