/** Option and Result datatypes shared by every module of the model. */
module Wrappers {

  /** Rust's `Option<T>`. */
  datatype Option<+T> = None | Some(value: T)

  /** Rust's `Result<T, E>`. */
  datatype Result<+T, +E> = Ok(value: T) | Err(error: E)

  /** Looks a key up in a map, the way `HashMap::get` answers. */
  function Get<K, V>(m: map<K, V>, k: K): (r: Option<V>)
    ensures r.Some? <==> k in m
    ensures r.Some? ==> r.value == m[k]
  {
    if k in m then Some(m[k]) else None
  }

  /** Two maps that answer every lookup alike are the same map. */
  lemma MapsEqualByGet<K, V>(m: map<K, V>, n: map<K, V>)
    requires forall k :: Get(m, k) == Get(n, k)
    ensures m == n
  {
    assert forall k :: k in m <==> k in n by {
      forall k ensures k in m <==> k in n {
        assert Get(m, k).Some? <==> Get(n, k).Some?;
      }
    }
    assert forall k | k in m :: m[k] == n[k] by {
      forall k | k in m ensures m[k] == n[k] {
        assert Get(m, k) == Get(n, k);
      }
    }
  }
}
