/** Visibility records keyed by line id, and the `{...v, [k]: !v[k]}` update
    both map pages use for their line toggles. A missing key reads as
    `undefined`, which is falsy, so flipping it stores `true`. */
module Toggles {
  /** `!!v[k]`: present and true. */
  predicate IsOn<K>(v: map<K, bool>, k: K)
  {
    k in v && v[k]
  }

  /** `{...v, [k]: !v[k]}`: the entry for `k` is set to the opposite of how
      it reads now; every other entry is kept. */
  function Flip<K>(v: map<K, bool>, k: K): (r: map<K, bool>)
    ensures r.Keys == v.Keys + {k}
    ensures IsOn(r, k) == !IsOn(v, k)
    ensures forall j :: j in v && j != k ==> r[j] == v[j]
  {
    v[k := !IsOn(v, k)]
  }

  /** Flipping `k` changes how `k` reads and nothing else. */
  lemma FlipOnlyChangesKey<K>(v: map<K, bool>, k: K, j: K)
    requires j != k
    ensures IsOn(Flip(v, k), j) == IsOn(v, j)
  {
  }

  /** Flipping a key that is present twice restores the record exactly. */
  lemma FlipTwice<K>(v: map<K, bool>, k: K)
    requires k in v
    ensures Flip(Flip(v, k), k) == v
  {
    var w := Flip(Flip(v, k), k);
    assert w.Keys == v.Keys;
    assert forall j :: j in v ==> w[j] == v[j];
  }

  /** Flipping any key twice leaves every entry reading as before; an absent
      key comes back as an explicit `false`. */
  lemma FlipTwiceReadsSame<K>(v: map<K, bool>, k: K)
    ensures forall j :: IsOn(Flip(Flip(v, k), k), j) == IsOn(v, j)
    ensures k !in v ==> Flip(Flip(v, k), k) == v[k := false]
  {
    var w := Flip(Flip(v, k), k);
    forall j ensures IsOn(w, j) == IsOn(v, j) {
      if j != k {
        FlipOnlyChangesKey(v, k, j);
        FlipOnlyChangesKey(Flip(v, k), k, j);
      }
    }
  }
}
