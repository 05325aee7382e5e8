/**
 * The ascending-key view of the canister's stable B-tree map.
 *
 * `StableBTreeMap<u64, Item>` iterates its entries in ascending key order.
 * The model keeps the store as a Dafny `map`, so the iteration order is
 * recovered here: `Sorted` lists a finite set of 64-bit keys in ascending
 * order, and `AscendingUnique` shows that this listing is the only one,
 * which is what lets two stores with the same keys be iterated alike.
 */
module OrderedKeys {

  /** The key type of the store: Rust's `u64`. */
  newtype uint64 = x: int | 0 <= x < 0x1_0000_0000_0000_0000

  /** Strictly increasing, hence also free of duplicates. */
  predicate Ascending(ks: seq<uint64>) {
    forall i, j :: 0 <= i < j < |ks| ==> ks[i] < ks[j]
  }

  predicate IsLeast(k: uint64, keys: set<uint64>) {
    k in keys && forall j :: j in keys ==> k <= j
  }

  /** Every non-empty finite set of keys has a least element. */
  lemma {:induction false} LeastExists(keys: set<uint64>)
    requires keys != {}
    ensures exists k :: IsLeast(k, keys)
    decreases keys
  {
    var x :| x in keys;
    if keys != {x} {
      var rest := keys - {x};
      LeastExists(rest);
      var m :| IsLeast(m, rest);
      assert forall j :: j in keys ==> j == x || j in rest;
      if x < m {
        assert IsLeast(x, keys);
      } else {
        assert IsLeast(m, keys);
      }
    } else {
      assert IsLeast(x, keys);
    }
  }

  /** The smallest key of a non-empty set. */
  function Least(keys: set<uint64>): (k: uint64)
    requires keys != {}
    ensures k in keys
    ensures forall j :: j in keys ==> k <= j
  {
    LeastExists(keys);
    var k :| IsLeast(k, keys);
    k
  }

  /** The keys of `keys` in ascending order: the order in which the stable map is iterated. */
  function Sorted(keys: set<uint64>): (ks: seq<uint64>)
    ensures Ascending(ks)
    ensures forall k :: k in ks <==> k in keys
    decreases keys
  {
    if keys == {} then []
    else
      var k := Least(keys);
      [k] + Sorted(keys - {k})
  }

  /** Two ascending sequences holding the same keys are the same sequence. */
  lemma {:induction false} AscendingUnique(a: seq<uint64>, b: seq<uint64>)
    requires Ascending(a) && Ascending(b)
    requires forall k :: k in a <==> k in b
    ensures a == b
    decreases |a|
  {
    if a != [] && b != [] {
      assert a[0] == b[0] by {
        assert a[0] in b;
        assert b[0] in a;
      }
      forall k
        ensures k in a[1..] <==> k in b[1..]
      {
        if k in a[1..] {
          assert k in a && k != a[0];
        }
        if k in b[1..] {
          assert k in b && k != b[0];
        }
        if k in a {
          assert k == a[0] || k in a[1..];
        }
        if k in b {
          assert k == b[0] || k in b[1..];
        }
      }
      AscendingUnique(a[1..], b[1..]);
      assert a == [a[0]] + a[1..];
      assert b == [b[0]] + b[1..];
    } else if a != [] {
      HeadIsMember(a);
      assert false;
    } else if b != [] {
      HeadIsMember(b);
      assert false;
    }
  }

  /** Names the term `s[0]`, so that the impossible branches above can close with `assert false`. */
  lemma HeadIsMember(s: seq<uint64>)
    requires s != []
    ensures s[0] in s
  {
  }
}
