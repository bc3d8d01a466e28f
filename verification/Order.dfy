// The orders that scans follow: strings compare by code point, positions by number.
module Order {

  // A string as its code points. UTF-8 keeps their order, so byte order and code point order agree.
  type Key = seq<nat>

  ghost predicate StrictTotal<K(!new)>(less: (K, K) -> bool) {
    && (forall a :: !less(a, a))
    && (forall a, b, c :: less(a, b) && less(b, c) ==> less(a, c))
    && (forall a, b :: a != b ==> less(a, b) || less(b, a))
  }

  predicate KeyLess(a: Key, b: Key) {
    if b == [] then false
    else if a == [] then true
    else a[0] < b[0] || (a[0] == b[0] && KeyLess(a[1..], b[1..]))
  }

  predicate PositionLess(a: nat, b: nat) {
    a < b
  }

  predicate StartsWith(key: Key, prefix: Key) {
    prefix <= key
  }

  // The least key above every key that starts with a non-empty prefix.
  function PrefixEnd(prefix: Key): Key
    requires prefix != []
  {
    prefix[..|prefix| - 1] + [prefix[|prefix| - 1] + 1]
  }

  lemma {:induction false} KeyLessIrreflexive(a: Key)
    ensures !KeyLess(a, a)
  {
    if a != [] {
      KeyLessIrreflexive(a[1..]);
    }
  }

  lemma {:induction false} KeyLessTransitive(a: Key, b: Key, c: Key)
    requires KeyLess(a, b) && KeyLess(b, c)
    ensures KeyLess(a, c)
  {
    if a != [] && a[0] == b[0] == c[0] {
      KeyLessTransitive(a[1..], b[1..], c[1..]);
    }
  }

  lemma {:induction false} KeyLessTotal(a: Key, b: Key)
    requires a != b
    ensures KeyLess(a, b) || KeyLess(b, a)
  {
    if a != [] && b != [] && a[0] == b[0] {
      assert a == [a[0]] + a[1..] && b == [b[0]] + b[1..];
      KeyLessTotal(a[1..], b[1..]);
    }
  }

  // Key `a` is a proper prefix of `b`, or smaller at code point `n`, before which they agree.
  ghost predicate DiffersAt(a: Key, b: Key, n: nat) {
    && n <= |a| && n < |b| && a[..n] == b[..n]
    && (n < |a| ==> a[n] < b[n])
  }

  // The order is the lexicographic order of the code points.
  lemma {:induction false} KeyOrderIsLexicographic(a: Key, b: Key)
    ensures KeyLess(a, b) <==> exists n: nat :: DiffersAt(a, b, n)
  {
    if a == [] || b == [] {
      assert b != [] ==> DiffersAt(a, b, 0);
    } else if a[0] != b[0] {
      assert a[0] < b[0] ==> DiffersAt(a, b, 0);
      assert forall n: nat :: DiffersAt(a, b, n) && n > 0 ==> a[..n][0] == b[..n][0];
    } else {
      KeyOrderIsLexicographic(a[1..], b[1..]);
      forall n: nat
        ensures DiffersAt(a[1..], b[1..], n) <==> DiffersAt(a, b, n + 1)
      {
        TailsDiffer(a, b, n);
      }
      if exists n: nat :: DiffersAt(a, b, n) {
        var n: nat :| DiffersAt(a, b, n);
        assert DiffersAt(a[1..], b[1..], n - 1);
      }
    }
  }

  lemma TailsDiffer(a: Key, b: Key, n: nat)
    requires a != [] && b != [] && a[0] == b[0]
    ensures DiffersAt(a[1..], b[1..], n) <==> DiffersAt(a, b, n + 1)
  {
    if n < |a| && n < |b| {
      assert a[..n + 1] == [a[0]] + a[1..][..n];
      assert b[..n + 1] == [b[0]] + b[1..][..n];
      assert a[1..][..n] == a[..n + 1][1..];
      assert b[1..][..n] == b[..n + 1][1..];
    }
  }

  lemma KeyOrderIsStrictTotal()
    ensures StrictTotal(KeyLess)
  {
    forall a: Key {
      KeyLessIrreflexive(a);
    }
    forall a: Key, b: Key, c: Key | KeyLess(a, b) && KeyLess(b, c)
      ensures KeyLess(a, c)
    {
      KeyLessTransitive(a, b, c);
    }
    forall a: Key, b: Key | a != b
      ensures KeyLess(a, b) || KeyLess(b, a)
    {
      KeyLessTotal(a, b);
    }
  }

  // The keys with a prefix form one contiguous block of the order: from the prefix itself up to its end.
  lemma {:induction false} PrefixIsBlock(key: Key, prefix: Key)
    requires prefix != []
    ensures StartsWith(key, prefix) <==> !KeyLess(key, prefix) && KeyLess(key, PrefixEnd(prefix))
  {
    if key != [] {
      if |prefix| > 1 {
        assert PrefixEnd(prefix)[1..] == PrefixEnd(prefix[1..]);
        assert StartsWith(key, prefix) <==> key[0] == prefix[0] && StartsWith(key[1..], prefix[1..]) by {
          if key[0] == prefix[0] && prefix[1..] <= key[1..] {
            assert prefix == [prefix[0]] + prefix[1..] && key == [key[0]] + key[1..];
          }
        }
        PrefixIsBlock(key[1..], prefix[1..]);
      } else {
        assert PrefixEnd(prefix)[1..] == [];
      }
    }
  }
}
