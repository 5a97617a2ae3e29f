// 256-bit keys, most significant bit first, and their lexicographic order.
module BitKeys {
  const DEPTH: nat := 256

  type Key = k: seq<bool> | |k| == DEPTH witness seq(DEPTH, i => false)
  type Prefix = p: seq<bool> | |p| <= DEPTH witness []

  ghost predicate Covers(p: Prefix, k: Key) {
    p <= k
  }

  // A key below p goes to exactly one of p's children.
  lemma {:induction false} CoversSplit(p: Prefix, k: Key)
    requires |p| < DEPTH
    ensures Covers(p, k) <==> Covers(p + [k[|p|]], k)
    ensures !Covers(p + [!k[|p|]], k)
  {
    if p <= k {
      assert k[..|p| + 1] == p + [k[|p|]];
    }
    if p + [k[|p|]] <= k {
      assert p == (p + [k[|p|]])[..|p|] == k[..|p| + 1][..|p|];
    }
    assert (p + [!k[|p|]])[|p|] != k[|p|];
  }

  lemma {:induction false} TakeNext(k: Key, d: nat)
    requires d < DEPTH
    ensures k[..d + 1] == k[..d] + [k[d]]
  {
  }

  // Byte order on 32-byte ids is this order on their bits.
  predicate Less(a: Key, b: Key) {
    exists i :: 0 <= i < DEPTH && SplitsAt(a, b, i)
  }

  // a and b agree before bit i, where a goes left and b goes right.
  predicate SplitsAt(a: Key, b: Key, i: nat)
    requires i < DEPTH
  {
    a[..i] == b[..i] && !a[i] && b[i]
  }

  ghost predicate Increasing(ks: seq<Key>) {
    forall i, j :: 0 <= i < j < |ks| ==> Less(ks[i], ks[j])
  }

  lemma {:induction false} LessTransitive(a: Key, b: Key, c: Key)
    requires Less(a, b) && Less(b, c)
    ensures Less(a, c)
  {
    var i: nat :| i < DEPTH && SplitsAt(a, b, i);
    var j: nat :| j < DEPTH && SplitsAt(b, c, j);
    var m := if i < j then i else j;
    assert a[..m] == a[..i][..m] == b[..i][..m] == b[..m] == b[..j][..m] == c[..j][..m] == c[..m];
    if i < j {
      assert b[i] == b[..j][i] == c[..j][i] == c[i];
    } else if j < i {
      assert a[j] == a[..i][j] == b[..i][j] == b[j];
    }
    assert SplitsAt(a, c, m);
  }

  lemma {:induction false} LessIrreflexive(a: Key)
    ensures !Less(a, a)
  {
  }

  lemma {:induction false} LessAsymmetric(a: Key, b: Key)
    requires Less(a, b)
    ensures !Less(b, a) && a != b
  {
    if Less(b, a) {
      LessTransitive(a, b, a);
    }
  }

  // The first bit where two keys differ decides their order.
  lemma {:induction false} LessTotal(a: Key, b: Key, d: nat)
    requires d <= DEPTH && a[..d] == b[..d] && a != b
    ensures Less(a, b) || Less(b, a)
    decreases DEPTH - d
  {
    assert a == a[..DEPTH] && b == b[..DEPTH];
    if d == DEPTH {
    } else if a[d] == b[d] {
      assert a[..d + 1] == a[..d] + [a[d]] == b[..d + 1];
      LessTotal(a, b, d + 1);
    } else {
      assert SplitsAt(a, b, d) || SplitsAt(b, a, d);
    }
  }

  // A strictly increasing listing is determined by the set it lists.
  lemma {:induction false} IncreasingUnique(xs: seq<Key>, ys: seq<Key>)
    requires Increasing(xs) && Increasing(ys)
    requires forall k: Key :: k in xs <==> k in ys
    ensures xs == ys
  {
    assert |ys| == 0 || ys[0] in ys;
    if xs == [] {
    } else {
      assert xs[0] in ys;
      assert ys[0] in xs;
      if xs[0] != ys[0] {
        assert Less(ys[0], xs[0]);
        assert Less(xs[0], ys[0]);
        LessAsymmetric(xs[0], ys[0]);
      }
      forall k: Key
        ensures k in xs[1..] <==> k in ys[1..]
      {
        TailMembers(xs, k);
        TailMembers(ys, k);
      }
      IncreasingUnique(xs[1..], ys[1..]);
    }
  }

  lemma {:induction false} TailMembers(xs: seq<Key>, k: Key)
    requires Increasing(xs) && xs != []
    ensures k in xs[1..] <==> k in xs && k != xs[0]
  {
    LessIrreflexive(xs[0]);
    forall i | 0 < i < |xs|
      ensures xs[i] != xs[0]
    {
      assert Less(xs[0], xs[i]);
    }
  }
}
