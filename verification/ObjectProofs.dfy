/**
 Exact object sets at one certified state root: inclusion by active update,
 exclusion by the circular span between adjacent keys.
 Source: crates/chain/src/proof_verify.rs.
 */
module ObjectProofs {
  import opened Wrappers
  import opened BitKeys

  const MAX_CURRENT_KEYS: nat := 32

  datatype Object =
    | Coin(owner: Key, delegate: Option<Key>, value: nat)
    | Edge(maker: Key, taker: Key, parties: set<Key>)
    | RegistryChunk(tag: nat)
    | OwnerData(tag: nat)

  // The ordered database a state root commits to. The root stands for its content.
  type Database = map<Key, Object>

  datatype Operation = Update(key: Key, value: Object, nextKey: Key) | CommitFloor

  datatype CurrentProof = Inclusion(nextKey: Key) | KeyValue(data: Operation) | Commit | Malformed

  datatype ProofEntry = ProofEntry(key: Key, content: Option<Object>, proof: CurrentProof)

  datatype VerificationError = Query | InvalidProof

  predicate LessEq(a: Key, b: Key) {
    a == b || Less(a, b)
  }

  predicate CurrentSpanContains(start: Key, end: Key, key: Key) {
    if !Less(start, end) then LessEq(start, key) || Less(key, end)
    else LessEq(start, key) && Less(key, end)
  }

  // n follows k in the cyclic order of the keys.
  predicate IsNext(keys: set<Key>, k: Key, n: Key) {
    && n in keys
    && if exists j :: j in keys && Less(k, j)
       then Less(k, n) && forall j :: j in keys && Less(k, j) ==> LessEq(n, j)
       else forall j :: j in keys ==> LessEq(n, j)
  }

  // What an operation proof verifies against a root: the operation is active there.
  predicate Active(root: Database, op: Operation) {
    match op
    case Update(key, value, nextKey) => key in root && root[key] == value && IsNext(root.Keys, key, nextKey)
    case CommitFloor => root == map[]
  }

  // ---------- Circular spans ----------

  lemma {:induction false} Greatest(keys: set<Key>) returns (k: Key)
    requires keys != {}
    ensures k in keys && forall j :: j in keys ==> LessEq(j, k)
    decreases keys
  {
    k :| k in keys;
    if keys != {k} {
      var m := Greatest(keys - {k});
      LessTotal(k, m, 0);
      forall j | j in keys
        ensures LessEq(j, if Less(k, m) then m else k)
      {
        if j != k {
          assert LessEq(j, m);
          if j != m && Less(m, k) {
            LessTransitive(j, m, k);
          }
        }
      }
      if Less(k, m) {
        k := m;
      }
    }
  }

  lemma {:induction false} Least(keys: set<Key>) returns (k: Key)
    requires keys != {}
    ensures k in keys && forall j :: j in keys ==> LessEq(k, j)
    decreases keys
  {
    k :| k in keys;
    if keys != {k} {
      var m := Least(keys - {k});
      LessTotal(k, m, 0);
      forall j | j in keys
        ensures LessEq(if Less(m, k) then m else k, j)
      {
        if j != k {
          assert LessEq(m, j);
          if j != m && Less(k, m) {
            LessTransitive(k, m, j);
          }
        }
      }
      if Less(m, k) {
        k := m;
      }
    }
  }

  lemma {:induction false} NextExists(keys: set<Key>, k: Key) returns (n: Key)
    requires k in keys
    ensures IsNext(keys, k, n)
  {
    var above := set j | j in keys && Less(k, j);
    if exists j :: j in keys && Less(k, j) {
      var j :| j in keys && Less(k, j);
      assert j in above;
      n := Least(above);
    } else {
      n := Least(keys);
    }
  }

  // A span between adjacent keys contains no key but its start.
  lemma {:induction false} SpanExcludes(keys: set<Key>, k: Key, n: Key, x: Key)
    requires k in keys && IsNext(keys, k, n) && x != k && CurrentSpanContains(k, n, x)
    ensures x !in keys
  {
    if x in keys {
      if Less(k, x) {
        assert Less(k, n) && LessEq(n, x) && Less(x, n);
        NotBoth(n, x);
      } else {
        assert !Less(k, n) && Less(x, n);
        assert LessEq(n, x);
        NotBoth(n, x);
      }
    }
  }

  lemma {:induction false} NotBoth(a: Key, b: Key)
    ensures !(LessEq(a, b) && Less(b, a))
  {
    LessIrreflexive(a);
    if Less(a, b) {
      LessAsymmetric(a, b);
    }
  }

  // An absent key lies in the span of its predecessor, cyclically.
  lemma {:induction false} SpanCovers(keys: set<Key>, x: Key) returns (k: Key, n: Key)
    requires keys != {} && x !in keys
    ensures k in keys && k != x && IsNext(keys, k, n) && CurrentSpanContains(k, n, x)
  {
    var below := set j | j in keys && Less(j, x);
    if below != {} {
      k := Greatest(below);
      n := NextExists(keys, k);
      if Less(k, n) {
        if !Less(x, n) {
          LessTotal(n, x, 0);
          assert n in below;
          NotBoth(n, k);
        }
      }
    } else {
      k := Greatest(keys);
      n := NextExists(keys, k);
      NotBoth(n, k);
      assert n !in below;
      LessTotal(n, x, 0);
    }
  }

  lemma {:induction false} SpanOrdered(keys: set<Key>, k1: Key, n1: Key, k2: Key, n2: Key, x: Key)
    requires k1 in keys && k2 in keys && Less(k1, k2) && k1 != x && k2 != x
    requires IsNext(keys, k1, n1) && IsNext(keys, k2, n2)
    ensures !(CurrentSpanContains(k1, n1, x) && CurrentSpanContains(k2, n2, x))
  {
    if CurrentSpanContains(k1, n1, x) && CurrentSpanContains(k2, n2, x) {
      assert Less(k1, n1) && LessEq(n1, k2) && Less(k1, x) && Less(x, n1);
      assert Less(x, k2) by {
        if n1 != k2 {
          LessTransitive(x, n1, k2);
        }
      }
      NotBoth(k2, x);
      assert !Less(k2, n2) && Less(x, n2);
      assert LessEq(n2, k1);
      if n2 != k1 {
        LessTransitive(n2, k1, x);
      }
      NotBoth(n2, x);
    }
  }

  // k's span to its neighbour n contains x, which is not k itself.
  predicate Excludes(keys: set<Key>, k: Key, n: Key, x: Key) {
    k in keys && k != x && IsNext(keys, k, n) && CurrentSpanContains(k, n, x)
  }

  // Exclusion is exact: a key is absent if and only if some other key's span contains
  // it, and that key is then the only one.
  lemma {:induction false} ExclusionExact(keys: set<Key>, x: Key)
    requires keys != {}
    ensures x !in keys <==> exists k, n :: Excludes(keys, k, n, x)
    ensures forall k1, n1, k2, n2 :: Excludes(keys, k1, n1, x) && Excludes(keys, k2, n2, x) ==> k1 == k2
  {
    if x !in keys {
      var k, n := SpanCovers(keys, x);
      assert Excludes(keys, k, n, x);
    }
    forall k, n | Excludes(keys, k, n, x)
      ensures x !in keys
    {
      SpanExcludes(keys, k, n, x);
    }
    forall k1, n1, k2, n2 | Excludes(keys, k1, n1, x) && Excludes(keys, k2, n2, x)
      ensures k1 == k2
    {
      if k1 != k2 {
        LessTotal(k1, k2, 0);
        if Less(k1, k2) {
          SpanOrdered(keys, k1, n1, k2, n2, x);
        } else {
          SpanOrdered(keys, k2, n2, k1, n1, x);
        }
      }
    }
  }

  // ---------- Responses ----------

  predicate ValidEntry(root: Database, e: ProofEntry) {
    match e.content
    case Some(value) => e.proof.Inclusion? && Active(root, Update(e.key, value, e.proof.nextKey))
    case None =>
      match e.proof {
        case KeyValue(Update(key, value, nextKey)) =>
          key != e.key && CurrentSpanContains(key, nextKey, e.key) && Active(root, Update(key, value, nextKey))
        case Commit => Active(root, CommitFloor)
        case _ => false
      }
  }

  // A valid entry states the certified value of its key, absence included.
  lemma {:induction false} EntryExact(root: Database, e: ProofEntry)
    requires ValidEntry(root, e)
    ensures e.content == Lookup(root, e.key)
  {
    if e.content.None? && e.proof.KeyValue? {
      var op := e.proof.data;
      SpanExcludes(root.Keys, op.key, op.nextKey, e.key);
    }
  }

  // Every key has a valid entry, so an honest server can always answer.
  lemma {:induction false} EntryExists(root: Database, key: Key) returns (e: ProofEntry)
    ensures e.key == key && ValidEntry(root, e)
  {
    if key in root {
      var n := NextExists(root.Keys, key);
      e := ProofEntry(key, Some(root[key]), Inclusion(n));
    } else if root == map[] {
      e := ProofEntry(key, None, Commit);
    } else {
      var k, n := SpanCovers(root.Keys, key);
      e := ProofEntry(key, None, KeyValue(Update(k, root[k], n)));
    }
  }

  ghost function KeySet(entries: seq<ProofEntry>): set<Key> {
    if entries == [] then {} else KeySet(entries[..|entries| - 1]) + {entries[|entries| - 1].key}
  }

  // Every entry is valid, expected and not a repeat.
  ghost predicate ValidEntries(root: Database, expected: set<Key>, entries: seq<ProofEntry>) {
    entries == [] ||
    var e, before := entries[|entries| - 1], entries[..|entries| - 1];
    ValidEntries(root, expected, before) && e.key in expected && e.key !in KeySet(before) && ValidEntry(root, e)
  }

  ghost predicate ValidResponse(root: Database, expected: set<Key>, entries: seq<ProofEntry>) {
    |expected| <= MAX_CURRENT_KEYS && |entries| == |expected| && ValidEntries(root, expected, entries)
  }

  ghost function Restriction(root: Database, expected: set<Key>): Database {
    map k | k in expected && k in root :: root[k]
  }

  lemma {:induction false} ValidPrefix(root: Database, expected: set<Key>, entries: seq<ProofEntry>, i: nat)
    requires i <= |entries| && ValidEntries(root, expected, entries)
    ensures ValidEntries(root, expected, entries[..i])
  {
    if i == |entries| {
      assert entries[..i] == entries;
    } else {
      ValidPrefix(root, expected, entries[..|entries| - 1], i);
      assert entries[..|entries| - 1][..i] == entries[..i];
    }
  }

  // As many distinct expected keys as there are expected keys leave none out.
  lemma {:induction false} KeySetSize(root: Database, expected: set<Key>, entries: seq<ProofEntry>)
    requires ValidEntries(root, expected, entries)
    ensures KeySet(entries) <= expected && |KeySet(entries)| == |entries|
    ensures |entries| == |expected| ==> KeySet(entries) == expected
  {
    if entries != [] {
      KeySetSize(root, expected, entries[..|entries| - 1]);
    }
    assert |expected - KeySet(entries)| == |expected| - |KeySet(entries)|;
  }

  lemma {:induction false} RestrictionGrows(root: Database, seen: set<Key>, k: Key)
    ensures Restriction(root, seen + {k}) ==
              if k in root then Restriction(root, seen)[k := root[k]] else Restriction(root, seen)
  {
  }

  // The first entry that is not in order is an expected one, not a repeat, that proves nothing.
  ghost predicate FalseEntry(root: Database, expected: set<Key>, entries: seq<ProofEntry>) {
    exists i :: 0 <= i < |entries| && FalseAt(root, expected, entries, i)
  }

  ghost predicate FalseAt(root: Database, expected: set<Key>, entries: seq<ProofEntry>, i: nat)
    requires i < |entries|
  {
    && ValidEntries(root, expected, entries[..i])
    && entries[i].key in expected && entries[i].key !in KeySet(entries[..i]) && !ValidEntry(root, entries[i])
  }

  lemma {:induction false} FirstFalse(root: Database, expected: set<Key>, entries: seq<ProofEntry>, i: nat)
    requires i < |entries| && ValidEntries(root, expected, entries[..i])
    requires !ValidEntries(root, expected, entries[..i + 1])
    ensures FalseEntry(root, expected, entries) <==> FalseAt(root, expected, entries, i)
  {
    forall j | 0 <= j < |entries| && FalseAt(root, expected, entries, j) ensures j == i {
      var more := entries[..j + 1];
      assert more[..j] == entries[..j] && more[j] == entries[j];
      if j < i {
        assert entries[..i][..j + 1] == more;
        ValidPrefix(root, expected, entries[..i], j + 1);
      } else if i < j {
        assert entries[..j][..i + 1] == entries[..i + 1];
        ValidPrefix(root, expected, entries[..j], i + 1);
      }
    }
  }

  lemma {:induction false} NoneFalse(root: Database, expected: set<Key>, entries: seq<ProofEntry>)
    requires ValidEntries(root, expected, entries)
    ensures !FalseEntry(root, expected, entries)
  {
    forall j | 0 <= j < |entries| ensures !FalseAt(root, expected, entries, j) {
      var more := entries[..j + 1];
      assert more[..j] == entries[..j] && more[j] == entries[j];
      ValidPrefix(root, expected, entries, j + 1);
    }
  }

  // Accepts exactly the valid responses, and returns exactly the certified content of
  // the expected keys.
  method VerifyObjects(root: Database, expected: set<Key>, entries: seq<ProofEntry>)
    returns (r: Result<Database, VerificationError>)
    ensures r.Ok? <==> ValidResponse(root, expected, entries)
    ensures r.Ok? ==> r.value == Restriction(root, expected)
    ensures r == Err(InvalidProof) <==>
              |expected| <= MAX_CURRENT_KEYS && |entries| == |expected| && FalseEntry(root, expected, entries)
  {
    if |expected| > MAX_CURRENT_KEYS || |entries| != |expected| {
      return Err(Query);
    }
    var seen: set<Key> := {};
    var objects: Database := map[];
    assert entries[..0] == [];
    for i := 0 to |entries|
      invariant seen == KeySet(entries[..i])
      invariant ValidEntries(root, expected, entries[..i])
      invariant objects == Restriction(root, seen)
    {
      var entry := entries[i];
      ghost var more := entries[..i + 1];
      assert more[..|more| - 1] == entries[..i] && more[|more| - 1] == entry;
      if entry.key !in expected || entry.key in seen || !ValidEntry(root, entry) {
        if ValidEntries(root, expected, entries) {
          ValidPrefix(root, expected, entries, i + 1);
        }
        FirstFalse(root, expected, entries, i);
        return Err(if entry.key !in expected || entry.key in seen then Query else InvalidProof);
      }
      EntryExact(root, entry);
      RestrictionGrows(root, seen, entry.key);
      if entry.content.Some? {
        objects := objects[entry.key := entry.content.value];
      }
      seen := seen + {entry.key};
    }
    assert entries[..|entries|] == entries;
    KeySetSize(root, expected, entries);
    NoneFalse(root, expected, entries);
    return Ok(objects);
  }
}
