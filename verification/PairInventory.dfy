/// The calibration inventory of eligible pairs: a bucket join behind a slackened
/// prefilter, in place of comparing every two states
/// (ops/calibration_pair_inventory_18d6494.py: _bucket_key, _eligible_pairs).

module PairInventory {
  import opened Sequences
  import opened Numbers
  import opened PairEligibility

  datatype Key = Key(phase: nat, contact: bool, predicates: seq<(nat, bool)>, symmetry: int)

  function BucketKey(c: Candidate): Key {
    Key(c.phase, c.contact, c.predicates, c.symmetry)
  }

  datatype Confirmed = Confirmed(left: nat, right: nat, orientation: real, distance: real)

  const SLACK := 1.000001

  function PrefilterAngle(left: real, right: real, order: int): real
    requires order >= 1
  {
    Shared(Folded(Times(Abs(left - right), order as real)), order)
  }

  // The vectorised prefilter, for two states of one bucket.
  predicate Keeps(norm: Norm, a: Candidate, b: Candidate)
    requires WellFormed(a)
  {
    && Abs(a.gripper - b.gripper) <= 0.01 * SLACK
    && norm(a.eef, b.eef) <= 0.02 * SLACK
    && norm(a.primary, b.primary) <= 0.02 * SLACK
    && Abs(a.time - b.time) <= 0.1 * SLACK
    && 30.0 / SLACK <= PrefilterAngle(a.orientation, b.orientation, a.symmetry) <= 90.0 * SLACK
  }

  predicate IsEligible(norm: Norm, a: Candidate, b: Candidate)
    requires WellFormed(a)
  {
    Judged(norm, Confirmatory, a, b).Eligible?
  }

  // ---------------------------------------------------------------- nothing is filtered away

  lemma WithinSlack(x: real, tolerance: real)
    requires x >= 0.0 && 0.01 <= tolerance <= 1.0 && !StrictlyGreater(x, tolerance)
    ensures x <= tolerance * SLACK
  {
  }

  // Which factor comes first makes no difference, and the sign only one of sign.
  lemma Turned(x: real, s: real)
    ensures Times(Abs(x), s) == if x < 0.0 then -Times(s, x) else Times(s, x)
  {
    if x < 0.0 {
      assert Abs(x) == -x;
      assert Times(-x, s) == -Times(s, x);
    } else {
      assert Abs(x) == x;
      assert Times(x, s) == Times(s, x);
    }
  }

  lemma SameAngle(left: real, right: real, order: int)
    requires order >= 1
    ensures PrefilterAngle(left, right, order) == OrientationDifference(left, right, order)
  {
    hide Folded, Shared, Abs, Times;
    var x, s := left - right, order as real;
    Turned(x, s);
    FoldedEven(Times(s, x));
    assert Folded(Times(Abs(x), s)) == Folded(Times(s, x));
  }

  lemma AngleKept(angle: real)
    requires !AngleExcluded(angle, Confirmatory)
    ensures 30.0 / SLACK <= angle <= 90.0 * SLACK
  {
  }

  /// The bucket key and the prefilter let every eligible pair through.
  lemma EligibleIsKept(norm: Norm, a: Candidate, b: Candidate)
    requires IsDistance(norm) && WellFormed(a) && IsEligible(norm, a, b)
    ensures BucketKey(a) == BucketKey(b) && Keeps(norm, a, b)
  {
    EligibleMeans(norm, Confirmatory, a, b);
    hide Judged, StrictlyGreater, AngleExcluded, PrefilterAngle, OrientationDifference;
    assert norm(a.eef, b.eef) >= 0.0 && norm(a.primary, b.primary) >= 0.0;
    WithinSlack(Abs(a.gripper - b.gripper), 0.01);
    WithinSlack(norm(a.eef, b.eef), 0.02);
    WithinSlack(norm(a.primary, b.primary), 0.02);
    WithinSlack(Abs(a.time - b.time), 0.1);
    AngleKept(OrientationDifference(a.orientation, b.orientation, a.symmetry));
    SameAngle(a.orientation, b.orientation, a.symmetry);
  }

  // ---------------------------------------------------------------- one bucket

  ghost predicate Listed(found: seq<Confirmed>, l: nat, r: nat) {
    exists k :: 0 <= k < |found| && found[k].left == l && found[k].right == r
  }

  predicate Once(found: seq<Confirmed>) {
    forall j, k :: 0 <= j < k < |found| ==> (found[j].left, found[j].right) != (found[k].left, found[k].right)
  }

  // Positions of `indices` are compared row by row; those before row `p`, column `q`.
  ghost predicate Reached(indices: seq<nat>, p: nat, q: nat, l: nat, r: nat) {
    exists a, b :: 0 <= a < b < |indices| && (a < p || (a == p && b < q)) && indices[a] == l && indices[b] == r
  }

  // Every entry records what the frozen rule says of its two states.
  ghost predicate Faithful(c: seq<Candidate>, norm: Norm, found: seq<Confirmed>) {
    forall k :: 0 <= k < |found| ==>
      var f := found[k];
      && f.left < f.right < |c| && WellFormed(c[f.left])
      && Judged(norm, Confirmatory, c[f.left], c[f.right]) == Eligible(f.distance, f.orientation)
  }

  predicate Rising(indices: seq<nat>, n: nat) {
    && (forall i :: 0 <= i < |indices| ==> indices[i] < n)
    && forall i, j :: 0 <= i < j < |indices| ==> indices[i] < indices[j]
  }

  lemma ReachedNext(indices: seq<nat>, p: nat, q: nat, l: nat, r: nat)
    requires p < q < |indices|
    ensures Reached(indices, p, q + 1, l, r) <==> Reached(indices, p, q, l, r) || (l == indices[p] && r == indices[q])
  {
    if Reached(indices, p, q + 1, l, r) {
      var a, b :| 0 <= a < b < |indices| && (a < p || (a == p && b < q + 1)) && indices[a] == l && indices[b] == r;
      assert (a < p || (a == p && b < q)) ==> Reached(indices, p, q, l, r);
    }
  }

  lemma NotYetReached(indices: seq<nat>, n: nat, p: nat, q: nat)
    requires p < q < |indices| && Rising(indices, n)
    ensures !Reached(indices, p, q, indices[p], indices[q])
  {
  }

  lemma NextRow(indices: seq<nat>, p: nat, l: nat, r: nat)
    ensures Reached(indices, p, |indices|, l, r) <==> Reached(indices, p + 1, p + 2, l, r)
  {
    if Reached(indices, p, |indices|, l, r) {
      var a, b :| 0 <= a < b < |indices| && (a < p || (a == p && b < |indices|)) && indices[a] == l && indices[b] == r;
      assert a < p + 1;
    }
    if Reached(indices, p + 1, p + 2, l, r) {
      var a, b :|
        0 <= a < b < |indices| && (a < p + 1 || (a == p + 1 && b < p + 2)) && indices[a] == l && indices[b] == r;
      assert a < p || (a == p && b < |indices|);
    }
  }

  lemma AllReached(indices: seq<nat>, n: nat, p: nat, l: nat, r: nat)
    requires Rising(indices, n) && p + 1 >= |indices|
    ensures Reached(indices, p, p + 1, l, r) <==> l in indices && r in indices && l < r
  {
    if l in indices && r in indices && l < r {
      var a :| 0 <= a < |indices| && indices[a] == l;
      var b :| 0 <= b < |indices| && indices[b] == r;
      assert a < b;
    }
  }

  function Triangle(n: nat): nat {
    n * (n - 1) / 2
  }

  lemma NothingConfirmed(c: seq<Candidate>, norm: Norm, indices: seq<nat>)
    ensures Once([]) && Faithful(c, norm, []) && Triangle(0) == Triangle(1) == 0
    ensures forall l: nat, r: nat :: !Listed([], l, r) && !Reached(indices, 0, 1, l, r)
  {
  }

  lemma TriangleGrows(n: nat)
    ensures Triangle(n + 1) == Triangle(n) + n
  {
    assert (n + 1) * n == n * (n - 1) + 2 * n;
  }

  method Confirm(c: seq<Candidate>, norm: Norm, left: nat, right: nat, found: seq<Confirmed>)
    returns (more: seq<Confirmed>)
    requires IsDistance(norm) && left < right < |c| && WellFormed(c[left])
    requires Once(found) && Faithful(c, norm, found) && !Listed(found, left, right)
    ensures Once(more) && Faithful(c, norm, more)
    ensures forall l: nat, r: nat ::
              Listed(more, l, r)
              <==> Listed(found, l, r) || (l == left && r == right && IsEligible(norm, c[left], c[right]))
  {
    hide Keeps, Judged;
    more := found;
    if Keeps(norm, c[left], c[right]) {
      match Judged(norm, Confirmatory, c[left], c[right])
      case Eligible(distance, orientation) =>
        more := found + [Confirmed(left, right, orientation, distance)];
        ListedAppend(found, more[|found|]);
      case Excluded(_) =>
    } else if IsEligible(norm, c[left], c[right]) {
      EligibleIsKept(norm, c[left], c[right]);
    }
  }

  lemma ListedAppend(found: seq<Confirmed>, f: Confirmed)
    ensures forall l: nat, r: nat ::
              Listed(found + [f], l, r) <==> Listed(found, l, r) || (l == f.left && r == f.right)
  {
    var more := found + [f];
    forall l: nat, r: nat
      ensures Listed(more, l, r) <==> Listed(found, l, r) || (l == f.left && r == f.right)
    {
      if Listed(found, l, r) {
        var k :| 0 <= k < |found| && found[k].left == l && found[k].right == r;
        assert more[k] == found[k];
      }
      if l == f.left && r == f.right {
        assert more[|found|] == f;
      }
    }
  }

  /// Inside one bucket: the pairs kept by the prefilter and then confirmed are exactly
  /// the eligible ones, each once, at the price of one comparison for every two states.
  method ScanBucket(c: seq<Candidate>, norm: Norm, indices: seq<nat>) returns (found: seq<Confirmed>, comparisons: nat)
    requires IsDistance(norm) && Rising(indices, |c|)
    requires forall i :: 0 <= i < |c| ==> WellFormed(c[i])
    ensures Once(found) && Faithful(c, norm, found)
    ensures forall l: nat, r: nat ::
              Listed(found, l, r) <==> l in indices && r in indices && l < r && IsEligible(norm, c[l], c[r])
    ensures comparisons == Triangle(|indices|)
  {
    hide Keeps, IsEligible, Judged, Once, Faithful, Listed, Triangle;
    NothingConfirmed(c, norm, indices);
    found, comparisons := [], 0;
    var start := 0;
    while start + 1 < |indices|
      invariant 0 <= start && (start < |indices| || |indices| == start == 0)
      invariant Once(found) && Faithful(c, norm, found)
      invariant forall l: nat, r: nat ::
                  Listed(found, l, r) <==> Reached(indices, start, start + 1, l, r) && IsEligible(norm, c[l], c[r])
      invariant comparisons + Triangle(|indices| - start) == Triangle(|indices|)
    {
      var q := start + 1;
      while q < |indices|
        invariant start < q <= |indices|
        invariant Once(found) && Faithful(c, norm, found)
        invariant forall l: nat, r: nat ::
                    Listed(found, l, r) <==> Reached(indices, start, q, l, r) && IsEligible(norm, c[l], c[r])
      {
        NotYetReached(indices, |c|, start, q);
        forall l: nat, r: nat
          ensures Reached(indices, start, q + 1, l, r)
                  <==> Reached(indices, start, q, l, r) || (l == indices[start] && r == indices[q])
        {
          ReachedNext(indices, start, q, l, r);
        }
        found := Confirm(c, norm, indices[start], indices[q], found);
        q := q + 1;
      }
      forall l: nat, r: nat
        ensures Reached(indices, start, |indices|, l, r) <==> Reached(indices, start + 1, start + 2, l, r)
      {
        NextRow(indices, start, l, r);
      }
      TriangleGrows(|indices| - start - 1);
      comparisons := comparisons + (|indices| - start - 1);
      start := start + 1;
    }
    forall l: nat, r: nat
      ensures Reached(indices, start, start + 1, l, r) <==> l in indices && r in indices && l < r
    {
      AllReached(indices, |c|, start, l, r);
    }
  }

  // ---------------------------------------------------------------- the buckets

  // How many of the first `n` states have this key.
  function Count(c: seq<Candidate>, n: nat, key: Key): nat
    requires n <= |c|
  {
    if n == 0 then 0 else Count(c, n - 1, key) + (if BucketKey(c[n - 1]) == key then 1 else 0)
  }

  // How many pairs of the first `n` states share a key.
  function SamePairs(c: seq<Candidate>, n: nat): nat
    requires n <= |c|
  {
    if n == 0 then 0 else SamePairs(c, n - 1) + Count(c, n - 1, BucketKey(c[n - 1]))
  }

  type Buckets = map<Key, seq<nat>>

  function BucketSum(keys: seq<Key>, buckets: Buckets, n: nat): nat
    requires n <= |keys| && forall i :: 0 <= i < |keys| ==> keys[i] in buckets
  {
    if n == 0 then 0 else BucketSum(keys, buckets, n - 1) + Triangle(|buckets[keys[n - 1]]|)
  }

  // `bucket` lists, in order, those of the first `n` states that have this key.
  predicate BucketOk(c: seq<Candidate>, n: nat, key: Key, bucket: seq<nat>)
    requires n <= |c|
  {
    && Rising(bucket, n) && |bucket| == Count(c, n, key)
    && forall i :: 0 <= i < n ==> (i in bucket <==> BucketKey(c[i]) == key)
  }

  ghost predicate Grouped(c: seq<Candidate>, n: nat, keys: seq<Key>, buckets: Buckets)
    requires n <= |c|
  {
    && Distinct(keys) && (forall k :: k in buckets <==> k in keys)
    && (forall i :: 0 <= i < n ==> BucketKey(c[i]) in buckets)
    && forall k :: k in buckets ==> BucketOk(c, n, k, buckets[k])
  }

  lemma BucketGrows(c: seq<Candidate>, n: nat, key: Key, bucket: seq<nat>)
    requires n < |c| && BucketOk(c, n, key, bucket)
    ensures BucketOk(c, n + 1, key, if BucketKey(c[n]) == key then bucket + [n] else bucket)
  {
  }

  lemma EmptyBucket(c: seq<Candidate>, n: nat, key: Key)
    requires n <= |c| && forall i :: 0 <= i < n ==> BucketKey(c[i]) != key
    ensures BucketOk(c, n, key, [])
  {
    CountAbsent(c, n, key);
  }

  lemma {:induction false} BucketSumUpdate(keys: seq<Key>, buckets: Buckets, p: nat, bucket: seq<nat>, n: nat)
    requires n <= |keys| && p < |keys| && Distinct(keys) && forall i :: 0 <= i < |keys| ==> keys[i] in buckets
    ensures BucketSum(keys, buckets[keys[p] := bucket], n) + (if p < n then Triangle(|buckets[keys[p]]|) else 0)
            == BucketSum(keys, buckets, n) + (if p < n then Triangle(|bucket|) else 0)
  {
    if n > 0 {
      BucketSumUpdate(keys, buckets, p, bucket, n - 1);
    }
  }

  lemma {:induction false} BucketSumNewKey(keys: seq<Key>, buckets: Buckets, key: Key, bucket: seq<nat>, n: nat)
    requires n <= |keys| && key !in keys && forall i :: 0 <= i < |keys| ==> keys[i] in buckets
    ensures BucketSum(keys + [key], buckets[key := bucket], n) == BucketSum(keys, buckets, n)
  {
    if n > 0 {
      BucketSumNewKey(keys, buckets, key, bucket, n - 1);
    }
  }

  lemma {:induction false} CountAbsent(c: seq<Candidate>, n: nat, key: Key)
    requires n <= |c| && forall i :: 0 <= i < n ==> BucketKey(c[i]) != key
    ensures Count(c, n, key) == 0
  {
    if n > 0 {
      CountAbsent(c, n - 1, key);
    }
  }

  lemma BucketSize(c: seq<Candidate>, n: nat, key: Key, bucket: seq<nat>)
    requires n <= |c| && BucketOk(c, n, key, bucket)
    ensures |bucket| == Count(c, n, key)
  {
  }

  predicate KeysKnown(keys: seq<Key>, buckets: Buckets) {
    forall i :: 0 <= i < |keys| ==> keys[i] in buckets
  }

  // The first `n` states are grouped, and their pairs are counted.
  ghost predicate Tallied(c: seq<Candidate>, n: nat, keys: seq<Key>, buckets: Buckets)
    requires n <= |c|
  {
    && Grouped(c, n, keys, buckets) && KeysKnown(keys, buckets)
    && BucketSum(keys, buckets, |keys|) == SamePairs(c, n)
  }

  lemma NothingTallied(c: seq<Candidate>)
    ensures Tallied(c, 0, [], map[])
  {
  }

  lemma KnownKey(c: seq<Candidate>, n: nat, keys: seq<Key>, buckets: Buckets)
    requires n < |c| && Tallied(c, n, keys, buckets) && BucketKey(c[n]) in buckets
    ensures var key := BucketKey(c[n]); Tallied(c, n + 1, keys, buckets[key := buckets[key] + [n]])
  {
    hide BucketKey, Triangle, Rising, BucketOk, Count;
    var key := BucketKey(c[n]);
    var p :| 0 <= p < |keys| && keys[p] == key;
    BucketSumUpdate(keys, buckets, p, buckets[key] + [n], |keys|);
    TriangleGrows(|buckets[key]|);
    BucketSize(c, n, key, buckets[key]);
    forall k | k in buckets
      ensures BucketOk(c, n + 1, k, if k == key then buckets[k] + [n] else buckets[k])
    {
      BucketGrows(c, n, k, buckets[k]);
    }
  }

  lemma NewKey(c: seq<Candidate>, n: nat, keys: seq<Key>, buckets: Buckets)
    requires n < |c| && Tallied(c, n, keys, buckets) && BucketKey(c[n]) !in buckets
    ensures var key := BucketKey(c[n]); Tallied(c, n + 1, keys + [key], buckets[key := [n]])
  {
    hide BucketKey, Rising, BucketOk, Count;
    var key := BucketKey(c[n]);
    assert forall i :: 0 <= i < n ==> BucketKey(c[i]) != key;
    EmptyBucket(c, n, key);
    BucketSize(c, n, key, []);
    BucketGrows(c, n, key, []);
    assert [] + [n] == [n];
    BucketSumNewKey(keys, buckets, key, [n], |keys|);
    forall k | k in buckets
      ensures BucketOk(c, n + 1, k, buckets[k])
    {
      BucketGrows(c, n, k, buckets[k]);
    }
  }

  method GroupByKey(c: seq<Candidate>) returns (keys: seq<Key>, buckets: Buckets)
    ensures Tallied(c, |c|, keys, buckets)
  {
    hide Tallied, BucketKey;
    keys, buckets := [], map[];
    NothingTallied(c);
    var index := 0;
    while index < |c|
      invariant 0 <= index <= |c| && Tallied(c, index, keys, buckets)
    {
      var key := BucketKey(c[index]);
      if key in buckets {
        KnownKey(c, index, keys, buckets);
        buckets := buckets[key := buckets[key] + [index]];
      } else {
        NewKey(c, index, keys, buckets);
        keys, buckets := keys + [key], buckets[key := [index]];
      }
      index := index + 1;
    }
  }

  /// Inside one bucket of the grouping, told by the key.
  method ScanKey(c: seq<Candidate>, norm: Norm, key: Key, bucket: seq<nat>)
    returns (found: seq<Confirmed>, comparisons: nat)
    requires IsDistance(norm) && BucketOk(c, |c|, key, bucket)
    requires forall i :: 0 <= i < |c| ==> WellFormed(c[i])
    ensures Once(found) && Faithful(c, norm, found)
    ensures forall l: nat, r: nat ::
              Listed(found, l, r) <==> l < r < |c| && BucketKey(c[l]) == key && IsEligible(norm, c[l], c[r])
    ensures comparisons == Triangle(|bucket|)
  {
    hide IsEligible, BucketKey, Listed, Once, Faithful;
    found, comparisons := ScanBucket(c, norm, bucket);
    forall l: nat, r: nat
      ensures Listed(found, l, r) <==> l < r < |c| && BucketKey(c[l]) == key && IsEligible(norm, c[l], c[r])
    {
      if l < r < |c| && IsEligible(norm, c[l], c[r]) {
        EligibleKey(norm, c[l], c[r]);
      }
    }
  }

  /// The whole inventory: each unordered pair of states that the frozen rule finds
  /// eligible is listed exactly once and nothing else is, as a scan of all pairs would
  /// have it; and only states that share a bucket key were ever compared.
  method EligiblePairs(c: seq<Candidate>, norm: Norm) returns (confirmed: seq<Confirmed>, comparisons: nat)
    requires IsDistance(norm) && forall i :: 0 <= i < |c| ==> WellFormed(c[i])
    ensures Once(confirmed) && Faithful(c, norm, confirmed)
    ensures forall l: nat, r: nat ::
              Listed(confirmed, l, r) <==> l < r < |c| && IsEligible(norm, c[l], c[r])
    ensures comparisons == SamePairs(c, |c|)
  {
    hide IsEligible, BucketKey, BucketOk, Triangle;
    var keys, buckets := GroupByKey(c);
    confirmed, comparisons := [], 0;
    var b := 0;
    while b < |keys|
      invariant 0 <= b <= |keys|
      invariant Once(confirmed) && Faithful(c, norm, confirmed)
      invariant forall l: nat, r: nat ::
                  Listed(confirmed, l, r)
                  <==> l < r < |c| && BucketKey(c[l]) in keys[..b] && IsEligible(norm, c[l], c[r])
      invariant comparisons == BucketSum(keys, buckets, b)
    {
      hide Once, Faithful, Listed;
      var found, made := ScanKey(c, norm, keys[b], buckets[keys[b]]);
      Joined(c, norm, confirmed, found, keys, b);
      confirmed, comparisons := confirmed + found, comparisons + made;
      b := b + 1;
    }
    assert keys[..|keys|] == keys;
  }

  lemma EligibleKey(norm: Norm, a: Candidate, b: Candidate)
    requires IsDistance(norm) && WellFormed(a) && IsEligible(norm, a, b)
    ensures BucketKey(a) == BucketKey(b)
  {
    EligibleIsKept(norm, a, b);
  }

  lemma ListedConcat(a: seq<Confirmed>, b: seq<Confirmed>)
    ensures forall l: nat, r: nat :: Listed(a + b, l, r) <==> Listed(a, l, r) || Listed(b, l, r)
  {
    forall l: nat, r: nat
      ensures Listed(a + b, l, r) <==> Listed(a, l, r) || Listed(b, l, r)
    {
      if Listed(a, l, r) {
        var k :| 0 <= k < |a| && a[k].left == l && a[k].right == r;
        assert (a + b)[k] == a[k];
      }
      if Listed(b, l, r) {
        var k :| 0 <= k < |b| && b[k].left == l && b[k].right == r;
        assert (a + b)[|a| + k] == b[k];
      }
    }
  }

  lemma OnceConcat(a: seq<Confirmed>, b: seq<Confirmed>)
    requires Once(a) && Once(b)
    requires forall l: nat, r: nat :: !(Listed(a, l, r) && Listed(b, l, r))
    ensures Once(a + b)
  {
    forall j, k | 0 <= j < k < |a + b|
      ensures ((a + b)[j].left, (a + b)[j].right) != ((a + b)[k].left, (a + b)[k].right)
    {
      if j < |a| <= k {
        assert Listed(a, a[j].left, a[j].right);
        assert Listed(b, b[k - |a|].left, b[k - |a|].right);
      }
    }
  }

  lemma Joined(c: seq<Candidate>, norm: Norm, confirmed: seq<Confirmed>, found: seq<Confirmed>, keys: seq<Key>, b: nat)
    requires Distinct(keys) && b < |keys| && forall i :: 0 <= i < |c| ==> WellFormed(c[i])
    requires Once(confirmed) && Faithful(c, norm, confirmed) && Once(found) && Faithful(c, norm, found)
    requires forall l: nat, r: nat ::
               Listed(confirmed, l, r)
               <==> l < r < |c| && BucketKey(c[l]) in keys[..b] && IsEligible(norm, c[l], c[r])
    requires forall l: nat, r: nat ::
               Listed(found, l, r) <==> l < r < |c| && BucketKey(c[l]) == keys[b] && IsEligible(norm, c[l], c[r])
    ensures Once(confirmed + found) && Faithful(c, norm, confirmed + found)
    ensures forall l: nat, r: nat ::
              Listed(confirmed + found, l, r)
              <==> l < r < |c| && BucketKey(c[l]) in keys[..b + 1] && IsEligible(norm, c[l], c[r])
  {
    hide Judged, IsEligible, Listed;
    ListedConcat(confirmed, found);
    assert keys[..b + 1] == keys[..b] + [keys[b]];
    assert keys[b] !in keys[..b];
    OnceConcat(confirmed, found);
  }
}
