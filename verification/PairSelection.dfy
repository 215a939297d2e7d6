/// Greedy pairing of candidate states for one seed
/// (ops/locked_test_causal.py: _fast_pairs, _seeded_traversal; the reference form over
/// materialised edges is select_pairs of src/mech_int_vla/causal.py).
///
/// `judge` stands for pair_eligibility in one mode and `digest` for the SHA-256 of seed
/// and identity.

module PairSelection {
  import opened Wrappers
  import opened Sequences
  import opened Sorting
  import opened PairEligibility

  const PAIR_LIMIT: nat := 20

  datatype Pair = Pair(recipient: Id, donor: Id, orientation: real)

  datatype PairError = DuplicateCandidate | BadLimit

  type Digest = (nat, Id) -> nat

  // ---------------------------------------------------------------- orders

  function Ids(c: seq<Candidate>): (r: seq<Id>)
    ensures |r| == |c| && forall i :: 0 <= i < |c| ==> r[i] == c[i].id
  {
    seq(|c|, i requires 0 <= i < |c| => c[i].id)
  }

  function IdSet(c: seq<Candidate>): set<Id> {
    Elements(Ids(c))
  }

  function ById(): Candidate -> Rank {
    (c: Candidate) => Rank(c.id, 0)
  }

  function BySeed(digest: Digest, seed: nat): Candidate -> Rank {
    (c: Candidate) => Rank(digest(seed, c.id), c.id)
  }

  function Ordered(c: seq<Candidate>): seq<Candidate> {
    SortBy(c, ById())
  }

  function Traversal(c: seq<Candidate>, digest: Digest, seed: nat): seq<Candidate> {
    SortBy(c, BySeed(digest, seed))
  }

  // ---------------------------------------------------------------- the nearest donor

  datatype Choice = Choice(distance: real, donor: Id, orientation: real)

  // Tuples (distance, identity) in lexicographic order.
  predicate Nearer(a: Choice, b: Choice) {
    a.distance < b.distance || (a.distance == b.distance && a.donor < b.donor)
  }

  predicate Suits(unused: set<Id>, recipient: Candidate, donor: Candidate, judge: Judge) {
    donor.id != recipient.id && donor.id in unused && judge(recipient, donor).Eligible?
  }

  function Offer(recipient: Candidate, donor: Candidate, judge: Judge): Choice
    requires judge(recipient, donor).Eligible?
  {
    var v := judge(recipient, donor);
    Choice(v.distance, donor.id, v.orientation)
  }

  // No donor suits this recipient.
  predicate Lonely(ordered: seq<Candidate>, unused: set<Id>, recipient: Candidate, judge: Judge) {
    forall e :: e in ordered ==> !Suits(unused, recipient, e, judge)
  }

  // No nearer than `choice`, and of two equally near the one with the greater identity.
  predicate NoBetter(distance: real, id: Id, choice: Choice) {
    choice.distance < distance || (choice.distance == distance && choice.donor <= id)
  }

  // `choice` is what the nearest suitable donor offers, ties going to the smaller identity.
  predicate Nearest(ordered: seq<Candidate>, unused: set<Id>, recipient: Candidate, judge: Judge, choice: Choice) {
    && (exists d :: d in ordered && Suits(unused, recipient, d, judge) && choice == Offer(recipient, d, judge))
    && forall e :: e in ordered && Suits(unused, recipient, e, judge) ==>
         NoBetter(judge(recipient, e).distance, e.id, choice)
  }

  function Least(options: seq<Choice>): (r: Choice)
    requires options != []
    ensures r in options && forall o :: o in options ==> NoBetter(o.distance, o.donor, r)
  {
    var last := options[|options| - 1];
    if |options| == 1 then last
    else
      var r := Least(options[..|options| - 1]);
      assert options == options[..|options| - 1] + [last];
      if Nearer(last, r) then last else r
  }

  method NearestDonor(ordered: seq<Candidate>, unused: set<Id>, recipient: Candidate, judge: Judge)
    returns (r: Option<Choice>)
    ensures r.None? ==> Lonely(ordered, unused, recipient, judge)
    ensures r.Some? ==> Nearest(ordered, unused, recipient, judge, r.value)
    ensures r.Some? ==> forall e :: e in ordered && e.id != recipient.id && e.id in unused ==>
              var v := judge(recipient, e);
              v.Eligible? ==> r.value.distance < v.distance || (r.value.distance == v.distance && r.value.donor <= e.id)
  {
    var options: seq<Choice> := [];
    for i := 0 to |ordered|
      invariant forall o :: o in options ==>
                  exists d :: d in ordered && Suits(unused, recipient, d, judge) && o == Offer(recipient, d, judge)
      invariant forall j :: 0 <= j < i && Suits(unused, recipient, ordered[j], judge) ==>
                  Offer(recipient, ordered[j], judge) in options
    {
      var donor := ordered[i];
      if donor.id != recipient.id && donor.id in unused {
        match judge(recipient, donor)
        case Eligible(distance, orientation) =>
          assert Suits(unused, recipient, donor, judge);
          options := options + [Choice(distance, donor.id, orientation)];
        case Excluded(_) =>
      }
    }
    if options == [] {
      return None;
    }
    return Some(Least(options));
  }

  // ---------------------------------------------------------------- what greedy means

  function Spent(pairs: seq<Pair>, k: nat): set<Id>
    requires k <= |pairs|
  {
    if k == 0 then {} else Spent(pairs, k - 1) + {pairs[k - 1].recipient, pairs[k - 1].donor}
  }

  function Left(all: set<Id>, pairs: seq<Pair>, k: nat): set<Id>
    requires k <= |pairs|
  {
    all - Spent(pairs, k)
  }

  // Pair `p` serves `traversal[i]`, the first in line that still can be served.
  ghost predicate Serves(ordered: seq<Candidate>, traversal: seq<Candidate>, i: nat, unused: set<Id>, judge: Judge,
      p: Pair)
    requires i < |traversal|
  {
    && traversal[i].id == p.recipient && p.recipient in unused
    && (exists x: real :: Nearest(ordered, unused, traversal[i], judge, Choice(x, p.donor, p.orientation)))
    && forall j :: 0 <= j < i && traversal[j].id in unused ==> Lonely(ordered, unused, traversal[j], judge)
  }

  ghost predicate ServedBefore(ordered: seq<Candidate>, traversal: seq<Candidate>, n: nat, unused: set<Id>,
      judge: Judge, p: Pair)
    requires n <= |traversal|
  {
    exists i :: 0 <= i < n && Serves(ordered, traversal, i, unused, judge, p)
  }

  // The `pairs` served by the first `n` in line.
  ghost predicate Served(ordered: seq<Candidate>, traversal: seq<Candidate>, n: nat, all: set<Id>, judge: Judge,
      pairs: seq<Pair>)
    requires n <= |traversal|
  {
    forall k :: 0 <= k < |pairs| ==> ServedBefore(ordered, traversal, n, Left(all, pairs, k), judge, pairs[k])
  }

  predicate AllLonely(ordered: seq<Candidate>, traversal: seq<Candidate>, n: nat, unused: set<Id>, judge: Judge)
    requires n <= |traversal|
  {
    forall j :: 0 <= j < n && traversal[j].id in unused ==> Lonely(ordered, unused, traversal[j], judge)
  }

  // The greedy selection: every pair serves the first in line that can be served, and
  // short of the limit nobody is left who could be.
  ghost predicate IsGreedy(ordered: seq<Candidate>, traversal: seq<Candidate>, all: set<Id>, limit: nat,
      judge: Judge, pairs: seq<Pair>)
  {
    && |pairs| <= limit
    && Served(ordered, traversal, |traversal|, all, judge, pairs)
    && (|pairs| < limit ==> AllLonely(ordered, traversal, |traversal|, Left(all, pairs, |pairs|), judge))
  }

  ghost predicate Selects(c: seq<Candidate>, seed: nat, limit: nat, judge: Judge, digest: Digest, pairs: seq<Pair>) {
    IsGreedy(Ordered(c), Traversal(c, digest, seed), IdSet(c), limit, judge, pairs)
  }

  // ---------------------------------------------------------------- the selection

  lemma SpentPrefix(pairs: seq<Pair>, p: Pair, k: nat)
    requires k <= |pairs|
    ensures Spent(pairs + [p], k) == Spent(pairs, k)
  {
    if k > 0 {
      SpentPrefix(pairs, p, k - 1);
    }
  }

  lemma LeftPrefix(all: set<Id>, pairs: seq<Pair>, p: Pair, k: nat)
    requires k <= |pairs|
    ensures Left(all, pairs + [p], k) == Left(all, pairs, k)
  {
    SpentPrefix(pairs, p, k);
  }

  lemma LonelyLater(ordered: seq<Candidate>, unused: set<Id>, fewer: set<Id>, recipient: Candidate, judge: Judge)
    requires Lonely(ordered, unused, recipient, judge) && fewer <= unused
    ensures Lonely(ordered, fewer, recipient, judge)
  {
    forall e | e in ordered
      ensures !Suits(fewer, recipient, e, judge)
    {
      assert !Suits(unused, recipient, e, judge);
    }
  }

  // The state of the traversal loop before the `i`-th recipient.
  ghost predicate Progress(ordered: seq<Candidate>, traversal: seq<Candidate>, i: nat, all: set<Id>, unused: set<Id>,
      judge: Judge, pairs: seq<Pair>)
    requires i <= |traversal|
  {
    && unused == Left(all, pairs, |pairs|)
    && Served(ordered, traversal, i, all, judge, pairs)
    && AllLonely(ordered, traversal, i, unused, judge)
  }

  lemma LaterToo(ordered: seq<Candidate>, traversal: seq<Candidate>, n: nat, m: nat, unused: set<Id>, judge: Judge,
      p: Pair)
    requires n <= m <= |traversal| && ServedBefore(ordered, traversal, n, unused, judge, p)
    ensures ServedBefore(ordered, traversal, m, unused, judge, p)
  {
    hide Nearest, Lonely;
  }

  lemma PairAdded(ordered: seq<Candidate>, traversal: seq<Candidate>, i: nat, all: set<Id>, unused: set<Id>,
      judge: Judge, pairs: seq<Pair>, choice: Choice)
    requires i < |traversal| && Progress(ordered, traversal, i, all, unused, judge, pairs)
    requires traversal[i].id in unused && Nearest(ordered, unused, traversal[i], judge, choice)
    ensures var p := Pair(traversal[i].id, choice.donor, choice.orientation);
            Progress(ordered, traversal, i + 1, all, unused - {p.recipient, p.donor}, judge, pairs + [p])
  {
    hide Nearest, Lonely, Spent, Left, Served;
    var p := Pair(traversal[i].id, choice.donor, choice.orientation);
    assert choice == Choice(choice.distance, p.donor, p.orientation);
    assert Serves(ordered, traversal, i, unused, judge, p);
    ServedAppend(ordered, traversal, i, all, judge, pairs, p);
    LeftAppend(all, pairs, p);
    forall j | 0 <= j < i + 1 && traversal[j].id in unused - {p.recipient, p.donor}
      ensures Lonely(ordered, unused - {p.recipient, p.donor}, traversal[j], judge)
    {
      LonelyLater(ordered, unused, unused - {p.recipient, p.donor}, traversal[j], judge);
    }
  }

  lemma LeftAppend(all: set<Id>, pairs: seq<Pair>, p: Pair)
    ensures Left(all, pairs + [p], |pairs| + 1) == Left(all, pairs, |pairs|) - {p.recipient, p.donor}
  {
    SpentPrefix(pairs, p, |pairs|);
  }

  lemma ServedAppend(ordered: seq<Candidate>, traversal: seq<Candidate>, i: nat, all: set<Id>, judge: Judge,
      pairs: seq<Pair>, p: Pair)
    requires i < |traversal| && Served(ordered, traversal, i, all, judge, pairs)
    requires ServedBefore(ordered, traversal, i + 1, Left(all, pairs, |pairs|), judge, p)
    ensures Served(ordered, traversal, i + 1, all, judge, pairs + [p])
  {
    hide ServedBefore, Spent, Left;
    var more := pairs + [p];
    forall k | 0 <= k < |more|
      ensures ServedBefore(ordered, traversal, i + 1, Left(all, more, k), judge, more[k])
    {
      LeftPrefix(all, pairs, p, k);
      if k < |pairs| {
        LaterToo(ordered, traversal, i, i + 1, Left(all, pairs, k), judge, pairs[k]);
      }
    }
  }

  lemma RecipientSkipped(ordered: seq<Candidate>, traversal: seq<Candidate>, i: nat, all: set<Id>, unused: set<Id>,
      judge: Judge, pairs: seq<Pair>)
    requires i < |traversal| && Progress(ordered, traversal, i, all, unused, judge, pairs)
    requires traversal[i].id in unused ==> Lonely(ordered, unused, traversal[i], judge)
    ensures Progress(ordered, traversal, i + 1, all, unused, judge, pairs)
  {
    hide Lonely, ServedBefore;
    ServedSooner(ordered, traversal, i, i + 1, all, judge, pairs);
  }

  /// The traversal loop, for any way of judging two states.
  method Pairs(ordered: seq<Candidate>, traversal: seq<Candidate>, all: set<Id>, limit: nat, judge: Judge)
    returns (selected: seq<Pair>)
    ensures IsGreedy(ordered, traversal, all, limit, judge, selected)
  {
    hide Served, Spent, Left, Nearest, Lonely;
    var unused := all;
    selected := [];
    NothingSelected(ordered, traversal, all, judge);
    var i := 0;
    while i < |traversal| && |selected| != limit
      invariant 0 <= i <= |traversal| && |selected| <= limit
      invariant Progress(ordered, traversal, i, all, unused, judge, selected)
    {
      hide Progress;
      var recipient := traversal[i];
      if recipient.id in unused {
        var best := NearestDonor(ordered, unused, recipient, judge);
        match best
        case None => RecipientSkipped(ordered, traversal, i, all, unused, judge, selected);
        case Some(choice) =>
          PairAdded(ordered, traversal, i, all, unused, judge, selected, choice);
          selected := selected + [Pair(recipient.id, choice.donor, choice.orientation)];
          unused := unused - {recipient.id, choice.donor};
      } else {
        RecipientSkipped(ordered, traversal, i, all, unused, judge, selected);
      }
      i := i + 1;
    }
    ServedSooner(ordered, traversal, i, |traversal|, all, judge, selected);
  }

  lemma NothingSelected(ordered: seq<Candidate>, traversal: seq<Candidate>, all: set<Id>, judge: Judge)
    ensures Progress(ordered, traversal, 0, all, all, judge, [])
  {
  }

  lemma ServedSooner(ordered: seq<Candidate>, traversal: seq<Candidate>, n: nat, m: nat, all: set<Id>, judge: Judge,
      pairs: seq<Pair>)
    requires n <= m <= |traversal| && Served(ordered, traversal, n, all, judge, pairs)
    ensures Served(ordered, traversal, m, all, judge, pairs)
  {
    hide ServedBefore;
    forall k | 0 <= k < |pairs|
      ensures ServedBefore(ordered, traversal, m, Left(all, pairs, k), judge, pairs[k])
    {
      LaterToo(ordered, traversal, n, m, Left(all, pairs, k), judge, pairs[k]);
    }
  }

  /// The selection that judges pairs as it meets them.
  method FastPairs(c: seq<Candidate>, seed: nat, judge: Judge, digest: Digest) returns (r: Result<seq<Pair>, PairError>)
    ensures r.Ok? <==> Distinct(Ids(c))
    ensures r.Ok? ==> Selects(c, seed, PAIR_LIMIT, judge, digest, r.value)
    ensures r.Err? ==> r.error == DuplicateCandidate
  {
    hide IsGreedy, SortBy;
    var all := IdSet(c);
    DistinctExactly(Ids(c));
    if |all| != |c| {
      return Err(DuplicateCandidate);
    }
    var selected := Pairs(Ordered(c), Traversal(Ordered(c), digest, seed), all, PAIR_LIMIT, judge);
    TraversalOfOrdered(c, digest, seed);
    return Ok(selected);
  }

  lemma RanksOfIds(c: seq<Candidate>, digest: Digest, seed: nat)
    requires Distinct(Ids(c))
    ensures RanksDiffer(c, ById()) && RanksDiffer(c, BySeed(digest, seed))
  {
    forall i, j | 0 <= i < j < |c|
      ensures c[i].id != c[j].id
    {
      assert Ids(c)[i] != Ids(c)[j];
    }
  }

  lemma SameIds(a: seq<Candidate>, b: seq<Candidate>)
    requires multiset(a) == multiset(b)
    ensures IdSet(a) == IdSet(b)
    ensures Distinct(Ids(a)) <==> Distinct(Ids(b))
  {
    DistinctExactly(Ids(a));
    DistinctExactly(Ids(b));
    assert |a| == |multiset(a)| == |multiset(b)| == |b|;
    forall i
      ensures i in Ids(a) <==> i in Ids(b)
    {
      if i in Ids(a) {
        var k :| 0 <= k < |a| && Ids(a)[k] == i;
        assert a[k] in multiset(b);
        var m :| 0 <= m < |b| && b[m] == a[k];
        assert Ids(b)[m] == i;
      }
      if i in Ids(b) {
        var k :| 0 <= k < |b| && Ids(b)[k] == i;
        assert b[k] in multiset(a);
        var m :| 0 <= m < |a| && a[m] == b[k];
        assert Ids(a)[m] == i;
      }
    }
  }

  lemma TraversalOfOrdered(c: seq<Candidate>, digest: Digest, seed: nat)
    requires Distinct(Ids(c))
    ensures Traversal(Ordered(c), digest, seed) == Traversal(c, digest, seed)
    ensures multiset(Ordered(c)) == multiset(c)
  {
    RanksOfIds(c, digest, seed);
    SortByOk(c, ById());
    SameIds(Ordered(c), c);
    RanksOfIds(Ordered(c), digest, seed);
    SortByPermutes(Ordered(c), c, BySeed(digest, seed));
  }

  // ---------------------------------------------------------------- there is only one

  lemma NearestUnique(ordered: seq<Candidate>, unused: set<Id>, r: Candidate, judge: Judge, a: Choice, b: Choice)
    requires Distinct(Ids(ordered))
    requires Nearest(ordered, unused, r, judge, a) && Nearest(ordered, unused, r, judge, b)
    ensures a == b && !Lonely(ordered, unused, r, judge)
  {
    var d :| d in ordered && Suits(unused, r, d, judge) && a == Offer(r, d, judge);
    var e :| e in ordered && Suits(unused, r, e, judge) && b == Offer(r, e, judge);
    assert NoBetter(b.distance, b.donor, a) && NoBetter(a.distance, a.donor, b);
    var i :| 0 <= i < |ordered| && ordered[i] == d;
    var j :| 0 <= j < |ordered| && ordered[j] == e;
    assert Ids(ordered)[i] == Ids(ordered)[j];
  }

  lemma ServesUnique(ordered: seq<Candidate>, traversal: seq<Candidate>, n: nat, unused: set<Id>, judge: Judge,
      p: Pair, q: Pair)
    requires n <= |traversal| && Distinct(Ids(ordered))
    requires ServedBefore(ordered, traversal, n, unused, judge, p)
    requires ServedBefore(ordered, traversal, n, unused, judge, q)
    ensures p == q && !AllLonely(ordered, traversal, n, unused, judge)
  {
    hide Nearest, Lonely;
    var i :| 0 <= i < n && Serves(ordered, traversal, i, unused, judge, p);
    var j :| 0 <= j < n && Serves(ordered, traversal, j, unused, judge, q);
    var x: real :| Nearest(ordered, unused, traversal[i], judge, Choice(x, p.donor, p.orientation));
    var y: real :| Nearest(ordered, unused, traversal[j], judge, Choice(y, q.donor, q.orientation));
    var v, w := Choice(x, p.donor, p.orientation), Choice(y, q.donor, q.orientation);
    NearestUnique(ordered, unused, traversal[i], judge, v, v);
    NearestUnique(ordered, unused, traversal[j], judge, w, w);
    assert i == j;
    NearestUnique(ordered, unused, traversal[i], judge, v, w);
  }

  lemma {:induction false} LeftSame(all: set<Id>, a: seq<Pair>, b: seq<Pair>, k: nat)
    requires k <= |a| && k <= |b| && a[..k] == b[..k]
    ensures Left(all, a, k) == Left(all, b, k)
  {
    if k > 0 {
      assert a[..k - 1] == a[..k][..k - 1] == b[..k][..k - 1] == b[..k - 1];
      assert a[k - 1] == a[..k][k - 1] == b[k - 1];
      LeftSame(all, a, b, k - 1);
      LeftStep(all, a, k - 1);
      LeftStep(all, b, k - 1);
    }
  }

  lemma LeftStep(all: set<Id>, a: seq<Pair>, k: nat)
    requires k < |a|
    ensures Left(all, a, k + 1) == Left(all, a, k) - {a[k].recipient, a[k].donor}
  {
  }

  lemma {:induction false} SamePrefix(ordered: seq<Candidate>, traversal: seq<Candidate>, all: set<Id>, judge: Judge,
      a: seq<Pair>, b: seq<Pair>, k: nat)
    requires Distinct(Ids(ordered)) && k <= |a| && k <= |b|
    requires Served(ordered, traversal, |traversal|, all, judge, a)
    requires Served(ordered, traversal, |traversal|, all, judge, b)
    ensures a[..k] == b[..k]
  {
    hide ServedBefore, AllLonely, Left;
    if k > 0 {
      SamePrefix(ordered, traversal, all, judge, a, b, k - 1);
      LeftSame(all, a, b, k - 1);
      ServesUnique(ordered, traversal, |traversal|, Left(all, a, k - 1), judge, a[k - 1], b[k - 1]);
      assert a[..k] == a[..k - 1] + [a[k - 1]];
    }
  }

  /// The greedy selection is unique.
  lemma GreedyUnique(ordered: seq<Candidate>, traversal: seq<Candidate>, all: set<Id>, limit: nat, judge: Judge,
      a: seq<Pair>, b: seq<Pair>)
    requires Distinct(Ids(ordered))
    requires IsGreedy(ordered, traversal, all, limit, judge, a) && IsGreedy(ordered, traversal, all, limit, judge, b)
    ensures a == b
  {
    hide ServedBefore, AllLonely, Left;
    if |a| <= |b| {
      NoLonger(ordered, traversal, all, limit, judge, a, b);
    } else {
      NoLonger(ordered, traversal, all, limit, judge, b, a);
    }
  }

  lemma NoLonger(ordered: seq<Candidate>, traversal: seq<Candidate>, all: set<Id>, limit: nat, judge: Judge,
      a: seq<Pair>, b: seq<Pair>)
    requires Distinct(Ids(ordered)) && |a| <= |b|
    requires IsGreedy(ordered, traversal, all, limit, judge, a) && IsGreedy(ordered, traversal, all, limit, judge, b)
    ensures a == b
  {
    hide ServedBefore, AllLonely, Left;
    SamePrefix(ordered, traversal, all, judge, a, b, |a|);
    LeftSame(all, a, b, |a|);
    assert a[..|a|] == a && b[..|b|] == b;
    if |a| < |b| {
      ServesUnique(ordered, traversal, |traversal|, Left(all, b, |a|), judge, b[|a|], b[|a|]);
    }
  }

  /// The order in which the candidates are given does not matter.
  lemma OrderIrrelevant(a: seq<Candidate>, b: seq<Candidate>, seed: nat, limit: nat, judge: Judge, digest: Digest,
      forA: seq<Pair>, forB: seq<Pair>)
    requires multiset(a) == multiset(b) && Distinct(Ids(a))
    requires Selects(a, seed, limit, judge, digest, forA) && Selects(b, seed, limit, judge, digest, forB)
    ensures forA == forB
  {
    hide IsGreedy, SortBy;
    SameIds(a, b);
    RanksOfIds(a, digest, seed);
    RanksOfIds(b, digest, seed);
    SortByPermutes(a, b, ById());
    SortByPermutes(a, b, BySeed(digest, seed));
    TraversalOfOrdered(a, digest, seed);
    SameIds(Ordered(a), a);
    GreedyUnique(Ordered(a), Traversal(a, digest, seed), IdSet(a), limit, judge, forA, forB);
  }

  // ---------------------------------------------------------------- what it guarantees

  // No state is used twice, in either role.
  predicate VertexDisjoint(pairs: seq<Pair>) {
    && (forall k :: 0 <= k < |pairs| ==> pairs[k].recipient != pairs[k].donor)
    && forall j, k :: 0 <= j < k < |pairs| ==>
         {pairs[j].recipient, pairs[j].donor} !! {pairs[k].recipient, pairs[k].donor}
  }

  // `p` joins two different states of `c` that are eligible.
  ghost predicate JoinsEligible(c: seq<Candidate>, judge: Judge, p: Pair) {
    exists r, d :: r in c && d in c && r.id == p.recipient && d.id == p.donor && r.id != d.id
      && judge(r, d).Eligible? && judge(r, d).orientation == p.orientation
  }

  // No two states outside `pairs` are eligible.
  predicate NoneLeft(c: seq<Candidate>, judge: Judge, pairs: seq<Pair>) {
    var used := Spent(pairs, |pairs|);
    forall r, d :: r in c && d in c && r.id != d.id && r.id !in used && d.id !in used ==> !judge(r, d).Eligible?
  }

  lemma ServedMeans(ordered: seq<Candidate>, traversal: seq<Candidate>, n: nat, unused: set<Id>, judge: Judge, p: Pair)
    requires n <= |traversal| && ServedBefore(ordered, traversal, n, unused, judge, p)
    requires forall t :: t in traversal ==> t in ordered
    ensures p.recipient in unused && p.donor in unused && p.recipient != p.donor
    ensures JoinsEligible(ordered, judge, p)
  {
    hide Lonely;
    var i :| 0 <= i < n && Serves(ordered, traversal, i, unused, judge, p);
    var x: real :| Nearest(ordered, unused, traversal[i], judge, Choice(x, p.donor, p.orientation));
    var d :| d in ordered && Suits(unused, traversal[i], d, judge)
        && Choice(x, p.donor, p.orientation) == Offer(traversal[i], d, judge);
    assert traversal[i] in ordered;
  }

  lemma {:induction false} SpentHolds(pairs: seq<Pair>, k: nat, j: nat)
    requires j < k <= |pairs|
    ensures pairs[j].recipient in Spent(pairs, k) && pairs[j].donor in Spent(pairs, k)
  {
    if j < k - 1 {
      SpentHolds(pairs, k - 1, j);
    }
  }

  /// The pairs are vertex-disjoint and eligible, there are at most `limit`, and when there
  /// are fewer no two leftover states are eligible.
  lemma SelectionSound(c: seq<Candidate>, seed: nat, limit: nat, judge: Judge, digest: Digest, pairs: seq<Pair>)
    requires Distinct(Ids(c)) && Selects(c, seed, limit, judge, digest, pairs)
    ensures |pairs| <= limit && VertexDisjoint(pairs)
    ensures forall k :: 0 <= k < |pairs| ==> JoinsEligible(c, judge, pairs[k])
    ensures |pairs| < limit ==> NoneLeft(c, judge, pairs)
  {
    hide SortBy, ServedBefore, Spent;
    var ordered, traversal := Ordered(c), Traversal(c, digest, seed);
    SortedMembers(c, digest, seed);
    forall k | 0 <= k < |pairs|
      ensures JoinsEligible(c, judge, pairs[k]) && pairs[k].recipient != pairs[k].donor
      ensures forall j :: 0 <= j < k ==> {pairs[j].recipient, pairs[j].donor} !! {pairs[k].recipient, pairs[k].donor}
    {
      ServedMeans(ordered, traversal, |traversal|, Left(IdSet(c), pairs, k), judge, pairs[k]);
      forall j | 0 <= j < k
        ensures {pairs[j].recipient, pairs[j].donor} !! {pairs[k].recipient, pairs[k].donor}
      {
        SpentHolds(pairs, k, j);
      }
    }
    if |pairs| < limit {
      forall r, d | r in c && d in c && r.id != d.id
          && r.id !in Spent(pairs, |pairs|) && d.id !in Spent(pairs, |pairs|)
        ensures !judge(r, d).Eligible?
      {
        LeftoverLonely(c, ordered, traversal, Left(IdSet(c), pairs, |pairs|), judge, r, d);
      }
    }
  }

  lemma LeftoverLonely(c: seq<Candidate>, ordered: seq<Candidate>, traversal: seq<Candidate>, unused: set<Id>,
      judge: Judge, r: Candidate, d: Candidate)
    requires AllLonely(ordered, traversal, |traversal|, unused, judge)
    requires r in traversal && d in ordered && r.id in unused && d.id in unused && r.id != d.id
    ensures !judge(r, d).Eligible?
  {
    var j :| 0 <= j < |traversal| && traversal[j] == r;
    assert !Suits(unused, r, d, judge);
  }

  lemma SameMultisetMembers(a: seq<Candidate>, b: seq<Candidate>)
    requires multiset(a) == multiset(b)
    ensures forall x :: x in a <==> x in b
  {
    forall x
      ensures x in a <==> x in b
    {
      assert x in a <==> x in multiset(a);
      assert x in b <==> x in multiset(b);
    }
  }

  lemma IdMember(c: seq<Candidate>, i: Id)
    ensures i in IdSet(c) <==> exists x :: x in c && x.id == i
  {
    if i in IdSet(c) {
      var k :| 0 <= k < |c| && Ids(c)[k] == i;
      assert c[k] in c;
    }
    if x :| x in c && x.id == i {
      var k :| 0 <= k < |c| && c[k] == x;
      assert Ids(c)[k] == i;
    }
  }

  lemma SortedMembers(c: seq<Candidate>, digest: Digest, seed: nat)
    requires Distinct(Ids(c))
    ensures forall x :: x in c <==> x in Ordered(c)
    ensures forall x :: x in c <==> x in Traversal(c, digest, seed)
    ensures forall i :: i in IdSet(c) <==> exists x :: x in c && x.id == i
  {
    hide SortBy, IdSet;
    RanksOfIds(c, digest, seed);
    SortByOk(c, ById());
    SortByOk(c, BySeed(digest, seed));
    SameMultisetMembers(c, Ordered(c));
    SameMultisetMembers(c, Traversal(c, digest, seed));
    forall i
      ensures i in IdSet(c) <==> exists x :: x in c && x.id == i
    {
      IdMember(c, i);
    }
  }

  // ---------------------------------------------------------------- greedy, state by state

  // `a` comes before `b` in the line of this seed.
  predicate InLine(digest: Digest, seed: nat, a: Id, b: Id) {
    digest(seed, a) < digest(seed, b) || (digest(seed, a) == digest(seed, b) && a < b)
  }

  // In none of the first `k` pairs.
  predicate Idle(pairs: seq<Pair>, k: nat, id: Id)
    requires k <= |pairs|
  {
    forall j :: 0 <= j < k ==> pairs[j].recipient != id && pairs[j].donor != id
  }

  // Some idle state is eligible for the idle state `r`.
  ghost predicate Servable(c: seq<Candidate>, judge: Judge, pairs: seq<Pair>, k: nat, r: Candidate)
    requires k <= |pairs|
  {
    Idle(pairs, k, r.id) && exists d :: d in c && d.id != r.id && Idle(pairs, k, d.id) && judge(r, d).Eligible?
  }

  // Pair `k` joins two idle states, the recipient is the first in line that can be served,
  // and no idle donor is nearer to it, or as near with a smaller identity.
  ghost predicate Explained(c: seq<Candidate>, seed: nat, judge: Judge, digest: Digest, pairs: seq<Pair>, k: nat)
    requires k < |pairs|
  {
    exists r, d :: r in c && d in c && r.id == pairs[k].recipient && d.id == pairs[k].donor
      && IsNext(c, seed, judge, digest, pairs, k, r, d)
  }

  ghost predicate IsNext(c: seq<Candidate>, seed: nat, judge: Judge, digest: Digest, pairs: seq<Pair>, k: nat,
      r: Candidate, d: Candidate)
    requires k < |pairs|
  {
    && r.id != d.id && Idle(pairs, k, r.id) && Idle(pairs, k, d.id)
    && judge(r, d).Eligible? && judge(r, d).orientation == pairs[k].orientation
    && (forall e :: e in c && e.id != r.id && Idle(pairs, k, e.id) && judge(r, e).Eligible? ==>
          || judge(r, d).distance < judge(r, e).distance
          || (judge(r, d).distance == judge(r, e).distance && d.id <= e.id))
    && forall t :: t in c && InLine(digest, seed, t.id, r.id) ==> !Servable(c, judge, pairs, k, t)
  }

  lemma {:induction false} SpentExactly(pairs: seq<Pair>, k: nat, id: Id)
    requires k <= |pairs|
    ensures id in Spent(pairs, k) <==> !Idle(pairs, k, id)
  {
    if k > 0 {
      SpentExactly(pairs, k - 1, id);
    }
  }

  lemma LeftExactly(c: seq<Candidate>, pairs: seq<Pair>, k: nat, x: Candidate)
    requires k <= |pairs| && x in c
    ensures x.id in Left(IdSet(c), pairs, k) <==> Idle(pairs, k, x.id)
  {
    SpentExactly(pairs, k, x.id);
    IdMember(c, x.id);
  }

  lemma LonelyUnservable(c: seq<Candidate>, ordered: seq<Candidate>, judge: Judge, pairs: seq<Pair>, k: nat,
      t: Candidate)
    requires k <= |pairs| && t in c && forall x :: x in c <==> x in ordered
    requires t.id in Left(IdSet(c), pairs, k) ==> Lonely(ordered, Left(IdSet(c), pairs, k), t, judge)
    ensures !Servable(c, judge, pairs, k, t)
  {
    hide Left, IdSet, Idle;
    LeftExactly(c, pairs, k, t);
    forall d | d in c && d.id != t.id && Idle(pairs, k, t.id) && Idle(pairs, k, d.id)
      ensures !judge(t, d).Eligible?
    {
      LeftExactly(c, pairs, k, d);
      assert !Suits(Left(IdSet(c), pairs, k), t, d, judge);
    }
  }

  // Where someone stands who comes before the `i`-th in line.
  lemma StandsBefore(traversal: seq<Candidate>, digest: Digest, seed: nat, t: Candidate, i: nat)
    requires i < |traversal| && Sorting.Rising(traversal, BySeed(digest, seed)) && t in traversal
    requires InLine(digest, seed, t.id, traversal[i].id)
    ensures exists j :: 0 <= j < i && traversal[j] == t
  {
    forall m | i < m < |traversal|
      ensures !InLine(digest, seed, traversal[m].id, traversal[i].id)
    {
      assert Before(BySeed(digest, seed)(traversal[i]), BySeed(digest, seed)(traversal[m]));
    }
    var j :| 0 <= j < |traversal| && traversal[j] == t;
  }

  /// What a greedy selection is, said of the states and pairs alone.
  lemma GreedyExplained(c: seq<Candidate>, seed: nat, limit: nat, judge: Judge, digest: Digest, pairs: seq<Pair>)
    requires Distinct(Ids(c)) && Selects(c, seed, limit, judge, digest, pairs)
    ensures |pairs| <= limit
    ensures forall k :: 0 <= k < |pairs| ==> Explained(c, seed, judge, digest, pairs, k)
    ensures |pairs| < limit ==> forall t :: t in c ==> !Servable(c, judge, pairs, |pairs|, t)
  {
    hide SortBy, ServedBefore, Left, Lonely, Servable, Explained;
    var ordered, traversal := Ordered(c), Traversal(c, digest, seed);
    SortedMembers(c, digest, seed);
    forall k | 0 <= k < |pairs|
      ensures Explained(c, seed, judge, digest, pairs, k)
    {
      OneExplained(c, seed, judge, digest, pairs, k);
    }
    if |pairs| < limit {
      forall t | t in c
        ensures !Servable(c, judge, pairs, |pairs|, t)
      {
        var j :| 0 <= j < |traversal| && traversal[j] == t;
        LonelyUnservable(c, ordered, judge, pairs, |pairs|, t);
      }
    }
  }

  lemma OneExplained(c: seq<Candidate>, seed: nat, judge: Judge, digest: Digest, pairs: seq<Pair>, k: nat)
    requires Distinct(Ids(c)) && k < |pairs|
    requires var line := Traversal(c, digest, seed);
             ServedBefore(Ordered(c), line, |line|, Left(IdSet(c), pairs, k), judge, pairs[k])
    ensures Explained(c, seed, judge, digest, pairs, k)
  {
    hide SortBy, Left, Idle, Lonely, Servable, IdSet;
    var ordered, traversal, free := Ordered(c), Traversal(c, digest, seed), Left(IdSet(c), pairs, k);
    SortedMembers(c, digest, seed);
    RanksOfIds(c, digest, seed);
    SortByOk(c, BySeed(digest, seed));
    var i :| 0 <= i < |traversal| && Serves(ordered, traversal, i, free, judge, pairs[k]);
    var r := traversal[i];
    var x: real :| Nearest(ordered, free, r, judge, Choice(x, pairs[k].donor, pairs[k].orientation));
    var choice := Choice(x, pairs[k].donor, pairs[k].orientation);
    var d :| d in ordered && Suits(free, r, d, judge) && choice == Offer(r, d, judge);
    LeftExactly(c, pairs, k, r);
    LeftExactly(c, pairs, k, d);
    forall e | e in c && e.id != r.id && Idle(pairs, k, e.id) && judge(r, e).Eligible?
      ensures NoBetter(judge(r, e).distance, e.id, choice)
    {
      LeftExactly(c, pairs, k, e);
      assert Suits(free, r, e, judge);
    }
    forall t | t in c && InLine(digest, seed, t.id, r.id)
      ensures !Servable(c, judge, pairs, k, t)
    {
      StandsBefore(traversal, digest, seed, t, i);
      LonelyUnservable(c, ordered, judge, pairs, k, t);
    }
    assert IsNext(c, seed, judge, digest, pairs, k, r, d);
  }

  // ---------------------------------------------------------------- the materialised form

  type Edges = map<(Id, Id), Verdict>

  function EdgeKey(a: Id, b: Id): (Id, Id) {
    if a <= b then (a, b) else (b, a)
  }

  // `eligibility[tuple(sorted((recipient, donor)))]`
  function Lookup(edges: Edges): Judge {
    (a: Candidate, b: Candidate) =>
      if EdgeKey(a.id, b.id) in edges then edges[EdgeKey(a.id, b.id)] else Excluded([])
  }

  // The edges from the first `n` states to all later ones, the last of them to those before `m`.
  predicate Complete(ordered: seq<Candidate>, judge: Judge, edges: Edges, n: nat, m: nat) {
    forall i, j :: 0 <= i < j < |ordered| && (i < n || (i == n && j < m)) ==>
      var key := (ordered[i].id, ordered[j].id);
      key in edges && edges[key] == judge(ordered[i], ordered[j])
  }

  method Materialise(ordered: seq<Candidate>, judge: Judge) returns (edges: Edges)
    requires Distinct(Ids(ordered))
    ensures Complete(ordered, judge, edges, |ordered|, 0)
  {
    edges := map[];
    for left := 0 to |ordered|
      invariant Complete(ordered, judge, edges, left, 0)
    {
      for right := left + 1 to |ordered|
        invariant Complete(ordered, judge, edges, left, right)
      {
        forall i, j | 0 <= i < j < |ordered| && (ordered[i].id, ordered[j].id) == (ordered[left].id, ordered[right].id)
          ensures i == left && j == right
        {
          assert Ids(ordered)[i] == Ids(ordered)[left] && Ids(ordered)[j] == Ids(ordered)[right];
        }
        edges := edges[(ordered[left].id, ordered[right].id) := judge(ordered[left], ordered[right])];
      }
    }
  }

  ghost predicate Symmetric(c: seq<Candidate>, judge: Judge) {
    forall a, b :: a in c && b in c ==> judge(a, b) == judge(b, a)
  }

  lemma LookupAgrees(c: seq<Candidate>, ordered: seq<Candidate>, judge: Judge, edges: Edges, a: Candidate, b: Candidate)
    requires Sorting.Rising(ordered, ById()) && Complete(ordered, judge, edges, |ordered|, 0)
    requires (forall x :: x in ordered ==> x in c) && Symmetric(c, judge)
    requires a in ordered && b in ordered && a.id != b.id
    ensures Lookup(edges)(a, b) == judge(a, b)
  {
    var i :| 0 <= i < |ordered| && ordered[i] == a;
    var j :| 0 <= j < |ordered| && ordered[j] == b;
    assert judge(a, b) == judge(b, a);
    if i < j {
      assert Before(ById()(ordered[i]), ById()(ordered[j]));
      assert (ordered[i].id, ordered[j].id) in edges;
    } else {
      assert j < i;
      assert Before(ById()(ordered[j]), ById()(ordered[i]));
      assert (ordered[j].id, ordered[i].id) in edges;
    }
  }

  // Two judges that agree on the states at hand.
  ghost predicate Agree(ordered: seq<Candidate>, f: Judge, g: Judge) {
    forall a, b :: a in ordered && b in ordered && a.id != b.id ==> f(a, b) == g(a, b)
  }

  lemma LonelyAgrees(ordered: seq<Candidate>, unused: set<Id>, r: Candidate, f: Judge, g: Judge)
    requires Agree(ordered, f, g) && r in ordered
    ensures Lonely(ordered, unused, r, f) <==> Lonely(ordered, unused, r, g)
  {
    forall e | e in ordered
      ensures Suits(unused, r, e, f) <==> Suits(unused, r, e, g)
    {
      if e.id != r.id { assert f(r, e) == g(r, e); }
    }
  }

  lemma NearestAgrees(ordered: seq<Candidate>, unused: set<Id>, r: Candidate, f: Judge, g: Judge, c: Choice)
    requires Agree(ordered, f, g) && r in ordered && Nearest(ordered, unused, r, f, c)
    ensures Nearest(ordered, unused, r, g, c)
  {
    forall e | e in ordered && e.id != r.id
      ensures f(r, e) == g(r, e)
    {
    }
    var d :| d in ordered && Suits(unused, r, d, f) && c == Offer(r, d, f);
    assert Suits(unused, r, d, g) && c == Offer(r, d, g);
    forall e | e in ordered && Suits(unused, r, e, g)
      ensures NoBetter(g(r, e).distance, e.id, c)
    {
      assert Suits(unused, r, e, f);
    }
  }

  lemma ServedAgrees(ordered: seq<Candidate>, traversal: seq<Candidate>, unused: set<Id>, f: Judge, g: Judge, p: Pair)
    requires Agree(ordered, f, g) && forall t :: t in traversal ==> t in ordered
    requires ServedBefore(ordered, traversal, |traversal|, unused, f, p)
    ensures ServedBefore(ordered, traversal, |traversal|, unused, g, p)
  {
    hide Nearest, Lonely, Agree;
    var i :| 0 <= i < |traversal| && Serves(ordered, traversal, i, unused, f, p);
    var x: real :| Nearest(ordered, unused, traversal[i], f, Choice(x, p.donor, p.orientation));
    NearestAgrees(ordered, unused, traversal[i], f, g, Choice(x, p.donor, p.orientation));
    forall j | 0 <= j < i && traversal[j].id in unused
      ensures Lonely(ordered, unused, traversal[j], g)
    {
      LonelyAgrees(ordered, unused, traversal[j], f, g);
    }
    assert Serves(ordered, traversal, i, unused, g, p);
  }

  lemma GreedyAgrees(ordered: seq<Candidate>, traversal: seq<Candidate>, all: set<Id>, limit: nat, f: Judge, g: Judge,
      pairs: seq<Pair>)
    requires Agree(ordered, f, g) && forall t :: t in traversal ==> t in ordered
    requires IsGreedy(ordered, traversal, all, limit, f, pairs)
    ensures IsGreedy(ordered, traversal, all, limit, g, pairs)
  {
    hide ServedBefore, Lonely, Left, Agree;
    forall k | 0 <= k < |pairs|
      ensures ServedBefore(ordered, traversal, |traversal|, Left(all, pairs, k), g, pairs[k])
    {
      ServedAgrees(ordered, traversal, Left(all, pairs, k), f, g, pairs[k]);
    }
    var unused := Left(all, pairs, |pairs|);
    forall j | 0 <= j < |traversal|
      ensures Lonely(ordered, unused, traversal[j], f) <==> Lonely(ordered, unused, traversal[j], g)
    {
      LonelyAgrees(ordered, unused, traversal[j], f, g);
    }
  }

  /// The reference selection: every edge is judged first, once, smaller identity first.
  method SelectPairs(c: seq<Candidate>, seed: nat, limit: nat, judge: Judge, digest: Digest)
    returns (r: Result<seq<Pair>, PairError>)
    requires Symmetric(c, judge)
    ensures r.Ok? <==> 1 <= limit <= PAIR_LIMIT && Distinct(Ids(c))
    ensures r.Ok? ==> Selects(c, seed, limit, judge, digest, r.value)
  {
    hide IsGreedy, SortBy, Complete;
    if limit < 1 || limit > PAIR_LIMIT {
      return Err(BadLimit);
    }
    DistinctExactly(Ids(c));
    if |IdSet(c)| != |c| {
      return Err(DuplicateCandidate);
    }
    var ordered, traversal := Ordered(c), Traversal(Ordered(c), digest, seed);
    TraversalOfOrdered(c, digest, seed);
    SortedMembers(c, digest, seed);
    SameIds(ordered, c);
    RanksOfIds(c, digest, seed);
    SortByOk(c, ById());
    var edges := Materialise(ordered, judge);
    var selected := Pairs(ordered, traversal, IdSet(c), limit, Lookup(edges));
    forall a, b | a in ordered && b in ordered && a.id != b.id
      ensures Lookup(edges)(a, b) == judge(a, b)
    {
      LookupAgrees(c, ordered, judge, edges, a, b);
    }
    GreedyAgrees(ordered, traversal, IdSet(c), limit, Lookup(edges), judge, selected);
    return Ok(selected);
  }

  /// Judging pairs as they are met selects exactly what the materialised form selects.
  lemma FastIsReference(c: seq<Candidate>, seed: nat, judge: Judge, digest: Digest, fast: seq<Pair>,
      reference: seq<Pair>)
    requires Distinct(Ids(c))
    requires Selects(c, seed, PAIR_LIMIT, judge, digest, fast) && Selects(c, seed, PAIR_LIMIT, judge, digest, reference)
    ensures fast == reference
  {
    OrderIrrelevant(c, c, seed, PAIR_LIMIT, judge, digest, fast, reference);
  }

  // ---------------------------------------------------------------- the frozen rule

  function Rule(norm: Norm, mode: Mode): Judge {
    (a: Candidate, b: Candidate) => if WellFormed(a) then Judged(norm, mode, a, b) else Excluded([])
  }

  lemma RuleSymmetric(c: seq<Candidate>, norm: Norm, mode: Mode)
    requires IsDistance(norm) && forall x :: x in c ==> WellFormed(x)
    ensures Symmetric(c, Rule(norm, mode))
  {
    hide Judged;
    forall a, b | a in c && b in c
      ensures Rule(norm, mode)(a, b) == Rule(norm, mode)(b, a)
    {
      JudgedSymmetric(norm, mode, a, b);
    }
  }
}
