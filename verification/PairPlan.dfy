/// The sixty attempt slots of the causal experiment
/// (ops/locked_test_causal.py: _matched_donors, build_pair_plan; the consumer's index
/// check is in ops/locked_test_evaluate.py, _validate_causal_receipt).
///
/// `confirm` and `control` judge two states in the two modes; `spec` joins splitting a
/// candidate identity with looking its episode up, either of which may fail.

module PairPlan {
  import opened Wrappers
  import opened Sequences
  import opened Sorting
  import opened PairEligibility
  import opened PairSelection

  const SEEDS: seq<nat> := [260803, 260804, 260805]

  datatype Spec = Spec(condition: int, base: int)

  datatype Planned = Planned(
    index: nat, seed: nat, spec: Spec, recipient: Id, donor: Option<Id>, orientation: Option<real>,
    matched: Option<Matched>, invalid: bool)

  // A matched-control donor and its orientation difference.
  datatype Matched = Matched(donor: Id, orientation: real)

  datatype PlanError = Duplicates | TooFewCandidates | UnknownEpisode

  datatype Slot = Paired(seed: nat, pair: Pair) | Filler(seed: nat, recipient: Id)

  // The twenty attempts of one seed.
  datatype Block = Block(pairs: seq<Pair>, fillers: seq<Id>)

  // ---------------------------------------------------------------- one seed

  // The identities of the first `n` in line that are not in `used`.
  function Unused(traversal: seq<Candidate>, used: set<Id>, n: nat): seq<Id>
    requires n <= |traversal|
  {
    if n == 0 then []
    else Unused(traversal, used, n - 1) + (if traversal[n - 1].id in used then [] else [traversal[n - 1].id])
  }

  lemma {:induction false} UnusedMembers(traversal: seq<Candidate>, used: set<Id>, n: nat)
    requires n <= |traversal|
    ensures forall x ::
              x in Unused(traversal, used, n) <==> x !in used && exists k :: 0 <= k < n && traversal[k].id == x
  {
    if n > 0 {
      UnusedMembers(traversal, used, n - 1);
      var shorter, last := Unused(traversal, used, n - 1), traversal[n - 1].id;
      forall x
        ensures x in Unused(traversal, used, n) <==> x in shorter || (x == last && last !in used)
      {
      }
    }
  }

  lemma {:induction false} UnusedOk(traversal: seq<Candidate>, used: set<Id>, n: nat)
    requires n <= |traversal| && Distinct(Ids(traversal))
    ensures Distinct(Unused(traversal, used, n))
    ensures forall x ::
              x in Unused(traversal, used, n) <==> x !in used && exists k :: 0 <= k < n && traversal[k].id == x
  {
    UnusedMembers(traversal, used, n);
    if n > 0 {
      UnusedOk(traversal, used, n - 1);
      forall k | 0 <= k < n - 1
        ensures traversal[k].id != traversal[n - 1].id
      {
        assert Ids(traversal)[k] != Ids(traversal)[n - 1];
      }
      assert traversal[n - 1].id !in Unused(traversal, used, n - 1);
    }
  }

  lemma {:induction false} SpentSize(c: seq<Candidate>, pairs: seq<Pair>, k: nat, judge: Judge)
    requires k <= |pairs| && VertexDisjoint(pairs)
    requires forall i :: 0 <= i < |pairs| ==> JoinsEligible(c, judge, pairs[i])
    ensures |Spent(pairs, k)| == 2 * k && Spent(pairs, k) <= IdSet(c)
    ensures forall i :: k <= i < |pairs| ==> Spent(pairs, k) !! {pairs[i].recipient, pairs[i].donor}
  {
    if k > 0 {
      SpentSize(c, pairs, k - 1, judge);
      var p := pairs[k - 1];
      assert |{p.recipient, p.donor}| == 2;
      assert JoinsEligible(c, judge, p);
      JoinsKnown(c, judge, p);
    }
  }

  lemma JoinsKnown(c: seq<Candidate>, judge: Judge, p: Pair)
    requires JoinsEligible(c, judge, p)
    ensures p.recipient in IdSet(c) && p.donor in IdSet(c)
  {
    var r, d :| r in c && d in c && r.id == p.recipient && d.id == p.donor && r.id != d.id
      && judge(r, d).Eligible? && judge(r, d).orientation == p.orientation;
    var i :| 0 <= i < |c| && c[i] == r;
    var j :| 0 <= j < |c| && c[j] == d;
    assert Ids(c)[i] == p.recipient && Ids(c)[j] == p.donor;
  }

  lemma SetSize(s: seq<Id>, t: set<Id>)
    requires Distinct(s) && forall x :: x in s <==> x in t
    ensures |s| == |t|
  {
    DistinctExactly(s);
    assert Elements(s) == t;
  }

  // How many states are left for fillers.
  lemma FillersLeft(c: seq<Candidate>, seed: nat, judge: Judge, digest: Digest, pairs: seq<Pair>)
    requires Distinct(Ids(c)) && Selects(c, seed, PAIR_LIMIT, judge, digest, pairs)
    ensures var line := Traversal(c, digest, seed);
            |Unused(line, Spent(pairs, |pairs|), |line|)| == |c| - 2 * |pairs|
    ensures Distinct(Ids(Traversal(c, digest, seed)))
  {
    hide SortBy, Spent, Unused, IsGreedy, VertexDisjoint;
    var line, used := Traversal(c, digest, seed), Spent(pairs, |pairs|);
    SelectionSound(c, seed, PAIR_LIMIT, judge, digest, pairs);
    SpentSize(c, pairs, |pairs|, judge);
    SortedMembers(c, digest, seed);
    RanksOfIds(c, digest, seed);
    SortByOk(c, BySeed(digest, seed));
    SameIds(line, c);
    UnusedOk(line, used, |line|);
    var left := Unused(line, used, |line|);
    forall x
      ensures x in left <==> x in IdSet(c) - used
    {
      if x in IdSet(c) - used {
        var k :| 0 <= k < |line| && Ids(line)[k] == x;
        assert line[k].id == x;
      }
      if x in left {
        var k :| 0 <= k < |line| && line[k].id == x;
        assert Ids(line)[k] == x;
        assert x in IdSet(line);
      }
    }
    SetSize(left, IdSet(c) - used);
    DistinctExactly(Ids(c));
    assert |IdSet(c) - used| == |IdSet(c)| - |used|;
  }

  // The slots of one seed: its greedy pairs, then fillers in traversal order.
  ghost predicate IsBlock(c: seq<Candidate>, seed: nat, judge: Judge, digest: Digest, b: Block) {
    var line := Traversal(c, digest, seed);
    var left := Unused(line, Spent(b.pairs, |b.pairs|), |line|);
    && Selects(c, seed, PAIR_LIMIT, judge, digest, b.pairs)
    && |b.pairs| + |b.fillers| == PAIR_LIMIT
    && b.fillers <= left
  }

  // Seed `seed` selects so many pairs that too few states are left.
  ghost predicate Starved(c: seq<Candidate>, seed: nat, judge: Judge, digest: Digest) {
    exists pairs :: Selects(c, seed, PAIR_LIMIT, judge, digest, pairs) && |c| < PAIR_LIMIT + |pairs|
  }

  method SeedBlock(c: seq<Candidate>, seed: nat, judge: Judge, digest: Digest) returns (r: Result<Block, PlanError>)
    ensures r.Ok? <==> Distinct(Ids(c)) && !Starved(c, seed, judge, digest)
    ensures r.Ok? ==> IsBlock(c, seed, judge, digest, r.value)
    ensures r.Err? ==> r.error == if Distinct(Ids(c)) then TooFewCandidates else Duplicates
  {
    hide Selects, SortBy;
    var selection := FastPairs(c, seed, judge, digest);
    if selection.Err? {
      return Err(Duplicates);
    }
    var pairs := selection.value;
    var missing := PAIR_LIMIT - |pairs| as int;
    SelectsAtMost(c, seed, judge, digest, pairs);
    var used, line := Spent(pairs, |pairs|), Traversal(c, digest, seed);
    var fillers := [];
    var i := 0;
    while i < |line|
      invariant 0 <= i <= |line| && fillers == Unused(line, used, i)
    {
      if line[i].id !in used {
        fillers := fillers + [line[i].id];
      }
      i := i + 1;
    }
    FillersLeft(c, seed, judge, digest, pairs);
    forall other | Selects(c, seed, PAIR_LIMIT, judge, digest, other)
      ensures other == pairs
    {
      OrderIrrelevant(c, c, seed, PAIR_LIMIT, judge, digest, other, pairs);
    }
    if |fillers| < missing {
      assert Starved(c, seed, judge, digest);
      return Err(TooFewCandidates);
    }
    return Ok(Block(pairs, fillers[..missing]));
  }

  lemma SelectsAtMost(c: seq<Candidate>, seed: nat, judge: Judge, digest: Digest, pairs: seq<Pair>)
    requires Selects(c, seed, PAIR_LIMIT, judge, digest, pairs)
    ensures |pairs| <= PAIR_LIMIT
  {
    hide SortBy;
  }

  // ---------------------------------------------------------------- matched controls

  // One confirmatory pair.
  datatype Row = Row(seed: nat, pair: Pair)

  type Key = (nat, Id)

  function KeyOf(row: Row): Key {
    (row.seed, row.pair.recipient)
  }

  function Keys(rows: seq<Row>): (r: seq<Key>)
    ensures |r| == |rows| && forall i :: 0 <= i < |rows| ==> r[i] == KeyOf(rows[i])
  {
    seq(|rows|, i requires 0 <= i < |rows| => KeyOf(rows[i]))
  }

  function StateOf(c: seq<Candidate>, id: Id): (r: Candidate)
    requires exists i :: 0 <= i < |c| && c[i].id == id
    ensures r in c && r.id == id
  {
    if c[|c| - 1].id == id then c[|c| - 1] else StateOf(c[..|c| - 1], id)
  }

  // Every confirmatory recipient of a seed is kept out of its controls.
  function Reserved(rows: seq<Row>, seed: nat): set<Id> {
    set row | row in rows && row.seed == seed :: row.pair.recipient
  }

  type Controls = map<Key, Option<Matched>>

  function ControlFor(controls: Controls, key: Key): Option<Matched> {
    if key in controls then controls[key] else None
  }

  // The donors given to the first `n` rows of a seed.
  function Taken(rows: seq<Row>, controls: Controls, n: nat, seed: nat): set<Id>
    requires n <= |rows|
  {
    if n == 0 then {}
    else
      var key := KeyOf(rows[n - 1]);
      Taken(rows, controls, n - 1, seed)
      + (if rows[n - 1].seed == seed && ControlFor(controls, key).Some?
         then {ControlFor(controls, key).value.donor} else {})
  }

  function Available(rows: seq<Row>, all: set<Id>, controls: Controls, i: nat): set<Id>
    requires i < |rows|
  {
    all - Taken(rows, controls, i, rows[i].seed) - Reserved(rows, rows[i].seed)
  }

  // The `i`-th row got the nearest donor still available to it, or none if there is none.
  ghost predicate Assigned(c: seq<Candidate>, rows: seq<Row>, control: Judge, controls: Controls, i: nat)
    requires i < |rows|
  {
    var free, key := Available(rows, IdSet(c), controls, i), KeyOf(rows[i]);
    && key in controls
    && exists recipient :: recipient in c && recipient.id == rows[i].pair.recipient
         && match controls[key]
            case None => Lonely(Ordered(c), free, recipient, control)
            case Some(m) => exists x: real ::
              Nearest(Ordered(c), free, recipient, control, Choice(x, m.donor, m.orientation))
  }

  ghost predicate ControlsOk(c: seq<Candidate>, rows: seq<Row>, control: Judge, controls: Controls, n: nat)
    requires n <= |rows|
  {
    && (forall i :: 0 <= i < n ==> Assigned(c, rows, control, controls, i))
    && forall key :: key in controls ==> exists i :: 0 <= i < n && KeyOf(rows[i]) == key
  }

  lemma {:induction false} TakenFrame(rows: seq<Row>, controls: Controls, key: Key, v: Option<Matched>, n: nat,
      seed: nat)
    requires n <= |rows| && forall i :: 0 <= i < n ==> KeyOf(rows[i]) != key
    ensures Taken(rows, controls[key := v], n, seed) == Taken(rows, controls, n, seed)
  {
    if n > 0 {
      TakenFrame(rows, controls, key, v, n - 1, seed);
    }
  }

  lemma AssignedFrame(c: seq<Candidate>, rows: seq<Row>, control: Judge, controls: Controls, key: Key,
      v: Option<Matched>,
      i: nat)
    requires i < |rows| && Assigned(c, rows, control, controls, i)
    requires forall j :: 0 <= j <= i ==> KeyOf(rows[j]) != key
    ensures Assigned(c, rows, control, controls[key := v], i)
  {
    hide Nearest, Lonely, Ordered;
    TakenFrame(rows, controls, key, v, i, rows[i].seed);
  }

  lemma RowAssigned(c: seq<Candidate>, rows: seq<Row>, control: Judge, controls: Controls, i: nat,
      recipient: Candidate, best: Option<Choice>)
    requires i < |rows| && Distinct(Keys(rows)) && ControlsOk(c, rows, control, controls, i)
    requires recipient in c && recipient.id == rows[i].pair.recipient
    requires var free := Available(rows, IdSet(c), controls, i);
             && (best.None? ==> Lonely(Ordered(c), free, recipient, control))
             && (best.Some? ==> Nearest(Ordered(c), free, recipient, control, best.value))
    ensures ControlsOk(c, rows, control, controls[KeyOf(rows[i]) := Given(best)], i + 1)
  {
    hide Nearest, Lonely, Ordered, Reserved;
    var key, more := KeyOf(rows[i]), controls[KeyOf(rows[i]) := Given(best)];
    forall j | 0 <= j < i
      ensures KeyOf(rows[j]) != key
    {
      assert Keys(rows)[j] != Keys(rows)[i];
    }
    TakenFrame(rows, controls, key, Given(best), i, rows[i].seed);
    if best.Some? {
      assert best.value == Choice(best.value.distance, Given(best).value.donor, Given(best).value.orientation);
    }
    assert Assigned(c, rows, control, more, i);
    forall j | 0 <= j < i
      ensures Assigned(c, rows, control, more, j)
    {
      AssignedFrame(c, rows, control, controls, key, Given(best), j);
    }
  }

  function Given(best: Option<Choice>): Option<Matched> {
    match best
    case None => None
    case Some(choice) => Some(Matched(choice.donor, choice.orientation))
  }

  /// The nearest control donor for each confirmatory recipient, first come first served.
  method MatchedDonors(rows: seq<Row>, c: seq<Candidate>, control: Judge) returns (controls: Controls)
    requires Distinct(Keys(rows)) && forall row :: row in rows ==> row.pair.recipient in IdSet(c)
    ensures ControlsOk(c, rows, control, controls, |rows|)
    ensures forall i :: 0 <= i < |rows| ==> ControlDue(c, rows, control, controls, i)
  {
    hide SortBy, Nearest, Lonely, ControlsOk, ControlDue, IdSet, Reserved;
    controls := map[];
    var used: map<nat, set<Id>> := map[];
    NoControls(c, rows, control);
    for i := 0 to |rows|
      invariant ControlsOk(c, rows, control, controls, i)
      invariant forall seed: nat :: (if seed in used then used[seed] else {}) == Taken(rows, controls, i, seed)
    {
      var row := rows[i];
      var mine := if row.seed in used then used[row.seed] else {};
      HasState(c, row.pair.recipient);
      var recipient := StateOf(c, row.pair.recipient);
      var free := IdSet(c) - mine - Reserved(rows, row.seed);
      assert free == Available(rows, IdSet(c), controls, i);
      var best := NearestDonor(Ordered(c), free, recipient, control);
      RowAssigned(c, rows, control, controls, i, recipient, best);
      RowTaken(rows, controls, i, best);
      if best.Some? {
        used := used[row.seed := mine + {best.value.donor}];
      }
      controls := controls[KeyOf(row) := Given(best)];
    }
    AllDue(c, rows, control, controls);
  }

  lemma AllDue(c: seq<Candidate>, rows: seq<Row>, control: Judge, controls: Controls)
    requires ControlsOk(c, rows, control, controls, |rows|)
    ensures forall i :: 0 <= i < |rows| ==> ControlDue(c, rows, control, controls, i)
  {
    hide Assigned, ControlDue;
    forall i | 0 <= i < |rows|
      ensures ControlDue(c, rows, control, controls, i)
    {
      ControlIsDue(c, rows, control, controls, i);
    }
  }

  lemma NoControls(c: seq<Candidate>, rows: seq<Row>, control: Judge)
    ensures ControlsOk(c, rows, control, map[], 0)
  {
  }

  lemma HasState(c: seq<Candidate>, id: Id)
    requires id in IdSet(c)
    ensures exists i :: 0 <= i < |c| && c[i].id == id
  {
    var i :| 0 <= i < |c| && Ids(c)[i] == id;
  }

  // No confirmatory recipient of the row's seed, and given to no earlier row of it.
  predicate Open(rows: seq<Row>, controls: Controls, i: nat, id: Id)
    requires i < |rows|
  {
    && (forall j :: 0 <= j < |rows| && rows[j].seed == rows[i].seed ==> rows[j].pair.recipient != id)
    && forall j :: 0 <= j < i && rows[j].seed == rows[i].seed ==>
         var given := ControlFor(controls, KeyOf(rows[j])); given.None? || given.value.donor != id
  }

  // `r` got `m`: the nearest open state that is eligible, the smaller identity on a tie, or
  // none when no open state is eligible.
  ghost predicate Due(c: seq<Candidate>, control: Judge, r: Candidate, open: Id -> bool, m: Option<Matched>) {
    match m
    case None => forall e :: e in c && e.id != r.id && open(e.id) ==> !control(r, e).Eligible?
    case Some(given) => exists d :: d in c && d.id == given.donor && DueDonor(c, control, r, open, d, given.orientation)
  }

  ghost predicate DueDonor(c: seq<Candidate>, control: Judge, r: Candidate, open: Id -> bool, d: Candidate,
      orientation: real)
  {
    && d.id != r.id && open(d.id) && control(r, d).Eligible? && control(r, d).orientation == orientation
    && forall e :: e in c && e.id != r.id && open(e.id) && control(r, e).Eligible? ==>
         || control(r, d).distance < control(r, e).distance
         || (control(r, d).distance == control(r, e).distance && d.id <= e.id)
  }

  // The control of the `i`-th row, said of the states and rows alone.
  ghost predicate ControlDue(c: seq<Candidate>, rows: seq<Row>, control: Judge, controls: Controls, i: nat)
    requires i < |rows|
  {
    && KeyOf(rows[i]) in controls
    && exists r :: r in c && r.id == rows[i].pair.recipient
         && Due(c, control, r, (id: Id) => Open(rows, controls, i, id), controls[KeyOf(rows[i])])
  }

  lemma {:induction false} TakenExactly(rows: seq<Row>, controls: Controls, n: nat, seed: nat, id: Id)
    requires n <= |rows|
    ensures id in Taken(rows, controls, n, seed)
            <==> exists j :: 0 <= j < n && rows[j].seed == seed
                   && ControlFor(controls, KeyOf(rows[j])).Some?
                   && ControlFor(controls, KeyOf(rows[j])).value.donor == id
  {
    if n > 0 {
      TakenExactly(rows, controls, n - 1, seed, id);
    }
  }

  lemma AvailableExactly(c: seq<Candidate>, rows: seq<Row>, controls: Controls, i: nat, x: Candidate)
    requires i < |rows| && x in c
    ensures x.id in Available(rows, IdSet(c), controls, i) <==> Open(rows, controls, i, x.id)
  {
    TakenExactly(rows, controls, i, rows[i].seed, x.id);
    IdMember(c, x.id);
    if x.id in Reserved(rows, rows[i].seed) {
      var row :| row in rows && row.seed == rows[i].seed && row.pair.recipient == x.id;
      var j :| 0 <= j < |rows| && rows[j] == row;
    }
  }

  lemma ControlIsDue(c: seq<Candidate>, rows: seq<Row>, control: Judge, controls: Controls, i: nat)
    requires i < |rows| && Assigned(c, rows, control, controls, i)
    ensures ControlDue(c, rows, control, controls, i)
  {
    hide SortBy, Available, IdSet, Open;
    SortByMultiset(c, ById());
    SameMultisetMembers(c, Ordered(c));
    var ordered, free, key := Ordered(c), Available(rows, IdSet(c), controls, i), KeyOf(rows[i]);
    forall e | e in c
      ensures e.id in free <==> Open(rows, controls, i, e.id)
    {
      AvailableExactly(c, rows, controls, i, e);
    }
    var r :| r in c && r.id == rows[i].pair.recipient
      && match controls[key]
         case None => Lonely(ordered, free, r, control)
         case Some(m) => exists x: real :: Nearest(ordered, free, r, control, Choice(x, m.donor, m.orientation));
    match controls[key]
    case None => LonelyIsDue(c, ordered, free, r, control, (id: Id) => Open(rows, controls, i, id));
    case Some(m) =>
      var x: real :| Nearest(ordered, free, r, control, Choice(x, m.donor, m.orientation));
      NearestIsDue(c, ordered, free, r, control, (id: Id) => Open(rows, controls, i, id), m, x);
  }

  lemma LonelyIsDue(c: seq<Candidate>, ordered: seq<Candidate>, free: set<Id>, r: Candidate, control: Judge,
      open: Id -> bool)
    requires (forall x :: x in c ==> x in ordered) && forall e :: e in c ==> (e.id in free <==> open(e.id))
    requires Lonely(ordered, free, r, control)
    ensures Due(c, control, r, open, None)
  {
    forall e | e in c && e.id != r.id && open(e.id)
      ensures !control(r, e).Eligible?
    {
      assert !Suits(free, r, e, control);
    }
  }

  lemma NearestIsDue(c: seq<Candidate>, ordered: seq<Candidate>, free: set<Id>, r: Candidate, control: Judge,
      open: Id -> bool, m: Matched, x: real)
    requires (forall x :: x in c <==> x in ordered) && forall e :: e in c ==> (e.id in free <==> open(e.id))
    requires Nearest(ordered, free, r, control, Choice(x, m.donor, m.orientation))
    ensures Due(c, control, r, open, Some(m))
  {
    var choice := Choice(x, m.donor, m.orientation);
    var d :| d in ordered && Suits(free, r, d, control) && choice == Offer(r, d, control);
    forall e | e in c && e.id != r.id && open(e.id) && control(r, e).Eligible?
      ensures NoBetter(control(r, e).distance, e.id, choice)
    {
      assert Suits(free, r, e, control);
    }
    assert DueDonor(c, control, r, open, d, m.orientation);
  }

  lemma RowTaken(rows: seq<Row>, controls: Controls, i: nat, best: Option<Choice>)
    requires i < |rows| && Distinct(Keys(rows))
    ensures forall seed: nat ::
              Taken(rows, controls[KeyOf(rows[i]) := Given(best)], i + 1, seed)
              == Taken(rows, controls, i, seed)
                 + (if seed == rows[i].seed && best.Some? then {best.value.donor} else {})
  {
    var key := KeyOf(rows[i]);
    forall j | 0 <= j < i
      ensures KeyOf(rows[j]) != key
    {
      assert Keys(rows)[j] != Keys(rows)[i];
    }
    forall seed: nat
      ensures Taken(rows, controls[key := Given(best)], i, seed) == Taken(rows, controls, i, seed)
    {
      TakenFrame(rows, controls, key, Given(best), i, seed);
    }
  }

  // ---------------------------------------------------------------- the plan

  // Blocks of the first seeds.
  ghost predicate AreBlocks(c: seq<Candidate>, confirm: Judge, digest: Digest, blocks: seq<Block>) {
    && |blocks| <= |SEEDS|
    && forall s :: 0 <= s < |blocks| ==> IsBlock(c, SEEDS[s], confirm, digest, blocks[s])
  }

  function BlockRows(seed: nat, pairs: seq<Pair>): (r: seq<Row>)
    ensures |r| == |pairs| && forall j :: 0 <= j < |pairs| ==> r[j] == Row(seed, pairs[j])
  {
    seq(|pairs|, j requires 0 <= j < |pairs| => Row(seed, pairs[j]))
  }

  function Rows(blocks: seq<Block>, n: nat): seq<Row>
    requires n <= |blocks| && n <= |SEEDS|
  {
    if n == 0 then [] else Rows(blocks, n - 1) + BlockRows(SEEDS[n - 1], blocks[n - 1].pairs)
  }

  function SlotAt(seed: nat, b: Block, j: nat): Slot
    requires j < |b.pairs| + |b.fillers|
  {
    if j < |b.pairs| then Paired(seed, b.pairs[j]) else Filler(seed, b.fillers[j - |b.pairs|])
  }

  function BlockSlots(seed: nat, b: Block): (r: seq<Slot>)
    ensures |r| == |b.pairs| + |b.fillers| && forall j :: 0 <= j < |r| ==> r[j] == SlotAt(seed, b, j)
  {
    seq(|b.pairs| + |b.fillers|, j requires 0 <= j < |b.pairs| + |b.fillers| => SlotAt(seed, b, j))
  }

  function RecipientOf(slot: Slot): Id {
    match slot
    case Paired(_, pair) => pair.recipient
    case Filler(_, recipient) => recipient
  }

  function PlannedFor(slot: Slot, index: nat, spec: Spec, controls: Controls): Planned {
    match slot
    case Paired(seed, pair) =>
      var key := (seed, pair.recipient);
      Planned(index, seed, spec, pair.recipient, Some(pair.donor), Some(pair.orientation),
              ControlFor(controls, key), false)
    case Filler(seed, recipient) => Planned(index, seed, spec, recipient, None, None, None, true)
  }

  // `plan` spells out the blocks of the three seeds, with their controls.
  ghost predicate Spells(plan: seq<Planned>, blocks: seq<Block>, controls: Controls, spec: Id -> Option<Spec>) {
    && |blocks| == 3 && |plan| == 60
    && forall s, j :: 0 <= s < 3 && 0 <= j < 20 && |blocks[s].pairs| + |blocks[s].fillers| == 20 ==>
         var slot := SlotAt(SEEDS[s], blocks[s], j);
         && spec(RecipientOf(slot)).Some?
         && plan[20 * s + j] == PlannedFor(slot, 20 * s + j, spec(RecipientOf(slot)).value, controls)
  }

  // Some state that the blocks plan to intervene on has no usable episode.
  ghost predicate Unspecified(blocks: seq<Block>, spec: Id -> Option<Spec>) {
    exists s, j :: 0 <= s < |blocks| && s < 3 && 0 <= j < |blocks[s].pairs| + |blocks[s].fillers|
      && spec(RecipientOf(SlotAt(SEEDS[s], blocks[s], j))).None?
  }

  // The slots of all blocks, in order.
  predicate Laid(slots: seq<Slot>, blocks: seq<Block>) {
    && |blocks| <= 3 && |slots| == 20 * |blocks|
    && (forall t :: 0 <= t < |blocks| ==> |blocks[t].pairs| + |blocks[t].fillers| == 20)
    && forall t, j :: 0 <= t < |blocks| && 0 <= j < 20 ==> slots[20 * t + j] == SlotAt(SEEDS[t], blocks[t], j)
  }

  lemma LaidNext(slots: seq<Slot>, blocks: seq<Block>, b: Block)
    requires Laid(slots, blocks) && |blocks| < 3 && |b.pairs| + |b.fillers| == 20
    ensures Laid(slots + BlockSlots(SEEDS[|blocks|], b), blocks + [b])
  {
  }

  method LaySlots(c: seq<Candidate>, confirm: Judge, digest: Digest)
    returns (error: Option<PlanError>, slots: seq<Slot>, rows: seq<Row>, ghost blocks: seq<Block>)
    ensures AreBlocks(c, confirm, digest, blocks) && Laid(slots, blocks)
    ensures error.None? ==> |blocks| == 3 && rows == Rows(blocks, 3)
    ensures error.Some? ==> |blocks| < 3
    ensures error == Some(Duplicates) <==> !Distinct(Ids(c))
    ensures error == Some(TooFewCandidates)
            <==> Distinct(Ids(c)) && exists s :: 0 <= s < 3 && Starved(c, SEEDS[s], confirm, digest)
    ensures error != Some(UnknownEpisode)
  {
    hide IsBlock, SortBy, Starved, Laid;
    slots, rows, blocks, error := [], [], [], None;
    NothingLaid();
    var s := 0;
    while s < |SEEDS|
      invariant 0 <= s <= 3 && |blocks| == s && AreBlocks(c, confirm, digest, blocks)
      invariant Laid(slots, blocks) && rows == Rows(blocks, s)
      invariant forall t :: 0 <= t < s ==> Distinct(Ids(c)) && !Starved(c, SEEDS[t], confirm, digest)
    {
      var made := SeedBlock(c, SEEDS[s], confirm, digest);
      if made.Err? {
        error := Some(made.error);
        return;
      }
      BlockSize(c, SEEDS[s], confirm, digest, made.value);
      RowsPrefix(blocks, made.value, s);
      LaidNext(slots, blocks, made.value);
      slots := slots + BlockSlots(SEEDS[s], made.value);
      rows := rows + BlockRows(SEEDS[s], made.value.pairs);
      blocks := blocks + [made.value];
      s := s + 1;
    }
  }

  lemma NothingLaid()
    ensures Laid([], [])
  {
  }

  method Assemble(slots: seq<Slot>, controls: Controls, spec: Id -> Option<Spec>, ghost blocks: seq<Block>)
    returns (r: Result<seq<Planned>, PlanError>)
    requires Laid(slots, blocks) && |blocks| == 3
    ensures r.Ok? ==> Spells(r.value, blocks, controls, spec)
    ensures r.Err? <==> Unspecified(blocks, spec)
    ensures r.Err? ==> r.error == UnknownEpisode
  {
    hide Unspecified;
    var plan: seq<Planned> := [];
    var i := 0;
    while i < |slots|
      invariant 0 <= i <= 60 && |plan| == i
      invariant forall k :: 0 <= k < i ==>
                  && spec(RecipientOf(slots[k])).Some?
                  && plan[k] == PlannedFor(slots[k], k, spec(RecipientOf(slots[k])).value, controls)
    {
      var found := spec(RecipientOf(slots[i]));
      if found.None? {
        SlotOf(slots, blocks, i);
        NoSpec(blocks, spec, i / 20, i % 20);
        return Err(UnknownEpisode);
      }
      plan := plan + [PlannedFor(slots[i], i, found.value, controls)];
      i := i + 1;
    }
    AllSpecified(slots, blocks, spec);
    return Ok(plan);
  }

  /// The plan, or exactly why there is none: two candidates share an identity, the pairs
  /// of some seed leave too few states for its fillers, or a planned recipient has no
  /// usable episode.
  method BuildPairPlan(c: seq<Candidate>, confirm: Judge, control: Judge, digest: Digest, spec: Id -> Option<Spec>)
    returns (r: Result<seq<Planned>, PlanError>, ghost blocks: seq<Block>, ghost controls: Controls)
    ensures AreBlocks(c, confirm, digest, blocks)
    ensures r.Ok? ==> Spells(r.value, blocks, controls, spec)
    ensures r.Ok? ==> ControlsOk(c, Rows(blocks, 3), control, controls, |Rows(blocks, 3)|)
    ensures r.Ok? ==> IsPairPlan(c, confirm, control, digest, spec, r.value, blocks)
    ensures r == Err(Duplicates) <==> !Distinct(Ids(c))
    ensures r == Err(TooFewCandidates)
            <==> Distinct(Ids(c)) && exists s :: 0 <= s < 3 && Starved(c, SEEDS[s], confirm, digest)
    ensures r == Err(UnknownEpisode) <==> |blocks| == 3 && Unspecified(blocks, spec)
  {
    hide IsBlock, SortBy, IdSet, Starved, ControlsOk, ControlDue, Unspecified, Spells, Laid, IsPairPlan;
    controls := map[];
    var error, slots, rows, laid := LaySlots(c, confirm, digest);
    blocks := laid;
    if error.Some? {
      r := Err(error.value);
      return;
    }
    RowsOk(c, confirm, digest, blocks, 3);
    var matched := MatchedDonors(rows, c, control);
    controls := matched;
    r := Assemble(slots, matched, spec, blocks);
    if r.Ok? {
      PlanExplained(c, confirm, control, digest, spec, r.value, blocks, controls);
    }
  }

  lemma BlockSize(c: seq<Candidate>, seed: nat, judge: Judge, digest: Digest, b: Block)
    requires IsBlock(c, seed, judge, digest, b)
    ensures |b.pairs| + |b.fillers| == 20
  {
    hide SortBy, Selects;
  }

  lemma {:induction false} RowsPrefix(blocks: seq<Block>, block: Block, n: nat)
    requires n <= |blocks| && n <= |SEEDS|
    ensures Rows(blocks + [block], n) == Rows(blocks, n)
  {
    if n > 0 {
      RowsPrefix(blocks, block, n - 1);
    }
  }

  lemma SlotOf(slots: seq<Slot>, blocks: seq<Block>, i: nat)
    requires Laid(slots, blocks) && |blocks| == 3 && i < 60
    ensures slots[i] == SlotAt(SEEDS[i / 20], blocks[i / 20], i % 20)
  {
    assert slots[20 * (i / 20) + i % 20] == SlotAt(SEEDS[i / 20], blocks[i / 20], i % 20);
  }

  lemma NoSpec(blocks: seq<Block>, spec: Id -> Option<Spec>, s: nat, j: nat)
    requires s < |blocks| && s < 3 && j < |blocks[s].pairs| + |blocks[s].fillers|
    requires spec(RecipientOf(SlotAt(SEEDS[s], blocks[s], j))).None?
    ensures Unspecified(blocks, spec)
  {
  }

  lemma AllSpecified(slots: seq<Slot>, blocks: seq<Block>, spec: Id -> Option<Spec>)
    requires Laid(slots, blocks) && |blocks| == 3
    requires forall k :: 0 <= k < 60 ==> spec(RecipientOf(slots[k])).Some?
    ensures !Unspecified(blocks, spec)
  {
  }

  // A recipient is planned at most once for a seed.
  predicate RecipientsDiffer(b: Block)
    requires |b.pairs| + |b.fillers| == 20
  {
    forall j, k :: 0 <= j < k < 20 ==> RecipientOf(SlotAt(0, b, j)) != RecipientOf(SlotAt(0, b, k))
  }

  lemma BlockOk(c: seq<Candidate>, seed: nat, judge: Judge, digest: Digest, b: Block)
    requires Distinct(Ids(c)) && IsBlock(c, seed, judge, digest, b)
    ensures |b.pairs| + |b.fillers| == 20 && RecipientsDiffer(b) && VertexDisjoint(b.pairs)
    ensures forall j :: 0 <= j < |b.pairs| ==> b.pairs[j].recipient in IdSet(c) && b.pairs[j].donor in IdSet(c)
  {
    hide SortBy, IsGreedy, Unused, Spent;
    var line, used := Traversal(c, digest, seed), Spent(b.pairs, |b.pairs|);
    SelectionSound(c, seed, PAIR_LIMIT, judge, digest, b.pairs);
    FillersLeft(c, seed, judge, digest, b.pairs);
    UnusedOk(line, used, |line|);
    forall j | 0 <= j < |b.pairs|
      ensures b.pairs[j].recipient in IdSet(c) && b.pairs[j].donor in IdSet(c) && b.pairs[j].recipient in used
    {
      JoinsKnown(c, judge, b.pairs[j]);
      SpentHolds(b.pairs, |b.pairs|, j);
    }
    forall j, k | 0 <= j < k < 20
      ensures RecipientOf(SlotAt(0, b, j)) != RecipientOf(SlotAt(0, b, k))
    {
      if k < |b.pairs| {
        assert {b.pairs[j].recipient, b.pairs[j].donor} !! {b.pairs[k].recipient, b.pairs[k].donor};
      } else {
        var f := Unused(line, used, |line|)[k - |b.pairs|];
        assert f in Unused(line, used, |line|);
      }
    }
  }

  lemma {:induction false} RowsOk(c: seq<Candidate>, judge: Judge, digest: Digest, blocks: seq<Block>, n: nat)
    requires n <= |blocks| && n <= |SEEDS| && (n > 0 ==> Distinct(Ids(c))) && AreBlocks(c, judge, digest, blocks)
    ensures Distinct(Keys(Rows(blocks, n)))
    ensures forall row :: row in Rows(blocks, n) <==>
              exists s, j :: 0 <= s < n && 0 <= j < |blocks[s].pairs| && row == Row(SEEDS[s], blocks[s].pairs[j])
    ensures forall row :: row in Rows(blocks, n) ==> row.pair.recipient in IdSet(c)
  {
    hide IsBlock, IdSet;
    if n > 0 {
      RowsOk(c, judge, digest, blocks, n - 1);
      var before, pairs := Rows(blocks, n - 1), blocks[n - 1].pairs;
      BlockOk(c, SEEDS[n - 1], judge, digest, blocks[n - 1]);
      var last, rows := BlockRows(SEEDS[n - 1], pairs), Rows(blocks, n);
      forall row
        ensures row in rows <==>
                exists s, j :: 0 <= s < n && 0 <= j < |blocks[s].pairs| && row == Row(SEEDS[s], blocks[s].pairs[j])
      {
        if row in last {
          var j :| 0 <= j < |last| && last[j] == row;
          assert row == Row(SEEDS[n - 1], blocks[n - 1].pairs[j]);
        }
      }
      forall i, k | 0 <= i < k < |rows|
        ensures Keys(rows)[i] != Keys(rows)[k]
      {
        if k < |before| {
          assert Keys(before)[i] != Keys(before)[k];
        } else if i < |before| {
          assert before[i] in before;
        } else {
          var j, m := i - |before|, k - |before|;
          assert {pairs[j].recipient, pairs[j].donor} !! {pairs[m].recipient, pairs[m].donor};
        }
      }
    }
  }

  // ---------------------------------------------------------------- what the plan guarantees

  // A donor for the control of `id` that the control mode finds eligible.
  ghost predicate ControlEligible(c: seq<Candidate>, control: Judge, id: Id, m: Matched) {
    exists r, d :: r in c && d in c && r.id == id && d.id == m.donor && r.id != d.id
      && control(r, d).Eligible? && control(r, d).orientation == m.orientation
  }

  predicate SlotOk(p: Planned, i: nat)
    requires i < 60
  {
    && p.index == i && p.seed == SEEDS[i / 20]
    && (p.donor.None? <==> p.invalid) && (p.donor.None? <==> p.orientation.None?)
    && (p.matched.Some? ==> p.donor.Some?)
  }

  // Two attempts of one seed: other recipients, no state in two confirmatory pairs, other
  // control donors, and no control donor that is a confirmatory recipient.
  predicate Apart(p: Planned, q: Planned) {
    && p.recipient != q.recipient
    && (p.donor.Some? && q.donor.Some? ==>
          {p.recipient, p.donor.value} !! {q.recipient, q.donor.value})
    && (p.matched.Some? && q.matched.Some? ==> p.matched.value.donor != q.matched.value.donor)
    && (p.matched.Some? && q.donor.Some? ==> p.matched.value.donor != q.recipient)
    && (q.matched.Some? && p.donor.Some? ==> q.matched.value.donor != p.recipient)
  }

  lemma {:induction false} TakenHolds(rows: seq<Row>, controls: Controls, i: nat, n: nat)
    requires i < n <= |rows| && ControlFor(controls, KeyOf(rows[i])).Some?
    ensures ControlFor(controls, KeyOf(rows[i])).value.donor in Taken(rows, controls, n, rows[i].seed)
  {
    if i < n - 1 {
      TakenHolds(rows, controls, i, n - 1);
    }
  }

  lemma ControlOk(c: seq<Candidate>, rows: seq<Row>, control: Judge, controls: Controls, i: nat)
    requires Distinct(Ids(c)) && i < |rows| && ControlsOk(c, rows, control, controls, |rows|)
    requires ControlFor(controls, KeyOf(rows[i])).Some?
    ensures var m := ControlFor(controls, KeyOf(rows[i])).value;
            && m.donor in Available(rows, IdSet(c), controls, i)
            && ControlEligible(c, control, rows[i].pair.recipient, m)
  {
    hide SortBy, Available, IdSet, Lonely;
    assert Assigned(c, rows, control, controls, i);
    var free, m := Available(rows, IdSet(c), controls, i), controls[KeyOf(rows[i])].value;
    var r :| r in c && r.id == rows[i].pair.recipient
      && exists x: real :: Nearest(Ordered(c), free, r, control, Choice(x, m.donor, m.orientation));
    var x: real :| Nearest(Ordered(c), free, r, control, Choice(x, m.donor, m.orientation));
    var d :| d in Ordered(c) && Suits(free, r, d, control) && Choice(x, m.donor, m.orientation) == Offer(r, d, control);
    OrderedMember(c, d);
  }

  lemma OrderedMember(c: seq<Candidate>, d: Candidate)
    requires Distinct(Ids(c)) && d in Ordered(c)
    ensures d in c
  {
    SortedMembers(c, (s, i) => 0, 0);
  }

  lemma ControlsApart(c: seq<Candidate>, rows: seq<Row>, control: Judge, controls: Controls, i: nat, j: nat)
    requires Distinct(Ids(c)) && i < |rows| && j < |rows| && i != j && ControlsOk(c, rows, control, controls, |rows|)
    requires rows[i].seed == rows[j].seed && ControlFor(controls, KeyOf(rows[i])).Some?
    ensures var mine, other := ControlFor(controls, KeyOf(rows[i])), ControlFor(controls, KeyOf(rows[j]));
            && mine.value.donor != rows[j].pair.recipient
            && (other.Some? ==> mine.value.donor != other.value.donor)
  {
    hide ControlsOk, ControlEligible;
    ControlOk(c, rows, control, controls, i);
    assert rows[j] in rows;
    if ControlFor(controls, KeyOf(rows[j])).Some? {
      ControlOk(c, rows, control, controls, j);
      TakenHolds(rows, controls, if i < j then i else j, if i < j then j else i);
    }
  }

  /// Every successful plan has sixty slots, twenty for each seed in turn; within a seed the
  /// recipients differ, no state is in two confirmatory pairs, and a control donor is
  /// eligible, is used once and is never a confirmatory recipient.  A slot without a donor
  /// is a filler, and the other way round.
  lemma PlanSound(c: seq<Candidate>, confirm: Judge, control: Judge, digest: Digest, spec: Id -> Option<Spec>,
      plan: seq<Planned>, blocks: seq<Block>, controls: Controls)
    requires Distinct(Ids(c)) && AreBlocks(c, confirm, digest, blocks)
    requires Spells(plan, blocks, controls, spec)
    requires ControlsOk(c, Rows(blocks, 3), control, controls, |Rows(blocks, 3)|)
    ensures forall i :: 0 <= i < 60 ==> SlotOk(plan[i], i)
    ensures forall i :: 0 <= i < 60 && plan[i].matched.Some? ==>
              ControlEligible(c, control, plan[i].recipient, plan[i].matched.value)
    ensures forall i, j :: 0 <= i < j < 60 && i / 20 == j / 20 ==> Apart(plan[i], plan[j])
  {
    hide IsBlock, ControlsOk, ControlEligible, Apart, Rows;
    RowsOk(c, confirm, digest, blocks, 3);
    forall s | 0 <= s < 3
      ensures |blocks[s].pairs| + |blocks[s].fillers| == 20
    {
      BlockSize(c, SEEDS[s], confirm, digest, blocks[s]);
    }
    forall i | 0 <= i < 60
      ensures SlotOk(plan[i], i)
      ensures plan[i].matched.Some? ==> ControlEligible(c, control, plan[i].recipient, plan[i].matched.value)
    {
      Spelled(plan, blocks, controls, spec, i);
      if plan[i].matched.Some? {
        var row := RowOfSlot(blocks, i, Rows(blocks, 3));
        ControlOk(c, Rows(blocks, 3), control, controls, row);
      }
    }
    forall i, j | 0 <= i < j < 60 && i / 20 == j / 20
      ensures Apart(plan[i], plan[j])
    {
      SlotsApart(c, confirm, control, digest, spec, plan, blocks, controls, i, j);
    }
  }

  lemma Spelled(plan: seq<Planned>, blocks: seq<Block>, controls: Controls, spec: Id -> Option<Spec>, i: nat)
    requires Spells(plan, blocks, controls, spec) && i < 60
    requires |blocks[i / 20].pairs| + |blocks[i / 20].fillers| == 20
    ensures var slot := SlotAt(SEEDS[i / 20], blocks[i / 20], i % 20);
            && spec(RecipientOf(slot)).Some?
            && plan[i] == PlannedFor(slot, i, spec(RecipientOf(slot)).value, controls)
  {
    assert i == 20 * (i / 20) + i % 20;
  }

  // Where the row of a paired slot is.
  lemma RowOfSlot(blocks: seq<Block>, i: nat, rows: seq<Row>) returns (k: nat)
    requires |blocks| == 3 && i < 60 && i % 20 < |blocks[i / 20].pairs|
    requires forall row :: row in rows <==>
               exists s, j :: 0 <= s < 3 && 0 <= j < |blocks[s].pairs| && row == Row(SEEDS[s], blocks[s].pairs[j])
    ensures k < |rows| && rows[k] == Row(SEEDS[i / 20], blocks[i / 20].pairs[i % 20])
  {
    var row := Row(SEEDS[i / 20], blocks[i / 20].pairs[i % 20]);
    assert row in rows;
    k :| 0 <= k < |rows| && rows[k] == row;
  }

  lemma SlotsApart(c: seq<Candidate>, confirm: Judge, control: Judge, digest: Digest, spec: Id -> Option<Spec>,
      plan: seq<Planned>, blocks: seq<Block>, controls: Controls, i: nat, j: nat)
    requires Distinct(Ids(c)) && AreBlocks(c, confirm, digest, blocks)
    requires Spells(plan, blocks, controls, spec)
    requires |blocks| == 3 && |plan| == 60 && ControlsOk(c, Rows(blocks, 3), control, controls, |Rows(blocks, 3)|)
    requires i < j < 60 && i / 20 == j / 20
    ensures Apart(plan[i], plan[j])
  {
    hide IsBlock, Spells, ControlsOk, Rows;
    var b, rows := blocks[i / 20], Rows(blocks, 3);
    BlockOk(c, SEEDS[i / 20], confirm, digest, b);
    RowsOk(c, confirm, digest, blocks, 3);
    Spelled(plan, blocks, controls, spec, i);
    Spelled(plan, blocks, controls, spec, j);
    assert i % 20 < j % 20;
    assert RecipientOf(SlotAt(0, b, i % 20)) != RecipientOf(SlotAt(0, b, j % 20));
    if i % 20 < |b.pairs| && j % 20 < |b.pairs| {
      var k := RowOfSlot(blocks, i, rows);
      var m := RowOfSlot(blocks, j, rows);
      if plan[i].matched.Some? { ControlsApart(c, rows, control, controls, k, m); }
      if plan[j].matched.Some? { ControlsApart(c, rows, control, controls, m, k); }
    }
  }

  // ---------------------------------------------------------------- the plan, slot by slot

  // What slot `i` says: its pair or filler, with the episode of its recipient.
  predicate Carries(p: Planned, i: nat, b: Block, spec: Id -> Option<Spec>)
    requires i < 60 && |b.pairs| + |b.fillers| == 20
  {
    var k := i % 20;
    && p.index == i && p.seed == SEEDS[i / 20] && spec(p.recipient) == Some(p.spec)
    && if k < |b.pairs| then
         && p.recipient == b.pairs[k].recipient && p.donor == Some(b.pairs[k].donor)
         && p.orientation == Some(b.pairs[k].orientation) && !p.invalid
       else
         && p.recipient == b.fillers[k - |b.pairs|]
         && p.donor.None? && p.orientation.None? && p.matched.None? && p.invalid
  }

  // Confirmatory recipient of no slot of this seed, control donor of no earlier one.
  predicate OpenSlot(plan: seq<Planned>, i: nat, id: Id)
    requires |plan| == 60 && i < 60
  {
    && (forall j :: 0 <= j < 60 && j / 20 == i / 20 && plan[j].donor.Some? ==> plan[j].recipient != id)
    && forall j :: 0 <= j < i && j / 20 == i / 20 && plan[j].matched.Some? ==> plan[j].matched.value.donor != id
  }

  // The control of slot `i` is the nearest open one, or there is none.
  ghost predicate SlotControl(c: seq<Candidate>, control: Judge, plan: seq<Planned>, i: nat)
    requires |plan| == 60 && i < 60
  {
    exists r :: r in c && r.id == plan[i].recipient
      && Due(c, control, r, (id: Id) => OpenSlot(plan, i, id), plan[i].matched)
  }

  lemma SlotCarries(plan: seq<Planned>, blocks: seq<Block>, controls: Controls, spec: Id -> Option<Spec>, i: nat)
    requires Spells(plan, blocks, controls, spec) && i < 60
    requires |blocks[i / 20].pairs| + |blocks[i / 20].fillers| == 20
    ensures Carries(plan[i], i, blocks[i / 20], spec)
    ensures plan[i].donor.Some? ==> plan[i].matched == ControlFor(controls, (plan[i].seed, plan[i].recipient))
  {
    Spelled(plan, blocks, controls, spec, i);
  }

  lemma {:induction false} RowPlace(blocks: seq<Block>, n: nat, s: nat, k: nat)
    requires s < n <= |blocks| && n <= |SEEDS| && k < |blocks[s].pairs|
    ensures var m := |Rows(blocks, s)| + k;
            m < |Rows(blocks, n)| && Rows(blocks, n)[m] == Row(SEEDS[s], blocks[s].pairs[k])
  {
    if s < n - 1 {
      RowPlace(blocks, n - 1, s, k);
    }
  }

  lemma {:induction false} PlaceOfRow(blocks: seq<Block>, n: nat, m: nat) returns (s: nat, k: nat)
    requires n <= |blocks| && n <= |SEEDS| && m < |Rows(blocks, n)|
    ensures s < n && k < |blocks[s].pairs| && m == |Rows(blocks, s)| + k
    ensures Rows(blocks, n)[m] == Row(SEEDS[s], blocks[s].pairs[k])
  {
    var before := |Rows(blocks, n - 1)|;
    if m < before {
      s, k := PlaceOfRow(blocks, n - 1, m);
    } else {
      s, k := n - 1, m - before;
    }
  }

  lemma OtherSeed(s: nat, t: nat)
    requires s < 3 && t < 3 && SEEDS[s] == SEEDS[t]
    ensures s == t
  {
  }

  predicate Sized(plan: seq<Planned>, blocks: seq<Block>) {
    && |plan| == 60 && |blocks| == 3
    && forall t :: 0 <= t < 3 ==> |blocks[t].pairs| + |blocks[t].fillers| == 20
  }

  // The rows of the blocks and the slots of the plan leave the same states open.
  lemma RowsOpen(plan: seq<Planned>, blocks: seq<Block>, controls: Controls, spec: Id -> Option<Spec>, s: nat, k: nat,
      id: Id)
    requires Sized(plan, blocks) && Spells(plan, blocks, controls, spec)
    requires s < 3 && k < |blocks[s].pairs| && |Rows(blocks, s)| + k < |Rows(blocks, 3)|
    requires Rows(blocks, 3)[|Rows(blocks, s)| + k].seed == SEEDS[s]
    requires OpenSlot(plan, 20 * s + k, id)
    ensures Open(Rows(blocks, 3), controls, |Rows(blocks, s)| + k, id)
  {
    hide Spells, Rows, ControlFor;
    var rows, m := Rows(blocks, 3), |Rows(blocks, s)| + k;
    forall j | 0 <= j < |rows| && rows[j].seed == rows[m].seed
      ensures rows[j].pair.recipient != id
      ensures j < m ==> var given := ControlFor(controls, KeyOf(rows[j])); given.None? || given.value.donor != id
    {
      var t, h := PlaceOfRow(blocks, 3, j);
      OtherSeed(s, t);
      SlotCarries(plan, blocks, controls, spec, 20 * s + h);
    }
  }

  lemma SlotsOpen(plan: seq<Planned>, blocks: seq<Block>, controls: Controls, spec: Id -> Option<Spec>, s: nat, k: nat,
      id: Id)
    requires Sized(plan, blocks) && Spells(plan, blocks, controls, spec)
    requires s < 3 && k < |blocks[s].pairs| && |Rows(blocks, s)| + k < |Rows(blocks, 3)|
    requires Rows(blocks, 3)[|Rows(blocks, s)| + k].seed == SEEDS[s]
    requires Open(Rows(blocks, 3), controls, |Rows(blocks, s)| + k, id)
    ensures OpenSlot(plan, 20 * s + k, id)
  {
    hide Spells, Rows, ControlFor;
    forall j | 0 <= j < 60 && j / 20 == s
      ensures plan[j].donor.Some? ==> plan[j].recipient != id
      ensures j < 20 * s + k && plan[j].matched.Some? ==> plan[j].matched.value.donor != id
    {
      SlotCarries(plan, blocks, controls, spec, j);
      if plan[j].donor.Some? {
        RowPlace(blocks, 3, s, j % 20);
        assert Rows(blocks, 3)[|Rows(blocks, s)| + j % 20].seed == SEEDS[s];
      }
    }
  }

  lemma DueAlike(c: seq<Candidate>, control: Judge, r: Candidate, f: Id -> bool, g: Id -> bool, m: Option<Matched>)
    requires Due(c, control, r, f, m) && forall id :: f(id) == g(id)
    ensures Due(c, control, r, g, m)
  {
    if m.Some? {
      var d :| d in c && d.id == m.value.donor && DueDonor(c, control, r, f, d, m.value.orientation);
      assert DueDonor(c, control, r, g, d, m.value.orientation);
    }
  }

  lemma ControlCarried(c: seq<Candidate>, control: Judge, plan: seq<Planned>, blocks: seq<Block>, controls: Controls,
      spec: Id -> Option<Spec>, i: nat)
    requires Sized(plan, blocks) && Spells(plan, blocks, controls, spec) && i < 60
    requires ControlsOk(c, Rows(blocks, 3), control, controls, |Rows(blocks, 3)|) && plan[i].donor.Some?
    ensures SlotControl(c, control, plan, i)
  {
    hide Spells, Rows, ControlsOk, Due, OpenSlot, Open;
    var s, k, rows := i / 20, i % 20, Rows(blocks, 3);
    SlotCarries(plan, blocks, controls, spec, i);
    RowPlace(blocks, 3, s, k);
    var m := |Rows(blocks, s)| + k;
    AllDue(c, rows, control, controls);
    assert ControlDue(c, rows, control, controls, m);
    var r :| r in c && r.id == rows[m].pair.recipient
      && Due(c, control, r, (id: Id) => Open(rows, controls, m, id), controls[KeyOf(rows[m])]);
    forall id: Id
      ensures OpenSlot(plan, i, id) <==> Open(rows, controls, m, id)
    {
      if OpenSlot(plan, i, id) { RowsOpen(plan, blocks, controls, spec, s, k, id); }
      if Open(rows, controls, m, id) { SlotsOpen(plan, blocks, controls, spec, s, k, id); }
    }
    var before, now := (id: Id) => Open(rows, controls, m, id), (id: Id) => OpenSlot(plan, i, id);
    DueAlike(c, control, r, before, now, plan[i].matched);
  }

  // In no pair of this seed and no earlier slot of it.
  predicate SlotIdle(plan: seq<Planned>, i: nat, id: Id)
    requires |plan| == 60 && i < 60
  {
    && (forall j :: 0 <= j < 60 && j / 20 == i / 20 && plan[j].donor.Some? ==>
          plan[j].recipient != id && plan[j].donor.value != id)
    && forall j :: 0 <= j < i && j / 20 == i / 20 ==> plan[j].recipient != id
  }

  // The filler of slot `i` is the first in line that is idle.
  ghost predicate NextFiller(c: seq<Candidate>, digest: Digest, plan: seq<Planned>, i: nat)
    requires |plan| == 60 && i < 60
  {
    exists r :: r in c && r.id == plan[i].recipient && SlotIdle(plan, i, r.id)
      && forall t :: t in c && InLine(digest, SEEDS[i / 20], t.id, r.id) ==> !SlotIdle(plan, i, t.id)
  }

  // Where the `f`-th unused state stands, and who stands before it.
  lemma {:induction false} UnusedPlace(line: seq<Candidate>, used: set<Id>, n: nat, f: nat) returns (p: nat)
    requires n <= |line| && f < |Unused(line, used, n)|
    ensures p < n && line[p].id == Unused(line, used, n)[f] && line[p].id !in used
    ensures forall q :: 0 <= q < p ==> line[q].id in used || line[q].id in Unused(line, used, n)[..f]
  {
    var before := Unused(line, used, n - 1);
    if f < |before| {
      p := UnusedPlace(line, used, n - 1, f);
      assert Unused(line, used, n)[..f] == before[..f];
    } else {
      p := n - 1;
      UnusedMembers(line, used, n - 1);
      assert Unused(line, used, n)[..f] == before;
      forall q | 0 <= q < p
        ensures line[q].id in used || line[q].id in before
      {
      }
    }
  }

  lemma FillerCarried(c: seq<Candidate>, confirm: Judge, digest: Digest, plan: seq<Planned>, blocks: seq<Block>,
      controls: Controls, spec: Id -> Option<Spec>, i: nat)
    requires Distinct(Ids(c)) && AreBlocks(c, confirm, digest, blocks)
    requires Sized(plan, blocks) && Spells(plan, blocks, controls, spec) && i < 60 && plan[i].donor.None?
    ensures NextFiller(c, digest, plan, i)
  {
    hide Spells, SortBy, Unused, Spent, Selects, SlotIdle, ControlFor;
    var b, seed := blocks[i / 20], SEEDS[i / 20];
    SlotCarries(plan, blocks, controls, spec, i);
    assert IsBlock(c, seed, confirm, digest, b);
    var line, used, f := Traversal(c, digest, seed), Spent(b.pairs, |b.pairs|), i % 20 - |b.pairs|;
    var left := Unused(line, used, |line|);
    SortedMembers(c, digest, seed);
    RanksOfIds(c, digest, seed);
    SortByOk(c, BySeed(digest, seed));
    SameIds(line, c);
    UnusedOk(line, used, |line|);
    var p := UnusedPlace(line, used, |line|, f);
    assert b.fillers[f] == left[f] && b.fillers[..f] == left[..f];
    IdleSlot(plan, blocks, controls, spec, i, line[p].id);
    forall t | t in c && InLine(digest, seed, t.id, line[p].id)
      ensures !SlotIdle(plan, i, t.id)
    {
      StandsBefore(line, digest, seed, t, p);
      IdleSlot(plan, blocks, controls, spec, i, t.id);
    }
  }

  // A slot's idle states are those outside the seed's pairs and its earlier fillers.
  lemma IdleSlot(plan: seq<Planned>, blocks: seq<Block>, controls: Controls, spec: Id -> Option<Spec>, i: nat, id: Id)
    requires Sized(plan, blocks) && Spells(plan, blocks, controls, spec) && i < 60 && plan[i].donor.None?
    ensures var b := blocks[i / 20];
            && i % 20 >= |b.pairs|
            && (SlotIdle(plan, i, id) <==> id !in Spent(b.pairs, |b.pairs|) && id !in b.fillers[..i % 20 - |b.pairs|])
  {
    hide Spells, Spent, ControlFor;
    var b, s := blocks[i / 20], i / 20;
    SlotCarries(plan, blocks, controls, spec, i);
    SpentExactly(b.pairs, |b.pairs|, id);
    forall j | 0 <= j < 60 && j / 20 == s
      ensures Carries(plan[j], j, b, spec)
    {
      SlotCarries(plan, blocks, controls, spec, j);
    }
    var early := b.fillers[..i % 20 - |b.pairs|];
    if SlotIdle(plan, i, id) {
      forall j | 0 <= j < |b.pairs|
        ensures b.pairs[j].recipient != id && b.pairs[j].donor != id
      {
        assert Carries(plan[20 * s + j], 20 * s + j, b, spec);
      }
      forall j | 0 <= j < |early|
        ensures early[j] != id
      {
        assert Carries(plan[20 * s + |b.pairs| + j], 20 * s + |b.pairs| + j, b, spec);
      }
    }
    if id !in Spent(b.pairs, |b.pairs|) && id !in early {
      forall j | 0 <= j < i && j / 20 == s && plan[j].donor.None?
        ensures plan[j].recipient != id
      {
        assert early[j % 20 - |b.pairs|] == plan[j].recipient;
      }
    }
  }

  // Each slot spells out its block; the pairs of a seed are greedy and eligible; every
  // control is the nearest open one, and missing only when no open state is eligible; every
  // filler is the first idle state in line.
  ghost predicate IsPairPlan(c: seq<Candidate>, confirm: Judge, control: Judge, digest: Digest,
      spec: Id -> Option<Spec>, plan: seq<Planned>, blocks: seq<Block>)
  {
    && Sized(plan, blocks)
    && (forall i :: 0 <= i < 60 ==> Carries(plan[i], i, blocks[i / 20], spec))
    && (forall i :: 0 <= i < 60 && plan[i].donor.Some? ==>
          && plan[i].orientation.Some?
          && JoinsEligible(c, confirm, Pair(plan[i].recipient, plan[i].donor.value, plan[i].orientation.value)))
    && (forall s, k :: 0 <= s < 3 && 0 <= k < |blocks[s].pairs| ==>
          Explained(c, SEEDS[s], confirm, digest, blocks[s].pairs, k))
    && (forall s, t :: 0 <= s < 3 && |blocks[s].pairs| < 20 && t in c ==>
          !Servable(c, confirm, blocks[s].pairs, |blocks[s].pairs|, t))
    && (forall i :: 0 <= i < 60 && plan[i].donor.Some? ==> SlotControl(c, control, plan, i))
    && forall i :: 0 <= i < 60 && plan[i].donor.None? ==> NextFiller(c, digest, plan, i)
  }

  /// The candidates determine the plan.
  lemma PlanExplained(c: seq<Candidate>, confirm: Judge, control: Judge, digest: Digest, spec: Id -> Option<Spec>,
      plan: seq<Planned>, blocks: seq<Block>, controls: Controls)
    requires Distinct(Ids(c)) && AreBlocks(c, confirm, digest, blocks)
    requires Spells(plan, blocks, controls, spec)
    requires ControlsOk(c, Rows(blocks, 3), control, controls, |Rows(blocks, 3)|)
    ensures IsPairPlan(c, confirm, control, digest, spec, plan, blocks)
  {
    hide Spells, Selects, ControlsOk, JoinsEligible, Explained, Servable, SlotControl, NextFiller, Carries;
    hide Traversal, Unused;
    SpellsSized(plan, blocks, controls, spec);
    forall s | 0 <= s < 3
      ensures |blocks[s].pairs| + |blocks[s].fillers| == 20
      ensures forall k :: 0 <= k < |blocks[s].pairs| ==>
                && Explained(c, SEEDS[s], confirm, digest, blocks[s].pairs, k)
                && JoinsEligible(c, confirm, blocks[s].pairs[k])
      ensures |blocks[s].pairs| < 20 ==>
                forall t :: t in c ==> !Servable(c, confirm, blocks[s].pairs, |blocks[s].pairs|, t)
    {
      assert IsBlock(c, SEEDS[s], confirm, digest, blocks[s]);
      GreedyExplained(c, SEEDS[s], PAIR_LIMIT, confirm, digest, blocks[s].pairs);
      SelectionSound(c, SEEDS[s], PAIR_LIMIT, confirm, digest, blocks[s].pairs);
    }
    forall i | 0 <= i < 60
      ensures Carries(plan[i], i, blocks[i / 20], spec)
      ensures plan[i].donor.Some? ==>
                && plan[i].orientation.Some? && SlotControl(c, control, plan, i)
                && JoinsEligible(c, confirm, Pair(plan[i].recipient, plan[i].donor.value, plan[i].orientation.value))
      ensures plan[i].donor.None? ==> NextFiller(c, digest, plan, i)
    {
      SlotCarries(plan, blocks, controls, spec, i);
      SlotPair(plan[i], i, blocks[i / 20], spec);
      if plan[i].donor.Some? {
        ControlCarried(c, control, plan, blocks, controls, spec, i);
      } else {
        FillerCarried(c, confirm, digest, plan, blocks, controls, spec, i);
      }
    }
  }

  lemma SpellsSized(plan: seq<Planned>, blocks: seq<Block>, controls: Controls, spec: Id -> Option<Spec>)
    requires Spells(plan, blocks, controls, spec)
    ensures |plan| == 60 && |blocks| == 3
  {
  }

  lemma SlotPair(p: Planned, i: nat, b: Block, spec: Id -> Option<Spec>)
    requires i < 60 && |b.pairs| + |b.fillers| == 20 && Carries(p, i, b, spec)
    ensures p.donor.Some? ==>
              && p.orientation.Some? && i % 20 < |b.pairs|
              && Pair(p.recipient, p.donor.value, p.orientation.value) == b.pairs[i % 20]
  {
  }
}
