/// Comparing the metadata of two sidecars
/// (ops/audit_scoring_schedule_equivalence_18d6494.py: _metadata_differences and the
/// normalisation step of _episode_audit).
///
/// The values of a JSON file.  An object keeps its members in key order, so going through
/// the sorted union of two key sets is merging two member lists; keys are numbers ordered
/// as the strings are.  Canonical text exists for trees of finite numbers only, and tells
/// exactly the values apart that `==` does here.

module MetadataDiff {
  import opened Wrappers

  type Key = nat

  // Python compares 0.0 and -0.0 as equal, though their texts differ, and NaN as unequal
  // to itself.  Its JSON reader accepts `Infinity`, `-Infinity`, `NaN` and `1e400`.
  datatype Json =
    | Null
    | Bool(truth: bool)
    | Int(value: int)
    | Float(x: real)
    | NegativeZero
    | Infinity(negative: bool)
    | NaN
    | Str(text: string)
    | List(items: seq<Json>)
    | Object(members: seq<Member>)

  datatype Member = Member(key: Key, value: Json)

  datatype Step = Name(key: Key) | Index(i: nat)

  type Path = seq<Step>

  datatype Difference = Difference(path: Path, serial: Json, twoWorker: Json)

  // "files" < "length" < "primitives_sha256" < "score"
  const FILES: Key := 0
  const LENGTH: Key := 1
  const PRIMITIVES: Key := 2
  const SCORE: Key := 3

  const MISSING := Str("<MISSING>")
  const NORMALIZED := Str("<COST-NORMALIZED>")

  predicate KeysRise(members: seq<Member>) {
    forall i, j :: 0 <= i < j < |members| ==> members[i].key < members[j].key
  }

  predicate WellFormed(a: Json) {
    match a
    case List(items) => forall i :: 0 <= i < |items| ==> WellFormed(items[i])
    case Object(members) => KeysRise(members) && forall i :: 0 <= i < |members| ==> WellFormed(members[i].value)
    case _ => true
  }

  // `type(first) is type(second)`
  predicate SameType(a: Json, b: Json) {
    match a
    case Null => b.Null?
    case Bool(_) => b.Bool?
    case Int(_) => b.Int?
    case Float(_) | NegativeZero | Infinity(_) | NaN => b.Float? || b.NegativeZero? || b.Infinity? || b.NaN?
    case Str(_) => b.Str?
    case List(_) => b.List?
    case Object(_) => b.Object?
  }

  // A value without the sign of its zeros.
  function Unsigned(a: Json): Json {
    match a
    case NegativeZero => Float(0.0)
    case List(items) => List(UnsignedItems(a, |items|))
    case Object(members) => Object(UnsignedMembers(a, |members|))
    case _ => a
  }

  function UnsignedItems(a: Json, n: nat): (r: seq<Json>)
    requires a.List? && n <= |a.items|
    ensures |r| == n && forall i :: 0 <= i < n ==> r[i] == Unsigned(a.items[i])
    decreases a, n
  {
    if n == 0 then [] else UnsignedItems(a, n - 1) + [Unsigned(a.items[n - 1])]
  }

  function UnsignedMembers(a: Json, n: nat): (r: seq<Member>)
    requires a.Object? && n <= |a.members|
    ensures |r| == n && forall i :: 0 <= i < n ==> r[i] == Member(a.members[i].key, Unsigned(a.members[i].value))
    decreases a, n
  {
    if n == 0 then []
    else UnsignedMembers(a, n - 1) + [Member(a.members[n - 1].key, Unsigned(a.members[n - 1].value))]
  }

  predicate NanFree(a: Json) {
    match a
    case NaN => false
    case List(items) => forall i :: 0 <= i < |items| ==> NanFree(items[i])
    case Object(members) => forall i :: 0 <= i < |members| ==> NanFree(members[i].value)
    case _ => true
  }

  // ---------------------------------------------------------------- the differences

  function Differences(a: Json, b: Json, path: Path): seq<Difference>
    decreases a
  {
    if !SameType(a, b) then [Difference(path, a, b)]
    else if a.Object? then MemberDifferences(a, b, path, 0, 0)
    else if a.List? then
      if |a.items| != |b.items|
      then [Difference(path + [Name(LENGTH)], Int(|a.items|), Int(|b.items|))]
      else ItemDifferences(a, b, path, 0)
    // `first != second` on two leaves
    else if a.NaN? || Unsigned(a) != Unsigned(b) then [Difference(path, a, b)]
    else []
  }

  function ItemDifferences(a: Json, b: Json, path: Path, i: nat): seq<Difference>
    requires a.List? && b.List? && |a.items| == |b.items| && i <= |a.items|
    decreases a, |a.items| - i
  {
    if i == |a.items| then []
    else Differences(a.items[i], b.items[i], path + [Index(i)]) + ItemDifferences(a, b, path, i + 1)
  }

  // The keys from members `i` and `j` on, in order.
  function MemberDifferences(a: Json, b: Json, path: Path, i: nat, j: nat): seq<Difference>
    requires a.Object? && b.Object? && i <= |a.members| && j <= |b.members|
    decreases a, |a.members| - i + |b.members| - j
  {
    if i == |a.members| && j == |b.members| then []
    else if j == |b.members| || (i < |a.members| && a.members[i].key < b.members[j].key) then
      [Difference(path + [Name(a.members[i].key)], a.members[i].value, MISSING)]
      + MemberDifferences(a, b, path, i + 1, j)
    else if i == |a.members| || b.members[j].key < a.members[i].key then
      [Difference(path + [Name(b.members[j].key)], MISSING, b.members[j].value)]
      + MemberDifferences(a, b, path, i, j + 1)
    else
      Differences(a.members[i].value, b.members[j].value, path + [Name(a.members[i].key)])
      + MemberDifferences(a, b, path, i + 1, j + 1)
  }

  // ---------------------------------------------------------------- no difference

  /// Nothing is reported exactly when the trees are equal but for the signs of zeros and
  /// hold no NaN.
  lemma {:induction false} DifferencesEmpty(a: Json, b: Json, path: Path)
    ensures Differences(a, b, path) == [] <==> Unsigned(a) == Unsigned(b) && NanFree(a)
    decreases a
  {
    hide MemberDifferences, ItemDifferences, UnsignedMembers, UnsignedItems;
    if a.Object? && b.Object? {
      MembersEmpty(a, b, path, 0, 0);
      var u, v := UnsignedMembers(a, |a.members|), UnsignedMembers(b, |b.members|);
      assert u[0..] == u && v[0..] == v;
    } else if a.List? && b.List? {
      if |a.items| == |b.items| {
        ItemsEmpty(a, b, path, 0);
        SameItems(a, b);
      }
    }
  }

  lemma UnsignedList(a: Json)
    requires a.List?
    ensures Unsigned(a) == List(UnsignedItems(a, |a.items|))
  {
  }

  lemma SameItems(a: Json, b: Json)
    requires a.List? && b.List? && |a.items| == |b.items|
    ensures Unsigned(a) == Unsigned(b)
            <==> forall k :: 0 <= k < |a.items| ==> Unsigned(a.items[k]) == Unsigned(b.items[k])
  {
    hide Unsigned, UnsignedItems;
    var u, v := UnsignedItems(a, |a.items|), UnsignedItems(b, |b.items|);
    UnsignedList(a);
    UnsignedList(b);
    if Unsigned(a) == Unsigned(b) {
      assert u == v;
      forall k | 0 <= k < |a.items|
        ensures Unsigned(a.items[k]) == Unsigned(b.items[k])
      {
        assert u[k] == v[k];
      }
    }
  }

  lemma {:induction false} ItemsEmpty(a: Json, b: Json, path: Path, i: nat)
    requires a.List? && b.List? && |a.items| == |b.items| && i <= |a.items|
    ensures ItemDifferences(a, b, path, i) == []
            <==> forall k :: i <= k < |a.items| ==> Unsigned(a.items[k]) == Unsigned(b.items[k]) && NanFree(a.items[k])
    decreases a, |a.items| - i
  {
    if i < |a.items| {
      DifferencesEmpty(a.items[i], b.items[i], path + [Index(i)]);
      ItemsEmpty(a, b, path, i + 1);
    }
  }

  lemma {:induction false} MembersEmpty(a: Json, b: Json, path: Path, i: nat, j: nat)
    requires a.Object? && b.Object? && i <= |a.members| && j <= |b.members|
    ensures MemberDifferences(a, b, path, i, j) == []
            <==> && UnsignedMembers(a, |a.members|)[i..] == UnsignedMembers(b, |b.members|)[j..]
                 && forall k :: i <= k < |a.members| ==> NanFree(a.members[k].value)
    decreases a, |a.members| - i + |b.members| - j
  {
    hide Differences, Unsigned, UnsignedMembers, NanFree;
    var u, v := UnsignedMembers(a, |a.members|), UnsignedMembers(b, |b.members|);
    if i == |a.members| && j == |b.members| {
    } else if j == |b.members| || (i < |a.members| && a.members[i].key < b.members[j].key) {
      assert u[i..][0] == u[i];
    } else if i == |a.members| || b.members[j].key < a.members[i].key {
      assert v[j..][0] == v[j];
    } else {
      DifferencesEmpty(a.members[i].value, b.members[j].value, path + [Name(a.members[i].key)]);
      MembersEmpty(a, b, path, i + 1, j + 1);
      assert u[i..] == [u[i]] + u[i + 1..] && v[j..] == [v[j]] + v[j + 1..];
    }
  }

  // ---------------------------------------------------------------- where differences are

  // Every difference lies below `path`.
  predicate AllBelow(d: seq<Difference>, path: Path) {
    forall k :: 0 <= k < |d| ==> path <= d[k].path
  }

  // And each takes a member, or each an item, below it.
  predicate Under(d: seq<Difference>, path: Path, named: bool) {
    forall k :: 0 <= k < |d| ==> path <= d[k].path && |d[k].path| > |path| && d[k].path[|path|].Name? == named
  }

  lemma UnderJoin(d: seq<Difference>, e: seq<Difference>, path: Path, named: bool)
    requires Under(d, path, named) && Under(e, path, named)
    ensures Under(d + e, path, named)
  {
  }

  lemma UnderStep(d: seq<Difference>, path: Path, step: Step)
    requires AllBelow(d, path + [step])
    ensures Under(d, path, step.Name?)
  {
    forall k | 0 <= k < |d|
      ensures path <= d[k].path && |d[k].path| > |path| && d[k].path[|path|] == step
    {
      assert (path + [step])[|path|] == d[k].path[|path|];
    }
  }

  lemma NothingUnder(path: Path, named: bool)
    ensures Under([], path, named)
  {
  }

  lemma UnderOne(path: Path, step: Step, v: Json, w: Json)
    ensures Under([Difference(path + [step], v, w)], path, step.Name?)
  {
  }

  lemma {:induction false} PathsExtend(a: Json, b: Json, path: Path)
    ensures AllBelow(Differences(a, b, path), path)
    decreases a
  {
    if SameType(a, b) {
      if a.Object? {
        MemberPaths(a, b, path, 0, 0);
      } else if a.List? && |a.items| == |b.items| {
        ItemPaths(a, b, path, 0);
      }
    }
  }

  lemma {:induction false} ItemPaths(a: Json, b: Json, path: Path, i: nat)
    requires a.List? && b.List? && |a.items| == |b.items| && i <= |a.items|
    ensures Under(ItemDifferences(a, b, path, i), path, false)
    decreases a, |a.items| - i
  {
    hide Differences, Under, AllBelow;
    if i < |a.items| {
      var here, rest := Differences(a.items[i], b.items[i], path + [Index(i)]), ItemDifferences(a, b, path, i + 1);
      PathsExtend(a.items[i], b.items[i], path + [Index(i)]);
      UnderStep(here, path, Index(i));
      ItemPaths(a, b, path, i + 1);
      UnderJoin(here, rest, path, false);
    } else {
      NothingUnder(path, false);
    }
  }

  lemma {:induction false} MemberPaths(a: Json, b: Json, path: Path, i: nat, j: nat)
    requires a.Object? && b.Object? && i <= |a.members| && j <= |b.members|
    ensures Under(MemberDifferences(a, b, path, i, j), path, true)
    decreases a, |a.members| - i + |b.members| - j
  {
    hide Differences, Under, AllBelow;
    if i == |a.members| && j == |b.members| {
      NothingUnder(path, true);
    } else if j == |b.members| || (i < |a.members| && a.members[i].key < b.members[j].key) {
      var m := a.members[i];
      MemberPaths(a, b, path, i + 1, j);
      UnderOne(path, Name(m.key), m.value, MISSING);
      var here := [Difference(path + [Name(m.key)], m.value, MISSING)];
      UnderJoin(here, MemberDifferences(a, b, path, i + 1, j), path, true);
    } else if i == |a.members| || b.members[j].key < a.members[i].key {
      var m := b.members[j];
      MemberPaths(a, b, path, i, j + 1);
      UnderOne(path, Name(m.key), MISSING, m.value);
      var here := [Difference(path + [Name(m.key)], MISSING, m.value)];
      UnderJoin(here, MemberDifferences(a, b, path, i, j + 1), path, true);
    } else {
      var m, n := a.members[i], b.members[j];
      var here := Differences(m.value, n.value, path + [Name(m.key)]);
      PathsExtend(m.value, n.value, path + [Name(m.key)]);
      UnderStep(here, path, Name(m.key));
      MemberPaths(a, b, path, i + 1, j + 1);
      UnderJoin(here, MemberDifferences(a, b, path, i + 1, j + 1), path, true);
    }
  }

  function Lookup(members: seq<Member>, key: Key): Option<Json> {
    if members == [] then None
    else if members[0].key == key then Some(members[0].value) else Lookup(members[1..], key)
  }

  predicate SameValue(x: Option<Json>, y: Option<Json>) {
    (x.None? && y.None?) || (x.Some? && y.Some? && Unsigned(x.value) == Unsigned(y.value))
  }

  // All differences lie below member `key`.
  predicate OnlyBelow(d: seq<Difference>, path: Path, key: Key) {
    forall k :: 0 <= k < |d| ==> path + [Name(key)] <= d[k].path
  }

  lemma {:induction false} LookupAbove(members: seq<Member>, key: Key)
    requires KeysRise(members) && (members != [] ==> key < members[0].key)
    ensures Lookup(members, key).None?
  {
    if members != [] {
      LookupAbove(members[1..], key);
    }
  }

  lemma LookupSkip(members: seq<Member>, i: nat, key: Key)
    requires i < |members|
    ensures Lookup(members[i..], key)
            == if members[i].key == key then Some(members[i].value) else Lookup(members[i + 1..], key)
  {
    assert members[i..][0] == members[i] && members[i..][1..] == members[i + 1..];
  }

  lemma LookupPast(members: seq<Member>, i: nat, key: Key)
    requires KeysRise(members) && i <= |members|
    requires i < |members| ==> key < members[i].key
    ensures Lookup(members[i..], key).None?
  {
    LookupAbove(members[i..], key);
  }

  lemma LookupGone(members: seq<Member>, i: nat)
    requires KeysRise(members) && i < |members|
    ensures Lookup(members[i + 1..], members[i].key).None?
  {
    LookupPast(members, i + 1, members[i].key);
  }

  lemma BelowKey(path: Path, key: Key, p: Path)
    requires path + [Name(key)] <= p
    ensures |p| > |path| && p[|path|] == Name(key)
  {
    assert (path + [Name(key)])[|path|] == p[|path|];
  }

  lemma NotBothBelow(d: seq<Difference>, path: Path, key: Key, other: Key)
    requires OnlyBelow(d, path, key) && AllBelow(d, path + [Name(other)]) && key != other
    ensures d == []
  {
    if d != [] {
      BelowKey(path, key, d[0].path);
      BelowKey(path, other, d[0].path);
    }
  }

  lemma OnlyBelowSplit(d: seq<Difference>, e: seq<Difference>, path: Path, key: Key)
    requires OnlyBelow(d + e, path, key)
    ensures OnlyBelow(d, path, key) && OnlyBelow(e, path, key)
  {
    forall k | 0 <= k < |d|
      ensures path + [Name(key)] <= d[k].path
    {
      assert (d + e)[k] == d[k];
    }
    forall k | 0 <= k < |e|
      ensures path + [Name(key)] <= e[k].path
    {
      assert (d + e)[|d| + k] == e[k];
    }
  }

  // What is reported when it all lies below member `key`.
  function AtKey(x: Option<Json>, y: Option<Json>, path: Path): seq<Difference> {
    match (x, y)
    case (Some(v), Some(w)) => Differences(v, w, path)
    case (Some(v), None) => [Difference(path, v, MISSING)]
    case (None, Some(w)) => [Difference(path, MISSING, w)]
    case (None, None) => []
  }

  /// If all differences lie below one member, the other members are equal but for the
  /// signs of zeros, and the differences are those of that member.
  lemma {:induction false} MembersInside(a: Json, b: Json, path: Path, i: nat, j: nat, key: Key)
    requires a.Object? && b.Object? && i <= |a.members| && j <= |b.members|
    requires KeysRise(a.members) && KeysRise(b.members)
    requires OnlyBelow(MemberDifferences(a, b, path, i, j), path, key)
    ensures MemberDifferences(a, b, path, i, j)
            == AtKey(Lookup(a.members[i..], key), Lookup(b.members[j..], key), path + [Name(key)])
    ensures forall q :: q != key ==> SameValue(Lookup(a.members[i..], q), Lookup(b.members[j..], q))
    decreases |a.members| - i + |b.members| - j, 1
  {
    hide Differences, Lookup, KeysRise, Unsigned;
    NoMembers();
    if i == |a.members| && j == |b.members| {
      assert a.members[i..] == [] && b.members[j..] == [];
    } else if j == |b.members| || (i < |a.members| && a.members[i].key < b.members[j].key) {
      OneSided(a, b, path, i, j, key);
    } else if i == |a.members| || b.members[j].key < a.members[i].key {
      OtherSided(a, b, path, i, j, key);
    } else {
      BothSided(a, b, path, i, j, key);
    }
  }

  lemma NoMembers()
    ensures forall q :: Lookup([], q).None?
  {
  }

  lemma OneSided(a: Json, b: Json, path: Path, i: nat, j: nat, key: Key)
    requires a.Object? && b.Object? && i < |a.members| && j <= |b.members|
    requires KeysRise(a.members) && KeysRise(b.members)
    requires j < |b.members| ==> a.members[i].key < b.members[j].key
    requires OnlyBelow(MemberDifferences(a, b, path, i, j), path, key)
    ensures MemberDifferences(a, b, path, i, j)
            == AtKey(Lookup(a.members[i..], key), Lookup(b.members[j..], key), path + [Name(key)])
    ensures forall q :: q != key ==> SameValue(Lookup(a.members[i..], q), Lookup(b.members[j..], q))
    decreases |a.members| - i + |b.members| - j, 0
  {
    hide Differences, Lookup, KeysRise, Unsigned;
    var m := a.members[i];
    var rest := MemberDifferences(a, b, path, i + 1, j);
    OnlyBelowSplit([Difference(path + [Name(m.key)], m.value, MISSING)], rest, path, key);
    assert [Difference(path + [Name(m.key)], m.value, MISSING)][0].path == path + [Name(m.key)];
    BelowKey(path, key, path + [Name(m.key)]);
    MembersInside(a, b, path, i + 1, j, key);
    LookupGone(a.members, i);
    LookupPast(b.members, j, key);
    forall q
      ensures Lookup(a.members[i..], q) == if m.key == q then Some(m.value) else Lookup(a.members[i + 1..], q)
    {
      LookupSkip(a.members, i, q);
    }
  }

  lemma OtherSided(a: Json, b: Json, path: Path, i: nat, j: nat, key: Key)
    requires a.Object? && b.Object? && i <= |a.members| && j < |b.members|
    requires KeysRise(a.members) && KeysRise(b.members)
    requires i < |a.members| ==> b.members[j].key < a.members[i].key
    requires OnlyBelow(MemberDifferences(a, b, path, i, j), path, key)
    ensures MemberDifferences(a, b, path, i, j)
            == AtKey(Lookup(a.members[i..], key), Lookup(b.members[j..], key), path + [Name(key)])
    ensures forall q :: q != key ==> SameValue(Lookup(a.members[i..], q), Lookup(b.members[j..], q))
    decreases |a.members| - i + |b.members| - j, 0
  {
    hide Differences, Lookup, KeysRise, Unsigned;
    var m := b.members[j];
    var rest := MemberDifferences(a, b, path, i, j + 1);
    OnlyBelowSplit([Difference(path + [Name(m.key)], MISSING, m.value)], rest, path, key);
    assert [Difference(path + [Name(m.key)], MISSING, m.value)][0].path == path + [Name(m.key)];
    BelowKey(path, key, path + [Name(m.key)]);
    MembersInside(a, b, path, i, j + 1, key);
    LookupGone(b.members, j);
    LookupPast(a.members, i, key);
    forall q
      ensures Lookup(b.members[j..], q) == if m.key == q then Some(m.value) else Lookup(b.members[j + 1..], q)
    {
      LookupSkip(b.members, j, q);
    }
  }

  lemma BothSided(a: Json, b: Json, path: Path, i: nat, j: nat, key: Key)
    requires a.Object? && b.Object? && i < |a.members| && j < |b.members|
    requires KeysRise(a.members) && KeysRise(b.members) && a.members[i].key == b.members[j].key
    requires OnlyBelow(MemberDifferences(a, b, path, i, j), path, key)
    ensures MemberDifferences(a, b, path, i, j)
            == AtKey(Lookup(a.members[i..], key), Lookup(b.members[j..], key), path + [Name(key)])
    ensures forall q :: q != key ==> SameValue(Lookup(a.members[i..], q), Lookup(b.members[j..], q))
    decreases |a.members| - i + |b.members| - j, 0
  {
    hide Differences, Lookup, KeysRise, Unsigned;
    var m, n := a.members[i], b.members[j];
    var here := Differences(m.value, n.value, path + [Name(m.key)]);
    OnlyBelowSplit(here, MemberDifferences(a, b, path, i + 1, j + 1), path, key);
    MembersInside(a, b, path, i + 1, j + 1, key);
    LookupGone(a.members, i);
    LookupGone(b.members, j);
    forall q
      ensures Lookup(a.members[i..], q) == if m.key == q then Some(m.value) else Lookup(a.members[i + 1..], q)
      ensures Lookup(b.members[j..], q) == if m.key == q then Some(n.value) else Lookup(b.members[j + 1..], q)
    {
      LookupSkip(a.members, i, q);
      LookupSkip(b.members, j, q);
    }
    if m.key != key {
      PathsExtend(m.value, n.value, path + [Name(m.key)]);
      NotBothBelow(here, path, key, m.key);
      DifferencesEmpty(m.value, n.value, path + [Name(m.key)]);
    }
  }

  // ---------------------------------------------------------------- overwriting a leaf

  // `object[key] = v`
  function SetMember(members: seq<Member>, key: Key, v: Json): seq<Member> {
    if members == [] || key < members[0].key then [Member(key, v)] + members
    else if members[0].key == key then [Member(key, v)] + members[1..]
    else [members[0]] + SetMember(members[1..], key, v)
  }

  lemma {:induction false} SetMemberRises(members: seq<Member>, key: Key, v: Json)
    requires KeysRise(members)
    ensures KeysRise(SetMember(members, key, v))
    ensures SetMember(members, key, v) != []
    ensures var first := SetMember(members, key, v)[0].key;
            first == key || (members != [] && first == members[0].key)
  {
    if members != [] && key > members[0].key {
      SetMemberRises(members[1..], key, v);
      RiseFront(members[0], SetMember(members[1..], key, v));
    }
  }

  lemma RiseFront(m: Member, rest: seq<Member>)
    requires KeysRise(rest) && (rest != [] ==> m.key < rest[0].key)
    ensures KeysRise([m] + rest)
  {
  }

  lemma LookupFront(m: Member, rest: seq<Member>, q: Key)
    ensures Lookup([m] + rest, q) == if q == m.key then Some(m.value) else Lookup(rest, q)
  {
    assert ([m] + rest)[1..] == rest;
  }

  lemma {:induction false} LookupSet(members: seq<Member>, key: Key, v: Json, q: Key)
    ensures Lookup(SetMember(members, key, v), q) == if q == key then Some(v) else Lookup(members, q)
  {
    hide Lookup;
    if members != [] {
      LookupFront(members[0], members[1..], q);
      assert members == [members[0]] + members[1..];
    }
    if members == [] || key < members[0].key {
      LookupFront(Member(key, v), members, q);
    } else if members[0].key == key {
      LookupFront(Member(key, v), members[1..], q);
    } else {
      LookupSet(members[1..], key, v, q);
      LookupFront(members[0], SetMember(members[1..], key, v), q);
    }
  }

  lemma SetMemberOk(members: seq<Member>, key: Key, v: Json)
    requires KeysRise(members)
    ensures KeysRise(SetMember(members, key, v))
    ensures forall q :: Lookup(SetMember(members, key, v), q) == if q == key then Some(v) else Lookup(members, q)
  {
    hide Lookup, SetMember;
    SetMemberRises(members, key, v);
    forall q
      ensures Lookup(SetMember(members, key, v), q) == if q == key then Some(v) else Lookup(members, q)
    {
      LookupSet(members, key, v, q);
    }
  }

  // Equal keys, and values equal but for the signs of zeros.
  predicate SameMembers(m: seq<Member>, n: seq<Member>) {
    && |m| == |n|
    && forall i :: 0 <= i < |m| ==> m[i].key == n[i].key && Unsigned(m[i].value) == Unsigned(n[i].value)
  }

  lemma EmptyTogether(m: seq<Member>, n: seq<Member>)
    requires forall q :: SameValue(Lookup(m, q), Lookup(n, q))
    ensures m == [] <==> n == []
  {
    var p, q := if m == [] then 0 else m[0].key, if n == [] then 0 else n[0].key;
    assert SameValue(Lookup(m, p), Lookup(n, p)) && SameValue(Lookup(m, q), Lookup(n, q));
  }

  lemma {:induction false} LookupsEqual(m: seq<Member>, n: seq<Member>)
    requires KeysRise(m) && KeysRise(n) && forall q :: SameValue(Lookup(m, q), Lookup(n, q))
    ensures SameMembers(m, n)
  {
    EmptyTogether(m, n);
    if m != [] {
      HeadsEqual(m, n);
      forall q
        ensures SameValue(Lookup(m[1..], q), Lookup(n[1..], q))
      {
        assert SameValue(Lookup(m, q), Lookup(n, q));
        if q == m[0].key {
          LookupAbove(m[1..], q);
          LookupAbove(n[1..], q);
        }
      }
      LookupsEqual(m[1..], n[1..]);
      assert m == [m[0]] + m[1..] && n == [n[0]] + n[1..];
    }
  }

  lemma HeadsEqual(m: seq<Member>, n: seq<Member>)
    requires KeysRise(m) && KeysRise(n) && m != [] && n != [] && forall q :: SameValue(Lookup(m, q), Lookup(n, q))
    ensures m[0].key == n[0].key && Unsigned(m[0].value) == Unsigned(n[0].value)
  {
    assert SameValue(Lookup(m, m[0].key), Lookup(n, m[0].key));
    assert SameValue(Lookup(m, n[0].key), Lookup(n, n[0].key));
    if m[0].key < n[0].key {
      LookupAbove(n, m[0].key);
    }
    if n[0].key < m[0].key {
      LookupAbove(m, n[0].key);
    }
  }

  // Of two values that are not both objects, nothing is reported below a member.
  lemma NotObjects(a: Json, b: Json, path: Path, key: Key)
    requires !(a.Object? && b.Object?) && key != LENGTH
    ensures var d := Differences(a, b, path); d != [] ==> !(path + [Name(key)] <= d[0].path)
  {
    hide Unsigned;
    var d := Differences(a, b, path);
    if d != [] && path + [Name(key)] <= d[0].path {
      BelowKey(path, key, d[0].path);
      if a.List? && b.List? && |a.items| == |b.items| {
        ItemPaths(a, b, path, 0);
      }
    }
  }

  lemma BothObjects(a: Json, b: Json, path: Path)
    requires a.Object? && b.Object?
    ensures Differences(a, b, path) == MemberDifferences(a, b, path, 0, 0)
  {
  }

  // The one difference lies below member `key` of two objects.
  lemma ObjectLevel(a: Json, b: Json, path: Path, key: Key)
    requires WellFormed(a) && WellFormed(b) && key != LENGTH
    requires var d := Differences(a, b, path); |d| == 1 && path + [Name(key)] <= d[0].path
    ensures a.Object? && b.Object?
    ensures Differences(a, b, path) == AtKey(Lookup(a.members, key), Lookup(b.members, key), path + [Name(key)])
    ensures forall q :: q != key ==> SameValue(Lookup(a.members, q), Lookup(b.members, q))
  {
    hide Unsigned, Lookup, AtKey, Differences, MemberDifferences, SameValue;
    if a.Object? && b.Object? {
      BothObjects(a, b, path);
      MembersInside(a, b, path, 0, 0, key);
      assert a.members[0..] == a.members && b.members[0..] == b.members;
    } else {
      NotObjects(a, b, path, key);
    }
  }

  lemma {:induction false} LookupWellFormed(members: seq<Member>, key: Key)
    requires KeysRise(members) && forall i :: 0 <= i < |members| ==> WellFormed(members[i].value)
    ensures Lookup(members, key).Some? ==> WellFormed(Lookup(members, key).value)
  {
    if members != [] {
      LookupWellFormed(members[1..], key);
    }
  }

  // `value["files"]["primitives_sha256"] = "<COST-NORMALIZED>"`; None where it raises.
  function Overwritten(a: Json): Option<Json> {
    if !a.Object? then None
    else match Lookup(a.members, FILES)
      case Some(Object(files)) =>
        Some(Object(SetMember(a.members, FILES, Object(SetMember(files, PRIMITIVES, NORMALIZED)))))
      case _ => None
  }

  // `[item["path"] for item in metadata_differences] == [["files", "primitives_sha256"]]`
  predicate OnlyAllowed(a: Json, b: Json) {
    var d := Differences(a, b, []);
    |d| == 1 && d[0].path == [Name(FILES), Name(PRIMITIVES)]
  }

  lemma SameObjects(m: seq<Member>, n: seq<Member>)
    requires KeysRise(m) && KeysRise(n) && forall q :: SameValue(Lookup(m, q), Lookup(n, q))
    ensures Unsigned(Object(m)) == Unsigned(Object(n))
  {
    LookupsEqual(m, n);
    assert Unsigned(Object(m)).members == Unsigned(Object(n)).members;
  }

  lemma SetBoth(m: seq<Member>, n: seq<Member>, key: Key, v: Json, w: Json)
    requires KeysRise(m) && KeysRise(n) && Unsigned(v) == Unsigned(w)
    requires forall q :: q != key ==> SameValue(Lookup(m, q), Lookup(n, q))
    ensures Unsigned(Object(SetMember(m, key, v))) == Unsigned(Object(SetMember(n, key, w)))
  {
    hide SetMember, Unsigned, Lookup;
    SetMemberOk(m, key, v);
    SetMemberOk(n, key, w);
    SameObjects(SetMember(m, key, v), SetMember(n, key, w));
  }

  /// When the only reported path is files/primitives_sha256, the overwriting succeeds in
  /// both trees and leaves them equal but for the signs of zeros.
  lemma OverwrittenSame(a: Json, b: Json)
    requires WellFormed(a) && WellFormed(b) && OnlyAllowed(a, b)
    ensures Overwritten(a).Some? && Overwritten(b).Some?
    ensures Unsigned(Overwritten(a).value) == Unsigned(Overwritten(b).value)
  {
    hide Differences, Unsigned, Lookup, SetMember;
    var d := Differences(a, b, []);
    assert [] + [Name(FILES)] == d[0].path[..1];
    ObjectLevel(a, b, [], FILES);
    var x, y := Lookup(a.members, FILES), Lookup(b.members, FILES);
    assert [] + [Name(FILES)] == [Name(FILES)];
    assert x.Some? && y.Some?;
    LookupWellFormed(a.members, FILES);
    LookupWellFormed(b.members, FILES);
    assert [Name(FILES)] + [Name(PRIMITIVES)] == d[0].path;
    ObjectLevel(x.value, y.value, [Name(FILES)], PRIMITIVES);
    SetBoth(x.value.members, y.value.members, PRIMITIVES, NORMALIZED, NORMALIZED);
    SetBoth(a.members, b.members, FILES,
            Object(SetMember(x.value.members, PRIMITIVES, NORMALIZED)),
            Object(SetMember(y.value.members, PRIMITIVES, NORMALIZED)));
  }

  // ---------------------------------------------------------------- signs of zeros

  // Wherever the two trees have corresponding values, both or neither is a negative zero.
  predicate SignsAgree(a: Json, b: Json)
    decreases a
  {
    && (a.NegativeZero? <==> b.NegativeZero?)
    && (a.List? && b.List? ==>
          forall i :: 0 <= i < |a.items| && i < |b.items| ==> SignsAgree(a.items[i], b.items[i]))
    && (a.Object? && b.Object? ==>
          forall i :: 0 <= i < |a.members| && i < |b.members| ==> SignsAgree(a.members[i].value, b.members[i].value))
  }

  lemma {:induction false} EqualExactly(a: Json, b: Json)
    requires Unsigned(a) == Unsigned(b)
    ensures a == b <==> SignsAgree(a, b)
    decreases a
  {
    if a.List? && b.List? {
      forall i | 0 <= i < |a.items|
        ensures |b.items| == |a.items| && (a.items[i] == b.items[i] <==> SignsAgree(a.items[i], b.items[i]))
      {
        assert UnsignedItems(a, |a.items|)[i] == UnsignedItems(b, |b.items|)[i];
        EqualExactly(a.items[i], b.items[i]);
      }
      assert |UnsignedItems(a, |a.items|)| == |UnsignedItems(b, |b.items|)|;
    } else if a.Object? && b.Object? {
      forall i | 0 <= i < |a.members|
        ensures |b.members| == |a.members|
        ensures a.members[i] == b.members[i] <==> SignsAgree(a.members[i].value, b.members[i].value)
      {
        assert UnsignedMembers(a, |a.members|)[i] == UnsignedMembers(b, |b.members|)[i];
        EqualExactly(a.members[i].value, b.members[i].value);
      }
      assert |UnsignedMembers(a, |a.members|)| == |UnsignedMembers(b, |b.members|)|;
    }
  }

  // ---------------------------------------------------------------- canonical text

  predicate AllFinite(a: Json) {
    match a
    case Infinity(_) | NaN => false
    case List(items) => forall i :: 0 <= i < |items| ==> AllFinite(items[i])
    case Object(members) => forall i :: 0 <= i < |members| ==> AllFinite(members[i].value)
    case _ => true
  }

  // The value reached by taking, again and again, the item or the member at a place.
  function At(a: Json, places: seq<nat>): Option<Json>
    decreases |places|
  {
    if places == [] then Some(a)
    else if a.List? && places[0] < |a.items| then At(a.items[places[0]], places[1..])
    else if a.Object? && places[0] < |a.members| then At(a.members[places[0]].value, places[1..])
    else None
  }

  predicate Unbounded(a: Json) {
    a.Infinity? || a.NaN?
  }

  lemma {:induction false} FiniteAt(a: Json, places: seq<nat>)
    requires AllFinite(a) && At(a, places).Some?
    ensures !Unbounded(At(a, places).value)
    decreases |places|
  {
    if places != [] {
      FiniteAt(if a.List? then a.items[places[0]] else a.members[places[0]].value, places[1..]);
    }
  }

  lemma {:induction false} UnboundedSomewhere(a: Json) returns (places: seq<nat>)
    requires !AllFinite(a)
    ensures At(a, places).Some? && Unbounded(At(a, places).value)
    decreases a
  {
    places := [];
    if a.List? {
      var i :| 0 <= i < |a.items| && !AllFinite(a.items[i]);
      var rest := UnboundedSomewhere(a.items[i]);
      places := [i] + rest;
      assert places[1..] == rest;
    } else if a.Object? {
      var i :| 0 <= i < |a.members| && !AllFinite(a.members[i].value);
      var rest := UnboundedSomewhere(a.members[i].value);
      places := [i] + rest;
      assert places[1..] == rest;
    }
  }

  /// A tree has canonical text exactly when no infinity and no NaN can be reached in it.
  lemma FiniteExactly(a: Json)
    ensures Canonical(a).Some? <==> forall places :: At(a, places).Some? ==> !Unbounded(At(a, places).value)
  {
    if AllFinite(a) {
      forall places | At(a, places).Some?
        ensures !Unbounded(At(a, places).value)
      {
        FiniteAt(a, places);
      }
    } else {
      var places := UnboundedSomewhere(a);
      assert At(a, places).Some?;
    }
  }

  lemma {:induction false} FiniteTogether(a: Json, b: Json)
    requires Unsigned(a) == Unsigned(b)
    ensures AllFinite(a) <==> AllFinite(b)
    decreases a
  {
    if a.List? && b.List? {
      assert |UnsignedItems(a, |a.items|)| == |UnsignedItems(b, |b.items|)|;
      forall i | 0 <= i < |a.items|
        ensures AllFinite(a.items[i]) <==> AllFinite(b.items[i])
      {
        assert UnsignedItems(a, |a.items|)[i] == UnsignedItems(b, |b.items|)[i];
        FiniteTogether(a.items[i], b.items[i]);
      }
    } else if a.Object? && b.Object? {
      assert |UnsignedMembers(a, |a.members|)| == |UnsignedMembers(b, |b.members|)|;
      forall i | 0 <= i < |a.members|
        ensures AllFinite(a.members[i].value) <==> AllFinite(b.members[i].value)
      {
        assert UnsignedMembers(a, |a.members|)[i] == UnsignedMembers(b, |b.members|)[i];
        FiniteTogether(a.members[i].value, b.members[i].value);
      }
    }
  }

  datatype AuditError = NonCostDiffers | NotCanonical | NormalizedDiffers

  // The tree stands for its text; None where `allow_nan=False` raises.
  function Canonical(a: Json): Option<Json> {
    if AllFinite(a) then Some(a) else None
  }

  /// The metadata part of one episode's audit.  Once the first comparison passes, the
  /// second still raises when a number of the overwritten trees is infinite, and still
  /// fails when they put a negative zero in different places; otherwise it passes.
  method AuditMetadata(serial: Json, twoWorker: Json) returns (r: Result<(Json, Json), AuditError>)
    requires WellFormed(serial) && WellFormed(twoWorker)
    ensures r == Err(NonCostDiffers) <==> !OnlyAllowed(serial, twoWorker)
    ensures OnlyAllowed(serial, twoWorker) ==>
              && Overwritten(serial).Some? && Overwritten(twoWorker).Some?
              && var a, b := Overwritten(serial).value, Overwritten(twoWorker).value;
                 && (AllFinite(a) <==> AllFinite(b))
                 && r == if !AllFinite(a) then Err(NotCanonical)
                         else if SignsAgree(a, b) then Ok((a, b))
                         else Err(NormalizedDiffers)
  {
    hide Differences, Unsigned, Overwritten, SignsAgree, AllFinite;
    if !OnlyAllowed(serial, twoWorker) {
      return Err(NonCostDiffers);
    }
    OverwrittenSame(serial, twoWorker);
    var a, b := Overwritten(serial).value, Overwritten(twoWorker).value;
    EqualExactly(a, b);
    FiniteTogether(a, b);
    var left, right := Canonical(a), Canonical(b);
    if left.None? || right.None? {
      return Err(NotCanonical);
    }
    if left.value != right.value {
      return Err(NormalizedDiffers);
    }
    return Ok((a, b));
  }

  function FilesOf(digest: string): Json {
    Object([Member(PRIMITIVES, Str(digest))])
  }

  function Sidecar(files: Json, score: Json): Json {
    Object([Member(FILES, files), Member(SCORE, score)])
  }

  lemma FilesDiffer(path: Path)
    ensures Differences(FilesOf("a"), FilesOf("b"), path)
            == [Difference(path + [Name(PRIMITIVES)], Str("a"), Str("b"))]
  {
    var v, w := FilesOf("a"), FilesOf("b");
    assert Str("a").text[0] != Str("b").text[0];
    assert MemberDifferences(v, w, path, 1, 1) == [];
  }

  lemma OnlyFilesDiffer(v: Json, w: Json, x: Json, y: Json)
    requires Differences(x, y, [Name(SCORE)]) == []
    ensures Differences(Sidecar(v, x), Sidecar(w, y), []) == Differences(v, w, [Name(FILES)])
  {
    hide Differences;
    var a, b := Sidecar(v, x), Sidecar(w, y);
    BothObjects(a, b, []);
    assert [] + [Name(FILES)] == [Name(FILES)] && [] + [Name(SCORE)] == [Name(SCORE)];
    assert MemberDifferences(a, b, [], 2, 2) == [];
    assert MemberDifferences(a, b, [], 1, 1) == [];
  }

  lemma SidecarOverwritten(digest: string, score: Json)
    ensures Overwritten(Sidecar(FilesOf(digest), score))
            == Some(Sidecar(Object([Member(PRIMITIVES, NORMALIZED)]), score))
  {
    var files, members := FilesOf(digest).members, Sidecar(FilesOf(digest), score).members;
    assert SetMember(files, PRIMITIVES, NORMALIZED) == [Member(PRIMITIVES, NORMALIZED)];
    var v := Object([Member(PRIMITIVES, NORMALIZED)]);
    assert SetMember(members, FILES, v) == [Member(FILES, v), Member(SCORE, score)];
  }

  /// Two sidecars that pass the first comparison and fail the second: a score of 0.0 in
  /// one and of -0.0 in the other.
  lemma SecondComparisonCanFail()
    ensures var a, b := Sidecar(FilesOf("a"), Float(0.0)), Sidecar(FilesOf("b"), NegativeZero);
            && WellFormed(a) && WellFormed(b) && OnlyAllowed(a, b)
            && Overwritten(a).Some? && Overwritten(b).Some? && Overwritten(a) != Overwritten(b)
  {
    OnlyDigests(Float(0.0), NegativeZero);
    SidecarOverwritten("a", Float(0.0));
    SidecarOverwritten("b", NegativeZero);
    hide Differences, Overwritten;
    assert Sidecar(Object([Member(PRIMITIVES, NORMALIZED)]), Float(0.0)).members[1]
           != Sidecar(Object([Member(PRIMITIVES, NORMALIZED)]), NegativeZero).members[1];
  }

  /// Two sidecars that pass the first comparison and have no canonical text: an infinite
  /// score in both.
  lemma InfinityCanRaise()
    ensures var a, b := Sidecar(FilesOf("a"), Infinity(false)), Sidecar(FilesOf("b"), Infinity(false));
            && WellFormed(a) && WellFormed(b) && OnlyAllowed(a, b)
            && Overwritten(a).Some? && Overwritten(a) == Overwritten(b) && Canonical(Overwritten(a).value).None?
  {
    OnlyDigests(Infinity(false), Infinity(false));
    SidecarOverwritten("a", Infinity(false));
    SidecarOverwritten("b", Infinity(false));
    hide Differences, Overwritten;
    assert !AllFinite(Sidecar(Object([Member(PRIMITIVES, NORMALIZED)]), Infinity(false)).members[1].value);
  }

  // Of two sidecars with scores that compare equal, only the digests are reported.
  lemma OnlyDigests(x: Json, y: Json)
    requires WellFormed(x) && WellFormed(y) && Differences(x, y, [Name(SCORE)]) == []
    ensures var a, b := Sidecar(FilesOf("a"), x), Sidecar(FilesOf("b"), y);
            WellFormed(a) && WellFormed(b) && OnlyAllowed(a, b)
  {
    FilesDiffer([Name(FILES)]);
    OnlyFilesDiffer(FilesOf("a"), FilesOf("b"), x, y);
    hide Differences;
    assert [Name(FILES)] + [Name(PRIMITIVES)] == [Name(FILES), Name(PRIMITIVES)];
  }
}
