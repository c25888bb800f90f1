/** The plant list page: the empty state, or the cards in display order,
    overdue plants first and then by name. */
module PlantList {
  import opened Timestamps
  import opened App
  import opened PlantCard
  import opened Seqs

  /** `a.localeCompare(b)`, taken as the order of Unicode code points: negative,
      zero or positive as `a` sorts before, with or after `b`. */
  function LocaleCompare(a: string, b: string): (r: int)
    ensures -1 <= r <= 1
  {
    if a == [] && b == [] then 0
    else if a == [] then -1
    else if b == [] then 1
    else if a[0] < b[0] then -1
    else if b[0] < a[0] then 1
    else LocaleCompare(a[1..], b[1..])
  }

  lemma {:induction false} LocaleCompareAntisymmetric(a: string, b: string)
    ensures LocaleCompare(a, b) == -LocaleCompare(b, a)
  {
    if a != [] && b != [] && a[0] == b[0] {
      LocaleCompareAntisymmetric(a[1..], b[1..]);
    }
  }

  lemma {:induction false} LocaleCompareTransitive(a: string, b: string, c: string)
    requires LocaleCompare(a, b) <= 0 && LocaleCompare(b, c) <= 0
    ensures LocaleCompare(a, c) <= 0
  {
    if a != [] && b != [] && c != [] && a[0] == b[0] && b[0] == c[0] {
      LocaleCompareTransitive(a[1..], b[1..], c[1..]);
    }
  }

  /** The comparator passed to `sort`. */
  function Compare(a: Plant, b: Plant, now: Timestamp): int {
    var aNeeds := NeedsWater(a, now);
    var bNeeds := NeedsWater(b, now);
    if aNeeds && !bNeeds then -1
    else if !aNeeds && bNeeds then 1
    else LocaleCompare(a.name, b.name)
  }

  /** `a` may stay in front of `b`. */
  predicate InOrder(a: Plant, b: Plant, now: Timestamp) {
    Compare(a, b, now) <= 0
  }

  /** The comparator is consistent: a total preorder, so `sort` has a
      well-defined result. */
  lemma InOrderTotal(a: Plant, b: Plant, now: Timestamp)
    ensures InOrder(a, b, now) || InOrder(b, a, now)
  {
    LocaleCompareAntisymmetric(a.name, b.name);
  }

  lemma InOrderTransitive(a: Plant, b: Plant, c: Plant, now: Timestamp)
    requires InOrder(a, b, now) && InOrder(b, c, now)
    ensures InOrder(a, c, now)
  {
    if NeedsWater(a, now) == NeedsWater(b, now) && NeedsWater(b, now) == NeedsWater(c, now) {
      LocaleCompareTransitive(a.name, b.name, c.name);
    }
  }

  predicate Sorted(s: seq<Plant>, now: Timestamp) {
    forall i, j :: 0 <= i < j < |s| ==> InOrder(s[i], s[j], now)
  }

  /** `x` inserted into the ordered `s` in front of the first element it may
      precede. */
  function Insert(x: Plant, s: seq<Plant>, now: Timestamp): (r: seq<Plant>)
    requires Sorted(s, now)
    ensures multiset(r) == multiset(s) + multiset{x}
    ensures Sorted(r, now)
  {
    if s == [] then [x]
    else if InOrder(x, s[0], now) then
      InsertFront(x, s, now);
      [x] + s
    else
      var rest := Insert(x, s[1..], now);
      InOrderTotal(x, s[0], now);
      InsertBehind(x, s, rest, now);
      [s[0]] + rest
  }

  lemma InsertFront(x: Plant, s: seq<Plant>, now: Timestamp)
    requires s != [] && InOrder(x, s[0], now) && Sorted(s, now)
    ensures Sorted([x] + s, now)
  {
    var r := [x] + s;
    forall i, j | 0 <= i < j < |r| ensures InOrder(r[i], r[j], now) {
      if i == 0 && j > 1 {
        InOrderTransitive(x, s[0], s[j - 1], now);
      }
    }
  }

  lemma InsertBehind(x: Plant, s: seq<Plant>, rest: seq<Plant>, now: Timestamp)
    requires s != [] && Sorted(s, now) && InOrder(s[0], x, now)
    requires multiset(rest) == multiset(s[1..]) + multiset{x}
    requires Sorted(rest, now)
    ensures Sorted([s[0]] + rest, now)
    ensures multiset([s[0]] + rest) == multiset(s) + multiset{x}
  {
    var r := [s[0]] + rest;
    forall i, j | 0 <= i < j < |r| ensures InOrder(r[i], r[j], now) {
      if i == 0 {
        var z := rest[j - 1];
        assert z in multiset(rest);
        if z != x {
          assert z in multiset(s[1..]);
          var k :| 0 <= k < |s[1..]| && s[1..][k] == z;
          assert s[k + 1] == z;
        }
      } else {
        assert r[i] == rest[i - 1] && r[j] == rest[j - 1];
      }
    }
    assert s == [s[0]] + s[1..];
  }

  /** `[...plants].sort(compare)`: the plants ordered by the comparator;
      `SortPlantsStable` shows that equal ones keep their relative order. */
  function SortPlants(plants: seq<Plant>, now: Timestamp): (r: seq<Plant>)
    ensures multiset(r) == multiset(plants)
    ensures Sorted(r, now)
  {
    if plants == [] then []
    else
      assert plants == [plants[0]] + plants[1..];
      Insert(plants[0], SortPlants(plants[1..], now), now)
  }

  /** Names compare equal exactly when they are the same string. */
  lemma {:induction false} LocaleCompareZero(a: string, b: string)
    ensures LocaleCompare(a, b) == 0 <==> a == b
  {
    if a != [] && b != [] && a[0] == b[0] {
      LocaleCompareZero(a[1..], b[1..]);
      assert a == [a[0]] + a[1..] && b == [b[0]] + b[1..];
    }
  }

  /** The plants the comparator ranks equal to `k`. */
  function TiesWith(k: Plant, now: Timestamp): Plant -> bool {
    y => Compare(k, y, now) == 0
  }

  /** Ranking equal to `k` is an equivalence: two plants that tie with `k`
      tie with each other, so either may stand in front of the other. */
  lemma TiesAreEquivalent(k: Plant, now: Timestamp)
    ensures forall x, y :: TiesWith(k, now)(x) && TiesWith(k, now)(y) ==> InOrder(x, y, now)
  {
    forall x, y | TiesWith(k, now)(x) && TiesWith(k, now)(y) ensures InOrder(x, y, now) {
      LocaleCompareZero(k.name, x.name);
      LocaleCompareZero(k.name, y.name);
      LocaleCompareZero(x.name, y.name);
    }
  }

  /** Inserting `x` in front of the ordered `s` keeps, among plants that
      are all in order with one another, the order of `[x] + s`: `x` goes
      before the plants it ties with. */
  lemma {:induction false} InsertStable(e: Plant -> bool, x: Plant, s: seq<Plant>, now: Timestamp)
    requires Sorted(s, now)
    requires forall y, z :: e(y) && e(z) ==> InOrder(y, z, now)
    ensures Filter(e, Insert(x, s, now)) == Filter(e, [x] + s)
  {
    if s == [] || InOrder(x, s[0], now) {
      InsertInFront(x, s, now);
    } else {
      var tail := s[1..];
      InsertBehindFirst(x, s, now);
      var rest := Insert(x, tail, now);
      InsertStable(e, x, tail, now);
      assert s == [s[0]] + tail;
      FilterSwap(e, x, s[0], tail, rest);
    }
  }

  lemma InsertInFront(x: Plant, s: seq<Plant>, now: Timestamp)
    requires Sorted(s, now) && (s == [] || InOrder(x, s[0], now))
    ensures Insert(x, s, now) == [x] + s
  {
  }

  lemma InsertBehindFirst(x: Plant, s: seq<Plant>, now: Timestamp)
    requires s != [] && Sorted(s, now) && !InOrder(x, s[0], now)
    ensures Sorted(s[1..], now) && Insert(x, s, now) == [s[0]] + Insert(x, s[1..], now)
  {
    SortedTail(s, now);
  }

  lemma SortedTail(s: seq<Plant>, now: Timestamp)
    requires s != [] && Sorted(s, now)
    ensures Sorted(s[1..], now)
  {
    forall i, j | 0 <= i < j < |s[1..]| ensures InOrder(s[1..][i], s[1..][j], now) {
      assert s[1..][i] == s[i + 1] && s[1..][j] == s[j + 1];
    }
  }

  /** `sort` is stable: among the plants the comparator ranks equal to any
      `k` (same overdue state, same name), the displayed order is the stored
      order. */
  lemma SortPlantsStable(k: Plant, plants: seq<Plant>, now: Timestamp)
    ensures Filter(TiesWith(k, now), SortPlants(plants, now)) == Filter(TiesWith(k, now), plants)
  {
    TiesAreEquivalent(k, now);
    SortKeepsTiedOrder(TiesWith(k, now), plants, now);
  }

  lemma {:induction false} SortKeepsTiedOrder(e: Plant -> bool, plants: seq<Plant>, now: Timestamp)
    requires forall y, z :: e(y) && e(z) ==> InOrder(y, z, now)
    ensures Filter(e, SortPlants(plants, now)) == Filter(e, plants)
  {
    if plants != [] {
      var rest := SortPlants(plants[1..], now);
      assert SortPlants(plants, now) == Insert(plants[0], rest, now) && Sorted(rest, now);
      SortKeepsTiedOrder(e, plants[1..], now);
      InsertStable(e, plants[0], rest, now);
      FilterConsCongruent(e, plants[0], plants[1..], rest);
      assert plants == [plants[0]] + plants[1..];
    }
  }

  /** Every overdue plant is shown before every plant that is not. */
  lemma OverdueFirst(plants: seq<Plant>, now: Timestamp)
    ensures var r := SortPlants(plants, now);
      forall i, j :: 0 <= i < j < |r| && NeedsWater(r[j], now) ==> NeedsWater(r[i], now)
  {
  }

  /** Within the overdue group, and within the rest, names ascend. */
  lemma NamesAscendWithinGroups(plants: seq<Plant>, now: Timestamp)
    ensures var r := SortPlants(plants, now);
      forall i, j :: 0 <= i < j < |r| && NeedsWater(r[i], now) == NeedsWater(r[j], now)
        ==> LocaleCompare(r[i].name, r[j].name) <= 0
  {
  }

  /** A plant due later today is not overdue, so it is not moved to the
      front on that account. */
  lemma DueLaterTodayIsNotOverdue(p: Plant, now: Timestamp)
    requires SameDate(p.nextWatering, now) && Before(now, p.nextWatering)
    ensures !NeedsWater(p, now) && WaterToday(p, now)
  {
  }

  /** What the list page renders. */
  datatype ListView = EmptyState | Grid(cards: seq<Plant>)

  function View(plants: seq<Plant>, now: Timestamp): ListView {
    if |plants| == 0 then EmptyState else Grid(SortPlants(plants, now))
  }

  /** The empty state appears exactly for an empty list; otherwise the grid
      shows every plant exactly as often as it is stored, overdue ones
      first. */
  lemma ViewShowsEveryPlant(plants: seq<Plant>, now: Timestamp)
    ensures View(plants, now).EmptyState? <==> plants == []
    ensures View(plants, now).Grid? ==>
      multiset(View(plants, now).cards) == multiset(plants) && Sorted(View(plants, now).cards, now)
  {
  }
}
