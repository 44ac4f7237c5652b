/** The order `fetch_locations` puts its locations in: a stable sort by
    population, largest first, where an unknown population ranks below every
    known one (Rust orders `None` before `Some`, and the comparator is reversed). */
module Ranking {
  import opened Base
  import opened Locations

  /** `p > q` in Rust's order on `Option<u32>`, where `None` is the least value. */
  predicate Outranks(p: Option<u32>, q: Option<u32>) {
    p.Some? && (q.None? || p.value > q.value)
  }

  /** No entry is outranked by a later one. */
  ghost predicate Ranked(s: seq<Location>) {
    forall i, j :: 0 <= i < j < |s| ==> !Outranks(s[j].population, s[i].population)
  }

  /** A ranked list has its known populations in non-increasing order and no
      unknown population before a known one; and any list with both of these
      properties is ranked. */
  lemma RankedMeans(s: seq<Location>)
    ensures Ranked(s) <==>
      (forall i, j :: 0 <= i < j < |s| && s[i].population.Some? && s[j].population.Some? ==>
         s[i].population.value >= s[j].population.value)
      && (forall i, j :: 0 <= i < j < |s| && s[i].population.None? ==> s[j].population.None?)
  {
  }

  /** Insert `x` into `s` from the back: it moves before every entry it strictly
      outranks, so it stays after entries whose population equals its own. */
  function InsertRanked(s: seq<Location>, x: Location): (r: seq<Location>)
    ensures |r| == |s| + 1
  {
    if s == [] || !Outranks(x.population, s[|s| - 1].population) then s + [x]
    else InsertRanked(s[..|s| - 1], x) + [s[|s| - 1]]
  }

  /** The stable sort of `results.sort_by(...)`, as insertion from left to right. */
  function RankByPopulation(s: seq<Location>): (r: seq<Location>)
    ensures |r| == |s|
  {
    if s == [] then [] else InsertRanked(RankByPopulation(s[..|s| - 1]), s[|s| - 1])
  }

  /** The entries of `s` whose population is `p`, in their order in `s`. */
  function WithPopulation(s: seq<Location>, p: Option<u32>): seq<Location> {
    if s == [] then []
    else WithPopulation(s[..|s| - 1], p) + (if s[|s| - 1].population == p then [s[|s| - 1]] else [])
  }

  lemma {:induction false} InsertRankedPermutes(s: seq<Location>, x: Location)
    ensures multiset(InsertRanked(s, x)) == multiset(s) + multiset{x}
    decreases |s|
  {
    if s != [] && Outranks(x.population, s[|s| - 1].population) {
      var init, last := s[..|s| - 1], s[|s| - 1];
      InsertRankedPermutes(init, x);
      assert s == init + [last];
    }
  }

  /** Every entry of an insertion is `x` or an entry of `s`. */
  lemma InsertRankedMembers(s: seq<Location>, x: Location, k: nat)
    requires k < |s| + 1
    ensures InsertRanked(s, x)[k] == x || InsertRanked(s, x)[k] in s
  {
    var r := InsertRanked(s, x);
    InsertRankedPermutes(s, x);
    assert r[k] in multiset(r);
  }

  lemma {:induction false} InsertRankedKeepsRanked(s: seq<Location>, x: Location)
    requires Ranked(s)
    ensures Ranked(InsertRanked(s, x))
    decreases |s|
  {
    var r := InsertRanked(s, x);
    if s == [] || !Outranks(x.population, s[|s| - 1].population) {
      assert r == s + [x];
      forall i, j | 0 <= i < j < |r|
        ensures !Outranks(r[j].population, r[i].population)
      {
        if j == |s| && i < |s| - 1 {
          assert !Outranks(s[|s| - 1].population, s[i].population);
        }
      }
    } else {
      var init, last := s[..|s| - 1], s[|s| - 1];
      InsertRankedKeepsRanked(init, x);
      var t := InsertRanked(init, x);
      assert r == t + [last];
      forall i, j | 0 <= i < j < |r|
        ensures !Outranks(r[j].population, r[i].population)
      {
        if j == |t| {
          InsertRankedMembers(init, x, i);
          if r[i] != x {
            var k :| 0 <= k < |init| && init[k] == r[i];
            assert s[k] == r[i];
          }
        }
      }
    }
  }

  lemma {:induction false} InsertRankedStable(s: seq<Location>, x: Location, p: Option<u32>)
    ensures WithPopulation(InsertRanked(s, x), p)
            == WithPopulation(s, p) + (if x.population == p then [x] else [])
    decreases |s|
  {
    if s != [] && Outranks(x.population, s[|s| - 1].population) {
      var init, last := s[..|s| - 1], s[|s| - 1];
      InsertRankedStable(init, x, p);
      var t := InsertRanked(init, x);
      WithPopulationSnoc(t, last, p);
      if x.population == p {
        assert last.population != p;
        assert WithPopulation(InsertRanked(s, x), p) == WithPopulation(init, p) + [x];
      } else {
        assert WithPopulation(InsertRanked(s, x), p) == WithPopulation(s, p);
      }
    } else {
      WithPopulationSnoc(s, x, p);
    }
  }

  lemma WithPopulationSnoc(s: seq<Location>, y: Location, p: Option<u32>)
    ensures WithPopulation(s + [y], p) == WithPopulation(s, p) + (if y.population == p then [y] else [])
  {
    assert (s + [y])[..|s|] == s;
  }

  /** The ranking is a permutation of its input. */
  lemma {:induction false} RankPermutes(s: seq<Location>)
    ensures multiset(RankByPopulation(s)) == multiset(s)
    decreases |s|
  {
    if s != [] {
      var init, last := s[..|s| - 1], s[|s| - 1];
      RankPermutes(init);
      InsertRankedPermutes(RankByPopulation(init), last);
      assert s == init + [last];
    }
  }

  /** The ranking puts larger known populations first and unknown ones last. */
  lemma {:induction false} RankIsRanked(s: seq<Location>)
    ensures Ranked(RankByPopulation(s))
    decreases |s|
  {
    if s != [] {
      RankIsRanked(s[..|s| - 1]);
      InsertRankedKeepsRanked(RankByPopulation(s[..|s| - 1]), s[|s| - 1]);
    }
  }

  /** The ranking is stable: entries with the same population keep their input order. */
  lemma {:induction false} RankIsStable(s: seq<Location>, p: Option<u32>)
    ensures WithPopulation(RankByPopulation(s), p) == WithPopulation(s, p)
    decreases |s|
  {
    if s != [] {
      RankIsStable(s[..|s| - 1], p);
      InsertRankedStable(RankByPopulation(s[..|s| - 1]), s[|s| - 1], p);
    }
  }

  /** Inserting `x` lands it at `j` exactly when it outranks every entry from
      `j` on and does not outrank the entry just before `j`. */
  lemma {:induction false} InsertRankedAt(s: seq<Location>, j: nat, x: Location)
    requires j <= |s|
    requires forall k :: j <= k < |s| ==> Outranks(x.population, s[k].population)
    requires j == 0 || !Outranks(x.population, s[j - 1].population)
    ensures InsertRanked(s, x) == s[..j] + [x] + s[j..]
    decreases |s|
  {
    if j < |s| {
      var init, last := s[..|s| - 1], s[|s| - 1];
      assert Outranks(x.population, last.population);
      assert InsertRanked(s, x) == InsertRanked(init, x) + [last];
      forall k | j <= k < |init| ensures Outranks(x.population, init[k].population) {
        assert init[k] == s[k];
      }
      assert j > 0 ==> init[j - 1] == s[j - 1];
      InsertRankedAt(init, j, x);
      assert init[..j] == s[..j];
      assert init[j..] + [last] == s[j..];
    } else {
      assert s[..j] == s && s[j..] == [];
    }
  }

  /** The array contents after one insertion step, described entry by entry:
      the first `j` entries of the prefix `s[..i]`, then `x`, then the rest of
      that prefix shifted up by one, then the untouched suffix. */
  lemma ShiftedLayout(s: seq<Location>, t: seq<Location>, i: nat, j: nat, x: Location)
    requires j <= i < |s| == |t|
    requires forall k :: 0 <= k < j ==> t[k] == s[k]
    requires t[j] == x
    requires forall k :: j < k <= i ==> t[k] == s[k - 1]
    requires forall k :: i < k < |t| ==> t[k] == s[k]
    ensures t == s[..i][..j] + [x] + s[..i][j..] + s[i + 1..]
  {
    var front := s[..j] + [x];
    var back := s[j..i] + s[i + 1..];
    assert |front| == j + 1;
    forall k | 0 <= k < |t|
      ensures t[k] == (front + back)[k]
    {
      if k <= j {
        assert (front + back)[k] == front[k];
      } else {
        assert (front + back)[k] == back[k - j - 1];
      }
    }
    assert s[..i][..j] == s[..j] && s[..i][j..] == s[j..i];
  }

  /** One step of the sort: move `a[i]` back past the entries of the ranked
      prefix `a[..i]` that it outranks, shifting them up by one. */
  method InsertIntoPrefix(a: array<Location>, i: nat)
    requires i < a.Length
    modifies a
    ensures a[..] == InsertRanked(old(a[..i]), old(a[i])) + old(a[i + 1..])
  {
    ghost var s := a[..];
    var x := a[i];
    var j := i;
    while j > 0 && Outranks(x.population, a[j - 1].population)
      invariant 0 <= j <= i
      invariant forall k :: 0 <= k < j ==> a[k] == s[k]
      invariant forall k :: j < k <= i ==> a[k] == s[k - 1]
      invariant forall k :: i < k < a.Length ==> a[k] == s[k]
      invariant forall k :: j <= k < i ==> Outranks(x.population, s[k].population)
    {
      a[j] := a[j - 1];
      j := j - 1;
    }
    a[j] := x;
    ShiftedLayout(s, a[..], i, j, x);
    ghost var sorted := s[..i];
    forall k | j <= k < |sorted| ensures Outranks(x.population, sorted[k].population) {
      assert sorted[k] == s[k];
    }
    InsertRankedAt(sorted, j, x);
  }

  /** `results.sort_by(|a, b| b.population.partial_cmp(&a.population).unwrap())`:
      a stable insertion sort of the array, in place. */
  method SortByPopulation(a: array<Location>)
    modifies a
    ensures a[..] == RankByPopulation(old(a[..]))
  {
    ghost var input := a[..];
    var i := 0;
    while i < a.Length
      invariant 0 <= i <= a.Length
      invariant a[..i] == RankByPopulation(input[..i])
      invariant a[i..] == input[i..]
    {
      InsertIntoPrefix(a, i);
      assert input[..i + 1][..i] == input[..i];
      assert a[..i + 1] == RankByPopulation(input[..i + 1]);
      i := i + 1;
    }
    assert input[..a.Length] == input;
  }
}
