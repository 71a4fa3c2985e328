/**
 * The balance tracker: the total value of the coins matching a query
 * that are alive at a height, answered from a height-to-balance cache
 * when a cached neighbour is near, or from scratch otherwise.
 */
module Balance {
  import opened Wrappers
  import opened Codec
  import opened Structs
  import opened Schema
  import opened Query

  /** `u64::MAX`, the height the neighbour lookups fall back to. */
  const U64_MAX: nat := 0xFFFF_FFFF_FFFF_FFFF

  /**
   * Heights reach SQLite as `i64`; every height the tracker is asked
   * about, and so every cached height, lies below this bound.
   */
  const HEIGHT_LIMIT: nat := 0x8000_0000_0000_0000

  // ---------------------------------------------------------------------
  // The folds over query results.

  /** The decoded coins a query returns, on rows that always decode. */
  function Items(rows: seq<CoinRow>, cs: seq<Clause>): seq<CoinInfo>
    requires RowsWF(rows)
  {
    SelectedRowsDecode(rows, cs);
    DecodeRows(Select(rows, cs)).value
  }

  /** The total value of the decoded coins. */
  function SumValues(items: seq<CoinInfo>): nat
  {
    if items == [] then 0
    else SumValues(items[..|items| - 1]) + items[|items| - 1].coinData.value
  }

  function CreatedRange(start: Height, end: Height): seq<Clause>
  {
    RangeClauses(CreateHeight, MapHeight(Included(start + 1)), MapHeight(Included(end)))
  }

  function SpentRange(start: Height, end: Height): seq<Clause>
  {
    RangeClauses(SpendHeight, MapHeight(Included(start + 1)), MapHeight(Included(end)))
  }

  /**
   * `balance_diff(start, end)`: the value of the matching coins created in
   * `start+1..=end`, minus the value of those spent in the same range.
   */
  function BalanceDiff(rows: seq<CoinRow>, cs: seq<Clause>, start: Height, end: Height): int
    requires RowsWF(rows)
  {
    SumValues(Items(rows, cs + CreatedRange(start, end)))
      - SumValues(Items(rows, cs + SpentRange(start, end)))
  }

  function UpTo(h: Height): seq<Clause>
  {
    RangeClauses(CreateHeight, MapHeight(Unbounded), MapHeight(Included(h)))
  }

  /**
   * The from-scratch balance at `h`: matching coins created at or below
   * `h` that are unspent, plus those created at or below `h` and spent
   * from `h+1` on.
   */
  function ScratchBalance(rows: seq<CoinRow>, cs: seq<Clause>, h: Height): nat
    requires RowsWF(rows)
  {
    SumValues(Items(rows, cs + UpTo(h) + [IsNull(SpendTxhash)]))
      + SumValues(Items(rows, cs + UpTo(h) + RangeClauses(SpendHeight, MapHeight(Included(h + 1)), MapHeight(Unbounded))))
  }

  // ---------------------------------------------------------------------
  // Reference definitions, row by row.

  function Amount(r: CoinRow): nat
  {
    FromBE(r.value)
  }

  /** The total amount of the rows satisfying `p`. */
  function SumWhere(rows: seq<CoinRow>, p: CoinRow -> bool): nat
  {
    if rows == [] then 0
    else
      var last := rows[|rows| - 1];
      SumWhere(rows[..|rows| - 1], p) + (if p(last) then Amount(last) else 0)
  }

  /** A coin is alive at `h` when it exists at `h` and has not been spent by `h`. */
  predicate AliveAt(r: CoinRow, h: Height)
  {
    r.createHeight <= h && (r.spendHeight.None? || r.spendHeight.value > h)
  }

  predicate CreatedIn(r: CoinRow, start: Height, end: Height)
  {
    start < r.createHeight <= end
  }

  predicate SpentIn(r: CoinRow, start: Height, end: Height)
  {
    r.spendHeight.Some? && start < r.spendHeight.value <= end
  }

  /** The balance at `h`: the value of the matching coins alive at `h`. */
  function Alive(rows: seq<CoinRow>, cs: seq<Clause>, h: Height): nat
  {
    SumWhere(rows, r => HoldsAll(cs, r) && AliveAt(r, h))
  }

  function CreatedValue(rows: seq<CoinRow>, cs: seq<Clause>, start: Height, end: Height): nat
  {
    SumWhere(rows, r => HoldsAll(cs, r) && CreatedIn(r, start, end))
  }

  function SpentValue(rows: seq<CoinRow>, cs: seq<Clause>, start: Height, end: Height): nat
  {
    SumWhere(rows, r => HoldsAll(cs, r) && SpentIn(r, start, end))
  }

  // ---------------------------------------------------------------------
  // Sums.

  lemma {:induction false} SumWhereExt(rows: seq<CoinRow>, p: CoinRow -> bool, q: CoinRow -> bool)
    requires forall r | r in rows :: p(r) == q(r)
    ensures SumWhere(rows, p) == SumWhere(rows, q)
  {
    if rows != [] {
      var init := rows[..|rows| - 1];
      assert forall r | r in init :: r in rows;
      SumWhereExt(init, p, q);
      assert rows[|rows| - 1] in rows;
    }
  }

  /** The sums over two disjoint conditions add up to the sum over either. */
  lemma {:induction false} SumWhereUnion(rows: seq<CoinRow>, p: CoinRow -> bool, q: CoinRow -> bool, u: CoinRow -> bool)
    requires forall r | r in rows :: !(p(r) && q(r)) && (u(r) == (p(r) || q(r)))
    ensures SumWhere(rows, p) + SumWhere(rows, q) == SumWhere(rows, u)
  {
    if rows != [] {
      var init := rows[..|rows| - 1];
      assert forall r | r in init :: r in rows;
      SumWhereUnion(init, p, q, u);
      assert rows[|rows| - 1] in rows;
    }
  }

  /** One more row adds its amount to the sum of a selection exactly when it is selected. */
  lemma SumSelectSnoc(init: seq<CoinRow>, last: CoinRow, cs: seq<Clause>)
    requires RowsWF(init + [last])
    ensures RowsWF(init)
    ensures SumValues(Items(init + [last], cs))
         == SumValues(Items(init, cs)) + (if HoldsAll(cs, last) then Amount(last) else 0)
  {
    var rows := init + [last];
    assert forall r | r in init :: r in rows;
    assert last in rows;
    assert rows[..|rows| - 1] == init;
    SelectedRowsDecode(init, cs);
    SelectedRowsDecode(rows, cs);
    SelectSnoc(init, last, cs);
    if HoldsAll(cs, last) {
      var pre := Select(init, cs);
      DecodeRowsSnoc(pre, last);
      DecodeFaithful(last);
      assert RowWF(last);
      var d := Decode(last).value;
      assert d.coinData.value == Amount(last);
      var items := DecodeRows(pre).value + [d];
      assert DecodeRows(pre + [last]) == Ok(items);
      assert items[..|items| - 1] == DecodeRows(pre).value;
      assert Items(rows, cs) == items;
      assert Items(init, cs) == DecodeRows(pre).value;
      assert SumValues(items) == SumValues(DecodeRows(pre).value) + d.coinData.value;
    } else {
      assert Select(rows, cs) == Select(init, cs);
    }
  }

  /** The sum over a selection is the sum over the rows satisfying its clauses. */
  lemma {:induction false} SumSelect(rows: seq<CoinRow>, cs: seq<Clause>)
    requires RowsWF(rows)
    ensures SumValues(Items(rows, cs)) == SumWhere(rows, r => HoldsAll(cs, r))
  {
    if rows != [] {
      var init := rows[..|rows| - 1];
      var last := rows[|rows| - 1];
      assert rows == init + [last];
      SumSelectSnoc(init, last, cs);
      SumSelect(init, cs);
    }
  }

  /** Adding clauses to a query conjoins them to its condition. */
  lemma SumSelectConj(rows: seq<CoinRow>, cs: seq<Clause>, extra: seq<Clause>, q: CoinRow -> bool)
    requires RowsWF(rows)
    requires forall r | r in rows :: q(r) == (HoldsAll(cs, r) && HoldsAll(extra, r))
    ensures SumValues(Items(rows, cs + extra)) == SumWhere(rows, q)
  {
    SumSelect(rows, cs + extra);
    forall r | r in rows ensures HoldsAll(cs + extra, r) == q(r) {
      HoldsAllConcat(cs, extra, r);
    }
    SumWhereExt(rows, r => HoldsAll(cs + extra, r), q);
  }

  // ---------------------------------------------------------------------
  // What the two folds compute.

  /**
   * `balance_diff(start, end)` is the value of the matching coins created
   * in `(start, end]` minus the value of those spent in `(start, end]`.
   */
  lemma BalanceDiffMeaning(rows: seq<CoinRow>, cs: seq<Clause>, start: Height, end: Height)
    requires RowsWF(rows)
    ensures BalanceDiff(rows, cs, start, end) == CreatedValue(rows, cs, start, end) - SpentValue(rows, cs, start, end)
  {
    forall r | r in rows ensures HoldsAll(CreatedRange(start, end), r) == CreatedIn(r, start, end) {
      CreateHeightRangeSelects(r, Included(start + 1), Included(end));
    }
    SumSelectConj(rows, cs, CreatedRange(start, end), r => HoldsAll(cs, r) && CreatedIn(r, start, end));
    forall r | r in rows ensures HoldsAll(SpentRange(start, end), r) == SpentIn(r, start, end) {
      SpendHeightRangeSelects(r, Included(start + 1), Included(end));
    }
    SumSelectConj(rows, cs, SpentRange(start, end), r => HoldsAll(cs, r) && SpentIn(r, start, end));
  }

  /**
   * The from-scratch sum is the value of the matching coins alive at `h`:
   * created at or below `h`, and unspent or spent above `h`.
   */
  lemma ScratchMeaning(rows: seq<CoinRow>, cs: seq<Clause>, h: Height)
    requires RowsWF(rows)
    ensures ScratchBalance(rows, cs, h) == Alive(rows, cs, h)
  {
    var unspentUpTo := UpTo(h) + [IsNull(SpendTxhash)];
    var spentLater := UpTo(h) + RangeClauses(SpendHeight, MapHeight(Included(h + 1)), MapHeight(Unbounded));
    var p := (r: CoinRow) => r.createHeight <= h && r.spendTxhash.None?;
    var q := (r: CoinRow) => r.createHeight <= h && r.spendHeight.Some? && r.spendHeight.value >= h + 1;
    forall r | r in rows
      ensures HoldsAll(unspentUpTo, r) == p(r)
      ensures HoldsAll(spentLater, r) == q(r)
    {
      CreateHeightRangeSelects(r, Unbounded, Included(h));
      SpendHeightRangeSelects(r, Included(h + 1), Unbounded);
      HoldsAllConcat(UpTo(h), [IsNull(SpendTxhash)], r);
      HoldsAllSingle(IsNull(SpendTxhash), r);
      HoldsAllConcat(UpTo(h), RangeClauses(SpendHeight, MapHeight(Included(h + 1)), MapHeight(Unbounded)), r);
    }
    assert cs + UpTo(h) + [IsNull(SpendTxhash)] == cs + unspentUpTo;
    assert cs + UpTo(h) + RangeClauses(SpendHeight, MapHeight(Included(h + 1)), MapHeight(Unbounded)) == cs + spentLater;
    SumSelectConj(rows, cs, unspentUpTo, r => HoldsAll(cs, r) && p(r));
    SumSelectConj(rows, cs, spentLater, r => HoldsAll(cs, r) && q(r));
    forall r | r in rows ensures r.spendTxhash.None? == r.spendHeight.None? {
      assert RowWF(r);
    }
    SumWhereUnion(rows, r => HoldsAll(cs, r) && p(r), r => HoldsAll(cs, r) && q(r), r => HoldsAll(cs, r) && AliveAt(r, h));
  }

  /**
   * The balance moves between two heights by exactly the diff between
   * them: `balance(b) = balance(a) + diff(a, b)` for `a <= b`. This rests on
   * a coin never being spent below its creation height.
   */
  lemma BalanceStep(rows: seq<CoinRow>, cs: seq<Clause>, a: Height, b: Height)
    requires RowsWF(rows) && a <= b
    ensures Alive(rows, cs, b) == Alive(rows, cs, a) + CreatedValue(rows, cs, a, b) - SpentValue(rows, cs, a, b)
  {
    var either := (r: CoinRow) => HoldsAll(cs, r) && r.createHeight <= b && (r.spendHeight.None? || r.spendHeight.value > a);
    forall r | r in rows
      ensures r.spendHeight.Some? ==> r.spendHeight.value >= r.createHeight
    {
      assert RowWF(r);
    }
    SumWhereUnion(rows, r => HoldsAll(cs, r) && AliveAt(r, b), r => HoldsAll(cs, r) && SpentIn(r, a, b), either);
    SumWhereUnion(rows, r => HoldsAll(cs, r) && AliveAt(r, a), r => HoldsAll(cs, r) && CreatedIn(r, a, b), either);
  }

  /** The same, in terms of the two folds the tracker evaluates. */
  lemma ScratchStep(rows: seq<CoinRow>, cs: seq<Clause>, a: Height, b: Height)
    requires RowsWF(rows) && a <= b
    ensures ScratchBalance(rows, cs, b) == ScratchBalance(rows, cs, a) + BalanceDiff(rows, cs, a, b)
  {
    ScratchMeaning(rows, cs, a);
    ScratchMeaning(rows, cs, b);
    BalanceDiffMeaning(rows, cs, a, b);
    BalanceStep(rows, cs, a, b);
  }

  function AbsDiff(a: nat, b: nat): nat
  {
    if a < b then b - a else a - b
  }

  /**
   * With a non-empty cache not holding `h`, the neighbour `balance_at`
   * picks is a real cached height, never the `u64::MAX` fallback: heights
   * below 2^63 are nearer to each other than to `u64::MAX`.
   */
  lemma NeighbourExists(cache: map<nat, int>, h: nat, next: nat, prev: nat)
    requires cache != map[] && h !in cache && h < HEIGHT_LIMIT
    requires forall j | j in cache :: j < HEIGHT_LIMIT
    requires next == U64_MAX ==> forall j | j in cache :: j <= h
    requires next != U64_MAX ==> next in cache && next > h
    requires prev == U64_MAX ==> forall j | j in cache :: j >= h
    requires prev != U64_MAX ==> prev in cache && prev < h
    ensures AbsDiff(h, next) < AbsDiff(h, prev) ==> next != U64_MAX
    ensures AbsDiff(h, next) >= AbsDiff(h, prev) ==> prev != U64_MAX
  {
    var j :| j in cache;
    assert j != h;
  }

  /** A later cached balance, less the diff back to `h`, is the balance at `h`. */
  lemma BackFromNext(rows: seq<CoinRow>, cs: seq<Clause>, h: Height, next: Height)
    requires RowsWF(rows) && h <= next
    ensures Alive(rows, cs, next) - BalanceDiff(rows, cs, h, next) == Alive(rows, cs, h)
  {
    BalanceDiffMeaning(rows, cs, h, next);
    BalanceStep(rows, cs, h, next);
  }

  /** An earlier cached balance, plus the diff up to `h`, is the balance at `h`. */
  lemma OnFromPrev(rows: seq<CoinRow>, cs: seq<Clause>, prev: Height, h: Height)
    requires RowsWF(rows) && prev <= h
    ensures Alive(rows, cs, prev) + BalanceDiff(rows, cs, prev, h) == Alive(rows, cs, h)
  {
    BalanceDiffMeaning(rows, cs, prev, h);
    BalanceStep(rows, cs, prev, h);
  }

  // ---------------------------------------------------------------------
  /**
   * `(k, v)` is what `cache.range(h+1..).next()` yields: the least cached
   * height above `h` with its balance, `(u64::MAX, 0)` standing for none.
   */
  ghost predicate NearestAbove(cache: map<nat, int>, h: nat, k: nat, v: int) {
    if k == U64_MAX then v == 0 && forall j | j in cache :: j <= h
    else k in cache && k > h && v == cache[k] && forall j | j in cache && j > h :: j >= k
  }

  /**
   * `(k, v)` is what `cache.range(..h).next_back()` yields: the greatest
   * cached height below `h` with its balance, `(u64::MAX, 0)` for none.
   */
  ghost predicate NearestBelow(cache: map<nat, int>, h: nat, k: nat, v: int) {
    if k == U64_MAX then v == 0 && forall j | j in cache :: j >= h
    else k in cache && k < h && v == cache[k] && forall j | j in cache && j < h :: j <= k
  }

  /** Each neighbour lookup has an answer when every cached height is below 2^63. */
  lemma NearestExists(cache: map<nat, int>, h: nat)
    requires forall j | j in cache :: j < HEIGHT_LIMIT
    ensures exists k, v :: NearestAbove(cache, h, k, v)
    ensures exists k, v :: NearestBelow(cache, h, k, v)
  {
    var above := set j | j in cache && j > h;
    if above == {} {
      forall j | j in cache ensures j <= h {
        assert j !in above;
      }
      assert NearestAbove(cache, h, U64_MAX, 0);
    } else {
      MinExists(above);
      var m :| m in above && forall x | x in above :: m <= x;
      forall j | j in cache && j > h ensures j >= m {
        assert j in above;
      }
      assert NearestAbove(cache, h, m, cache[m]);
    }
    var below := set j | j in cache && j < h;
    if below == {} {
      forall j | j in cache ensures j >= h {
        assert j !in below;
      }
      assert NearestBelow(cache, h, U64_MAX, 0);
    } else {
      MaxExists(below);
      var m :| m in below && forall x | x in below :: x <= m;
      forall j | j in cache && j < h ensures j <= m {
        assert j in below;
      }
      assert NearestBelow(cache, h, m, cache[m]);
    }
  }

  /** Each neighbour lookup has at most one answer. */
  lemma NearestUnique(cache: map<nat, int>, h: nat, k1: nat, v1: int, k2: nat, v2: int)
    ensures NearestAbove(cache, h, k1, v1) && NearestAbove(cache, h, k2, v2) ==> k1 == k2 && v1 == v2
    ensures NearestBelow(cache, h, k1, v1) && NearestBelow(cache, h, k2, v2) ==> k1 == k2 && v1 == v2
  {
  }

  // The tracker.

  /**
   * A balance tracker over the coins a query matches. `rows` is the coin
   * table and `clauses` the query's bound clauses, fixed when the tracker
   * takes the query over; `cache` is the height-to-balance map.
   */
  class BalanceTracker {
    const rows: seq<CoinRow>
    const clauses: seq<Clause>
    var cache: map<nat, int>

    /** Every cached entry is the true balance at its height. */
    ghost predicate Valid()
      reads this
    {
      && RowsWF(rows)
      && (forall k | k in cache :: k < HEIGHT_LIMIT && cache[k] == Alive(rows, clauses, k))
    }

    /** `BalanceTracker::new`: an empty cache. */
    constructor (query: CoinQuery)
      requires query.Valid() && RowsWF(query.rows)
      ensures Valid()
      ensures rows == query.rows && clauses == query.Clauses() && cache == map[]
    {
      rows := query.rows;
      clauses := query.Clauses();
      cache := map[];
    }

    /**
     * `cache.range(h+1..).next()`: the least cached height above `h` with
     * its balance, or `(u64::MAX, 0)` when there is none.
     */
    method NextEntry(h: nat) returns (k: nat, v: int)
      requires Valid()
      ensures NearestAbove(cache, h, k, v)
    {
      k, v := U64_MAX, 0;
      var rest := cache.Keys;
      while rest != {}
        invariant rest <= cache.Keys
        invariant k == U64_MAX ==> v == 0 && forall j | j in cache && j !in rest :: j <= h
        invariant k != U64_MAX ==> k in cache && k > h && v == cache[k]
        invariant k != U64_MAX ==> forall j | j in cache && j !in rest && j > h :: j >= k
        decreases rest
      {
        var j :| j in rest;
        if j > h && (k == U64_MAX || j < k) {
          k, v := j, cache[j];
        }
        rest := rest - {j};
      }
    }

    /**
     * `cache.range(..h).next_back()`: the greatest cached height below `h`
     * with its balance, or `(u64::MAX, 0)` when there is none.
     */
    method PrevEntry(h: nat) returns (k: nat, v: int)
      requires Valid()
      ensures NearestBelow(cache, h, k, v)
    {
      k, v := U64_MAX, 0;
      var rest := cache.Keys;
      while rest != {}
        invariant rest <= cache.Keys
        invariant k == U64_MAX ==> v == 0 && forall j | j in cache && j !in rest :: j >= h
        invariant k != U64_MAX ==> k in cache && k < h && v == cache[k]
        invariant k != U64_MAX ==> forall j | j in cache && j !in rest && j < h :: j <= k
        decreases rest
      {
        var j :| j in rest;
        if j < h && (k == U64_MAX || j > k) {
          k, v := j, cache[j];
        }
        rest := rest - {j};
      }
    }

    /**
     * `balance_at(h)`: always the balance at `h`. A cached height is
     * answered as cached; an empty cache is filled from scratch; otherwise
     * the nearer neighbour is adjusted by the diff (the next one only when
     * strictly nearer), and the result is cached only when it differs from
     * both neighbours' balances.
     */
    method BalanceAt(h: nat) returns (r: Option<int>)
      requires Valid() && h < HEIGHT_LIMIT
      modifies this
      ensures Valid()
      ensures r == Some(Alive(rows, clauses, h))
      ensures h in old(cache) ==> cache == old(cache)
      ensures old(cache) == map[] ==> cache == map[h := Alive(rows, clauses, h)]
      ensures cache == old(cache) || cache == old(cache)[h := Alive(rows, clauses, h)]
      ensures h !in old(cache) && old(cache) != map[] ==>
        forall nk, nv, pk, pv | NearestAbove(old(cache), h, nk, nv) && NearestBelow(old(cache), h, pk, pv) ::
          var b := Alive(rows, clauses, h);
          cache == if b != pv && b != nv then old(cache)[h := b] else old(cache)
    {
      if h in cache {
        return Some(cache[h]);
      }
      if cache == map[] {
        var result := ScratchBalance(rows, clauses, h);
        ScratchMeaning(rows, clauses, h);
        cache := cache[h := result];
        return Some(result);
      }
      var nextHeight, nextBalance := NextEntry(h);
      var prevHeight, prevBalance := PrevEntry(h);
      NeighbourExists(cache, h, nextHeight, prevHeight);
      var balance: int;
      if AbsDiff(h, nextHeight) < AbsDiff(h, prevHeight) {
        var diff := BalanceDiff(rows, clauses, h, nextHeight);
        BackFromNext(rows, clauses, h, nextHeight);
        balance := nextBalance - diff;
      } else {
        var diff := BalanceDiff(rows, clauses, prevHeight, h);
        OnFromPrev(rows, clauses, prevHeight, h);
        balance := prevBalance + diff;
      }
      forall nk, nv, pk, pv | NearestAbove(cache, h, nk, nv) && NearestBelow(cache, h, pk, pv)
        ensures nv == nextBalance && pv == prevBalance
      {
        NearestUnique(cache, h, nk, nv, nextHeight, nextBalance);
        NearestUnique(cache, h, pk, pv, prevHeight, prevBalance);
      }
      if balance != prevBalance && balance != nextBalance {
        cache := cache[h := balance];
      }
      return Some(balance);
    }
  }
}
