/**
 * The query layer over `coins`: a builder that accumulates WHERE-clause
 * fragments with `?` placeholders and the parameters that fill them, and
 * an `Iter` that runs `select * from coins where <fragments joined by
 * " and ">` and decodes every selected row.
 */
module Query {
  import opened Wrappers
  import opened Codec
  import opened Structs
  import opened Schema

  /**
   * An SQLite value. Hashes and addresses reach the database as their
   * `to_string` text; `Text(code)` stands for that text, `code` being the
   * hash or address it spells (the encoding is injective).
   */
  datatype SqlValue = Null | Int(i: int) | Text(code: nat) | Blob(bytes: seq<Byte>)

  /** The columns of `coins`. */
  datatype Field =
    | CreateTxhash | CreateIndex | CreateHeight
    | SpendTxhash | SpendIndex | SpendHeight
    | Value | Denom | Covhash | AdditionalData

  function FieldName(f: Field): string
  {
    match f
    case CreateTxhash => "create_txhash"
    case CreateIndex => "create_index"
    case CreateHeight => "create_height"
    case SpendTxhash => "spend_txhash"
    case SpendIndex => "spend_index"
    case SpendHeight => "spend_height"
    case Value => "value"
    case Denom => "denom"
    case Covhash => "covhash"
    case AdditionalData => "additional_data"
  }

  function OptText(o: Option<nat>): SqlValue
  {
    match o
    case None => Null
    case Some(x) => Text(x)
  }

  function OptInt(o: Option<nat>): SqlValue
  {
    match o
    case None => Null
    case Some(x) => Int(x)
  }

  /** The value stored in column `f` of row `r`. */
  function Column(r: CoinRow, f: Field): SqlValue
  {
    match f
    case CreateTxhash => Text(r.createTxhash)
    case CreateIndex => Int(r.createIndex)
    case CreateHeight => Int(r.createHeight)
    case SpendTxhash => OptText(r.spendTxhash)
    case SpendIndex => OptInt(r.spendIndex)
    case SpendHeight => OptInt(r.spendHeight)
    case Value => Blob(r.value)
    case Denom => Blob(r.denom)
    case Covhash => Text(r.covhash)
    case AdditionalData => Blob(r.additionalData)
  }

  /** SQLite's storage-class order: integers before text before blobs. */
  function ClassRank(v: SqlValue): int
  {
    match v
    case Null => 0
    case Int(_) => 1
    case Text(_) => 2
    case Blob(_) => 3
  }

  /**
   * SQLite's comparison of two non-NULL values of columns without type
   * affinity: by storage class first, then within the class (blobs by
   * `memcmp`, which is `LexCompare`).
   */
  function SqlCompare(a: SqlValue, b: SqlValue): (r: int)
    requires a != Null && b != Null
    ensures r == 0 <==> a == b
  {
    if ClassRank(a) != ClassRank(b) then Compare(ClassRank(a), ClassRank(b))
    else
      match a
      case Int(x) => Compare(x, b.i)
      // Text compares the injective codes, not SQLite's text order; this is
      // sound because text columns are only ever filtered by equality.
      case Text(x) => Compare(x, b.code)
      case Blob(x) => LexCompare(x, b.bytes)
  }

  /** A WHERE-clause fragment with its parameter bound. */
  datatype Clause =
    | Eq(field: Field, arg: SqlValue)
    | Ge(field: Field, arg: SqlValue)
    | Gt(field: Field, arg: SqlValue)
    | Le(field: Field, arg: SqlValue)
    | Lt(field: Field, arg: SqlValue)
    | IsNull(field: Field)

  /**
   * Whether a clause is TRUE of a row. A comparison with NULL on either
   * side is NULL, which a WHERE clause treats like FALSE.
   */
  predicate Holds(c: Clause, r: CoinRow)
  {
    var x := Column(r, c.field);
    if c.IsNull? then x == Null
    else
      x != Null && c.arg != Null &&
      var o := SqlCompare(x, c.arg);
      match c
      case Eq(_, _) => o == 0
      case Ge(_, _) => o >= 0
      case Gt(_, _) => o > 0
      case Le(_, _) => o <= 0
      case Lt(_, _) => o < 0
  }

  /** Clauses joined by ` and `: TRUE exactly when every clause is. */
  predicate HoldsAll(cs: seq<Clause>, r: CoinRow)
  {
    forall i | 0 <= i < |cs| :: Holds(cs[i], r)
  }

  lemma HoldsAllConcat(a: seq<Clause>, b: seq<Clause>, r: CoinRow)
    ensures HoldsAll(a + b, r) <==> HoldsAll(a, r) && HoldsAll(b, r)
  {
    if HoldsAll(a, r) && HoldsAll(b, r) {
      forall i | 0 <= i < |a + b| ensures Holds((a + b)[i], r) {
        if i >= |a| {
          assert (a + b)[i] == b[i - |a|];
        }
      }
    }
    if HoldsAll(a + b, r) {
      forall i | 0 <= i < |a| ensures Holds(a[i], r) {
        assert (a + b)[i] == a[i];
      }
      forall i | 0 <= i < |b| ensures Holds(b[i], r) {
        assert (a + b)[|a| + i] == b[i];
      }
    }
  }

  // ---------------------------------------------------------------------
  // The builder's state: fragments with placeholders, and parameters.

  datatype FilterOp = EqOp | GeOp | GtOp | LeOp | LtOp | IsNullOp

  /** One entry of the builder's `filters`: a column and an operator. */
  datatype Filter = Filter(field: Field, op: FilterOp)

  /** The text of a filter, as the builder formats it. */
  function Render(f: Filter): string
  {
    FieldName(f.field) + OpText(f.op)
  }

  function OpText(op: FilterOp): string
  {
    match op
    case EqOp => " == ?"
    case GeOp => " >= ?"
    case GtOp => " > ?"
    case LeOp => " <= ?"
    case LtOp => " < ?"
    case IsNullOp => " is null"
  }

  /** How many parameters a filter takes: one, unless it is an `is null` test. */
  function Arity(f: Filter): nat
  {
    if f.op == IsNullOp then 0 else 1
  }

  /** The number of placeholders across a list of filters. */
  function Placeholders(fs: seq<Filter>): nat
  {
    if fs == [] then 0 else Arity(fs[0]) + Placeholders(fs[1..])
  }

  lemma {:induction false} PlaceholdersConcat(a: seq<Filter>, b: seq<Filter>)
    ensures Placeholders(a + b) == Placeholders(a) + Placeholders(b)
  {
    if a == [] {
      assert a + b == b;
    } else {
      assert (a + b)[0] == a[0];
      assert (a + b)[1..] == a[1..] + b;
      PlaceholdersConcat(a[1..], b);
    }
  }

  /** Binds the parameters to the placeholders, left to right as SQLite does. */
  function Bind(fs: seq<Filter>, ps: seq<SqlValue>): (cs: seq<Clause>)
    requires Placeholders(fs) == |ps|
    ensures |cs| == |fs|
  {
    if fs == [] then []
    else
      var f := fs[0];
      if f.op == IsNullOp then [IsNull(f.field)] + Bind(fs[1..], ps)
      else
        var v := ps[0];
        var c := match f.op
          case EqOp => Eq(f.field, v)
          case GeOp => Ge(f.field, v)
          case GtOp => Gt(f.field, v)
          case LeOp => Le(f.field, v)
          case LtOp => Lt(f.field, v);
        [c] + Bind(fs[1..], ps[1..])
  }

  lemma {:induction false} BindConcat(fa: seq<Filter>, pa: seq<SqlValue>, fb: seq<Filter>, pb: seq<SqlValue>)
    requires Placeholders(fa) == |pa| && Placeholders(fb) == |pb|
    ensures Placeholders(fa + fb) == |pa + pb|
    ensures Bind(fa + fb, pa + pb) == Bind(fa, pa) + Bind(fb, pb)
  {
    PlaceholdersConcat(fa, fb);
    if fa == [] {
      assert fa + fb == fb && pa + pb == pb;
    } else {
      assert (fa + fb)[0] == fa[0];
      assert (fa + fb)[1..] == fa[1..] + fb;
      if fa[0].op == IsNullOp {
        BindConcat(fa[1..], pa, fb, pb);
      } else {
        assert (pa + pb)[0] == pa[0];
        assert (pa + pb)[1..] == pa[1..] + pb;
        BindConcat(fa[1..], pa[1..], fb, pb);
      }
    }
  }

  /** The parts joined with `" and "` between them, in order. */
  function Join(parts: seq<string>): string
  {
    if parts == [] then ""
    else if |parts| == 1 then parts[0]
    else parts[0] + " and " + Join(parts[1..])
  }

  function RenderAll(fs: seq<Filter>): (r: seq<string>)
    ensures |r| == |fs|
  {
    if fs == [] then [] else [Render(fs[0])] + RenderAll(fs[1..])
  }

  /** What follows `where` in the statement `iter` prepares. */
  function WhereClause(fs: seq<Filter>): string
  {
    Join(RenderAll(fs))
  }

  function CountChar(s: string, c: char): nat
  {
    if s == [] then 0 else (if s[0] == c then 1 else 0) + CountChar(s[1..], c)
  }

  lemma {:induction false} CountCharConcat(a: string, b: string, c: char)
    ensures CountChar(a + b, c) == CountChar(a, c) + CountChar(b, c)
  {
    if a == [] {
      assert a + b == b;
    } else {
      assert (a + b)[0] == a[0];
      assert (a + b)[1..] == a[1..] + b;
      CountCharConcat(a[1..], b, c);
    }
  }

  lemma {:induction false} CountCharAbsent(s: string, c: char)
    requires forall i | 0 <= i < |s| :: s[i] != c
    ensures CountChar(s, c) == 0
  {
    if s != [] {
      assert forall i | 0 <= i < |s[1..]| :: s[1..][i] == s[i + 1];
      CountCharAbsent(s[1..], c);
    }
  }

  lemma FieldNameHasNoPlaceholder(x: Field)
    ensures CountChar(FieldName(x), '?') == 0
  {
    CountCharAbsent(FieldName(x), '?');
  }

  lemma RenderedQuestionMarks(f: Filter)
    ensures CountChar(Render(f), '?') == Arity(f)
  {
    FieldNameHasNoPlaceholder(f.field);
    CountCharConcat(FieldName(f.field), OpText(f.op), '?');
    var t := OpText(f.op);
    if f.op == IsNullOp {
      CountCharAbsent(t, '?');
    } else {
      var pre := t[..|t| - 1];
      assert t == pre + "?";
      CountCharAbsent(pre, '?');
      CountCharConcat(pre, "?", '?');
      assert "?"[1..] == [];
    }
  }

  /**
   * The parameter count the builder keeps equals the number of `?`
   * characters in the WHERE clause it renders.
   */
  lemma {:induction false} PlaceholdersAreQuestionMarks(fs: seq<Filter>)
    ensures CountChar(WhereClause(fs), '?') == Placeholders(fs)
  {
    if |fs| == 1 {
      RenderedQuestionMarks(fs[0]);
    } else if |fs| > 1 {
      PlaceholdersAreQuestionMarks(fs[1..]);
      assert RenderAll(fs)[1..] == RenderAll(fs[1..]);
      RenderedQuestionMarks(fs[0]);
      CountCharConcat(Render(fs[0]) + " and ", WhereClause(fs[1..]), '?');
      CountCharConcat(Render(fs[0]), " and ", '?');
    }
  }

  /** With no filters the WHERE clause is empty and the statement is malformed. */
  lemma WhereClauseEmptyIff(fs: seq<Filter>)
    ensures WhereClause(fs) == [] <==> fs == []
  {
    if fs != [] {
      var r := RenderAll(fs);
      assert |Render(fs[0])| > 0;
      assert |fs| > 1 ==> |Join(r)| >= |r[0]|;
    }
  }

  // ---------------------------------------------------------------------
  // Range bounds.

  /** `std::ops::Bound` */
  datatype Bound<+T> = Included(T) | Excluded(T) | Unbounded

  function MapHeight(b: Bound<Height>): Bound<SqlValue>
  {
    match b
    case Included(h) => Included(Int(h))
    case Excluded(h) => Excluded(Int(h))
    case Unbounded => Unbounded
  }

  function MapValue(b: Bound<U128>): Bound<SqlValue>
  {
    match b
    case Included(v) => Included(Blob(ToBeBytes(v)))
    case Excluded(v) => Excluded(Blob(ToBeBytes(v)))
    case Unbounded => Unbounded
  }

  /** The filters `add_range_filter` pushes: the start bound's, then the end bound's. */
  function RangeFilters<T>(field: Field, start: Bound<T>, end: Bound<T>): (fs: seq<Filter>)
  {
    StartFilters(field, start) + EndFilters(field, end)
  }

  function StartFilters<T>(field: Field, start: Bound<T>): seq<Filter>
  {
    match start
    case Included(_) => [Filter(field, GeOp)]
    case Excluded(_) => [Filter(field, GtOp)]
    case Unbounded => []
  }

  function EndFilters<T>(field: Field, end: Bound<T>): seq<Filter>
  {
    match end
    case Included(_) => [Filter(field, LeOp)]
    case Excluded(_) => [Filter(field, LtOp)]
    case Unbounded => []
  }

  lemma PlaceholdersSingle(f: Filter)
    ensures Placeholders([f]) == Arity(f)
  {
    assert [f][1..] == [];
  }

  function BoundArg<T>(b: Bound<T>): seq<T>
  {
    match b
    case Included(v) => [v]
    case Excluded(v) => [v]
    case Unbounded => []
  }

  /** The parameters `add_range_filter` pushes. */
  function RangeParams<T>(start: Bound<T>, end: Bound<T>): (ps: seq<T>)
  {
    BoundArg(start) + BoundArg(end)
  }

  /** Whether `x` lies within the two bounds, read as numbers. */
  predicate InBounds(x: int, start: Bound<int>, end: Bound<int>)
  {
    AboveStart(x, start) && BelowEnd(x, end)
  }

  predicate AboveStart(x: int, start: Bound<int>)
  {
    match start
    case Included(v) => x >= v
    case Excluded(v) => x > v
    case Unbounded => true
  }

  predicate BelowEnd(x: int, end: Bound<int>)
  {
    match end
    case Included(v) => x <= v
    case Excluded(v) => x < v
    case Unbounded => true
  }

  function Bounded<T>(b: Bound<T>): nat
  {
    if b.Unbounded? then 0 else 1
  }

  /**
   * A range filter adds one parameterised fragment per bounded end: the
   * parameter count grows by 0, 1 or 2, matching its placeholders.
   */
  lemma RangeFilterArity<T>(field: Field, start: Bound<T>, end: Bound<T>)
    ensures |RangeParams(start, end)| == Bounded(start) + Bounded(end)
    ensures Placeholders(RangeFilters(field, start, end)) == Bounded(start) + Bounded(end)
    ensures |RangeFilters(field, start, end)| == Bounded(start) + Bounded(end)
  {
    PlaceholdersConcat(StartFilters(field, start), EndFilters(field, end));
    if !start.Unbounded? {
      PlaceholdersSingle(StartFilters(field, start)[0]);
    }
    if !end.Unbounded? {
      PlaceholdersSingle(EndFilters(field, end)[0]);
    }
  }

  /** The clauses a range filter contributes once its parameters are bound. */
  function RangeClauses(field: Field, start: Bound<SqlValue>, end: Bound<SqlValue>): (cs: seq<Clause>)
  {
    StartClauses(field, start) + EndClauses(field, end)
  }

  function StartClauses(field: Field, start: Bound<SqlValue>): seq<Clause>
  {
    match start
    case Included(v) => [Ge(field, v)]
    case Excluded(v) => [Gt(field, v)]
    case Unbounded => []
  }

  function EndClauses(field: Field, end: Bound<SqlValue>): seq<Clause>
  {
    match end
    case Included(v) => [Le(field, v)]
    case Excluded(v) => [Lt(field, v)]
    case Unbounded => []
  }

  lemma HoldsAllSingle(c: Clause, r: CoinRow)
    ensures HoldsAll([c], r) <==> Holds(c, r)
  {
    assert [c][0] == c;
  }

  /** The clauses of a range hold when the start clauses and the end clauses both do. */
  lemma HoldsRange(field: Field, start: Bound<SqlValue>, end: Bound<SqlValue>, r: CoinRow)
    ensures HoldsAll(RangeClauses(field, start, end), r)
        <==> ((match start
               case Included(v) => Holds(Ge(field, v), r)
               case Excluded(v) => Holds(Gt(field, v), r)
               case Unbounded => true)
              && (match end
                  case Included(v) => Holds(Le(field, v), r)
                  case Excluded(v) => Holds(Lt(field, v), r)
                  case Unbounded => true))
  {
    HoldsAllConcat(StartClauses(field, start), EndClauses(field, end), r);
    match start {
      case Included(v) => HoldsAllSingle(Ge(field, v), r);
      case Excluded(v) => HoldsAllSingle(Gt(field, v), r);
      case Unbounded =>
    }
    match end {
      case Included(v) => HoldsAllSingle(Le(field, v), r);
      case Excluded(v) => HoldsAllSingle(Lt(field, v), r);
      case Unbounded =>
    }
  }

  lemma BindRange(field: Field, start: Bound<SqlValue>, end: Bound<SqlValue>)
    ensures Placeholders(RangeFilters(field, start, end)) == |RangeParams(start, end)|
    ensures Bind(RangeFilters(field, start, end), RangeParams(start, end)) == RangeClauses(field, start, end)
  {
    RangeFilterArity(field, start, end);
    var fs, ps := RangeFilters(field, start, end), RangeParams(start, end);
    if |fs| == 2 {
      assert fs[1..] == [fs[1]] && ps[1..] == [ps[1]];
      assert fs[1..][1..] == [] && ps[1..][1..] == [];
    } else if |fs| == 1 {
      assert fs[1..] == [];
      assert fs[0].op == IsNullOp || ps[1..] == [];
    }
  }

  /**
   * `value_range` selects by numeric value: on a row holding a 16-byte
   * value, the bound clauses hold exactly when the decoded amount lies
   * within the bounds.
   */
  lemma ValueRangeSelectsByValue(r: CoinRow, start: Bound<U128>, end: Bound<U128>)
    requires |r.value| == 16
    ensures HoldsAll(RangeClauses(Value, MapValue(start), MapValue(end)), r)
        <==> InBounds(FromBeBytes(r.value), start, end)
  {
    HoldsAllConcat(StartClauses(Value, MapValue(start)), EndClauses(Value, MapValue(end)), r);
    ValueStartSelects(r, start);
    ValueEndSelects(r, end);
  }

  lemma ValueStartSelects(r: CoinRow, start: Bound<U128>)
    requires |r.value| == 16
    ensures HoldsAll(StartClauses(Value, MapValue(start)), r) <==> AboveStart(FromBeBytes(r.value), start)
  {
    match start {
      case Included(a) =>
        HoldsAllSingle(Ge(Value, Blob(ToBeBytes(a))), r);
        ValueOrder(r, a);
      case Excluded(a) =>
        HoldsAllSingle(Gt(Value, Blob(ToBeBytes(a))), r);
        ValueOrder(r, a);
      case Unbounded =>
    }
  }

  lemma ValueEndSelects(r: CoinRow, end: Bound<U128>)
    requires |r.value| == 16
    ensures HoldsAll(EndClauses(Value, MapValue(end)), r) <==> BelowEnd(FromBeBytes(r.value), end)
  {
    match end {
      case Included(a) =>
        HoldsAllSingle(Le(Value, Blob(ToBeBytes(a))), r);
        ValueOrder(r, a);
      case Excluded(a) =>
        HoldsAllSingle(Lt(Value, Blob(ToBeBytes(a))), r);
        ValueOrder(r, a);
      case Unbounded =>
    }
  }

  /** SQLite compares a stored value with an encoded bound as the numbers compare. */
  lemma ValueOrder(r: CoinRow, a: U128)
    requires |r.value| == 16
    ensures SqlCompare(Column(r, Value), Blob(ToBeBytes(a))) == Compare(FromBeBytes(r.value), a)
  {
    var v := FromBeBytes(r.value);
    EncodeDecode(r.value);
    Pow256Of16();
    assert r.value == ToBeBytes(v);
    EncodingPreservesOrder(v, a);
  }

  /** `create_height_range` passes its bounds through onto `create_height`. */
  lemma CreateHeightRangeSelects(r: CoinRow, start: Bound<Height>, end: Bound<Height>)
    ensures HoldsAll(RangeClauses(CreateHeight, MapHeight(start), MapHeight(end)), r)
        <==> InBounds(r.createHeight, start, end)
  {
    HoldsRange(CreateHeight, MapHeight(start), MapHeight(end), r);
  }

  /**
   * `spend_height_range` passes its bounds through onto `spend_height`; a
   * bounded range never selects an unspent row, whose `spend_height` is NULL.
   */
  lemma SpendHeightRangeSelects(r: CoinRow, start: Bound<Height>, end: Bound<Height>)
    ensures HoldsAll(RangeClauses(SpendHeight, MapHeight(start), MapHeight(end)), r)
        <==> if start.Unbounded? && end.Unbounded? then true
             else r.spendHeight.Some? && InBounds(r.spendHeight.value, start, end)
  {
    HoldsRange(SpendHeight, MapHeight(start), MapHeight(end), r);
  }

  // ---------------------------------------------------------------------
  // Selection.

  /** The rows of the scan, in scan order, that satisfy every clause. */
  function Select(rows: seq<CoinRow>, cs: seq<Clause>): (sel: seq<CoinRow>)
    ensures |sel| <= |rows|
  {
    if rows == [] then []
    else
      var last := rows[|rows| - 1];
      Select(rows[..|rows| - 1], cs) + (if HoldsAll(cs, last) then [last] else [])
  }

  lemma SelectSnoc(rows: seq<CoinRow>, r: CoinRow, cs: seq<Clause>)
    ensures Select(rows + [r], cs) == Select(rows, cs) + (if HoldsAll(cs, r) then [r] else [])
  {
    assert (rows + [r])[..|rows|] == rows;
  }

  /** A row is selected exactly when it is in the table and satisfies every clause. */
  lemma {:induction false} SelectMembership(rows: seq<CoinRow>, cs: seq<Clause>, r: CoinRow)
    ensures r in Select(rows, cs) <==> r in rows && HoldsAll(cs, r)
  {
    if rows != [] {
      var init := rows[..|rows| - 1];
      SelectMembership(init, cs, r);
      assert rows == init + [rows[|rows| - 1]];
    }
  }

  lemma {:induction false} SelectConcat(a: seq<CoinRow>, b: seq<CoinRow>, cs: seq<Clause>)
    ensures Select(a + b, cs) == Select(a, cs) + Select(b, cs)
  {
    if b != [] {
      var init := b[..|b| - 1];
      assert (a + b)[..|a + b| - 1] == a + init;
      SelectConcat(a, init, cs);
    } else {
      assert a + b == a;
    }
  }

  /**
   * Adding clauses narrows a selection exactly as filtering the narrower
   * result again would: a conjunction of filters is the intersection of
   * the filters applied one after the other.
   */
  lemma {:induction false} SelectCompose(rows: seq<CoinRow>, a: seq<Clause>, b: seq<Clause>)
    ensures Select(rows, a + b) == Select(Select(rows, a), b)
  {
    if rows != [] {
      var init := rows[..|rows| - 1];
      var last := rows[|rows| - 1];
      SelectCompose(init, a, b);
      HoldsAllConcat(a, b, last);
      var extra := if HoldsAll(a, last) then [last] else [];
      SelectConcat(Select(init, a), extra, b);
      if HoldsAll(a, last) {
        assert Select(extra, b) == (if HoldsAll(b, last) then [last] else []) by {
          assert extra[..0] == [];
        }
      }
    }
  }

  // ---------------------------------------------------------------------
  // Decoding rows.

  datatype CoinSpendInfo = CoinSpendInfo(spendTxhash: TxHash, spendIndex: nat, spendHeight: Height)

  datatype CoinInfo = CoinInfo(
    createTxhash: TxHash,
    createIndex: Byte,
    createHeight: Height,
    coinData: CoinData,
    spendInfo: Option<CoinSpendInfo>)

  /** Why `iter` panics. */
  datatype QueryError =
    | EmptyWhere          // no filters: `select * from coins where ` does not prepare
    | ValueWidth          // the value blob is not 16 bytes
    | MissingSpendColumn  // spend_txhash is set but spend_index or spend_height is NULL

  /** The row-to-`CoinInfo` conversion `iter` applies. */
  function Decode(r: CoinRow): Result<CoinInfo, QueryError>
  {
    if |r.value| != 16 then Err(ValueWidth)
    else
      var data := CoinData(r.covhash, FromBeBytes(r.value), r.denom, r.additionalData);
      match r.spendTxhash
      case None => Ok(CoinInfo(r.createTxhash, r.createIndex, r.createHeight, data, None))
      case Some(t) =>
        if r.spendIndex.None? || r.spendHeight.None? then Err(MissingSpendColumn)
        else
          var info := CoinSpendInfo(t, r.spendIndex.value, r.spendHeight.value);
          Ok(CoinInfo(r.createTxhash, r.createIndex, r.createHeight, data, Some(info)))
  }

  /**
   * A decoded row carries its creation columns and its decoded value, and
   * its `spend_info` is present exactly when `spend_txhash` is non-NULL,
   * holding that row's spend index and height. A well-formed row always
   * decodes.
   */
  lemma DecodeFaithful(r: CoinRow)
    ensures Decode(r).Ok? ==>
      var c := Decode(r).value;
      && |r.value| == 16
      && c.createTxhash == r.createTxhash && c.createIndex == r.createIndex
      && c.createHeight == r.createHeight
      && c.coinData.value == FromBeBytes(r.value) && c.coinData.denom == r.denom
      && c.coinData.covhash == r.covhash && c.coinData.additionalData == r.additionalData
      && (c.spendInfo.Some? <==> r.spendTxhash.Some?)
      && (c.spendInfo.Some? ==>
            c.spendInfo.value == CoinSpendInfo(r.spendTxhash.value, r.spendIndex.value, r.spendHeight.value))
    ensures forall k :: CoinRowWF(k, r) ==> Decode(r).Ok?
  {
  }

  /** Decodes the rows in order; the first failure is the scan's failure. */
  function DecodeRows(rows: seq<CoinRow>): (res: Result<seq<CoinInfo>, QueryError>)
    ensures res.Ok? ==> |res.value| == |rows|
  {
    if rows == [] then Ok([])
    else
      match DecodeRows(rows[..|rows| - 1])
      case Err(e) => Err(e)
      case Ok(init) =>
        match Decode(rows[|rows| - 1])
        case Err(e) => Err(e)
        case Ok(c) => Ok(init + [c])
  }

  lemma DecodeRowsSnoc(rows: seq<CoinRow>, r: CoinRow)
    ensures DecodeRows(rows + [r]) ==
      match DecodeRows(rows)
      case Err(e) => Err(e)
      case Ok(init) =>
        match Decode(r)
        case Err(e) => Err(e)
        case Ok(c) => Ok(init + [c])
  {
    assert (rows + [r])[..|rows|] == rows;
  }

  lemma {:induction false} DecodeRowsErrSticks(a: seq<CoinRow>, b: seq<CoinRow>)
    requires DecodeRows(a).Err?
    ensures DecodeRows(a + b) == DecodeRows(a)
  {
    if b != [] {
      var init := b[..|b| - 1];
      assert (a + b)[..|a + b| - 1] == a + init;
      DecodeRowsErrSticks(a, init);
    } else {
      assert a + b == a;
    }
  }

  /** The `i`-th item of a successful scan decodes the `i`-th selected row. */
  lemma {:induction false} DecodeRowsAt(rows: seq<CoinRow>, i: nat)
    requires DecodeRows(rows).Ok? && i < |rows|
    ensures Decode(rows[i]) == Ok(DecodeRows(rows).value[i])
  {
    var init := rows[..|rows| - 1];
    if i < |rows| - 1 {
      DecodeRowsAt(init, i);
    }
  }

  /** A row of the shape the indexer writes, under the key its own columns form. */
  ghost predicate RowWF(r: CoinRow)
  {
    CoinRowWF(KeyOf(IdOf(r), r.createHeight), r)
  }

  ghost predicate RowsWF(rows: seq<CoinRow>)
  {
    forall r | r in rows :: RowWF(r)
  }

  /** Rows written by the indexer all decode. */
  lemma {:induction false} DecodeRowsOfWellFormed(rows: seq<CoinRow>)
    requires RowsWF(rows)
    ensures DecodeRows(rows).Ok?
  {
    if rows != [] {
      var init := rows[..|rows| - 1];
      assert forall r | r in init :: r in rows;
      DecodeRowsOfWellFormed(init);
      assert rows[|rows| - 1] in rows;
      DecodeFaithful(rows[|rows| - 1]);
    }
  }

  /** On rows the indexer wrote, `iter` never panics, whatever the clauses. */
  lemma SelectedRowsDecode(rows: seq<CoinRow>, cs: seq<Clause>)
    requires RowsWF(rows)
    ensures DecodeRows(Select(rows, cs)).Ok?
  {
    forall r | r in Select(rows, cs) ensures RowWF(r) {
      SelectMembership(rows, cs, r);
    }
    DecodeRowsOfWellFormed(Select(rows, cs));
  }

  // ---------------------------------------------------------------------
  // The builder.

  /**
   * A half-built query on `coins`. `rows` is the table as the connection
   * pool shows it, in scan order; `filters` and `params` are the builder's
   * two vectors.
   */
  class CoinQuery {
    const rows: seq<CoinRow>
    var filters: seq<Filter>
    var params: seq<SqlValue>

    /** Every placeholder has exactly one parameter. */
    ghost predicate Valid()
      reads this
    {
      Placeholders(filters) == |params|
    }

    /** The accumulated clauses with their parameters bound. */
    function Clauses(): (cs: seq<Clause>)
      reads this
      requires Valid()
      ensures |cs| == |filters|
    {
      Bind(filters, params)
    }

    constructor (rows: seq<CoinRow>)
      ensures Valid()
      ensures this.rows == rows && filters == [] && params == []
    {
      this.rows := rows;
      filters := [];
      params := [];
    }

    /** Pushes `field == ?` and its parameter. */
    method AddEqFilter(field: Field, v: SqlValue)
      requires Valid()
      modifies this
      ensures Valid()
      ensures filters == old(filters) + [Filter(field, EqOp)]
      ensures params == old(params) + [v]
      ensures Clauses() == old(Clauses()) + [Eq(field, v)]
    {
      BindConcat(filters, params, [Filter(field, EqOp)], [v]);
      filters := filters + [Filter(field, EqOp)];
      params := params + [v];
    }

    /** Pushes one fragment per bounded end, with its parameter. */
    method AddRangeFilter(field: Field, start: Bound<SqlValue>, end: Bound<SqlValue>)
      requires Valid()
      modifies this
      ensures Valid()
      ensures filters == old(filters) + RangeFilters(field, start, end)
      ensures params == old(params) + RangeParams(start, end)
      ensures Clauses() == old(Clauses()) + RangeClauses(field, start, end)
    {
      BindRange(field, start, end);
      BindConcat(filters, params, RangeFilters(field, start, end), RangeParams(start, end));
      filters := filters + RangeFilters(field, start, end);
      params := params + RangeParams(start, end);
    }

    /** Only unspent coins: pushes `spend_txhash is null`, with no parameter. */
    method Unspent()
      requires Valid()
      modifies this
      ensures Valid()
      ensures filters == old(filters) + [Filter(Field.SpendTxhash, IsNullOp)]
      ensures params == old(params)
      ensures Clauses() == old(Clauses()) + [IsNull(Field.SpendTxhash)]
    {
      BindConcat(filters, params, [Filter(Field.SpendTxhash, IsNullOp)], []);
      filters := filters + [Filter(Field.SpendTxhash, IsNullOp)];
      assert params + [] == params;
    }

    method CreateTxhash(txhash: TxHash)
      requires Valid()
      modifies this
      ensures Valid()
      ensures filters == old(filters) + [Filter(Field.CreateTxhash, EqOp)] && params == old(params) + [Text(txhash)]
      ensures Clauses() == old(Clauses()) + [Eq(Field.CreateTxhash, Text(txhash))]
    {
      AddEqFilter(Field.CreateTxhash, Text(txhash));
    }

    method CreateIndex(index: Byte)
      requires Valid()
      modifies this
      ensures Valid()
      ensures filters == old(filters) + [Filter(Field.CreateIndex, EqOp)] && params == old(params) + [Int(index)]
      ensures Clauses() == old(Clauses()) + [Eq(Field.CreateIndex, Int(index))]
    {
      AddEqFilter(Field.CreateIndex, Int(index));
    }

    method CreateHeightRange(start: Bound<Height>, end: Bound<Height>)
      requires Valid()
      modifies this
      ensures Valid()
      ensures filters == old(filters) + RangeFilters(Field.CreateHeight, start, end)
      ensures params == old(params) + RangeParams(MapHeight(start), MapHeight(end))
      ensures Clauses() == old(Clauses()) + RangeClauses(Field.CreateHeight, MapHeight(start), MapHeight(end))
    {
      AddRangeFilter(Field.CreateHeight, MapHeight(start), MapHeight(end));
    }

    method SpendTxhash(txhash: TxHash)
      requires Valid()
      modifies this
      ensures Valid()
      ensures filters == old(filters) + [Filter(Field.SpendTxhash, EqOp)] && params == old(params) + [Text(txhash)]
      ensures Clauses() == old(Clauses()) + [Eq(Field.SpendTxhash, Text(txhash))]
    {
      AddEqFilter(Field.SpendTxhash, Text(txhash));
    }

    method SpendIndex(index: Byte)
      requires Valid()
      modifies this
      ensures Valid()
      ensures filters == old(filters) + [Filter(Field.SpendIndex, EqOp)] && params == old(params) + [Int(index)]
      ensures Clauses() == old(Clauses()) + [Eq(Field.SpendIndex, Int(index))]
    {
      AddEqFilter(Field.SpendIndex, Int(index));
    }

    method SpendHeightRange(start: Bound<Height>, end: Bound<Height>)
      requires Valid()
      modifies this
      ensures Valid()
      ensures filters == old(filters) + RangeFilters(Field.SpendHeight, start, end)
      ensures params == old(params) + RangeParams(MapHeight(start), MapHeight(end))
      ensures Clauses() == old(Clauses()) + RangeClauses(Field.SpendHeight, MapHeight(start), MapHeight(end))
    {
      AddRangeFilter(Field.SpendHeight, MapHeight(start), MapHeight(end));
    }

    method ValueRange(start: Bound<U128>, end: Bound<U128>)
      requires Valid()
      modifies this
      ensures Valid()
      ensures filters == old(filters) + RangeFilters(Field.Value, start, end)
      ensures params == old(params) + RangeParams(MapValue(start), MapValue(end))
      ensures Clauses() == old(Clauses()) + RangeClauses(Field.Value, MapValue(start), MapValue(end))
    {
      AddRangeFilter(Field.Value, MapValue(start), MapValue(end));
    }

    method Denom(denom: seq<Byte>)
      requires Valid()
      modifies this
      ensures Valid()
      ensures filters == old(filters) + [Filter(Field.Denom, EqOp)] && params == old(params) + [Blob(denom)]
      ensures Clauses() == old(Clauses()) + [Eq(Field.Denom, Blob(denom))]
    {
      AddEqFilter(Field.Denom, Blob(denom));
    }

    method Covhash(covhash: Address)
      requires Valid()
      modifies this
      ensures Valid()
      ensures filters == old(filters) + [Filter(Field.Covhash, EqOp)] && params == old(params) + [Text(covhash)]
      ensures Clauses() == old(Clauses()) + [Eq(Field.Covhash, Text(covhash))]
    {
      AddEqFilter(Field.Covhash, Text(covhash));
    }

    method AdditionalData(data: seq<Byte>)
      requires Valid()
      modifies this
      ensures Valid()
      ensures filters == old(filters) + [Filter(Field.AdditionalData, EqOp)] && params == old(params) + [Blob(data)]
      ensures Clauses() == old(Clauses()) + [Eq(Field.AdditionalData, Blob(data))]
    {
      AddEqFilter(Field.AdditionalData, Blob(data));
    }

    /**
     * Runs the query: with no filters the statement does not prepare;
     * otherwise it yields, in scan order, the decoded rows satisfying every
     * clause, or fails at the first selected row that does not decode.
     */
    method Iter() returns (res: Result<seq<CoinInfo>, QueryError>)
      requires Valid()
      ensures filters == [] ==> res == Err(EmptyWhere)
      ensures filters != [] ==> res == DecodeRows(Select(rows, Clauses()))
    {
      if filters == [] {
        return Err(EmptyWhere);
      }
      var cs := Clauses();
      var items: seq<CoinInfo> := [];
      for i := 0 to |rows|
        invariant DecodeRows(Select(rows[..i], cs)) == Ok(items)
      {
        var r := rows[i];
        assert rows[..i + 1] == rows[..i] + [r];
        SelectSnoc(rows[..i], r, cs);
        if !HoldsAll(cs, r) {
          assert Select(rows[..i + 1], cs) == Select(rows[..i], cs);
        } else {
          DecodeRowsSnoc(Select(rows[..i], cs), r);
          var d := Decode(r);
          if d.Err? {
            SelectConcat(rows[..i + 1], rows[i + 1..], cs);
            assert rows[..i + 1] + rows[i + 1..] == rows;
            DecodeRowsErrSticks(Select(rows[..i + 1], cs), Select(rows[i + 1..], cs));
            return Err(d.error);
          }
          items := items + [d.value];
        }
      }
      assert rows[..|rows|] == rows;
      return Ok(items);
    }
  }
}
