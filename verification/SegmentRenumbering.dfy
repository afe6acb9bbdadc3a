/** Deleting a segment: the two-pass renumbering and what it does to numbers and links. */
module SegmentRenumbering {
  import opened Common
  import opened Segments

  // ---------------------------------------------------------------- rank

  lemma SmallerSet(a: set<SegmentId>, b: set<SegmentId>)
    requires a < b
    ensures |a| < |b|
  {
    var x :| x in b && x !in a;
    assert |b - a| >= 1 by {
      assert x in b - a;
    }
    assert b == a + (b - a);
  }

  lemma SubsetSize(a: set<SegmentId>, b: set<SegmentId>)
    requires a <= b
    ensures |a| <= |b|
  {
    if a != b { SmallerSet(a, b); }
  }

  /** Rank orders rows exactly as their numbers do. */
  lemma RankOrders(rows: Rows, a: SegmentId, b: SegmentId)
    requires a in rows && b in rows
    ensures rows[a].number < rows[b].number <==> Rank(rows, a) < Rank(rows, b)
    ensures 1 <= Rank(rows, a) <= |rows|
  {
    assert |{a}| == 1;
    SubsetSize({a}, AtMost(rows, rows[a].number));
    SubsetSize(AtMost(rows, rows[a].number), rows.Keys);
    if rows[a].number < rows[b].number {
      RankIncreases(rows, a, b);
    } else {
      SubsetSize(AtMost(rows, rows[b].number), AtMost(rows, rows[a].number));
    }
  }

  lemma RankIncreases(rows: Rows, a: SegmentId, b: SegmentId)
    requires a in rows && b in rows && rows[a].number < rows[b].number
    ensures Rank(rows, a) < Rank(rows, b)
  {
    var low := AtMost(rows, rows[a].number);
    var high := AtMost(rows, rows[b].number);
    assert b in high && b !in low;
    SmallerSet(low, high);
  }

  /** `order` lists the table as `ORDER BY segment_number` does. */
  ghost predicate InOrder(rows: Rows, order: seq<SegmentId>) {
    && (forall i :: 0 <= i < |order| ==> order[i] in rows)
    && (forall i, j :: 0 <= i < j < |order| ==> rows[order[i]].number < rows[order[j]].number)
    && (forall a :: a in rows ==> a in order)
  }

  /** The rows listed up to the i-th. */
  ghost function FirstRows(order: seq<SegmentId>, i: nat): set<SegmentId>
    requires i < |order|
  {
    set k | 0 <= k <= i :: order[k]
  }

  lemma {:induction false} FirstRowsCount(order: seq<SegmentId>, i: nat)
    requires i < |order| && forall j, k :: 0 <= j < k < |order| ==> order[j] != order[k]
    ensures |FirstRows(order, i)| == i + 1
  {
    if i == 0 {
      assert FirstRows(order, 0) == {order[0]};
    } else {
      FirstRowsCount(order, i - 1);
      assert FirstRows(order, i) == FirstRows(order, i - 1) + {order[i]};
      assert order[i] !in FirstRows(order, i - 1);
    }
  }

  /** The i-th listed row has rank i + 1. */
  lemma RankInOrder(rows: Rows, order: seq<SegmentId>, i: nat)
    requires InOrder(rows, order) && i < |order|
    ensures Rank(rows, order[i]) == i + 1
  {
    InOrderAtMost(rows, order, i);
    FirstRowsCount(order, i);
  }

  lemma InOrderAtMost(rows: Rows, order: seq<SegmentId>, i: nat)
    requires InOrder(rows, order) && i < |order|
    ensures AtMost(rows, rows[order[i]].number) == FirstRows(order, i)
  {
    forall a | a in AtMost(rows, rows[order[i]].number) ensures a in FirstRows(order, i) {
      var k :| 0 <= k < |order| && order[k] == a;
    }
  }

  lemma {:induction false} OrderExists(rows: Rows)
    requires UniqueNumbers(rows)
    ensures exists order :: InOrder(rows, order)
    decreases |rows|
  {
    if rows == map[] {
      assert InOrder(rows, []);
    } else {
      var top := Highest(rows);
      var rest := rows - {top};
      assert |rest| < |rows| by {
        assert rest.Keys == rows.Keys - {top};
      }
      OrderExists(rest);
      var order :| InOrder(rest, order);
      assert InOrder(rows, order + [top]);
    }
  }

  lemma Highest(rows: Rows) returns (top: SegmentId)
    requires rows != map[]
    ensures top in rows && forall a :: a in rows ==> rows[a].number <= rows[top].number
  {
    top :| top in rows;
    var left := rows.Keys;
    while left != {}
      invariant left <= rows.Keys && top in rows
      invariant forall a :: a in rows && a !in left ==> rows[a].number <= rows[top].number
      decreases |left|
    {
      var a :| a in left;
      if rows[a].number > rows[top].number { top := a; }
      left := left - {a};
    }
  }

  // ---------------------------------------------------------------- the renumbered table

  /** Renumbering any table with distinct numbers gives exactly 1..n, in the original order. */
  lemma RenumberedIsDense(rows: Rows, gone: SegmentId, now: string)
    requires UniqueNumbers(rows)
    ensures Dense(Renumbered(rows, gone, now))
    ensures SameOrder(rows, Renumbered(rows, gone, now))
    ensures Renumbered(rows, gone, now).Keys == rows.Keys
  {
    var after := Renumbered(rows, gone, now);
    assert after.Keys == rows.Keys && |after.Keys| == |rows.Keys|;
    RenumberedOrder(rows, gone, now);
    forall n | 1 <= n <= |after| ensures RowAt(after, n).Some? {
      RenumberedHits(rows, gone, now, n);
    }
  }

  /** Numbered 1..n without gaps or repeats. */
  ghost predicate Dense(rows: Rows) {
    && UniqueNumbers(rows)
    && (forall a :: a in rows ==> 1 <= rows[a].number <= |rows|)
    && (forall n :: 1 <= n <= |rows| ==> RowAt(rows, n).Some?)
  }

  /** The rows of `after` are ordered as they are in `before`. */
  ghost predicate SameOrder(before: Rows, after: Rows) {
    after.Keys <= before.Keys &&
    forall a, b :: a in after && b in after ==>
      (after[a].number < after[b].number <==> before[a].number < before[b].number)
  }

  lemma RenumberedNumber(rows: Rows, gone: SegmentId, now: string, a: SegmentId)
    requires a in rows
    ensures a in Renumbered(rows, gone, now)
    ensures Renumbered(rows, gone, now)[a].number == Rank(rows, a)
  {
  }

  lemma RenumberedOrder(rows: Rows, gone: SegmentId, now: string)
    requires UniqueNumbers(rows)
    ensures SameOrder(rows, Renumbered(rows, gone, now))
    ensures Numbered(Renumbered(rows, gone, now))
    ensures forall a :: a in rows ==> Renumbered(rows, gone, now)[a].number <= |rows|
  {
    var after := Renumbered(rows, gone, now);
    forall a, b | a in rows && b in rows
      ensures rows[a].number < rows[b].number <==> after[a].number < after[b].number
      ensures 1 <= after[a].number <= |rows|
    {
      RenumberedNumber(rows, gone, now, a);
      RenumberedNumber(rows, gone, now, b);
      RankOrders(rows, a, b);
    }
  }

  lemma RankIsHit(rows: Rows, n: int) returns (a: SegmentId)
    requires UniqueNumbers(rows) && 1 <= n <= |rows|
    ensures a in rows && Rank(rows, a) == n
  {
    OrderExists(rows);
    var order :| InOrder(rows, order);
    OrderLength(rows, order);
    RankInOrder(rows, order, n - 1);
    a := order[n - 1];
  }

  lemma RenumberedHits(rows: Rows, gone: SegmentId, now: string, n: int)
    requires UniqueNumbers(rows) && 1 <= n <= |rows|
    ensures RowAt(Renumbered(rows, gone, now), n).Some?
  {
    var a := RankIsHit(rows, n);
    RenumberedNumber(rows, gone, now, a);
  }

  lemma OrderLength(rows: Rows, order: seq<SegmentId>)
    requires InOrder(rows, order)
    ensures |order| == |rows|
  {
    assert Ids(order) == rows.Keys;
    DistinctLength(order);
  }

  ghost function Ids(order: seq<SegmentId>): set<SegmentId> {
    set a | a in order
  }

  lemma {:induction false} DistinctLength(order: seq<SegmentId>)
    requires forall i, j :: 0 <= i < j < |order| ==> order[i] != order[j]
    ensures |Ids(order)| == |order|
  {
    if order != [] {
      var rest := order[1..];
      DistinctLength(rest);
      assert order[0] !in Ids(rest);
      assert Ids(order) == Ids(rest) + {order[0]};
    }
  }

  /** Exactly the references to the deleted id are cleared, and nothing but the number, the stamp
      and those references changes. */
  lemma RenumberedReferences(rows: Rows, gone: SegmentId, now: string, a: SegmentId)
    requires a in rows
    ensures var s := Renumbered(rows, gone, now)[a];
            && s.source == (if rows[a].source == Some(gone) then None else rows[a].source)
            && s.sourceFrame == (if rows[a].source == Some(gone) then None else rows[a].sourceFrame)
            && s == rows[a].(number := s.number, source := s.source, sourceFrame := s.sourceFrame, meta := s.meta)
            && (s.meta == rows[a].meta || (s.number != rows[a].number && s.meta == rows[a].meta[RenumberedAt := Text(now)]))
  {
  }

  /** In a list of distinct positive numbers the i-th is at least i. */
  lemma {:induction false} NumbersClimb(rows: Rows, order: seq<SegmentId>, i: nat)
    requires Numbered(rows) && InOrder(rows, order) && i < |order|
    ensures rows[order[i]].number >= i + 1
  {
    if i > 0 { NumbersClimb(rows, order, i - 1); }
  }

  /** So renumbering never raises a number. */
  lemma RankAtMostNumber(rows: Rows, a: SegmentId)
    requires Numbered(rows) && a in rows
    ensures Rank(rows, a) <= rows[a].number
  {
    OrderExists(rows);
    var order :| InOrder(rows, order);
    var i :| 0 <= i < |order| && order[i] == a;
    RankInOrder(rows, order, i);
    NumbersClimb(rows, order, i);
  }

  lemma DeleteKeepsKeyed(t: Table, gone: SegmentId, now: string)
    requires Numbered(t.rows) && Keyed(t.rows) && gone in t.rows
    ensures Keyed(Deleted(t, gone, now).rows)
  {
    var rest, after := ForgetAll(t.rows - {gone}, gone), Deleted(t, gone, now).rows;
    RestIs(t, gone);
    forall a | a in after ensures a in t.rows && after[a].ident == t.rows[a].ident && after[a].number <= t.rows[a].number {
      RankAtMostNumber(rest, a);
      assert rest[a] == Forget(t.rows[a], gone);
    }
  }

  /** `after` is `before` without row `gone`: same order, same frames, and the same links except
      that references to `gone` are cleared together with the start frame they brought. */
  ghost predicate Without(before: Rows, gone: SegmentId, after: Rows) {
    && after.Keys == before.Keys - {gone}
    && SameOrder(before, after)
    && forall a :: a in after ==> ForgetsOnly(before[a], gone, after[a])
  }

  ghost predicate ForgetsOnly(s: Segment, gone: SegmentId, s': Segment) {
    && s'.finalFrame == s.finalFrame
    && s'.source == (if s.source == Some(gone) then None else s.source)
    && s'.sourceFrame == (if s.source == Some(gone) then None else s.sourceFrame)
  }

  /** A surviving row keeps everything else, and is stamped exactly if its number changed. */
  lemma DeleteLeavesTheRest(t: Table, gone: SegmentId, now: string, a: SegmentId)
    requires gone in t.rows && a in t.rows && a != gone
    ensures a in Deleted(t, gone, now).rows
    ensures var s, s' := t.rows[a], Deleted(t, gone, now).rows[a];
            && s' == s.(number := s'.number, source := s'.source, sourceFrame := s'.sourceFrame, meta := s'.meta)
            && s'.meta == if s'.number == s.number then s.meta else s.meta[RenumberedAt := Text(now)]
  {
    var rest := ForgetAll(t.rows - {gone}, gone);
    assert rest[a] == Forget(t.rows[a], gone);
    RenumberedReferences(rest, gone, now, a);
  }

  /** A delete removes one row, clears the references to it and no others, and keeps the order. */
  lemma DeletedIsWithout(t: Table, gone: SegmentId, now: string)
    requires UniqueNumbers(t.rows) && gone in t.rows
    ensures Without(t.rows, gone, Deleted(t, gone, now).rows)
  {
    DeletedOrder(t, gone, now);
    forall a | a in Deleted(t, gone, now).rows ensures ForgetsOnly(t.rows[a], gone, Deleted(t, gone, now).rows[a]) {
      DeletedRow(t, gone, now, a);
    }
  }

  lemma DeletedOrder(t: Table, gone: SegmentId, now: string)
    requires UniqueNumbers(t.rows) && gone in t.rows
    ensures Deleted(t, gone, now).rows.Keys == t.rows.Keys - {gone}
    ensures SameOrder(t.rows, Deleted(t, gone, now).rows)
  {
    var rest := ForgetAll(t.rows - {gone}, gone);
    RestIs(t, gone);
    RenumberedOrder(rest, gone, now);
    OrderThroughRest(t.rows, rest, Deleted(t, gone, now).rows);
  }

  /** And it closes the gap. */
  lemma DeletedIsDense(t: Table, gone: SegmentId, now: string)
    requires UniqueNumbers(t.rows) && gone in t.rows
    ensures Dense(Deleted(t, gone, now).rows)
  {
    RestIs(t, gone);
    RenumberedIsDense(ForgetAll(t.rows - {gone}, gone), gone, now);
  }

  lemma OrderThroughRest(before: Rows, rest: Rows, after: Rows)
    requires SameOrder(rest, after) && rest.Keys <= before.Keys
    requires forall a :: a in rest ==> rest[a].number == before[a].number
    ensures SameOrder(before, after)
  {
  }

  lemma DeletedRow(t: Table, gone: SegmentId, now: string, a: SegmentId)
    requires gone in t.rows && a in t.rows && a != gone
    ensures a in Deleted(t, gone, now).rows && ForgetsOnly(t.rows[a], gone, Deleted(t, gone, now).rows[a])
  {
    var rest := ForgetAll(t.rows - {gone}, gone);
    assert rest[a] == Forget(t.rows[a], gone);
    RenumberedReferences(rest, gone, now, a);
  }

  lemma RestIs(t: Table, gone: SegmentId)
    requires UniqueNumbers(t.rows)
    ensures var rest := ForgetAll(t.rows - {gone}, gone);
            && rest.Keys == t.rows.Keys - {gone} && UniqueNumbers(rest)
            && forall a :: a in rest ==> rest[a] == Forget(t.rows[a], gone)
  {
  }

  lemma WithoutSource(before: Rows, gone: SegmentId, after: Rows, a: SegmentId)
    requires LinksBack(before) && Without(before, gone, after) && a in after && after[a].source.Some?
    ensures before[a].source == after[a].source && after[a].source.value in after
    ensures SourceNumber(after, a) == after[after[a].source.value].number
    ensures SourceNumber(before, a) == before[after[a].source.value].number
  {
  }

  lemma WithoutKeepsLinksBack(before: Rows, gone: SegmentId, after: Rows)
    requires LinksBack(before) && Without(before, gone, after)
    ensures LinksBack(after)
  {
    forall a | a in after && after[a].source.Some?
      ensures after[a].source.value in after && SourceNumber(after, a) < after[a].number
    {
      WithoutSource(before, gone, after, a);
    }
  }

  lemma WithoutKeepsFrames(before: Rows, gone: SegmentId, after: Rows)
    requires FramesAgree(before) && Without(before, gone, after)
    ensures FramesAgree(after)
  {
  }

  lemma WithoutKeepsNested(before: Rows, gone: SegmentId, after: Rows)
    requires LinksBack(before) && Nested(before) && Without(before, gone, after)
    ensures Nested(after)
  {
    forall a, m | a in after && m in after && after[a].source.Some? && after[m].source.Some?
      && SourceNumber(after, a) < after[m].number < after[a].number
      ensures SourceNumber(after, a) <= SourceNumber(after, m)
    {
      WithoutSource(before, gone, after, a);
      WithoutSource(before, gone, after, m);
    }
  }

  lemma DeleteKeepsValid(t: Table, gone: SegmentId, now: string)
    requires Valid(t)
    ensures Valid(Deleted(t, gone, now))
    ensures FramesAgree(t.rows) ==> FramesAgree(Deleted(t, gone, now).rows)
    ensures Nested(t.rows) ==> Nested(Deleted(t, gone, now).rows)
  {
    if gone in t.rows {
      DeletedIsWithout(t, gone, now);
      DeletedIsDense(t, gone, now);
      DeleteKeepsKeyed(t, gone, now);
      var after := Deleted(t, gone, now).rows;
      WithoutKeepsLinksBack(t.rows, gone, after);
      if FramesAgree(t.rows) { WithoutKeepsFrames(t.rows, gone, after); }
      if Nested(t.rows) { WithoutKeepsNested(t.rows, gone, after); }
    }
  }

  /** Adjacent links stay adjacent: no row that survives lies between two consecutive numbers. */
  lemma DeleteKeepsAdjacent(t: Table, gone: SegmentId, now: string)
    requires Valid(t) && Adjacent(t.rows)
    ensures Adjacent(Deleted(t, gone, now).rows)
  {
    if gone in t.rows {
      DeletedIsWithout(t, gone, now);
      DeletedIsDense(t, gone, now);
      var after := Deleted(t, gone, now).rows;
      forall a | a in after && after[a].source.Some?
        ensures after[a].source.value in after && SourceNumber(after, a) == after[a].number - 1
      {
        WithoutSource(t.rows, gone, after, a);
        var b := after[a].source.value;
        var c := RowAt(after, after[b].number + 1).value;
        assert t.rows[b].number < t.rows[c].number;
      }
    }
  }

  // ---------------------------------------------------------------- uniqueness after every row write

  /** The table when pass 1 has written the rows in `written` and no others. */
  ghost function ParkedMix(rows: Rows, written: set<SegmentId>): Rows {
    map a | a in rows :: if a in written then rows[a].(number := -Rank(rows, a)) else rows[a]
  }

  /** The table when pass 2 has written the rows in `written` and the rest still hold pass 1's numbers. */
  ghost function FinalMix(rows: Rows, written: set<SegmentId>): Rows {
    map a | a in rows :: rows[a].(number := if a in written then Rank(rows, a) else -Rank(rows, a))
  }

  /** However each pass orders its writes, the rows written so far form some set; for every such set
      the numbers in the table are distinct. */
  lemma EveryWriteKeepsNumbersUnique(rows: Rows, written: set<SegmentId>)
    requires Numbered(rows)
    ensures UniqueNumbers(ParkedMix(rows, written))
    ensures UniqueNumbers(FinalMix(rows, written))
  {
    forall a, b | a in rows && b in rows
      ensures Rank(rows, a) == Rank(rows, b) ==> a == b
      ensures Rank(rows, a) >= 1
    {
      RankOrders(rows, a, b);
      RankOrders(rows, b, a);
    }
  }

  /** Writing the final numbers directly would not do: with numbers 2 and 3, closing the gap in
      descending order makes the rows collide after the first write. */
  lemma SinglePassCollides(s: Segment)
    ensures var rows := map[0 := s.(number := 2), 1 := s.(number := 3)];
            && Numbered(rows) && Rank(rows, 1) == 2
            && !UniqueNumbers(rows[1 := rows[1].(number := Rank(rows, 1))])
  {
    var rows := map[0 := s.(number := 2), 1 := s.(number := 3)];
    assert AtMost(rows, 3) == {0, 1};
    var after := rows[1 := rows[1].(number := Rank(rows, 1))];
    assert after[0].number == after[1].number;
  }
}
