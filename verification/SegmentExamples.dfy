/** Concrete runs at the edges of what holds after every run. */
module SegmentExamples {
  import opened Common
  import opened Segments
  import opened SegmentPlanning
  import opened SegmentContents
  import opened SegmentRenumbering
  import opened SegmentPropagation
  import opened SegmentRuns

  // ---------------------------------------------------------------- a run that jumps a gap

  const BREAK := Payload(0, "", "", map[ContinuityBreak := Flag(true)])

  /** Plan three segments, work on the third, replan to one segment: rows 1 and 3 are left. Approving
      a final frame for row 1 then links row 3 to it. */
  ghost const GAP_RUN := [
    Plan([BREAK, BREAK, BREAK], false),
    Edit(2, Plain(3).(asset := Some(9))),
    Plan([BREAK], true),
    Approve(0, 7)]

  ghost function Plain(number: int): Segment {
    Created(number, Draft(BREAK, None, None, None))
  }

  lemma PlanStepAppends(t: Table, number: int, previous: Option<SegmentId>, replace: bool)
    requires previous.Some? ==> previous.value in t.rows
    requires forall a :: a in t.rows ==> t.rows[a].number != number && t.rows[a].ident.number != number
    ensures PlanStep(t, number, BREAK, previous, replace)
            == (Table(t.rows[t.nextId := Plain(number)], t.nextId + 1), t.nextId)
  {
  }

  lemma ThreePlanned()
    ensures Planned(EMPTY, [BREAK, BREAK, BREAK], false) == Table(map[0 := Plain(1), 1 := Plain(2), 2 := Plain(3)], 3)
  {
    var ps := [BREAK, BREAK, BREAK];
    KeepingNeverRaises(EMPTY, ps, 3);
    assert PlanUpTo(EMPTY, ps, false, 0) == (EMPTY, None);
    PlanStepAppends(EMPTY, 1, None, false);
    var one := Table(map[0 := Plain(1)], 1);
    assert PlanUpTo(EMPTY, ps, false, 1) == (one, Some(0));
    PlanStepAppends(one, 2, Some(0), false);
    var two := Table(map[0 := Plain(1), 1 := Plain(2)], 2);
    assert PlanUpTo(EMPTY, ps, false, 2) == (two, Some(1));
    PlanStepAppends(two, 3, Some(1), false);
    assert PlanUpTo(EMPTY, ps, false, 3) == (Table(map[0 := Plain(1), 1 := Plain(2), 2 := Plain(3)], 3), Some(2));
  }

  lemma NotRefused(worked: Segment)
    requires worked.number == 3 && worked.ident.number == 3 && worked.source.None?
    ensures !Raises(Table(map[0 := Plain(1), 1 := Plain(2), 2 := worked], 3), [BREAK], true)
  {
    var t := Table(map[0 := Plain(1), 1 := Plain(2), 2 := worked], 3);
    ThreeUnlinked(t);
    OneNeverRaises(t, BREAK, true);
  }

  lemma ThreeUnlinked(t: Table)
    requires t.rows.Keys == {0, 1, 2} && t.nextId == 3
    requires t.rows[0].number == t.rows[0].ident.number == 1 && t.rows[0].source.None?
    requires t.rows[1].number == t.rows[1].ident.number == 2 && t.rows[1].source.None?
    requires t.rows[2].number == t.rows[2].ident.number == 3 && t.rows[2].source.None?
    ensures Valid(t)
  {
  }

  lemma ReplannedToOne(worked: Segment)
    requires worked.number == 3 && worked.ident.number == 3 && HasWork(worked) && worked.source.None?
    ensures Planned(Table(map[0 := Plain(1), 1 := Plain(2), 2 := worked], 3), [BREAK], true)
            == Table(map[0 := Plain(1), 2 := worked], 3)
  {
    var t := Table(map[0 := Plain(1), 1 := Plain(2), 2 := worked], 3);
    NotRefused(worked);
    assert Stale(t.rows, 1) == {1};
    var base := PlanBase(t, [BREAK], true);
    assert base.rows == map[0 := Plain(1), 2 := worked];
    assert PlanUpTo(base, [BREAK], true, 0) == (base, None);
    assert RowAt(base.rows, 1) == Some(0) by {
      assert 0 in base.rows && base.rows[0].number == 1;
    }
    assert Rewritten(Plain(1), Draft(BREAK, None, None, None)) == Plain(1);
    assert base.rows[0 := Plain(1)] == base.rows;
    assert PlanUpTo(base, [BREAK], true, 1).0 == PlanStep(base, 1, BREAK, None, true).0;
  }

  lemma UpToReplan() returns (t: Table)
    ensures Run(EMPTY, GAP_RUN[..3]) == t
    ensures t == Table(map[0 := Plain(1), 2 := Plain(3).(asset := Some(9))], 3)
  {
    var worked := Plain(3).(asset := Some(9));
    t := Table(map[0 := Plain(1), 2 := worked], 3);
    RunOfThree(EMPTY, GAP_RUN[0], GAP_RUN[1], GAP_RUN[2]);
    assert GAP_RUN[..3] == [GAP_RUN[0], GAP_RUN[1], GAP_RUN[2]];
    ThreePlanned();
    ThirdEdited();
    ReplannedToOne(worked);
  }

  lemma ThirdEdited()
    ensures Apply(Table(map[0 := Plain(1), 1 := Plain(2), 2 := Plain(3)], 3), GAP_RUN[1])
            == Table(map[0 := Plain(1), 1 := Plain(2), 2 := Plain(3).(asset := Some(9))], 3)
  {
  }

  /** So "exactly one less" does not hold after every run: here row 3 continues from row 1. */
  lemma GapRunBreaksAdjacency()
    ensures var rows := Run(EMPTY, GAP_RUN).rows;
            && 0 in rows && 2 in rows && rows[0].number == 1 && rows[2].number == 3
            && rows[2].source == Some(0) && !Adjacent(rows)
  {
    var t := UpToReplan();
    var rows := t.rows[0 := Plain(1).(finalFrame := Some(7))];
    assert IsNext(rows, 0, 2);
    PropagatedSpreads(rows, 0);
    var after := Run(EMPTY, GAP_RUN).rows;
    assert after == Propagated(rows, 0);
    assert after[2].source.Some? && SourceNumber(after, 2) == 1;
  }

  // ---------------------------------------------------------------- a run that finds an old key

  const FOLLOW := Payload(0, "", "", map[])

  /** Three payloads, the third of which continues from the second. */
  const THREE := [BREAK, BREAK, FOLLOW]

  ghost function Following(): Segment {
    Created(3, Draft(FOLLOW.(meta := map[][SourceSegment := Ref(1)][SourceVideo := Null][SourceFrame := Null]), Some(1), None, None))
  }

  lemma FollowingPlanned()
    ensures Planned(EMPTY, THREE, false) == Table(map[0 := Plain(1), 1 := Plain(2), 2 := Following()], 3)
  {
    KeepingNeverRaises(EMPTY, THREE, 3);
    assert PlanUpTo(EMPTY, THREE, false, 0) == (EMPTY, None);
    PlanStepAppends(EMPTY, 1, None, false);
    var one := Table(map[0 := Plain(1)], 1);
    assert PlanUpTo(EMPTY, THREE, false, 1) == (one, Some(0));
    PlanStepAppends(one, 2, Some(0), false);
    var two := Table(map[0 := Plain(1), 1 := Plain(2)], 2);
    assert PlanUpTo(EMPTY, THREE, false, 2) == (two, Some(1));
    assert RowAt(two.rows, 3) == None && HolderOf(two.rows, IdentFor(3, FOLLOW)) == None;
    assert PlanStep(two, 3, FOLLOW, Some(1), false).0.rows == two.rows[2 := Following()];
    assert PlanUpTo(EMPTY, THREE, false, 3).0 == PlanStep(two, 3, FOLLOW, Some(1), false).0;
  }

  /** Plan three segments, delete the third and then the first, plan the same three again. The second
      segment is now numbered 1, but keeps the key it was created with as number 2. */
  ghost const KEY_RUN := [
    Plan(THREE, false),
    Delete(2, ""),
    Delete(0, ""),
    Plan(THREE, false)]

  ghost function Shifted(): Segment {
    Stamp(Plain(2), 1, "")
  }

  lemma DeletedLast()
    ensures Deleted(Table(map[0 := Plain(1), 1 := Plain(2), 2 := Following()], 3), 2, "") == Table(map[0 := Plain(1), 1 := Plain(2)], 3)
  {
    var rest := ForgetAll(map[0 := Plain(1), 1 := Plain(2), 2 := Following()] - {2}, 2);
    assert rest == map[0 := Plain(1), 1 := Plain(2)];
    assert InOrder(rest, [0, 1]);
    RankInOrder(rest, [0, 1], 0);
    RankInOrder(rest, [0, 1], 1);
    assert Renumbered(rest, 2, "") == rest;
  }

  lemma DeletedFirst()
    ensures Deleted(Table(map[0 := Plain(1), 1 := Plain(2)], 3), 0, "") == Table(map[1 := Shifted()], 3)
  {
    var rest := ForgetAll(map[0 := Plain(1), 1 := Plain(2)] - {0}, 0);
    assert rest == map[1 := Plain(2)];
    assert InOrder(rest, [1]);
    RankInOrder(rest, [1], 0);
    assert Renumbered(rest, 0, "") == map[1 := Shifted()];
  }

  lemma UpToKeys()
    ensures Run(EMPTY, KEY_RUN[..3]) == Table(map[1 := Shifted()], 3)
  {
    RunOfThree(EMPTY, KEY_RUN[0], KEY_RUN[1], KEY_RUN[2]);
    assert KEY_RUN[..3] == [KEY_RUN[0], KEY_RUN[1], KEY_RUN[2]];
    FollowingPlanned();
    DeletedLast();
    DeletedFirst();
  }

  lemma ShiftedIsHit()
    ensures var rows := map[1 := Shifted()];
            && Hit(rows, THREE, false, 2) && !Hit(rows, THREE, false, 3) && LinksPastHit(rows, THREE, false)
  {
    var rows := map[1 := Shifted()];
    assert rows[1].ident == IdentFor(2, THREE[1]);
    assert WritesLink(rows, THREE, false, 2 + 1);
  }

  /** The payload for number 2 finds the first segment by its old key, so that number stays empty, and
      the third segment continues from the first: no propagation, and still adjacency is gone. */
  lemma KeyRunSkipsANumber()
    ensures var rows := Run(EMPTY, KEY_RUN).rows;
            Filled(rows, 1) && !Filled(rows, 2) && Filled(rows, 3) && !Adjacent(rows)
  {
    var t := Run(EMPTY, KEY_RUN[..3]);
    UpToKeys();
    EveryRunIsValid(KEY_RUN[..3]);
    ShiftedIsHit();
    KeepingNeverRaises(t, THREE, 3);
    PlanFillsIff(t, THREE, false, 1);
    PlanFillsIff(t, THREE, false, 2);
    PlanFillsIff(t, THREE, false, 3);
    FirstIsFilled();
    PlanKeepsAdjacentIff(t, THREE, false);
    assert Run(EMPTY, KEY_RUN) == Planned(t, THREE, false);
  }

  lemma FirstIsFilled()
    ensures !Hit(map[1 := Shifted()], THREE, false, 1) && Adjacent(map[1 := Shifted()])
  {
    var rows := map[1 := Shifted()];
    assert 1 in rows && rows[1].number == 1;
  }

  // ---------------------------------------------------------------- a replan that is refused

  /** Plan three segments, work on the second, delete the first, replan the same three. */
  ghost const REFUSED_RUN := [
    Plan(THREE, false),
    Edit(1, Plain(2).(asset := Some(9))),
    Delete(0, ""),
    Plan(THREE, true)]

  ghost function Worked(): Segment {
    Plain(2).(asset := Some(9))
  }

  ghost function Moved(): Table {
    Table(map[1 := Stamp(Worked(), 1, ""), 2 := Stamp(Following(), 2, "")], 3)
  }

  lemma DeletedBelow()
    ensures Deleted(Table(map[0 := Plain(1), 1 := Worked(), 2 := Following()], 3), 0, "") == Moved()
  {
    var rest := ForgetAll(map[0 := Plain(1), 1 := Worked(), 2 := Following()] - {0}, 0);
    assert rest == map[1 := Worked(), 2 := Following()];
    assert InOrder(rest, [1, 2]);
    RankInOrder(rest, [1, 2], 0);
    RankInOrder(rest, [1, 2], 1);
    assert Renumbered(rest, 0, "") == Moved().rows;
  }

  lemma UpToRefused()
    ensures Run(EMPTY, REFUSED_RUN[..3]) == Moved()
  {
    RunOfThree(EMPTY, REFUSED_RUN[0], REFUSED_RUN[1], REFUSED_RUN[2]);
    assert REFUSED_RUN[..3] == [REFUSED_RUN[0], REFUSED_RUN[1], REFUSED_RUN[2]];
    FollowingPlanned();
    SecondWorked();
    DeletedBelow();
  }

  lemma SecondWorked()
    ensures Apply(Table(map[0 := Plain(1), 1 := Plain(2), 2 := Following()], 3), REFUSED_RUN[1])
            == Table(map[0 := Plain(1), 1 := Worked(), 2 := Following()], 3)
  {
  }

  /** The first row has work and keeps the key of number 2, which the replan needs for the second: the
      database refuses it, and so every such replan until the script changes. */
  lemma RefusedRunChangesNothing()
    ensures var t := Run(EMPTY, REFUSED_RUN[..3]);
            Raises(t, THREE, true) && Run(EMPTY, REFUSED_RUN) == t
  {
    var t := Run(EMPTY, REFUSED_RUN[..3]);
    UpToRefused();
    EveryRunIsValid(REFUSED_RUN[..3]);
    MovedCollides();
    PlanRaisesIff(t, THREE, true);
    assert Run(EMPTY, REFUSED_RUN) == Planned(t, THREE, true);
  }

  lemma MovedCollides()
    ensures CollidesAt(Moved().rows, THREE, true, 2)
  {
    var rows := Moved().rows;
    assert rows[2].number == 2 && !HasWork(rows[2]);
    assert rows[1].ident == IdentFor(2, THREE[1]) && HasWork(rows[1]);
  }

  // ---------------------------------------------------------------- a plan whose link crosses another

  /** Row 2 holds the key of number 4, and row 3 continues from row 1. */
  ghost function Crossable(): Table {
    Table(map[0 := Plain(1), 1 := Plain(2).(ident := Ident(4, 0)), 2 := Plain(3).(source := Some(0))], 3)
  }

  const FIVE := [BREAK, BREAK, BREAK, BREAK, FOLLOW]

  /** A link written right after a hit may reach across another: row 5 continues from row 2, past row 3. */
  lemma PlanMayCrossLinks()
    ensures Valid(Crossable()) && Nested(Crossable().rows) && !Nested(Planned(Crossable(), FIVE, false).rows)
  {
    CrossableIsValid();
    CrossableIsHit();
    CrossableIsCrossed();
    PlanCrosses(Crossable(), FIVE, 4, 1, 2);
  }

  lemma PlanCrosses(t: Table, payloads: seq<Payload>, n: int, b: SegmentId, m: SegmentId)
    requires Valid(t) && 1 <= n < |payloads| && Hit(t.rows, payloads, false, n) && WritesLink(t.rows, payloads, false, n + 1)
    requires b in t.rows && t.rows[b].ident == IdentFor(n, payloads[n - 1]) && Between(t.rows, false, b, m, n)
    ensures !Nested(Planned(t, payloads, false).rows)
  {
    KeepingNeverRaises(t, payloads, |payloads|);
    PlanKeepsValid(t, payloads, false);
    PlanOutcome(t, payloads, false);
    LinkPastHitCrosses(t.rows, Planned(t, payloads, false).rows, payloads, false, n, b, m);
  }

  lemma CrossableIsValid()
    ensures Valid(Crossable()) && Nested(Crossable().rows)
  {
    ThreeRows(Crossable());
  }

  lemma ThreeRows(t: Table)
    requires t.rows.Keys == {0, 1, 2} && t.nextId == 3
    requires t.rows[0].number == 1 && t.rows[0].ident == Ident(1, 0) && t.rows[0].source.None?
    requires t.rows[1].number == 2 && t.rows[1].ident == Ident(4, 0) && t.rows[1].source.None?
    requires t.rows[2].number == 3 && t.rows[2].ident == Ident(3, 0) && t.rows[2].source == Some(0)
    ensures Valid(t) && Nested(t.rows)
  {
    assert SourceNumber(t.rows, 2) == 1;
    assert forall a :: a in t.rows <==> a == 0 || a == 1 || a == 2;
    assert Numbered(t.rows) && Keyed(t.rows);
  }

  lemma CrossableIsHit()
    ensures Hit(Crossable().rows, FIVE, false, 4) && WritesLink(Crossable().rows, FIVE, false, 5)
    ensures 1 in Crossable().rows && Crossable().rows[1].ident == IdentFor(4, FIVE[3])
  {
    var rows := Crossable().rows;
    assert rows[1].ident == IdentFor(4, FIVE[3]);
  }

  lemma CrossableIsCrossed()
    ensures Between(Crossable().rows, false, 1, 2, 4)
  {
    assert SourceNumber(Crossable().rows, 2) == 1;
  }
}
