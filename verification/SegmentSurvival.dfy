/**
  What survives replanning: work other than a start frame always, a start frame exactly when no chain
  of idle rows lies under it.
 */
module SegmentSurvival {
  import opened Common
  import opened Segments
  import opened SegmentPlanning
  import opened SegmentContents
  import opened SegmentRuns
  import opened SegmentExamples

  ghost predicate OnlyPlans(ops: seq<Op>) {
    forall i :: 0 <= i < |ops| ==> ops[i].Plan?
  }

  /** A plan made from a script always has at least one segment. */
  ghost predicate RealPlans(ops: seq<Op>) {
    OnlyPlans(ops) && forall i :: 0 <= i < |ops| ==> ops[i].Plan? && ops[i].payloads != []
  }

  lemma OnlyPlansFront(ops: seq<Op>)
    requires OnlyPlans(ops) && ops != []
    ensures OnlyPlans(ops[..|ops| - 1]) && ops[|ops| - 1].Plan?
    ensures RealPlans(ops) ==> RealPlans(ops[..|ops| - 1]) && ops[|ops| - 1].payloads != []
  {
  }

  // ---------------------------------------------------------------- work other than the start frame

  /** The row would carry work without its start frame. */
  predicate HasOtherWork(s: Segment) {
    HasWork(s.(sourceFrame := None))
  }

  lemma SameButStartHasOtherWork(s: Segment, s': Segment)
    requires SameButStart(s, s')
    ensures HasOtherWork(s') == HasOtherWork(s)
  {
    SameWorkHasWork(s.(sourceFrame := None), s'.(sourceFrame := None));
  }

  lemma SameButStartTransitive(s0: Segment, s1: Segment, s2: Segment)
    requires SameButStart(s0, s1) && SameButStart(s1, s2)
    ensures SameButStart(s0, s2)
  {
  }

  /** However often a project is replanned, a row with work other than its start frame is never removed,
      and nothing of it but its link and its start frame ever changes. */
  lemma {:induction false} ReplansNeverLoseWork(t: Table, ops: seq<Op>, a: SegmentId)
    requires Valid(t) && a in t.rows && HasOtherWork(t.rows[a]) && OnlyPlans(ops)
    ensures a in Run(t, ops).rows && SameButStart(t.rows[a], Run(t, ops).rows[a])
    decreases |ops|
  {
    if ops != [] {
      var (front, last) := (ops[..|ops| - 1], ops[|ops| - 1]);
      OnlyPlansFront(ops);
      ReplansNeverLoseWork(t, front, a);
      RunKeepsValid(t, front);
      var before := Run(t, front);
      SameButStartHasOtherWork(t.rows[a], before.rows[a]);
      PlanKeepsWork(before, last.payloads, last.replace, a);
      SameButStartTransitive(t.rows[a], before.rows[a], Run(t, ops).rows[a]);
    }
  }

  /** The same, kind by kind: a finished row, a video, a final frame, an edited prompt, variants or a frame
      or video named in the metadata keeps the row and all it shows through every sequence of plans. */
  lemma ReplansKeepEveryResult(t: Table, ops: seq<Op>, a: SegmentId)
    requires Valid(t) && OnlyPlans(ops) && a in t.rows
    requires var s := t.rows[a];
             || s.status == Succeeded || s.asset != None || s.generatedVideo != None || s.finalFrame != None
             || (CustomPrompt in s.meta && s.meta[CustomPrompt] == Flag(true))
             || exists key :: key in {Variants, InitialFrame, FinalFrame, ExtractedLastFrame, VideoAsset} && key in s.meta
                              && s.meta[key] !in {Null, Flag(false), Text(""), Items(0)}
    ensures var s, rows := t.rows[a], Run(t, ops).rows;
            && a in rows && rows[a].number == s.number && rows[a].prompt == s.prompt && rows[a].details == s.details
            && rows[a].status == s.status && rows[a].asset == s.asset && rows[a].generatedVideo == s.generatedVideo
            && rows[a].finalFrame == s.finalFrame
            && rows[a].meta - {RefreshPreserved, RefreshReason} == s.meta - {RefreshPreserved, RefreshReason}
  {
    WorkIs(t.rows[a].(sourceFrame := None));
    ReplansNeverLoseWork(t, ops, a);
  }

  /** And a row in range with none of these and no start frame is written anew by a replan that goes through. */
  lemma ReplanRewritesTheRest(t: Table, payloads: seq<Payload>, a: SegmentId)
    requires Valid(t) && !Raises(t, payloads, true) && a in t.rows && t.rows[a].number <= |payloads|
    requires var s := t.rows[a];
             && s.status != Succeeded && s.asset == None && s.generatedVideo == None && s.finalFrame == None && s.sourceFrame == None
             && !(CustomPrompt in s.meta && s.meta[CustomPrompt] == Flag(true))
             && forall key :: key in {Variants, InitialFrame, FinalFrame, ExtractedLastFrame, VideoAsset} && key in s.meta ==>
                              s.meta[key] in {Null, Flag(false), Text(""), Items(0)}
    ensures var rows, payload := Planned(t, payloads, true).rows, payloads[t.rows[a].number - 1];
            && a in rows && rows[a].number == t.rows[a].number && rows[a].status == Pending
            && rows[a].prompt == payload.prompt && rows[a].details == payload.details
            && rows[a].ident == Ident(t.rows[a].number, payload.digest)
            && rows[a].asset == None && rows[a].generatedVideo == None && rows[a].finalFrame == None
  {
    WorkIs(t.rows[a]);
    PlanRowByRow(t, payloads, true, a);
  }

  // ---------------------------------------------------------------- the start frame

  /** The row has a start frame and continues from a row past the first that has no other work than,
      perhaps, a start frame that is itself endangered. The first row is in the range of every plan. */
  ghost predicate Endangered(rows: Rows, a: SegmentId)
    requires Numbered(rows) && LinksBack(rows) && a in rows
    decreases rows[a].number
  {
    rows[a].sourceFrame.Some? && rows[a].source.Some? &&
    var b := rows[a].source.value;
    assert SourceNumber(rows, a) == rows[b].number;
    rows[b].number > 1 && !HasOtherWork(rows[b]) && (rows[b].sourceFrame.None? || Endangered(rows, b))
  }

  ghost predicate Kept(t: Table, ops: seq<Op>, a: SegmentId)
    requires a in t.rows
  {
    a in Run(t, ops).rows && SameWork(t.rows[a], Run(t, ops).rows[a])
  }

  /** A row that is not endangered keeps all its work through a plan, and is not endangered after it. */
  lemma {:induction false} PlanKeepsSafe(t: Table, payloads: seq<Payload>, replace: bool, a: SegmentId)
    requires Valid(t) && payloads != [] && a in t.rows && HasWork(t.rows[a]) && !Endangered(t.rows, a)
    ensures Valid(Planned(t, payloads, replace))
    ensures var rows := Planned(t, payloads, replace).rows;
            a in rows && SameWork(t.rows[a], rows[a]) && !Endangered(rows, a)
    decreases t.rows[a].number
  {
    PlanKeepsValid(t, payloads, replace);
    PlanKeepsWork(t, payloads, replace, a);
    var rows := Planned(t, payloads, replace).rows;
    if t.rows[a].sourceFrame.Some? && t.rows[a].source.Some? {
      var b := t.rows[a].source.value;
      assert SourceNumber(t.rows, a) == t.rows[b].number;
      if t.rows[b].number == 1 {
        FirstStays(t, payloads, replace, b);
      } else if HasOtherWork(t.rows[b]) {
        PlanKeepsWork(t, payloads, replace, b);
        SameButStartHasOtherWork(t.rows[b], rows[b]);
      } else {
        PlanKeepsSafe(t, payloads, replace, b);
      }
    }
  }

  /** The first row is never swept away. */
  lemma FirstStays(t: Table, payloads: seq<Payload>, replace: bool, b: SegmentId)
    requires Valid(t) && payloads != [] && b in t.rows && t.rows[b].number == 1
    ensures var rows := Planned(t, payloads, replace).rows; b in rows && rows[b].number == 1
  {
    if !Raises(t, payloads, replace) {
      BaseRows(t, payloads, replace);
      PlanOutcome(t, payloads, replace);
    }
  }

  lemma {:induction false} SafeIsKept(t: Table, ops: seq<Op>, a: SegmentId)
    requires Valid(t) && a in t.rows && HasWork(t.rows[a]) && !Endangered(t.rows, a) && RealPlans(ops)
    ensures Valid(Run(t, ops)) && Kept(t, ops, a) && !Endangered(Run(t, ops).rows, a)
    decreases |ops|
  {
    if ops != [] {
      var (front, last) := (ops[..|ops| - 1], ops[|ops| - 1]);
      OnlyPlansFront(ops);
      SafeIsKept(t, front, a);
      var before := Run(t, front);
      SameWorkHasWork(t.rows[a], before.rows[a]);
      PlanKeepsSafe(before, last.payloads, last.replace, a);
      SameBothWays(t.rows[a], before.rows[a], Run(t, ops).rows[a]);
    }
  }

  // ---------------------------------------------------------------- losing an endangered start frame

  /** How many rows back the chain of endangered start frames ends. */
  ghost function Depth(rows: Rows, a: SegmentId): (d: nat)
    requires Numbered(rows) && LinksBack(rows) && a in rows && Endangered(rows, a)
    ensures d >= 1
    decreases rows[a].number
  {
    var b := rows[a].source.value;
    assert SourceNumber(rows, a) == rows[b].number;
    if rows[b].sourceFrame.None? then 1 else 1 + Depth(rows, b)
  }

  /** A replan to one segment: every idle row past the first goes. */
  const CLEAR := Plan([BREAK], true)

  ghost function Clears(k: nat): seq<Op> {
    seq(k, _ => CLEAR)
  }

  /** The row the start frame of `a` depends on is idle: the next replan to one segment takes the frame. */
  lemma ShallowIsStripped(t: Table, a: SegmentId)
    requires Valid(t) && a in t.rows && Endangered(t.rows, a) && Depth(t.rows, a) == 1
    ensures a in Apply(t, CLEAR).rows && Apply(t, CLEAR).rows[a].sourceFrame.None?
    ensures SameButStart(t.rows[a], Apply(t, CLEAR).rows[a])
  {
    var b := t.rows[a].source.value;
    assert SourceNumber(t.rows, a) == t.rows[b].number;
    assert t.rows[b].(sourceFrame := None) == t.rows[b];
    assert b in Stale(t.rows, 1);
    OneNeverRaises(t, BREAK, true);
    PlanKeepsWork(t, [BREAK], true, a);
  }

  /** Past the first row a replan to one segment does nothing but sweep. */
  lemma ClearOnlySweeps(t: Table, a: SegmentId)
    requires Valid(t)
    ensures var t' := Apply(t, CLEAR);
            && Valid(t')
            && (a in t'.rows && t'.rows[a].number > 1 <==> a in Sweep(t.rows, 1) && Sweep(t.rows, 1)[a].number > 1)
            && (a in t'.rows && t'.rows[a].number > 1 ==> t'.rows[a] == Sweep(t.rows, 1)[a])
  {
    OneNeverRaises(t, BREAK, true);
    PlanKeepsValid(t, [BREAK], true);
    PlanOutcome(t, [BREAK], true);
  }

  /** A deeper chain loses its far end: the row itself stays as it is, one step nearer. */
  lemma {:induction false} ClearShortens(t: Table, a: SegmentId)
    requires Valid(t) && a in t.rows && Endangered(t.rows, a) && Depth(t.rows, a) > 1
    ensures var t' := Apply(t, CLEAR);
            && Valid(t') && a in t'.rows && t'.rows[a] == t.rows[a]
            && Endangered(t'.rows, a) && Depth(t'.rows, a) == Depth(t.rows, a) - 1
    decreases t.rows[a].number
  {
    var t' := Apply(t, CLEAR);
    var b := t.rows[a].source.value;
    assert SourceNumber(t.rows, a) == t.rows[b].number;
    ClearOnlySweeps(t, a);
    ClearOnlySweeps(t, b);
    assert a !in Stale(t.rows, 1) && b !in Stale(t.rows, 1);
    assert t'.rows[a] == t.rows[a];
    assert SourceNumber(t'.rows, a) == t'.rows[b].number == t.rows[b].number;
    if Depth(t.rows, b) == 1 {
      ShallowIsStripped(t, b);
      SameButStartHasOtherWork(t.rows[b], t'.rows[b]);
    } else {
      ClearShortens(t, b);
    }
  }

  lemma {:induction false} RunFirst(t: Table, op: Op, ops: seq<Op>)
    ensures Run(t, [op] + ops) == Run(Apply(t, op), ops)
    decreases |ops|
  {
    if ops == [] {
      RunSnoc(t, [], op);
      assert [op] + ops == [] + [op];
    } else {
      var front, last := ops[..|ops| - 1], ops[|ops| - 1];
      assert ops == front + [last] && [op] + ops == ([op] + front) + [last];
      RunFirst(t, op, front);
      RunSnoc(t, [op] + front, last);
      RunSnoc(Apply(t, op), front, last);
    }
  }

  lemma KeptAfterFirst(t: Table, op: Op, ops: seq<Op>, a: SegmentId)
    requires a in t.rows && a in Apply(t, op).rows && Apply(t, op).rows[a] == t.rows[a]
    ensures Kept(t, [op] + ops, a) == Kept(Apply(t, op), ops, a)
  {
    RunFirst(t, op, ops);
  }

  lemma ShallowIsLost(t: Table, a: SegmentId)
    requires Valid(t) && a in t.rows && Endangered(t.rows, a) && Depth(t.rows, a) == 1
    ensures !Kept(t, [CLEAR], a)
  {
    ShallowIsStripped(t, a);
    assert [CLEAR][..0] == [];
    assert Run(t, [CLEAR]) == Apply(t, CLEAR);
  }

  lemma {:induction false} EndangeredIsLost(t: Table, a: SegmentId, d: nat)
    requires Valid(t) && a in t.rows && Endangered(t.rows, a) && Depth(t.rows, a) == d
    ensures !Kept(t, Clears(d), a)
    decreases d
  {
    if d == 1 {
      assert Clears(1) == [CLEAR];
      ShallowIsLost(t, a);
    } else {
      assert Clears(d) == [CLEAR] + Clears(d - 1);
      ClearShortens(t, a);
      KeptAfterFirst(t, CLEAR, Clears(d - 1), a);
      EndangeredIsLost(Apply(t, CLEAR), a, d - 1);
    }
  }

  /** All work of a row survives every sequence of plans and replans if and only if its start frame is
      not endangered. */
  lemma ReplansKeepAllWorkIff(t: Table, a: SegmentId)
    requires Valid(t) && a in t.rows && HasWork(t.rows[a])
    ensures (forall ops :: RealPlans(ops) ==> Kept(t, ops, a)) <==> !Endangered(t.rows, a)
  {
    if Endangered(t.rows, a) {
      EndangeredIsLost(t, a, Depth(t.rows, a));
      assert RealPlans(Clears(Depth(t.rows, a)));
    } else {
      forall ops | RealPlans(ops) ensures Kept(t, ops, a) {
        SafeIsKept(t, ops, a);
      }
    }
  }

  /** A start frame taken from the source is safe: the source carries that frame as work. */
  lemma AgreeingIsSafe(rows: Rows, a: SegmentId)
    requires Numbered(rows) && LinksBack(rows) && FramesAgree(rows) && a in rows
    ensures !Endangered(rows, a)
  {
  }

  // ---------------------------------------------------------------- a run that strips a start frame

  /** Plan three segments, the third continuing from the second; give the third a start frame of its
      own; replan to one segment. */
  ghost const OWN_FRAME_RUN := [
    Plan(THREE, false),
    Edit(2, Framed()),
    Plan([BREAK], true)]

  /** What generating the frame writes: the column and its metadata. */
  ghost function Framed(): Segment {
    Following().(sourceFrame := Some(9), meta := Following().meta[InitialFrame := Ref(9)])
  }

  ghost function Packaged(): Table {
    Table(map[0 := Plain(1), 1 := Plain(2), 2 := Framed()], 3)
  }

  lemma PackagedIsReached()
    ensures Run(EMPTY, OWN_FRAME_RUN[..2]) == Packaged()
    ensures Run(EMPTY, OWN_FRAME_RUN) == Planned(Packaged(), [BREAK], true)
  {
    RunOfThree(EMPTY, OWN_FRAME_RUN[0], OWN_FRAME_RUN[1], OWN_FRAME_RUN[2]);
    assert OWN_FRAME_RUN[..2] == [OWN_FRAME_RUN[0], OWN_FRAME_RUN[1]];
    FollowingPlanned();
    FrameGiven();
  }

  lemma FrameGiven()
    ensures Apply(Table(map[0 := Plain(1), 1 := Plain(2), 2 := Following()], 3), OWN_FRAME_RUN[1]) == Packaged()
  {
  }

  lemma PackagedIsExposed()
    ensures var rows := Packaged().rows;
            && 2 in rows && HasWork(rows[2]) && rows[2].sourceFrame == Some(9) && Strips(rows, 1, 2)
  {
    assert 1 in Stale(Packaged().rows, 1);
  }

  lemma FrameTaken(t: Table, a: SegmentId)
    requires Valid(t) && a in t.rows && HasWork(t.rows[a]) && Strips(t.rows, 1, a)
    ensures var rows := Planned(t, [BREAK], true).rows; a in rows && rows[a].sourceFrame.None?
  {
    OneNeverRaises(t, BREAK, true);
    PlanKeepsWork(t, [BREAK], true, a);
  }

  /** The replan sweeps the idle second segment away and takes the third one's own start frame with it. */
  lemma OwnFrameIsStripped()
    ensures var before, after := Run(EMPTY, OWN_FRAME_RUN[..2]).rows, Run(EMPTY, OWN_FRAME_RUN).rows;
            && 2 in before && HasWork(before[2]) && before[2].sourceFrame == Some(9)
            && 2 in after && after[2].sourceFrame.None?
  {
    PackagedIsReached();
    PackagedIsExposed();
    var t := Run(EMPTY, OWN_FRAME_RUN[..2]);
    EveryRunIsValid(OWN_FRAME_RUN[..2]);
    FrameTaken(t, 2);
  }
}
