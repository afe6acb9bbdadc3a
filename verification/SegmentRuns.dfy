/** What holds after every sequence of operations on a project's segments. */
module SegmentRuns {
  import opened Common
  import opened Segments
  import opened SegmentPlanning
  import opened SegmentContents
  import opened SegmentRenumbering
  import opened SegmentPropagation

  // ---------------------------------------------------------------- one operation

  /** `after` is `before` with one row edited. */
  ghost predicate EditOf(before: Rows, after: Rows, a: SegmentId) {
    && a in before && after.Keys == before.Keys
    && (forall b :: b in after && b != a ==> after[b] == before[b])
    && after[a].number == before[a].number
    && (after[a].source == before[a].source || after[a].source.None?)
    && WellKeyed(before, a, after[a])
  }

  /** An edit can be any change of the row that keeps its number, keeps or drops its link, and keeps its key
      or takes a free one made from its number. */
  lemma EditIsAnyContent(t: Table, id: SegmentId, s: Segment)
    requires id in t.rows && UniqueIdents(t.rows) && s.number == t.rows[id].number
    requires s.source == t.rows[id].source || s.source == None
    requires s.ident == t.rows[id].ident
             || (s.ident.number == s.number && forall b :: b in t.rows && b != id ==> t.rows[b].ident != s.ident)
    ensures Apply(t, Edit(id, s)) == t.(rows := t.rows[id := s])
  {
    assert Edited(t.rows[id], s) == s;
  }

  lemma EditNumbers(before: Rows, after: Rows, a: SegmentId)
    requires EditOf(before, after, a)
    ensures Numbered(before) && Keyed(before) ==> Numbered(after) && Keyed(after)
    ensures forall b :: b in after ==> after[b].number == before[b].number
    ensures forall b :: b in after && after[b].source.Some? ==>
      after[b].source == before[b].source && SourceNumber(after, b) == SourceNumber(before, b)
  {
    forall b | b in after ensures after[b].number == before[b].number {
      assert b == a || after[b] == before[b];
    }
  }

  lemma EditKeepsLinks(before: Rows, after: Rows, a: SegmentId)
    requires EditOf(before, after, a) && LinksBack(before)
    ensures LinksBack(after)
    ensures Nested(before) ==> Nested(after)
    ensures Adjacent(before) ==> Adjacent(after)
  {
    EditNumbers(before, after, a);
  }

  lemma EditIs(t: Table, id: SegmentId, content: Segment)
    requires id in t.rows && !KeyTaken(t.rows, id, content)
    ensures EditOf(t.rows, Apply(t, Edit(id, content)).rows, id) && Apply(t, Edit(id, content)).nextId == t.nextId
  {
  }

  lemma EditKeepsValid(t: Table, id: SegmentId, content: Segment)
    requires Valid(t) && id in t.rows && !KeyTaken(t.rows, id, content)
    ensures Valid(Apply(t, Edit(id, content)))
    ensures Adjacent(t.rows) ==> Adjacent(Apply(t, Edit(id, content)).rows)
    ensures Nested(t.rows) ==> Nested(Apply(t, Edit(id, content)).rows)
  {
    EditIs(t, id, content);
    EditNumbers(t.rows, Apply(t, Edit(id, content)).rows, id);
    EditKeepsLinks(t.rows, Apply(t, Edit(id, content)).rows, id);
  }

  /** The edited row still starts where its source ends, and its final frame is the old one or unused. */
  ghost predicate EditAgrees(rows: Rows, a: SegmentId, content: Segment)
    requires a in rows
  {
    && (rows[a].source.Some? && content.source.Some? ==>
          rows[a].source.value in rows && content.sourceFrame == rows[rows[a].source.value].finalFrame)
    && (content.finalFrame == rows[a].finalFrame || forall b :: b in rows ==> rows[b].source != Some(a))
  }

  lemma EditKeepsFramesIff(t: Table, id: SegmentId, content: Segment)
    requires Valid(t) && FramesAgree(t.rows) && id in t.rows && !KeyTaken(t.rows, id, content)
    ensures FramesAgree(Apply(t, Edit(id, content)).rows) <==> EditAgrees(t.rows, id, content)
  {
    var after := Apply(t, Edit(id, content)).rows;
    EditIs(t, id, content);
    NotItsOwnSource(t.rows, id);
    if EditAgrees(t.rows, id, content) {
      forall b | b in after && after[b].source.Some?
        ensures after[b].source.value in after && after[b].sourceFrame == after[after[b].source.value].finalFrame
      {
        assert b == id || after[b] == t.rows[b];
      }
    } else if content.finalFrame != t.rows[id].finalFrame && exists b :: b in t.rows && t.rows[b].source == Some(id) {
      var b :| b in t.rows && t.rows[b].source == Some(id);
      assert after[b] == t.rows[b];
    }
  }

  lemma NotItsOwnSource(rows: Rows, a: SegmentId)
    requires LinksBack(rows) && a in rows
    ensures rows[a].source != Some(a)
  {
    assert rows[a].source.Some? ==> SourceNumber(rows, a) < rows[a].number;
  }

  lemma ApplyKeepsValid(t: Table, op: Op)
    requires Valid(t)
    ensures Valid(Apply(t, op))
  {
    match op
    case Plan(payloads, replace) => PlanKeepsValid(t, payloads, replace);
    case Delete(id, now) => DeleteKeepsValid(t, id, now);
    case Approve(id, frame) => if id in t.rows { ApproveKeepsValid(t, id, frame); }
    case Propagate(id) => if id in t.rows { PropagateKeepsValid(t, id); }
    case Edit(id, content) => if id in t.rows && !KeyTaken(t.rows, id, content) { EditKeepsValid(t, id, content); }
  }

  /** A plan that is refused or writes no link right after a hit, a propagation that does not jump over a
      gap in the numbering; every other operation qualifies. */
  ghost predicate JumpsNoGap(t: Table, op: Op) {
    match op
    case Plan(payloads, replace) => Raises(t, payloads, replace) || !LinksPastHit(t.rows, payloads, replace)
    case Approve(id, _) => id in t.rows ==> NoGapAfter(t.rows, id)
    case Propagate(id) => id in t.rows && t.rows[id].finalFrame.Some? ==> NoGapAfter(t.rows, id)
    case _ => true
  }

  /** An operation keeps every link on the row numbered exactly one less if and only if it writes no link
      across a gap. */
  lemma ApplyKeepsAdjacentIff(t: Table, op: Op)
    requires Valid(t) && Adjacent(t.rows)
    ensures Adjacent(Apply(t, op).rows) <==> JumpsNoGap(t, op)
  {
    match op
    case Plan(payloads, replace) => PlanKeepsAdjacentIff(t, payloads, replace);
    case Delete(id, now) => DeleteKeepsAdjacent(t, id, now);
    case Approve(id, frame) => if id in t.rows { ApproveKeepsAdjacentIff(t, id, frame); }
    case Propagate(id) => if id in t.rows { PropagateKeepsAdjacentIff(t.rows, id); }
    case Edit(id, content) => if id in t.rows && !KeyTaken(t.rows, id, content) { EditKeepsValid(t, id, content); }
  }

  /** The operation leaves no linked row starting on another frame than its source ends on. */
  ghost predicate Agrees(t: Table, op: Op) {
    match op
    case Approve(id, frame) => id in t.rows ==> !LeavesFormer(t.rows, id, frame)
    case Edit(id, content) => id in t.rows && !KeyTaken(t.rows, id, content) ==> EditAgrees(t.rows, id, content)
    case _ => true
  }

  /** Plans, deletes and propagations always keep frame agreement; an approval or an edit does exactly
      under its condition. */
  lemma ApplyKeepsFramesIff(t: Table, op: Op)
    requires Valid(t) && FramesAgree(t.rows)
    ensures FramesAgree(Apply(t, op).rows) <==> Agrees(t, op)
  {
    match op
    case Plan(payloads, replace) => PlanKeepsValid(t, payloads, replace);
    case Delete(id, now) => DeleteKeepsValid(t, id, now);
    case Approve(id, frame) => if id in t.rows { ApproveKeepsFramesIff(t, id, frame); }
    case Propagate(id) => if id in t.rows { PropagateKeepsFrames(t, id); }
    case Edit(id, content) => if id in t.rows && !KeyTaken(t.rows, id, content) { EditKeepsFramesIff(t, id, content); }
  }

  // ---------------------------------------------------------------- every run

  lemma RunSnoc(t: Table, ops: seq<Op>, last: Op)
    ensures Run(t, ops + [last]) == Apply(Run(t, ops), last)
  {
    assert (ops + [last])[..|ops|] == ops;
  }

  lemma RunOfThree(t: Table, a: Op, b: Op, c: Op)
    ensures Run(t, [a, b]) == Apply(Apply(t, a), b)
    ensures Run(t, [a, b, c]) == Apply(Apply(Apply(t, a), b), c)
  {
    RunSnoc(t, [], a);
    RunSnoc(t, [a], b);
    RunSnoc(t, [a, b], c);
    assert [] + [a] == [a] && [a] + [b] == [a, b] && [a, b] + [c] == [a, b, c];
  }

  /** After every run, whatever frames were generated or cleared in it and whatever rows plans found by
      their keys: numbers are distinct and positive, links name existing earlier rows, keys are distinct,
      and none is made from a lower number than its row has. */
  lemma {:induction false} RunKeepsValid(t: Table, ops: seq<Op>)
    requires Valid(t)
    ensures Valid(Run(t, ops))
    decreases |ops|
  {
    if ops != [] {
      RunKeepsValid(t, ops[..|ops| - 1]);
      ApplyKeepsValid(Run(t, ops[..|ops| - 1]), ops[|ops| - 1]);
    }
  }

  lemma EveryRunIsValid(ops: seq<Op>)
    ensures Valid(Run(EMPTY, ops))
  {
    RunKeepsValid(EMPTY, ops);
  }

  ghost predicate RunAgrees(t: Table, ops: seq<Op>)
    decreases |ops|
  {
    ops != [] ==> RunAgrees(t, ops[..|ops| - 1]) && Agrees(Run(t, ops[..|ops| - 1]), ops[|ops| - 1])
  }

  /** As long as every approval and edit agrees, every linked row starts on its source's final frame. */
  lemma {:induction false} RunKeepsFrames(t: Table, ops: seq<Op>)
    requires Valid(t) && FramesAgree(t.rows) && RunAgrees(t, ops)
    ensures FramesAgree(Run(t, ops).rows)
    decreases |ops|
  {
    if ops != [] {
      RunKeepsFrames(t, ops[..|ops| - 1]);
      RunKeepsValid(t, ops[..|ops| - 1]);
      ApplyKeepsFramesIff(Run(t, ops[..|ops| - 1]), ops[|ops| - 1]);
    }
  }

  ghost predicate RunJumpsNoGap(t: Table, ops: seq<Op>)
    decreases |ops|
  {
    ops != [] ==>
      && RunJumpsNoGap(t, ops[..|ops| - 1])
      && JumpsNoGap(Run(t, ops[..|ops| - 1]), ops[|ops| - 1])
  }

  /** As long as no plan or propagation links across a gap, every link names the row numbered exactly one less. */
  lemma {:induction false} RunKeepsAdjacent(t: Table, ops: seq<Op>)
    requires Valid(t) && Adjacent(t.rows) && RunJumpsNoGap(t, ops)
    ensures Adjacent(Run(t, ops).rows)
    decreases |ops|
  {
    if ops != [] {
      RunKeepsAdjacent(t, ops[..|ops| - 1]);
      RunKeepsValid(t, ops[..|ops| - 1]);
      ApplyKeepsAdjacentIff(Run(t, ops[..|ops| - 1]), ops[|ops| - 1]);
    }
  }

  /** Under the same condition no link reaches across another. */
  lemma ApplyKeepsNested(t: Table, op: Op)
    requires Valid(t) && Nested(t.rows) && (op.Plan? ==> JumpsNoGap(t, op))
    ensures Nested(Apply(t, op).rows)
  {
    match op
    case Plan(payloads, replace) => PlanKeepsNested(t, payloads, replace);
    case Delete(id, now) => DeleteKeepsValid(t, id, now);
    case Approve(id, frame) => if id in t.rows { ApproveKeepsValid(t, id, frame); }
    case Propagate(id) => if id in t.rows { PropagateKeepsValid(t, id); }
    case Edit(id, content) => if id in t.rows && !KeyTaken(t.rows, id, content) { EditKeepsValid(t, id, content); }
  }

  lemma {:induction false} RunKeepsNested(t: Table, ops: seq<Op>)
    requires Valid(t) && Nested(t.rows) && RunJumpsNoGap(t, ops)
    ensures Nested(Run(t, ops).rows)
    decreases |ops|
  {
    if ops != [] {
      RunKeepsNested(t, ops[..|ops| - 1]);
      RunKeepsValid(t, ops[..|ops| - 1]);
      ApplyKeepsNested(Run(t, ops[..|ops| - 1]), ops[|ops| - 1]);
    }
  }

  // ---------------------------------------------------------------- following links

  /** The rows met by following links from `a`. The recursion is bounded by the number of `a`. */
  ghost function Chain(rows: Rows, a: SegmentId): (chain: seq<SegmentId>)
    requires Numbered(rows) && LinksBack(rows) && a in rows
    ensures 1 <= |chain| <= rows[a].number && chain[0] == a
    ensures forall i :: 0 <= i < |chain| ==> chain[i] in rows
    ensures forall i :: 0 <= i < |chain| - 1 ==> rows[chain[i]].source == Some(chain[i + 1])
    ensures rows[chain[|chain| - 1]].source.None?
    decreases rows[a].number
  {
    match rows[a].source
    case None => [a]
    case Some(b) =>
      assert SourceNumber(rows, a) == rows[b].number;
      [a] + Chain(rows, b)
  }
}
