/** Plan and replan: the table invariant, adjacency of links, and the survival of work. */
module SegmentPlanning {
  import opened Common
  import opened Segments

  // ---------------------------------------------------------------- the stale sweep

  lemma SweepKeepsValid(t: Table, size: nat)
    requires Valid(t)
    ensures Nested(t.rows) ==> Nested(Sweep(t.rows, size))
    ensures Valid(t.(rows := Sweep(t.rows, size)))
    ensures Adjacent(t.rows) ==> Adjacent(Sweep(t.rows, size))
    ensures FramesAgree(t.rows) ==> FramesAgree(Sweep(t.rows, size))
  {
    var rows := Sweep(t.rows, size);
    forall a | a in rows
      ensures a in t.rows && rows[a].number == t.rows[a].number
      ensures rows[a].source.Some? ==> rows[a] == t.rows[a] && rows[a].source.value in rows
      ensures rows[a].source.Some? ==> SourceNumber(rows, a) == SourceNumber(t.rows, a)
      ensures rows[a].finalFrame == t.rows[a].finalFrame && rows[a].ident == t.rows[a].ident
    {
      if t.rows[a].source.Some? {
        assert t.rows[a].source.value in t.rows;
      }
    }
  }

  /** What a replan must leave alone on a row that carries work. */
  ghost predicate SameWork(s: Segment, s': Segment) {
    && s'.number == s.number
    && s'.ident == s.ident
    && s'.prompt == s.prompt
    && s'.details == s.details
    && s'.status == s.status
    && s'.asset == s.asset
    && s'.generatedVideo == s.generatedVideo
    && s'.sourceFrame == s.sourceFrame
    && s'.finalFrame == s.finalFrame
    && s'.meta - {RefreshPreserved, RefreshReason} == s.meta - {RefreshPreserved, RefreshReason}
  }

  lemma SameWorkHasWork(s: Segment, s': Segment)
    requires SameWork(s, s')
    ensures HasWork(s') == HasWork(s)
  {
    var drop := {RefreshPreserved, RefreshReason};
    forall k | k !in drop ensures (k in s'.meta) == (k in s.meta) && (k in s.meta ==> s'.meta[k] == s.meta[k]) {
      assert (k in s'.meta - drop) == (k in s.meta - drop);
      if k in s.meta {
        assert s'.meta[k] == (s'.meta - drop)[k] == (s.meta - drop)[k] == s.meta[k];
      }
    }
    assert forall k :: k !in drop ==> Truthy(s'.meta, k) == Truthy(s.meta, k);
  }

  /** Everything but the start frame, which may have been cleared. */
  ghost predicate SameButStart(s: Segment, s': Segment) {
    && SameWork(s.(sourceFrame := s'.sourceFrame), s')
    && (s'.sourceFrame == s.sourceFrame || s'.sourceFrame.None?)
  }

  /** A sweep takes the start frame of row `a`: the row continues from one that is about to go. */
  predicate Strips(rows: Rows, size: nat, a: SegmentId)
    requires a in rows
  {
    rows[a].source.Some? && rows[a].source.value in Stale(rows, size) && rows[a].sourceFrame.Some?
  }

  /** The sweep clears links before work is tested again. It removes no row with work, touches none
      inside the plan's range, and takes a start frame exactly where the row's source is stale. */
  lemma SweepKeepsWork(t: Table, size: nat, a: SegmentId)
    requires Valid(t) && a in t.rows && HasWork(t.rows[a])
    ensures a in Sweep(t.rows, size)
    ensures SameButStart(t.rows[a], Sweep(t.rows, size)[a])
    ensures SameWork(t.rows[a], Sweep(t.rows, size)[a]) <==> !Strips(t.rows, size, a)
    ensures t.rows[a].number <= size ==> Sweep(t.rows, size)[a] == t.rows[a]
  {
    assert t.rows[a].source.Some? ==> SourceNumber(t.rows, a) < t.rows[a].number;
  }

  /** Inside the plan's range the sweep leaves every row as it is. */
  lemma SweepKeepsRange(t: Table, size: nat, a: SegmentId)
    requires Valid(t) && a in t.rows && t.rows[a].number <= size
    ensures a in Sweep(t.rows, size) && Sweep(t.rows, size)[a] == t.rows[a]
  {
    assert t.rows[a].source.Some? ==> SourceNumber(t.rows, a) < t.rows[a].number;
  }

  // ---------------------------------------------------------------- one payload

  /** Between two payloads: the row the last one landed on is numbered below the next. */
  ghost predicate PreviousIs(rows: Rows, number: int, previous: Option<SegmentId>) {
    if number == 1 then previous.None?
    else previous.Some? && previous.value in rows && rows[previous.value].number < number
  }

  /** The ways a single written row may be linked: as it was, not at all, or to an earlier row. */
  ghost predicate WellLinked(rows: Rows, a: SegmentId, s: Segment) {
    || (a in rows && s.source == rows[a].source && s.sourceFrame == rows[a].sourceFrame)
    || (s.source.None? && s.sourceFrame.None?)
    || (s.source.Some? && s.source.value in rows
        && rows[s.source.value].number < s.number
        && s.sourceFrame == rows[s.source.value].finalFrame)
  }

  /** The ways it may be keyed: as it was, or by a free key made from its number. */
  ghost predicate WellKeyed(rows: Rows, a: SegmentId, s: Segment) {
    || (a in rows && s.ident == rows[a].ident)
    || (s.ident.number == s.number && forall b :: b in rows && b != a ==> rows[b].ident != s.ident)
  }

  /** A written row keeps its number and final frame, or is new and takes a free number. */
  ghost predicate CanPut(t: Table, a: SegmentId, s: Segment) {
    && s.number >= 1
    && WellLinked(t.rows, a, s) && WellKeyed(t.rows, a, s)
    && (a in t.rows ==> s.number == t.rows[a].number && s.finalFrame == t.rows[a].finalFrame)
    && (a !in t.rows ==> a == t.nextId && forall b :: b in t.rows ==> t.rows[b].number != s.number)
  }

  ghost function Put(t: Table, a: SegmentId, s: Segment): Table {
    Table(t.rows[a := s], if a in t.rows then t.nextId else t.nextId + 1)
  }

  lemma PutKeepsNumbered(t: Table, a: SegmentId, s: Segment)
    requires Valid(t) && CanPut(t, a, s)
    ensures Numbered(t.rows[a := s])
  {
  }

  lemma PutKeepsKeyed(t: Table, a: SegmentId, s: Segment)
    requires Valid(t) && CanPut(t, a, s)
    ensures Keyed(t.rows[a := s])
  {
  }

  lemma PutKeepsLinksBack(t: Table, a: SegmentId, s: Segment)
    requires Valid(t) && CanPut(t, a, s)
    ensures LinksBack(t.rows[a := s])
  {
    var rows := t.rows[a := s];
    forall b | b in rows && rows[b].source.Some?
      ensures rows[b].source.value in rows && SourceNumber(rows, b) < rows[b].number
    {
      if b != a || (a in t.rows && s.source == t.rows[a].source) {
        assert t.rows[b].source == rows[b].source && SourceNumber(t.rows, b) < t.rows[b].number;
      }
    }
  }

  lemma PutKeepsFrames(t: Table, a: SegmentId, s: Segment)
    requires Valid(t) && FramesAgree(t.rows) && CanPut(t, a, s)
    ensures FramesAgree(t.rows[a := s])
  {
    var rows := t.rows[a := s];
    forall b | b in rows && rows[b].source.Some?
      ensures rows[b].source.value in rows && rows[b].sourceFrame == rows[rows[b].source.value].finalFrame
    {
      if b != a {
        assert rows[b] == t.rows[b];
      }
    }
  }

  ghost predicate Filled(rows: Rows, number: int) {
    exists a :: a in rows && rows[a].number == number
  }

  /** What handling one payload writes: the row at its number, or nothing where a row holds its key. */
  lemma PlanStepPuts(t: Table, number: int, payload: Payload, previous: Option<SegmentId>, replace: bool)
    requires Valid(t) && number >= 1 && PreviousIs(t.rows, number, previous)
    requires !Collides(t.rows, number, payload, replace)
    ensures var (t', row) := PlanStep(t, number, payload, previous, replace);
            && row in t'.rows && t' == Put(t, row, t'.rows[row]) && CanPut(t, row, t'.rows[row])
            && t'.rows[row].number <= number
  {
    var (t', row) := PlanStep(t, number, payload, previous, replace);
    if row in t.rows {
      assert t'.rows == t.rows[row := t'.rows[row]];
    }
    StepIsKeyed(t, number, payload, previous, replace, t'.rows[row], row);
  }

  lemma StepIsKeyed(t: Table, number: int, payload: Payload, previous: Option<SegmentId>, replace: bool, s: Segment, row: SegmentId)
    requires Valid(t) && (previous.Some? ==> previous.value in t.rows) && !Collides(t.rows, number, payload, replace)
    requires var (t', row') := PlanStep(t, number, payload, previous, replace); row == row' && row in t'.rows && s == t'.rows[row]
    ensures WellKeyed(t.rows, row, s)
  {
  }

  lemma PlanStepKeepsValid(t: Table, number: int, payload: Payload, previous: Option<SegmentId>, replace: bool,
                           after: (Table, Option<SegmentId>))
    requires Valid(t) && number >= 1 && PreviousIs(t.rows, number, previous)
    requires !Collides(t.rows, number, payload, replace)
    requires var (t', row) := PlanStep(t, number, payload, previous, replace); after == (t', Some(row))
    ensures Valid(after.0) && PreviousIs(after.0.rows, number + 1, after.1)
    ensures FramesAgree(t.rows) ==> FramesAgree(after.0.rows)
  {
    PlanStepPuts(t, number, payload, previous, replace);
    var row := after.1.value;
    var s := after.0.rows[row];
    PutKeepsNumbered(t, row, s);
    PutKeepsKeyed(t, row, s);
    PutKeepsLinksBack(t, row, s);
    if FramesAgree(t.rows) { PutKeepsFrames(t, row, s); }
  }

  /** Row `a` is still there with its work and its link. */
  ghost predicate KeptLinked(rows: Rows, rows': Rows, a: SegmentId)
    requires a in rows
  {
    && a in rows' && SameWork(rows[a], rows'[a])
    && rows'[a].source == rows[a].source && rows'[a].sourceVideo == rows[a].sourceVideo
  }

  lemma KeptLinkedTransitive(r0: Rows, r1: Rows, r2: Rows, a: SegmentId)
    requires a in r0 && KeptLinked(r0, r1, a) && KeptLinked(r1, r2, a)
    ensures KeptLinked(r0, r2, a)
  {
  }

  lemma PlanStepKeepsWork(t: Table, number: int, payload: Payload, previous: Option<SegmentId>, replace: bool, a: SegmentId)
    requires t.nextId !in t.rows && (previous.Some? ==> previous.value in t.rows)
    requires a in t.rows && HasWork(t.rows[a])
    ensures KeptLinked(t.rows, PlanStep(t, number, payload, previous, replace).0.rows, a)
  {
    var s := t.rows[a];
    assert Spared(s).meta - {RefreshPreserved, RefreshReason} == s.meta - {RefreshPreserved, RefreshReason};
  }

  // ---------------------------------------------------------------- the whole plan

  lemma {:induction false} PlanUpToKeepsValid(t: Table, payloads: seq<Payload>, replace: bool, k: nat)
    requires Valid(t) && k <= |payloads| && !RaisesWithin(t, payloads, replace, k)
    ensures var (t', previous) := PlanUpTo(t, payloads, replace, k);
            Valid(t') && PreviousIs(t'.rows, k + 1, previous)
    ensures FramesAgree(t.rows) ==> FramesAgree(PlanUpTo(t, payloads, replace, k).0.rows)
  {
    if k > 0 {
      PlanUpToKeepsValid(t, payloads, replace, k - 1);
      var (before, previous) := PlanUpTo(t, payloads, replace, k - 1);
      PlanStepKeepsValid(before, k, payloads[k - 1], previous, replace, PlanUpTo(t, payloads, replace, k));
    }
  }

  /** The part of the invariant that holds even of a plan that is going to be refused. */
  ghost predicate Ahead(t: Table) {
    IdsUsed(t) && KeysAhead(t.rows)
  }

  ghost predicate KeysAhead(rows: Rows) {
    Numbered(rows) && forall a :: a in rows ==> rows[a].number <= rows[a].ident.number
  }

  lemma StepKeepsAhead(t: Table, number: int, payload: Payload, previous: Option<SegmentId>, replace: bool, after: Table)
    requires Ahead(t) && number >= 1 && (previous.Some? ==> previous.value in t.rows)
    requires after == PlanStep(t, number, payload, previous, replace).0
    ensures Ahead(after)
  {
  }

  lemma {:induction false} PlanUpToKeepsAhead(t: Table, payloads: seq<Payload>, replace: bool, k: nat)
    requires Ahead(t) && k <= |payloads|
    ensures Ahead(PlanUpTo(t, payloads, replace, k).0)
  {
    if k > 0 {
      PlanUpToKeepsAhead(t, payloads, replace, k - 1);
      var (before, previous) := PlanUpTo(t, payloads, replace, k - 1);
      StepKeepsAhead(before, k, payloads[k - 1], previous, replace, PlanUpTo(t, payloads, replace, k).0);
    }
  }

  /** A step removes no row and renumbers none; without replacing it leaves idle rows as they are. */
  lemma StepKeepsRow(t: Table, number: int, payload: Payload, previous: Option<SegmentId>, replace: bool, after: Table, a: SegmentId)
    requires t.nextId !in t.rows && a in t.rows && (previous.Some? ==> previous.value in t.rows)
    requires after == PlanStep(t, number, payload, previous, replace).0
    ensures a in after.rows && after.rows[a].number == t.rows[a].number
    ensures !replace && !HasWork(t.rows[a]) ==> after.rows[a] == t.rows[a]
  {
  }

  lemma {:induction false} PlanUpToKeepsRow(t: Table, payloads: seq<Payload>, replace: bool, k: nat, a: SegmentId)
    requires Ahead(t) && k <= |payloads| && a in t.rows
    ensures var rows := PlanUpTo(t, payloads, replace, k).0.rows;
            && a in rows && rows[a].number == t.rows[a].number
            && (!replace && !HasWork(t.rows[a]) ==> rows[a] == t.rows[a])
  {
    if k > 0 {
      PlanUpToKeepsRow(t, payloads, replace, k - 1, a);
      PlanUpToKeepsAhead(t, payloads, replace, k - 1);
      var (before, previous) := PlanUpTo(t, payloads, replace, k - 1);
      StepKeepsRow(before, k, payloads[k - 1], previous, replace, PlanUpTo(t, payloads, replace, k).0, a);
    }
  }

  lemma {:induction false} PlanUpToKeepsWork(t: Table, payloads: seq<Payload>, replace: bool, k: nat, a: SegmentId)
    requires Ahead(t) && k <= |payloads|
    requires a in t.rows && HasWork(t.rows[a])
    ensures KeptLinked(t.rows, PlanUpTo(t, payloads, replace, k).0.rows, a)
  {
    if k > 0 {
      PlanUpToKeepsWork(t, payloads, replace, k - 1, a);
      PlanUpToKeepsAhead(t, payloads, replace, k - 1);
      var (before, previous) := PlanUpTo(t, payloads, replace, k - 1);
      KeptThroughStep(t.rows, before, k, payloads[k - 1], previous, replace, PlanUpTo(t, payloads, replace, k).0.rows, a);
    }
  }

  lemma KeptThroughStep(r0: Rows, t: Table, number: int, payload: Payload, previous: Option<SegmentId>, replace: bool, rows: Rows, a: SegmentId)
    requires t.nextId !in t.rows && (previous.Some? ==> previous.value in t.rows)
    requires a in r0 && HasWork(r0[a]) && KeptLinked(r0, t.rows, a)
    requires rows == PlanStep(t, number, payload, previous, replace).0.rows
    ensures KeptLinked(r0, rows, a)
  {
    SameWorkHasWork(r0[a], t.rows[a]);
    PlanStepKeepsWork(t, number, payload, previous, replace, a);
    KeptLinkedTransitive(r0, t.rows, PlanStep(t, number, payload, previous, replace).0.rows, a);
  }

  lemma PlanKeepsValid(t: Table, payloads: seq<Payload>, replace: bool)
    requires Valid(t)
    ensures Valid(Planned(t, payloads, replace))
    ensures FramesAgree(t.rows) ==> FramesAgree(Planned(t, payloads, replace).rows)
  {
    if !Raises(t, payloads, replace) {
      SweepKeepsValid(t, |payloads|);
      PlanUpToKeepsValid(PlanBase(t, payloads, replace), payloads, replace, |payloads|);
    }
  }
}
