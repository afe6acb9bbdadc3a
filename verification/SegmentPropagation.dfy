/** Propagating an approved final frame: what it changes, that it is idempotent, and when the link it
    writes names the row numbered exactly one less. */
module SegmentPropagation {
  import opened Common
  import opened Segments

  /** The links and frames of `after` when the final frame `frame` of `a` has reached `next`. */
  ghost predicate Spread(before: Rows, after: Rows, a: SegmentId, next: SegmentId, frame: AssetId, changed: bool) {
    && a in before && IsNext(before, a, next) && after.Keys == before.Keys
    && before[a].finalFrame == Some(frame)
    && changed == (before[next].sourceFrame != Some(frame))
    && (forall b :: b in after ==> after[b].number == before[b].number && after[b].ident == before[b].ident)
    && after[next].source == Some(a) && after[next].sourceFrame == Some(frame)
    && after[next].finalFrame == (if changed then None else before[next].finalFrame)
    && (forall b :: b in after && changed && before[b].number > before[a].number && b != next ==>
          after[b].source.None? && after[b].sourceFrame.None? && after[b].finalFrame.None?)
    && (forall b :: b in after && b != next && (!changed || before[b].number <= before[a].number) ==>
          after[b] == before[b])
  }

  lemma NextIsUnique(rows: Rows, a: SegmentId, n1: SegmentId, n2: SegmentId)
    requires UniqueNumbers(rows) && a in rows && IsNext(rows, a, n1) && IsNext(rows, a, n2)
    ensures n1 == n2
  {
  }

  /** A changed start frame: the next row starts on the approved frame, every later final frame is
      void, and every row past the next loses its link. An unchanged one touches only the next row. */
  lemma PropagatedSpreads(rows: Rows, a: SegmentId)
    requires a in rows
    ensures rows[a].finalFrame.Some? && Next(rows, a).Some? ==>
      Spread(rows, Propagated(rows, a), a, Next(rows, a).value, rows[a].finalFrame.value,
             rows[Next(rows, a).value].sourceFrame != rows[a].finalFrame)
    ensures rows[a].finalFrame.None? || Next(rows, a).None? ==> Propagated(rows, a) == rows
  {
  }

  /** The links a row's metadata repeats are those in its columns, and no approval outlives its frame. */
  ghost predicate MetaTells(s: Segment, from: SegmentId, frame: AssetId) {
    && SourceSegment in s.meta && s.meta[SourceSegment] == Ref(from)
    && SourceFrame in s.meta && s.meta[SourceFrame] == Ref(frame)
    && InitialFrame in s.meta && s.meta[InitialFrame] == Ref(frame)
  }

  ghost predicate NotApproved(s: Segment) {
    && FinalFrame !in s.meta && FinalFrameUri !in s.meta
    && forall k :: k in {StoryboardApproved, InitialFrameApproved, FinalFrameApproved} ==> k in s.meta && s.meta[k] == Flag(false)
  }

  /** Propagation writes links, frames and their metadata and nothing else: the next row's metadata
      tells the new link, a changed frame voids the approvals of every later row, and the rows past
      the next are left without a word of their old link. */
  lemma PropagatedMetadata(rows: Rows, a: SegmentId, b: SegmentId)
    requires a in rows && b in rows && rows[a].finalFrame.Some? && Next(rows, a).Some?
    ensures var next := Next(rows, a).value; var frame := rows[a].finalFrame.value;
            var changed := rows[next].sourceFrame != Some(frame);
            var s, s' := rows[b], Propagated(rows, a)[b];
            && s' == s.(source := s'.source, sourceFrame := s'.sourceFrame, finalFrame := s'.finalFrame, meta := s'.meta)
            && (b == next ==> MetaTells(s', a, frame))
            && (changed && s.number > rows[a].number ==> NotApproved(s'))
            && (changed && s.number > rows[a].number && b != next ==>
                  forall k :: k in {SourceSegment, SourceFrame, InitialFrame, SourceFrameUri} ==> k !in s'.meta)
  {
  }

  /** Every metadata entry that does not speak of the link, a final frame or an approval stays; and the next
      row takes over the address of the approved frame if the segment has one. */
  lemma PropagatedOtherMetadata(rows: Rows, a: SegmentId, b: SegmentId, k: Key)
    requires a in rows && b in rows && rows[a].finalFrame.Some? && Next(rows, a).Some?
    ensures var s, s' := rows[b].meta, Propagated(rows, a)[b].meta;
            && (k !in {SourceSegment, SourceFrame, InitialFrame, SourceFrameUri, FinalFrame, FinalFrameUri,
                       StoryboardApproved, InitialFrameApproved, FinalFrameApproved} ==>
                  (k in s' <==> k in s) && (k in s' ==> s'[k] == s[k]))
            && (b == Next(rows, a).value && k == SourceFrameUri ==>
                  if FinalFrameUri in rows[a].meta
                     && rows[a].meta[FinalFrameUri] !in {Null, Flag(false), Text(""), Items(0)}
                  then k in s' && s'[k] == rows[a].meta[FinalFrameUri]
                  else (k in s' <==> k in s) && (k in s' ==> s'[k] == s[k]))
  {
  }

  lemma SpreadKeepsNext(before: Rows, after: Rows, a: SegmentId, next: SegmentId, frame: AssetId, changed: bool)
    requires UniqueNumbers(before) && Spread(before, after, a, next, frame, changed)
    ensures a in after && after[a] == before[a] && Next(after, a) == Some(next)
  {
    assert next in after && after[next].number > after[a].number;
    NextIsUnique(before, a, next, Next(after, a).value);
  }

  /** Propagating twice is propagating once. */
  lemma PropagateIsIdempotent(rows: Rows, a: SegmentId)
    requires UniqueNumbers(rows) && a in rows
    ensures a in Propagated(rows, a)
    ensures Propagated(Propagated(rows, a), a) == Propagated(rows, a)
  {
    PropagatedSpreads(rows, a);
    var once := Propagated(rows, a);
    if rows[a].finalFrame.Some? && Next(rows, a).Some? {
      var frame, next := rows[a].finalFrame.value, Next(rows, a).value;
      SpreadKeepsNext(rows, once, a, next, frame, rows[next].sourceFrame != Some(frame));
      var twice := Propagated(once, a);
      RelinkingIsStable(rows[next], a, frame, rows[a].meta);
      forall b | b in once ensures twice[b] == once[b] {
      }
      assert twice.Keys == once.Keys;
      assert twice == once;
    }
  }

  lemma RelinkingIsStable(s: Segment, from: SegmentId, frame: AssetId, fromMeta: Metadata)
    ensures Linked(Linked(s, from, frame, fromMeta), from, frame, fromMeta) == Linked(s, from, frame, fromMeta)
    ensures Linked(Voided(Linked(s, from, frame, fromMeta)), from, frame, fromMeta)
            == Voided(Linked(s, from, frame, fromMeta))
  {
    var l := Linked(s, from, frame, fromMeta);
    assert Linked(l, from, frame, fromMeta).meta == l.meta;
    assert Linked(Voided(l), from, frame, fromMeta).meta == Voided(l).meta;
  }

  // ---------------------------------------------------------------- the invariant

  lemma SpreadSourceNumber(before: Rows, after: Rows, a: SegmentId, next: SegmentId, frame: AssetId, changed: bool, b: SegmentId)
    requires LinksBack(before) && Spread(before, after, a, next, frame, changed)
    requires b in after && after[b].source.Some?
    ensures after[b].source.value in after
    ensures SourceNumber(after, b) == (if b == next then before[a].number else SourceNumber(before, b))
    ensures b != next ==> after[b] == before[b] && (changed ==> before[b].number <= before[a].number)
  {
  }

  lemma SpreadKeepsLinksBack(before: Rows, after: Rows, a: SegmentId, next: SegmentId, frame: AssetId, changed: bool)
    requires LinksBack(before) && Spread(before, after, a, next, frame, changed)
    ensures LinksBack(after)
  {
    forall b | b in after && after[b].source.Some?
      ensures after[b].source.value in after && SourceNumber(after, b) < after[b].number
    {
      SpreadSourceNumber(before, after, a, next, frame, changed, b);
    }
  }

  lemma SpreadKeepsNested(before: Rows, after: Rows, a: SegmentId, next: SegmentId, frame: AssetId, changed: bool)
    requires LinksBack(before) && Nested(before) && UniqueNumbers(before)
    requires Spread(before, after, a, next, frame, changed)
    ensures Nested(after)
  {
    forall b, m | b in after && m in after && after[b].source.Some? && after[m].source.Some?
      && SourceNumber(after, b) < after[m].number < after[b].number
      ensures SourceNumber(after, b) <= SourceNumber(after, m)
    {
      SpreadSourceNumber(before, after, a, next, frame, changed, b);
      SpreadSourceNumber(before, after, a, next, frame, changed, m);
      if b != next && m == next {
        var s := before[b].source.value;
        assert before[s].number <= before[a].number;
      }
    }
  }

  lemma PropagateKeepsValid(t: Table, a: SegmentId)
    requires Valid(t) && a in t.rows
    ensures Valid(t.(rows := Propagated(t.rows, a)))
    ensures Nested(t.rows) ==> Nested(Propagated(t.rows, a))
  {
    PropagatedSpreads(t.rows, a);
    if t.rows[a].finalFrame.Some? && Next(t.rows, a).Some? {
      var frame, next := t.rows[a].finalFrame.value, Next(t.rows, a).value;
      var changed := t.rows[next].sourceFrame != Some(frame);
      SpreadKeepsLinksBack(t.rows, Propagated(t.rows, a), a, next, frame, changed);
      if Nested(t.rows) { SpreadKeepsNested(t.rows, Propagated(t.rows, a), a, next, frame, changed); }
    }
  }

  ghost function Reframed(rows: Rows, a: SegmentId, frame: AssetId): Rows
    requires a in rows
  {
    rows[a := rows[a].(finalFrame := Some(frame))]
  }

  lemma ReframedNumbers(rows: Rows, a: SegmentId, frame: AssetId)
    requires Numbered(rows) && a in rows
    ensures Numbered(Reframed(rows, a, frame))
    ensures Next(Reframed(rows, a, frame), a) == Next(rows, a)
  {
    var after := Reframed(rows, a, frame);
    assert forall b :: b in after ==> after[b].number == rows[b].number;
    if Next(rows, a).Some? {
      var next := Next(rows, a).value;
      assert next in after && after[next].number > after[a].number;
      NextIsUnique(rows, a, next, Next(after, a).value);
    }
  }

  lemma ReframedLinks(rows: Rows, a: SegmentId, frame: AssetId)
    requires a in rows && LinksBack(rows)
    ensures LinksBack(Reframed(rows, a, frame))
    ensures Nested(rows) ==> Nested(Reframed(rows, a, frame))
    ensures Adjacent(rows) ==> Adjacent(Reframed(rows, a, frame))
  {
    var after := Reframed(rows, a, frame);
    forall b | b in after
      ensures after[b].number == rows[b].number && after[b].source == rows[b].source
      ensures SourceNumber(after, b) == SourceNumber(rows, b)
    {
    }
  }

  lemma ReframedKeepsValid(t: Table, a: SegmentId, frame: AssetId)
    requires Valid(t) && a in t.rows
    ensures Valid(t.(rows := Reframed(t.rows, a, frame)))
    ensures Nested(t.rows) ==> Nested(Reframed(t.rows, a, frame))
    ensures Adjacent(t.rows) ==> Adjacent(Reframed(t.rows, a, frame))
  {
    ReframedNumbers(t.rows, a, frame);
    ReframedLinks(t.rows, a, frame);
  }

  lemma ApproveKeepsValid(t: Table, a: SegmentId, frame: AssetId)
    requires Valid(t) && a in t.rows
    ensures Valid(t.(rows := Approved(t.rows, a, frame)))
    ensures Nested(t.rows) ==> Nested(Approved(t.rows, a, frame))
  {
    ReframedKeepsValid(t, a, frame);
    PropagateKeepsValid(t.(rows := Reframed(t.rows, a, frame)), a);
  }

  // ---------------------------------------------------------------- frame agreement

  /** The frames agree except that rows continuing from `a` start on `former`, which may not be its final frame. */
  ghost predicate AgreeApartFrom(rows: Rows, a: SegmentId, former: Option<AssetId>) {
    forall b :: b in rows && rows[b].source.Some? ==>
      && rows[b].source.value in rows
      && rows[b].sourceFrame == (if rows[b].source.value == a then former else rows[rows[b].source.value].finalFrame)
  }

  /** A row other than `next` continues from `a`. */
  ghost predicate OtherContinues(rows: Rows, a: SegmentId, next: SegmentId) {
    exists b :: b in rows && b != next && rows[b].source == Some(a)
  }

  /** After the spread the frames agree exactly if it reached every row that starts on another frame:
      the start frame of the next row changed, or it is the former one, or nobody else continues from `a`. */
  lemma SpreadFramesIff(before: Rows, after: Rows, a: SegmentId, next: SegmentId, former: Option<AssetId>, frame: AssetId, changed: bool)
    requires LinksBack(before) && UniqueNumbers(before)
    requires AgreeApartFrom(before, a, former) && Spread(before, after, a, next, frame, changed)
    ensures FramesAgree(after) <==> changed || former == Some(frame) || !OtherContinues(before, a, next)
  {
    if changed || former == Some(frame) || !OtherContinues(before, a, next) {
      forall b | b in after && after[b].source.Some?
        ensures after[b].source.value in after && after[b].sourceFrame == after[after[b].source.value].finalFrame
      {
        SpreadFrameOf(before, after, a, next, former, frame, changed, b);
      }
    } else {
      var b :| b in before && b != next && before[b].source == Some(a);
      assert after[b] == before[b] && after[a] == before[a];
    }
  }

  lemma SpreadFrameOf(before: Rows, after: Rows, a: SegmentId, next: SegmentId, former: Option<AssetId>, frame: AssetId, changed: bool, b: SegmentId)
    requires LinksBack(before) && UniqueNumbers(before)
    requires AgreeApartFrom(before, a, former) && Spread(before, after, a, next, frame, changed)
    requires changed || former == Some(frame) || !OtherContinues(before, a, next)
    requires b in after && after[b].source.Some?
    ensures after[b].source.value in after && after[b].sourceFrame == after[after[b].source.value].finalFrame
  {
    SpreadSourceNumber(before, after, a, next, frame, changed, b);
    assert after[a] == before[a];
    if b != next {
      var c := before[b].source.value;
      assert SourceNumber(before, b) == before[c].number < before[b].number;
    }
  }

  lemma NothingContinuesFromLast(rows: Rows, a: SegmentId)
    requires LinksBack(rows) && a in rows && Next(rows, a).None?
    ensures forall b :: b in rows ==> rows[b].source != Some(a)
  {
    forall b | b in rows ensures rows[b].source != Some(a) {
      assert rows[b].source.Some? ==> SourceNumber(rows, b) < rows[b].number;
    }
  }

  /** Propagation keeps the agreement of linked rows. */
  lemma PropagateKeepsFrames(t: Table, a: SegmentId)
    requires Valid(t) && FramesAgree(t.rows) && a in t.rows
    ensures FramesAgree(Propagated(t.rows, a))
  {
    PropagatedSpreads(t.rows, a);
    if t.rows[a].finalFrame.Some? && Next(t.rows, a).Some? {
      var frame, next := t.rows[a].finalFrame.value, Next(t.rows, a).value;
      SpreadFramesIff(t.rows, Propagated(t.rows, a), a, next, Some(frame), frame, t.rows[next].sourceFrame != Some(frame));
    }
  }

  /** The propagation of a new final frame for `a` stops at the next row, because that row already
      starts on it, while a further row continues from `a` and starts on the former frame. */
  ghost predicate LeavesFormer(rows: Rows, a: SegmentId, frame: AssetId)
    requires a in rows
  {
    && rows[a].finalFrame != Some(frame)
    && Next(rows, a).Some? && rows[Next(rows, a).value].sourceFrame == Some(frame)
    && OtherContinues(rows, a, Next(rows, a).value)
  }

  /** Approving a new final frame breaks the agreement with every row that starts on the old one.
      Propagation restores it for the whole table, unless it stops short of one of them. */
  lemma ApproveKeepsFramesIff(t: Table, a: SegmentId, frame: AssetId)
    requires Valid(t) && FramesAgree(t.rows) && a in t.rows
    ensures FramesAgree(Approved(t.rows, a, frame)) <==> !LeavesFormer(t.rows, a, frame)
  {
    ReframedKeepsValid(t, a, frame);
    ReframedNumbers(t.rows, a, frame);
    var rows, former := Reframed(t.rows, a, frame), t.rows[a].finalFrame;
    ReframedFrames(t.rows, a, frame);
    PropagatedSpreads(rows, a);
    if Next(rows, a).Some? {
      var next := Next(rows, a).value;
      SpreadFramesIff(rows, Propagated(rows, a), a, next, former, frame, rows[next].sourceFrame != Some(frame));
    } else {
      NothingContinuesFromLast(rows, a);
    }
  }

  lemma ReframedFrames(rows: Rows, a: SegmentId, frame: AssetId)
    requires a in rows && FramesAgree(rows) && LinksBack(rows)
    ensures AgreeApartFrom(Reframed(rows, a, frame), a, rows[a].finalFrame)
    ensures forall next :: OtherContinues(Reframed(rows, a, frame), a, next) == OtherContinues(rows, a, next)
  {
    var after := Reframed(rows, a, frame);
    assert forall b :: b in after ==> after[b].source == rows[b].source && after[b].sourceFrame == rows[b].sourceFrame;
    assert rows[a].source.Some? ==> SourceNumber(rows, a) < rows[a].number;
  }

  /** A frame no row starts on, such as a newly generated one, always restores the agreement. */
  lemma FreshFrameKeepsFrames(t: Table, a: SegmentId, frame: AssetId)
    requires Valid(t) && FramesAgree(t.rows) && a in t.rows
    requires forall b :: b in t.rows ==> t.rows[b].sourceFrame != Some(frame)
    ensures FramesAgree(Approved(t.rows, a, frame))
  {
    ApproveKeepsFramesIff(t, a, frame);
  }

  // ---------------------------------------------------------------- adjacency

  /** No gap between `a` and the row after it. */
  ghost predicate NoGapAfter(rows: Rows, a: SegmentId)
    requires a in rows
  {
    Next(rows, a).Some? ==> rows[Next(rows, a).value].number == rows[a].number + 1
  }

  /** Propagation writes a link to the row numbered one less exactly when there is no gap to jump. */
  lemma PropagateKeepsAdjacentIff(rows: Rows, a: SegmentId)
    requires Numbered(rows) && LinksBack(rows) && Adjacent(rows) && a in rows
    ensures Adjacent(Propagated(rows, a)) <==> rows[a].finalFrame.None? || NoGapAfter(rows, a)
  {
    PropagatedSpreads(rows, a);
    var after := Propagated(rows, a);
    if rows[a].finalFrame.Some? && Next(rows, a).Some? {
      var frame, next := rows[a].finalFrame.value, Next(rows, a).value;
      var changed := rows[next].sourceFrame != Some(frame);
      SpreadSourceNumber(rows, after, a, next, frame, changed, next);
      assert after[next].source.Some?;
      if rows[next].number == rows[a].number + 1 {
        forall b | b in after && after[b].source.Some?
          ensures after[b].source.value in after && SourceNumber(after, b) == after[b].number - 1
        {
          SpreadSourceNumber(rows, after, a, next, frame, changed, b);
        }
      }
    }
  }

  lemma ApproveKeepsAdjacentIff(t: Table, a: SegmentId, frame: AssetId)
    requires Valid(t) && Adjacent(t.rows) && a in t.rows
    ensures Adjacent(Approved(t.rows, a, frame)) <==> NoGapAfter(t.rows, a)
  {
    ReframedKeepsValid(t, a, frame);
    ReframedNumbers(t.rows, a, frame);
    PropagateKeepsAdjacentIff(Reframed(t.rows, a, frame), a);
  }
}
