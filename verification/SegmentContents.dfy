/** What a plan leaves in the table: row by row, which numbers it fills, and when it is refused. */
module SegmentContents {
  import opened Common
  import opened Segments
  import opened SegmentPlanning

  // ---------------------------------------------------------------- rows after a plan

  /** Payload `n` landed on row `a`: the row of that number or, where there is none, the holder of its key. */
  ghost predicate Lands(rows: Rows, payloads: seq<Payload>, n: int, a: SegmentId)
    requires 1 <= n <= |payloads|
  {
    a in rows && (rows[a].number == n || (!Filled(rows, n) && rows[a].ident == IdentFor(n, payloads[n - 1])))
  }

  /** A row newly written from its payload: pending, without results, and linked to the row that the
      payload before landed on, unless it is the first or breaks continuity. */
  ghost predicate Fresh(rows: Rows, s: Segment, payloads: seq<Payload>)
    requires 1 <= s.number <= |payloads|
  {
    var payload := payloads[s.number - 1];
    && s.ident == Ident(s.number, payload.digest)
    && s.details == payload.details && s.prompt == payload.prompt && s.status == Pending
    && s.asset.None? && s.generatedVideo.None? && s.finalFrame.None?
    && (if s.number == 1 || Truthy(payload.meta, ContinuityBreak) then
          s.source.None? && s.sourceVideo.None? && s.sourceFrame.None? && s.meta == payload.meta
        else
          s.source.Some? && Lands(rows, payloads, s.number - 1, s.source.value) && ContinuesFrom(rows, s, payload, s.source.value))
  }

  /** `s` starts where `b` ends, and its metadata says so too. */
  ghost predicate ContinuesFrom(rows: Rows, s: Segment, payload: Payload, b: SegmentId) {
    && b in rows
    && s.sourceVideo == rows[b].asset && s.sourceFrame == rows[b].finalFrame
    && s.meta == payload.meta[SourceSegment := Ref(b)]
                             [SourceVideo := if rows[b].asset.Some? then Ref(rows[b].asset.value) else Null]
                             [SourceFrame := if rows[b].finalFrame.Some? then Ref(rows[b].finalFrame.value) else Null]
  }

  /** A plan leaves the row alone. */
  predicate Stays(s: Segment, replace: bool) {
    HasWork(s) || !replace
  }

  /** Row `a`, on which payload `n` landed: the earlier row with its work; without replacing, the earlier
      row as it was; and otherwise a fresh one. A row of another number is an earlier one that stays. */
  ghost predicate Follows(base: Rows, rows: Rows, payloads: seq<Payload>, replace: bool, a: SegmentId, n: int)
    requires 1 <= n <= |payloads|
  {
    && Lands(rows, payloads, n, a)
    && (if rows[a].number != n then a in base && Stays(base[a], replace) && base[a].ident == rows[a].ident
        else if a in base && HasWork(base[a]) then SameWork(base[a], rows[a])
        else if a in base && !replace then rows[a] == base[a]
        else Fresh(rows, rows[a], payloads))
  }

  ghost predicate FollowedAt(base: Rows, rows: Rows, payloads: seq<Payload>, replace: bool, n: int)
    requires 1 <= n <= |payloads|
  {
    exists a :: Follows(base, rows, payloads, replace, a, n)
  }

  /** After `k` payloads: rows that stay keep their keys, others up to `k` have keys made from their
      numbers, and the rows beyond are still as in `base`. */
  ghost predicate KeysAfter(base: Rows, rows: Rows, replace: bool, k: nat) {
    && base.Keys <= rows.Keys
    && (forall a :: a in base && Stays(base[a], replace) ==> rows[a].ident == base[a].ident)
    && (forall a :: a in rows && !(a in base && Stays(base[a], replace)) && rows[a].number <= k ==> rows[a].ident.number == rows[a].number)
    && (forall a :: a in rows && rows[a].number > k ==> a in base && rows[a] == base[a])
  }

  ghost predicate FollowedUpTo(base: Rows, rows: Rows, payloads: seq<Payload>, replace: bool, k: nat)
    requires k <= |payloads|
  {
    KeysAfter(base, rows, replace, k) && forall n :: 1 <= n <= k ==> FollowedAt(base, rows, payloads, replace, n)
  }

  ghost predicate PreviousLands(rows: Rows, payloads: seq<Payload>, k: nat, previous: Option<SegmentId>)
    requires k <= |payloads|
  {
    if k == 0 then previous.None? else previous.Some? && Lands(rows, payloads, k, previous.value)
  }

  // ---------------------------------------------------------------- one payload

  /** What one step does: it writes the row at its number, or finds the holder of its key and writes nothing. */
  ghost predicate StepWrites(before: Rows, after: Rows, payloads: seq<Payload>, replace: bool, n: int, row: SegmentId)
    requires 1 <= n <= |payloads|
  {
    && row in after && after == before[row := after[row]]
    && (if after[row].number != n then
          after == before && !Filled(before, n) && after[row].ident == IdentFor(n, payloads[n - 1])
        else
          && (if row in before then before[row].number == n else !Filled(before, n))
          && (row in before && Stays(before[row], replace) ==> after[row].ident == before[row].ident)
          && (row in before && HasWork(before[row]) ==> SameWork(before[row], after[row]))
          && (row in before && !HasWork(before[row]) && !replace ==> after[row] == before[row])
          && (!(row in before && Stays(before[row], replace)) ==> Fresh(after, after[row], payloads)))
  }

  lemma LandsStays(rows: Rows, payloads: seq<Payload>, n: int, a: SegmentId, row: SegmentId, s: Segment)
    requires 1 <= n <= |payloads| && Lands(rows, payloads, n, a)
    requires s.number > n && (row in rows ==> rows[row].number == s.number) && a != row
    ensures Lands(rows[row := s], payloads, n, a)
  {
    var after := rows[row := s];
    if Filled(after, n) {
      var b :| b in after && after[b].number == n;
      assert b in rows && rows[b].number == n;
    }
  }

  lemma StepIsWrite(t: Table, payloads: seq<Payload>, replace: bool, n: int, previous: Option<SegmentId>, after: Table, row: SegmentId)
    requires Ahead(t) && 1 <= n <= |payloads| && PreviousLands(t.rows, payloads, n - 1, previous)
    requires (after, row) == PlanStep(t, n, payloads[n - 1], previous, replace)
    ensures StepWrites(t.rows, after.rows, payloads, replace, n, row)
  {
    if after.rows[row].number == n && !(row in t.rows && Stays(t.rows[row], replace)) {
      StepIsFresh(t, payloads, replace, n, previous, after, row);
    } else if row in t.rows && HasWork(t.rows[row]) {
      PlanStepKeepsWork(t, n, payloads[n - 1], previous, replace, row);
    }
  }

  lemma StepIsFresh(t: Table, payloads: seq<Payload>, replace: bool, n: int, previous: Option<SegmentId>, after: Table, row: SegmentId)
    requires Ahead(t) && 1 <= n <= |payloads| && PreviousLands(t.rows, payloads, n - 1, previous)
    requires (after, row) == PlanStep(t, n, payloads[n - 1], previous, replace)
    requires after.rows[row].number == n && !(row in t.rows && Stays(t.rows[row], replace))
    ensures Fresh(after.rows, after.rows[row], payloads)
  {
    if n > 1 {
      var p := previous.value;
      assert t.rows[p].number <= n - 1;
      LandsStays(t.rows, payloads, n - 1, p, row, after.rows[row]);
    }
  }

  lemma StepLands(before: Rows, after: Rows, payloads: seq<Payload>, replace: bool, n: int, row: SegmentId)
    requires 1 <= n <= |payloads| && StepWrites(before, after, payloads, replace, n, row)
    ensures Lands(after, payloads, n, row)
  {
  }

  // ---------------------------------------------------------------- many payloads

  /** Writing the row at a later number disturbs no earlier one, nor the row it continues from. */
  lemma FollowedStays(base: Rows, rows: Rows, payloads: seq<Payload>, replace: bool, n: int, row: SegmentId, s: Segment)
    requires 1 <= n <= |payloads| && FollowedAt(base, rows, payloads, replace, n)
    requires KeysAhead(rows)
    requires s.number > n && (row in rows ==> rows[row].number == s.number)
    ensures FollowedAt(base, rows[row := s], payloads, replace, n)
  {
    var a :| Follows(base, rows, payloads, replace, a, n);
    var after := rows[row := s];
    assert rows[a].number <= n;
    LandsStays(rows, payloads, n, a, row, s);
    if rows[a].number == n && n > 1 && Fresh(rows, rows[a], payloads) && rows[a].source.Some? {
      var p := rows[a].source.value;
      assert p in rows && rows[p].number <= n - 1;
      LandsStays(rows, payloads, n - 1, p, row, s);
    }
    assert Follows(base, after, payloads, replace, a, n);
  }

  lemma KeysOneMore(base: Rows, rows: Rows, after: Rows, payloads: seq<Payload>, replace: bool, k: nat, row: SegmentId)
    requires 0 < k <= |payloads| && KeysAfter(base, rows, replace, k - 1) && KeysAhead(rows)
    requires StepWrites(rows, after, payloads, replace, k, row)
    ensures KeysAfter(base, after, replace, k)
  {
    if after[row].number != k {
      assert forall a :: a in rows ==> rows[a].number != k;
    }
  }

  lemma FollowsOneMore(base: Rows, rows: Rows, after: Rows, payloads: seq<Payload>, replace: bool, k: nat, row: SegmentId)
    requires 0 < k <= |payloads| && KeysAfter(base, rows, replace, k - 1) && KeysAhead(rows)
    requires StepWrites(rows, after, payloads, replace, k, row)
    ensures Follows(base, after, payloads, replace, row, k)
  {
    StepLands(rows, after, payloads, replace, k, row);
  }

  lemma FollowedOneMore(base: Rows, rows: Rows, after: Rows, payloads: seq<Payload>, replace: bool, k: nat, row: SegmentId)
    requires 0 < k <= |payloads| && FollowedUpTo(base, rows, payloads, replace, k - 1) && KeysAhead(rows)
    requires StepWrites(rows, after, payloads, replace, k, row)
    ensures FollowedUpTo(base, after, payloads, replace, k)
  {
    KeysOneMore(base, rows, after, payloads, replace, k, row);
    FollowsOneMore(base, rows, after, payloads, replace, k, row);
    forall n | 1 <= n <= k ensures FollowedAt(base, after, payloads, replace, n) {
      if n < k && after[row].number == k {
        FollowedStays(base, rows, payloads, replace, n, row, after[row]);
      }
    }
  }

  /** The state of the loop over the payloads after `k` of them. */
  ghost predicate Progress(base: Rows, state: (Table, Option<SegmentId>), payloads: seq<Payload>, replace: bool, k: nat)
    requires k <= |payloads|
  {
    match state.1
    case None => k == 0 && state.0.rows == base && Ahead(state.0)
    case Some(p) => k > 0 && Ahead(state.0) && FollowedUpTo(base, state.0.rows, payloads, replace, k) && Lands(state.0.rows, payloads, k, p)
  }

  lemma ProgressMeans(base: Rows, state: (Table, Option<SegmentId>), payloads: seq<Payload>, replace: bool, k: nat)
    requires k <= |payloads| && Progress(base, state, payloads, replace, k)
    ensures Ahead(state.0) && FollowedUpTo(base, state.0.rows, payloads, replace, k) && PreviousLands(state.0.rows, payloads, k, state.1)
  {
  }

  lemma ProgressOneMore(base: Rows, state: (Table, Option<SegmentId>), payloads: seq<Payload>, replace: bool, k: nat,
                        after: (Table, Option<SegmentId>))
    requires 0 < k <= |payloads| && Progress(base, state, payloads, replace, k - 1)
    requires StepTo(state, k, payloads[k - 1], replace, after)
    ensures Progress(base, after, payloads, replace, k)
  {
    ProgressMeans(base, state, payloads, replace, k - 1);
    var row := after.1.value;
    StepKeepsAhead(state.0, k, payloads[k - 1], state.1, replace, after.0);
    StepIsWrite(state.0, payloads, replace, k, state.1, after.0, row);
    FollowedOneMore(base, state.0.rows, after.0.rows, payloads, replace, k, row);
    StepLands(state.0.rows, after.0.rows, payloads, replace, k, row);
  }

  /** One turn of the loop. */
  ghost predicate StepTo(state: (Table, Option<SegmentId>), number: int, payload: Payload, replace: bool, after: (Table, Option<SegmentId>)) {
    match after.1
    case None => false
    case Some(row) =>
      && (state.1.Some? ==> state.1.value in state.0.rows)
      && PlanStep(state.0, number, payload, state.1, replace) == (after.0, row)
  }

  lemma PlanUpToSteps(t: Table, payloads: seq<Payload>, replace: bool, k: nat)
    requires 0 < k <= |payloads|
    ensures StepTo(PlanUpTo(t, payloads, replace, k - 1), k, payloads[k - 1], replace, PlanUpTo(t, payloads, replace, k))
  {
  }

  lemma {:induction false} PlanUpToProgress(t: Table, payloads: seq<Payload>, replace: bool, k: nat)
    requires Ahead(t) && k <= |payloads|
    ensures Progress(t.rows, PlanUpTo(t, payloads, replace, k), payloads, replace, k)
  {
    if k > 0 {
      PlanUpToProgress(t, payloads, replace, k - 1);
      ProgressNext(t, payloads, replace, k);
    } else {
      assert PlanUpTo(t, payloads, replace, 0) == (t, None);
    }
  }

  lemma ProgressNext(t: Table, payloads: seq<Payload>, replace: bool, k: nat)
    requires 0 < k <= |payloads| && Progress(t.rows, PlanUpTo(t, payloads, replace, k - 1), payloads, replace, k - 1)
    ensures Progress(t.rows, PlanUpTo(t, payloads, replace, k), payloads, replace, k)
  {
    var before, after := PlanUpTo(t, payloads, replace, k - 1), PlanUpTo(t, payloads, replace, k);
    PlanUpToSteps(t, payloads, replace, k);
    ProgressOneMore(t.rows, before, payloads, replace, k, after);
  }

  lemma PlanUpToFollows(t: Table, payloads: seq<Payload>, replace: bool, k: nat)
    requires Ahead(t) && k <= |payloads|
    ensures FollowedUpTo(t.rows, PlanUpTo(t, payloads, replace, k).0.rows, payloads, replace, k)
  {
    PlanUpToProgress(t, payloads, replace, k);
    ProgressMeans(t.rows, PlanUpTo(t, payloads, replace, k), payloads, replace, k);
  }

  // ---------------------------------------------------------------- which numbers a plan fills

  /** The payload for number `n` finds no row of that number but one that stays and holds its key: after
      a delete, the row that once had the number. */
  ghost predicate Hit(rows: Rows, payloads: seq<Payload>, replace: bool, n: int)
    requires 1 <= n <= |payloads|
  {
    !Filled(rows, n) && exists b :: b in rows && rows[b].ident == IdentFor(n, payloads[n - 1]) && Stays(rows[b], replace)
  }

  /** The payload for number `n` is to rewrite a row, but another row with work holds its key. */
  ghost predicate CollidesAt(rows: Rows, payloads: seq<Payload>, replace: bool, n: int)
    requires 1 <= n <= |payloads|
  {
    && replace
    && exists a, b :: a in rows && rows[a].number == n && !HasWork(rows[a])
                      && b in rows && b != a && rows[b].ident == IdentFor(n, payloads[n - 1]) && HasWork(rows[b])
  }

  /** Row `a` is as it was before the sweep, or beyond its range. */
  lemma BaseRows(t: Table, payloads: seq<Payload>, replace: bool)
    requires Valid(t)
    ensures var base := PlanBase(t, payloads, replace).rows;
            && (forall a :: a in base ==> a in t.rows && base[a].number == t.rows[a].number && base[a].ident == t.rows[a].ident)
            && (forall a :: a in t.rows && t.rows[a].number <= |payloads| ==> a in base && base[a] == t.rows[a])
    ensures Valid(PlanBase(t, payloads, replace)) && Ahead(PlanBase(t, payloads, replace))
  {
    BaseIsValid(t, payloads, replace);
    forall a | a in t.rows && t.rows[a].number <= |payloads|
      ensures a in PlanBase(t, payloads, replace).rows && PlanBase(t, payloads, replace).rows[a] == t.rows[a]
    {
      SweepKeepsRange(t, |payloads|, a);
    }
  }

  lemma BaseIsValid(t: Table, payloads: seq<Payload>, replace: bool)
    requires Valid(t)
    ensures Valid(PlanBase(t, payloads, replace)) && Ahead(PlanBase(t, payloads, replace))
  {
    if replace { SweepKeepsValid(t, |payloads|); }
  }

  /** Both conditions only look at rows in the plan's range, which the sweep does not touch. */
  lemma BaseAlike(t: Table, payloads: seq<Payload>, replace: bool, n: int)
    requires Valid(t) && 1 <= n <= |payloads|
    ensures var base := PlanBase(t, payloads, replace).rows;
            && (Hit(base, payloads, replace, n) <==> Hit(t.rows, payloads, replace, n))
            && (CollidesAt(base, payloads, replace, n) <==> CollidesAt(t.rows, payloads, replace, n))
            && (Filled(base, n) <==> Filled(t.rows, n))
  {
    BaseRows(t, payloads, replace);
    var base := PlanBase(t, payloads, replace).rows;
    forall a | a in t.rows && (t.rows[a].number == n || t.rows[a].ident.number == n) ensures a in base && base[a] == t.rows[a] {
      assert t.rows[a].number <= t.rows[a].ident.number;
    }
    forall a | a in base && (base[a].number == n || base[a].ident.number == n) ensures a in t.rows && base[a] == t.rows[a] {
      assert t.rows[a].number <= t.rows[a].ident.number;
    }
  }

  /** A row that stays keeps its key, number and place. */
  lemma HolderStays(base: Table, payloads: seq<Payload>, replace: bool, k: nat, b: SegmentId)
    requires Ahead(base) && k <= |payloads| && b in base.rows && Stays(base.rows[b], replace)
    ensures var rows := PlanUpTo(base, payloads, replace, k).0.rows;
            && b in rows && rows[b].ident == base.rows[b].ident && rows[b].number == base.rows[b].number
            && HasWork(rows[b]) == HasWork(base.rows[b])
  {
    PlanUpToKeepsRow(base, payloads, replace, k, b);
    if HasWork(base.rows[b]) {
      PlanUpToKeepsWork(base, payloads, replace, k, b);
      SameWorkHasWork(base.rows[b], PlanUpTo(base, payloads, replace, k).0.rows[b]);
    }
  }

  /** The rows of a plan that went through, told by those it started from. */
  ghost predicate Outcome(base: Rows, rows: Rows, payloads: seq<Payload>, replace: bool, k: nat)
    requires k <= |payloads|
  {
    && FollowedUpTo(base, rows, payloads, replace, k)
    && UniqueNumbers(rows) && UniqueIdents(rows)
    && (forall a :: a in base ==> rows[a].number == base[a].number)
    && (forall a :: a in base && Stays(base[a], replace) ==> rows[a].source == base[a].source)
  }

  lemma PlanUpToOutcome(base: Table, payloads: seq<Payload>, replace: bool, k: nat)
    requires Valid(base) && Ahead(base) && k <= |payloads| && !RaisesWithin(base, payloads, replace, k)
    ensures Outcome(base.rows, PlanUpTo(base, payloads, replace, k).0.rows, payloads, replace, k)
  {
    PlanUpToFollows(base, payloads, replace, k);
    PlanUpToKeepsValid(base, payloads, replace, k);
    var rows := PlanUpTo(base, payloads, replace, k).0.rows;
    forall a | a in base.rows
      ensures rows[a].number == base.rows[a].number
      ensures Stays(base.rows[a], replace) ==> rows[a].source == base.rows[a].source
    {
      PlanUpToKeepsRow(base, payloads, replace, k, a);
      if HasWork(base.rows[a]) { PlanUpToKeepsWork(base, payloads, replace, k, a); }
    }
  }

  /** A number in the plan's range has a row exactly if its payload was no hit. */
  lemma OutcomeFillsIff(base: Rows, rows: Rows, payloads: seq<Payload>, replace: bool, k: nat, n: int)
    requires k <= |payloads| && 1 <= n <= k && Outcome(base, rows, payloads, replace, k)
    ensures Filled(rows, n) <==> !Hit(base, payloads, replace, n)
  {
    assert FollowedAt(base, rows, payloads, replace, n);
    var a :| Follows(base, rows, payloads, replace, a, n);
    if Filled(base, n) {
      var c :| c in base && base[c].number == n;
      assert c in rows && rows[c].number == n;
    } else if rows[a].number == n {
      assert a !in base;
      assert rows[a].ident == IdentFor(n, payloads[n - 1]);
    }
  }

  // ---------------------------------------------------------------- when a plan is refused

  lemma CollidesAlike(base: Rows, rows: Rows, payloads: seq<Payload>, replace: bool, k: nat)
    requires k < |payloads| && Outcome(base, rows, payloads, replace, k) && KeysAhead(rows)
    ensures Collides(rows, k + 1, payloads[k], replace) <==> CollidesAt(base, payloads, replace, k + 1)
  {
    if Collides(rows, k + 1, payloads[k], replace) {
      var a, b :| a in rows && rows[a].number == k + 1 && !HasWork(rows[a])
                  && b in rows && b != a && rows[b].ident == IdentFor(k + 1, payloads[k]);
      assert a in base && base[a] == rows[a];
      assert rows[b].number <= k;
      assert b in base && HasWork(base[b]);
    }
    if CollidesAt(base, payloads, replace, k + 1) {
      var a, b :| a in base && base[a].number == k + 1 && !HasWork(base[a])
                  && b in base && b != a && base[b].ident == IdentFor(k + 1, payloads[k]) && HasWork(base[b]);
      assert a in rows && rows[a] == base[a];
      assert Stays(base[b], replace) && rows[b].ident == base[b].ident;
    }
  }

  ghost predicate CollidesWithin(rows: Rows, payloads: seq<Payload>, replace: bool, k: nat)
    requires k <= |payloads|
  {
    exists n :: 1 <= n <= k && CollidesAt(rows, payloads, replace, n)
  }

  lemma CollidesOneMore(rows: Rows, payloads: seq<Payload>, replace: bool, k: nat)
    requires k < |payloads|
    ensures CollidesWithin(rows, payloads, replace, k + 1) <==>
            CollidesWithin(rows, payloads, replace, k) || CollidesAt(rows, payloads, replace, k + 1)
  {
  }

  lemma {:induction false} UpToRaisesIff(base: Table, payloads: seq<Payload>, replace: bool, k: nat)
    requires Valid(base) && Ahead(base) && k <= |payloads|
    ensures RaisesWithin(base, payloads, replace, k) <==> CollidesWithin(base.rows, payloads, replace, k)
  {
    if k > 0 {
      UpToRaisesIff(base, payloads, replace, k - 1);
      CollidesOneMore(base.rows, payloads, replace, k - 1);
      if !RaisesWithin(base, payloads, replace, k - 1) {
        NextCollidesIff(base, payloads, replace, k, PlanUpTo(base, payloads, replace, k - 1).0.rows);
      }
    }
  }

  lemma NextCollidesIff(base: Table, payloads: seq<Payload>, replace: bool, k: nat, rows: Rows)
    requires Valid(base) && Ahead(base) && 0 < k <= |payloads| && !RaisesWithin(base, payloads, replace, k - 1)
    requires rows == PlanUpTo(base, payloads, replace, k - 1).0.rows
    ensures Collides(rows, k, payloads[k - 1], replace) <==> CollidesAt(base.rows, payloads, replace, k)
  {
    PlanUpToOutcome(base, payloads, replace, k - 1);
    PlanUpToKeepsAhead(base, payloads, replace, k - 1);
    CollidesAlike(base.rows, rows, payloads, replace, k - 1);
  }

  /** A plan is refused exactly if it replaces and some payload is to rewrite a row while another row,
      with work, holds the payload's key. */
  lemma PlanRaisesIff(t: Table, payloads: seq<Payload>, replace: bool)
    requires Valid(t)
    ensures Raises(t, payloads, replace) <==> CollidesWithin(t.rows, payloads, replace, |payloads|)
  {
    BaseRows(t, payloads, replace);
    var base := PlanBase(t, payloads, replace);
    UpToRaisesIff(base, payloads, replace, |payloads|);
    forall n | 1 <= n <= |payloads|
      ensures CollidesAt(base.rows, payloads, replace, n) <==> CollidesAt(t.rows, payloads, replace, n)
    {
      BaseAlike(t, payloads, replace, n);
    }
  }

  /** Rewriting shifted keys in another order than that of the numbers is refused too: where rows 1 and 2
      hold the keys of 2 and 3, row 2 cannot take its own key before row 1 has given it up. */
  lemma ShiftedKeysCollide(s: Segment, d: nat)
    ensures var rows := map[0 := s.(number := 1, ident := Ident(2, d)), 1 := s.(number := 2, ident := Ident(3, d))];
            && Keyed(rows)
            && Keyed(rows[0 := rows[0].(ident := Ident(1, d))][1 := rows[1].(ident := Ident(2, d))])
            && !UniqueIdents(rows[1 := rows[1].(ident := Ident(2, d))])
  {
    var rows := map[0 := s.(number := 1, ident := Ident(2, d)), 1 := s.(number := 2, ident := Ident(3, d))];
    var early := rows[1 := rows[1].(ident := Ident(2, d))];
    assert early[0].ident == early[1].ident;
  }

  // ---------------------------------------------------------------- the whole plan

  lemma PlanOutcome(t: Table, payloads: seq<Payload>, replace: bool)
    requires Valid(t) && !Raises(t, payloads, replace)
    ensures Outcome(PlanBase(t, payloads, replace).rows, Planned(t, payloads, replace).rows, payloads, replace, |payloads|)
  {
    BaseRows(t, payloads, replace);
    PlanUpToOutcome(PlanBase(t, payloads, replace), payloads, replace, |payloads|);
  }

  /** A plan that goes through fills a number of its range exactly if the number's payload is no hit. */
  lemma PlanFillsIff(t: Table, payloads: seq<Payload>, replace: bool, n: int)
    requires Valid(t) && !Raises(t, payloads, replace) && 1 <= n <= |payloads|
    ensures Filled(Planned(t, payloads, replace).rows, n) <==> !Hit(t.rows, payloads, replace, n)
  {
    PlanOutcome(t, payloads, replace);
    BaseAlike(t, payloads, replace, n);
    OutcomeFillsIff(PlanBase(t, payloads, replace).rows, Planned(t, payloads, replace).rows, payloads, replace, |payloads|, n);
  }

  lemma SameBothWays(s0: Segment, s1: Segment, s2: Segment)
    requires SameWork(s1, s2)
    ensures SameWork(s0, s2) <==> SameWork(s0, s1)
    ensures SameButStart(s0, s2) <==> SameButStart(s0, s1)
  {
  }

  /** A plan loses the start frame of row `a`. */
  ghost predicate Loses(t: Table, payloads: seq<Payload>, replace: bool, a: SegmentId)
    requires a in t.rows
  {
    replace && !Raises(t, payloads, replace) && Strips(t.rows, |payloads|, a)
  }

  /** No plan or replan removes a row with work or alters anything of it but its link and start frame.
      It keeps the start frame too unless, and only unless, the plan goes through, replaces, and the row
      continues from one that it sweeps away; inside the new range the link stays as well. */
  lemma PlanKeepsWork(t: Table, payloads: seq<Payload>, replace: bool, a: SegmentId)
    requires Valid(t) && a in t.rows && HasWork(t.rows[a])
    ensures var rows := Planned(t, payloads, replace).rows;
            && a in rows && SameButStart(t.rows[a], rows[a])
            && (SameWork(t.rows[a], rows[a]) <==> !Loses(t, payloads, replace, a))
            && (rows[a].source == t.rows[a].source || rows[a].source.None?)
            && (t.rows[a].number <= |payloads| || !replace ==> KeptLinked(t.rows, rows, a))
  {
    if !Raises(t, payloads, replace) {
      var base, rows := PlanBase(t, payloads, replace), Planned(t, payloads, replace).rows;
      BaseRows(t, payloads, replace);
      SweepKeepsWork(t, |payloads|, a);
      if HasWork(base.rows[a]) {
        PlanUpToKeepsWork(base, payloads, replace, |payloads|, a);
        SameBothWays(t.rows[a], base.rows[a], rows[a]);
      } else {
        PlanOutcome(t, payloads, replace);
      }
    }
  }

  /** After a plan the row that a payload landed on is the earlier one that had to be kept, or follows the
      payload and continues from the row that the payload before landed on. */
  lemma PlanFollowsPayloads(t: Table, payloads: seq<Payload>, replace: bool, n: int)
    requires Valid(t) && !Raises(t, payloads, replace) && 1 <= n <= |payloads|
    ensures FollowedAt(t.rows, Planned(t, payloads, replace).rows, payloads, replace, n)
  {
    var base, rows := PlanBase(t, payloads, replace).rows, Planned(t, payloads, replace).rows;
    PlanOutcome(t, payloads, replace);
    BaseRows(t, payloads, replace);
    assert FollowedAt(base, rows, payloads, replace, n);
    var a :| Follows(base, rows, payloads, replace, a, n);
    assert a in base ==> rows[a].number == base[a].number == t.rows[a].number;
    if rows[a].number != n {
      assert rows[a].ident == t.rows[a].ident == IdentFor(n, payloads[n - 1]);
      assert t.rows[a].number <= n;
    }
    assert a in base ==> base[a] == t.rows[a];
    assert a in t.rows && a !in base ==> replace && !HasWork(t.rows[a]);
    assert Follows(t.rows, rows, payloads, replace, a, n);
  }

  /** After a plan that goes through, a number of its range has a row unless its payload is a hit; and if
      the plan replaces, the rows beyond it are exactly the earlier ones that carried work. */
  lemma ReplanLeavesOnlyWork(t: Table, payloads: seq<Payload>)
    requires Valid(t) && !Raises(t, payloads, true)
    ensures var rows := Planned(t, payloads, true).rows;
            && (forall n :: 1 <= n <= |payloads| ==> (Filled(rows, n) <==> !Hit(t.rows, payloads, true, n)))
            && (forall a :: a in rows && rows[a].number > |payloads| <==>
                  a in t.rows && t.rows[a].number > |payloads| && HasWork(t.rows[a]))
  {
    PlanOutcome(t, payloads, true);
    BaseRows(t, payloads, true);
    var base, rows := PlanBase(t, payloads, true).rows, Planned(t, payloads, true).rows;
    forall n | 1 <= n <= |payloads| ensures Filled(rows, n) <==> !Hit(t.rows, payloads, true, n) {
      PlanFillsIff(t, payloads, true, n);
    }
    forall a | a in t.rows && HasWork(t.rows[a]) ensures a in base && a in rows && rows[a].number == t.rows[a].number {
      SweepKeepsWork(t, |payloads|, a);
    }
  }

  // ---------------------------------------------------------------- row by row, told by the columns

  /** A metadata entry that is neither null nor false nor empty. */
  predicate Says(meta: Metadata, key: Key) {
    key in meta && meta[key] != Null && meta[key] != Flag(false) && meta[key] != Text("") && meta[key] != Items(0)
  }

  /** The row shows a result or an edit of the user's, apart from a start frame. */
  predicate HoldsResult(s: Segment) {
    || s.status == Succeeded
    || s.asset != None || s.generatedVideo != None || s.finalFrame != None
    || (CustomPrompt in s.meta && s.meta[CustomPrompt] == Flag(true))
    || Says(s.meta, Variants) || Says(s.meta, InitialFrame) || Says(s.meta, FinalFrame)
    || Says(s.meta, ExtractedLastFrame) || Says(s.meta, VideoAsset)
  }

  lemma WorkIs(s: Segment)
    ensures HasWork(s) <==> HoldsResult(s) || s.sourceFrame != None
  {
  }

  /** `s'` is `s` with the two refresh marks and no other change. */
  ghost predicate OnlyMarked(s: Segment, s': Segment) {
    s' == s.(meta := s.meta[RefreshPreserved := Flag(true)][RefreshReason := Text("user_or_generated_work")])
  }

  /** `s'` is `s` with its link and the frame and video that came with it cleared, and no other change. */
  ghost predicate OnlyUnlinked(s: Segment, s': Segment) {
    s' == s.(source := None, sourceVideo := None, sourceFrame := None)
  }

  /** The row goes when a plan of `size` segments replaces: it is past the end, without result or start frame. */
  ghost predicate Goes(rows: Rows, size: nat, a: SegmentId) {
    a in rows && rows[a].number > size && !HoldsResult(rows[a]) && rows[a].sourceFrame == None
  }

  /** What a plan that goes through makes of an earlier row. */
  ghost predicate PlannedRow(before: Rows, after: Rows, payloads: seq<Payload>, replace: bool, a: SegmentId)
    requires a in before && before[a].number >= 1
  {
    var s := before[a];
    if HoldsResult(s) || s.sourceFrame != None then
      a in after &&
      if s.number <= |payloads| then OnlyMarked(s, after[a])
      else if replace && s.source.Some? && Goes(before, |payloads|, s.source.value) then OnlyUnlinked(s, after[a])
      else after[a] == s
    else if !replace then a in after && after[a] == s
    else if s.number > |payloads| then a !in after
    else a in after && after[a].number == s.number && Fresh(after, after[a], payloads)
  }

  lemma StepOnWork(t: Table, k: int, payload: Payload, previous: Option<SegmentId>, replace: bool, after: Table, a: SegmentId)
    requires Ahead(t) && a in t.rows && HasWork(t.rows[a]) && (previous.Some? ==> previous.value in t.rows)
    requires after == PlanStep(t, k, payload, previous, replace).0
    ensures a in after.rows
    ensures after.rows[a] == if t.rows[a].number == k then Spared(t.rows[a]) else t.rows[a]
  {
  }

  lemma SparedHasWork(s: Segment)
    requires HasWork(s)
    ensures HasWork(Spared(s)) && Spared(s).number == s.number
  {
    assert Spared(s).meta - {RefreshPreserved, RefreshReason} == s.meta - {RefreshPreserved, RefreshReason};
    SameWorkHasWork(s, Spared(s));
  }

  lemma {:induction false} PlanUpToOnWork(t: Table, payloads: seq<Payload>, replace: bool, k: nat, a: SegmentId)
    requires Ahead(t) && k <= |payloads| && a in t.rows && HasWork(t.rows[a])
    ensures var rows := PlanUpTo(t, payloads, replace, k).0.rows;
            a in rows && rows[a] == if t.rows[a].number <= k then Spared(t.rows[a]) else t.rows[a]
  {
    if k > 0 {
      PlanUpToOnWork(t, payloads, replace, k - 1, a);
      PlanUpToKeepsAhead(t, payloads, replace, k - 1);
      var (before, previous) := PlanUpTo(t, payloads, replace, k - 1);
      NextOnWork(t.rows[a], before, k, payloads[k - 1], previous, replace, PlanUpTo(t, payloads, replace, k).0, a);
    }
  }

  lemma NextOnWork(s: Segment, before: Table, k: nat, payload: Payload, previous: Option<SegmentId>, replace: bool, after: Table, a: SegmentId)
    requires Ahead(before) && (previous.Some? ==> previous.value in before.rows) && k > 0
    requires HasWork(s) && a in before.rows && before.rows[a] == if s.number <= k - 1 then Spared(s) else s
    requires after == PlanStep(before, k, payload, previous, replace).0
    ensures a in after.rows && after.rows[a] == if s.number <= k then Spared(s) else s
  {
    SparedHasWork(s);
    StepOnWork(before, k, payload, previous, replace, after, a);
  }

  lemma SweptRow(t: Table, size: nat, a: SegmentId)
    requires Valid(t) && a in t.rows
    ensures Goes(t.rows, size, a) <==> a !in Sweep(t.rows, size)
    ensures var s := t.rows[a];
            a in Sweep(t.rows, size) ==>
              if s.source.Some? && Goes(t.rows, size, s.source.value) then s.number > size && OnlyUnlinked(s, Sweep(t.rows, size)[a])
              else Sweep(t.rows, size)[a] == s
  {
    WorkIs(t.rows[a]);
    assert t.rows[a].source.Some? ==> SourceNumber(t.rows, a) < t.rows[a].number;
    if t.rows[a].source.Some? { WorkIs(t.rows[t.rows[a].source.value]); }
  }

  lemma RewrittenIsFresh(base: Rows, rows: Rows, payloads: seq<Payload>, a: SegmentId)
    requires Outcome(base, rows, payloads, true, |payloads|)
    requires a in base && 1 <= base[a].number <= |payloads| && !HasWork(base[a])
    ensures a in rows && rows[a].number == base[a].number && Fresh(rows, rows[a], payloads)
  {
    var n := base[a].number;
    assert FollowedAt(base, rows, payloads, true, n);
    var c :| Follows(base, rows, payloads, true, c, n);
    assert a in rows && rows[a].number == n;
    assert Filled(rows, n);
    assert c == a;
  }

  /** Rows that a plan adds have ids not handed out before. */
  lemma {:induction false} AddedIsNew(t: Table, payloads: seq<Payload>, replace: bool, k: nat, a: SegmentId)
    requires k <= |payloads|
    ensures PlanUpTo(t, payloads, replace, k).0.nextId >= t.nextId
    ensures a in PlanUpTo(t, payloads, replace, k).0.rows ==> a in t.rows || a >= t.nextId
  {
    if k > 0 { AddedIsNew(t, payloads, replace, k - 1, a); }
  }

  lemma GoneStaysGone(t: Table, payloads: seq<Payload>, a: SegmentId)
    requires Valid(t) && !Raises(t, payloads, true) && a in t.rows && a !in Sweep(t.rows, |payloads|)
    ensures a !in Planned(t, payloads, true).rows
  {
    AddedIsNew(PlanBase(t, payloads, true), payloads, true, |payloads|, a);
  }

  /** A plan that goes through, on each earlier row: one with a result or a start frame is marked and left
      alone in the plan's range, and beyond it loses at most its link, and that only to a row that goes; any
      other stays as it is unless the plan replaces, and then is written anew or, past the end, goes. */
  lemma PlanRowByRow(t: Table, payloads: seq<Payload>, replace: bool, a: SegmentId)
    requires Valid(t) && !Raises(t, payloads, replace) && a in t.rows
    ensures PlannedRow(t.rows, Planned(t, payloads, replace).rows, payloads, replace, a)
  {
    WorkIs(t.rows[a]);
    if HasWork(t.rows[a]) {
      PlanOnWork(t, payloads, replace, a);
    } else {
      PlanOnIdle(t, payloads, replace, a);
    }
  }

  /** Every row that a plan adds is written from its payload. */
  lemma AddedRowIsFresh(t: Table, payloads: seq<Payload>, replace: bool, a: SegmentId)
    requires Valid(t) && !Raises(t, payloads, replace) && a !in t.rows && a in Planned(t, payloads, replace).rows
    ensures var rows := Planned(t, payloads, replace).rows;
            1 <= rows[a].number <= |payloads| && Fresh(rows, rows[a], payloads)
  {
    PlanOutcome(t, payloads, replace);
    PlanKeepsValid(t, payloads, replace);
    BaseRows(t, payloads, replace);
    OutcomeRow(PlanBase(t, payloads, replace).rows, Planned(t, payloads, replace).rows, payloads, replace, a);
  }

  lemma PlanOnWork(t: Table, payloads: seq<Payload>, replace: bool, a: SegmentId)
    requires Valid(t) && !Raises(t, payloads, replace) && a in t.rows && HasWork(t.rows[a])
    ensures PlannedRow(t.rows, Planned(t, payloads, replace).rows, payloads, replace, a)
  {
    WorkIs(t.rows[a]);
    SweptRow(t, |payloads|, a);
    BaseRows(t, payloads, replace);
    var base := PlanBase(t, payloads, replace);
    if HasWork(base.rows[a]) {
      PlanUpToOnWork(base, payloads, replace, |payloads|, a);
    } else {
      PlanOutcome(t, payloads, replace);
    }
  }

  lemma PlanOnIdle(t: Table, payloads: seq<Payload>, replace: bool, a: SegmentId)
    requires Valid(t) && !Raises(t, payloads, replace) && a in t.rows && !HasWork(t.rows[a])
    ensures PlannedRow(t.rows, Planned(t, payloads, replace).rows, payloads, replace, a)
  {
    WorkIs(t.rows[a]);
    SweptRow(t, |payloads|, a);
    BaseRows(t, payloads, replace);
    PlanOutcome(t, payloads, replace);
    var base, rows := PlanBase(t, payloads, replace), Planned(t, payloads, replace).rows;
    if !replace {
      PlanUpToKeepsRow(base, payloads, replace, |payloads|, a);
    } else if t.rows[a].number <= |payloads| {
      RewrittenIsFresh(base.rows, rows, payloads, a);
    } else {
      GoneStaysGone(t, payloads, a);
    }
  }

  // ---------------------------------------------------------------- the links a plan writes

  /** Every row is an earlier one whose link is kept, or fresh. */
  lemma OutcomeRow(base: Rows, rows: Rows, payloads: seq<Payload>, replace: bool, a: SegmentId)
    requires Outcome(base, rows, payloads, replace, |payloads|) && Numbered(rows) && a in rows
    ensures (a in base && rows[a].source == base[a].source)
            || (1 <= rows[a].number <= |payloads| && !(a in base && Stays(base[a], replace)) && Fresh(rows, rows[a], payloads))
  {
    var n := rows[a].number;
    if n <= |payloads| && !(a in base && Stays(base[a], replace)) {
      assert FollowedAt(base, rows, payloads, replace, n);
      var c :| Follows(base, rows, payloads, replace, c, n);
      assert Filled(rows, n);
      assert c == a;
    }
  }

  /** The payload for number `n` writes a link: it does not break, and it creates or rewrites a row. */
  ghost predicate WritesLink(rows: Rows, payloads: seq<Payload>, replace: bool, n: int)
    requires 1 <= n <= |payloads|
  {
    && !Truthy(payloads[n - 1].meta, ContinuityBreak) && !Hit(rows, payloads, replace, n)
    && forall a :: a in rows && rows[a].number == n ==> !Stays(rows[a], replace)
  }

  /** A link is written right after a hit; it reaches back to the hit's row, which is numbered lower than
      the payload that found it. */
  ghost predicate LinksPastHit(rows: Rows, payloads: seq<Payload>, replace: bool) {
    exists n :: 1 <= n < |payloads| && Hit(rows, payloads, replace, n) && WritesLink(rows, payloads, replace, n + 1)
  }

  lemma FreshLinkIsNear(base: Rows, rows: Rows, payloads: seq<Payload>, replace: bool, a: SegmentId)
    requires Outcome(base, rows, payloads, replace, |payloads|) && Numbered(rows) && !LinksPastHit(base, payloads, replace)
    requires a in rows && 1 <= rows[a].number <= |payloads| && !(a in base && Stays(base[a], replace))
    requires Fresh(rows, rows[a], payloads) && rows[a].source.Some?
    ensures rows[a].source.value in rows && SourceNumber(rows, a) == rows[a].number - 1
  {
    var n := rows[a].number;
    FreshWritesLink(base, rows, payloads, replace, a);
    NoHitBefore(base, payloads, replace, n);
    OutcomeFillsIff(base, rows, payloads, replace, |payloads|, n - 1);
  }

  lemma NoHitBefore(base: Rows, payloads: seq<Payload>, replace: bool, n: int)
    requires 1 < n <= |payloads| && !LinksPastHit(base, payloads, replace) && WritesLink(base, payloads, replace, n)
    ensures !Hit(base, payloads, replace, n - 1)
  {
    var m := n - 1;
    assert WritesLink(base, payloads, replace, m + 1);
  }

  lemma FreshWritesLink(base: Rows, rows: Rows, payloads: seq<Payload>, replace: bool, a: SegmentId)
    requires Outcome(base, rows, payloads, replace, |payloads|)
    requires a in rows && 1 <= rows[a].number <= |payloads| && !(a in base && Stays(base[a], replace))
    requires Fresh(rows, rows[a], payloads) && rows[a].source.Some?
    ensures rows[a].number > 1 && WritesLink(base, payloads, replace, rows[a].number)
  {
    var n := rows[a].number;
    OutcomeFillsIff(base, rows, payloads, replace, |payloads|, n);
    assert Filled(rows, n);
    forall c | c in base && base[c].number == n ensures !Stays(base[c], replace) {
      assert c in rows && rows[c].number == n;
    }
  }

  lemma LinkPastHitIsFar(base: Rows, rows: Rows, payloads: seq<Payload>, replace: bool, n: int)
    requires Outcome(base, rows, payloads, replace, |payloads|) && Numbered(rows)
    requires 1 <= n < |payloads| && Hit(base, payloads, replace, n) && WritesLink(base, payloads, replace, n + 1)
    ensures !Adjacent(rows)
  {
    OutcomeFillsIff(base, rows, payloads, replace, |payloads|, n);
    OutcomeFillsIff(base, rows, payloads, replace, |payloads|, n + 1);
    assert FollowedAt(base, rows, payloads, replace, n + 1);
    var a :| Follows(base, rows, payloads, replace, a, n + 1);
    assert a in base ==> base[a].number == n + 1;
    assert Fresh(rows, rows[a], payloads);
    var p := rows[a].source.value;
    assert SourceNumber(rows, a) == rows[p].number != n;
  }

  lemma OutcomeAdjacentIff(base: Rows, rows: Rows, payloads: seq<Payload>, replace: bool)
    requires Outcome(base, rows, payloads, replace, |payloads|) && Numbered(rows)
    requires LinksBack(base) && Adjacent(base)
    ensures Adjacent(rows) <==> !LinksPastHit(base, payloads, replace)
  {
    if LinksPastHit(base, payloads, replace) {
      var n :| 1 <= n < |payloads| && Hit(base, payloads, replace, n) && WritesLink(base, payloads, replace, n + 1);
      LinkPastHitIsFar(base, rows, payloads, replace, n);
    } else {
      forall a | a in rows && rows[a].source.Some?
        ensures rows[a].source.value in rows && SourceNumber(rows, a) == rows[a].number - 1
      {
        OutcomeRow(base, rows, payloads, replace, a);
        if a in base && rows[a].source == base[a].source {
          assert SourceNumber(base, a) == base[a].number - 1;
        } else {
          FreshLinkIsNear(base, rows, payloads, replace, a);
        }
      }
    }
  }

  /** A linked row that is not as it was in `base` continues from the row just below. */
  ghost predicate NearOrKept(base: Rows, rows: Rows, a: SegmentId)
    requires a in rows
  {
    || (a in base && rows[a].source == base[a].source && SourceNumber(rows, a) == SourceNumber(base, a) && rows[a].number == base[a].number)
    || SourceNumber(rows, a) == rows[a].number - 1
  }

  lemma OutcomeNested(base: Rows, rows: Rows, payloads: seq<Payload>, replace: bool)
    requires Outcome(base, rows, payloads, replace, |payloads|) && Numbered(rows)
    requires LinksBack(base) && Nested(base) && !LinksPastHit(base, payloads, replace)
    ensures Nested(rows)
  {
    forall a | a in rows && rows[a].source.Some? ensures NearOrKept(base, rows, a) {
      OutcomeRow(base, rows, payloads, replace, a);
      if a in base && rows[a].source == base[a].source {
        assert base[a].source.value in base;
      } else {
        FreshLinkIsNear(base, rows, payloads, replace, a);
      }
    }
  }

  lemma LinksPastHitAlike(t: Table, payloads: seq<Payload>, replace: bool)
    requires Valid(t)
    ensures LinksPastHit(PlanBase(t, payloads, replace).rows, payloads, replace) <==> LinksPastHit(t.rows, payloads, replace)
  {
    var base := PlanBase(t, payloads, replace).rows;
    BaseRows(t, payloads, replace);
    forall n | 1 <= n <= |payloads|
      ensures Hit(base, payloads, replace, n) <==> Hit(t.rows, payloads, replace, n)
      ensures WritesLink(base, payloads, replace, n) <==> WritesLink(t.rows, payloads, replace, n)
    {
      BaseAlike(t, payloads, replace, n);
    }
  }

  /** A plan keeps every link on the row numbered exactly one less if and only if it is refused or writes
      no link right after a hit. */
  lemma PlanKeepsAdjacentIff(t: Table, payloads: seq<Payload>, replace: bool)
    requires Valid(t) && Adjacent(t.rows)
    ensures Adjacent(Planned(t, payloads, replace).rows) <==>
            Raises(t, payloads, replace) || !LinksPastHit(t.rows, payloads, replace)
  {
    if !Raises(t, payloads, replace) {
      PlanOutcome(t, payloads, replace);
      BaseRows(t, payloads, replace);
      PlanKeepsValid(t, payloads, replace);
      SweepKeepsValid(t, |payloads|);
      LinksPastHitAlike(t, payloads, replace);
      OutcomeAdjacentIff(PlanBase(t, payloads, replace).rows, Planned(t, payloads, replace).rows, payloads, replace);
    }
  }

  /** Such a plan also keeps links from crossing. */
  lemma PlanKeepsNested(t: Table, payloads: seq<Payload>, replace: bool)
    requires Valid(t) && Nested(t.rows) && (Raises(t, payloads, replace) || !LinksPastHit(t.rows, payloads, replace))
    ensures Nested(Planned(t, payloads, replace).rows)
  {
    if !Raises(t, payloads, replace) {
      PlanOutcome(t, payloads, replace);
      BaseRows(t, payloads, replace);
      PlanKeepsValid(t, payloads, replace);
      SweepKeepsValid(t, |payloads|);
      LinksPastHitAlike(t, payloads, replace);
      OutcomeNested(PlanBase(t, payloads, replace).rows, Planned(t, payloads, replace).rows, payloads, replace);
    }
  }

  /** A link written right after a hit reaches the hit's row. */
  lemma LinkReachesHolder(base: Rows, rows: Rows, payloads: seq<Payload>, replace: bool, n: int, b: SegmentId) returns (a: SegmentId)
    requires Outcome(base, rows, payloads, replace, |payloads|) && Numbered(rows)
    requires 1 <= n < |payloads| && Hit(base, payloads, replace, n) && WritesLink(base, payloads, replace, n + 1)
    requires b in base && base[b].ident == IdentFor(n, payloads[n - 1]) && Stays(base[b], replace)
    ensures a in rows && rows[a].number == n + 1 && rows[a].source == Some(b) && b in rows
  {
    OutcomeFillsIff(base, rows, payloads, replace, |payloads|, n);
    OutcomeFillsIff(base, rows, payloads, replace, |payloads|, n + 1);
    assert FollowedAt(base, rows, payloads, replace, n + 1);
    a :| Follows(base, rows, payloads, replace, a, n + 1);
    assert a in base ==> base[a].number == n + 1;
    assert Fresh(rows, rows[a], payloads);
    assert rows[b].ident == rows[rows[a].source.value].ident;
  }

  /** A row between the hit's row and the new one that reaches back past the hit's row is crossed. */
  ghost predicate Between(rows: Rows, replace: bool, b: SegmentId, m: SegmentId, n: int) {
    && b in rows && m in rows && Stays(rows[m], replace) && rows[m].source.Some?
    && SourceNumber(rows, m) < rows[b].number < rows[m].number <= n
  }

  lemma LinkPastHitCrosses(base: Rows, rows: Rows, payloads: seq<Payload>, replace: bool, n: int, b: SegmentId, m: SegmentId)
    requires Outcome(base, rows, payloads, replace, |payloads|) && Numbered(rows) && LinksBack(base)
    requires 1 <= n < |payloads| && Hit(base, payloads, replace, n) && WritesLink(base, payloads, replace, n + 1)
    requires b in base && base[b].ident == IdentFor(n, payloads[n - 1]) && Stays(base[b], replace)
    requires Between(base, replace, b, m, n)
    ensures !Nested(rows)
  {
    var a := LinkReachesHolder(base, rows, payloads, replace, n, b);
    assert SourceNumber(rows, m) == SourceNumber(base, m);
    assert SourceNumber(rows, a) == base[b].number;
  }

  // ---------------------------------------------------------------- plans that cannot be refused

  lemma {:induction false} KeepingNeverRaises(t: Table, payloads: seq<Payload>, k: nat)
    requires k <= |payloads|
    ensures !RaisesWithin(t, payloads, false, k)
  {
    if k > 0 { KeepingNeverRaises(t, payloads, k - 1); }
  }

  /** A plan of one segment is never refused: no other row can hold a key made from number 1. */
  lemma OneNeverRaises(t: Table, payload: Payload, replace: bool)
    requires Valid(t)
    ensures !Raises(t, [payload], replace)
    ensures !Hit(t.rows, [payload], replace, 1)
  {
    PlanRaisesIff(t, [payload], replace);
    assert forall b :: b in t.rows && t.rows[b].ident.number == 1 ==> t.rows[b].number == 1;
  }
}
