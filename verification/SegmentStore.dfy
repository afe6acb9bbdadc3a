/**
  The row-by-row code over one project's segment table. Every method is proved to leave the table
  exactly as the corresponding function of `Segments` describes.
 */
module SegmentStores {
  import opened Common
  import opened Segments
  import opened SegmentPlanning
  import opened SegmentContents
  import opened SegmentRenumbering
  import opened SegmentPropagation

  /** What the database raises: UNIQUE(idempotency_key). */
  datatype Refused = KeyTaken

  class SegmentStore {
    var rows: Rows
    var nextId: SegmentId

    function Snapshot(): Table
      reads this
    {
      Table(rows, nextId)
    }

    constructor ()
      ensures Snapshot() == EMPTY
    {
      rows, nextId := map[], 0;
    }

    /** One UPDATE. The preconditions are what the two unique constraints check at that write. */
    method WriteRow(a: SegmentId, s: Segment)
      requires a in rows
      requires forall b :: b in rows && b != a ==> rows[b].number != s.number
      requires s.ident == rows[a].ident || forall b :: b in rows && b != a ==> rows[b].ident != s.ident
      modifies this`rows
      ensures rows == old(rows)[a := s]
      ensures UniqueNumbers(old(rows)) ==> UniqueNumbers(rows)
    {
      rows := rows[a := s];
    }

    // -------------------------------------------------------------- reads

    /** `order` lists the rows outside `left` in number order, and every row in `left` comes after them. */
    static ghost predicate Listed(rows: Rows, order: seq<SegmentId>, left: set<SegmentId>) {
      && left <= rows.Keys
      && (forall i :: 0 <= i < |order| ==> order[i] in rows)
      && (forall i, j :: 0 <= i < j < |order| ==> rows[order[i]].number < rows[order[j]].number)
      && (forall a :: a in rows ==> a in left || a in order)
      && (forall i, a :: 0 <= i < |order| && a in left ==> rows[order[i]].number < rows[a].number)
    }

    static lemma ListOne(rows: Rows, order: seq<SegmentId>, left: set<SegmentId>, least: SegmentId)
      requires UniqueNumbers(rows) && Listed(rows, order, left)
      requires least in left && forall a :: a in left ==> rows[least].number <= rows[a].number
      ensures Listed(rows, order + [least], left - {least})
    {
      assert forall a :: a in order ==> a in order + [least];
      assert least in order + [least];
    }

    /** SELECT ... ORDER BY segment_number. */
    method ListInOrder() returns (order: seq<SegmentId>)
      requires UniqueNumbers(rows)
      ensures InOrder(rows, order)
    {
      order := [];
      var left := rows.Keys;
      while left != {}
        invariant Listed(rows, order, left)
        decreases |left|
      {
        var least := Lowest(left);
        ListOne(rows, order, left, least);
        order := order + [least];
        left := left - {least};
      }
    }

    method Lowest(ids: set<SegmentId>) returns (least: SegmentId)
      requires ids != {} && ids <= rows.Keys
      ensures least in ids && forall a :: a in ids ==> rows[least].number <= rows[a].number
    {
      least :| least in ids;
      var left := ids;
      while left != {}
        invariant left <= ids && least in ids
        invariant forall a :: a in ids && a !in left ==> rows[least].number <= rows[a].number
        decreases |left|
      {
        var a :| a in left;
        if rows[a].number < rows[least].number { least := a; }
        left := left - {a};
      }
    }

    /** The dictionary from segment number to row that a plan works with. */
    method ByNumber() returns (existing: map<int, SegmentId>)
      requires UniqueNumbers(rows)
      ensures forall n :: n in existing ==> existing[n] in rows && rows[existing[n]].number == n
      ensures forall a :: a in rows ==> rows[a].number in existing
    {
      existing := map[];
      var order := ListInOrder();
      for i := 0 to |order|
        invariant forall n :: n in existing ==> existing[n] in rows && rows[existing[n]].number == n
        invariant forall j :: 0 <= j < i ==> rows[order[j]].number in existing
      {
        existing := existing[rows[order[i]].number := order[i]];
      }
    }

    // -------------------------------------------------------------- plan

    /** Rewrites one row without touching its number. */
    method Update(a: SegmentId, s: Segment)
      requires UniqueNumbers(rows) && a in rows && s.number == rows[a].number && s.ident == rows[a].ident
      modifies this`rows
      ensures rows == old(rows)[a := s] && UniqueNumbers(rows)
    {
      WriteRow(a, s);
    }

    method DetachAll(stale: set<SegmentId>)
      requires UniqueNumbers(rows)
      modifies this`rows
      ensures rows.Keys == old(rows).Keys
      ensures forall a :: a in rows ==> rows[a] == Detach(old(rows)[a], stale)
    {
      ghost var was := rows;
      var left := rows.Keys;
      while left != {}
        invariant left <= rows.Keys == was.Keys && UniqueNumbers(rows)
        invariant forall a :: a in rows ==> rows[a] == if a in left then was[a] else Detach(was[a], stale)
        decreases |left|
      {
        var a :| a in left;
        Update(a, Detach(rows[a], stale));
        left := left - {a};
      }
    }

    method RemoveAll(gone: set<SegmentId>)
      requires gone <= rows.Keys
      modifies this`rows
      ensures rows == old(rows) - gone
    {
      var left := gone;
      while left != {}
        invariant left <= gone && rows == old(rows) - (gone - left)
        decreases |left|
      {
        var a :| a in left;
        rows := rows - {a};
        left := left - {a};
      }
    }

    /** Unlinks whatever continued from a stale row, then deletes the stale rows. */
    method SweepStale(size: nat)
      requires UniqueNumbers(rows)
      modifies this`rows
      ensures rows == Sweep(old(rows), size)
    {
      var stale := Stale(rows, size);
      DetachAll(stale);
      RemoveAll(stale);
    }

    /** The dictionary still tells which row holds each number above `k`. */
    static ghost predicate Indexes(existing: map<int, SegmentId>, rows: Rows, k: int) {
      && (forall n :: n > k && n in existing ==> existing[n] in rows && rows[existing[n]].number == n)
      && (forall a :: a in rows && rows[a].number > k ==> rows[a].number in existing)
    }

    /** The i-th listed row is the one that payload i + 1 landed on. */
    static ghost predicate Lists(planned: seq<SegmentId>, rows: Rows, payloads: seq<Payload>) {
      |planned| <= |payloads| && forall i :: 0 <= i < |planned| ==> Lands(rows, payloads, i + 1, planned[i])
    }

    static lemma ListsMore(planned: seq<SegmentId>, before: Rows, after: Rows, payloads: seq<Payload>, replace: bool, row: SegmentId)
      requires |planned| < |payloads| && Lists(planned, before, payloads) && KeysAhead(before)
      requires StepWrites(before, after, payloads, replace, |planned| + 1, row)
      ensures Lists(planned + [row], after, payloads)
    {
      var all := planned + [row];
      StepLands(before, after, payloads, replace, |planned| + 1, row);
      forall i | 0 <= i < |all| ensures Lands(after, payloads, i + 1, all[i]) {
        if i < |planned| && after[row].number == |planned| + 1 {
          assert Lands(before, payloads, i + 1, planned[i]);
          LandsStays(before, payloads, i + 1, planned[i], row, after[row]);
        }
      }
    }

    static lemma IndexStays(existing: map<int, SegmentId>, before: Rows, after: Rows, payloads: seq<Payload>, replace: bool, n: int, row: SegmentId)
      requires 1 <= n <= |payloads| && Indexes(existing, before, n - 1)
      requires StepWrites(before, after, payloads, replace, n, row)
      ensures Indexes(existing, after, n)
    {
    }

    /** Every earlier row is as the plan leaves it, and every other row is written from its payload. */
    static ghost predicate PlannedRows(before: Rows, after: Rows, payloads: seq<Payload>, replace: bool) {
      && (forall a :: a in before ==> before[a].number >= 1 && PlannedRow(before, after, payloads, replace, a))
      && (forall a :: a in after && a !in before ==> 1 <= after[a].number <= |payloads| && Fresh(after, after[a], payloads))
    }

    static lemma PlanWritesRows(t: Table, payloads: seq<Payload>, replace: bool)
      requires Valid(t) && !Raises(t, payloads, replace)
      ensures PlannedRows(t.rows, Planned(t, payloads, replace).rows, payloads, replace)
    {
      var after := Planned(t, payloads, replace).rows;
      forall a | a in t.rows ensures PlannedRow(t.rows, after, payloads, replace, a) {
        PlanRowByRow(t, payloads, replace, a);
      }
      forall a | a in after && a !in t.rows ensures 1 <= after[a].number <= |payloads| && Fresh(after, after[a], payloads) {
        AddedRowIsFresh(t, payloads, replace, a);
      }
    }

    /** Plans or replans the project. `planned` lists the rows the payloads landed on, in order. A plan that
        the database refuses is rolled back. */
    method PlanSegments(payloads: seq<Payload>, replaceExisting: bool) returns (planned: Result<seq<SegmentId>, Refused>)
      requires Valid(Snapshot())
      modifies this
      ensures Snapshot() == Planned(old(Snapshot()), payloads, replaceExisting)
      ensures planned.Err? <==> Raises(old(Snapshot()), payloads, replaceExisting)
      ensures planned.Ok? ==> |planned.value| == |payloads| && Lists(planned.value, rows, payloads)
      ensures planned.Ok? ==> PlannedRows(old(rows), rows, payloads, replaceExisting)
      ensures planned.Err? ==> Snapshot() == old(Snapshot())
    {
      ghost var before := Snapshot();
      if !Raises(before, payloads, replaceExisting) { PlanWritesRows(before, payloads, replaceExisting); }
      BaseIsValid(Snapshot(), payloads, replaceExisting);
      var savedRows, savedId := rows, nextId;
      if replaceExisting {
        SweepStale(|payloads|);
      }
      planned := PlanAll(payloads, replaceExisting);
      if planned.Err? {
        rows, nextId := savedRows, savedId;
      }
    }

    /** What the loop over the payloads relies on after `k` of them. */
    static ghost predicate InLoop(existing: map<int, SegmentId>, t: Table, payloads: seq<Payload>, previous: Option<SegmentId>,
                                  planned: seq<SegmentId>, k: nat)
    {
      match previous
      case None => k == 0 && planned == [] && Valid(t) && Indexes(existing, t.rows, 0)
      case Some(row) =>
        && 0 < k == |planned| && row == planned[k - 1]
        && Valid(t) && Indexes(existing, t.rows, k) && Lists(planned, t.rows, payloads)
    }

    static lemma InLoopMeans(existing: map<int, SegmentId>, t: Table, payloads: seq<Payload>, previous: Option<SegmentId>,
                             planned: seq<SegmentId>, k: nat)
      requires InLoop(existing, t, payloads, previous, planned, k)
      ensures |planned| == k <= |payloads| && Valid(t) && Ahead(t) && PreviousIs(t.rows, k + 1, previous)
      ensures Lists(planned, t.rows, payloads) && PreviousLands(t.rows, payloads, k, previous)
      ensures Indexes(existing, t.rows, k)
    {
      if previous.Some? {
        assert Lands(t.rows, payloads, k - 1 + 1, planned[k - 1]);
      }
    }

    /** Turn `i` of the loop: no refusal, and the step that the payload asks for. */
    static ghost predicate Moves(states: seq<(Table, Option<SegmentId>)>, i: nat, payloads: seq<Payload>, replace: bool)
      requires 0 < i < |states| && i <= |payloads|
    {
      && !Collides(states[i - 1].0.rows, i, payloads[i - 1], replace)
      && StepTo(states[i - 1], i, payloads[i - 1], replace, states[i])
    }

    /** The states of the loop so far. */
    static ghost predicate Trace(states: seq<(Table, Option<SegmentId>)>, base: Table, payloads: seq<Payload>, replace: bool) {
      && 0 < |states| <= |payloads| + 1 && states[0] == (base, None)
      && forall i :: 0 < i < |states| ==> Moves(states, i, payloads, replace)
    }

    static lemma TraceMore(states: seq<(Table, Option<SegmentId>)>, base: Table, payloads: seq<Payload>, replace: bool,
                           after: (Table, Option<SegmentId>))
      requires Trace(states, base, payloads, replace) && |states| <= |payloads|
      requires !Collides(states[|states| - 1].0.rows, |states|, payloads[|states| - 1], replace)
      requires StepTo(states[|states| - 1], |states|, payloads[|states| - 1], replace, after)
      ensures Trace(states + [after], base, payloads, replace)
    {
      var all := states + [after];
      forall i | 0 < i < |all| ensures Moves(all, i, payloads, replace) {
        if i < |states| { assert Moves(states, i, payloads, replace); }
      }
    }

    static ghost predicate Reached(base: Table, payloads: seq<Payload>, replace: bool, k: nat, state: (Table, Option<SegmentId>)) {
      match state.1
      case None => k == 0 && state.0 == base
      case Some(_) =>
        0 < k <= |payloads| && PlanUpTo(base, payloads, replace, k) == state && !RaisesWithin(base, payloads, replace, k)
    }

    static lemma ReachedMeans(base: Table, payloads: seq<Payload>, replace: bool, k: nat, state: (Table, Option<SegmentId>))
      requires k <= |payloads| && Reached(base, payloads, replace, k, state)
      ensures PlanUpTo(base, payloads, replace, k) == state && !RaisesWithin(base, payloads, replace, k)
    {
    }

    static lemma ReachNext(base: Table, payloads: seq<Payload>, replace: bool, k: nat,
                           before: (Table, Option<SegmentId>), after: (Table, Option<SegmentId>))
      requires 0 < k <= |payloads| && Reached(base, payloads, replace, k - 1, before)
      requires !Collides(before.0.rows, k, payloads[k - 1], replace) && StepTo(before, k, payloads[k - 1], replace, after)
      ensures Reached(base, payloads, replace, k, after)
    {
      ReachedMeans(base, payloads, replace, k - 1, before);
      UpToNext(base, payloads, replace, k, before, after);
      NotRefusedNext(base, payloads, replace, k, before);
    }

    static lemma UpToNext(base: Table, payloads: seq<Payload>, replace: bool, k: nat,
                          before: (Table, Option<SegmentId>), after: (Table, Option<SegmentId>))
      requires 0 < k <= |payloads| && PlanUpTo(base, payloads, replace, k - 1) == before
      requires StepTo(before, k, payloads[k - 1], replace, after)
      ensures PlanUpTo(base, payloads, replace, k) == after
    {
    }

    static lemma NotRefusedNext(base: Table, payloads: seq<Payload>, replace: bool, k: nat, before: (Table, Option<SegmentId>))
      requires 0 < k <= |payloads| && PlanUpTo(base, payloads, replace, k - 1) == before
      requires !RaisesWithin(base, payloads, replace, k - 1) && !Collides(before.0.rows, k, payloads[k - 1], replace)
      ensures !RaisesWithin(base, payloads, replace, k)
    {
    }

    static lemma {:induction false} TraceIsReached(states: seq<(Table, Option<SegmentId>)>, base: Table, payloads: seq<Payload>, replace: bool, k: nat)
      requires Trace(states, base, payloads, replace) && k < |states|
      ensures Reached(base, payloads, replace, k, states[k])
    {
      if k > 0 {
        TraceIsReached(states, base, payloads, replace, k - 1);
        assert Moves(states, k, payloads, replace);
        ReachNext(base, payloads, replace, k, states[k - 1], states[k]);
      }
    }

    static lemma TraceReaches(states: seq<(Table, Option<SegmentId>)>, base: Table, payloads: seq<Payload>, replace: bool, k: nat)
      requires Trace(states, base, payloads, replace) && k < |states|
      ensures PlanUpTo(base, payloads, replace, k) == states[k] && !RaisesWithin(base, payloads, replace, k)
    {
      TraceIsReached(states, base, payloads, replace, k);
      ReachedMeans(base, payloads, replace, k, states[k]);
    }

    /** The loop after `k` payloads, the table now being `now`. */
    static ghost predicate Looped(states: seq<(Table, Option<SegmentId>)>, base: Table, existing: map<int, SegmentId>, payloads: seq<Payload>,
                                  replace: bool, previous: Option<SegmentId>, planned: seq<SegmentId>, k: nat, now: Table)
    {
      && |states| == k + 1 && states[k] == (now, previous) && Trace(states, base, payloads, replace)
      && InLoop(existing, now, payloads, previous, planned, k)
    }

    static ghost predicate RefusedAt(states: seq<(Table, Option<SegmentId>)>, base: Table, payloads: seq<Payload>, replace: bool) {
      && Trace(states, base, payloads, replace) && |states| <= |payloads|
      && Collides(states[|states| - 1].0.rows, |states|, payloads[|states| - 1], replace)
    }

    static lemma TraceRefused(states: seq<(Table, Option<SegmentId>)>, base: Table, payloads: seq<Payload>, replace: bool)
      requires RefusedAt(states, base, payloads, replace)
      ensures RaisesWithin(base, payloads, replace, |payloads|)
    {
      TraceReaches(states, base, payloads, replace, |states| - 1);
      RaisesLater(base, payloads, replace, |states|, |payloads|);
    }

    static lemma {:induction false} RaisesLater(base: Table, payloads: seq<Payload>, replace: bool, j: nat, k: nat)
      requires j <= k <= |payloads| && RaisesWithin(base, payloads, replace, j)
      ensures RaisesWithin(base, payloads, replace, k)
      decreases k
    {
      if j < k { RaisesLater(base, payloads, replace, j, k - 1); }
    }

    static lemma StepStaysInLoop(existing: map<int, SegmentId>, t: Table, payloads: seq<Payload>, previous: Option<SegmentId>,
                                 replace: bool, planned: seq<SegmentId>, k: nat, t': Table, row: SegmentId)
      requires 0 < k <= |payloads| && InLoop(existing, t, payloads, previous, planned, k - 1) && PreviousIs(t.rows, k, previous)
      requires !Collides(t.rows, k, payloads[k - 1], replace)
      requires (t', row) == PlanStep(t, k, payloads[k - 1], previous, replace)
      ensures InLoop(existing, t', payloads, Some(row), planned + [row], k)
    {
      InLoopMeans(existing, t, payloads, previous, planned, k - 1);
      PlanStepKeepsValid(t, k, payloads[k - 1], previous, replace, (t', Some(row)));
      StepIsWrite(t, payloads, replace, k, previous, t', row);
      IndexStays(existing, t.rows, t'.rows, payloads, replace, k, row);
      ListsMore(planned, t.rows, t'.rows, payloads, replace, row);
    }

    /** The loop over the payloads, once stale rows are gone; it stops where a write is refused. */
    method PlanAll(payloads: seq<Payload>, replaceExisting: bool) returns (r: Result<seq<SegmentId>, Refused>)
      requires Valid(Snapshot())
      modifies this
      ensures r.Err? <==> RaisesWithin(old(Snapshot()), payloads, replaceExisting, |payloads|)
      ensures r.Ok? ==> Snapshot() == PlanUpTo(old(Snapshot()), payloads, replaceExisting, |payloads|).0
      ensures r.Ok? ==> |r.value| == |payloads| && Lists(r.value, rows, payloads)
    {
      ghost var base := Snapshot();
      ghost var states;
      r, states := PlanLoop(payloads, replaceExisting);
      if r.Ok? {
        TraceReaches(states, base, payloads, replaceExisting, |payloads|);
      } else {
        TraceRefused(states, base, payloads, replaceExisting);
      }
    }

    method PlanLoop(payloads: seq<Payload>, replaceExisting: bool)
      returns (r: Result<seq<SegmentId>, Refused>, ghost states: seq<(Table, Option<SegmentId>)>)
      requires Valid(Snapshot())
      modifies this
      ensures r.Err? ==> RefusedAt(states, old(Snapshot()), payloads, replaceExisting)
      ensures r.Ok? ==> Trace(states, old(Snapshot()), payloads, replaceExisting)
      ensures r.Ok? ==> |states| == |payloads| + 1 && Snapshot() == states[|payloads|].0
      ensures r.Ok? ==> |r.value| == |payloads| && Lists(r.value, rows, payloads)
    {
      ghost var base := Snapshot();
      var existing := ByNumber();
      var planned: seq<SegmentId> := [];
      var previous: Option<SegmentId> := None;
      states := [(base, None)];
      for k := 0 to |payloads|
        invariant Looped(states, base, existing, payloads, replaceExisting, previous, planned, k, Snapshot())
      {
        var row;
        row, states := PlanNext(payloads, replaceExisting, existing, previous, planned, k, base, states);
        if row.Err? {
          return Err(row.error), states;
        }
        planned, previous := planned + [row.value], Some(row.value);
      }
      InLoopMeans(existing, Snapshot(), payloads, previous, planned, |payloads|);
      return Ok(planned), states;
    }

    method PlanNext(payloads: seq<Payload>, replaceExisting: bool, existing: map<int, SegmentId>, previous: Option<SegmentId>,
                    ghost planned: seq<SegmentId>, k: nat, ghost base: Table, ghost states: seq<(Table, Option<SegmentId>)>)
      returns (row: Result<SegmentId, Refused>, ghost states': seq<(Table, Option<SegmentId>)>)
      requires k < |payloads| && Looped(states, base, existing, payloads, replaceExisting, previous, planned, k, Snapshot())
      modifies this
      ensures row.Err? ==> RefusedAt(states', base, payloads, replaceExisting)
      ensures row.Ok? ==> Looped(states', base, existing, payloads, replaceExisting, Some(row.value), planned + [row.value], k + 1, Snapshot())
    {
      ghost var t := Snapshot();
      var n := k + 1;
      InLoopMeans(existing, t, payloads, previous, planned, k);
      row := PlanOne(n, payloads[k], previous, replaceExisting, if n in existing then Some(existing[n]) else None);
      states' := states;
      if row.Ok? {
        StepStaysInLoop(existing, t, payloads, previous, replaceExisting, planned, n, Snapshot(), row.value);
        TraceMore(states, base, payloads, replaceExisting, (Snapshot(), Some(row.value)));
        states' := states + [(Snapshot(), Some(row.value))];
      }
    }

    /** The lookup by key. */
    method FindByKey(ident: Ident) returns (r: Option<SegmentId>)
      requires UniqueIdents(rows)
      ensures r == HolderOf(rows, ident)
    {
      if a :| a in rows && rows[a].ident == ident {
        return Some(a);
      }
      return None;
    }

    /** The row has the payload's content, and no result. */
    static predicate Written(s: Segment, payload: Payload) {
      && s.prompt == payload.prompt && s.details == payload.details && s.status == Pending
      && s.asset == None && s.generatedVideo == None && s.finalFrame == None
    }

    /** What handling a payload makes of the row found at its number. */
    static ghost predicate OneRow(s: Segment, s': Segment, payload: Payload, replace: bool) {
      if HoldsResult(s) || s.sourceFrame != None then OnlyMarked(s, s')
      else if !replace then s' == s
      else s'.number == s.number && Written(s', payload)
    }

    /** Handles one payload; `found` is what the dictionary holds at its number. Where it holds nothing, a
        row with the payload's key is returned and only otherwise one created. */
    method PlanOne(number: int, payload: Payload, previous: Option<SegmentId>, replaceExisting: bool, found: Option<SegmentId>)
      returns (row: Result<SegmentId, Refused>)
      requires Valid(Snapshot()) && (previous.Some? ==> previous.value in rows)
      requires found.Some? ==> found.value in rows && rows[found.value].number == number
      requires found.None? ==> forall a :: a in rows ==> rows[a].number != number
      modifies this
      ensures row.Err? <==> Collides(old(rows), number, payload, replaceExisting)
      ensures row.Err? ==> Snapshot() == old(Snapshot())
      ensures row.Ok? ==> (Snapshot(), row.value) == PlanStep(old(Snapshot()), number, payload, previous, replaceExisting)
      ensures row.Ok? ==> row.value in rows && forall a :: a in old(rows) && a != row.value ==> a in rows && rows[a] == old(rows)[a]
      ensures row.Ok? && found.Some? ==> row == Ok(found.value) && OneRow(old(rows)[row.value], rows[row.value], payload, replaceExisting)
      ensures row.Ok? && found.None? && row.value in old(rows) ==>
        rows == old(rows) && rows[row.value].ident == Ident(number, payload.digest)
      ensures row.Ok? && found.None? && row.value !in old(rows) ==>
        Written(rows[row.value], payload) && rows[row.value].ident == Ident(number, payload.digest)
        && forall a :: a in old(rows) ==> old(rows)[a].ident != Ident(number, payload.digest)
    {
      assert RowAt(rows, number) == found;
      if found.Some? { WorkIs(rows[found.value]); }
      var draft := MakeDraft(rows, payload, previous);
      if found.Some? {
        var a := found.value;
        if HasWork(rows[a]) {
          WriteRow(a, Spared(rows[a]));
        } else if replaceExisting {
          var holder := FindByKey(IdentFor(number, payload));
          if holder.Some? && holder.value != a {
            return Err(KeyTaken);
          }
          WriteRow(a, Rewritten(rows[a], draft));
        }
        return Ok(a);
      }
      var holder := FindByKey(IdentFor(number, payload));
      if holder.Some? {
        return Ok(holder.value);
      }
      var created := nextId;
      rows := rows[created := Created(number, draft)];
      nextId := nextId + 1;
      return Ok(created);
    }

    // -------------------------------------------------------------- delete

    /** Clears the link, and the start frame it brought, of every row that continued from `gone`. */
    method ClearReverseLinks(gone: SegmentId) returns (cleared: nat)
      requires UniqueNumbers(rows)
      modifies this`rows
      ensures rows == ForgetAll(old(rows), gone)
      ensures cleared == |set a | a in old(rows) && old(rows)[a].source == Some(gone)|
    {
      ghost var was := rows;
      var dependents := set a | a in rows && rows[a].source == Some(gone);
      var left := dependents;
      while left != {}
        invariant left <= dependents && rows.Keys == was.Keys && UniqueNumbers(rows)
        invariant forall a :: a in rows ==>
          rows[a] == if a in left then was[a] else Forget(was[a], gone)
        decreases |left|
      {
        var a :| a in left;
        Update(a, Forget(rows[a], gone));
        left := left - {a};
      }
      assert rows == ForgetAll(was, gone);
      cleared := |dependents|;
    }

    /** What pass 1 writes: the deleted id forgotten, and a number below zero, so never one in use. */
    static ghost function Parked(was: Rows, gone: SegmentId, a: SegmentId): Segment
      requires a in was
    {
      Forget(was[a], gone).(number := -Rank(was, a))
    }

    static ghost function Final(was: Rows, gone: SegmentId, now: string, a: SegmentId): Segment
      requires a in was
    {
      Stamp(Forget(was[a], gone), Rank(was, a), now)
    }

    /** Pass 1 still has to write the rows in `pending`. */
    static ghost predicate PartlyParked(was: Rows, gone: SegmentId, rows: Rows, pending: set<SegmentId>) {
      && rows.Keys == was.Keys && pending <= was.Keys && UniqueNumbers(rows)
      && forall a :: a in rows ==> rows[a] == (if a in pending then was[a] else Parked(was, gone, a))
    }

    /** Pass 2 still has to write the rows in `pending`. */
    static ghost predicate PartlyFinal(was: Rows, gone: SegmentId, now: string, rows: Rows, pending: set<SegmentId>) {
      && rows.Keys == was.Keys && pending <= was.Keys && UniqueNumbers(rows)
      && forall a :: a in rows ==> rows[a] == (if a in pending then Parked(was, gone, a) else Final(was, gone, now, a))
    }

    static lemma ParkIsFree(was: Rows, gone: SegmentId, rows: Rows, pending: set<SegmentId>, a: SegmentId)
      requires Numbered(was) && PartlyParked(was, gone, rows, pending) && a in pending
      ensures forall b :: b in rows && b != a ==> rows[b].number != -Rank(was, a)
    {
      forall b | b in rows && b != a ensures rows[b].number != -Rank(was, a) {
        RankOrders(was, a, b);
        RankOrders(was, b, a);
      }
    }

    static lemma FinalIsFree(was: Rows, gone: SegmentId, now: string, rows: Rows, pending: set<SegmentId>, a: SegmentId)
      requires Numbered(was) && PartlyFinal(was, gone, now, rows, pending) && a in pending
      ensures forall b :: b in rows && b != a ==> rows[b].number != Rank(was, a)
    {
      forall b | b in rows && b != a ensures rows[b].number != Rank(was, a) {
        RankOrders(was, a, b);
        RankOrders(was, b, a);
      }
    }

    static lemma ParkOne(was: Rows, gone: SegmentId, rows: Rows, pending: set<SegmentId>, a: SegmentId)
      requires Numbered(was) && PartlyParked(was, gone, rows, pending) && a in pending
      ensures PartlyParked(was, gone, rows[a := Parked(was, gone, a)], pending - {a})
    {
      ParkIsFree(was, gone, rows, pending, a);
    }

    static lemma FinalOne(was: Rows, gone: SegmentId, now: string, rows: Rows, pending: set<SegmentId>, a: SegmentId)
      requires Numbered(was) && PartlyFinal(was, gone, now, rows, pending) && a in pending
      ensures PartlyFinal(was, gone, now, rows[a := Final(was, gone, now, a)], pending - {a})
    {
      FinalIsFree(was, gone, now, rows, pending, a);
    }

    static lemma FinalIsStamped(was: Rows, gone: SegmentId, now: string, a: SegmentId)
      requires a in was
      ensures var s := Parked(was, gone, a).(number := Rank(was, a));
              Final(was, gone, now, a) ==
              if was[a].number == Rank(was, a) then s else s.(meta := s.meta[RenumberedAt := Text(now)])
    {
    }

    static lemma AllFinal(was: Rows, gone: SegmentId, now: string, rows: Rows)
      requires PartlyFinal(was, gone, now, rows, {})
      ensures rows == Renumbered(was, gone, now)
    {
      var final := Renumbered(was, gone, now);
      forall a | a in rows ensures rows[a] == final[a] {
        assert rows[a] == Final(was, gone, now, a);
      }
    }

    method ParkRow(order: seq<SegmentId>, gone: SegmentId, a: SegmentId, ghost was: Rows)
      requires InOrder(was, order) && a in was && a in rows && rows[a] == was[a]
      requires forall b :: b in rows && b != a ==> rows[b].number != -Rank(was, a)
      modifies this`rows
      ensures rows == old(rows)[a := Parked(was, gone, a)]
    {
      var i :| 0 <= i < |order| && order[i] == a;
      RankInOrder(was, order, i);
      WriteRow(a, Forget(rows[a], gone).(number := -(i + 1)));
    }

    method NumberRow(order: seq<SegmentId>, original: int, now: string, a: SegmentId, ghost was: Rows, ghost gone: SegmentId)
      requires InOrder(was, order) && a in was && a in rows && rows[a] == Parked(was, gone, a)
      requires forall b :: b in rows && b != a ==> rows[b].number != Rank(was, a)
      requires original == was[a].number
      modifies this`rows
      ensures rows == old(rows)[a := Final(was, gone, now, a)]
    {
      var i :| 0 <= i < |order| && order[i] == a;
      RankInOrder(was, order, i);
      FinalIsStamped(was, gone, now, a);
      var s := rows[a].(number := i + 1);
      if original != i + 1 {
        s := s.(meta := s.meta[RenumberedAt := Text(now)]);
      }
      WriteRow(a, s);
    }

    method ParkNext(order: seq<SegmentId>, gone: SegmentId, a: SegmentId, ghost was: Rows, ghost pending: set<SegmentId>)
      requires Numbered(was) && InOrder(was, order) && PartlyParked(was, gone, rows, pending) && a in pending
      modifies this`rows
      ensures PartlyParked(was, gone, rows, pending - {a})
    {
      ParkIsFree(was, gone, rows, pending, a);
      ParkOne(was, gone, rows, pending, a);
      ParkRow(order, gone, a, was);
    }

    method NumberNext(order: seq<SegmentId>, original: int, now: string, a: SegmentId, ghost was: Rows, ghost gone: SegmentId, ghost pending: set<SegmentId>)
      requires Numbered(was) && InOrder(was, order) && PartlyFinal(was, gone, now, rows, pending) && a in pending
      requires original == was[a].number
      modifies this`rows
      ensures PartlyFinal(was, gone, now, rows, pending - {a})
    {
      FinalIsFree(was, gone, now, rows, pending, a);
      FinalOne(was, gone, now, rows, pending, a);
      NumberRow(order, original, now, a, was, gone);
    }

    /** Pass 1. The writes of a pass may reach the database in any order. */
    method ParkAll(order: seq<SegmentId>, gone: SegmentId)
      requires Numbered(rows) && InOrder(rows, order)
      modifies this`rows
      ensures PartlyParked(old(rows), gone, rows, {})
    {
      ghost var was := rows;
      var pending := rows.Keys;
      while pending != {}
        invariant PartlyParked(was, gone, rows, pending)
        decreases |pending|
      {
        var a :| a in pending;
        ParkNext(order, gone, a, was, pending);
        pending := pending - {a};
      }
    }

    static lemma NothingFinal(was: Rows, gone: SegmentId, now: string, rows: Rows)
      requires PartlyParked(was, gone, rows, {})
      ensures PartlyFinal(was, gone, now, rows, rows.Keys)
    {
    }

    /** Pass 2, from the numbers pass 1 left; `original` holds the numbers before it. */
    method NumberAll(order: seq<SegmentId>, original: map<SegmentId, int>, now: string, ghost was: Rows, ghost gone: SegmentId)
      requires Numbered(was) && InOrder(was, order) && PartlyParked(was, gone, rows, {})
      requires original.Keys == was.Keys && forall a :: a in was ==> original[a] == was[a].number
      modifies this`rows
      ensures PartlyFinal(was, gone, now, rows, {})
    {
      var pending := rows.Keys;
      NothingFinal(was, gone, now, rows);
      while pending != {}
        invariant PartlyFinal(was, gone, now, rows, pending)
        decreases |pending|
      {
        var a :| a in pending;
        NumberNext(order, original[a], now, a, was, gone, pending);
        pending := pending - {a};
      }
    }

    /** Renumbers the rows 1, 2, 3, ... in their current order, in two passes. */
    method Renumber(gone: SegmentId, now: string)
      requires Numbered(rows)
      modifies this`rows
      ensures rows == Renumbered(old(rows), gone, now)
    {
      var order := ListInOrder();
      if order == [] {
        return;
      }
      var original := map a | a in rows :: rows[a].number;
      ghost var was := rows;
      ParkAll(order, gone);
      NumberAll(order, original, now, was, gone);
      AllFinal(was, gone, now, rows);
    }

    /** Deletes one segment; false when there is no such row. */
    method DeleteSegment(id: SegmentId, now: string) returns (found: bool)
      requires Numbered(rows)
      modifies this`rows
      ensures found == (id in old(rows)) && id !in rows && (!found ==> rows == old(rows))
      ensures Snapshot() == Deleted(old(Snapshot()), id, now)
    {
      if id !in rows {
        return false;
      }
      ghost var was := rows;
      WriteRow(id, rows[id].(source := None, sourceVideo := None, sourceFrame := None,
                             asset := None, generatedVideo := None, finalFrame := None));
      var _ := ClearReverseLinks(id);
      rows := rows - {id};
      assert rows == ForgetAll(was - {id}, id);
      Renumber(id, now);
      return true;
    }

    // -------------------------------------------------------------- propagate

    static function VoidedIn(following: seq<SegmentId>, s: Segment, a: SegmentId): Segment
      requires following != []
    {
      if a == following[0] then Voided(s) else if a in following then Unlinked(s) else s
    }

    /** Voids every following row, and unlinks all but the first. */
    method VoidFollowing(following: seq<SegmentId>)
      requires UniqueNumbers(rows) && following != []
      requires forall i :: 0 <= i < |following| ==> following[i] in rows
      requires forall i, j :: 0 <= i < j < |following| ==> following[i] != following[j]
      modifies this`rows
      ensures rows.Keys == old(rows).Keys
      ensures forall b :: b in rows ==> rows[b] == VoidedIn(following, old(rows)[b], b)
    {
      for i := 0 to |following|
        invariant rows.Keys == old(rows).Keys && UniqueNumbers(rows)
        invariant forall b :: b in rows ==>
          rows[b] == if b in following[..i] then VoidedIn(following, old(rows)[b], b) else old(rows)[b]
      {
        var d := following[i];
        assert following[..i + 1] == following[..i] + [d];
        Update(d, if i == 0 then Voided(rows[d]) else Unlinked(rows[d]));
      }
      assert following[..|following|] == following;
    }

    /** The rows numbered above `a`. */
    static ghost function Later(rows: Rows, a: SegmentId): Rows
      requires a in rows
    {
      map b | b in rows && rows[b].number > rows[a].number :: rows[b]
    }

    static lemma FollowingIs(rows: Rows, a: SegmentId, following: seq<SegmentId>)
      requires UniqueNumbers(rows) && a in rows && InOrder(Later(rows, a), following)
      ensures forall b :: b in rows ==> (b in following <==> rows[b].number > rows[a].number)
      ensures forall i :: 0 <= i < |following| ==> following[i] in rows && following[i] != a
      ensures forall i, j :: 0 <= i < j < |following| ==> following[i] != following[j]
      ensures following == [] ==> Next(rows, a).None?
      ensures following != [] ==> Next(rows, a) == Some(following[0])
    {
      var later := Later(rows, a);
      assert forall i :: 0 <= i < |following| ==> following[i] in later;
      forall b | b in rows
        ensures b in following <==> rows[b].number > rows[a].number
      {
        if rows[b].number > rows[a].number { assert b in later; }
      }
      if following != [] {
        FirstIsNext(rows, a, following);
        NextIsUnique(rows, a, following[0], Next(rows, a).value);
      }
    }

    /** Carries the approved final frame of `a` to the segments after it, `following`, in order. */
    method PropagateApprovedFrame(a: SegmentId, following: seq<SegmentId>)
      requires UniqueNumbers(rows) && a in rows && InOrder(Later(rows, a), following)
      modifies this`rows
      ensures rows == Propagated(old(rows), a)
    {
      FollowingIs(rows, a, following);
      if rows[a].finalFrame.None? || following == [] {
        return;
      }
      var frame, next := rows[a].finalFrame.value, following[0];
      var changed := rows[next].sourceFrame != Some(frame);
      Update(next, Linked(rows[next], a, frame, rows[a].meta));
      if changed {
        VoidFollowing(following);
      }
      assert rows == Propagated(old(rows), a);
    }

    static lemma FirstIsNext(rows: Rows, a: SegmentId, following: seq<SegmentId>)
      requires a in rows && following != []
      requires InOrder(Later(rows, a), following)
      ensures IsNext(rows, a, following[0])
    {
      var later := Later(rows, a);
      assert following[0] in later;
      forall b | b in rows && rows[b].number > rows[a].number
        ensures rows[following[0]].number <= rows[b].number
      {
        assert b in later;
        var j :| 0 <= j < |following| && following[j] == b;
        if j > 0 { assert later[following[0]].number < later[following[j]].number; }
      }
    }
  }
}
