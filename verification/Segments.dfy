/**
  The continuous-video segment table of one project: what a row holds, when a row carries work
  that must survive a replan, and the effect of each operation as a function from table to table.
  `SegmentStore` contains the row-by-row code; it is proved equal to these functions.
 */
module Segments {
  import opened Common

  type SegmentId = nat
  type AssetId = nat

  datatype Status = Pending | Running | Succeeded | Failed | Cancelled | RetryScheduled

  /** The `metadata_json` keys that the operations read or write; `Other` stands for all the rest. */
  datatype Key =
    | CustomPrompt | Variants | InitialFrame | FinalFrame | ExtractedLastFrame | VideoAsset
    | ContinuityBreak | SourceSegment | SourceVideo | SourceFrame | SourceFrameUri | FinalFrameUri
    | StoryboardApproved | InitialFrameApproved | FinalFrameApproved
    | RefreshPreserved | RefreshReason | RenumberedAt
    | Other(name: string)

  datatype Value = Null | Flag(flag: bool) | Ref(id: nat) | Text(text: string) | Items(count: nat)

  type Metadata = map<Key, Value>

  /** `bool(metadata.get(key))`. */
  predicate Truthy(meta: Metadata, key: Key) {
    key in meta &&
    match meta[key]
    case Null => false
    case Flag(flag) => flag
    case Ref(_) => true
    case Text(text) => text != ""
    case Items(count) => count > 0
  }

  /** An idempotency key: a hash of a segment number and of everything else it is made from (provider,
      model, request fingerprint). Two keys are equal exactly if both parts are. */
  datatype Ident = Ident(number: int, digest: nat)

  /** One row. `details` stands for the columns no operation here looks at (title, script, shot,
      duration, review status, provider, model, fingerprint). */
  datatype Segment = Segment(
    number: int,
    ident: Ident,
    details: string,
    prompt: string,
    status: Status,
    asset: Option<AssetId>,
    generatedVideo: Option<AssetId>,
    source: Option<SegmentId>,
    sourceVideo: Option<AssetId>,
    sourceFrame: Option<AssetId>,
    finalFrame: Option<AssetId>,
    meta: Metadata)

  type Rows = map<SegmentId, Segment>

  /** The table and the next unused id: ids are never reused. */
  datatype Table = Table(rows: Rows, nextId: SegmentId)

  const EMPTY := Table(map[], 0)

  /** One entry of a freshly built plan; its position in the plan is its segment number. */
  datatype Payload = Payload(digest: nat, details: string, prompt: string, meta: Metadata)

  /** The key of the segment that a payload describes. */
  function IdentFor(number: int, payload: Payload): Ident {
    Ident(number, payload.digest)
  }

  predicate HasWork(s: Segment) {
    || s.status == Succeeded
    || s.asset.Some?
    || s.generatedVideo.Some?
    || s.sourceFrame.Some?
    || s.finalFrame.Some?
    || (CustomPrompt in s.meta && s.meta[CustomPrompt] == Flag(true))
    || Truthy(s.meta, Variants)
    || Truthy(s.meta, InitialFrame)
    || Truthy(s.meta, FinalFrame)
    || Truthy(s.meta, ExtractedLastFrame)
    || Truthy(s.meta, VideoAsset)
  }

  // ---------------------------------------------------------------- invariants

  /** UNIQUE(project_id, segment_number). */
  ghost predicate UniqueNumbers(rows: Rows) {
    forall a, b :: a in rows && b in rows && rows[a].number == rows[b].number ==> a == b
  }

  ghost predicate Numbered(rows: Rows) {
    UniqueNumbers(rows) && forall a :: a in rows ==> rows[a].number >= 1
  }

  /** The number of the row that `a` continues from, 0 when it continues from none. */
  function SourceNumber(rows: Rows, a: SegmentId): int
    requires a in rows
  {
    match rows[a].source
    case None => 0
    case Some(b) => if b in rows then rows[b].number else 0
  }

  /** A link names an existing, strictly earlier row. */
  ghost predicate LinksBack(rows: Rows) {
    forall a :: a in rows && rows[a].source.Some? ==>
      rows[a].source.value in rows && SourceNumber(rows, a) < rows[a].number
  }

  /** UNIQUE(idempotency_key). */
  ghost predicate UniqueIdents(rows: Rows) {
    forall a, b :: a in rows && b in rows && rows[a].ident == rows[b].ident ==> a == b
  }

  /** A key is made from the number its row has at the time; renumbering lowers the number and keeps the key. */
  ghost predicate Keyed(rows: Rows) {
    UniqueIdents(rows) && forall a :: a in rows ==> rows[a].number <= rows[a].ident.number
  }

  /** Every id in the table has been handed out. */
  ghost predicate IdsUsed(t: Table) {
    forall a :: a in t.rows ==> a < t.nextId
  }

  /** What every operation keeps, whatever frames the rows carry. */
  ghost predicate Valid(t: Table) {
    && Numbered(t.rows)
    && IdsUsed(t)
    && LinksBack(t.rows)
    && Keyed(t.rows)
  }

  /** No linked row between a row and its source reaches back past that source. */
  ghost predicate Nested(rows: Rows) {
    forall a, m :: a in rows && m in rows && rows[a].source.Some? && rows[m].source.Some?
      && SourceNumber(rows, a) < rows[m].number < rows[a].number
      ==> SourceNumber(rows, a) <= SourceNumber(rows, m)
  }

  /** A linked row starts on exactly the frame its source ends on. */
  ghost predicate FramesAgree(rows: Rows) {
    forall a :: a in rows && rows[a].source.Some? ==>
      rows[a].source.value in rows && rows[a].sourceFrame == rows[rows[a].source.value].finalFrame
  }

  /** The stronger reading of a link: it names the row numbered exactly one less. */
  ghost predicate Adjacent(rows: Rows) {
    forall a :: a in rows && rows[a].source.Some? ==>
      rows[a].source.value in rows && SourceNumber(rows, a) == rows[a].number - 1
  }

  // ---------------------------------------------------------------- plan and replan

  /** Rows past the end of the new plan that carry no work. */
  function Stale(rows: Rows, size: nat): set<SegmentId> {
    set a | a in rows && rows[a].number > size && !HasWork(rows[a])
  }

  function Detach(s: Segment, gone: set<SegmentId>): Segment {
    if s.source.Some? && s.source.value in gone then
      s.(source := None, sourceVideo := None, sourceFrame := None)
    else s
  }

  function Sweep(rows: Rows, size: nat): Rows {
    var stale := Stale(rows, size);
    map a | a in rows && a !in stale :: Detach(rows[a], stale)
  }

  function AsRef(id: Option<nat>): Value {
    match id
    case None => Null
    case Some(x) => Ref(x)
  }

  /** The payload after the continuity step: linked to the previous segment unless it breaks. */
  datatype Draft = Draft(
    payload: Payload,
    source: Option<SegmentId>,
    sourceVideo: Option<AssetId>,
    sourceFrame: Option<AssetId>)

  function MakeDraft(rows: Rows, payload: Payload, previous: Option<SegmentId>): Draft
    requires previous.Some? ==> previous.value in rows
  {
    if previous.Some? && !Truthy(payload.meta, ContinuityBreak) then
      var p := rows[previous.value];
      var meta := payload.meta[SourceSegment := Ref(previous.value)]
                              [SourceVideo := AsRef(p.asset)]
                              [SourceFrame := AsRef(p.finalFrame)];
      Draft(payload.(meta := meta), Some(previous.value), p.asset, p.finalFrame)
    else
      Draft(payload, None, None, None)
  }

  /** A row that keeps its work only records that the refresh spared it. */
  function Spared(s: Segment): Segment {
    s.(meta := s.meta[RefreshPreserved := Flag(true)][RefreshReason := Text("user_or_generated_work")])
  }

  /** A row without work is rewritten from the draft; `asset` is the one column left alone. */
  function Rewritten(s: Segment, d: Draft): Segment {
    s.(ident := IdentFor(s.number, d.payload),
       details := d.payload.details,
       prompt := d.payload.prompt,
       source := d.source,
       sourceVideo := d.sourceVideo,
       sourceFrame := d.sourceFrame,
       finalFrame := None,
       generatedVideo := None,
       meta := d.payload.meta,
       status := Pending)
  }

  function Created(number: int, d: Draft): Segment {
    Segment(number, IdentFor(number, d.payload), d.payload.details, d.payload.prompt, Pending, None, None,
            d.source, d.sourceVideo, d.sourceFrame, None, d.payload.meta)
  }

  /** The row numbered `number`, if there is one. */
  ghost function RowAt(rows: Rows, number: int): (r: Option<SegmentId>)
    ensures r.Some? ==> r.value in rows && rows[r.value].number == number
    ensures r.None? ==> forall a :: a in rows ==> rows[a].number != number
  {
    if exists a :: a in rows && rows[a].number == number then
      var a :| a in rows && rows[a].number == number;
      Some(a)
    else None
  }

  /** The row that holds the key `ident`, if there is one. */
  ghost function HolderOf(rows: Rows, ident: Ident): (r: Option<SegmentId>)
    ensures r.Some? ==> r.value in rows && rows[r.value].ident == ident
    ensures r.None? ==> forall a :: a in rows ==> rows[a].ident != ident
  {
    if exists a :: a in rows && rows[a].ident == ident then
      var a :| a in rows && rows[a].ident == ident;
      Some(a)
    else None
  }

  /** Handling of the payload for segment `number`: the new table and the row it landed on. Where no row
      has the number, a row that holds the payload's key is returned as it is; only otherwise is one created. */
  ghost function PlanStep(t: Table, number: int, payload: Payload, previous: Option<SegmentId>, replace: bool)
    : (Table, SegmentId)
    requires previous.Some? ==> previous.value in t.rows
  {
    var draft := MakeDraft(t.rows, payload, previous);
    match RowAt(t.rows, number)
    case Some(a) =>
      if HasWork(t.rows[a]) then (t.(rows := t.rows[a := Spared(t.rows[a])]), a)
      else if !replace then (t, a)
      else (t.(rows := t.rows[a := Rewritten(t.rows[a], draft)]), a)
    case None =>
      match HolderOf(t.rows, IdentFor(number, payload))
      case Some(b) => (t, b)
      case None => (Table(t.rows[t.nextId := Created(number, draft)], t.nextId + 1), t.nextId)
  }

  /** The rewrite of the row at `number` would repeat a key that another row holds: the database refuses it. */
  ghost predicate Collides(rows: Rows, number: int, payload: Payload, replace: bool) {
    && replace
    && exists a, b :: a in rows && rows[a].number == number && !HasWork(rows[a])
                      && b in rows && b != a && rows[b].ident == IdentFor(number, payload)
  }

  /** The table after the first `k` payloads, and the row the last of them landed on. */
  ghost function PlanUpTo(t: Table, payloads: seq<Payload>, replace: bool, k: nat)
    : (r: (Table, Option<SegmentId>))
    requires k <= |payloads|
    ensures r.1.Some? ==> r.1.value in r.0.rows
  {
    if k == 0 then (t, None)
    else
      var (before, previous) := PlanUpTo(t, payloads, replace, k - 1);
      var (after, row) := PlanStep(before, k, payloads[k - 1], previous, replace);
      (after, Some(row))
  }

  /** The database refuses a write for one of the first `k` payloads. */
  ghost predicate RaisesWithin(t: Table, payloads: seq<Payload>, replace: bool, k: nat)
    requires k <= |payloads|
  {
    k > 0 && (RaisesWithin(t, payloads, replace, k - 1)
              || Collides(PlanUpTo(t, payloads, replace, k - 1).0.rows, k, payloads[k - 1], replace))
  }

  ghost function PlanBase(t: Table, payloads: seq<Payload>, replace: bool): Table {
    if replace then t.(rows := Sweep(t.rows, |payloads|)) else t
  }

  ghost predicate Raises(t: Table, payloads: seq<Payload>, replace: bool) {
    RaisesWithin(PlanBase(t, payloads, replace), payloads, replace, |payloads|)
  }

  /** A plan that raises is rolled back. */
  ghost function Planned(t: Table, payloads: seq<Payload>, replace: bool): Table {
    if Raises(t, payloads, replace) then t
    else PlanUpTo(PlanBase(t, payloads, replace), payloads, replace, |payloads|).0
  }

  // ---------------------------------------------------------------- delete and renumber

  function AtMost(rows: Rows, n: int): set<SegmentId> {
    set b | b in rows && rows[b].number <= n
  }

  /** How many rows are numbered at most as high as `a`: its position in the list, from 1. */
  function Rank(rows: Rows, a: SegmentId): int
    requires a in rows
  {
    |AtMost(rows, rows[a].number)|
  }

  function Forget(s: Segment, gone: SegmentId): Segment {
    if s.source == Some(gone) then s.(source := None, sourceFrame := None) else s
  }

  function ForgetAll(rows: Rows, gone: SegmentId): Rows {
    map a | a in rows :: Forget(rows[a], gone)
  }

  function Stamp(s: Segment, number: int, now: string): Segment {
    if s.number == number then s
    else s.(number := number, meta := s.meta[RenumberedAt := Text(now)])
  }

  function Renumbered(rows: Rows, gone: SegmentId, now: string): Rows {
    map a | a in rows :: Stamp(Forget(rows[a], gone), Rank(rows, a), now)
  }

  function Deleted(t: Table, gone: SegmentId, now: string): Table {
    if gone in t.rows then t.(rows := Renumbered(ForgetAll(t.rows - {gone}, gone), gone, now))
    else t
  }

  // ---------------------------------------------------------------- propagate an approved final frame

  ghost predicate IsNext(rows: Rows, a: SegmentId, next: SegmentId)
    requires a in rows
  {
    && next in rows
    && rows[next].number > rows[a].number
    && forall b :: b in rows && rows[b].number > rows[a].number ==> rows[next].number <= rows[b].number
  }

  /** The row that follows `a` in number order, if any. */
  ghost function Next(rows: Rows, a: SegmentId): (r: Option<SegmentId>)
    requires a in rows
    ensures r.Some? ==> IsNext(rows, a, r.value)
    ensures r.None? ==> forall b :: b in rows ==> rows[b].number <= rows[a].number
  {
    if exists b :: b in rows && rows[b].number > rows[a].number then
      NextExists(rows, a);
      var b :| IsNext(rows, a, b);
      Some(b)
    else None
  }

  lemma NextExists(rows: Rows, a: SegmentId)
    requires a in rows
    requires exists b :: b in rows && rows[b].number > rows[a].number
    ensures exists b :: IsNext(rows, a, b)
  {
    var b :| b in rows && rows[b].number > rows[a].number;
    NextBelow(rows, a, b);
  }

  lemma NextBelow(rows: Rows, a: SegmentId, b: SegmentId)
    requires a in rows && b in rows && rows[b].number > rows[a].number
    ensures exists c :: IsNext(rows, a, c)
    decreases rows[b].number - rows[a].number
  {
    if c :| c in rows && rows[a].number < rows[c].number < rows[b].number {
      NextBelow(rows, a, c);
    } else {
      assert IsNext(rows, a, b);
    }
  }

  /** The next segment, told to start on `frame`. */
  function Linked(s: Segment, from: SegmentId, frame: AssetId, fromMeta: Metadata): Segment {
    var meta := s.meta[SourceSegment := Ref(from)][SourceFrame := Ref(frame)][InitialFrame := Ref(frame)];
    s.(source := Some(from),
       sourceFrame := Some(frame),
       meta := if Truthy(fromMeta, FinalFrameUri) then meta[SourceFrameUri := fromMeta[FinalFrameUri]] else meta)
  }

  /** A segment downstream of a changed frame: its approvals and its final frame are void. */
  function Voided(s: Segment): Segment {
    s.(finalFrame := None,
       meta := s.meta[StoryboardApproved := Flag(false)]
                     [InitialFrameApproved := Flag(false)]
                     [FinalFrameApproved := Flag(false)] - {FinalFrame, FinalFrameUri})
  }

  /** A voided segment past the next one also loses its link. */
  function Unlinked(s: Segment): Segment {
    var v := Voided(s);
    v.(source := None,
       sourceFrame := None,
       meta := v.meta - {SourceSegment, SourceFrame, InitialFrame, SourceFrameUri})
  }

  ghost function Propagated(rows: Rows, a: SegmentId): Rows
    requires a in rows
  {
    match (rows[a].finalFrame, Next(rows, a))
    case (Some(frame), Some(next)) =>
      var changed := rows[next].sourceFrame != Some(frame);
      map b | b in rows ::
        if b == next then
          var s := Linked(rows[b], a, frame, rows[a].meta);
          if changed then Voided(s) else s
        else if changed && rows[b].number > rows[a].number then Unlinked(rows[b])
        else rows[b]
    case _ => rows
  }

  /** The final frame of `a` is replaced by `frame` and the approval is propagated. */
  ghost function Approved(rows: Rows, a: SegmentId, frame: AssetId): Rows
    requires a in rows
  {
    Propagated(rows[a := rows[a].(finalFrame := Some(frame))], a)
  }

  // ---------------------------------------------------------------- runs

  /** One call on the table. `Edit` is every other write to a row, by the user, a generator or an
      invalidation: whatever it does, it neither renumbers the row nor gives it a new link, and a key
      it writes is made from the row's number. */
  datatype Op =
    | Plan(payloads: seq<Payload>, replace: bool)
    | Delete(id: SegmentId, now: string)
    | Approve(id: SegmentId, frame: AssetId)
    | Propagate(id: SegmentId)
    | Edit(id: SegmentId, content: Segment)

  /** `s` with new content: its number stays, its link too unless the content drops it, and its key
      unless the content has one for this number. */
  function Edited(s: Segment, content: Segment): Segment {
    content.(number := s.number,
             ident := if content.ident.number == s.number then content.ident else s.ident,
             source := if content.source.None? then None else s.source)
  }

  /** Another row holds the key that the edit writes. */
  ghost predicate KeyTaken(rows: Rows, id: SegmentId, content: Segment)
    requires id in rows
  {
    exists b :: b in rows && b != id && rows[b].ident == Edited(rows[id], content).ident
  }

  ghost function Apply(t: Table, op: Op): Table {
    match op
    case Plan(payloads, replace) => Planned(t, payloads, replace)
    case Delete(id, now) => Deleted(t, id, now)
    case Approve(id, frame) => if id in t.rows then t.(rows := Approved(t.rows, id, frame)) else t
    case Propagate(id) => if id in t.rows then t.(rows := Propagated(t.rows, id)) else t
    case Edit(id, content) =>
      if id in t.rows && !KeyTaken(t.rows, id, content) then t.(rows := t.rows[id := Edited(t.rows[id], content)]) else t
  }

  ghost function Run(t: Table, ops: seq<Op>): Table
    decreases |ops|
  {
    if ops == [] then t else Apply(Run(t, ops[..|ops| - 1]), ops[|ops| - 1])
  }
}
