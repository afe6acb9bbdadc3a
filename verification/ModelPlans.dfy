/** Normalising a model-written scene plan: fit the shots to the clips, regroup them into scenes,
    number everything, and refuse plans whose shots cannot be told apart. */
module ModelPlans {
  import opened Common
  import opened Beats
  import opened Texts
  import opened Clips
  import opened ShotFitting
  import opened Runs
  import ScriptPlans

  datatype Error = MissingScenes | MissingShots | MissingNarration | RepeatedAction | DurationMismatch

  /** A scene of the result; `origin` is the raw scene it comes from. */
  datatype NumberedScene = NumberedScene(
    number: nat,
    origin: nat,
    title: Field,
    summary: Field,
    shots: seq<Shot>,
    duration: int)

  /** Shots of one raw scene that follow each other. */
  datatype Group = Group(scene: nat, shots: seq<Shot>)

  // ---------------------------------------------------------------- flattening

  function PlaceAll(scene: nat, shots: seq<Shot>): (r: seq<Placed>)
    ensures |r| == |shots|
    ensures forall i :: 0 <= i < |r| ==> r[i] == Placed(scene, shots[i])
  {
    seq(|shots|, i requires 0 <= i < |shots| => Placed(scene, shots[i]))
  }

  function Flat(raw: seq<Scene>, k: nat): seq<Placed>
    requires k <= |raw|
  {
    if k == 0 then [] else Flat(raw, k - 1) + PlaceAll(k - 1, raw[k - 1].shots)
  }

  /** How many shots the first `s` raw scenes have. */
  function ShotsBefore(raw: seq<Scene>, s: nat): nat
    requires s <= |raw|
  {
    if s == 0 then 0 else ShotsBefore(raw, s - 1) + |raw[s - 1].shots|
  }

  /** The shots of scene `s` follow those of the earlier scenes, in order. */
  ghost predicate InPlace(flat: seq<Placed>, raw: seq<Scene>, s: nat)
    requires s < |raw|
  {
    var start, shots := ShotsBefore(raw, s), raw[s].shots;
    start + |shots| <= |flat| && forall i :: 0 <= i < |shots| ==> flat[start + i] == Placed(s, shots[i])
  }

  /** The list holds the shots of the raw scenes, scene after scene. */
  lemma {:induction false} FlatHolds(raw: seq<Scene>, k: nat, s: nat)
    requires s < k <= |raw|
    ensures |Flat(raw, k)| == ShotsBefore(raw, k) && InPlace(Flat(raw, k), raw, s)
    decreases k
  {
    FlatLength(raw, k - 1);
    if s < k - 1 { FlatHolds(raw, k - 1, s); }
  }

  lemma {:induction false} FlatLength(raw: seq<Scene>, k: nat)
    requires k <= |raw|
    ensures |Flat(raw, k)| == ShotsBefore(raw, k)
  {
    if k > 0 { FlatLength(raw, k - 1); }
  }

  ghost predicate SomeSceneEmpty(raw: seq<Scene>) {
    exists s :: 0 <= s < |raw| && raw[s].shots == []
  }

  method Flatten(raw: seq<Scene>) returns (r: Result<seq<Placed>, Error>)
    ensures r.Ok? <==> !SomeSceneEmpty(raw)
    ensures r.Ok? ==> r.value == Flat(raw, |raw|)
    ensures r.Ok? ==> forall s :: 0 <= s < |raw| ==> InPlace(r.value, raw, s)
    ensures r.Err? ==> r.error == MissingShots
  {
    var flattened := [];
    for s := 0 to |raw|
      invariant flattened == Flat(raw, s)
      invariant forall i :: 0 <= i < s ==> raw[i].shots != []
    {
      if raw[s].shots == [] {
        return Err(MissingShots);
      }
      flattened := flattened + PlaceAll(s, raw[s].shots);
    }
    forall s | 0 <= s < |raw| ensures InPlace(flattened, raw, s) {
      FlatHolds(raw, |raw|, s);
    }
    return Ok(flattened);
  }

  // ---------------------------------------------------------------- grouping

  /** A shot with its clip, its number, and defaults for absent entries. */
  function Finish(shot: Shot, duration: int, number: int): Shot {
    var narration := if shot.narration.Missing? then Text(OrElse(shot.action, DEFAULT_ACTION)) else shot.narration;
    var dialogue := if shot.dialogue.Missing? then Text("") else shot.dialogue;
    var action := if shot.action.Missing? then Text(OrElse(narration, DEFAULT_ACTION)) else shot.action;
    Shot(narration, dialogue, action, duration, number)
  }

  /** The groups after one more shot: in the last group if it is of the same raw scene, else in a new one. */
  function AddShot(groups: seq<Group>, placed: Placed, duration: int): seq<Group> {
    if groups == [] || groups[|groups| - 1].scene != placed.scene then
      groups + [Group(placed.scene, [Finish(placed.shot, duration, 1)])]
    else
      var last := groups[|groups| - 1];
      groups[..|groups| - 1] + [last.(shots := last.shots + [Finish(placed.shot, duration, |last.shots| + 1)])]
  }

  function Grouped(placed: seq<Placed>, clips: seq<int>, k: nat): seq<Group>
    requires k <= |placed| == |clips|
  {
    if k == 0 then [] else AddShot(Grouped(placed, clips, k - 1), placed[k - 1], clips[k - 1])
  }

  method AddOne(groups: seq<Group>, placed: Placed, duration: int) returns (r: seq<Group>)
    ensures r == AddShot(groups, placed, duration)
  {
    r := groups;
    var isNew := groups == [] || groups[|groups| - 1].scene != placed.scene;
    if isNew {
      r := r + [Group(placed.scene, [])];
    }
    var last := r[|r| - 1];
    var shot := Finish(placed.shot, duration, |last.shots| + 1);
    assert isNew ==> r[..|r| - 1] == groups && last.shots + [shot] == [shot];
    r := r[..|r| - 1] + [Group(last.scene, last.shots + [shot])];
  }

  method GroupShots(placed: seq<Placed>, clips: seq<int>) returns (groups: seq<Group>)
    requires |placed| == |clips|
    ensures groups == Grouped(placed, clips, |clips|)
  {
    groups := [];
    for i := 0 to |clips|
      invariant groups == Grouped(placed, clips, i)
    {
      groups := AddOne(groups, placed[i], clips[i]);
    }
  }

  /** All shots of the groups, each with its raw scene, in order. */
  function Spread(groups: seq<Group>): seq<Placed> {
    if groups == [] then [] else PlaceAll(groups[0].scene, groups[0].shots) + Spread(groups[1..])
  }

  lemma {:induction false} SpreadSnoc(groups: seq<Group>, last: Group)
    ensures Spread(groups + [last]) == Spread(groups) + PlaceAll(last.scene, last.shots)
  {
    if groups == [] {
      assert groups + [last] == [last];
      assert Spread([last]) == PlaceAll(last.scene, last.shots) + Spread([]);
    } else {
      assert (groups + [last])[1..] == groups[1..] + [last];
      SpreadSnoc(groups[1..], last);
    }
  }

  /** No group is empty, shots are numbered from 1 in each, and neighbouring groups are of different scenes. */
  ghost predicate WellGrouped(groups: seq<Group>) {
    && (forall g :: 0 <= g < |groups| ==> groups[g].shots != [])
    && (forall g, i :: 0 <= g < |groups| && 0 <= i < |groups[g].shots| ==> groups[g].shots[i].number == i + 1)
    && (forall g :: 0 <= g < |groups| - 1 ==> groups[g].scene != groups[g + 1].scene)
  }

  lemma AddShotKeepsGrouping(groups: seq<Group>, placed: Placed, duration: int)
    requires WellGrouped(groups)
    ensures WellGrouped(AddShot(groups, placed, duration))
    ensures AddShot(groups, placed, duration) != []
  {
  }

  /** Adding a shot appends exactly that shot, finished, to the list the groups spell out. */
  lemma AddShotAppends(groups: seq<Group>, placed: Placed, duration: int)
    ensures exists number :: Spread(AddShot(groups, placed, duration))
                             == Spread(groups) + [Placed(placed.scene, Finish(placed.shot, duration, number))]
  {
    if groups == [] || groups[|groups| - 1].scene != placed.scene {
      var g := Group(placed.scene, [Finish(placed.shot, duration, 1)]);
      SpreadSnoc(groups, g);
      assert PlaceAll(g.scene, g.shots) == [Placed(placed.scene, Finish(placed.shot, duration, 1))];
    } else {
      var front, last := groups[..|groups| - 1], groups[|groups| - 1];
      assert groups == front + [last];
      var number := |last.shots| + 1;
      var shot := Finish(placed.shot, duration, number);
      SpreadSnoc(front, last);
      SpreadSnoc(front, last.(shots := last.shots + [shot]));
      assert PlaceAll(last.scene, last.shots + [shot]) == PlaceAll(last.scene, last.shots) + [Placed(last.scene, shot)];
      assert Spread(AddShot(groups, placed, duration)) == Spread(groups) + [Placed(placed.scene, shot)];
    }
  }

  /** Position by position the groups spell out the fitted shots, each with its own clip. */
  ghost predicate Spells(spread: seq<Placed>, placed: seq<Placed>, clips: seq<int>, k: nat)
    requires k <= |placed| == |clips|
  {
    |spread| == k &&
    forall i :: 0 <= i < k ==>
      spread[i] == Placed(placed[i].scene, Finish(placed[i].shot, clips[i], spread[i].shot.number))
  }

  lemma {:induction false} GroupedSpells(placed: seq<Placed>, clips: seq<int>, k: nat)
    requires k <= |placed| == |clips|
    ensures WellGrouped(Grouped(placed, clips, k))
    ensures Spells(Spread(Grouped(placed, clips, k)), placed, clips, k)
    ensures k > 0 ==> Grouped(placed, clips, k) != []
  {
    if k > 0 {
      GroupedSpells(placed, clips, k - 1);
      var groups := Grouped(placed, clips, k - 1);
      AddShotKeepsGrouping(groups, placed[k - 1], clips[k - 1]);
      AddShotAppends(groups, placed[k - 1], clips[k - 1]);
      var number :| Spread(AddShot(groups, placed[k - 1], clips[k - 1]))
                    == Spread(groups) + [Placed(placed[k - 1].scene, Finish(placed[k - 1].shot, clips[k - 1], number))];
      SpellsOneMore(Spread(groups), placed, clips, k, number);
    }
  }

  lemma SpellsOneMore(spread: seq<Placed>, placed: seq<Placed>, clips: seq<int>, k: nat, number: int)
    requires 0 < k <= |placed| == |clips| && Spells(spread, placed, clips, k - 1)
    ensures Spells(spread + [Placed(placed[k - 1].scene, Finish(placed[k - 1].shot, clips[k - 1], number))], placed, clips, k)
  {
  }

  function Durations(spread: seq<Placed>): (r: seq<int>)
    ensures |r| == |spread|
  {
    seq(|spread|, i requires 0 <= i < |spread| => spread[i].shot.duration)
  }

  /** The flattened durations are the clip list. */
  lemma GroupedDurations(placed: seq<Placed>, clips: seq<int>)
    requires |placed| == |clips|
    ensures Durations(Spread(Grouped(placed, clips, |clips|))) == clips
  {
    GroupedSpells(placed, clips, |clips|);
  }

  // ---------------------------------------------------------------- scenes

  /** The text a shot is narrated with, if it has any. */
  function NarrationText(shot: Shot): Option<string> {
    if Strip(OrElse(shot.narration, "")) != "" then Some(Strip(OrElse(shot.narration, "")))
    else if Strip(OrElse(shot.dialogue, "")) != "" then Some(Strip(OrElse(shot.dialogue, "")))
    else if shot.action.Text? && Strip(shot.action.text) != "" then Some(Strip(shot.action.text))
    else None
  }

  function TotalOf(shots: seq<Shot>): int {
    if shots == [] then 0 else shots[0].duration + TotalOf(shots[1..])
  }

  function SceneFrom(number: nat, group: Group, raw: Scene, narration: string): NumberedScene {
    NumberedScene(number, group.scene,
                  if raw.title.Missing? then Text("Cena " + Decimal(number)) else raw.title,
                  if raw.summary.Missing? then Text(narration) else raw.summary,
                  group.shots, TotalOf(group.shots))
  }

  ghost predicate InRange(groups: seq<Group>, raw: seq<Scene>) {
    forall g :: 0 <= g < |groups| ==> groups[g].scene < |raw| && groups[g].shots != []
  }

  /** The entry is absent, null, or text of white space alone. */
  predicate Blank(f: Field) {
    f.Text? ==> AllSpace(f.text)
  }

  /** The shot has neither narration nor dialogue nor action. */
  predicate SaysNothing(shot: Shot) {
    Blank(shot.narration) && Blank(shot.dialogue) && Blank(shot.action)
  }

  predicate Narrated(group: Group)
    requires group.shots != []
  {
    !SaysNothing(group.shots[0])
  }

  /** A shot is narrated by its narration; failing that by its dialogue; and failing that by its action. */
  predicate Narrates(text: string, shot: Shot) {
    if !Blank(shot.narration) then text == Strip(shot.narration.text)
    else if !Blank(shot.dialogue) then text == Strip(shot.dialogue.text)
    else !Blank(shot.action) && text == Strip(shot.action.text)
  }

  lemma BlankIff(f: Field)
    ensures Blank(f) <==> Strip(OrElse(f, "")) == ""
    ensures !Blank(f) ==> f.text != "" && OrElse(f, "") == f.text
  {
    if f.Text? { StripBlankIff(f.text); }
    assert Strip("") == "";
  }

  lemma NarrationIs(shot: Shot)
    ensures NarrationText(shot).None? <==> SaysNothing(shot)
    ensures NarrationText(shot).Some? ==> Narrates(NarrationText(shot).value, shot)
  {
    BlankIff(shot.narration);
    BlankIff(shot.dialogue);
    BlankIff(shot.action);
    if shot.action.Text? { StripBlankIff(shot.action.text); }
  }

  /** Scene `g` of a plan: numbered from 1, made of its group's shots and lasting as long as they do; title
      and summary are those of the raw scene or, where it has none, the number and the first shot's text. */
  ghost predicate SceneIs(scene: NumberedScene, g: nat, group: Group, raw: seq<Scene>) {
    && group.shots != [] && group.scene < |raw| && Narrated(group)
    && scene.number == g + 1 && scene.origin == group.scene && scene.shots == group.shots
    && scene.duration == TotalOf(group.shots)
    && (if raw[group.scene].title.Missing? then scene.title == Text("Cena " + Decimal(g + 1))
        else scene.title == raw[group.scene].title)
    && (if raw[group.scene].summary.Missing? then scene.summary.Text? && Narrates(scene.summary.text, group.shots[0])
        else scene.summary == raw[group.scene].summary)
  }

  /** Every scene is made from the group at its place. */
  ghost predicate ScenesAre(scenes: seq<NumberedScene>, groups: seq<Group>, raw: seq<Scene>) {
    && |scenes| <= |groups|
    && forall g :: 0 <= g < |scenes| ==> SceneIs(scenes[g], g, groups[g], raw)
  }

  method BuildScenes(groups: seq<Group>, raw: seq<Scene>) returns (r: Result<seq<NumberedScene>, Error>)
    requires InRange(groups, raw)
    ensures r.Ok? <==> forall g :: 0 <= g < |groups| ==> Narrated(groups[g])
    ensures r.Err? ==> exists g :: 0 <= g < |groups| && var shot := groups[g].shots[0];
                         Blank(shot.narration) && Blank(shot.dialogue) && Blank(shot.action)
    ensures r.Ok? ==> |r.value| == |groups| && ScenesAre(r.value, groups, raw)
    ensures r.Err? ==> r.error == MissingNarration
  {
    var scenes := [];
    for g := 0 to |groups|
      invariant |scenes| == g && ScenesAre(scenes, groups, raw)
      invariant forall i :: 0 <= i < g ==> Narrated(groups[i])
    {
      var narration := NarrationText(groups[g].shots[0]);
      NarrationIs(groups[g].shots[0]);
      if narration.None? {
        return Err(MissingNarration);
      }
      var scene := SceneFrom(g + 1, groups[g], raw[groups[g].scene], narration.value);
      assert SceneIs(scene, g, groups[g], raw);
      scenes := scenes + [scene];
    }
    return Ok(scenes);
  }

  // ---------------------------------------------------------------- distinct actions

  function ActionKey(shot: Shot): string {
    Canonical(OrElse(shot.action, ""))
  }

  ghost predicate DistinctActions(shots: seq<Shot>) {
    Distinct(ActionKeys(shots))
  }

  function ActionKeys(shots: seq<Shot>): (r: seq<string>)
    ensures |r| == |shots|
    ensures forall i :: 0 <= i < |r| ==> r[i] == ActionKey(shots[i])
  {
    seq(|shots|, i requires 0 <= i < |shots| => ActionKey(shots[i]))
  }

  function Elements<T>(xs: seq<T>): set<T> {
    set x | x in xs
  }

  /** A list has as many elements as entries exactly when no entry repeats. */
  lemma {:induction false} ElementCount<T>(xs: seq<T>)
    ensures |Elements(xs)| <= |xs|
    ensures |Elements(xs)| == |xs| <==> Distinct(xs)
  {
    if xs != [] {
      var rest := xs[1..];
      ElementCount(rest);
      assert xs == [xs[0]] + rest;
      assert Elements(xs) == Elements(rest) + {xs[0]};
      if xs[0] in rest {
        assert Elements(xs) == Elements(rest);
        var j :| 0 <= j < |rest| && rest[j] == xs[0];
        assert xs[j + 1] == xs[0];
      } else {
        DistinctWithHead(xs);
      }
    }
  }

  lemma DistinctWithHead<T>(xs: seq<T>)
    requires xs != [] && xs[0] !in xs[1..]
    ensures Distinct(xs) <==> Distinct(xs[1..])
  {
    var rest := xs[1..];
    assert forall j :: 0 < j < |xs| ==> xs[j] == rest[j - 1];
    if Distinct(xs) {
      forall i, j | 0 <= i < j < |rest| ensures rest[i] != rest[j] {
        assert rest[i] == xs[i + 1] && rest[j] == xs[j + 1];
      }
    }
  }

  method ValidateDistinctShotActions(scenes: seq<NumberedScene>) returns (ok: bool)
    ensures ok <==> forall s :: 0 <= s < |scenes| ==> DistinctActions(scenes[s].shots)
  {
    for s := 0 to |scenes|
      invariant forall i :: 0 <= i < s ==> DistinctActions(scenes[i].shots)
    {
      var shots := scenes[s].shots;
      if |shots| <= 1 {
        continue;
      }
      var keys := ActionKeys(shots);
      ElementCount(keys);
      if |Elements(keys)| != |shots| {
        return false;
      }
    }
    return true;
  }

  // ---------------------------------------------------------------- totals

  function SceneTotals(scenes: seq<NumberedScene>): int {
    if scenes == [] then 0 else TotalOf(scenes[0].shots) + SceneTotals(scenes[1..])
  }

  lemma {:induction false} TotalOfPlaced(scene: nat, shots: seq<Shot>)
    ensures TotalOf(shots) == Sum(Durations(PlaceAll(scene, shots)))
  {
    if shots != [] {
      TotalOfPlaced(scene, shots[1..]);
      assert Durations(PlaceAll(scene, shots))[1..] == Durations(PlaceAll(scene, shots[1..]));
    }
  }

  lemma DurationsAppend(a: seq<Placed>, b: seq<Placed>)
    ensures Durations(a + b) == Durations(a) + Durations(b)
  {
  }

  /** The shots of the scenes add up to what their groups spell out. */
  lemma {:induction false} TotalsAre(scenes: seq<NumberedScene>, groups: seq<Group>)
    requires |scenes| == |groups| && forall g :: 0 <= g < |groups| ==> scenes[g].shots == groups[g].shots
    ensures SceneTotals(scenes) == Sum(Durations(Spread(groups)))
  {
    if groups != [] {
      TotalsAre(scenes[1..], groups[1..]);
      TotalOfPlaced(groups[0].scene, groups[0].shots);
      DurationsAppend(PlaceAll(groups[0].scene, groups[0].shots), Spread(groups[1..]));
      SumAppend(Durations(PlaceAll(groups[0].scene, groups[0].shots)), Durations(Spread(groups[1..])));
    }
  }

  // ---------------------------------------------------------------- the normalisation

  /** The fitted shot list of a raw plan. */
  function Fitted(raw: seq<Scene>, clips: seq<int>): (r: seq<Placed>)
    requires clips != [] && Flat(raw, |raw|) != []
    ensures |r| == |clips|
  {
    Fit(Flat(raw, |raw|), |clips|)
  }

  lemma {:induction false} FlatInRange(raw: seq<Scene>, k: nat)
    requires k <= |raw|
    ensures forall i :: 0 <= i < |Flat(raw, k)| ==> Flat(raw, k)[i].scene < k
    ensures k > 0 && raw[0].shots != [] ==> Flat(raw, k) != []
  {
    if k > 0 { FlatInRange(raw, k - 1); }
  }

  lemma FittedInRange(raw: seq<Scene>, clips: seq<int>)
    requires clips != [] && Flat(raw, |raw|) != []
    ensures forall i :: 0 <= i < |clips| ==> Fitted(raw, clips)[i].scene < |raw|
  {
    FlatInRange(raw, |raw|);
    forall i | 0 <= i < |clips| ensures Fitted(raw, clips)[i].scene < |raw| {
      FitKeepsShots(Flat(raw, |raw|), |clips|, i);
    }
  }

  ghost predicate ScenesBelow(groups: seq<Group>, bound: nat) {
    forall g :: 0 <= g < |groups| ==> groups[g].scene < bound
  }

  lemma AddShotStaysBelow(groups: seq<Group>, placed: Placed, duration: int, bound: nat)
    requires ScenesBelow(groups, bound) && placed.scene < bound
    ensures ScenesBelow(AddShot(groups, placed, duration), bound)
  {
  }

  lemma {:induction false} GroupScenesInRange(placed: seq<Placed>, clips: seq<int>, k: nat, bound: nat)
    requires k <= |placed| == |clips|
    requires forall i :: 0 <= i < |placed| ==> placed[i].scene < bound
    ensures ScenesBelow(Grouped(placed, clips, k), bound)
  {
    if k > 0 {
      GroupScenesInRange(placed, clips, k - 1, bound);
      AddShotStaysBelow(Grouped(placed, clips, k - 1), placed[k - 1], clips[k - 1], bound);
    }
  }

  /** What a returned plan guarantees, against the raw plan and the clips. */
  ghost predicate Normal(scenes: seq<NumberedScene>, groups: seq<Group>, raw: seq<Scene>, clips: seq<int>) {
    && clips != [] && Flat(raw, |raw|) != []
    && scenes != [] && |scenes| == |groups| && WellGrouped(groups)
    && (forall s :: 0 <= s < |scenes| ==> SceneIs(scenes[s], s, groups[s], raw))
    && (forall s :: 0 <= s < |scenes| ==> DistinctActions(scenes[s].shots))
    && Spells(Spread(groups), Fitted(raw, clips), clips, |clips|)
  }

  lemma GroupedFacts(raw: seq<Scene>, clips: seq<int>)
    requires clips != [] && Flat(raw, |raw|) != []
    ensures var groups := Grouped(Fitted(raw, clips), clips, |clips|);
            && groups != [] && WellGrouped(groups) && InRange(groups, raw)
            && Spells(Spread(groups), Fitted(raw, clips), clips, |clips|)
            && Sum(Durations(Spread(groups))) == Sum(clips)
  {
    GroupedSpells(Fitted(raw, clips), clips, |clips|);
    FittedInRange(raw, clips);
    GroupScenesInRange(Fitted(raw, clips), clips, |clips|, |raw|);
    GroupedDurations(Fitted(raw, clips), clips);
  }

  ghost predicate SomeUnnarrated(groups: seq<Group>) {
    exists g :: 0 <= g < |groups| && groups[g].shots != [] && !Narrated(groups[g])
  }

  ghost predicate SomeRepeats(groups: seq<Group>) {
    exists g :: 0 <= g < |groups| && !DistinctActions(groups[g].shots)
  }

  // ---------------------------------------------------------------- errors in terms of the shots

  /** What `tell` says of the shots of each group. */
  function Told<T>(groups: seq<Group>, tell: Shot -> T): (r: seq<Run<T>>)
    ensures |r| == |groups|
  {
    seq(|groups|, g requires 0 <= g < |groups| => Run(groups[g].scene, Each(groups[g].shots, tell)))
  }

  function Each<T>(shots: seq<Shot>, tell: Shot -> T): (r: seq<T>)
    ensures |r| == |shots|
    ensures forall i :: 0 <= i < |r| ==> r[i] == tell(shots[i])
  {
    seq(|shots|, i requires 0 <= i < |shots| => tell(shots[i]))
  }

  function Scenes(placed: seq<Placed>): (r: seq<nat>)
    ensures |r| == |placed|
  {
    seq(|placed|, i requires 0 <= i < |placed| => placed[i].scene)
  }

  /** What `tell` says of the shots, whatever clips and numbers they get. */
  function Items<T>(placed: seq<Placed>, tell: Shot -> T): (r: seq<T>)
    ensures |r| == |placed|
  {
    seq(|placed|, i requires 0 <= i < |placed| => tell(Finish(placed[i].shot, 0, 0)))
  }

  /** `tell` looks neither at the clip nor at the number of a shot. */
  ghost predicate Indifferent<T(!new)>(tell: Shot -> T) {
    forall narration, dialogue, action, duration, number ::
      tell(Shot(narration, dialogue, action, duration, number)) == tell(Shot(narration, dialogue, action, 0, 0))
  }

  lemma FinishedAlike<T(!new)>(shot: Shot, duration: int, number: int, tell: Shot -> T)
    requires Indifferent(tell)
    ensures tell(Finish(shot, duration, number)) == tell(Finish(shot, 0, 0))
  {
    var f := Finish(shot, duration, number);
    assert f == Shot(f.narration, f.dialogue, f.action, duration, number);
    assert Finish(shot, 0, 0) == Shot(f.narration, f.dialogue, f.action, 0, 0);
  }

  /** Appends a finished shot to the group it belongs to. */
  function Appended(groups: seq<Group>, scene: nat, shot: Shot): seq<Group> {
    if groups == [] || groups[|groups| - 1].scene != scene then groups + [Group(scene, [shot])]
    else
      var last := groups[|groups| - 1];
      groups[..|groups| - 1] + [last.(shots := last.shots + [shot])]
  }

  lemma ToldAppended<T>(groups: seq<Group>, scene: nat, shot: Shot, tell: Shot -> T)
    ensures Told(Appended(groups, scene, shot), tell) == Extend(Told(groups, tell), scene, tell(shot))
  {
    var after := Appended(groups, scene, shot);
    if groups == [] || groups[|groups| - 1].scene != scene {
      assert Each([shot], tell) == [tell(shot)];
    } else {
      var last := groups[|groups| - 1];
      assert Each(last.shots + [shot], tell) == Each(last.shots, tell) + [tell(shot)];
    }
    assert Told(after, tell) == Extend(Told(groups, tell), scene, tell(shot));
  }

  lemma ToldAddShot<T(!new)>(groups: seq<Group>, placed: Placed, duration: int, tell: Shot -> T, after: seq<Group>)
    requires Indifferent(tell) && after == AddShot(groups, placed, duration)
    ensures Told(after, tell) == Extend(Told(groups, tell), placed.scene, tell(Finish(placed.shot, 0, 0)))
  {
    var number := if groups == [] || groups[|groups| - 1].scene != placed.scene then 1 else |groups[|groups| - 1].shots| + 1;
    var shot := Finish(placed.shot, duration, number);
    FinishedAlike(placed.shot, duration, number, tell);
    assert after == Appended(groups, placed.scene, shot);
    ToldAppended(groups, placed.scene, shot, tell);
  }

  /** The groups tell of the first `k` shots what the shots' own runs do. */
  ghost predicate Tells<T>(groups: seq<Group>, placed: seq<Placed>, k: nat, tell: Shot -> T)
    requires k <= |placed|
  {
    match k
    case 0 => groups == []
    case _ => Told(groups, tell) == RunsOf(Scenes(placed), Items(placed, tell), k)
  }

  lemma AddShotTells<T(!new)>(groups: seq<Group>, placed: seq<Placed>, duration: int, k: nat, tell: Shot -> T, after: seq<Group>)
    requires 0 < k <= |placed| && Indifferent(tell) && Tells(groups, placed, k - 1, tell)
    requires after == AddShot(groups, placed[k - 1], duration)
    ensures Tells(after, placed, k, tell)
  {
    ToldAddShot(groups, placed[k - 1], duration, tell, after);
    assert Told(groups, tell) == RunsOf(Scenes(placed), Items(placed, tell), k - 1);
  }

  lemma {:induction false} GroupedTells<T(!new)>(placed: seq<Placed>, clips: seq<int>, k: nat, tell: Shot -> T)
    requires k <= |placed| == |clips| && Indifferent(tell)
    ensures Tells(Grouped(placed, clips, k), placed, k, tell)
  {
    if k > 0 {
      GroupedTells(placed, clips, k - 1, tell);
      AddShotTells(Grouped(placed, clips, k - 1), placed, clips[k - 1], k, tell, Grouped(placed, clips, k));
    }
  }

  /** Two shots of one scene, with none of another between them, have the same action up to white space. */
  ghost predicate SomeShotRepeats(placed: seq<Placed>) {
    RepeatsBefore(Scenes(placed), Items(placed, ActionKey), |placed|)
  }

  /** A shot that opens a scene has nothing to narrate. */
  ghost predicate SomeOpeningSilent(placed: seq<Placed>) {
    OpensBefore(Scenes(placed), Items(placed, SaysNothing), |placed|)
  }

  /** A present text, and nothing for null. */
  function TextOf(f: Field): string {
    if f.Text? then f.text else ""
  }

  /** What a shot is left to show: its action or, where that is missing, its narration, or a set phrase. */
  function ActionTold(shot: Shot): string {
    if !shot.action.Missing? then TextOf(shot.action)
    else if TextOf(shot.narration) != "" then TextOf(shot.narration)
    else DEFAULT_ACTION
  }

  /** Shots i and j are of one scene, with none of another between them, and their actions have the same words. */
  ghost predicate ShotRepeats(placed: seq<Placed>, i: nat, j: nat) {
    && i < j < |placed| && (forall x :: i <= x <= j ==> placed[x].scene == placed[j].scene)
    && Words(ActionTold(placed[i].shot)) == Words(ActionTold(placed[j].shot))
  }

  lemma ShownAction(shot: Shot)
    ensures ActionKey(Finish(shot, 0, 0)) == Canonical(ActionTold(shot))
  {
    assert OrElse(Finish(shot, 0, 0).action, "") == ActionTold(shot);
  }

  lemma ActionKeysAlike(placed: seq<Placed>, i: nat, j: nat)
    requires i < j < |placed|
    ensures Repeats(Scenes(placed), Items(placed, ActionKey), i, j) <==> ShotRepeats(placed, i, j)
  {
    ShownAction(placed[i].shot);
    ShownAction(placed[j].shot);
    CanonicalEqualIff(ActionTold(placed[i].shot), ActionTold(placed[j].shot));
    var scenes, keys := Scenes(placed), Items(placed, ActionKey);
    assert keys[i] == Canonical(ActionTold(placed[i].shot)) && keys[j] == Canonical(ActionTold(placed[j].shot));
    assert forall x :: 0 <= x < |placed| ==> scenes[x] == placed[x].scene;
  }

  ghost predicate SomeRepeat(placed: seq<Placed>) {
    exists i, j :: ShotRepeats(placed, i, j)
  }

  lemma SomeShotRepeatsIff(placed: seq<Placed>)
    ensures SomeShotRepeats(placed) <==> SomeRepeat(placed)
  {
    var scenes, keys := Scenes(placed), Items(placed, ActionKey);
    if SomeShotRepeats(placed) {
      var j :| 0 <= j < |placed| && RepeatsAt(scenes, keys, j);
      var i :| 0 <= i < j && Repeats(scenes, keys, i, j);
      ActionKeysAlike(placed, i, j);
    }
    if i, j :| ShotRepeats(placed, i, j) {
      ActionKeysAlike(placed, i, j);
      assert RepeatsAt(scenes, keys, j);
    }
  }

  /** Shot `i` opens a scene and has nothing to narrate: narration, dialogue and action are all blank, and no
      default steps in. One does for a missing narration, unless the action is text (if only white space),
      and for a missing action, unless the narration is. */
  ghost predicate OpensSilent(placed: seq<Placed>, i: nat) {
    && i < |placed| && (i == 0 || placed[i - 1].scene != placed[i].scene)
    && var shot := placed[i].shot;
       && Blank(shot.narration) && Blank(shot.dialogue) && Blank(shot.action)
       && (shot.narration.Missing? ==> shot.action.Text? && shot.action.text != "")
       && (shot.action.Missing? ==> shot.narration.Text? && shot.narration.text != "")
  }

  lemma DefaultsSpeak()
    ensures !AllSpace(DEFAULT_ACTION) && DEFAULT_ACTION != ""
  {
    assert DEFAULT_ACTION[0] == 'A';
  }

  lemma FinishedSaysNothingIff(shot: Shot)
    ensures SaysNothing(Finish(shot, 0, 0)) <==>
            && Blank(shot.narration) && Blank(shot.dialogue) && Blank(shot.action)
            && (shot.narration.Missing? ==> shot.action.Text? && shot.action.text != "")
            && (shot.action.Missing? ==> shot.narration.Text? && shot.narration.text != "")
  {
    DefaultsSpeak();
  }

  ghost predicate SomeSilent(placed: seq<Placed>) {
    exists i :: OpensSilent(placed, i)
  }

  lemma SilentAt(placed: seq<Placed>, i: nat)
    requires i < |placed|
    ensures OpensAt(Scenes(placed), Items(placed, SaysNothing), i) <==> OpensSilent(placed, i)
  {
    FinishedSaysNothingIff(placed[i].shot);
    assert Items(placed, SaysNothing)[i] == SaysNothing(Finish(placed[i].shot, 0, 0));
    assert Scenes(placed)[i] == placed[i].scene && (i > 0 ==> Scenes(placed)[i - 1] == placed[i - 1].scene);
  }

  lemma SomeOpeningSilentIff(placed: seq<Placed>)
    ensures SomeOpeningSilent(placed) <==> SomeSilent(placed)
  {
    if SomeOpeningSilent(placed) {
      var i :| 0 <= i < |placed| && OpensAt(Scenes(placed), Items(placed, SaysNothing), i);
      SilentAt(placed, i);
    }
    if i :| OpensSilent(placed, i) {
      SilentAt(placed, i);
    }
  }

  /** Some scene repeats an action exactly if two shots do that follow each other in one raw scene. */
  lemma GroupedRepeatsIff(placed: seq<Placed>, clips: seq<int>)
    requires |placed| == |clips|
    ensures SomeRepeats(Grouped(placed, clips, |clips|)) <==> SomeRepeat(placed)
  {
    SomeShotRepeatsIff(placed);
    var groups := Grouped(placed, clips, |clips|);
    GroupedTells(placed, clips, |clips|, ActionKey);
    RunsRepeatIff(Scenes(placed), Items(placed, ActionKey), |clips|);
    assert forall g :: 0 <= g < |groups| ==> Told(groups, ActionKey)[g].items == ActionKeys(groups[g].shots);
  }

  /** Some scene cannot be narrated exactly if a shot that opens one says nothing. */
  lemma GroupedSilentIff(placed: seq<Placed>, clips: seq<int>)
    requires |placed| == |clips|
    ensures SomeUnnarrated(Grouped(placed, clips, |clips|)) <==> SomeSilent(placed)
  {
    SomeOpeningSilentIff(placed);
    GroupedTells(placed, clips, |clips|, SaysNothing);
    RunsOpenIff(Scenes(placed), Items(placed, SaysNothing), |clips|);
    UnnarratedOpens(Grouped(placed, clips, |clips|));
  }

  lemma UnnarratedOpens(groups: seq<Group>)
    ensures SomeUnnarrated(groups) <==> SomeRunOpens(Told(groups, SaysNothing))
  {
    var told := Told(groups, SaysNothing);
    forall g | 0 <= g < |groups|
      ensures (groups[g].shots != [] && !Narrated(groups[g])) <==> (told[g].items != [] && told[g].items[0])
    {
    }
  }

  // ---------------------------------------------------------------- the two branches

  /** Why a model-written plan is refused, if it is, told by its shots once they are fitted to the clips. */
  ghost function Refusal(raw: seq<Scene>, clips: seq<int>): Option<Error>
    requires clips != []
  {
    if raw == [] then Some(MissingScenes)
    else if SomeSceneEmpty(raw) then Some(MissingShots)
    else
      FlatInRange(raw, |raw|);
      if SomeSilent(Fitted(raw, clips)) then Some(MissingNarration)
      else if SomeRepeat(Fitted(raw, clips)) then Some(RepeatedAction)
      else None
  }

  /** The branch for a model-written plan. The groups are reported beside the result. */
  method NormalizeModelPlan(raw: seq<Scene>, clips: seq<int>)
    returns (r: Result<seq<NumberedScene>, Error>, groups: seq<Group>)
    requires clips != []
    ensures r.Err? <==> Refusal(raw, clips).Some?
    ensures r.Err? ==> Refusal(raw, clips) == Some(r.error)
    ensures r == Err(MissingScenes) <==> raw == []
    ensures r == Err(MissingShots) <==> SomeSceneEmpty(raw)
    ensures raw != [] && !SomeSceneEmpty(raw) ==>
      Flat(raw, |raw|) != [] && groups == Grouped(Fitted(raw, clips), clips, |clips|)
    ensures raw != [] && !SomeSceneEmpty(raw) ==>
      && (r == Err(MissingNarration) <==> SomeSilent(Fitted(raw, clips)))
      && (r == Err(RepeatedAction) <==> !SomeSilent(Fitted(raw, clips)) && SomeRepeat(Fitted(raw, clips)))
    ensures r.Ok? ==> Normal(r.value, groups, raw, clips)
    ensures r != Err(DurationMismatch)
  {
    groups := [];
    if raw == [] {
      return Err(MissingScenes), groups;
    }
    var flattened := Flatten(raw);
    if flattened.Err? {
      return Err(flattened.error), groups;
    }
    FlatInRange(raw, |raw|);
    var fitted := FitShots(flattened.value, |clips|);
    groups := GroupShots(fitted, clips);
    GroupedFacts(raw, clips);
    GroupedSilentIff(fitted, clips);
    GroupedRepeatsIff(fitted, clips);
    var scenes := BuildScenes(groups, raw);
    if scenes.Err? {
      return Err(scenes.error), groups;
    }
    var distinct := ValidateDistinctShotActions(scenes.value);
    assert forall g :: 0 <= g < |groups| ==> SceneIs(scenes.value[g], g, groups[g], raw);
    if !distinct {
      return Err(RepeatedAction), groups;
    }
    TotalsAre(scenes.value, groups);
    r := if SceneTotals(scenes.value) != Sum(clips) then Err(DurationMismatch) else Ok(scenes.value);
  }

  /** Either the script's own sections outnumber the raw scenes and are planned instead, or the
      model-written plan is normalised. */
  datatype Plan = FromScript(scriptScenes: seq<ScriptPlans.Scene>) | FromModel(modelScenes: seq<NumberedScene>)

  /** The plan made from the sections: one scene a section, from its clips and the states carried to it. */
  ghost predicate ScriptPlanned(scenes: seq<ScriptPlans.Scene>, sections: seq<ScriptPlans.Section>, clips: seq<int>,
                                mentions: ScriptPlans.Mention, groups: seq<seq<int>>)
  {
    && Groups(clips, |sections|, groups) && Shared(clips, ScriptPlans.Wanted(sections), groups) && (|clips| >= |sections| ==> NoneEmpty(groups))
    && |scenes| == |sections| && ScriptPlans.ScenesAre(scenes, sections, groups, mentions)
    && ScriptPlans.ShotDurations(ScriptPlans.AllShots(scenes)) == clips
  }

  method NormalizeScenePlan(raw: seq<Scene>, sections: seq<ScriptPlans.Section>, clips: seq<int>, mentions: ScriptPlans.Mention)
    returns (r: Result<Plan, Error>)
    requires clips != []
    ensures raw != [] && |sections| > |raw| ==>
      r.Ok? && r.value.FromScript? && exists groups :: ScriptPlanned(r.value.scriptScenes, sections, clips, mentions, groups)
    ensures raw == [] || |sections| <= |raw| ==>
      && (r.Err? <==> Refusal(raw, clips).Some?)
      && (r.Err? ==> Refusal(raw, clips) == Some(r.error))
      && (r.Ok? ==> r.value.FromModel? && exists groups :: Normal(r.value.modelScenes, groups, raw, clips))
    ensures r == Err(MissingScenes) <==> raw == []
    ensures r == Err(MissingShots) <==> |sections| <= |raw| && SomeSceneEmpty(raw)
    ensures raw != [] && |sections| <= |raw| && !SomeSceneEmpty(raw) ==>
      && Flat(raw, |raw|) != []
      && (r == Err(MissingNarration) <==> SomeSilent(Fitted(raw, clips)))
      && (r == Err(RepeatedAction) <==> !SomeSilent(Fitted(raw, clips)) && SomeRepeat(Fitted(raw, clips)))
    ensures r != Err(DurationMismatch)
  {
    if raw == [] {
      return Err(MissingScenes);
    }
    if |sections| > |raw| {
      var scenes, groups := ScriptPlans.ScenePlanFromScriptSections(sections, clips, mentions);
      assert ScriptPlanned(scenes, sections, clips, mentions, groups);
      return Ok(FromScript(scenes));
    }
    var plan, groups := NormalizeModelPlan(raw, clips);
    if plan.Err? {
      return Err(plan.error);
    }
    assert Normal(plan.value, groups, raw, clips);
    return Ok(FromModel(plan.value));
  }

  // ---------------------------------------------------------------- what a normal plan is

  /** No two shots have the same action, word for word. */
  ghost predicate DifferInWords(shots: seq<Shot>) {
    forall i, j :: 0 <= i < j < |shots| ==> Words(TextOf(shots[i].action)) != Words(TextOf(shots[j].action))
  }

  lemma DistinctMeansWords(shots: seq<Shot>)
    ensures DistinctActions(shots) <==> DifferInWords(shots)
  {
    var keys := ActionKeys(shots);
    forall i, j | 0 <= i < j < |shots|
      ensures keys[i] == keys[j] <==> Words(TextOf(shots[i].action)) == Words(TextOf(shots[j].action))
    {
      CanonicalEqualIff(TextOf(shots[i].action), TextOf(shots[j].action));
      assert keys[i] == Canonical(TextOf(shots[i].action)) && keys[j] == Canonical(TextOf(shots[j].action));
    }
  }

  /** Scenes are numbered 1..k, non-empty, and last as long as their shots; shots are numbered from 1;
      the actions of a scene differ; and the shot durations in order are the clip list. */
  lemma NormalPlanMatchesClips(scenes: seq<NumberedScene>, groups: seq<Group>, raw: seq<Scene>, clips: seq<int>)
    requires Normal(scenes, groups, raw, clips)
    ensures forall s :: 0 <= s < |scenes| ==>
      && scenes[s].number == s + 1 && scenes[s].shots != [] && scenes[s].duration == TotalOf(scenes[s].shots)
      && (forall i :: 0 <= i < |scenes[s].shots| ==> scenes[s].shots[i].number == i + 1)
      && DifferInWords(scenes[s].shots)
    ensures Durations(SceneShots(scenes)) == clips
    ensures SceneTotals(scenes) == Sum(clips)
  {
    SceneShotsAre(scenes, groups);
    TotalsAre(scenes, groups);
    forall s | 0 <= s < |scenes|
      ensures scenes[s].number == s + 1 && scenes[s].shots == groups[s].shots && scenes[s].duration == TotalOf(groups[s].shots)
      ensures DifferInWords(scenes[s].shots)
    {
      assert SceneIs(scenes[s], s, groups[s], raw);
      DistinctMeansWords(scenes[s].shots);
    }
    assert Durations(Spread(groups)) == clips;
  }

  /** All shots of the result in order, each with the raw scene it came from. */
  function SceneShots(scenes: seq<NumberedScene>): seq<Placed> {
    if scenes == [] then [] else PlaceAll(scenes[0].origin, scenes[0].shots) + SceneShots(scenes[1..])
  }

  lemma {:induction false} SceneShotsAre(scenes: seq<NumberedScene>, groups: seq<Group>)
    requires |scenes| == |groups|
    requires forall g :: 0 <= g < |groups| ==> scenes[g].shots == groups[g].shots && scenes[g].origin == groups[g].scene
    ensures SceneShots(scenes) == Spread(groups)
  {
    if groups != [] { SceneShotsAre(scenes[1..], groups[1..]); }
  }

  /** A present action of a fitted shot reaches the result untouched, in its place and its scene. */
  lemma NormalPlanKeepsActions(scenes: seq<NumberedScene>, groups: seq<Group>, raw: seq<Scene>, clips: seq<int>, i: nat)
    requires Normal(scenes, groups, raw, clips) && i < |clips|
    ensures |SceneShots(scenes)| == |clips|
    ensures SceneShots(scenes)[i].scene == Fitted(raw, clips)[i].scene
    ensures var shot, fitted := SceneShots(scenes)[i].shot, Fitted(raw, clips)[i].shot;
            && (!fitted.action.Missing? ==> shot.action == fitted.action)
            && (!fitted.narration.Missing? ==> shot.narration == fitted.narration)
            && (!fitted.dialogue.Missing? ==> shot.dialogue == fitted.dialogue)
            && (fitted.dialogue.Missing? ==> shot.dialogue == Text(""))
            && (fitted.narration.Missing? ==> shot.narration == Text(if TextOf(fitted.action) != "" then TextOf(fitted.action) else DEFAULT_ACTION))
            && (fitted.action.Missing? ==> shot.action == Text(if TextOf(fitted.narration) != "" then TextOf(fitted.narration) else DEFAULT_ACTION))
            && shot.duration == clips[i]
  {
    forall s | 0 <= s < |scenes|
      ensures scenes[s].shots == groups[s].shots && scenes[s].origin == groups[s].scene
    {
      assert SceneIs(scenes[s], s, groups[s], raw);
    }
    SceneShotsAre(scenes, groups);
  }

  /** The text `tail` after `base`, or alone if there is no base. */
  function After(base: string, tail: string): string {
    if base == "" then tail else base + " " + tail
  }

  /** From the raw plan to the result no action is lost: every kept shot but the last has its own; with
      too few raw shots the last has too; with too many it has its own text followed by every
      non-blank dropped action, in order. */
  lemma NormalPlanLosesNoAction(scenes: seq<NumberedScene>, groups: seq<Group>, raw: seq<Scene>, clips: seq<int>, i: nat)
    requires Normal(scenes, groups, raw, clips) && i < |clips| && i < |Flat(raw, |raw|)|
    ensures |SceneShots(scenes)| == |clips|
    ensures var flat := Flat(raw, |raw|); var action := SceneShots(scenes)[i].shot.action;
            && (!flat[i].shot.action.Missing? && (i < |clips| - 1 || |flat| <= |clips| || ExtraActions(flat[|clips|..]) == [])
                ==> action == flat[i].shot.action)
            && (i == |clips| - 1 && |flat| > |clips| && ExtraActions(flat[|clips|..]) != [] ==>
                  action == Text(After(Strip(OrElse(flat[i].shot.action, "")), Join(ExtraActions(flat[|clips|..])))))
  {
    var flat := Flat(raw, |raw|);
    NormalPlanKeepsActions(scenes, groups, raw, clips, i);
    FitKeepsShots(flat, |clips|, i);
    if i == |clips| - 1 && |flat| > |clips| && ExtraActions(flat[|clips|..]) != [] {
      FoldKeepsActions(flat[i].shot, flat[|clips|..]);
    }
  }
}
