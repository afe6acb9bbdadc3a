/** The shot plan built directly from the sections of a script. */
module ScriptPlans {
  import opened Common
  import opened Beats
  import opened Clips

  /** Continuity notes: what actions tell, or the set phrase that asks to preserve the earlier state of `name`. */
  datatype Notes = Told(text: string) | Preserve(name: string)

  /** What is known of a character after a scene. */
  datatype CharacterState = CharacterState(notes: Notes, condition: Option<string>)

  /** A script section: its parsed duration, its action sentences and its character cues. */
  datatype Section = Section(
    title: string,
    summary: string,
    duration: Option<int>,
    actions: seq<string>,
    characters: seq<string>)

  datatype Shot = Shot(
    number: nat,
    duration: int,
    narration: string,
    action: string,
    continuityState: string,
    continuityBreak: bool,
    states: map<string, CharacterState>)

  datatype Scene = Scene(number: nat, title: string, summary: string, duration: int, shots: seq<Shot>)

  const OPENING := "Estado inicial descrito pelo contexto completo da cena."

  /** Whether an action names a character; the case folding of the source is not modelled. */
  type Mention = (string, string) -> bool

  function Prefix(s: string, n: nat): string {
    if |s| <= n then s else s[..n]
  }

  /** The actions that name `name`, in order. */
  function Relevant(actions: seq<string>, name: string, mentions: Mention): seq<string> {
    if actions == [] then []
    else (if mentions(actions[0], name) then [actions[0]] else []) + Relevant(actions[1..], name, mentions)
  }

  lemma {:induction false} RelevantMentions(actions: seq<string>, name: string, mentions: Mention)
    ensures Relevant(actions, name, mentions) != [] <==> exists a :: a in actions && mentions(a, name)
    ensures forall a :: a in Relevant(actions, name, mentions) <==> a in actions && mentions(a, name)
  {
    if actions != [] {
      RelevantMentions(actions[1..], name, mentions);
      if Relevant(actions, name, mentions) != [] {
        assert Relevant(actions, name, mentions)[0] in Relevant(actions, name, mentions);
      }
      assert actions == [actions[0]] + actions[1..];
    }
  }

  function Observed(relevant: seq<string>): CharacterState
    requires relevant != []
  {
    CharacterState(Told(Prefix(Join(relevant), 700)), Some(Prefix(relevant[|relevant| - 1], 300)))
  }

  function Unseen(name: string): CharacterState {
    CharacterState(Preserve(name), None)
  }

  /** The state of one character after a section. */
  function StateAfter(section: Section, carried: map<string, CharacterState>, name: string, mentions: Mention): CharacterState
    requires name in section.characters || name in carried
  {
    var relevant := Relevant(section.actions, name, mentions);
    if name in section.characters && relevant != [] then Observed(relevant)
    else if name in carried then carried[name]
    else Unseen(name)
  }

  function Names(section: Section): set<string> {
    set n | n in section.characters
  }

  /** The states after a section, from those before it. */
  function StatesAfter(section: Section, carried: map<string, CharacterState>, mentions: Mention): map<string, CharacterState> {
    map n | n in carried.Keys + Names(section) :: StateAfter(section, carried, n, mentions)
  }

  /** The states when the first `k` cues of the section have been handled. */
  ghost predicate Continued(section: Section, carried: map<string, CharacterState>, k: nat,
                            states: map<string, CharacterState>, mentions: Mention)
  {
    && k <= |section.characters|
    && (forall n :: n in states <==> n in carried || n in section.characters[..k])
    && (forall n :: n in states ==>
          states[n] == if n in section.characters[..k] then StateAfter(section, carried, n, mentions) else carried[n])
  }

  /** What one cue does to the states. */
  function ContinueOne(section: Section, name: string, states: map<string, CharacterState>, mentions: Mention)
    : map<string, CharacterState>
  {
    var relevant := Relevant(section.actions, name, mentions);
    if relevant != [] then states[name := Observed(relevant)]
    else if name !in states then states[name := Unseen(name)]
    else states
  }

  lemma ContinuedOne(section: Section, carried: map<string, CharacterState>, k: nat, states: map<string, CharacterState>, mentions: Mention)
    requires k < |section.characters| && Continued(section, carried, k, states, mentions)
    ensures Continued(section, carried, k + 1, ContinueOne(section, section.characters[k], states, mentions), mentions)
  {
    var name := section.characters[k];
    var after := ContinueOne(section, name, states, mentions);
    assert section.characters[..k + 1] == section.characters[..k] + [name];
    assert after[name] == StateAfter(section, carried, name, mentions);
  }

  lemma ContinuedAll(section: Section, carried: map<string, CharacterState>, states: map<string, CharacterState>, mentions: Mention)
    requires Continued(section, carried, |section.characters|, states, mentions)
    ensures states == StatesAfter(section, carried, mentions)
  {
    assert section.characters[..|section.characters|] == section.characters;
    assert states.Keys == StatesAfter(section, carried, mentions).Keys;
  }

  method SceneContinuityData(section: Section, carried: map<string, CharacterState>, mentions: Mention)
    returns (states: map<string, CharacterState>)
    ensures states == StatesAfter(section, carried, mentions)
  {
    states := carried;
    for i := 0 to |section.characters|
      invariant Continued(section, carried, i, states, mentions)
    {
      var name := section.characters[i];
      var relevant := Relevant(section.actions, name, mentions);
      ContinuedOne(section, carried, i, states, mentions);
      if relevant != [] {
        states := states[name := Observed(relevant)];
      } else if name !in states {
        states := states[name := Unseen(name)];
      }
    }
    ContinuedAll(section, carried, states, mentions);
  }

  /** The states after the first `k` sections. */
  function StatesUpTo(sections: seq<Section>, k: nat, mentions: Mention): map<string, CharacterState>
    requires k <= |sections|
  {
    if k == 0 then map[] else StatesAfter(sections[k - 1], StatesUpTo(sections, k - 1, mentions), mentions)
  }

  /** The characters known after a scene are exactly those cued in it or earlier. */
  lemma {:induction false} KnownIffCued(sections: seq<Section>, k: nat, mentions: Mention, name: string)
    requires k <= |sections|
    ensures name in StatesUpTo(sections, k, mentions) <==> exists s :: 0 <= s < k && name in sections[s].characters
  {
    if k > 0 {
      KnownIffCued(sections, k - 1, mentions, name);
      KnownAfter(sections[k - 1], StatesUpTo(sections, k - 1, mentions), mentions, name, StatesUpTo(sections, k, mentions));
    }
  }

  lemma KnownAfter(section: Section, carried: map<string, CharacterState>, mentions: Mention, name: string,
                   after: map<string, CharacterState>)
    requires after == StatesAfter(section, carried, mentions)
    ensures name in after <==> name in carried || name in section.characters
  {
  }

  /** A known character is never dropped. */
  lemma KnownCharactersStay(sections: seq<Section>, j: nat, k: nat, mentions: Mention)
    requires j <= k <= |sections|
    ensures StatesUpTo(sections, j, mentions).Keys <= StatesUpTo(sections, k, mentions).Keys
  {
    forall name | name in StatesUpTo(sections, j, mentions) ensures name in StatesUpTo(sections, k, mentions) {
      KnownIffCued(sections, j, mentions, name);
      KnownIffCued(sections, k, mentions, name);
    }
  }

  /** The section cues the character and one of its actions names it. */
  ghost predicate Reports(section: Section, name: string, mentions: Mention) {
    name in section.characters && exists a :: a in section.actions && mentions(a, name)
  }

  ghost predicate SameState(before: map<string, CharacterState>, after: map<string, CharacterState>, name: string) {
    name in before && name in after && after[name] == before[name]
  }

  lemma SameStateTransitive(a: map<string, CharacterState>, b: map<string, CharacterState>, c: map<string, CharacterState>, name: string)
    requires SameState(a, b, name) && SameState(b, c, name)
    ensures SameState(a, c, name)
  {
  }

  /** A character whom no cued action mentions between two scenes keeps exactly the earlier state. */
  lemma {:induction false} UnmentionedKeepState(sections: seq<Section>, j: nat, k: nat, mentions: Mention, name: string)
    requires j <= k <= |sections| && name in StatesUpTo(sections, j, mentions)
    requires forall s :: j <= s < k ==> !Reports(sections[s], name, mentions)
    ensures SameState(StatesUpTo(sections, j, mentions), StatesUpTo(sections, k, mentions), name)
    decreases k - j
  {
    if j < k {
      UnmentionedKeepState(sections, j, k - 1, mentions, name);
      UnmentionedNext(sections, k, mentions, name);
      SameStateTransitive(StatesUpTo(sections, j, mentions), StatesUpTo(sections, k - 1, mentions), StatesUpTo(sections, k, mentions), name);
    }
  }

  lemma UnmentionedNext(sections: seq<Section>, k: nat, mentions: Mention, name: string)
    requires 0 < k <= |sections| && name in StatesUpTo(sections, k - 1, mentions)
    requires !Reports(sections[k - 1], name, mentions)
    ensures SameState(StatesUpTo(sections, k - 1, mentions), StatesUpTo(sections, k, mentions), name)
  {
    UnreportedKeepsState(sections[k - 1], StatesUpTo(sections, k - 1, mentions), mentions, name, StatesUpTo(sections, k, mentions));
  }

  lemma UnreportedKeepsState(section: Section, carried: map<string, CharacterState>, mentions: Mention, name: string,
                             after: map<string, CharacterState>)
    requires name in carried && !Reports(section, name, mentions)
    requires after == StatesAfter(section, carried, mentions)
    ensures name in after && after[name] == carried[name]
  {
    RelevantMentions(section.actions, name, mentions);
    assert after[name] == StateAfter(section, carried, name, mentions);
  }

  ghost predicate LastMention(actions: seq<string>, name: string, mentions: Mention, last: nat) {
    && last < |actions| && mentions(actions[last], name)
    && forall i :: last < i < |actions| ==> !mentions(actions[i], name)
  }

  /** `part` is the text, or its first `n` characters. */
  predicate Starts(part: string, text: string, n: nat) {
    part <= text && (|part| == n || (part == text && |text| <= n))
  }

  /** A cued character whom an action mentions is described by the last such action. */
  lemma MentionedGetNewState(sections: seq<Section>, k: nat, mentions: Mention, name: string, last: nat)
    requires 0 < k <= |sections| && name in sections[k - 1].characters
    requires LastMention(sections[k - 1].actions, name, mentions, last)
    ensures name in StatesUpTo(sections, k, mentions)
    ensures var state := StatesUpTo(sections, k, mentions)[name];
            && state.condition.Some? && Starts(state.condition.value, sections[k - 1].actions[last], 300)
            && state.notes.Told? && Starts(state.notes.text, Join(Relevant(sections[k - 1].actions, name, mentions)), 700)
  {
    ReportedGetsState(sections[k - 1], StatesUpTo(sections, k - 1, mentions), mentions, name, last, StatesUpTo(sections, k, mentions));
  }

  lemma ReportedGetsState(section: Section, carried: map<string, CharacterState>, mentions: Mention, name: string, last: nat,
                          after: map<string, CharacterState>)
    requires name in section.characters && LastMention(section.actions, name, mentions, last)
    requires after == StatesAfter(section, carried, mentions)
    ensures name in after && after[name].condition.Some? && Starts(after[name].condition.value, section.actions[last], 300)
    ensures after[name].notes.Told? && Starts(after[name].notes.text, Join(Relevant(section.actions, name, mentions)), 700)
  {
    LastRelevant(section.actions, name, mentions, last);
    assert after[name] == StateAfter(section, carried, name, mentions);
  }

  lemma {:induction false} LastRelevant(actions: seq<string>, name: string, mentions: Mention, last: nat)
    requires LastMention(actions, name, mentions, last)
    ensures var r := Relevant(actions, name, mentions); r != [] && r[|r| - 1] == actions[last]
  {
    if last == 0 {
      RelevantMentions(actions[1..], name, mentions);
      forall a | a in actions[1..] ensures !mentions(a, name) {
        var i :| 0 <= i < |actions[1..]| && actions[1..][i] == a;
        assert actions[i + 1] == a;
      }
    } else {
      LastRelevant(actions[1..], name, mentions, last - 1);
    }
  }

  /** A character first cued in a scene that tells nothing of it gets the set phrase and no condition. */
  lemma UntoldGetSetPhrase(sections: seq<Section>, k: nat, mentions: Mention, name: string)
    requires 0 < k <= |sections| && name in sections[k - 1].characters && name !in StatesUpTo(sections, k - 1, mentions)
    requires !Reports(sections[k - 1], name, mentions)
    ensures name in StatesUpTo(sections, k, mentions)
    ensures StatesUpTo(sections, k, mentions)[name] == CharacterState(Preserve(name), None)
  {
    UntoldState(sections[k - 1], StatesUpTo(sections, k - 1, mentions), mentions, name, StatesUpTo(sections, k, mentions));
  }

  lemma UntoldState(section: Section, carried: map<string, CharacterState>, mentions: Mention, name: string,
                    after: map<string, CharacterState>)
    requires name in section.characters && name !in carried && !Reports(section, name, mentions)
    requires after == StatesAfter(section, carried, mentions)
    ensures name in after && after[name] == CharacterState(Preserve(name), None)
  {
    RelevantMentions(section.actions, name, mentions);
    assert after[name] == StateAfter(section, carried, name, mentions);
  }

  // ---------------------------------------------------------------- the plan

  function FallbackOf(section: Section): string {
    if section.summary != "" then section.summary else section.title
  }

  function ShotOf(beats: seq<string>, i: nat, duration: int, states: map<string, CharacterState>): Shot
    requires i < |beats|
  {
    Shot(i + 1, duration, beats[i], beats[i], if i == 0 then OPENING else beats[i - 1], i == 0, states)
  }

  function SceneOf(number: nat, section: Section, durations: seq<int>, states: map<string, CharacterState>): Scene {
    var beats := PartitionActionUnits(section.actions, |durations|, FallbackOf(section));
    PartitionLength(section.actions, |durations|, FallbackOf(section));
    Scene(number, section.title, section.summary, Sum(durations),
          seq(|durations|, i requires 0 <= i < |durations| && |beats| == |durations| => ShotOf(beats, i, durations[i], states)))
  }

  /** `scene` is what the plan makes of section `s`: its clips, and the states carried through it. */
  ghost predicate SceneIs(scene: Scene, sections: seq<Section>, groups: seq<seq<int>>, s: nat, mentions: Mention)
    requires s < |sections| == |groups|
  {
    match scene
    case Scene(number, _, _, _, _) =>
      number == s + 1 && scene == SceneOf(number, sections[s], groups[s], StatesUpTo(sections, s + 1, mentions))
  }

  ghost predicate ScenesAre(scenes: seq<Scene>, sections: seq<Section>, groups: seq<seq<int>>, mentions: Mention) {
    && |scenes| <= |sections| == |groups|
    && forall s :: 0 <= s < |scenes| ==> SceneIs(scenes[s], sections, groups, s, mentions)
  }

  lemma AppendScene(scenes: seq<Scene>, scene: Scene, sections: seq<Section>, groups: seq<seq<int>>, mentions: Mention)
    requires ScenesAre(scenes, sections, groups, mentions) && |scenes| < |sections|
    requires SceneIs(scene, sections, groups, |scenes|, mentions)
    ensures ScenesAre(scenes + [scene], sections, groups, mentions)
  {
    var after := scenes + [scene];
    forall s | 0 <= s < |after| ensures SceneIs(after[s], sections, groups, s, mentions) {
      if s < |scenes| { assert after[s] == scenes[s]; }
    }
  }

  /** The durations that the sections state. */
  function Wanted(sections: seq<Section>): (r: seq<Option<int>>)
    ensures |r| == |sections| && forall i :: 0 <= i < |r| ==> r[i] == sections[i].duration
  {
    seq(|sections|, i requires 0 <= i < |sections| => sections[i].duration)
  }

  method ScenePlanFromScriptSections(sections: seq<Section>, clips: seq<int>, mentions: Mention)
    returns (scenes: seq<Scene>, groups: seq<seq<int>>)
    requires clips != [] && sections != []
    ensures Groups(clips, |sections|, groups) && Shared(clips, Wanted(sections), groups)
    ensures |clips| >= |sections| ==> NoneEmpty(groups)
    ensures |scenes| == |sections| && ScenesAre(scenes, sections, groups, mentions)
    ensures ShotDurations(AllShots(scenes)) == clips
    ensures Sum(SceneDurations(scenes)) == Sum(clips)
  {
    groups := ClipGroupsForScriptSections(clips, Wanted(sections));
    scenes := ScenesFromSections(sections, groups, mentions);
  }

  /** The loop over the sections and their groups. */
  method ScenesFromSections(sections: seq<Section>, groups: seq<seq<int>>, mentions: Mention) returns (scenes: seq<Scene>)
    requires |groups| == |sections|
    ensures |scenes| == |sections| && ScenesAre(scenes, sections, groups, mentions)
    ensures Fits(scenes, groups)
  {
    scenes := [];
    var carried: map<string, CharacterState> := map[];
    for s := 0 to |sections|
      invariant ScenesUpTo(scenes, carried, sections, groups, mentions, s)
    {
      var scene;
      scene, carried := NextScene(scenes, carried, sections, groups, mentions, s);
      scenes := scenes + [scene];
    }
    ScenesUpToMeans(scenes, carried, sections, groups, mentions, |sections|);
    assert groups[..|sections|] == groups;
  }

  /** The loop after `s` sections. */
  ghost predicate ScenesUpTo(scenes: seq<Scene>, carried: map<string, CharacterState>, sections: seq<Section>, groups: seq<seq<int>>,
                             mentions: Mention, s: nat)
  {
    match s
    case 0 => scenes == [] && carried == map[]
    case _ =>
      && s <= |sections| == |groups| && |scenes| == s && carried == StatesUpTo(sections, s, mentions)
      && ScenesAre(scenes, sections, groups, mentions) && Spent(scenes, groups, s)
  }

  lemma ScenesUpToMeans(scenes: seq<Scene>, carried: map<string, CharacterState>, sections: seq<Section>, groups: seq<seq<int>>,
                        mentions: Mention, s: nat)
    requires |groups| == |sections| >= s && ScenesUpTo(scenes, carried, sections, groups, mentions, s)
    ensures |scenes| == s && carried == StatesUpTo(sections, s, mentions)
    ensures ScenesAre(scenes, sections, groups, mentions) && Spent(scenes, groups, s)
  {
  }

  method NextScene(ghost scenes: seq<Scene>, carried: map<string, CharacterState>, sections: seq<Section>, groups: seq<seq<int>>,
                   mentions: Mention, s: nat)
    returns (scene: Scene, states: map<string, CharacterState>)
    requires s < |sections| == |groups| && ScenesUpTo(scenes, carried, sections, groups, mentions, s)
    ensures ScenesUpTo(scenes + [scene], states, sections, groups, mentions, s + 1)
  {
    ScenesUpToMeans(scenes, carried, sections, groups, mentions, s);
    states := SceneContinuityData(sections[s], carried, mentions);
    scene := SceneOf(s + 1, sections[s], groups[s], states);
    AppendScene(scenes, scene, sections, groups, mentions);
    SceneFits(s + 1, sections[s], groups[s], states);
    SpendOneMore(scenes, scene, groups, s);
  }

  /** The first `s` scenes spend the first `s` groups. */
  ghost predicate Spent(scenes: seq<Scene>, groups: seq<seq<int>>, s: nat) {
    |scenes| == s <= |groups| && Fits(scenes, groups[..s])
  }

  lemma SpendOneMore(scenes: seq<Scene>, scene: Scene, groups: seq<seq<int>>, s: nat)
    requires s < |groups| && Spent(scenes, groups, s)
    requires ShotDurations(scene.shots) == groups[s] && scene.duration == Sum(groups[s])
    ensures Spent(scenes + [scene], groups, s + 1)
  {
    AppendFits(scenes, scene, groups[..s], groups[s]);
    assert groups[..s + 1] == groups[..s] + [groups[s]];
  }

  function SceneDurations(scenes: seq<Scene>): seq<int> {
    if scenes == [] then [] else [scenes[0].duration] + SceneDurations(scenes[1..])
  }

  function ShotDurations(shots: seq<Shot>): seq<int> {
    if shots == [] then [] else [shots[0].duration] + ShotDurations(shots[1..])
  }

  function AllShots(scenes: seq<Scene>): seq<Shot> {
    if scenes == [] then [] else scenes[0].shots + AllShots(scenes[1..])
  }

  lemma {:induction false} ShotDurationsAppend(a: seq<Shot>, b: seq<Shot>)
    ensures ShotDurations(a + b) == ShotDurations(a) + ShotDurations(b)
  {
    if a == [] {
      assert a + b == b;
    } else {
      assert (a + b)[1..] == a[1..] + b;
      ShotDurationsAppend(a[1..], b);
    }
  }

  lemma {:induction false} ShotDurationsAre(shots: seq<Shot>, durations: seq<int>)
    requires |shots| == |durations| && forall i :: 0 <= i < |shots| ==> shots[i].duration == durations[i]
    ensures ShotDurations(shots) == durations
  {
    if shots != [] { ShotDurationsAre(shots[1..], durations[1..]); }
  }

  lemma {:induction false} AllShotsSnoc(scenes: seq<Scene>, last: Scene)
    ensures AllShots(scenes + [last]) == AllShots(scenes) + last.shots
    ensures SceneDurations(scenes + [last]) == SceneDurations(scenes) + [last.duration]
  {
    if scenes == [] {
      assert AllShots([last]) == last.shots + AllShots([]);
      assert scenes + [last] == [last];
    } else {
      assert (scenes + [last])[1..] == scenes[1..] + [last];
      AllShotsSnoc(scenes[1..], last);
    }
  }

  /** The scenes spend the groups, all of them, in order: shot by shot, and scene by scene in total. */
  ghost predicate Fits(scenes: seq<Scene>, groups: seq<seq<int>>) {
    && ShotDurations(AllShots(scenes)) == Concat(groups)
    && Sum(SceneDurations(scenes)) == Sum(Concat(groups))
  }

  lemma SceneFits(number: nat, section: Section, group: seq<int>, states: map<string, CharacterState>)
    ensures var scene := SceneOf(number, section, group, states);
            ShotDurations(scene.shots) == group && scene.duration == Sum(group)
  {
    var shots := SceneOf(number, section, group, states).shots;
    PartitionLength(section.actions, |group|, FallbackOf(section));
    ShotDurationsAre(shots, group);
  }

  lemma AppendFits(scenes: seq<Scene>, last: Scene, groups: seq<seq<int>>, group: seq<int>)
    requires Fits(scenes, groups) && ShotDurations(last.shots) == group && last.duration == Sum(group)
    ensures Fits(scenes + [last], groups + [group])
  {
    AllShotsSnoc(scenes, last);
    ShotDurationsAppend(AllShots(scenes), last.shots);
    ConcatSnoc(groups, group);
    SumAppend(Concat(groups), group);
    SumAppend(SceneDurations(scenes), [last.duration]);
  }

  /** Within a scene: shots are numbered from 1; the first breaks continuity and opens on the scene's
      context; every other one continues from the action of the shot before it. */
  lemma ShotsContinue(number: nat, section: Section, durations: seq<int>, states: map<string, CharacterState>, i: nat)
    requires i < |durations|
    ensures var shots := SceneOf(number, section, durations, states).shots;
            && |shots| == |durations| && shots[i].number == i + 1
            && (shots[i].continuityBreak <==> i == 0)
            && shots[i].continuityState == (if i == 0 then OPENING else shots[i - 1].action)
            && shots[i].states == states
            && shots[i].narration == shots[i].action && shots[i].duration == durations[i]
  {
    PartitionLength(section.actions, |durations|, FallbackOf(section));
  }

  /** A scene has its section's title and summary. Without action sentences it is told by the summary or,
      failing that, the title, or a set phrase. */
  lemma SceneKeepsSection(number: nat, section: Section, durations: seq<int>, states: map<string, CharacterState>, i: nat)
    ensures var scene := SceneOf(number, section, durations, states);
            scene.number == number && scene.title == section.title && scene.summary == section.summary
    ensures section.actions == [] && i < |durations| ==>
              var shots := SceneOf(number, section, durations, states).shots;
              var text := if section.summary != "" then section.summary
                          else if section.title != "" then section.title else FALLBACK;
              |shots| == |durations| && shots[i].action == if i > 0 then PREFIX + text else text
  {
    PartitionLength(section.actions, |durations|, FallbackOf(section));
    if section.actions == [] && i < |durations| {
      NothingToTell(|durations|, FallbackOf(section), i);
    }
  }

  /** With more shots than sentences, every shot is told by the sentence it falls to. */
  lemma SceneSpreadsItsScript(number: nat, section: Section, durations: seq<int>, states: map<string, CharacterState>, i: nat)
    requires 0 < |section.actions| < |durations| && i < |durations|
    ensures var shots := SceneOf(number, section, durations, states).shots;
            |shots| == |durations| && ToldBySentence(shots[i].action, section.actions, |durations|, i)
  {
    PartitionLength(section.actions, |durations|, FallbackOf(section));
    SpreadBeat(section.actions, |durations|, FallbackOf(section), i);
  }

  /** With at least as many sentences as shots, the actions of a scene read together are its script. */
  lemma SceneTellsItsScript(number: nat, section: Section, durations: seq<int>, states: map<string, CharacterState>)
    requires 0 < |durations| <= |section.actions|
    ensures Join(Actions(SceneOf(number, section, durations, states).shots)) == Join(section.actions)
  {
    var beats := PartitionActionUnits(section.actions, |durations|, FallbackOf(section));
    PartitionLength(section.actions, |durations|, FallbackOf(section));
    PartitionKeepsText(section.actions, |durations|, FallbackOf(section));
    assert Actions(SceneOf(number, section, durations, states).shots) == beats;
  }

  function Actions(shots: seq<Shot>): seq<string> {
    seq(|shots|, i requires 0 <= i < |shots| => shots[i].action)
  }
}
