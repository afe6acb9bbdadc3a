/** Distributing the clip durations of a video over the scenes of its script. */
module Clips {
  import opened Common
  import opened Beats

  function Sum(xs: seq<int>): int {
    if xs == [] then 0 else xs[0] + Sum(xs[1..])
  }

  lemma {:induction false} SumAppend(a: seq<int>, b: seq<int>)
    ensures Sum(a + b) == Sum(a) + Sum(b)
  {
    if a == [] {
      assert a + b == b;
    } else {
      assert (a + b)[1..] == a[1..] + b;
      SumAppend(a[1..], b);
    }
  }

  /** The clips are the groups laid end to end, one group a section. */
  ghost predicate Groups(clips: seq<int>, sections: nat, groups: seq<seq<int>>) {
    |groups| == sections && Concat(groups) == clips
  }

  /** The position in the clip list at which group `j` starts. */
  ghost function Start(groups: seq<seq<int>>, j: nat): nat
    requires j <= |groups|
  {
    |Concat(groups[..j])|
  }

  lemma {:induction false} ConcatSplit<T>(a: seq<seq<T>>, b: seq<seq<T>>)
    ensures Concat(a + b) == Concat(a) + Concat(b)
  {
    if a == [] {
      assert a + b == b;
    } else {
      assert (a + b)[1..] == a[1..] + b;
      ConcatSplit(a[1..], b);
    }
  }

  lemma {:induction false} ConcatOfEmpties<T>(a: seq<seq<T>>)
    requires forall i :: 0 <= i < |a| ==> a[i] == []
    ensures Concat(a) == []
  {
    if a != [] { ConcatOfEmpties(a[1..]); }
  }

  // ---------------------------------------------------------------- proportional grouping

  /** ceil(j * clips / sections): the number of clips i with i * sections / clips < j. */
  ghost predicate StartsAt(clips: nat, sections: nat, j: nat, start: nat) {
    start * sections >= j * clips && (start > 0 ==> (start - 1) * sections < j * clips)
  }

  /** Clip `i` of `clips` goes to section floor(i * sections / clips), which is always a section. */
  lemma SceneIndexInRange(clips: nat, sections: nat, i: nat)
    requires i < clips && sections > 0
    ensures Cut(sections, clips, i) <= sections - 1
  {
    QuotientBounds(i * sections, clips);
    assert i * sections < clips * sections by {
      MulMono(sections, i, clips);
    }
    MulMono(clips, Cut(sections, clips, i), sections);
  }

  lemma SceneIndexSteps(clips: nat, sections: nat, i: nat)
    requires clips > 0
    ensures Cut(sections, clips, i) <= Cut(sections, clips, i + 1)
    ensures sections <= clips ==> Cut(sections, clips, i + 1) <= Cut(sections, clips, i) + 1
  {
    CutMono(sections, clips, i, i + 1);
    ShareSize(sections, clips, i);
    if sections == clips {
      QuotientIs(i * sections, clips, i);
      QuotientIs((i + 1) * sections, clips, i + 1);
    } else if sections < clips {
      QuotientIs(sections, clips, 0);
    }
  }

  /** Sections passed over between clip i - 1 and clip i all start at clip i. */
  lemma SkippedStart(clips: nat, sections: nat, i: nat, j: nat)
    requires clips > 0
    requires j <= Cut(sections, clips, i) && (i > 0 ==> Cut(sections, clips, i - 1) < j)
    ensures StartsAt(clips, sections, j, i)
  {
    QuotientBounds(i * sections, clips);
    MulMono(clips, j, Cut(sections, clips, i));
    if i > 0 {
      QuotientBounds((i - 1) * sections, clips);
      MulMono(clips, Cut(sections, clips, i - 1) + 1, j);
    }
  }

  /** The loop of the proportional branch after `i` clips, the last of which went to section `last`. */
  ghost predicate Dealt(clips: seq<int>, groups: seq<seq<int>>, i: nat, last: int) {
    && i <= |clips| && -1 <= last < |groups|
    && (i == 0 <==> last == -1)
    && (i > 0 ==> last == Cut(|groups|, |clips|, i - 1))
    && Concat(groups) == clips[..i]
    && (forall j :: last < j < |groups| ==> groups[j] == [])
    && (forall j :: 0 <= j <= last ==> StartsAt(|clips|, |groups|, j, Start(groups, j)))
    && (|groups| <= |clips| ==> forall j :: 0 <= j <= last ==> groups[j] != [])
  }

  lemma DealStart(clips: seq<int>, groups: seq<seq<int>>, i: nat, last: int, j: nat)
    requires i < |clips| && Dealt(clips, groups, i, last)
    requires j < |groups| && j <= Cut(|groups|, |clips|, i)
    ensures StartsAt(|clips|, |groups|, j, Start(groups, j))
  {
    if j > last {
      assert groups == groups[..j] + groups[j..];
      ConcatSplit(groups[..j], groups[j..]);
      ConcatOfEmpties(groups[j..]);
      assert Start(groups, j) == i;
      SkippedStart(|clips|, |groups|, i, j);
    }
  }

  lemma DealOne(clips: seq<int>, groups: seq<seq<int>>, i: nat, last: int, k: nat)
    requires i < |clips| && Dealt(clips, groups, i, last)
    requires k < |groups| && k == Cut(|groups|, |clips|, i)
    ensures last <= k
    ensures Dealt(clips, groups[k := groups[k] + [clips[i]]], i + 1, k)
  {
    var after := groups[k := groups[k] + [clips[i]]];
    if i > 0 { SceneIndexSteps(|clips|, |groups|, i - 1); }
    else { CutEnds(|groups|, |clips|); }
    DealConcat(clips, groups, i, k);
    forall j | 0 <= j <= k ensures StartsAt(|clips|, |after|, j, Start(after, j)) {
      assert after[..j] == groups[..j];
      DealStart(clips, groups, i, last, j);
    }
  }

  lemma DealConcat(clips: seq<int>, groups: seq<seq<int>>, i: nat, k: nat)
    requires i < |clips| && k < |groups| && Concat(groups) == clips[..i]
    requires forall j :: k < j < |groups| ==> groups[j] == []
    ensures Concat(groups[k := groups[k] + [clips[i]]]) == clips[..i + 1]
  {
    var after := groups[k := groups[k] + [clips[i]]];
    assert groups == groups[..k] + [groups[k]] + groups[k + 1..];
    assert after == groups[..k] + [groups[k] + [clips[i]]] + groups[k + 1..];
    ConcatSplit(groups[..k] + [groups[k]], groups[k + 1..]);
    ConcatSplit(groups[..k] + [groups[k] + [clips[i]]], groups[k + 1..]);
    ConcatSnoc(groups[..k], groups[k]);
    ConcatSnoc(groups[..k], groups[k] + [clips[i]]);
    ConcatOfEmpties(groups[k + 1..]);
    assert clips[..i + 1] == clips[..i] + [clips[i]];
  }

  /** Section j takes the clips from ceil(j * clips / sections) on. */
  method GroupProportionally(clips: seq<int>, sections: nat) returns (groups: seq<seq<int>>)
    requires clips != [] && sections > 0
    ensures Groups(clips, sections, groups)
    ensures forall j :: 0 <= j < sections && (groups[j] != [] || |clips| >= sections) ==>
      StartsAt(|clips|, sections, j, Start(groups, j))
    ensures |clips| >= sections ==> forall j :: 0 <= j < sections ==> groups[j] != []
  {
    groups := seq(sections, _ => []);
    ConcatOfEmpties(groups);
    ghost var last := -1;
    for index := 0 to |clips|
      invariant |groups| == sections && Dealt(clips, groups, index, last)
    {
      SceneIndexInRange(|clips|, sections, index);
      var sceneIndex := Min((index * sections) / |clips|, sections - 1);
      DealOne(clips, groups, index, last, sceneIndex);
      groups := groups[sceneIndex := groups[sceneIndex] + [clips[index]]];
      last := sceneIndex;
    }
    assert clips[..|clips|] == clips;
    LastSceneIsReached(|clips|, sections);
  }

  lemma LastSceneIsReached(clips: nat, sections: nat)
    requires clips > 0 && sections > 0
    ensures sections <= clips ==> Cut(sections, clips, clips - 1) == sections - 1
  {
    CutEnds(sections, clips);
    SceneIndexSteps(clips, sections, clips - 1);
    SceneIndexInRange(clips, sections, clips - 1);
  }

  // ---------------------------------------------------------------- greedy grouping

  /** The clip index at which section `s` must stop so that one clip is left for each later section. */
  function Limit(clips: nat, sections: nat, s: nat): int
  {
    clips - (sections - s - 1)
  }

  /** A non-last group takes clips until it reaches its wanted duration or the reserve, and no more. */
  ghost predicate GreedyGroup(clips: seq<int>, sections: nat, s: nat, wanted: int, start: nat, group: seq<int>) {
    && start + |group| <= |clips| && group == clips[start..start + |group|]
    && (group != [] ==> start + |group| <= Limit(|clips|, sections, s))
    && (|group| > 1 ==> Sum(group[..|group| - 1]) < wanted)
    && (start + |group| >= Limit(|clips|, sections, s) || (group != [] && Sum(group) >= wanted))
  }

  /** Every non-last group of `groups` is greedy and the last takes what is left. */
  ghost predicate Greedy(clips: seq<int>, wanted: seq<int>, groups: seq<seq<int>>) {
    && Groups(clips, |wanted|, groups)
    && forall s :: 0 <= s < |wanted| - 1 ==> GreedyGroup(clips, |wanted|, s, wanted[s], Start(groups, s), groups[s])
  }

  method TakeGreedily(clips: seq<int>, sections: nat, s: nat, wanted: int, start: nat)
    returns (group: seq<int>, clipIndex: nat)
    requires s < sections - 1 && start <= |clips|
    ensures clipIndex == start + |group| && GreedyGroup(clips, sections, s, wanted, start, group)
    ensures clipIndex <= |clips|
    ensures start < Limit(|clips|, sections, s) ==> group != []
  {
    clipIndex := start;
    group := [];
    var current := 0;
    while clipIndex < Limit(|clips|, sections, s)
      invariant start <= clipIndex <= |clips| && group == clips[start..clipIndex] && current == Sum(group)
      invariant group != [] ==> clipIndex <= Limit(|clips|, sections, s)
      invariant |group| > 1 ==> Sum(group[..|group| - 1]) < wanted
    {
      var nextDuration := clips[clipIndex];
      if group != [] && current >= wanted {
        break;
      }
      SumAppend(group, [nextDuration]);
      assert (group + [nextDuration])[..|group|] == group;
      group := group + [nextDuration];
      current := current + nextDuration;
      clipIndex := clipIndex + 1;
    }
  }

  /** The greedy loop before section `s`. */
  ghost predicate Taken(clips: seq<int>, wanted: seq<int>, groups: seq<seq<int>>, clipIndex: nat) {
    && |groups| < |wanted| && clipIndex <= |clips|
    && Concat(groups) == clips[..clipIndex]
    && (forall s :: 0 <= s < |groups| ==> GreedyGroup(clips, |wanted|, s, wanted[s], Start(groups, s), groups[s]))
    && (|clips| >= |wanted| ==> clipIndex <= Limit(|clips|, |wanted|, |groups|) - 1
                                && forall s :: 0 <= s < |groups| ==> groups[s] != [])
  }

  ghost predicate NoneEmpty(groups: seq<seq<int>>) {
    forall j :: 0 <= j < |groups| ==> groups[j] != []
  }

  lemma TakeOne(clips: seq<int>, wanted: seq<int>, groups: seq<seq<int>>, clipIndex: nat, group: seq<int>)
    requires Taken(clips, wanted, groups, clipIndex) && |groups| < |wanted| - 1
    requires GreedyGroup(clips, |wanted|, |groups|, wanted[|groups|], clipIndex, group)
    requires clipIndex < Limit(|clips|, |wanted|, |groups|) ==> group != []
    ensures Taken(clips, wanted, groups + [group], clipIndex + |group|)
  {
    ConcatSnoc(groups, group);
    assert clips[..clipIndex + |group|] == clips[..clipIndex] + group;
    var after := groups + [group];
    forall s | 0 <= s < |after|
      ensures GreedyGroup(clips, |wanted|, s, wanted[s], Start(after, s), after[s])
    {
      assert after[..s] == groups[..s];
      assert groups[..|groups|] == groups;
    }
  }

  lemma FinishGreedy(clips: seq<int>, wanted: seq<int>, groups: seq<seq<int>>, clipIndex: nat)
    requires Taken(clips, wanted, groups, clipIndex) && |groups| == |wanted| - 1
    ensures Greedy(clips, wanted, groups + [clips[clipIndex..]])
    ensures |clips| >= |wanted| ==> NoneEmpty(groups + [clips[clipIndex..]])
  {
    ConcatSnoc(groups, clips[clipIndex..]);
    assert clips == clips[..clipIndex] + clips[clipIndex..];
    var after := groups + [clips[clipIndex..]];
    forall s | 0 <= s < |wanted| - 1
      ensures GreedyGroup(clips, |wanted|, s, wanted[s], Start(after, s), after[s])
    {
      assert after[..s] == groups[..s];
    }
  }

  method GroupGreedily(clips: seq<int>, wanted: seq<int>) returns (groups: seq<seq<int>>)
    requires wanted != []
    ensures Greedy(clips, wanted, groups)
    ensures |clips| >= |wanted| ==> NoneEmpty(groups)
  {
    groups := [];
    var clipIndex: nat := 0;
    for sectionIndex := 0 to |wanted|
      invariant |groups| == sectionIndex
      invariant sectionIndex < |wanted| ==> Taken(clips, wanted, groups, clipIndex)
      invariant sectionIndex == |wanted| ==> Greedy(clips, wanted, groups)
      invariant sectionIndex == |wanted| && |clips| >= |wanted| ==> NoneEmpty(groups)
    {
      if sectionIndex == |wanted| - 1 {
        FinishGreedy(clips, wanted, groups, clipIndex);
        groups := groups + [clips[clipIndex..]];
        break;
      }
      var group, next := TakeGreedily(clips, |wanted|, sectionIndex, wanted[sectionIndex], clipIndex);
      TakeOne(clips, wanted, groups, clipIndex, group);
      groups := groups + [group];
      clipIndex := next;
    }
  }

  lemma {:induction false} SumOfLongerPrefix(xs: seq<int>, a: nat, b: nat)
    requires a <= b <= |xs| && forall i :: 0 <= i < |xs| ==> xs[i] > 0
    ensures Sum(xs[..a]) <= Sum(xs[..b])
    decreases b - a
  {
    if a < b {
      SumOfLongerPrefix(xs, a, b - 1);
      assert xs[..b] == xs[..b - 1] + [xs[b - 1]];
      SumAppend(xs[..b - 1], [xs[b - 1]]);
    }
  }

  lemma GreedyGroupShorter(clips: seq<int>, sections: nat, s: nat, wanted: int, start: nat, g: seq<int>, h: seq<int>)
    requires forall i :: 0 <= i < |clips| ==> clips[i] > 0
    requires GreedyGroup(clips, sections, s, wanted, start, g) && GreedyGroup(clips, sections, s, wanted, start, h)
    ensures |h| <= |g|
  {
    if |g| < |h| {
      assert g == h[..|g|];
      SumOfLongerPrefix(h, |g|, |h| - 1);
      assert false;
    }
  }

  lemma {:induction false} GreedyPrefixUnique(clips: seq<int>, wanted: seq<int>, g: seq<seq<int>>, h: seq<seq<int>>, n: nat)
    requires forall i :: 0 <= i < |clips| ==> clips[i] > 0
    requires Greedy(clips, wanted, g) && Greedy(clips, wanted, h) && n < |wanted|
    ensures g[..n] == h[..n]
  {
    if n > 0 {
      GreedyPrefixUnique(clips, wanted, g, h, n - 1);
      GreedyNextUnique(clips, wanted, g, h, n - 1);
      assert g[..n] == g[..n - 1] + [g[n - 1]];
      assert h[..n] == h[..n - 1] + [h[n - 1]];
    }
  }

  lemma GreedyNextUnique(clips: seq<int>, wanted: seq<int>, g: seq<seq<int>>, h: seq<seq<int>>, s: nat)
    requires forall i :: 0 <= i < |clips| ==> clips[i] > 0
    requires Greedy(clips, wanted, g) && Greedy(clips, wanted, h) && s < |wanted| - 1 && g[..s] == h[..s]
    ensures g[s] == h[s]
  {
    var start := Start(g, s);
    assert start == Start(h, s);
    GreedyGroupUnique(clips, |wanted|, s, wanted[s], start, g[s], h[s]);
  }

  lemma GreedyGroupUnique(clips: seq<int>, sections: nat, s: nat, wanted: int, start: nat, g: seq<int>, h: seq<int>)
    requires forall i :: 0 <= i < |clips| ==> clips[i] > 0
    requires GreedyGroup(clips, sections, s, wanted, start, g) && GreedyGroup(clips, sections, s, wanted, start, h)
    ensures g == h
  {
    GreedyGroupShorter(clips, sections, s, wanted, start, g, h);
    GreedyGroupShorter(clips, sections, s, wanted, start, h, g);
  }

  /** For positive clips the description leaves no choice: exactly one grouping is greedy. */
  lemma GreedyIsUnique(clips: seq<int>, wanted: seq<int>, g: seq<seq<int>>, h: seq<seq<int>>)
    requires forall i :: 0 <= i < |clips| ==> clips[i] > 0
    requires Greedy(clips, wanted, g) && Greedy(clips, wanted, h)
    ensures g == h
  {
    if wanted != [] {
      var n := |wanted| - 1;
      GreedyPrefixUnique(clips, wanted, g, h, n);
      assert g == g[..n] + [g[n]] && h == h[..n] + [h[n]];
      ConcatSnoc(g[..n], g[n]);
      ConcatSnoc(h[..n], h[n]);
      assert g[n] == clips[|Concat(g[..n])|..] == h[n];
    }
  }

  // ---------------------------------------------------------------- choice of branch

  function Parsed(durations: seq<Option<int>>): seq<int> {
    if durations == [] then []
    else (if durations[0].Some? then [durations[0].value] else []) + Parsed(durations[1..])
  }

  /** `wanted` are the durations of the sections, all of them stated, and together they want some time. */
  ghost predicate Wish(durations: seq<Option<int>>, wanted: seq<int>) {
    && |wanted| == |durations| && (forall i :: 0 <= i < |durations| ==> durations[i] == Some(wanted[i]))
    && Sum(wanted) > 0
  }

  lemma {:induction false} ParsedIs(durations: seq<Option<int>>)
    ensures |Parsed(durations)| <= |durations|
    ensures |Parsed(durations)| == |durations| <==> forall i :: 0 <= i < |durations| ==> durations[i].Some?
    ensures |Parsed(durations)| == |durations| ==> forall i :: 0 <= i < |durations| ==> durations[i] == Some(Parsed(durations)[i])
  {
    if durations != [] {
      ParsedIs(durations[1..]);
      assert forall i :: 0 < i < |durations| ==> durations[i] == durations[1..][i - 1];
      if forall i :: 0 <= i < |durations| ==> durations[i].Some? {
        assert forall i :: 0 <= i < |durations[1..]| ==> durations[1..][i] == durations[i + 1];
      }
    }
  }

  lemma WishIsParsed(durations: seq<Option<int>>)
    ensures forall wanted :: Wish(durations, wanted) ==>
              wanted == Parsed(durations) && |Parsed(durations)| == |durations| && Sum(Parsed(durations)) > 0
    ensures |Parsed(durations)| == |durations| && Sum(Parsed(durations)) > 0 ==> Wish(durations, Parsed(durations))
  {
    ParsedIs(durations);
    forall wanted | Wish(durations, wanted)
      ensures wanted == Parsed(durations)
    {
      assert forall i :: 0 <= i < |durations| ==> durations[i].Some?;
    }
  }

  /** The groups follow the durations where all are stated, and are even otherwise: group `j` starts at clip
      ceil(j * clips / sections). */
  ghost predicate Shared(clips: seq<int>, durations: seq<Option<int>>, groups: seq<seq<int>>) {
    && (forall wanted :: Wish(durations, wanted) ==> Greedy(clips, wanted, groups))
    && ((forall wanted :: !Wish(durations, wanted)) ==>
          forall j :: 0 <= j < |groups| && (groups[j] != [] || |clips| >= |groups|) ==>
            StartsAt(|clips|, |groups|, j, Start(groups, j)))
  }

  /** One group a section; greedy where every section states a duration, proportional elsewhere. */
  method ClipGroupsForScriptSections(clips: seq<int>, durations: seq<Option<int>>) returns (groups: seq<seq<int>>)
    requires clips != [] && durations != []
    ensures Groups(clips, |durations|, groups)
    ensures |clips| >= |durations| ==> NoneEmpty(groups)
    ensures Shared(clips, durations, groups)
  {
    var parsed := Parsed(durations);
    WishIsParsed(durations);
    if |parsed| != |durations| || Sum(parsed) <= 0 {
      groups := GroupProportionally(clips, |durations|);
    } else {
      groups := GroupGreedily(clips, parsed);
    }
  }
}
