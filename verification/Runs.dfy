/** Grouping a list by consecutive equal scenes, and what can be read off the groups about the list. */
module Runs {
  /** Items of one scene that follow each other. */
  datatype Run<T> = Run(scene: nat, items: seq<T>)

  function Extend<T>(runs: seq<Run<T>>, scene: nat, item: T): seq<Run<T>> {
    if runs == [] || runs[|runs| - 1].scene != scene then runs + [Run(scene, [item])]
    else
      var last := runs[|runs| - 1];
      runs[..|runs| - 1] + [last.(items := last.items + [item])]
  }

  /** The runs of the first `k` items. */
  function RunsOf<T>(scenes: seq<nat>, items: seq<T>, k: nat): seq<Run<T>>
    requires k <= |scenes| == |items|
  {
    if k == 0 then [] else Extend(RunsOf(scenes, items, k - 1), scenes[k - 1], items[k - 1])
  }

  ghost predicate Distinct<T>(xs: seq<T>) {
    forall i, j :: 0 <= i < j < |xs| ==> xs[i] != xs[j]
  }

  /** Entries i to j follow each other in one scene. */
  ghost predicate Together(scenes: seq<nat>, i: nat, j: nat)
    requires i <= j < |scenes|
  {
    forall x :: i <= x <= j ==> scenes[x] == scenes[j]
  }

  ghost predicate Repeats<T>(scenes: seq<nat>, items: seq<T>, i: nat, j: nat)
    requires i < j < |scenes| == |items|
  {
    Together(scenes, i, j) && items[i] == items[j]
  }

  ghost predicate RepeatsAt<T>(scenes: seq<nat>, items: seq<T>, j: nat)
    requires j < |scenes| == |items|
  {
    exists i :: 0 <= i < j && Repeats(scenes, items, i, j)
  }

  /** Among the first `k` items two of one scene, with none of another between them, are equal. */
  ghost predicate RepeatsBefore<T>(scenes: seq<nat>, items: seq<T>, k: nat)
    requires k <= |scenes| == |items|
  {
    exists j :: 0 <= j < k && RepeatsAt(scenes, items, j)
  }

  /** Of the first `k` entries exactly those from `first` on are the last of scene `scene` without a break. */
  ghost predicate LastScene(scene: nat, first: nat, scenes: seq<nat>, k: nat) {
    && first < k <= |scenes|
    && (forall y :: first <= y < k ==> scenes[y] == scene)
    && (first > 0 ==> scenes[first - 1] != scene)
  }

  /** The last run holds the last items of its scene, from `first` on. */
  ghost predicate LastRun<T>(run: Run<T>, first: nat, scenes: seq<nat>, items: seq<T>, k: nat) {
    && first < k <= |scenes| == |items|
    && LastScene(run.scene, first, scenes, k)
    && run.items == items[first..k]
  }

  ghost predicate EndsAt<T>(runs: seq<Run<T>>, first: nat, scenes: seq<nat>, items: seq<T>, k: nat) {
    runs != [] && LastRun(runs[|runs| - 1], first, scenes, items, k)
  }

  /** The runs of the first `k` items end with all the last items of their scene. */
  ghost predicate EndsWell<T>(runs: seq<Run<T>>, scenes: seq<nat>, items: seq<T>, k: nat) {
    match k
    case 0 => runs == []
    case _ => exists first :: EndsAt(runs, first, scenes, items, k)
  }

  lemma ExtendEndsWell<T>(runs: seq<Run<T>>, scenes: seq<nat>, items: seq<T>, k: nat, after: seq<Run<T>>)
    requires k < |scenes| == |items| && EndsWell(runs, scenes, items, k)
    requires after == Extend(runs, scenes[k], items[k])
    ensures EndsWell(after, scenes, items, k + 1)
  {
    if runs != [] && runs[|runs| - 1].scene == scenes[k] {
      var first :| EndsAt(runs, first, scenes, items, k);
      SliceSnoc(items, first, k);
      assert EndsAt(after, first, scenes, items, k + 1);
    } else {
      SliceSnoc(items, k, k);
      NewScene(runs, scenes, items, k);
      assert EndsAt(after, k, scenes, items, k + 1);
    }
  }

  lemma SliceSnoc<T>(items: seq<T>, first: nat, k: nat)
    requires first <= k < |items|
    ensures items[first..k] + [items[k]] == items[first..k + 1]
  {
  }

  lemma NewScene<T>(runs: seq<Run<T>>, scenes: seq<nat>, items: seq<T>, k: nat)
    requires k < |scenes| == |items| && EndsWell(runs, scenes, items, k)
    requires runs == [] || runs[|runs| - 1].scene != scenes[k]
    ensures k > 0 ==> scenes[k - 1] != scenes[k]
  {
    if k > 0 {
      var first :| EndsAt(runs, first, scenes, items, k);
    }
  }

  // ---------------------------------------------------------------- repeated items

  lemma TogetherWithLast(scene: nat, first: nat, scenes: seq<nat>, k: nat, i: nat)
    requires LastScene(scene, first, scenes, k) && i < k < |scenes|
    ensures Together(scenes, i, k) <==> scenes[k] == scene && i >= first
  {
    assert scenes[k - 1] == scene;
  }

  /** The next item repeats an earlier one exactly if it is already in the run it joins. */
  lemma JoinsWithRepeat<T>(scene: nat, first: nat, scenes: seq<nat>, items: seq<T>, k: nat)
    requires LastScene(scene, first, scenes, k) && k < |scenes| == |items|
    ensures RepeatsAt(scenes, items, k) <==> scenes[k] == scene && items[k] in items[first..k]
  {
    if RepeatsAt(scenes, items, k) {
      var i :| 0 <= i < k && Repeats(scenes, items, i, k);
      TogetherWithLast(scene, first, scenes, k, i);
      InSlice(items, first, k, i);
    }
    if scenes[k] == scene && items[k] in items[first..k] {
      var i := FindIn(items, first, k);
      TogetherWithLast(scene, first, scenes, k, i);
      assert Repeats(scenes, items, i, k);
    }
  }

  lemma InSlice<T>(items: seq<T>, first: nat, k: nat, i: nat)
    requires first <= i < k < |items|
    ensures items[i] in items[first..k]
  {
    assert items[first..k][i - first] == items[i];
  }

  lemma FindIn<T>(items: seq<T>, first: nat, k: nat) returns (i: nat)
    requires first <= k < |items| && items[k] in items[first..k]
    ensures first <= i < k && items[i] == items[k]
  {
    var x :| 0 <= x < |items[first..k]| && items[first..k][x] == items[k];
    i := first + x;
  }

  lemma DistinctSnoc<T>(xs: seq<T>, last: T)
    ensures Distinct(xs + [last]) <==> Distinct(xs) && last !in xs
  {
    var after := xs + [last];
    if Distinct(after) {
      forall i, j | 0 <= i < j < |xs| ensures xs[i] != xs[j] {
        assert after[i] == xs[i] && after[j] == xs[j];
      }
      forall x | 0 <= x < |xs| ensures xs[x] != last {
        assert after[x] == xs[x] && after[|xs|] == last;
      }
    }
  }

  ghost predicate SomeRunRepeats<T>(runs: seq<Run<T>>) {
    exists g :: 0 <= g < |runs| && !Distinct(runs[g].items)
  }

  lemma SomeRepeatsLast<T>(front: seq<Run<T>>, last: Run<T>)
    ensures SomeRunRepeats(front + [last]) <==> SomeRunRepeats(front) || !Distinct(last.items)
  {
    var runs := front + [last];
    assert forall g :: 0 <= g < |front| ==> runs[g] == front[g];
    assert runs[|front|] == last;
  }

  lemma RepeatsOneMore<T>(scenes: seq<nat>, items: seq<T>, k: nat)
    requires k < |scenes| == |items|
    ensures RepeatsBefore(scenes, items, k + 1) <==> RepeatsBefore(scenes, items, k) || RepeatsAt(scenes, items, k)
  {
  }

  lemma ExtendRepeats<T>(runs: seq<Run<T>>, scenes: seq<nat>, items: seq<T>, k: nat)
    requires k < |scenes| == |items| && EndsWell(runs, scenes, items, k)
    ensures SomeRunRepeats(Extend(runs, scenes[k], items[k])) <==> SomeRunRepeats(runs) || RepeatsAt(scenes, items, k)
  {
    if k > 0 {
      var first :| EndsAt(runs, first, scenes, items, k);
      JoinsWithRepeat(runs[|runs| - 1].scene, first, scenes, items, k);
    }
    if runs == [] || runs[|runs| - 1].scene != scenes[k] {
      SomeRepeatsLast(runs, Run(scenes[k], [items[k]]));
    } else {
      var front, last := runs[..|runs| - 1], runs[|runs| - 1];
      assert runs == front + [last];
      SomeRepeatsLast(front, last);
      SomeRepeatsLast(front, last.(items := last.items + [items[k]]));
      DistinctSnoc(last.items, items[k]);
    }
  }

  /** The runs of the first `k` items repeat one exactly if the items do. */
  ghost predicate RepeatsAlike<T>(runs: seq<Run<T>>, scenes: seq<nat>, items: seq<T>, k: nat)
    requires k <= |scenes| == |items|
  {
    match k
    case 0 => runs == []
    case _ => EndsWell(runs, scenes, items, k) && (SomeRunRepeats(runs) <==> RepeatsBefore(scenes, items, k))
  }

  lemma ExtendRepeatsAlike<T>(runs: seq<Run<T>>, scenes: seq<nat>, items: seq<T>, k: nat, after: seq<Run<T>>)
    requires k < |scenes| == |items| && RepeatsAlike(runs, scenes, items, k)
    requires after == Extend(runs, scenes[k], items[k])
    ensures RepeatsAlike(after, scenes, items, k + 1)
  {
    ExtendEndsWell(runs, scenes, items, k, after);
    ExtendRepeats(runs, scenes, items, k);
    RepeatsOneMore(scenes, items, k);
  }

  lemma {:induction false} RunsRepeatAlike<T>(scenes: seq<nat>, items: seq<T>, k: nat)
    requires k <= |scenes| == |items|
    ensures RepeatsAlike(RunsOf(scenes, items, k), scenes, items, k)
  {
    if k > 0 {
      RunsRepeatAlike(scenes, items, k - 1);
      ExtendRepeatsAlike(RunsOf(scenes, items, k - 1), scenes, items, k - 1, RunsOf(scenes, items, k));
    }
  }

  /** Some run holds an item twice exactly if the list repeats one without leaving its scene. */
  lemma RunsRepeatIff<T>(scenes: seq<nat>, items: seq<T>, k: nat)
    requires k <= |scenes| == |items|
    ensures SomeRunRepeats(RunsOf(scenes, items, k)) <==> RepeatsBefore(scenes, items, k)
  {
    RunsRepeatAlike(scenes, items, k);
  }

  // ---------------------------------------------------------------- opening items

  ghost predicate SomeRunOpens(runs: seq<Run<bool>>) {
    exists g :: 0 <= g < |runs| && runs[g].items != [] && runs[g].items[0]
  }

  ghost predicate OpensAt(scenes: seq<nat>, items: seq<bool>, i: nat)
    requires i < |scenes| == |items|
  {
    (i == 0 || scenes[i - 1] != scenes[i]) && items[i]
  }

  /** Among the first `k` items a marked one opens a scene. */
  ghost predicate OpensBefore(scenes: seq<nat>, items: seq<bool>, k: nat)
    requires k <= |scenes| == |items|
  {
    exists i :: 0 <= i < k && OpensAt(scenes, items, i)
  }

  lemma SomeOpensLast(front: seq<Run<bool>>, last: Run<bool>)
    requires last.items != []
    ensures SomeRunOpens(front + [last]) <==> SomeRunOpens(front) || last.items[0]
  {
    var runs := front + [last];
    assert forall g :: 0 <= g < |front| ==> runs[g] == front[g];
    assert runs[|front|] == last;
  }

  lemma ExtendOpens(runs: seq<Run<bool>>, scenes: seq<nat>, items: seq<bool>, k: nat)
    requires k < |scenes| == |items| && EndsWell(runs, scenes, items, k)
    ensures SomeRunOpens(Extend(runs, scenes[k], items[k])) <==> SomeRunOpens(runs) || OpensAt(scenes, items, k)
  {
    if runs == [] || runs[|runs| - 1].scene != scenes[k] {
      NewScene(runs, scenes, items, k);
      SomeOpensLast(runs, Run(scenes[k], [items[k]]));
    } else {
      var front, last := runs[..|runs| - 1], runs[|runs| - 1];
      assert runs == front + [last];
      var first :| EndsAt(runs, first, scenes, items, k);
      SomeOpensLast(front, last);
      SomeOpensLast(front, last.(items := last.items + [items[k]]));
    }
  }

  lemma OpensOneMore(scenes: seq<nat>, items: seq<bool>, k: nat)
    requires k < |scenes| == |items|
    ensures OpensBefore(scenes, items, k + 1) <==> OpensBefore(scenes, items, k) || OpensAt(scenes, items, k)
  {
  }

  /** The runs of the first `k` items open with a marked one exactly if a scene among the items does. */
  ghost predicate OpensAlike(runs: seq<Run<bool>>, scenes: seq<nat>, items: seq<bool>, k: nat)
    requires k <= |scenes| == |items|
  {
    match k
    case 0 => runs == []
    case _ => EndsWell(runs, scenes, items, k) && (SomeRunOpens(runs) <==> OpensBefore(scenes, items, k))
  }

  lemma ExtendOpensAlike(runs: seq<Run<bool>>, scenes: seq<nat>, items: seq<bool>, k: nat, after: seq<Run<bool>>)
    requires k < |scenes| == |items| && OpensAlike(runs, scenes, items, k)
    requires after == Extend(runs, scenes[k], items[k])
    ensures OpensAlike(after, scenes, items, k + 1)
  {
    ExtendEndsWell(runs, scenes, items, k, after);
    ExtendOpens(runs, scenes, items, k);
    OpensOneMore(scenes, items, k);
  }

  lemma {:induction false} RunsOpenAlike(scenes: seq<nat>, items: seq<bool>, k: nat)
    requires k <= |scenes| == |items|
    ensures OpensAlike(RunsOf(scenes, items, k), scenes, items, k)
  {
    if k > 0 {
      RunsOpenAlike(scenes, items, k - 1);
      ExtendOpensAlike(RunsOf(scenes, items, k - 1), scenes, items, k - 1, RunsOf(scenes, items, k));
    }
  }

  /** Some run opens with a marked item exactly if a marked item opens a scene in the list. */
  lemma RunsOpenIff(scenes: seq<nat>, items: seq<bool>, k: nat)
    requires k <= |scenes| == |items|
    ensures SomeRunOpens(RunsOf(scenes, items, k)) <==> OpensBefore(scenes, items, k)
  {
    RunsOpenAlike(scenes, items, k);
  }
}
