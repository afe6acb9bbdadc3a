/** Fitting a model-written shot list to the clips of a video: padding, folding and the per-shot defaults. */
module ShotFitting {
  import opened Common
  import opened Beats
  import opened Texts

  /** An entry of a shot dictionary: absent, JSON null, or a text. */
  datatype Field = Missing | Null | Text(text: string)

  /** One shot as far as the normalisation reads or writes it. */
  datatype Shot = Shot(narration: Field, dialogue: Field, action: Field, duration: int, number: int)

  datatype Scene = Scene(title: Field, summary: Field, shots: seq<Shot>)

  /** A shot and the index of the raw scene it belongs to. */
  datatype Placed = Placed(scene: nat, shot: Shot)

  const DEFAULT_ACTION := "Acao visual do plano."
  const CONTINUED_ACTION := "A acao continua em nova tomada curta."

  /** `str(field or default)`. */
  function OrElse(f: Field, default: string): string {
    match f
    case Text(text) => if text != "" then text else default
    case _ => default
  }

  // ---------------------------------------------------------------- too few shots

  const CONTINUITY := " Continuidade visual "
  const MOMENT := " Momento seguinte "
  const EVOLVES := ": a emocao evolui sem quebrar a continuidade."

  function Counted(before: string, i: nat, after: string): string {
    before + Decimal(i) + after
  }

  function Evolves(missing: nat): string {
    " de " + Decimal(missing) + EVOLVES
  }

  function Of(missing: nat): string {
    " de " + Decimal(missing) + "."
  }

  function NarrationTail(i: nat, missing: nat): string {
    Counted(CONTINUITY, i, Of(missing))
  }

  function ActionTail(i: nat, missing: nat): string {
    Counted(MOMENT, i, Evolves(missing))
  }

  function ActionText(last: Shot, i: nat, missing: nat): string {
    Strip(OrElse(last.action, CONTINUED_ACTION) + ActionTail(i, missing))
  }

  /** The i-th shot that continues `last`. */
  function Continuation(last: Shot, i: nat, missing: nat): Shot {
    last.(narration := Text(Strip(OrElse(last.narration, OrElse(last.action, "")) + NarrationTail(i, missing))),
          action := Text(ActionText(last, i, missing)))
  }

  function Continuations(last: Placed, missing: nat): (r: seq<Placed>)
    ensures |r| == missing
  {
    seq(missing, i requires 0 <= i < missing => last.(shot := Continuation(last.shot, i + 1, missing)))
  }

  /** A text that starts with a single space and ends without one. */
  predicate OneSpaceThenText(before: string, after: string) {
    && |before| > 1 && before[0] == ' ' && !IsSpace(before[1])
    && after != "" && !IsSpace(after[|after| - 1])
  }

  /** What precedes the numeral once the text is stripped. */
  function Lead(base: string, before: string): string
    requires before != ""
  {
    if LStrip(base) == "" then before[1..] else LStrip(base) + before
  }

  /** Stripping takes nothing off the tail but its first space, and that only if the base is blank. */
  lemma StrippedTail(base: string, before: string, i: nat, after: string)
    requires OneSpaceThenText(before, after)
    ensures Strip(base + Counted(before, i, after)) == Lead(base, before) + Decimal(i) + after
  {
    var t := Counted(before, i, after);
    assert t[0] == ' ' && t[1] == before[1] && t[|t| - 1] == after[|after| - 1];
    StripTail(base, t);
    LeadJoins(LStrip(base), before, Decimal(i), after);
  }

  lemma StripTail(base: string, t: string)
    requires |t| > 1 && t[0] == ' ' && !IsSpace(t[1]) && !IsSpace(t[|t| - 1])
    ensures Strip(base + t) == if LStrip(base) == "" then t[1..] else LStrip(base) + t
  {
    LStripAppend(base, t);
    assert LStrip(t) == t[1..];
    var l := LStrip(base + t);
    assert l[|l| - 1] == t[|t| - 1];
    assert RStrip(l) == l;
  }

  lemma LeadJoins(base: string, before: string, d: string, after: string)
    requires before != ""
    ensures (before + d + after)[1..] == before[1..] + d + after
    ensures base + (before + d + after) == base + before + d + after
  {
  }

  lemma TailShape(missing: nat)
    ensures OneSpaceThenText(MOMENT, Evolves(missing))
    ensures OneSpaceThenText(CONTINUITY, Of(missing))
  {
    var e := Evolves(missing);
    assert MOMENT[1] == 'M' && CONTINUITY[1] == 'C';
    assert e[|e| - 1] == EVOLVES[|EVOLVES| - 1] == '.';
  }

  /** The index of a continuation can be read off its action, even in the form in which actions are compared. */
  lemma ContinuationActionIsInjective(last: Shot, i: nat, j: nat, missing: nat)
    requires Canonical(ActionText(last, i, missing)) == Canonical(ActionText(last, j, missing))
    ensures i == j
  {
    TailShape(missing);
    var base := OrElse(last.action, CONTINUED_ACTION);
    StrippedTail(base, MOMENT, i, Evolves(missing));
    StrippedTail(base, MOMENT, j, Evolves(missing));
    CanonicalNumeralInjective(Lead(base, MOMENT), i, j, Evolves(missing));
  }

  lemma ContinuationTextsDiffer(last: Shot, i: nat, j: nat, missing: nat)
    requires i != j
    ensures Canonical(ActionText(last, i, missing)) != Canonical(ActionText(last, j, missing))
  {
    if Canonical(ActionText(last, i, missing)) == Canonical(ActionText(last, j, missing)) {
      ContinuationActionIsInjective(last, i, j, missing);
    }
  }

  /** The added continuation actions are pairwise distinct, also after normalisation. */
  lemma ContinuationsDiffer(last: Placed, i: nat, j: nat, missing: nat)
    requires i < j < missing
    ensures var a, b := Continuations(last, missing)[i].shot.action, Continuations(last, missing)[j].shot.action;
            a.Text? && b.Text? && Canonical(a.text) != Canonical(b.text)
  {
    ContinuationTextsDiffer(last.shot, i + 1, j + 1, missing);
  }

  // ---------------------------------------------------------------- too many shots

  /** The stripped actions of the dropped shots that say anything. */
  function ExtraActions(extras: seq<Placed>): seq<string> {
    if extras == [] then []
    else
      var action := Strip(OrElse(extras[0].shot.action, ""));
      (if action != "" then [action] else []) + ExtraActions(extras[1..])
  }

  function FoldInto(last: Shot, extraActions: seq<string>): Shot {
    if extraActions == [] then last
    else last.(action := Text(Strip(Strip(OrElse(last.action, "")) + " " + Join(extraActions))))
  }

  lemma {:induction false} ExtraActionsTrimmed(extras: seq<Placed>)
    ensures forall i :: 0 <= i < |ExtraActions(extras)| ==> Trimmed(ExtraActions(extras)[i])
  {
    if extras != [] {
      ExtraActionsTrimmed(extras[1..]);
      StripTrims(OrElse(extras[0].shot.action, ""));
    }
  }

  /** Every dropped action that says anything is among the extra actions, in the order of the shots. */
  lemma {:induction false} ExtraActionsComplete(extras: seq<Placed>, i: nat)
    requires i < |extras| && Strip(OrElse(extras[i].shot.action, "")) != ""
    ensures ExtraActions(extras) ==
            ExtraActions(extras[..i]) + [Strip(OrElse(extras[i].shot.action, ""))] + ExtraActions(extras[i + 1..])
  {
    if i > 0 {
      ExtraActionsComplete(extras[1..], i - 1);
      assert extras[..i][1..] == extras[1..][..i - 1];
      assert extras[1..][i..] == extras[i + 1..];
    } else {
      assert ExtraActions(extras[..0]) == [];
    }
  }

  lemma StripEnds(base: string, tail: string)
    requires Trimmed(tail)
    ensures Strip(Strip(base) + " " + tail) == if Strip(base) == "" then tail else Strip(base) + " " + tail
  {
    StripTrims(base);
    StripTrimmed(tail);
    if Strip(base) == "" {
      assert "" + " " + tail == " " + tail;
    } else {
      StripTrimmed(Strip(base) + " " + tail);
    }
  }

  /** The folded action is the last kept action followed by all the extra actions, joined. */
  lemma FoldKeepsActions(last: Shot, extras: seq<Placed>)
    requires ExtraActions(extras) != []
    ensures var tail := Join(ExtraActions(extras)); var base := Strip(OrElse(last.action, ""));
            FoldInto(last, ExtraActions(extras)).action == Text(if base == "" then tail else base + " " + tail)
  {
    ExtraActionsTrimmed(extras);
    JoinTrimmed(ExtraActions(extras));
    StripEnds(OrElse(last.action, ""), Join(ExtraActions(extras)));
  }

  // ---------------------------------------------------------------- the fitted list

  /** Exactly `clips` shots. */
  function Fit(flat: seq<Placed>, clips: nat): (r: seq<Placed>)
    requires flat != [] && clips > 0
    ensures |r| == clips
  {
    if |flat| < clips then flat + Continuations(flat[|flat| - 1], clips - |flat|)
    else if |flat| > clips then
      var last := flat[clips - 1];
      flat[..clips - 1] + [last.(shot := FoldInto(last.shot, ExtraActions(flat[clips..])))]
    else flat
  }

  method FitShots(flat: seq<Placed>, clips: nat) returns (fitted: seq<Placed>)
    requires flat != [] && clips > 0
    ensures fitted == Fit(flat, clips)
  {
    fitted := flat;
    if |flat| < clips {
      var last := flat[|flat| - 1];
      var missing := clips - |flat|;
      for i := 1 to missing + 1
        invariant fitted == flat + Continuations(last, missing)[..i - 1]
      {
        fitted := fitted + [last.(shot := Continuation(last.shot, i, missing))];
      }
      assert Continuations(last, missing)[..missing] == Continuations(last, missing);
    } else if |flat| > clips {
      var selected, extras := flat[..clips], flat[clips..];
      var lastShot := selected[clips - 1].shot;
      var extraActions := CollectActions(extras);
      if extraActions != [] {
        lastShot := lastShot.(action := Text(Strip(Strip(OrElse(lastShot.action, "")) + " " + Join(extraActions))));
      }
      fitted := selected[..clips - 1] + [selected[clips - 1].(shot := lastShot)];
      assert selected[..clips - 1] == flat[..clips - 1];
    }
  }

  lemma {:induction false} ExtraActionsSnoc(extras: seq<Placed>, last: Placed)
    ensures ExtraActions(extras + [last]) == ExtraActions(extras) + ExtraActions([last])
  {
    if extras == [] {
      assert extras + [last] == [last];
    } else {
      assert (extras + [last])[1..] == extras[1..] + [last];
      ExtraActionsSnoc(extras[1..], last);
    }
  }

  method CollectActions(extras: seq<Placed>) returns (actions: seq<string>)
    ensures actions == ExtraActions(extras)
  {
    actions := [];
    for i := 0 to |extras|
      invariant actions == ExtraActions(extras[..i])
    {
      var action := Strip(OrElse(extras[i].shot.action, ""));
      ExtraActionsSnoc(extras[..i], extras[i]);
      assert extras[..i + 1] == extras[..i] + [extras[i]];
      assert ExtraActions([extras[i]]) == if action != "" then [action] else [];
      if action != "" {
        actions := actions + [action];
      }
    }
    assert extras[..|extras|] == extras;
  }

  /** Fitting keeps every shot but the last in place; with too few shots it keeps the last as well, and with
      too many it alters nothing but the action of the last. */
  lemma FitKeepsShots(flat: seq<Placed>, clips: nat, i: nat)
    requires flat != [] && i < clips
    ensures i < |flat| && (i < clips - 1 || |flat| <= clips) ==> Fit(flat, clips)[i] == flat[i]
    ensures i < |flat| ==> Fit(flat, clips)[i].shot == flat[i].shot.(action := Fit(flat, clips)[i].shot.action)
    ensures i == clips - 1 < |flat| - 1 && ExtraActions(flat[clips..]) == [] ==> Fit(flat, clips)[i] == flat[i]
    ensures Fit(flat, clips)[i].scene == flat[if i < |flat| then i else |flat| - 1].scene
  {
  }

  /** `text` is `base` followed by the numbered phrase, without white space in front. */
  ghost predicate Follows(text: string, base: string, before: string, i: nat, after: string)
    requires before != ""
  {
    match AllSpace(base)
    case true => text == before[1..] + Decimal(i) + after
    case false => text == LStrip(base) + before + Decimal(i) + after
  }

  lemma FollowsTail(base: string, before: string, i: nat, after: string)
    requires OneSpaceThenText(before, after)
    ensures Follows(Strip(base + Counted(before, i, after)), base, before, i, after)
  {
    StrippedTail(base, before, i, after);
    StripBlankIff(base);
    var k := LStripCuts(base);
    RStripCuts(LStrip(base));
    if LStrip(base) != "" { assert base[k] == LStrip(base)[0]; }
  }

  /** An added shot belongs to the last scene and keeps the last dialogue. Its action is the last action, or a
      set phrase, and its narration the last narration, or the last action, each with a numbered phrase. */
  lemma AddedShotContinues(flat: seq<Placed>, clips: nat, i: nat)
    requires flat != [] && |flat| <= i < clips
    ensures var last, added := flat[|flat| - 1], Fit(flat, clips)[i];
            var shot, n, missing := last.shot, i - |flat| + 1, clips - |flat|;
            && added.scene == last.scene && added.shot.dialogue == shot.dialogue
            && added.shot.action.Text? && added.shot.narration.Text?
            && Follows(added.shot.action.text, if shot.action.Text? && shot.action.text != "" then shot.action.text else CONTINUED_ACTION,
                       MOMENT, n, " de " + Decimal(missing) + EVOLVES)
            && Follows(added.shot.narration.text,
                       if shot.narration.Text? && shot.narration.text != "" then shot.narration.text
                       else if shot.action.Text? then shot.action.text else "",
                       CONTINUITY, n, " de " + Decimal(missing) + ".")
  {
    var last := flat[|flat| - 1];
    var n: nat, missing: nat := i - |flat| + 1, clips - |flat|;
    assert Fit(flat, clips)[i] == last.(shot := Continuation(last.shot, n, missing));
    ActionFollows(last.shot, n, missing);
    NarrationFollows(last.shot, n, missing);
  }

  lemma ActionFollows(last: Shot, n: nat, missing: nat)
    ensures Follows(ActionText(last, n, missing), if last.action.Text? && last.action.text != "" then last.action.text else CONTINUED_ACTION,
                    MOMENT, n, " de " + Decimal(missing) + EVOLVES)
  {
    TailShape(missing);
    FollowsTail(OrElse(last.action, CONTINUED_ACTION), MOMENT, n, Evolves(missing));
  }

  lemma NarrationFollows(last: Shot, n: nat, missing: nat)
    ensures Continuation(last, n, missing).narration.Text?
    ensures Follows(Continuation(last, n, missing).narration.text,
                    if last.narration.Text? && last.narration.text != "" then last.narration.text
                    else if last.action.Text? then last.action.text else "",
                    CONTINUITY, n, " de " + Decimal(missing) + ".")
  {
    TailShape(missing);
    FollowsTail(OrElse(last.narration, OrElse(last.action, "")), CONTINUITY, n, Of(missing));
  }
}
