/** Distributing a scene's sentences over its shots. Sentences are opaque, already cleaned strings. */
module Beats {

  const PREFIX := "Continue esta mesma ação, preservando posições e objetos: "
  const FALLBACK := "A acao da cena continua."

  // ---------------------------------------------------------------- integer division

  lemma MulMono(c: int, x: int, y: int)
    requires c > 0
    ensures x <= y <==> c * x <= c * y
    ensures x < y <==> c * x < c * y
  {
    if x < y { MulGrows(c, y - x); assert c * y == c * x + c * (y - x); }
    if y < x { MulGrows(c, x - y); assert c * x == c * y + c * (x - y); }
  }

  lemma MulGrows(c: int, d: int)
    requires c > 0 && d >= 1
    ensures c * d >= c
  {
    assert c * (d - 1) >= 0;
    assert c * d == c * (d - 1) + c;
  }

  /** q is the floored quotient of a by c exactly when c*q <= a < c*(q+1). */
  lemma QuotientIs(a: int, c: int, q: int)
    requires c > 0 && c * q <= a < c * (q + 1)
    ensures a / c == q
  {
    var p := a / c;
    assert c * p <= a < c * (p + 1);
    MulMono(c, p, q + 1);
    MulMono(c, q, p + 1);
  }

  lemma QuotientBounds(a: int, c: int)
    requires c > 0
    ensures c * (a / c) <= a < c * (a / c + 1)
  {
  }

  lemma QuotientMono(a: int, b: int, c: int)
    requires c > 0 && a <= b
    ensures a / c <= b / c
  {
    QuotientBounds(a, c);
    QuotientBounds(b, c);
    MulMono(c, a / c, b / c + 1);
  }

  /** Where share `i` of `n` items over `count` shares begins. */
  function Cut(n: nat, count: nat, i: nat): nat
    requires count > 0
  {
    QuotientBounds(i * n, count);
    MulMono(count, 0, i * n / count + 1);
    (i * n) / count
  }

  lemma CutEnds(n: nat, count: nat)
    requires count > 0
    ensures Cut(n, count, 0) == 0 && Cut(n, count, count) == n
  {
    QuotientIs(count * n, count, n);
    QuotientIs(0 * n, count, 0);
  }

  lemma CutMono(n: nat, count: nat, i: nat, j: nat)
    requires count > 0 && i <= j
    ensures Cut(n, count, i) <= Cut(n, count, j)
  {
    assert i * n <= j * n by { assert (j - i) * n >= 0; }
    QuotientMono(i * n, j * n, count);
  }

  /** Every share has floor(n / count) items or one more. */
  lemma ShareSize(n: nat, count: nat, i: nat)
    requires count > 0
    ensures n / count <= Cut(n, count, i + 1) - Cut(n, count, i) <= n / count + 1
  {
    var q, a, b := n / count, Cut(n, count, i), Cut(n, count, i + 1);
    QuotientBounds(n, count);
    QuotientBounds(i * n, count);
    QuotientBounds((i + 1) * n, count);
    assert (i + 1) * n == i * n + n;
    assert count * (a + q) <= (i + 1) * n < count * (b + 1) by {
      assert count * (a + q) == count * a + count * q;
    }
    assert count * b <= (i + 1) * n < count * (a + q + 2) by {
      assert count * (a + q + 2) == count * (a + 1) + count * (q + 1);
    }
    MulMono(count, a + q, b + 1);
    MulMono(count, b, a + q + 2);
  }

  // ---------------------------------------------------------------- repeated beats

  /** The marked form of a beat that continues the one before it. */
  function Marked(beat: string): (r: string)
    ensures |r| > |beat|
  {
    PREFIX + beat
  }

  /** A beat equal to the one before it is marked as its continuation. */
  function BeatAt<T(==)>(beats: seq<T>, mark: T -> T, i: nat): T
    requires i < |beats|
  {
    if i > 0 && beats[i] == beats[i - 1] then mark(beats[i]) else beats[i]
  }

  function Differentiated(beats: seq<string>): (r: seq<string>)
    ensures |r| == |beats|
    ensures forall i :: 0 <= i < |r| ==> r[i] == BeatAt(beats, Marked, i)
  {
    seq(|beats|, i requires 0 <= i < |beats| => BeatAt(beats, Marked, i))
  }

  /** The last index of the run of equal elements that starts at `index`. */
  method RunEnd<T(==)>(d: array<T>, index: nat) returns (end: nat)
    requires index < d.Length
    ensures index <= end < d.Length
    ensures forall j :: index <= j <= end ==> d[j] == d[index]
    ensures end + 1 < d.Length ==> d[end + 1] != d[index]
  {
    end := index;
    while end + 1 < d.Length && d[end + 1] == d[index]
      invariant index <= end < d.Length
      invariant forall j :: index <= j <= end ==> d[j] == d[index]
    {
      end := end + 1;
    }
  }

  /** Marks every element of a run but its first. */
  method MarkRun<T(==)>(d: array<T>, mark: T -> T, index: nat, runLength: nat)
    requires 1 < runLength && index + runLength <= d.Length
    modifies d
    ensures forall j :: 0 <= j < d.Length ==>
      d[j] == if index < j < index + runLength then mark(old(d[j])) else old(d[j])
  {
    for offset := 1 to runLength
      invariant forall j :: 0 <= j < d.Length ==>
        d[j] == if index < j < index + offset then mark(old(d[j])) else old(d[j])
    {
      d[index + offset] := mark(d[index + offset]);
    }
  }

  /** Rewrites each run of equal elements in place, scanning the very list it writes to. */
  method MarkRepeats<T(==)>(d: array<T>, mark: T -> T)
    modifies d
    ensures forall i :: 0 <= i < d.Length ==> d[i] == BeatAt(old(d[..]), mark, i)
  {
    ghost var beats := d[..];
    var index := 0;
    while index < d.Length
      invariant 0 <= index <= d.Length
      invariant 0 < index < d.Length ==> beats[index] != beats[index - 1]
      invariant forall j :: 0 <= j < index ==> d[j] == BeatAt(beats, mark, j)
      invariant forall j :: index <= j < d.Length ==> d[j] == beats[j]
    {
      var end := RunEnd(d, index);
      var runLength := end - index + 1;
      assert forall j :: index < j <= end ==> beats[j] == beats[j - 1];
      if runLength > 1 {
        MarkRun(d, mark, index, runLength);
      }
      index := end + 1;
    }
  }

  method DifferentiateRepeatedBeats(beats: seq<string>) returns (r: seq<string>)
    ensures r == Differentiated(beats)
  {
    var d := new string[|beats|](i requires 0 <= i < |beats| => beats[i]);
    assert d[..] == beats;
    MarkRepeats(d, Marked);
    r := d[..];
  }

  /** Two neighbouring results are equal exactly from the third beat of a run on, apart from the
      coincidence that a sentence already is the marked form of the repeated one before it. */
  lemma NeighboursEqualIff(beats: seq<string>, i: nat)
    requires i + 1 < |beats|
    ensures Differentiated(beats)[i] == Differentiated(beats)[i + 1] <==>
            i > 0 && beats[i - 1] == beats[i]
            && (beats[i + 1] == beats[i] || beats[i + 1] == Marked(beats[i]))
  {
    assert Differentiated(beats)[i] == BeatAt(beats, Marked, i);
    assert Differentiated(beats)[i + 1] == BeatAt(beats, Marked, i + 1);
  }

  // ---------------------------------------------------------------- partition

  /** `" ".join(parts)`. */
  function Join(parts: seq<string>): string {
    if parts == [] then ""
    else if |parts| == 1 then parts[0]
    else parts[0] + " " + Join(parts[1..])
  }

  function Clean(units: seq<string>, fallback: string): (r: seq<string>)
    ensures r != []
  {
    if units != [] then units else [if fallback == "" then FALLBACK else fallback]
  }

  /** Share `i` of the sentences. */
  function Share(units: seq<string>, count: nat, i: nat): (r: seq<string>)
    requires i < count
    ensures |r| == Cut(|units|, count, i + 1) - Cut(|units|, count, i)
  {
    CutMono(|units|, count, i, i + 1);
    CutMono(|units|, count, i + 1, count);
    CutEnds(|units|, count);
    units[Cut(|units|, count, i)..Cut(|units|, count, i + 1)]
  }

  function Shares(units: seq<string>, count: nat): (r: seq<seq<string>>)
    ensures |r| == count
  {
    seq(count, i requires 0 <= i < count => Share(units, count, i))
  }

  function Min(a: int, b: int): int { if a < b then a else b }

  /** With fewer sentences than shots, the sentence that shot `i` continues. */
  function Assignment(units: seq<string>, count: nat, i: nat): string
    requires units != [] && i < count
  {
    units[Min(Cut(|units|, count, i), |units| - 1)]
  }

  function Assignments(units: seq<string>, count: nat): (r: seq<string>)
    requires units != []
    ensures |r| == count
  {
    seq(count, i requires 0 <= i < count => Assignment(units, count, i))
  }

  function PartitionActionUnits(units: seq<string>, count: int, fallback: string): seq<string> {
    if count <= 0 then []
    else
      var clean := Clean(units, fallback);
      if |clean| >= count then
        seq(count, i requires 0 <= i < count => Join(Share(clean, count, i)))
      else Differentiated(Assignments(clean, count))
  }

  /** One beat per shot. */
  lemma PartitionLength(units: seq<string>, count: nat, fallback: string)
    ensures |PartitionActionUnits(units, count, fallback)| == count
  {
  }

  function Concat<T>(parts: seq<seq<T>>): seq<T> {
    if parts == [] then [] else parts[0] + Concat(parts[1..])
  }

  lemma {:induction false} ConcatSnoc<T>(parts: seq<seq<T>>, last: seq<T>)
    ensures Concat(parts + [last]) == Concat(parts) + last
  {
    if parts == [] {
      assert parts + [last] == [last];
      assert Concat([last]) == last + Concat<T>([]);
    } else {
      assert (parts + [last])[1..] == parts[1..] + [last];
      ConcatSnoc(parts[1..], last);
    }
  }

  lemma {:induction false} SharesUpTo(units: seq<string>, count: nat, k: nat)
    requires k <= count && count > 0
    ensures Cut(|units|, count, k) <= |units|
    ensures Concat(Shares(units, count)[..k]) == units[..Cut(|units|, count, k)]
  {
    CutEnds(|units|, count);
    CutMono(|units|, count, k, count);
    if k > 0 {
      SharesUpTo(units, count, k - 1);
      var s := Shares(units, count);
      assert s[..k] == s[..k - 1] + [s[k - 1]];
      ConcatSnoc(s[..k - 1], s[k - 1]);
      CutMono(|units|, count, k - 1, k);
    }
  }

  lemma EnoughForOneEach(n: nat, count: nat)
    requires 0 < count <= n
    ensures n / count >= 1
  {
    QuotientBounds(n, count);
    MulMono(count, 1, n / count + 1);
  }

  lemma ShareBounds(units: seq<string>, count: nat, i: nat)
    requires i < count <= |units|
    ensures 1 <= |units| / count <= |Share(units, count, i)| <= |units| / count + 1
  {
    EnoughForOneEach(|units|, count);
    ShareSize(|units|, count, i);
  }

  /** With enough sentences the shares are non-empty, their sizes differ by at most one, and in order
      they make up the sentences again. */
  lemma SharesPartition(units: seq<string>, count: nat)
    requires 0 < count <= |units|
    ensures Concat(Shares(units, count)) == units
    ensures forall i :: 0 <= i < count ==>
      1 <= |units| / count <= |Shares(units, count)[i]| <= |units| / count + 1
  {
    SharesUpTo(units, count, count);
    CutEnds(|units|, count);
    assert Shares(units, count)[..count] == Shares(units, count);
    assert units[..|units|] == units;
    forall i | 0 <= i < count
      ensures 1 <= |units| / count <= |Shares(units, count)[i]| <= |units| / count + 1
    {
      ShareBounds(units, count, i);
    }
  }

  lemma {:induction false} JoinAppend(a: seq<string>, b: seq<string>)
    requires a != [] && b != []
    ensures Join(a + b) == Join(a) + " " + Join(b)
  {
    if |a| > 1 {
      assert (a + b)[1..] == a[1..] + b;
      JoinAppend(a[1..], b);
    } else {
      assert (a + b)[1..] == b;
    }
  }

  function JoinEach(parts: seq<seq<string>>): (r: seq<string>)
    ensures |r| == |parts|
  {
    seq(|parts|, i requires 0 <= i < |parts| => Join(parts[i]))
  }

  lemma {:induction false} JoinOfJoins(parts: seq<seq<string>>)
    requires parts != [] && forall i :: 0 <= i < |parts| ==> parts[i] != []
    ensures Join(JoinEach(parts)) == Join(Concat(parts)) && Concat(parts) != []
  {
    if |parts| == 1 {
      assert Concat(parts) == parts[0];
      assert JoinEach(parts) == [Join(parts[0])];
    } else {
      JoinOfJoins(parts[1..]);
      JoinAppend(parts[0], Concat(parts[1..]));
      assert JoinEach(parts)[1..] == JoinEach(parts[1..]);
    }
  }

  /** Read in order, the beats are the sentences: no text is lost, repeated or reordered. */
  lemma PartitionKeepsText(units: seq<string>, count: nat, fallback: string)
    requires 0 < count <= |Clean(units, fallback)|
    ensures Join(PartitionActionUnits(units, count, fallback)) == Join(Clean(units, fallback))
  {
    var clean := Clean(units, fallback);
    SharesPartition(clean, count);
    assert forall i :: 0 <= i < count ==> Shares(clean, count)[i] != [];
    JoinOfJoins(Shares(clean, count));
    assert PartitionActionUnits(units, count, fallback) == JoinEach(Shares(clean, count));
  }

  /** With more shots than sentences: the sentence numbers never run backwards nor skip, start at the
      first sentence, end at the last, and stay in range without the clamp. */
  lemma AssignmentWalks(n: nat, count: nat, i: nat)
    requires 0 < n < count && i < count
    ensures Cut(n, count, 0) == 0 && Cut(n, count, count - 1) == n - 1
    ensures Cut(n, count, i) <= n - 1
    ensures i + 1 < count ==> Cut(n, count, i) <= Cut(n, count, i + 1) <= Cut(n, count, i) + 1
  {
    CutEnds(n, count);
    QuotientIs(n, count, 0);
    ShareSize(n, count, i);
    ShareSize(n, count, count - 1);
    CutMono(n, count, i, count - 1);
    assert Cut(n, count, count - 1) <= n - 1 by {
      QuotientBounds((count - 1) * n, count);
      assert (count - 1) * n == count * n - n;
      MulMono(count, Cut(n, count, count - 1), n);
    }
  }

  /** With more shots than sentences, shot `i` is told by sentence floor(i * sentences / shots), marked as a
      continuation exactly if the shot before it is told by an equal one. */
  lemma SpreadBeat(units: seq<string>, count: nat, fallback: string, i: nat)
    requires 0 < |units| < count && i < count
    ensures ToldBySentence(PartitionActionUnits(units, count, fallback)[i], units, count, i)
  {
    AssignmentWalks(|units|, count, i);
    if i > 0 { AssignmentWalks(|units|, count, i - 1); }
    BeatOfAssignment(units, count, i);
  }

  ghost predicate ToldBySentence(beat: string, units: seq<string>, count: nat, i: nat)
    requires count > 0
  {
    var u := Cut(|units|, count, i);
    && u < |units|
    && if i == 0 then beat == units[u]
       else
         var before := Cut(|units|, count, i - 1);
         before < |units| && beat == if units[before] == units[u] then PREFIX + units[u] else units[u]
  }

  lemma BeatOfAssignment(units: seq<string>, count: nat, i: nat)
    requires units != [] && i < count && Cut(|units|, count, i) < |units|
    requires i > 0 ==> Cut(|units|, count, i - 1) < |units|
    ensures ToldBySentence(Differentiated(Assignments(units, count))[i], units, count, i)
  {
    var a := Assignments(units, count);
    assert a[i] == units[Cut(|units|, count, i)];
    if i > 0 { assert a[i - 1] == units[Cut(|units|, count, i - 1)]; }
  }

  /** Without sentences every shot is told by the fallback, or by a set phrase if that is empty. */
  lemma NothingToTell(count: nat, fallback: string, i: nat)
    requires i < count
    ensures var u := if fallback != "" then fallback else FALLBACK;
            PartitionActionUnits([], count, fallback)[i] == if i > 0 then PREFIX + u else u
  {
    var clean := Clean([], fallback);
    if count == 1 {
      CutEnds(1, 1);
      assert Share(clean, 1, 0) == clean;
    } else {
      AssignmentWalks(1, count, i);
      if i > 0 { AssignmentWalks(1, count, i - 1); }
      BeatOfAssignment(clean, count, i);
    }
  }

  /** Every sentence gets a shot. */
  lemma {:induction false} AssignmentHits(n: nat, count: nat, u: nat) returns (i: nat)
    requires u < n < count
    ensures i < count && Cut(n, count, i) == u
  {
    CutEnds(n, count);
    i := 0;
    while Cut(n, count, i) < u
      invariant i < count && Cut(n, count, i) <= u
      decreases count - i
    {
      AssignmentWalks(n, count, i);
      if i + 1 == count {
        assert false;
      }
      i := i + 1;
    }
  }

  /** Provided neighbouring sentences differ, and none is the marked form of its predecessor, the
      beats of neighbouring shots all differ exactly when no sentence is spread over three shots,
      that is, when there are at most twice as many shots as sentences. */
  lemma PartitionNeighboursDifferIff(units: seq<string>, count: nat, fallback: string)
    requires units != [] && count > |units|
    requires forall u :: 0 <= u < |units| - 1 ==> units[u] != units[u + 1] && units[u + 1] != Marked(units[u])
    ensures (forall i :: 0 <= i < count - 1 ==>
               PartitionActionUnits(units, count, fallback)[i] != PartitionActionUnits(units, count, fallback)[i + 1])
            <==> count <= 2 * |units|
  {
    var n := |units|;
    var a := Assignments(units, count);
    var r := PartitionActionUnits(units, count, fallback);
    assert r == Differentiated(a);
    if count <= 2 * n {
      forall i | 0 <= i < count - 1 ensures r[i] != r[i + 1] {
        SpreadDiffers(units, count, i);
      }
    } else {
      SpreadRepeats(units, count);
      assert r[1] == r[2];
    }
  }

  lemma SpreadDiffers(units: seq<string>, count: nat, i: nat)
    requires units != [] && |units| < count <= 2 * |units| && i + 1 < count
    requires forall u :: 0 <= u < |units| - 1 ==> units[u] != units[u + 1] && units[u + 1] != Marked(units[u])
    ensures Differentiated(Assignments(units, count))[i] != Differentiated(Assignments(units, count))[i + 1]
  {
    var n := |units|;
    NeighboursEqualIff(Assignments(units, count), i);
    AssignmentWalks(n, count, i);
    AssignmentWalks(n, count, i + 1);
    if i > 0 {
      AssignmentWalks(n, count, i - 1);
      TripleSpans(n, count, i - 1);
      var a, b, c := Cut(n, count, i - 1), Cut(n, count, i), Cut(n, count, i + 1);
      assert a < b || c == b + 1;
      assert a < b ==> units[a] != units[b];
      assert b < c ==> units[b] != units[c] && units[c] != Marked(units[b]);
    }
  }

  /** With more than two shots a sentence the first sentence fills the first three. */
  lemma SpreadRepeats(units: seq<string>, count: nat)
    requires units != [] && count > 2 * |units|
    ensures Differentiated(Assignments(units, count))[1] == Differentiated(Assignments(units, count))[2]
  {
    var n := |units|;
    QuotientIs(0 * n, count, 0);
    QuotientIs(1 * n, count, 0);
    QuotientIs(2 * n, count, 0);
    NeighboursEqualIff(Assignments(units, count), 1);
  }

  lemma TripleSpans(n: nat, count: nat, i: nat)
    requires 0 < count <= 2 * n
    ensures Cut(n, count, i) < Cut(n, count, i + 2)
  {
    QuotientBounds(i * n, count);
    QuotientBounds((i + 2) * n, count);
    assert (i + 2) * n == i * n + 2 * n;
    var a, b := Cut(n, count, i), Cut(n, count, i + 2);
    assert count * (a + 1) <= (i + 2) * n < count * (b + 1) by {
      assert count * (a + 1) == count * a + count;
    }
    MulMono(count, a + 1, b + 1);
  }
}
