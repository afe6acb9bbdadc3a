/**
  The version history of one artifact and the decisions recorded about its versions.
 */
module Approvals {
  import opened Common

  datatype Status = Pending | Generating | ReadyForReview | Approved | Rejected | Stale | Failed | Cancelled

  datatype Decision = Approve | Reject | RequestChanges | Block

  datatype Approval = Approval(version: nat, decision: Decision)

  /** `versions` holds the version numbers in the order their rows were added, `approvals` the records. */
  datatype Artifact = Artifact(
    id: nat,
    status: Status,
    locked: bool,
    currentVersion: nat,
    versions: seq<nat>,
    approvals: seq<Approval>)

  datatype Error = LockedArtifact | WrongArtifact | OutdatedVersion | NoSuchVersion

  /** `SetStatus` is any other part of the system writing the status alone, such as marking the artifact stale. */
  datatype Event =
    | CreateVersion
    | Decide(owner: nat, version: nat, decision: Decision)
    | SetStatus(status: Status)

  function NewArtifact(id: nat, status: Status): Artifact {
    Artifact(id, status, false, 1, [1], [])
  }

  // ---------------------------------------------------------------- one call

  function StatusFor(decision: Decision): Status {
    if decision == Approve then Approved else Rejected
  }

  /** Why a call is refused, if it is. A version row that does not exist never reaches the service. */
  function Refusal(a: Artifact, e: Event): Option<Error> {
    match e
    case CreateVersion => if a.locked then Some(LockedArtifact) else None
    case Decide(owner, version, decision) =>
      if owner != a.id then Some(WrongArtifact)
      else if version !in a.versions then Some(NoSuchVersion)
      else if Approval(version, decision) in a.approvals then None
      else if decision == Approve && version < a.currentVersion then Some(OutdatedVersion)
      else None
    case SetStatus(_) => None
  }

  predicate Accepted(a: Artifact, e: Event) {
    Refusal(a, e) == None
  }

  function Decided(a: Artifact, version: nat, decision: Decision): Artifact {
    a.(approvals := a.approvals + [Approval(version, decision)],
       status := StatusFor(decision),
       locked := a.locked || decision == Block,
       currentVersion := if decision == Approve then version else a.currentVersion)
  }

  function Step(a: Artifact, e: Event): Artifact {
    if !Accepted(a, e) then a
    else
      match e
      case CreateVersion =>
        a.(versions := a.versions + [a.currentVersion + 1], currentVersion := a.currentVersion + 1, status := ReadyForReview)
      case Decide(_, version, decision) =>
        if Approval(version, decision) in a.approvals then a else Decided(a, version, decision)
      case SetStatus(status) => a.(status := status)
  }

  function Run(a: Artifact, events: seq<Event>): Artifact
    decreases |events|
  {
    if events == [] then a else Step(Run(a, events[..|events| - 1]), events[|events| - 1])
  }

  // ---------------------------------------------------------------- the invariant

  /** The versions are exactly 1..current, in that order. */
  ghost predicate GapFree(a: Artifact) {
    a.currentVersion == |a.versions| >= 1 && forall i :: 0 <= i < |a.versions| ==> a.versions[i] == i + 1
  }

  /** No version gets the same decision twice, and every record is about a version that exists. */
  ghost predicate OncePerDecision(a: Artifact) {
    && (forall i, j :: 0 <= i < j < |a.approvals| ==> a.approvals[i] != a.approvals[j])
    && (forall r :: r in a.approvals ==> 1 <= r.version <= a.currentVersion)
  }

  /** Approvals are recorded in version order. */
  ghost predicate ApprovalsAdvance(a: Artifact) {
    forall i, j :: 0 <= i < j < |a.approvals| && a.approvals[i].decision == a.approvals[j].decision == Approve ==>
      a.approvals[i].version < a.approvals[j].version
  }

  /** An artifact is locked exactly when some version was blocked. */
  ghost predicate LockedByBlock(a: Artifact) {
    a.locked <==> exists r :: r in a.approvals && r.decision == Block
  }

  ghost predicate Valid(a: Artifact) {
    GapFree(a) && OncePerDecision(a) && ApprovalsAdvance(a) && LockedByBlock(a)
  }

  lemma VersionsExist(a: Artifact, version: nat)
    requires GapFree(a)
    ensures version in a.versions <==> 1 <= version <= a.currentVersion
  {
    if 1 <= version <= a.currentVersion {
      assert a.versions[version - 1] == version;
    }
  }

  lemma DecidedKeepsValid(a: Artifact, version: nat, decision: Decision)
    requires Valid(a) && 1 <= version <= a.currentVersion
    requires Approval(version, decision) !in a.approvals
    requires decision == Approve ==> version == a.currentVersion
    ensures Valid(Decided(a, version, decision))
  {
    var r := Approval(version, decision);
    var b := Decided(a, version, decision);
    assert forall q :: q in b.approvals <==> q in a.approvals || q == r;
    forall i, j | 0 <= i < j < |b.approvals| && b.approvals[i].decision == b.approvals[j].decision == Approve
      ensures b.approvals[i].version < b.approvals[j].version
    {
      if j == |a.approvals| {
        assert a.approvals[i] in a.approvals && a.approvals[i] != r;
      }
    }
    if decision == Block {
      assert r in b.approvals;
    }
  }

  lemma StepKeepsValid(a: Artifact, e: Event)
    requires Valid(a)
    ensures Valid(Step(a, e))
  {
    if e.Decide? && Accepted(a, e) && Approval(e.version, e.decision) !in a.approvals {
      VersionsExist(a, e.version);
      DecidedKeepsValid(a, e.version, e.decision);
    }
  }

  /** Over any run the versions are exactly 1..current, no decision is recorded twice, approvals
      advance and the lock tells whether a version was blocked. */
  lemma {:induction false} RunKeepsValid(a: Artifact, events: seq<Event>)
    requires Valid(a)
    ensures Valid(Run(a, events))
    decreases |events|
  {
    if events != [] {
      RunKeepsValid(a, events[..|events| - 1]);
      StepKeepsValid(Run(a, events[..|events| - 1]), events[|events| - 1]);
    }
  }

  lemma EveryRunIsValid(id: nat, status: Status, events: seq<Event>)
    ensures Valid(Run(NewArtifact(id, status), events))
  {
    assert Valid(NewArtifact(id, status));
    RunKeepsValid(NewArtifact(id, status), events);
  }

  // ---------------------------------------------------------------- current version and history

  /** No decision, accepted or not, changes the current version: an approval is only recorded for it. */
  lemma DecisionKeepsCurrent(a: Artifact, e: Event)
    requires Valid(a) && !e.CreateVersion?
    ensures Step(a, e).currentVersion == a.currentVersion && Step(a, e).versions == a.versions
  {
    if e.Decide? {
      VersionsExist(a, e.version);
    }
  }

  /** `b` has all of `a`'s history and perhaps more. */
  predicate Extends(a: Artifact, b: Artifact) {
    a.versions <= b.versions && a.approvals <= b.approvals && (a.locked ==> b.locked) && a.id == b.id
  }

  /** History is only ever appended to, and the lock is never released. */
  lemma {:induction false} RunExtends(a: Artifact, events: seq<Event>)
    ensures Extends(a, Run(a, events))
    decreases |events|
  {
    if events != [] {
      RunExtends(a, events[..|events| - 1]);
    }
  }

  /** Once locked, no run changes the versions. */
  lemma {:induction false} LockFreezesVersions(a: Artifact, events: seq<Event>)
    requires Valid(a) && a.locked
    ensures Run(a, events).versions == a.versions && Run(a, events).currentVersion == a.currentVersion
    decreases |events|
  {
    if events != [] {
      var front, last := events[..|events| - 1], events[|events| - 1];
      LockFreezesVersions(a, front);
      RunExtends(a, front);
      RunKeepsValid(a, front);
      if !last.CreateVersion? {
        DecisionKeepsCurrent(Run(a, front), last);
      }
    }
  }

  /** After an accepted block of any version the version history is frozen, whatever follows. */
  lemma BlockFreezesVersions(a: Artifact, version: nat, events: seq<Event>)
    requires Valid(a) && Accepted(a, Decide(a.id, version, Block))
    ensures var b := Step(a, Decide(a.id, version, Block));
            b.locked && Run(b, events).versions == a.versions && Run(b, events).currentVersion == a.currentVersion
  {
    var e := Decide(a.id, version, Block);
    StepKeepsValid(a, e);
    DecisionKeepsCurrent(a, e);
    LockFreezesVersions(Step(a, e), events);
  }

  // ---------------------------------------------------------------- when a decision takes effect

  /** A decision is refused exactly if it names another artifact's version, a version that is not there, or
      approves an outdated version without having done so before. */
  lemma DecisionRefusedIff(a: Artifact, owner: nat, version: nat, decision: Decision)
    requires Valid(a)
    ensures Accepted(a, Decide(owner, version, decision)) <==>
            && owner == a.id && 1 <= version <= a.currentVersion
            && (decision == Approve && version != a.currentVersion ==> Approval(version, decision) in a.approvals)
    ensures !Accepted(a, Decide(owner, version, decision)) ==> Step(a, Decide(owner, version, decision)) == a
  {
    VersionsExist(a, version);
  }

  /** An accepted decision that is not on record yet is put on record: an approval leaves the artifact
      APPROVED, every other decision REJECTED, and a block locks it too. One on record changes nothing. */
  lemma DecisionTakesEffect(a: Artifact, owner: nat, version: nat, decision: Decision)
    requires Valid(a) && Accepted(a, Decide(owner, version, decision))
    ensures var b := Step(a, Decide(owner, version, decision)); var r := Approval(version, decision);
            if r in a.approvals then b == a
            else
              && b.approvals == a.approvals + [r] && b.versions == a.versions && b.currentVersion == a.currentVersion
              && (decision == Approve ==> b.status == Approved && b.locked == a.locked && version == a.currentVersion)
              && (decision == Reject || decision == RequestChanges ==> b.status == Rejected && b.locked == a.locked)
              && (decision == Block ==> b.status == Rejected && b.locked)
  {
    DecisionRefusedIff(a, owner, version, decision);
    DecisionKeepsCurrent(a, Decide(owner, version, decision));
  }

  /** A version can be approved for the first time exactly while it is the current one, locked or not. */
  lemma FirstApprovalIff(a: Artifact, version: nat)
    requires Valid(a) && Approval(version, Approve) !in a.approvals
    ensures var b := Step(a, Decide(a.id, version, Approve));
            b.status == Approved && Approval(version, Approve) in b.approvals <==> version == a.currentVersion
  {
    DecisionRefusedIff(a, a.id, version, Approve);
    if version == a.currentVersion {
      DecisionTakesEffect(a, a.id, version, Approve);
    }
  }

  /** The event neither writes the status nor adds a version: it is refused, or repeats a decision on record. */
  predicate Ineffective(a: Artifact, e: Event) {
    match e
    case CreateVersion => a.locked
    case Decide(owner, version, decision) =>
      owner != a.id || version !in a.versions || Approval(version, decision) in a.approvals
      || (decision == Approve && version < a.currentVersion)
    case SetStatus(_) => false
  }

  ghost predicate AllIneffective(a: Artifact, events: seq<Event>)
    decreases |events|
  {
    events != [] ==>
      AllIneffective(a, events[..|events| - 1]) && Ineffective(Run(a, events[..|events| - 1]), events[|events| - 1])
  }

  lemma {:induction false} IneffectiveChangesNothing(a: Artifact, events: seq<Event>)
    requires AllIneffective(a, events)
    ensures Run(a, events) == a
    decreases |events|
  {
    if events != [] { IneffectiveChangesNothing(a, events[..|events| - 1]); }
  }

  lemma {:induction false} RunAppend(a: Artifact, first: seq<Event>, rest: seq<Event>)
    ensures Run(a, first + rest) == Run(Run(a, first), rest)
    decreases |rest|
  {
    if rest == [] {
      assert first + rest == first;
    } else {
      assert (first + rest)[..|first + rest| - 1] == first + rest[..|rest| - 1];
      RunAppend(a, first, rest[..|rest| - 1]);
    }
  }

  /** The last event of a run that has any effect decides the status: a first approval of the current version
      leaves APPROVED, another new decision REJECTED, and a new version READY_FOR_REVIEW. */
  lemma LastEffectiveDecides(a: Artifact, front: seq<Event>, e: Event, rest: seq<Event>)
    requires Valid(a) && !Ineffective(Run(a, front), e) && AllIneffective(Run(a, front + [e]), rest)
    ensures var before, after := Run(a, front), Run(a, front + [e] + rest);
            && (e.CreateVersion? ==> after.status == ReadyForReview && after.currentVersion == before.currentVersion + 1)
            && (e.Decide? && e.decision == Approve ==> after.status == Approved && e.version == before.currentVersion)
            && (e.Decide? && e.decision != Approve ==> after.status == Rejected)
            && (e.SetStatus? ==> after == before.(status := e.status))
            && (!e.CreateVersion? ==> after.currentVersion == before.currentVersion && after.versions == before.versions)
  {
    var before := Run(a, front);
    RunKeepsValid(a, front);
    RunAppend(a, front, [e]);
    assert Run(before, [e]) == Step(Run(before, [e][..0]), e) && [e][..0] == [];
    RunAppend(a, front + [e], rest);
    IneffectiveChangesNothing(Run(a, front + [e]), rest);
    if e.Decide? {
      VersionsExist(before, e.version);
      DecisionTakesEffect(before, e.owner, e.version, e.decision);
    }
  }

  // ---------------------------------------------------------------- what a decision does to the status

  /** Nothing outside the approval service sets APPROVED. */
  predicate ApprovedOnlyHere(events: seq<Event>) {
    forall i :: 0 <= i < |events| ==> events[i] != SetStatus(Approved)
  }

  predicate Justified(a: Artifact) {
    a.status == Approved ==> Approval(a.currentVersion, Approve) in a.approvals
  }

  /** The status is APPROVED only with a recorded approval of the current version behind it. */
  lemma {:induction false} ApprovedIsJustified(a: Artifact, events: seq<Event>)
    requires Valid(a) && Justified(a) && ApprovedOnlyHere(events)
    ensures Justified(Run(a, events))
    decreases |events|
  {
    if events != [] {
      var front, last := events[..|events| - 1], events[|events| - 1];
      assert last == events[|events| - 1];
      ApprovedIsJustified(a, front);
    }
  }

  /** The current version's one approval is spent. */
  predicate Spent(a: Artifact) {
    Approval(a.currentVersion, Approve) in a.approvals && a.status != Approved
  }

  /** A version that was approved and then lost that status cannot be approved again: as long as no
      version is added, no run of decisions brings APPROVED back. */
  lemma {:induction false} SpentApprovalStaysSpent(a: Artifact, events: seq<Event>)
    requires Valid(a) && Spent(a) && ApprovedOnlyHere(events)
    ensures var b := Run(a, events);
            b.currentVersion > a.currentVersion || (Spent(b) && b.currentVersion == a.currentVersion)
    decreases |events|
  {
    if events != [] {
      var front, last := events[..|events| - 1], events[|events| - 1];
      assert last == events[|events| - 1];
      SpentApprovalStaysSpent(a, front);
      RunKeepsValid(a, front);
      StepKeepsSpent(Run(a, front), last);
    }
  }

  lemma StepKeepsSpent(a: Artifact, e: Event)
    requires Valid(a) && e != SetStatus(Approved)
    ensures Step(a, e).currentVersion >= a.currentVersion
    ensures Spent(a) && Step(a, e).currentVersion == a.currentVersion ==> Spent(Step(a, e))
  {
    if !e.CreateVersion? {
      DecisionKeepsCurrent(a, e);
      var b := Step(a, e);
      assert forall r :: r in a.approvals ==> r in b.approvals;
    }
    if e.Decide? {
      VersionsExist(a, e.version);
    }
  }

  /** So a locked one is never approved again. */
  lemma SpentAndLockedIsFinal(a: Artifact, events: seq<Event>)
    requires Valid(a) && Spent(a) && a.locked && ApprovedOnlyHere(events)
    ensures Run(a, events).status != Approved
  {
    SpentApprovalStaysSpent(a, events);
    LockFreezesVersions(a, events);
  }

  /** The shortest such run: the second approval is accepted and ignored. */
  lemma ReapprovalIsIgnored(id: nat)
    ensures var approve, reject := Decide(id, 1, Approve), Decide(id, 1, Reject);
            var a := Step(Step(NewArtifact(id, ReadyForReview), approve), reject);
            a.status == Rejected && Accepted(a, approve) && Step(a, approve) == a
  {
    var a := Step(NewArtifact(id, ReadyForReview), Decide(id, 1, Approve));
    assert a.approvals == [Approval(1, Approve)];
    var b := Step(a, Decide(id, 1, Reject));
    assert b.approvals == [Approval(1, Approve), Approval(1, Reject)];
  }

  // ---------------------------------------------------------------- the code

  class ArtifactLedger {
    const id: nat
    var status: Status
    var locked: bool
    var currentVersion: nat
    var versions: seq<nat>
    var approvals: seq<Approval>

    ghost function Snapshot(): Artifact
      reads this
    {
      Artifact(id, status, locked, currentVersion, versions, approvals)
    }

    constructor (id: nat, hasPayload: bool)
      ensures Snapshot() == NewArtifact(id, if hasPayload then ReadyForReview else Pending)
      ensures Valid(Snapshot())
    {
      this.id := id;
      status := if hasPayload then ReadyForReview else Pending;
      locked := false;
      currentVersion := 1;
      versions := [1];
      approvals := [];
    }

    method CreateArtifactVersion() returns (r: Result<nat, Error>)
      requires Valid(Snapshot())
      modifies this
      ensures Valid(Snapshot())
      ensures Snapshot() == Step(old(Snapshot()), CreateVersion)
      ensures r == if old(locked) then Err(LockedArtifact) else Ok(old(currentVersion) + 1)
      ensures if old(locked) then Snapshot() == old(Snapshot())
              else currentVersion == old(currentVersion) + 1 && versions == old(versions) + [currentVersion]
                   && status == ReadyForReview && !locked && approvals == old(approvals)
    {
      StepKeepsValid(Snapshot(), CreateVersion);
      if locked {
        return Err(LockedArtifact);
      }
      var nextVersion := currentVersion + 1;
      currentVersion := nextVersion;
      status := ReadyForReview;
      versions := versions + [nextVersion];
      r := Ok(nextVersion);
    }

    method RecordApproval(owner: nat, version: nat, decision: Decision) returns (r: Result<Approval, Error>)
      requires Valid(Snapshot()) && (owner == id ==> version in versions)
      modifies this
      ensures Valid(Snapshot())
      ensures Snapshot() == Step(old(Snapshot()), Decide(owner, version, decision))
      ensures var isNew := Approval(version, decision) !in old(approvals);
              && (r == Err(WrongArtifact) <==> owner != id)
              && (r == Err(OutdatedVersion) <==> owner == id && isNew && decision == Approve && version < old(currentVersion))
              && (r.Ok? ==> r.value == Approval(version, decision) && r.value in approvals)
              && (r.Err? ==> r.error == WrongArtifact || r.error == OutdatedVersion)
              && (r.Err? || !isNew ==> Snapshot() == old(Snapshot()))
              && (r.Ok? && isNew ==> approvals == old(approvals) + [Approval(version, decision)])
              && (r.Ok? && isNew && decision == Approve ==> status == Approved && version == currentVersion)
              && (r.Ok? && isNew && decision != Approve ==> status == Rejected)
              && (locked <==> old(locked) || (r.Ok? && isNew && decision == Block))
      ensures currentVersion == old(currentVersion) && versions == old(versions)
    {
      if owner == id { VersionsExist(Snapshot(), version); }
      StepKeepsValid(Snapshot(), Decide(owner, version, decision));
      DecisionKeepsCurrent(Snapshot(), Decide(owner, version, decision));
      if owner != id {
        return Err(WrongArtifact);
      }
      var approval := Approval(version, decision);
      if approval in approvals {
        return Ok(approval);
      }
      if decision == Approve && version < currentVersion {
        return Err(OutdatedVersion);
      }
      approvals := approvals + [approval];
      match decision {
        case Approve =>
          status := Approved;
          currentVersion := version;
        case Block =>
          locked := true;
          status := Rejected;
        case Reject | RequestChanges =>
          status := Rejected;
      }
      r := Ok(approval);
    }
  }
}
