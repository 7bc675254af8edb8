/**
 What the evaluation of a snapshot and of an execution says, read off the snapshot and the answers alone:
 which error is reported, what an accepted evaluation describes, and when a mutation is verified.
 */
module ActionLaws {
  import opened Outcomes
  import opened Packets
  import opened Actions

  // ----- threads -------------------------------------------------------------------------------

  lemma {:induction false} UnresolvedFromTheEnd(threads: seq<ReviewThread>)
    requires threads != []
    ensures Unresolved(threads) == Unresolved(threads[..|threads| - 1]) + Indicator(!threads[|threads| - 1].isResolved)
  {
    if |threads| > 1 {
      UnresolvedFromTheEnd(threads[1..]);
      assert threads[1..][..|threads| - 2] == threads[..|threads| - 1][1..];
    }
  }

  /** The unresolved count counts the unresolved threads. */
  lemma {:induction false} UnresolvedAreCounted(threads: seq<ReviewThread>)
    ensures Unresolved(threads) == |set k | 0 <= k < |threads| && !threads[k].isResolved|
  {
    if threads != [] {
      var n := |threads| - 1;
      UnresolvedFromTheEnd(threads);
      UnresolvedAreCounted(threads[..n]);
      var earlier := set k | 0 <= k < n && !threads[..n][k].isResolved;
      var all := set k | 0 <= k < |threads| && !threads[k].isResolved;
      OneMore(earlier, all, n);
    }
  }

  /** With unique ids, the threads matching an id are the one thread that has it, or none. */
  lemma MatchingMeans(threads: seq<ReviewThread>, id: string)
    requires forall i, j | 0 <= i < j < |threads| :: threads[i].id != threads[j].id
    ensures Matching(threads, id) == [] <==> forall k | 0 <= k < |threads| :: threads[k].id != id
    ensures forall k | 0 <= k < |threads| && threads[k].id == id :: Matching(threads, id) == [threads[k]]
  {
    if Matching(threads, id) != [] {
      var k := MatchingFrom(threads, id);
      assert threads[k].id == id;
    }
    forall k | 0 <= k < |threads| && threads[k].id == id ensures Matching(threads, id) == [threads[k]] {
      MatchingAt(threads, k, id);
    }
  }

  /** The requested state is shown: the exact open pull request at the exact head, not a draft, or with its one target thread resolved. */
  predicate ShowsRequested(packet: Packet, live: Snapshot) {
    && live.pr.number == packet.pr.number && live.pr.url == packet.pr.url && live.pr.head == packet.pr.head
    && live.pr.state == Open
    && (packet.action == MarkPrReady ==> !live.pr.isDraft)
    && (packet.action == ResolveReviewThread ==>
          && packet.threadIds != []
          && (forall i | 0 <= i < |live.threads| :: live.threads[i].id != "" && "" !in live.threads[i].urls)
          && (forall i, j | 0 <= i < j < |live.threads| :: live.threads[i].id != live.threads[j].id)
          && exists k :: 0 <= k < |live.threads| && live.threads[k].id == packet.threadIds[0] && live.threads[k].isResolved)
  }

  /** The desired state is observed exactly when the requested state is shown. */
  lemma DesiredMeans(packet: Packet, live: Snapshot)
    ensures Desired(packet, live) <==> ShowsRequested(packet, live)
  {
    if packet.action == ResolveReviewThread && packet.threadIds != [] && ValidThreads(live.threads) {
      MatchingMeans(live.threads, packet.threadIds[0]);
      if Matching(live.threads, packet.threadIds[0]) != [] {
        var k := MatchingFrom(live.threads, packet.threadIds[0]);
        assert live.threads[k].id == packet.threadIds[0];
      }
    }
  }

  // ----- which error ---------------------------------------------------------------------------

  predicate Ready(packet: Packet, live: Snapshot, lenient: bool) {
    packet.action == MarkPrReady && lenient && packet.pr.isDraft && !live.pr.isDraft
  }

  /** The first check that does not pass, if any. */
  predicate FirstBadCheck(cfg: Config, live: Snapshot, k: int) {
    && 0 <= k < |live.checks| && !CheckSucceeded(cfg, live.checks[k])
    && forall i | 0 <= i < k :: CheckSucceeded(cfg, live.checks[i])
  }

  predicate Malformed(check: CheckContext) {
    check.name == "" || check.UnknownKind?
  }

  /** The positions of the unresolved threads. */
  function OpenThreads(live: Snapshot): set<int> {
    set k | 0 <= k < |live.threads| && !live.threads[k].isResolved
  }

  predicate IdentityExplains(cfg: Config, packet: Packet, live: Snapshot, lenient: bool, error: ActionError) {
    match error
    case RepositoryMismatch =>
      live.repository != cfg.repository || live.repositoryId != cfg.repositoryId || packet.repo != cfg.repository
    case PrNumberMismatch => live.pr.number != packet.pr.number
    case PrUrlMismatch => live.pr.url != packet.pr.url
    case PrBaseBranchMismatch => live.pr.baseBranch != packet.pr.baseBranch
    case PrHeadMismatch => live.pr.head != packet.pr.head
    case PrAuthorLoginMismatch => live.pr.author != packet.pr.author
    case PrDraftMismatch => live.pr.isDraft != packet.pr.isDraft && !Ready(packet, live, lenient)
    case PrNotOpen => live.pr.state == NotOpen
    case BaseBranchMismatch => live.pr.baseBranch != cfg.defaultBranch
    case PrAuthorMismatch => live.pr.author != cfg.prAuthor
    case CrossRepositoryHead => !live.pr.sameRepositoryHead
    case _ => false
  }

  predicate FilesExplain(cfg: Config, packet: Packet, live: Snapshot, lenient: bool, error: ActionError) {
    match error
    case UnsafeChangedPath => exists i :: 0 <= i < |live.files| && !cfg.safePath(live.files[i])
    case DuplicateChangedPath => exists i, j :: 0 <= i < j < |live.files| && live.files[i] == live.files[j]
    case ForbiddenPathChanged => exists i :: 0 <= i < |live.files| && cfg.forbiddenPath(live.files[i])
    case ChangedFileLimit => cfg.maximumChangedFiles == 0 || |live.files| > cfg.maximumChangedFiles
    case ChangedFileCountMismatch => live.pr.changedFiles != |live.files|
    case _ => false
  }

  predicate ChecksExplain(cfg: Config, packet: Packet, live: Snapshot, lenient: bool, error: ActionError) {
    match error
    case CheckNotSuccessful => exists k :: 0 <= k < |live.checks| && FirstBadCheck(cfg, live, k) && !Malformed(live.checks[k])
    case RequiredChecksMissing =>
      || (live.checks == [] && (cfg.requiredChecks != {} || !cfg.allowNoChecks))
      || exists name :: name in cfg.requiredChecks && forall i | 0 <= i < |live.checks| :: live.checks[i].name != name
    case ChecksStateMismatch => packet.checks != if live.checks == [] then NoChecks else SuccessfulChecks
    case _ => false
  }

  predicate EvidenceExplains(cfg: Config, packet: Packet, live: Snapshot, lenient: bool, error: ActionError) {
    match error
    case EvidenceCommentMismatch => live.comment.url != packet.evidenceUrl
    case EvidenceAuthorMismatch => live.comment.author != cfg.prAuthor
    case EvidenceMarkerMissing => packet.marker == "" || live.comment.marker != packet.marker
    case EvidenceTimestampMismatch =>
      || live.comment.createdAt < packet.observedAt - cfg.maximumClockSkew
      || live.comment.createdAt > packet.createdAt + cfg.maximumClockSkew
    case _ => false
  }

  predicate ReadyExplains(cfg: Config, packet: Packet, live: Snapshot, lenient: bool, error: ActionError) {
    match error
    case PrNotDraft => packet.action == MarkPrReady && !live.pr.isDraft && !Ready(packet, live, lenient)
    case MarkReadyThreadsPresent =>
      packet.action == MarkPrReady
      && (packet.threadIds != [] || packet.threadUrls != [] || exists k :: 0 <= k < |live.threads| && !live.threads[k].isResolved)
    case _ => false
  }

  predicate TargetExplains(cfg: Config, packet: Packet, live: Snapshot, lenient: bool, error: ActionError) {
    match error
    case InvalidThreadTarget => packet.action == ResolveReviewThread && (|packet.threadIds| != 1 || |packet.threadUrls| != 1)
    case ThreadNotFound => HasTarget(packet) && forall k | 0 <= k < |live.threads| :: live.threads[k].id != packet.threadIds[0]
    case ThreadAlreadyResolved =>
      !lenient && HasTarget(packet) && exists k :: 0 <= k < |live.threads| && live.threads[k].id == packet.threadIds[0]
                                                   && live.threads[k].isResolved
    case ThreadUrlMismatch =>
      HasTarget(packet) && exists k :: 0 <= k < |live.threads| && live.threads[k].id == packet.threadIds[0]
                                       && packet.threadUrls[0] !in live.threads[k].urls
    case CurrentThreadRequiresVerifier =>
      HasTarget(packet) && exists k :: 0 <= k < |live.threads| && live.threads[k].id == packet.threadIds[0]
                                       && !live.threads[k].isOutdated
    case _ => false
  }

  predicate CountsExplain(cfg: Config, packet: Packet, live: Snapshot, lenient: bool, error: ActionError) {
    match error
    case ThreadCountInconsistent => live.unresolvedCount != |OpenThreads(live)|
    case ThreadCountMismatch =>
      packet.unresolvedThreads != |OpenThreads(live)| + if TargetShownResolved(packet, live) then 1 else 0
    case _ => false
  }

  predicate SnapshotExplains(cfg: Config, packet: Packet, live: Snapshot, lenient: bool, error: ActionError) {
    match error
    case InvalidLiveSnapshot =>
      || !IsOid(live.pr.head)
      || (exists k :: 0 <= k < |live.checks| && FirstBadCheck(cfg, live, k) && Malformed(live.checks[k]))
      || (exists i :: 0 <= i < |live.threads| && (live.threads[i].id == "" || "" in live.threads[i].urls))
      || (exists i, j :: 0 <= i < j < |live.threads| && live.threads[i].id == live.threads[j].id)
    case _ => false
  }

  /** What makes each error true of a snapshot. */
  predicate Explains(cfg: Config, packet: Packet, live: Snapshot, lenient: bool, error: ActionError) {
    match Topic(error)
    case Identity => IdentityExplains(cfg, packet, live, lenient, error)
    case Files => FilesExplain(cfg, packet, live, lenient, error)
    case Checks => ChecksExplain(cfg, packet, live, lenient, error)
    case Evidence => EvidenceExplains(cfg, packet, live, lenient, error)
    case Readiness => ReadyExplains(cfg, packet, live, lenient, error)
    case Target => TargetExplains(cfg, packet, live, lenient, error)
    case Counts => CountsExplain(cfg, packet, live, lenient, error)
    case Shape => SnapshotExplains(cfg, packet, live, lenient, error)
  }

  datatype Subject = Identity | Files | Checks | Evidence | Readiness | Target | Counts | Shape

  /** What an error is about. */
  function Topic(error: ActionError): Subject {
    if Rank(error) <= 11 then Identity
    else if Rank(error) <= 16 then Files
    else if Rank(error) <= 19 then Checks
    else if Rank(error) <= 23 then Evidence
    else if error in {PrNotDraft, MarkReadyThreadsPresent} then Readiness
    else if error == InvalidLiveSnapshot then Shape
    else if error in {ThreadCountInconsistent, ThreadCountMismatch} then Counts
    else Target
  }

  predicate HasTarget(packet: Packet) {
    packet.action == ResolveReviewThread && |packet.threadIds| == 1 && |packet.threadUrls| == 1
  }

  predicate TargetShownResolved(packet: Packet, live: Snapshot) {
    HasTarget(packet) && exists k :: 0 <= k < |live.threads| && live.threads[k].id == packet.threadIds[0] && live.threads[k].isResolved
  }

  lemma {:induction false} FirstErrorIsFirst(cfg: Config, checks: seq<CheckContext>) returns (k: nat)
    requires FirstCheckError(cfg, checks).Fail?
    ensures k < |checks| && !CheckSucceeded(cfg, checks[k])
    ensures forall i | 0 <= i < k :: CheckSucceeded(cfg, checks[i])
    ensures FirstCheckError(cfg, checks).error == if Malformed(checks[k]) then InvalidLiveSnapshot else CheckNotSuccessful
  {
    if CheckError(cfg, checks[0]).Fail? {
      k := 0;
    } else {
      var later := FirstErrorIsFirst(cfg, checks[1..]);
      k := later + 1;
      forall i | 0 <= i < k ensures CheckSucceeded(cfg, checks[i]) {
        if i > 0 {
          assert checks[1..][i - 1] == checks[i];
        }
      }
    }
  }

  lemma ChecksErrorExplained(cfg: Config, packet: Packet, live: Snapshot, lenient: bool)
    ensures match JudgeChecks(cfg, live.checks)
            case Err(error) => Explains(cfg, packet, live, lenient, error)
            case Ok(checks) => checks == if live.checks == [] then NoChecks else SuccessfulChecks
  {
    hide IdentityExplains, FilesExplain, EvidenceExplains, ReadyExplains, TargetExplains, CountsExplain;
    if FirstCheckError(cfg, live.checks).Fail? {
      var k := FirstErrorIsFirst(cfg, live.checks);
      assert FirstBadCheck(cfg, live, k);
    } else if JudgeChecks(cfg, live.checks).Err? && live.checks != [] {
      var name :| name in cfg.requiredChecks && name !in CheckNames(live.checks);
      forall i | 0 <= i < |live.checks| ensures live.checks[i].name != name {
        assert live.checks[i].name in CheckNames(live.checks);
      }
    }
  }

  lemma IdentityErrorExplained(cfg: Config, packet: Packet, live: Snapshot, lenient: bool)
    ensures JudgeIdentity(cfg, packet, live, lenient).Fail? ==>
              Explains(cfg, packet, live, lenient, JudgeIdentity(cfg, packet, live, lenient).error)
  {
    hide FilesExplain, ChecksExplain, EvidenceExplains, ReadyExplains, TargetExplains, CountsExplain;
  }

  lemma FilesErrorExplained(cfg: Config, packet: Packet, live: Snapshot, lenient: bool)
    ensures JudgeFiles(cfg, live).Fail? ==> Explains(cfg, packet, live, lenient, JudgeFiles(cfg, live).error)
  {
    hide IdentityExplains, ChecksExplain, EvidenceExplains, ReadyExplains, TargetExplains, CountsExplain, SnapshotExplains;
  }

  lemma EvidenceErrorExplained(cfg: Config, packet: Packet, live: Snapshot, lenient: bool)
    ensures JudgeEvidence(cfg, packet, live).Fail? ==> Explains(cfg, packet, live, lenient, JudgeEvidence(cfg, packet, live).error)
  {
    hide IdentityExplains, FilesExplain, ChecksExplain, ReadyExplains, TargetExplains, CountsExplain, SnapshotExplains;
  }

  lemma RestExplained(cfg: Config, packet: Packet, live: Snapshot, lenient: bool)
    ensures packet.checks != (if live.checks == [] then NoChecks else SuccessfulChecks) ==>
              Explains(cfg, packet, live, lenient, ChecksStateMismatch)
    ensures !ValidThreads(live.threads) ==> Explains(cfg, packet, live, lenient, InvalidLiveSnapshot)
    ensures live.unresolvedCount != Unresolved(live.threads) ==> Explains(cfg, packet, live, lenient, ThreadCountInconsistent)
  {
    hide IdentityExplains, FilesExplain, EvidenceExplains, ReadyExplains, TargetExplains;
    UnresolvedAreCounted(live.threads);
  }

  lemma SurroundingsErrorExplained(cfg: Config, packet: Packet, live: Snapshot, lenient: bool)
    requires JudgeSurroundings(cfg, packet, live, lenient).Err?
    ensures Explains(cfg, packet, live, lenient, JudgeSurroundings(cfg, packet, live, lenient).error)
  {
    hide JudgeChecks, JudgeIdentity, JudgeFiles, JudgeEvidence, Explains, ValidThreads, Unresolved;
    IdentityErrorExplained(cfg, packet, live, lenient);
    FilesErrorExplained(cfg, packet, live, lenient);
    ChecksErrorExplained(cfg, packet, live, lenient);
    EvidenceErrorExplained(cfg, packet, live, lenient);
    RestExplained(cfg, packet, live, lenient);
  }

  lemma TargetErrorExplained(cfg: Config, packet: Packet, live: Snapshot, lenient: bool)
    requires ValidThreads(live.threads) && JudgeTarget(packet, live, lenient).Err?
    ensures Explains(cfg, packet, live, lenient, JudgeTarget(packet, live, lenient).error)
  {
    hide Explains, ValidThreads;
    UnresolvedPresent(live.threads);
    if packet.action == MarkPrReady {
      ReadyErrors(cfg, packet, live, lenient);
    } else {
      OtherTargetErrors(cfg, packet, live, lenient);
      if HasTarget(packet) {
        if Matching(live.threads, packet.threadIds[0]) != [] {
          var k := MatchingFrom(live.threads, packet.threadIds[0]);
          TargetErrorsAt(cfg, packet, live, lenient, k);
        } else {
          NoTargetFound(cfg, packet, live, lenient);
        }
      }
    }
  }

  lemma NoTargetFound(cfg: Config, packet: Packet, live: Snapshot, lenient: bool)
    requires ValidThreads(live.threads) && HasTarget(packet) && Matching(live.threads, packet.threadIds[0]) == []
    ensures Explains(cfg, packet, live, lenient, ThreadNotFound)
  {
    hide Explains;
    MatchingMeans(live.threads, packet.threadIds[0]);
    TargetErrorsMean(cfg, packet, live, lenient);
  }


  lemma {:induction false} UnresolvedPresent(threads: seq<ReviewThread>)
    ensures Unresolved(threads) > 0 <==> exists k :: 0 <= k < |threads| && !threads[k].isResolved
  {
    if threads != [] {
      UnresolvedPresent(threads[1..]);
      assert forall k | 1 <= k < |threads| :: threads[k] == threads[1..][k - 1];
      if k :| 0 <= k < |threads[1..]| && !threads[1..][k].isResolved {
        assert !threads[k + 1].isResolved;
      }
    }
  }

  /** Every reported error is true of the snapshot. */
  lemma ErrorsAreExplained(cfg: Config, packet: Packet, live: Snapshot, lenient: bool)
    requires Evaluate(cfg, packet, live, lenient).Err?
    ensures Explains(cfg, packet, live, lenient, Evaluate(cfg, packet, live, lenient).error)
  {
    hide JudgeSurroundings, Explains;
    var surroundings := JudgeSurroundings(cfg, packet, live, lenient);
    SurroundingsAccepted(cfg, packet, live, lenient);
    if surroundings.Err? {
      SurroundingsErrorExplained(cfg, packet, live, lenient);
    } else if JudgeTarget(packet, live, lenient).Err? {
      TargetErrorExplained(cfg, packet, live, lenient);
    } else {
      CountErrorExplained(cfg, packet, live, lenient);
    }
  }

  lemma CountErrorExplained(cfg: Config, packet: Packet, live: Snapshot, lenient: bool)
    requires ValidThreads(live.threads) && JudgeTarget(packet, live, lenient).Ok?
    ensures ExpectedUnresolved(packet, JudgeTarget(packet, live, lenient).value) == Unresolved(live.threads)
            <==> !Explains(cfg, packet, live, lenient, ThreadCountMismatch)
  {
    hide IdentityExplains, FilesExplain, ChecksExplain, EvidenceExplains, ReadyExplains, TargetExplains, SnapshotExplains;
    UnresolvedAreCounted(live.threads);
    if HasTarget(packet) {
      MatchingMeans(live.threads, packet.threadIds[0]);
      var k := MatchingFrom(live.threads, packet.threadIds[0]);
      assert live.threads[k].id == packet.threadIds[0];
    }
  }

  // ----- which error first ---------------------------------------------------------------------

  /** The order in which the errors are looked for; a malformed snapshot can be noticed at several points. */
  function Rank(error: ActionError): nat {
    match error
    case RepositoryMismatch => 1
    case PrNumberMismatch => 2
    case PrUrlMismatch => 3
    case PrBaseBranchMismatch => 4
    case PrHeadMismatch => 5
    case PrAuthorLoginMismatch => 6
    case PrDraftMismatch => 7
    case PrNotOpen => 8
    case BaseBranchMismatch => 9
    case PrAuthorMismatch => 10
    case CrossRepositoryHead => 11
    case UnsafeChangedPath => 12
    case DuplicateChangedPath => 13
    case ForbiddenPathChanged => 14
    case ChangedFileLimit => 15
    case ChangedFileCountMismatch => 16
    case CheckNotSuccessful => 17
    case RequiredChecksMissing => 18
    case ChecksStateMismatch => 19
    case EvidenceCommentMismatch => 20
    case EvidenceAuthorMismatch => 21
    case EvidenceMarkerMissing => 22
    case EvidenceTimestampMismatch => 23
    case ThreadCountInconsistent => 24
    case PrNotDraft => 25
    case MarkReadyThreadsPresent => 26
    case InvalidThreadTarget => 27
    case ThreadNotFound => 28
    case ThreadAlreadyResolved => 29
    case ThreadUrlMismatch => 30
    case CurrentThreadRequiresVerifier => 31
    case ThreadCountMismatch => 32
    case InvalidLiveSnapshot => 33
  }

  /** No error of a rank from lo up to hi is true of the snapshot. */
  predicate NoneBetween(cfg: Config, packet: Packet, live: Snapshot, lenient: bool, lo: nat, hi: nat) {
    && (lo <= 1 < hi ==> !Explains(cfg, packet, live, lenient, RepositoryMismatch))
    && (lo <= 2 < hi ==> !Explains(cfg, packet, live, lenient, PrNumberMismatch))
    && (lo <= 3 < hi ==> !Explains(cfg, packet, live, lenient, PrUrlMismatch))
    && (lo <= 4 < hi ==> !Explains(cfg, packet, live, lenient, PrBaseBranchMismatch))
    && (lo <= 5 < hi ==> !Explains(cfg, packet, live, lenient, PrHeadMismatch))
    && (lo <= 6 < hi ==> !Explains(cfg, packet, live, lenient, PrAuthorLoginMismatch))
    && (lo <= 7 < hi ==> !Explains(cfg, packet, live, lenient, PrDraftMismatch))
    && (lo <= 8 < hi ==> !Explains(cfg, packet, live, lenient, PrNotOpen))
    && (lo <= 9 < hi ==> !Explains(cfg, packet, live, lenient, BaseBranchMismatch))
    && (lo <= 10 < hi ==> !Explains(cfg, packet, live, lenient, PrAuthorMismatch))
    && (lo <= 11 < hi ==> !Explains(cfg, packet, live, lenient, CrossRepositoryHead))
    && (lo <= 12 < hi ==> !Explains(cfg, packet, live, lenient, UnsafeChangedPath))
    && (lo <= 13 < hi ==> !Explains(cfg, packet, live, lenient, DuplicateChangedPath))
    && (lo <= 14 < hi ==> !Explains(cfg, packet, live, lenient, ForbiddenPathChanged))
    && (lo <= 15 < hi ==> !Explains(cfg, packet, live, lenient, ChangedFileLimit))
    && (lo <= 16 < hi ==> !Explains(cfg, packet, live, lenient, ChangedFileCountMismatch))
    && (lo <= 17 < hi ==> !Explains(cfg, packet, live, lenient, CheckNotSuccessful))
    && (lo <= 18 < hi ==> !Explains(cfg, packet, live, lenient, RequiredChecksMissing))
    && (lo <= 19 < hi ==> !Explains(cfg, packet, live, lenient, ChecksStateMismatch))
    && (lo <= 20 < hi ==> !Explains(cfg, packet, live, lenient, EvidenceCommentMismatch))
    && (lo <= 21 < hi ==> !Explains(cfg, packet, live, lenient, EvidenceAuthorMismatch))
    && (lo <= 22 < hi ==> !Explains(cfg, packet, live, lenient, EvidenceMarkerMissing))
    && (lo <= 23 < hi ==> !Explains(cfg, packet, live, lenient, EvidenceTimestampMismatch))
    && (lo <= 24 < hi ==> !Explains(cfg, packet, live, lenient, ThreadCountInconsistent))
    && (lo <= 25 < hi ==> !Explains(cfg, packet, live, lenient, PrNotDraft))
    && (lo <= 26 < hi ==> !Explains(cfg, packet, live, lenient, MarkReadyThreadsPresent))
    && (lo <= 27 < hi ==> !Explains(cfg, packet, live, lenient, InvalidThreadTarget))
    && (lo <= 28 < hi ==> !Explains(cfg, packet, live, lenient, ThreadNotFound))
    && (lo <= 29 < hi ==> !Explains(cfg, packet, live, lenient, ThreadAlreadyResolved))
    && (lo <= 30 < hi ==> !Explains(cfg, packet, live, lenient, ThreadUrlMismatch))
    && (lo <= 31 < hi ==> !Explains(cfg, packet, live, lenient, CurrentThreadRequiresVerifier))
  }

  lemma NoneJoins(cfg: Config, packet: Packet, live: Snapshot, lenient: bool, lo: nat, mid: nat, hi: nat)
    requires lo <= mid <= hi
    requires NoneBetween(cfg, packet, live, lenient, lo, mid) && NoneBetween(cfg, packet, live, lenient, mid, hi)
    ensures NoneBetween(cfg, packet, live, lenient, lo, hi)
  {
    hide Explains;
  }

  lemma IdentityInOrder(cfg: Config, packet: Packet, live: Snapshot, lenient: bool)
    ensures match JudgeIdentity(cfg, packet, live, lenient)
            case Pass => NoneBetween(cfg, packet, live, lenient, 1, 12)
            case Fail(error) => error != InvalidLiveSnapshot ==> Rank(error) < 12 && NoneBetween(cfg, packet, live, lenient, 1, Rank(error))
  {
    hide FilesExplain, ChecksExplain, EvidenceExplains, ReadyExplains, TargetExplains, CountsExplain, SnapshotExplains;
  }

  lemma FilesInOrder(cfg: Config, packet: Packet, live: Snapshot, lenient: bool)
    ensures match JudgeFiles(cfg, live)
            case Pass => NoneBetween(cfg, packet, live, lenient, 12, 17)
            case Fail(error) => 12 <= Rank(error) < 17 && NoneBetween(cfg, packet, live, lenient, 12, Rank(error))
  {
    hide IdentityExplains, ChecksExplain, EvidenceExplains, ReadyExplains, TargetExplains, CountsExplain, SnapshotExplains;
  }

  lemma ChecksInOrder(cfg: Config, packet: Packet, live: Snapshot, lenient: bool)
    ensures match JudgeChecks(cfg, live.checks)
            case Ok(_) => NoneBetween(cfg, packet, live, lenient, 17, 19)
            case Err(error) => error != InvalidLiveSnapshot ==>
                                 17 <= Rank(error) < 19 && NoneBetween(cfg, packet, live, lenient, 17, Rank(error))
  {
    hide IdentityExplains, FilesExplain, EvidenceExplains, ReadyExplains, TargetExplains, CountsExplain, SnapshotExplains;
    hide FirstCheckError;
    FirstErrorPasses(cfg, live.checks);
    NothingChecked(cfg);
    if FirstCheckError(cfg, live.checks).Fail? {
      var k := FirstErrorIsFirst(cfg, live.checks);
    } else {
      assert forall name :: name in CheckNames(live.checks) <==> exists i :: 0 <= i < |live.checks| && live.checks[i].name == name;
    }
  }

  lemma NothingChecked(cfg: Config)
    ensures FirstCheckError(cfg, []) == Pass
  {
  }

  lemma EvidenceInOrder(cfg: Config, packet: Packet, live: Snapshot, lenient: bool)
    ensures match JudgeEvidence(cfg, packet, live)
            case Pass => NoneBetween(cfg, packet, live, lenient, 20, 24)
            case Fail(error) => 20 <= Rank(error) < 24 && NoneBetween(cfg, packet, live, lenient, 20, Rank(error))
  {
    hide IdentityExplains, FilesExplain, ChecksExplain, ReadyExplains, TargetExplains, CountsExplain, SnapshotExplains;
  }

  lemma StateInOrder(cfg: Config, packet: Packet, live: Snapshot, lenient: bool)
    requires JudgeChecks(cfg, live.checks).Ok? && JudgeChecks(cfg, live.checks).value == packet.checks
    ensures NoneBetween(cfg, packet, live, lenient, 19, 20)
  {
    hide IdentityExplains, FilesExplain, EvidenceExplains, ReadyExplains, TargetExplains, CountsExplain, SnapshotExplains;
    ChecksErrorExplained(cfg, packet, live, lenient);
  }

  lemma CountInOrder(cfg: Config, packet: Packet, live: Snapshot, lenient: bool)
    requires live.unresolvedCount == Unresolved(live.threads)
    ensures NoneBetween(cfg, packet, live, lenient, 24, 25)
  {
    hide IdentityExplains, FilesExplain, ChecksExplain, EvidenceExplains, ReadyExplains, TargetExplains, SnapshotExplains;
    UnresolvedAreCounted(live.threads);
  }

  lemma SurroundingsInOrder(cfg: Config, packet: Packet, live: Snapshot, lenient: bool)
    ensures match JudgeSurroundings(cfg, packet, live, lenient)
            case Ok(_) => NoneBetween(cfg, packet, live, lenient, 1, 25)
            case Err(error) => error != InvalidLiveSnapshot ==> NoneBetween(cfg, packet, live, lenient, 1, Rank(error))
  {
    hide NoneBetween, JudgeIdentity, JudgeFiles, JudgeChecks, JudgeEvidence, ValidThreads, Unresolved, Explains;
    IdentityInOrder(cfg, packet, live, lenient);
    if JudgeIdentity(cfg, packet, live, lenient).Pass? {
      FilesInOrder(cfg, packet, live, lenient);
      if JudgeFiles(cfg, live).Fail? {
        NoneJoins(cfg, packet, live, lenient, 1, 12, Rank(JudgeFiles(cfg, live).error));
      } else {
        NoneJoins(cfg, packet, live, lenient, 1, 12, 17);
        AfterFilesInOrder(cfg, packet, live, lenient);
      }
    }
  }

  lemma AfterFilesInOrder(cfg: Config, packet: Packet, live: Snapshot, lenient: bool)
    requires JudgeIdentity(cfg, packet, live, lenient).Pass? && JudgeFiles(cfg, live).Pass?
    requires NoneBetween(cfg, packet, live, lenient, 1, 17)
    ensures match JudgeSurroundings(cfg, packet, live, lenient)
            case Ok(_) => NoneBetween(cfg, packet, live, lenient, 1, 25)
            case Err(error) => error != InvalidLiveSnapshot ==> NoneBetween(cfg, packet, live, lenient, 1, Rank(error))
  {
    hide NoneBetween, JudgeIdentity, JudgeFiles, JudgeChecks, JudgeEvidence, ValidThreads, Unresolved, Explains;
    ChecksInOrder(cfg, packet, live, lenient);
    var checks := JudgeChecks(cfg, live.checks);
    if checks.Err? {
      if checks.error != InvalidLiveSnapshot {
        NoneJoins(cfg, packet, live, lenient, 1, 17, Rank(checks.error));
      }
    } else {
      NoneJoins(cfg, packet, live, lenient, 1, 17, 19);
      if packet.checks == checks.value {
        StateInOrder(cfg, packet, live, lenient);
        NoneJoins(cfg, packet, live, lenient, 1, 19, 20);
        EvidenceInOrder(cfg, packet, live, lenient);
        var evidence := JudgeEvidence(cfg, packet, live);
        if evidence.Fail? {
          NoneJoins(cfg, packet, live, lenient, 1, 20, Rank(evidence.error));
        } else {
          NoneJoins(cfg, packet, live, lenient, 1, 20, 24);
          if live.unresolvedCount == Unresolved(live.threads) {
            CountInOrder(cfg, packet, live, lenient);
            NoneJoins(cfg, packet, live, lenient, 1, 24, 25);
          }
        }
      }
    }
  }

  lemma ReadyInOrder(cfg: Config, packet: Packet, live: Snapshot, lenient: bool)
    requires packet.action == MarkPrReady
    ensures match JudgeTarget(packet, live, lenient)
            case Ok(_) => NoneBetween(cfg, packet, live, lenient, 25, 32)
            case Err(error) => 25 <= Rank(error) < 32 && NoneBetween(cfg, packet, live, lenient, 25, Rank(error))
  {
    hide Explains;
    UnresolvedPresent(live.threads);
    ReadyErrors(cfg, packet, live, lenient);
    ReadyHasNoTarget(cfg, packet, live, lenient);
  }

  lemma ReadyErrors(cfg: Config, packet: Packet, live: Snapshot, lenient: bool)
    requires packet.action == MarkPrReady
    ensures Explains(cfg, packet, live, lenient, PrNotDraft) <==> !live.pr.isDraft && !Ready(packet, live, lenient)
    ensures Explains(cfg, packet, live, lenient, MarkReadyThreadsPresent) <==>
              || packet.threadIds != [] || packet.threadUrls != []
              || exists k :: 0 <= k < |live.threads| && !live.threads[k].isResolved
  {
    hide IdentityExplains, FilesExplain, ChecksExplain, EvidenceExplains, CountsExplain, SnapshotExplains;
  }

  lemma ReadyHasNoTarget(cfg: Config, packet: Packet, live: Snapshot, lenient: bool)
    requires packet.action == MarkPrReady
    ensures forall error | error in {InvalidThreadTarget, ThreadNotFound, ThreadAlreadyResolved, ThreadUrlMismatch,
                                     CurrentThreadRequiresVerifier} :: !Explains(cfg, packet, live, lenient, error)
  {
    hide IdentityExplains, FilesExplain, ChecksExplain, EvidenceExplains, CountsExplain, SnapshotExplains;
  }

  lemma TargetErrorsMean(cfg: Config, packet: Packet, live: Snapshot, lenient: bool)
    requires HasTarget(packet)
    ensures Explains(cfg, packet, live, lenient, ThreadNotFound) <==>
              forall k | 0 <= k < |live.threads| :: live.threads[k].id != packet.threadIds[0]
    ensures Explains(cfg, packet, live, lenient, ThreadAlreadyResolved) <==>
              !lenient && exists k :: 0 <= k < |live.threads| && live.threads[k].id == packet.threadIds[0] && live.threads[k].isResolved
  {
    hide IdentityExplains, FilesExplain, ChecksExplain, EvidenceExplains, ReadyExplains, CountsExplain, SnapshotExplains;
  }

  lemma TargetDetailsMean(cfg: Config, packet: Packet, live: Snapshot, lenient: bool)
    requires HasTarget(packet)
    ensures Explains(cfg, packet, live, lenient, ThreadUrlMismatch) <==>
              exists k :: 0 <= k < |live.threads| && live.threads[k].id == packet.threadIds[0]
                          && packet.threadUrls[0] !in live.threads[k].urls
    ensures Explains(cfg, packet, live, lenient, CurrentThreadRequiresVerifier) <==>
              exists k :: 0 <= k < |live.threads| && live.threads[k].id == packet.threadIds[0] && !live.threads[k].isOutdated
  {
    hide IdentityExplains, FilesExplain, ChecksExplain, EvidenceExplains, ReadyExplains, CountsExplain, SnapshotExplains;
  }

  /** With unique ids the target's errors are about the one thread that has its id. */
  lemma TargetErrorsAt(cfg: Config, packet: Packet, live: Snapshot, lenient: bool, k: nat)
    requires ValidThreads(live.threads) && HasTarget(packet) && k < |live.threads| && live.threads[k].id == packet.threadIds[0]
    ensures Matching(live.threads, packet.threadIds[0]) == [live.threads[k]]
    ensures !Explains(cfg, packet, live, lenient, ThreadNotFound)
    ensures Explains(cfg, packet, live, lenient, ThreadAlreadyResolved) <==> !lenient && live.threads[k].isResolved
    ensures Explains(cfg, packet, live, lenient, ThreadUrlMismatch) <==> packet.threadUrls[0] !in live.threads[k].urls
    ensures Explains(cfg, packet, live, lenient, CurrentThreadRequiresVerifier) <==> !live.threads[k].isOutdated
  {
    hide Explains;
    TargetErrorsMean(cfg, packet, live, lenient);
    TargetDetailsMean(cfg, packet, live, lenient);
    MatchingAt(live.threads, k, packet.threadIds[0]);
    assert forall i | 0 <= i < |live.threads| && live.threads[i].id == packet.threadIds[0] :: i == k;
  }

  lemma OtherTargetErrors(cfg: Config, packet: Packet, live: Snapshot, lenient: bool)
    requires packet.action == ResolveReviewThread
    ensures !Explains(cfg, packet, live, lenient, PrNotDraft) && !Explains(cfg, packet, live, lenient, MarkReadyThreadsPresent)
    ensures Explains(cfg, packet, live, lenient, InvalidThreadTarget) <==> !HasTarget(packet)
  {
    hide IdentityExplains, FilesExplain, ChecksExplain, EvidenceExplains, CountsExplain, SnapshotExplains;
  }

  lemma ResolveInOrder(cfg: Config, packet: Packet, live: Snapshot, lenient: bool)
    requires ValidThreads(live.threads) && packet.action == ResolveReviewThread
    ensures match JudgeTarget(packet, live, lenient)
            case Ok(_) => NoneBetween(cfg, packet, live, lenient, 25, 32)
            case Err(error) => 25 <= Rank(error) < 32 && NoneBetween(cfg, packet, live, lenient, 25, Rank(error))
  {
    hide Explains, ValidThreads;
    OtherTargetErrors(cfg, packet, live, lenient);
    if HasTarget(packet) && Matching(live.threads, packet.threadIds[0]) != [] {
      var k := MatchingFrom(live.threads, packet.threadIds[0]);
      TargetErrorsAt(cfg, packet, live, lenient, k);
    }
  }

  lemma TargetInOrder(cfg: Config, packet: Packet, live: Snapshot, lenient: bool)
    requires ValidThreads(live.threads)
    ensures match JudgeTarget(packet, live, lenient)
            case Ok(_) => NoneBetween(cfg, packet, live, lenient, 25, 32)
            case Err(error) => 25 <= Rank(error) < 32 && NoneBetween(cfg, packet, live, lenient, 25, Rank(error))
  {
    hide Explains, ValidThreads, NoneBetween, JudgeTarget;
    if packet.action == MarkPrReady {
      ReadyInOrder(cfg, packet, live, lenient);
    } else {
      ResolveInOrder(cfg, packet, live, lenient);
    }
  }

  /** The reported error is the first, in order, that is true of the snapshot. */
  lemma ErrorsAreReportedInOrder(cfg: Config, packet: Packet, live: Snapshot, lenient: bool)
    requires Evaluate(cfg, packet, live, lenient).Err? && Evaluate(cfg, packet, live, lenient).error != InvalidLiveSnapshot
    ensures NoneBetween(cfg, packet, live, lenient, 1, Rank(Evaluate(cfg, packet, live, lenient).error))
  {
    hide NoneBetween, JudgeSurroundings, JudgeTarget, Explains, ValidThreads;
    SurroundingsInOrder(cfg, packet, live, lenient);
    SurroundingsAccepted(cfg, packet, live, lenient);
    if JudgeSurroundings(cfg, packet, live, lenient).Ok? {
      TargetInOrder(cfg, packet, live, lenient);
      var target := JudgeTarget(packet, live, lenient);
      if target.Err? {
        NoneJoins(cfg, packet, live, lenient, 1, 25, Rank(target.error));
      } else {
        NoneJoins(cfg, packet, live, lenient, 1, 25, 32);
      }
    }
  }

  // ----- what an accepted evaluation describes -------------------------------------------------

  /** An evaluation that says of the snapshot just what it shows, field by field; its `before` is what a receipt commits to. */
  predicate Describes(packet: Packet, live: Snapshot, evaluated: Evaluated) {
    && evaluated.action == packet.action
    && evaluated.prNumber == live.pr.number == packet.pr.number
    && evaluated.prNodeId == live.pr.nodeId
    && evaluated.head == live.pr.head == packet.pr.head
    && evaluated.before.pr == live.pr && evaluated.before.files == live.files
    && evaluated.before.checks == live.checks && evaluated.before.comment == live.comment
    && evaluated.before.unresolved == |set k | 0 <= k < |live.threads| && !live.threads[k].isResolved|
    && (packet.action == MarkPrReady ==>
          && evaluated.target == None && evaluated.before.target == None
          && evaluated.alreadySatisfied == !live.pr.isDraft)
    && (packet.action == ResolveReviewThread ==>
          && |packet.threadIds| == 1 == |packet.threadUrls|
          && evaluated.target == Some(packet.threadIds[0])
          && evaluated.alreadySatisfied == TargetShownResolved(packet, live)
          && evaluated.before.target
             == Some(TargetBefore(packet.threadIds[0], TargetShownResolved(packet, live), packet.threadUrls[0])))
  }

  /** An accepted evaluation describes the snapshot it was made from. */
  lemma EvaluationDescribes(cfg: Config, packet: Packet, live: Snapshot, lenient: bool)
    requires Evaluate(cfg, packet, live, lenient).Ok?
    ensures Describes(packet, live, Evaluate(cfg, packet, live, lenient).value)
  {
    hide JudgeSurroundings;
    SurroundingsAccepted(cfg, packet, live, lenient);
    UnresolvedAreCounted(live.threads);
    if packet.action == ResolveReviewThread && |packet.threadIds| == 1 {
      MatchingMeans(live.threads, packet.threadIds[0]);
      if Matching(live.threads, packet.threadIds[0]) != [] {
        var k := MatchingFrom(live.threads, packet.threadIds[0]);
        assert live.threads[k].id == packet.threadIds[0];
      }
    }
  }

  // ----- executions ----------------------------------------------------------------------------

  /** GitHub's answer says that exactly the requested mutation was applied. */
  predicate AnswersFaithfully(evaluated: Evaluated, response: Response) {
    match evaluated.action
    case MarkPrReady => response == ReadyResponse(evaluated.prNodeId, evaluated.prNumber, evaluated.head, Open, false)
    case ResolveReviewThread => evaluated.target.Some? && response == ThreadResponse(evaluated.target.value, true)
  }

  /** The readback shows the evaluated pull request, open at the evaluated head. */
  predicate SamePullRequest(packet: Packet, evaluated: Evaluated, after: Snapshot) {
    && after.pr.nodeId == evaluated.prNodeId && after.pr.number == evaluated.prNumber
    && after.pr.url == packet.pr.url && after.pr.state == Open && after.pr.head == evaluated.head
  }

  /**
   A mutation is verified exactly when GitHub answered that it applied just that mutation, and the readback
   shows the same open pull request at the same head, authorized and in the requested state.  Every other course
   has its own doubt, which is the reason that is signed.
   */
  lemma VerifiedIff(cfg: Config, packet: Packet, evaluated: Evaluated, response: Response, readback: Fetch)
    ensures JudgeExecution(cfg, packet, evaluated, response, readback) ==
              if response == TransportFailure then Doubtful(TransportIndeterminate)
              else if !AnswersFaithfully(evaluated, response) then Doubtful(ResponseMismatch)
              else if readback == Unavailable then Doubtful(ReadbackUnavailable)
              else if !SamePullRequest(packet, evaluated, readback.snapshot) then Doubtful(HeadChangedDuringMutation)
              else if !Authorized(cfg, packet, readback.snapshot, true) then Doubtful(ReadbackPreconditionsChanged)
              else if !ShowsRequested(packet, readback.snapshot) then Doubtful(ReadbackNotSatisfied)
              else Verified(readback.snapshot)
    ensures JudgeExecution(cfg, packet, evaluated, response, readback).Verified? <==>
              && AnswersFaithfully(evaluated, response) && readback.Seen? && SamePullRequest(packet, evaluated, readback.snapshot)
              && Authorized(cfg, packet, readback.snapshot, true) && ShowsRequested(packet, readback.snapshot)
  {
    hide Evaluate, Desired, Authorized, ShowsRequested;
    if readback.Seen? {
      EvaluateAcceptsIff(cfg, packet, readback.snapshot, true);
      DesiredMeans(packet, readback.snapshot);
      if Evaluate(cfg, packet, readback.snapshot, true).Ok? {
        SatisfiedIffDesired(cfg, packet, readback.snapshot);
      }
    }
  }
}
