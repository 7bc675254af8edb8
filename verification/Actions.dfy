/**
 Live-state authorization of a protected action, the observation of its desired state, and the
 mutation-with-readback decision (broker/john_lomein_broker_actions.py).
 */
module Actions {
  import opened Outcomes
  import opened Packets

  datatype PrState = Open | NotOpen

  datatype LivePr = LivePr(
    nodeId: string,
    number: int,
    url: string,
    baseBranch: string,
    head: string,
    author: string,
    isDraft: bool,
    state: PrState,
    sameRepositoryHead: bool,
    changedFiles: int)

  datatype CheckContext =
    | CheckRun(name: string, completed: bool, conclusion: string)
    | CommitStatus(name: string, success: bool)
    | UnknownKind(name: string)

  /** An evidence comment; `marker` is the broker marker it carries exactly once, on its first line, or "". */
  datatype Comment = Comment(url: string, author: string, marker: string, createdAt: int)

  datatype ReviewThread = ReviewThread(id: string, isResolved: bool, isOutdated: bool, urls: seq<string>)

  datatype Snapshot = Snapshot(
    repository: string,
    repositoryId: int,
    pr: LivePr,
    files: seq<string>,
    checks: seq<CheckContext>,
    comment: Comment,
    threads: seq<ReviewThread>,
    unresolvedCount: int)

  /** A read of live state: the client may fail, or return a snapshot of whatever GitHub shows now. */
  datatype Fetch = Unavailable | Seen(snapshot: Snapshot)

  datatype ActionError =
    | RepositoryMismatch
    | PrNumberMismatch
    | PrUrlMismatch
    | PrBaseBranchMismatch
    | PrHeadMismatch
    | PrAuthorLoginMismatch
    | PrDraftMismatch
    | PrNotOpen
    | BaseBranchMismatch
    | PrAuthorMismatch
    | CrossRepositoryHead
    | InvalidLiveSnapshot
    | UnsafeChangedPath
    | DuplicateChangedPath
    | ForbiddenPathChanged
    | ChangedFileLimit
    | ChangedFileCountMismatch
    | RequiredChecksMissing
    | CheckNotSuccessful
    | ChecksStateMismatch
    | EvidenceCommentMismatch
    | EvidenceAuthorMismatch
    | EvidenceMarkerMissing
    | EvidenceTimestampMismatch
    | ThreadCountInconsistent
    | PrNotDraft
    | MarkReadyThreadsPresent
    | InvalidThreadTarget
    | ThreadNotFound
    | ThreadAlreadyResolved
    | ThreadUrlMismatch
    | CurrentThreadRequiresVerifier
    | ThreadCountMismatch

  datatype TargetBefore = TargetBefore(id: string, isResolved: bool, url: string)

  /** The evaluated state whose digest a receipt carries as its precondition. */
  datatype Before = Before(
    pr: LivePr,
    files: seq<string>,
    checks: seq<CheckContext>,
    comment: Comment,
    unresolved: nat,
    target: Option<TargetBefore>)

  datatype Evaluated = Evaluated(
    action: Action,
    prNumber: int,
    prNodeId: string,
    head: string,
    target: Option<string>,
    alreadySatisfied: bool,
    before: Before)

  // ----- review threads ------------------------------------------------------------------------

  predicate ValidThread(thread: ReviewThread) {
    && thread.id != ""
    && forall i | 0 <= i < |thread.urls| :: thread.urls[i] != ""
  }

  /** What the thread scan accepts: every thread well formed, no two with the same id. */
  predicate ValidThreads(threads: seq<ReviewThread>) {
    && (forall i | 0 <= i < |threads| :: ValidThread(threads[i]))
    && (forall i, j | 0 <= i < j < |threads| :: threads[i].id != threads[j].id)
  }

  /** The thread scan: one pass that remembers the ids it has seen. */
  method ScanThreads(threads: seq<ReviewThread>) returns (valid: bool)
    ensures valid <==> ValidThreads(threads)
  {
    var ids: set<string> := {};
    for n := 0 to |threads|
      invariant forall i | 0 <= i < n :: ValidThread(threads[i]) && threads[i].id in ids
      invariant forall id | id in ids :: exists i :: 0 <= i < n && threads[i].id == id
      invariant forall i, j | 0 <= i < j < n :: threads[i].id != threads[j].id
    {
      var thread := threads[n];
      if thread.id == "" || thread.id in ids {
        return false;
      }
      if exists i | 0 <= i < |thread.urls| :: thread.urls[i] == "" {
        return false;
      }
      ids := ids + {thread.id};
    }
    return true;
  }

  function Unresolved(threads: seq<ReviewThread>): nat {
    if threads == [] then 0
    else Indicator(!threads[0].isResolved) + Unresolved(threads[1..])
  }

  /** All threads with the given id, in order. */
  function Matching(threads: seq<ReviewThread>, id: string): seq<ReviewThread> {
    if threads == [] then []
    else (if threads[0].id == id then [threads[0]] else []) + Matching(threads[1..], id)
  }

  // ----- checks --------------------------------------------------------------------------------

  function CheckError(cfg: Config, check: CheckContext): Checked<ActionError> {
    if check.name == "" then Fail(InvalidLiveSnapshot)
    else match check
      case CheckRun(_, completed, conclusion) =>
        Need(completed && conclusion in cfg.acceptedConclusions, CheckNotSuccessful)
      case CommitStatus(_, success) => Need(success, CheckNotSuccessful)
      case UnknownKind(_) => Fail(InvalidLiveSnapshot)
  }

  /** The first offending check in GitHub's order decides the error. */
  function FirstCheckError(cfg: Config, checks: seq<CheckContext>): Checked<ActionError> {
    if checks == [] then Pass
    else if CheckError(cfg, checks[0]).Fail? then CheckError(cfg, checks[0])
    else FirstCheckError(cfg, checks[1..])
  }

  function CheckNames(checks: seq<CheckContext>): set<string> {
    set i | 0 <= i < |checks| :: checks[i].name
  }

  function JudgeChecks(cfg: Config, checks: seq<CheckContext>): Result<ChecksState, ActionError> {
    if checks == [] then
      if cfg.requiredChecks != {} || !cfg.allowNoChecks then Err(RequiredChecksMissing) else Ok(NoChecks)
    else
      :- FirstCheckError(cfg, checks);
      :- Need(cfg.requiredChecks <= CheckNames(checks), RequiredChecksMissing);
      Ok(SuccessfulChecks)
  }

  lemma {:induction false} FirstCheckErrorAt(cfg: Config, checks: seq<CheckContext>, n: nat)
    requires n <= |checks|
    requires forall i | 0 <= i < n :: CheckError(cfg, checks[i]).Pass?
    ensures FirstCheckError(cfg, checks) == FirstCheckError(cfg, checks[n..])
  {
    if n > 0 {
      FirstCheckErrorAt(cfg, checks[1..], n - 1);
      assert checks[1..][n - 1..] == checks[n..];
    }
  }

  /** The check scan: one pass that stops at the first offending check and collects the names. */
  method ScanChecks(cfg: Config, checks: seq<CheckContext>) returns (verdict: Result<ChecksState, ActionError>)
    ensures verdict == JudgeChecks(cfg, checks)
  {
    if checks == [] {
      if cfg.requiredChecks != {} || !cfg.allowNoChecks {
        return Err(RequiredChecksMissing);
      }
      return Ok(NoChecks);
    }
    var names: set<string> := {};
    for n := 0 to |checks|
      invariant forall i | 0 <= i < n :: CheckError(cfg, checks[i]).Pass?
      invariant names == CheckNames(checks[..n])
    {
      FirstCheckErrorAt(cfg, checks, n);
      var check := checks[n];
      assert checks[n..][0] == check;
      if check.name == "" {
        return Err(InvalidLiveSnapshot);
      }
      names := names + {check.name};
      assert names == CheckNames(checks[..n + 1]) by {
        assert forall i | 0 <= i < n :: checks[..n][i].name == checks[..n + 1][i].name;
        assert checks[..n + 1][n].name == check.name;
      }
      match check {
        case CheckRun(_, completed, conclusion) =>
          if !completed || conclusion !in cfg.acceptedConclusions {
            return Err(CheckNotSuccessful);
          }
        case CommitStatus(_, success) =>
          if !success {
            return Err(CheckNotSuccessful);
          }
        case UnknownKind(_) =>
          return Err(InvalidLiveSnapshot);
      }
    }
    FirstCheckErrorAt(cfg, checks, |checks|);
    assert checks[..|checks|] == checks;
    if !(cfg.requiredChecks <= names) {
      return Err(RequiredChecksMissing);
    }
    return Ok(SuccessfulChecks);
  }

  // ----- evaluation ----------------------------------------------------------------------------

  /** The draft flag the packet recorded has already been cleared, and the caller tolerates that. */
  predicate ReadyAlready(packet: Packet, live: Snapshot, lenient: bool) {
    packet.action == MarkPrReady && lenient && packet.pr.isDraft && !live.pr.isDraft
  }

  function JudgeIdentity(cfg: Config, packet: Packet, live: Snapshot, lenient: bool): Checked<ActionError> {
    if live.repository != cfg.repository || live.repositoryId != cfg.repositoryId || packet.repo != cfg.repository then
      Fail(RepositoryMismatch)
    else if live.pr.number != packet.pr.number then Fail(PrNumberMismatch)
    else if live.pr.url != packet.pr.url then Fail(PrUrlMismatch)
    else if live.pr.baseBranch != packet.pr.baseBranch then Fail(PrBaseBranchMismatch)
    else if live.pr.head != packet.pr.head then Fail(PrHeadMismatch)
    else if live.pr.author != packet.pr.author then Fail(PrAuthorLoginMismatch)
    else if live.pr.isDraft != packet.pr.isDraft && !ReadyAlready(packet, live, lenient) then Fail(PrDraftMismatch)
    else if live.pr.state != Open then Fail(PrNotOpen)
    else if live.pr.baseBranch != cfg.defaultBranch then Fail(BaseBranchMismatch)
    else if live.pr.author != cfg.prAuthor then Fail(PrAuthorMismatch)
    else if !live.pr.sameRepositoryHead then Fail(CrossRepositoryHead)
    else if !IsOid(live.pr.head) then Fail(InvalidLiveSnapshot)
    else Pass
  }

  function JudgeFiles(cfg: Config, live: Snapshot): Checked<ActionError> {
    if exists i | 0 <= i < |live.files| :: !cfg.safePath(live.files[i]) then Fail(UnsafeChangedPath)
    else if exists i, j | 0 <= i < j < |live.files| :: live.files[i] == live.files[j] then Fail(DuplicateChangedPath)
    else if exists i | 0 <= i < |live.files| :: cfg.forbiddenPath(live.files[i]) then Fail(ForbiddenPathChanged)
    else if cfg.maximumChangedFiles == 0 || |live.files| > cfg.maximumChangedFiles then Fail(ChangedFileLimit)
    else if live.pr.changedFiles != |live.files| then Fail(ChangedFileCountMismatch)
    else Pass
  }

  function JudgeEvidence(cfg: Config, packet: Packet, live: Snapshot): Checked<ActionError> {
    var comment := live.comment;
    if comment.url != packet.evidenceUrl then Fail(EvidenceCommentMismatch)
    else if comment.author != cfg.prAuthor then Fail(EvidenceAuthorMismatch)
    else if packet.marker == "" || comment.marker != packet.marker then Fail(EvidenceMarkerMissing)
    else if comment.createdAt < packet.observedAt - cfg.maximumClockSkew
         || comment.createdAt > packet.createdAt + cfg.maximumClockSkew then Fail(EvidenceTimestampMismatch)
    else Pass
  }

  /** All that does not depend on the target; the value is the number of unresolved threads. */
  function JudgeSurroundings(cfg: Config, packet: Packet, live: Snapshot, lenient: bool): Result<nat, ActionError> {
    var identity := JudgeIdentity(cfg, packet, live, lenient);
    :- identity;
    :- JudgeFiles(cfg, live);
    var checks :- JudgeChecks(cfg, live.checks);
    :- Need(packet.checks == checks, ChecksStateMismatch);
    :- JudgeEvidence(cfg, packet, live);
    :- Need(ValidThreads(live.threads), InvalidLiveSnapshot);
    :- Need(live.unresolvedCount == Unresolved(live.threads), ThreadCountInconsistent);
    Ok(Unresolved(live.threads))
  }

  /** The target rules; the value says whether the requested state already holds. */
  function JudgeTarget(packet: Packet, live: Snapshot, lenient: bool): Result<bool, ActionError> {
    match packet.action
    case MarkPrReady =>
      var already := ReadyAlready(packet, live, lenient);
      :- Need(live.pr.isDraft || already, PrNotDraft);
      :- Need(Unresolved(live.threads) == 0 && packet.threadIds == [] && packet.threadUrls == [], MarkReadyThreadsPresent);
      Ok(already)
    case ResolveReviewThread =>
      :- Need(|packet.threadIds| == 1 && |packet.threadUrls| == 1, InvalidThreadTarget);
      var matches := Matching(live.threads, packet.threadIds[0]);
      :- Need(|matches| == 1, ThreadNotFound);
      var already := lenient && matches[0].isResolved;
      :- Need(!matches[0].isResolved || already, ThreadAlreadyResolved);
      :- Need(packet.threadUrls[0] in matches[0].urls, ThreadUrlMismatch);
      :- Need(matches[0].isOutdated, CurrentThreadRequiresVerifier);
      Ok(already)
  }

  /** The unresolved count the packet lets GitHub show, given whether its own thread is already resolved. */
  function ExpectedUnresolved(packet: Packet, already: bool): int {
    if already && packet.action == ResolveReviewThread then packet.unresolvedThreads - 1 else packet.unresolvedThreads
  }

  /** evaluate_snapshot; `lenient` is allow_already_satisfied. */
  function Evaluate(cfg: Config, packet: Packet, live: Snapshot, lenient: bool): Result<Evaluated, ActionError> {
    var unresolved :- JudgeSurroundings(cfg, packet, live, lenient);
    var already :- JudgeTarget(packet, live, lenient);
    :- Need(ExpectedUnresolved(packet, already) == unresolved, ThreadCountMismatch);
    var target := if packet.action == ResolveReviewThread then Some(packet.threadIds[0]) else None;
    Ok(Evaluated(
        packet.action,
        live.pr.number,
        live.pr.nodeId,
        live.pr.head,
        target,
        already,
        Before(live.pr, live.files, live.checks, live.comment, unresolved,
               if target.Some? then Some(TargetBefore(target.value, already, packet.threadUrls[0])) else None)))
  }

  /** desired_state_observed: the exact pull request at the exact head shows the requested state. */
  predicate Desired(packet: Packet, live: Snapshot) {
    && live.pr.number == packet.pr.number
    && live.pr.url == packet.pr.url
    && live.pr.head == packet.pr.head
    && live.pr.state == Open
    && match packet.action
       case MarkPrReady => !live.pr.isDraft
       case ResolveReviewThread =>
         && packet.threadIds != []
         && ValidThreads(live.threads)
         && var matches := Matching(live.threads, packet.threadIds[0]);
            |matches| == 1 && matches[0].isResolved
  }

  // ----- executing a mutation ------------------------------------------------------------------

  datatype Response =
    | TransportFailure
    | ReadyResponse(nodeId: string, number: int, head: string, state: PrState, isDraft: bool)
    | ThreadResponse(id: string, isResolved: bool)

  datatype Doubt =
    | ResponseMismatch
    | TransportIndeterminate
    | ReadbackUnavailable
    | HeadChangedDuringMutation
    | ReadbackPreconditionsChanged
    | ReadbackNotSatisfied

  datatype Execution = Verified(after: Snapshot) | Doubtful(doubt: Doubt)

  predicate ResponseMatches(evaluated: Evaluated, response: Response) {
    match evaluated.action
    case MarkPrReady =>
      && response.ReadyResponse?
      && response.nodeId == evaluated.prNodeId
      && response.number == evaluated.prNumber
      && response.head == evaluated.head
      && response.state == Open
      && !response.isDraft
    case ResolveReviewThread =>
      response.ThreadResponse? && evaluated.target == Some(response.id) && response.isResolved
  }

  /** execute_evaluated_action after the call: what the response and the readback together prove. */
  function JudgeExecution(cfg: Config, packet: Packet, evaluated: Evaluated, response: Response, readback: Fetch): Execution {
    if response.TransportFailure? then Doubtful(TransportIndeterminate)
    else if !ResponseMatches(evaluated, response) then Doubtful(ResponseMismatch)
    else match readback
      case Unavailable => Doubtful(ReadbackUnavailable)
      case Seen(after) =>
        if || after.pr.nodeId != evaluated.prNodeId
           || after.pr.number != evaluated.prNumber
           || after.pr.url != packet.pr.url
           || after.pr.state != Open
           || after.pr.head != evaluated.head
        then Doubtful(HeadChangedDuringMutation)
        else match Evaluate(cfg, packet, after, true)
          case Err(_) => Doubtful(ReadbackPreconditionsChanged)
          case Ok(confirmed) =>
            if !confirmed.alreadySatisfied || !Desired(packet, after) then Doubtful(ReadbackNotSatisfied)
            else Verified(after)
  }

  // ----- the readback fields of a receipt ------------------------------------------------------

  /** The target thread ids a snapshot shows as resolved (at most one). */
  function ResolvedTargets(packet: Packet, live: Snapshot): seq<string> {
    if && packet.action == ResolveReviewThread
       && packet.threadIds != []
       && exists i | 0 <= i < |live.threads| :: live.threads[i].id == packet.threadIds[0] && live.threads[i].isResolved
    then [packet.threadIds[0]]
    else []
  }

  /** The target thread ids of a verified readback: the first thread with the evaluated target's id decides. */
  function VerifiedTargets(target: Option<string>, after: Snapshot): seq<string> {
    if target.Some? && Matching(after.threads, target.value) != [] && Matching(after.threads, target.value)[0].isResolved
    then [target.value]
    else []
  }

  // ----- properties ----------------------------------------------------------------------------

  /** With unique ids, matching finds exactly the one thread at a known position. */
  lemma {:induction false} MatchingAt(threads: seq<ReviewThread>, k: nat, id: string)
    requires k < |threads| && threads[k].id == id
    requires forall i, j | 0 <= i < j < |threads| :: threads[i].id != threads[j].id
    ensures Matching(threads, id) == [threads[k]]
  {
    if k == 0 {
      MatchingNone(threads[1..], id);
    } else {
      MatchingAt(threads[1..], k - 1, id);
    }
  }

  lemma {:induction false} MatchingNone(threads: seq<ReviewThread>, id: string)
    requires forall i | 0 <= i < |threads| :: threads[i].id != id
    ensures Matching(threads, id) == []
  {
    if threads != [] {
      MatchingNone(threads[1..], id);
    }
  }

  /** Conversely, a match comes from some position. */
  lemma {:induction false} MatchingFrom(threads: seq<ReviewThread>, id: string) returns (k: nat)
    requires Matching(threads, id) != []
    ensures k < |threads| && threads[k].id == id && threads[k] == Matching(threads, id)[0]
  {
    if threads[0].id == id {
      k := 0;
    } else {
      k := MatchingFrom(threads[1..], id);
      k := k + 1;
    }
  }

  /** Resolving one unresolved thread lowers the unresolved count by exactly one. */
  lemma {:induction false} ResolvingLowersCount(threads: seq<ReviewThread>, k: nat)
    requires k < |threads| && !threads[k].isResolved
    ensures Unresolved(threads[k := threads[k].(isResolved := true)]) == Unresolved(threads) - 1
  {
    var resolved := threads[k := threads[k].(isResolved := true)];
    if k == 0 {
      assert resolved[1..] == threads[1..];
    } else {
      assert resolved[1..] == threads[1..][k - 1 := threads[k].(isResolved := true)];
      ResolvingLowersCount(threads[1..], k - 1);
    }
  }

  // ----- what evaluation accepts, said without an order of checks --------------------------------

  predicate IdentityHolds(cfg: Config, packet: Packet, live: Snapshot) {
    && live.repository == cfg.repository == packet.repo && live.repositoryId == cfg.repositoryId
    && live.pr.number == packet.pr.number && live.pr.url == packet.pr.url
    && live.pr.baseBranch == packet.pr.baseBranch == cfg.defaultBranch
    && live.pr.author == packet.pr.author == cfg.prAuthor
    && live.pr.head == packet.pr.head && IsOid(live.pr.head)
    && live.pr.state == Open && live.pr.sameRepositoryHead
  }

  predicate FilesHold(cfg: Config, live: Snapshot) {
    && |live.files| == live.pr.changedFiles && |live.files| <= cfg.maximumChangedFiles && 0 < cfg.maximumChangedFiles
    && (forall i | 0 <= i < |live.files| :: cfg.safePath(live.files[i]) && !cfg.forbiddenPath(live.files[i]))
    && (forall i, j | 0 <= i < j < |live.files| :: live.files[i] != live.files[j])
  }

  predicate CheckSucceeded(cfg: Config, check: CheckContext) {
    && check.name != ""
    && match check
       case CheckRun(_, completed, conclusion) => completed && conclusion in cfg.acceptedConclusions
       case CommitStatus(_, success) => success
       case UnknownKind(_) => false
  }

  predicate ChecksHold(cfg: Config, packet: Packet, live: Snapshot) {
    match packet.checks
    case NoChecks => live.checks == [] && cfg.requiredChecks == {} && cfg.allowNoChecks
    case SuccessfulChecks =>
      && live.checks != []
      && (forall i | 0 <= i < |live.checks| :: CheckSucceeded(cfg, live.checks[i]))
      && (forall name | name in cfg.requiredChecks :: exists i :: 0 <= i < |live.checks| && live.checks[i].name == name)
  }

  predicate EvidenceHolds(cfg: Config, packet: Packet, live: Snapshot) {
    && live.comment.url == packet.evidenceUrl && live.comment.author == cfg.prAuthor
    && live.comment.marker == packet.marker != ""
    && packet.observedAt - cfg.maximumClockSkew <= live.comment.createdAt <= packet.createdAt + cfg.maximumClockSkew
  }

  predicate TargetHolds(packet: Packet, live: Snapshot, lenient: bool) {
    match packet.action
    case MarkPrReady =>
      && packet.threadIds == [] && packet.threadUrls == []
      && packet.pr.isDraft && (live.pr.isDraft || lenient)
      && packet.unresolvedThreads == 0 == Unresolved(live.threads)
    case ResolveReviewThread =>
      && |packet.threadIds| == 1 == |packet.threadUrls|
      && live.pr.isDraft == packet.pr.isDraft
      && exists k :: 0 <= k < |live.threads| && TargetThreadHolds(packet, live, live.threads[k], lenient)
  }

  predicate TargetThreadHolds(packet: Packet, live: Snapshot, thread: ReviewThread, lenient: bool)
    requires |packet.threadIds| == 1 == |packet.threadUrls|
  {
    && thread.id == packet.threadIds[0] && thread.isOutdated && packet.threadUrls[0] in thread.urls
    && (thread.isResolved ==> lenient)
    && packet.unresolvedThreads == Unresolved(live.threads) + Indicator(thread.isResolved)
  }

  predicate Authorized(cfg: Config, packet: Packet, live: Snapshot, lenient: bool) {
    && IdentityHolds(cfg, packet, live) && FilesHold(cfg, live) && ChecksHold(cfg, packet, live) && EvidenceHolds(cfg, packet, live)
    && ValidThreads(live.threads) && live.unresolvedCount == Unresolved(live.threads)
    && TargetHolds(packet, live, lenient)
  }

  lemma {:induction false} FirstErrorPasses(cfg: Config, checks: seq<CheckContext>)
    ensures FirstCheckError(cfg, checks).Pass? <==> forall i | 0 <= i < |checks| :: CheckSucceeded(cfg, checks[i])
  {
    if checks != [] {
      FirstErrorPasses(cfg, checks[1..]);
      assert forall i | 0 <= i < |checks| :: i == 0 || checks[i] == checks[1..][i - 1];
    }
  }

  lemma ChecksAccepted(cfg: Config, packet: Packet, live: Snapshot)
    ensures JudgeChecks(cfg, live.checks) == Ok(packet.checks) <==> ChecksHold(cfg, packet, live)
  {
    FirstErrorPasses(cfg, live.checks);
    assert forall name :: name in CheckNames(live.checks) <==> exists i :: 0 <= i < |live.checks| && live.checks[i].name == name;
  }

  lemma SurroundingsAccepted(cfg: Config, packet: Packet, live: Snapshot, lenient: bool)
    ensures JudgeSurroundings(cfg, packet, live, lenient).Ok?
            <==> && IdentityHolds(cfg, packet, live) && FilesHold(cfg, live) && ChecksHold(cfg, packet, live)
                 && EvidenceHolds(cfg, packet, live)
                 && ValidThreads(live.threads) && live.unresolvedCount == Unresolved(live.threads)
                 && (live.pr.isDraft == packet.pr.isDraft || ReadyAlready(packet, live, lenient))
    ensures JudgeSurroundings(cfg, packet, live, lenient).Ok? ==>
              JudgeSurroundings(cfg, packet, live, lenient).value == Unresolved(live.threads)
  {
    hide JudgeChecks, ChecksHold, ValidThreads;
    ChecksAccepted(cfg, packet, live);
  }

  /** Evaluation accepts exactly the snapshots that meet the whole policy, whatever the order of its checks. */
  lemma EvaluateAcceptsIff(cfg: Config, packet: Packet, live: Snapshot, lenient: bool)
    ensures Evaluate(cfg, packet, live, lenient).Ok? <==> Authorized(cfg, packet, live, lenient)
  {
    hide IdentityHolds, FilesHold, ChecksHold, EvidenceHolds, JudgeSurroundings;
    SurroundingsAccepted(cfg, packet, live, lenient);
    if ValidThreads(live.threads) && packet.action == ResolveReviewThread && |packet.threadIds| == 1 {
      var id := packet.threadIds[0];
      if Matching(live.threads, id) != [] {
        var k := MatchingFrom(live.threads, id);
        MatchingAt(live.threads, k, id);
        assert forall i | 0 <= i < |live.threads| && live.threads[i].id == id :: i == k;
      } else if k :| 0 <= k < |live.threads| && live.threads[k].id == id {
        MatchingAt(live.threads, k, id);
      }
    }
  }

  /** Strict acceptance implies lenient acceptance, with the very same evaluation. */
  lemma StrictImpliesLenient(cfg: Config, packet: Packet, live: Snapshot)
    requires Evaluate(cfg, packet, live, false).Ok?
    ensures Evaluate(cfg, packet, live, true) == Evaluate(cfg, packet, live, false)
    ensures !Evaluate(cfg, packet, live, false).value.alreadySatisfied
  {
    var strict := JudgeTarget(packet, live, false);
    assert JudgeSurroundings(cfg, packet, live, false).Ok? && strict.Ok?;
    if packet.action == MarkPrReady {
      assert live.pr.isDraft;
    }
    assert JudgeIdentity(cfg, packet, live, true) == JudgeIdentity(cfg, packet, live, false);
    assert JudgeTarget(packet, live, true) == strict;
  }

  /** Whenever the lenient evaluation accepts, it reports "already satisfied" exactly when the desired state is observed. */
  lemma SatisfiedIffDesired(cfg: Config, packet: Packet, live: Snapshot)
    requires Evaluate(cfg, packet, live, true).Ok?
    ensures Evaluate(cfg, packet, live, true).value.alreadySatisfied <==> Desired(packet, live)
  {
    assert JudgeSurroundings(cfg, packet, live, true).Ok?;
    assert JudgeIdentity(cfg, packet, live, true).Pass?;
  }

  /** The state of GitHub after the requested mutation and nothing else. */
  function Achieved(packet: Packet, live: Snapshot): Snapshot
    requires packet.action == ResolveReviewThread ==>
               |packet.threadIds| == 1 && |Matching(live.threads, packet.threadIds[0])| == 1
  {
    match packet.action
    case MarkPrReady => live.(pr := live.pr.(isDraft := false))
    case ResolveReviewThread =>
      live.(threads := ResolveThread(live.threads, packet.threadIds[0]), unresolvedCount := live.unresolvedCount - 1)
  }

  function ResolveThread(threads: seq<ReviewThread>, id: string): seq<ReviewThread> {
    if threads == [] then []
    else [if threads[0].id == id then threads[0].(isResolved := true) else threads[0]] + ResolveThread(threads[1..], id)
  }

  /** With unique ids, resolving by id is an update at one position. */
  lemma {:induction false} ResolveThreadAt(threads: seq<ReviewThread>, k: nat)
    requires k < |threads|
    requires forall i, j | 0 <= i < j < |threads| :: threads[i].id != threads[j].id
    ensures ResolveThread(threads, threads[k].id) == threads[k := threads[k].(isResolved := true)]
  {
    if k == 0 {
      ResolveThreadElsewhere(threads[1..], threads[0].id);
    } else {
      ResolveThreadAt(threads[1..], k - 1);
    }
  }

  lemma {:induction false} ResolveThreadElsewhere(threads: seq<ReviewThread>, id: string)
    requires forall i | 0 <= i < |threads| :: threads[i].id != id
    ensures ResolveThread(threads, id) == threads
  {
    if threads != [] {
      ResolveThreadElsewhere(threads[1..], id);
    }
  }

  /**
   Readback frame: when a snapshot is authorized and unsatisfied, the snapshot that differs only by
   the requested mutation is leniently accepted as already satisfied, at the same head.
   */
  lemma ReadbackFrame(cfg: Config, packet: Packet, live: Snapshot)
    requires Evaluate(cfg, packet, live, true).Ok? && !Evaluate(cfg, packet, live, true).value.alreadySatisfied
    ensures packet.action == ResolveReviewThread ==>
              |packet.threadIds| == 1 && |Matching(live.threads, packet.threadIds[0])| == 1
    ensures Desired(packet, Achieved(packet, live))
    ensures var after := Evaluate(cfg, packet, Achieved(packet, live), true);
            after.Ok? && after.value.alreadySatisfied && after.value.head == packet.pr.head
  {
    var after := Achieved(packet, live);
    assert JudgeSurroundings(cfg, packet, live, true).Ok?;
    match packet.action {
      case MarkPrReady =>
        assert live.pr.isDraft;
      case ResolveReviewThread =>
        var id := packet.threadIds[0];
        var k := MatchingFrom(live.threads, id);
        ResolveThreadAt(live.threads, k);
        ResolvingLowersCount(live.threads, k);
        ThreadsStayValid(live.threads, k);
        MatchingAt(after.threads, k, id);
        assert JudgeTarget(packet, after, true) == Ok(true);
    }
    assert JudgeSurroundings(cfg, packet, after, true).Ok?;
    SatisfiedIffDesired(cfg, packet, after);
  }

  lemma ThreadsStayValid(threads: seq<ReviewThread>, k: nat)
    requires k < |threads| && ValidThreads(threads)
    ensures ValidThreads(threads[k := threads[k].(isResolved := true)])
  {
  }

  /** The response GitHub gives when it applies exactly the requested mutation. */
  function FaithfulResponse(evaluated: Evaluated): Response
    requires evaluated.action == ResolveReviewThread ==> evaluated.target.Some?
  {
    match evaluated.action
    case MarkPrReady => ReadyResponse(evaluated.prNodeId, evaluated.prNumber, evaluated.head, Open, false)
    case ResolveReviewThread => ThreadResponse(evaluated.target.value, true)
  }

  /** An authorized mutation that GitHub applies, and nothing else changes, is always read back as verified. */
  lemma FaithfulMutationVerifies(cfg: Config, packet: Packet, live: Snapshot)
    requires Evaluate(cfg, packet, live, true).Ok? && !Evaluate(cfg, packet, live, true).value.alreadySatisfied
    ensures packet.action == ResolveReviewThread ==>
              |packet.threadIds| == 1 && |Matching(live.threads, packet.threadIds[0])| == 1
    ensures var evaluated := Evaluate(cfg, packet, live, true).value;
            (evaluated.action == ResolveReviewThread ==> evaluated.target.Some?)
            && JudgeExecution(cfg, packet, evaluated, FaithfulResponse(evaluated), Seen(Achieved(packet, live)))
                 == Verified(Achieved(packet, live))
  {
    ReadbackFrame(cfg, packet, live);
    var evaluated := Evaluate(cfg, packet, live, true).value;
    var after := Achieved(packet, live);
    assert after.pr.nodeId == evaluated.prNodeId && after.pr.url == packet.pr.url && after.pr.head == evaluated.head;
  }

  /** A verified execution was read back as authorized and satisfied at the packet's exact head and target. */
  lemma VerifiedMeansSatisfied(cfg: Config, packet: Packet, evaluated: Evaluated, response: Response, readback: Fetch)
    requires JudgeExecution(cfg, packet, evaluated, response, readback).Verified?
    ensures readback == Seen(JudgeExecution(cfg, packet, evaluated, response, readback).after)
    ensures var after := JudgeExecution(cfg, packet, evaluated, response, readback).after;
            && Evaluate(cfg, packet, after, true).Ok?
            && Evaluate(cfg, packet, after, true).value.alreadySatisfied
            && ConfirmedReadback(packet, after)
  {
    SatisfiedReadback(cfg, packet, readback.snapshot);
  }

  /** What a receipt must be able to show of a satisfied snapshot: exact head, and the exact target state. */
  predicate ConfirmedReadback(packet: Packet, live: Snapshot) {
    && live.pr.head == packet.pr.head
    && match packet.action
       case MarkPrReady => !live.pr.isDraft && ResolvedTargets(packet, live) == []
       case ResolveReviewThread =>
         && ResolvedTargets(packet, live) == packet.threadIds
         && |packet.threadIds| == 1
         && VerifiedTargets(Some(packet.threadIds[0]), live) == packet.threadIds
  }

  /** Every snapshot accepted as already satisfied supplies the readback facts a success receipt needs. */
  lemma SatisfiedReadback(cfg: Config, packet: Packet, live: Snapshot)
    requires Evaluate(cfg, packet, live, true).Ok? && Evaluate(cfg, packet, live, true).value.alreadySatisfied
    ensures ConfirmedReadback(packet, live)
  {
    SatisfiedIffDesired(cfg, packet, live);
    assert JudgeSurroundings(cfg, packet, live, true).Ok?;
    if packet.action == ResolveReviewThread {
      var k := MatchingFrom(live.threads, packet.threadIds[0]);
      assert live.threads[k].isResolved;
      assert packet.threadIds == [packet.threadIds[0]];
    }
  }
}
