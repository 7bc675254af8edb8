/**
 Protected-action packets and the broker configuration they are checked against
 (broker/john_lomein_broker_protocol.py).  Schema and regular-expression checks are done before
 a packet takes this form; what remains are the fields the broker's decisions read.
 */
module Packets {

  const MIN_PACKET_TTL_SECONDS := 60
  const MAX_PACKET_TTL_SECONDS := 3600
  const MAX_CLOCK_SKEW_SECONDS := 300

  datatype Action = MarkPrReady | ResolveReviewThread

  datatype ChecksState = SuccessfulChecks | NoChecks

  datatype PullRequest = PullRequest(
    number: int,
    url: string,
    baseBranch: string,
    head: string,
    author: string,
    isDraft: bool)

  datatype Packet = Packet(
    id: string,
    digest: string,
    slug: string,
    action: Action,
    repo: string,
    pr: PullRequest,
    checks: ChecksState,
    unresolvedThreads: int,
    evidenceUrl: string,
    marker: string,
    observedAt: int,
    createdAt: int,
    expiresAt: int,
    threadIds: seq<string>,
    threadUrls: seq<string>)

  /** The limits a broker database is bound to for its whole life. */
  datatype Limits = Limits(
    requestsPerHour: nat,
    dailyMutations: nat,
    markReadyPerDay: nat,
    reviewThreadsPerDay: nat,
    indeterminateLimit: nat)
  {
    function ActionDailyLimit(action: Action): nat {
      match action
      case MarkPrReady => markReadyPerDay
      case ResolveReviewThread => reviewThreadsPerDay
    }
  }

  /** The normalized configuration.  The two path policies are patterns of another library, so they are parameters. */
  datatype Config = Config(
    enabled: bool,
    slug: string,
    repository: string,
    repositoryId: int,
    defaultBranch: string,
    allowedActions: set<Action>,
    prAuthor: string,
    requiredChecks: set<string>,
    allowNoChecks: bool,
    acceptedConclusions: set<string>,
    safePath: string -> bool,
    forbiddenPath: string -> bool,
    maximumChangedFiles: nat,
    maximumPacketTtl: nat,
    maximumClockSkew: nat,
    limits: Limits)

  /** What normalize_config guarantees about the numbers the broker relies on. */
  predicate ValidConfig(cfg: Config) {
    && cfg.maximumClockSkew <= MAX_CLOCK_SKEW_SECONDS
    && MIN_PACKET_TTL_SECONDS <= cfg.maximumPacketTtl <= MAX_PACKET_TTL_SECONDS
    && 1 <= cfg.limits.indeterminateLimit
  }

  /** An object id: 40 or 64 lower-case hexadecimal digits. */
  predicate IsOid(text: string) {
    && (|text| == 40 || |text| == 64)
    && forall i | 0 <= i < |text| :: '0' <= text[i] <= '9' || 'a' <= text[i] <= 'f'
  }

  /** The target rules that both the protocol layer and the store enforce. */
  predicate TargetsFitAction(packet: Packet) {
    match packet.action
    case MarkPrReady => packet.threadIds == []
    case ResolveReviewThread => |packet.threadIds| == 1
  }

  /** Everything the protocol layer requires of a packet apart from the acceptance window. */
  predicate WellFormed(cfg: Config, packet: Packet) {
    && cfg.enabled
    && MIN_PACKET_TTL_SECONDS <= packet.expiresAt - packet.createdAt <= cfg.maximumPacketTtl
    && packet.slug == cfg.slug
    && packet.repo == cfg.repository
    && packet.pr.baseBranch == cfg.defaultBranch
    && packet.pr.author == cfg.prAuthor
    && IsOid(packet.pr.head)
    && packet.action in cfg.allowedActions
    && (packet.checks == NoChecks ==> cfg.allowNoChecks)
    && |packet.threadIds| == |packet.threadUrls|
    && (forall i | 0 <= i < |packet.threadIds| :: packet.threadIds[i] != "")
    && TargetsFitAction(packet)
    && (packet.action == MarkPrReady ==> packet.pr.isDraft && packet.unresolvedThreads == 0)
    && (packet.action == ResolveReviewThread ==> 1 <= packet.unresolvedThreads)
  }

  /** normalize_submission at time `now`: the packet is well formed, not from the future and not expired. */
  predicate Accepted(cfg: Config, packet: Packet, now: int) {
    && WellFormed(cfg, packet)
    && packet.createdAt <= now + cfg.maximumClockSkew
    && now < packet.expiresAt
  }
}
