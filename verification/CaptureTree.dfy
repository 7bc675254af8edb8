/**
 A captured file tree, the policy it must meet, and what an inventory of it says
 (qualification_attestor/john_lomein_persona_qualification_capture_adoption.py).

 A directory is the sorted listing of its entries.  The tree is a value that the operations replace
 piece by piece; a regular file with more than one link is refused, so no two places share a file.
 */
module CaptureTree {
  import opened Outcomes

  type Bytes = seq<bv8>

  // permission bits, written in octal in the program: 0o500, 0o400, 0o700, 0o600, 0o550, 0o440
  const PROVISIONAL_DIRECTORY_MODE := 0x140
  const PROVISIONAL_FILE_MODE := 0x100
  const BUILDING_DIRECTORY_MODE := 0x1C0
  const BUILDING_FILE_MODE := 0x180
  const ADOPTED_DIRECTORY_MODE := 0x168
  const ADOPTED_FILE_MODE := 0x120

  const MAX_CAPTURE_FILES := 4096
  const MAX_CAPTURE_DIRECTORIES := 4096
  const MAX_CAPTURE_BYTES := 128 * 1024 * 1024
  const MAX_CAPTURE_FILE_BYTES := 16 * 1024 * 1024
  const MAX_CAPTURE_DEPTH := 64

  datatype Attr = Attr(uid: int, gid: int, mode: nat, device: int)

  datatype Node =
    | FileNode(attr: Attr, links: nat, content: Bytes)
    | DirNode(attr: Attr, entries: seq<Entry>)
    | SpecialNode

  datatype Entry = Entry(name: string, node: Node)

  datatype Limits = Limits(maxFiles: nat, maxDirectories: nat, maxBytes: nat, maxFileBytes: nat, maxDepth: nat)

  const GLOBAL_LIMITS :=
    Limits(MAX_CAPTURE_FILES, MAX_CAPTURE_DIRECTORIES, MAX_CAPTURE_BYTES, MAX_CAPTURE_FILE_BYTES, MAX_CAPTURE_DEPTH)

  /** Unicode case folding and the NFC test are another library's; they are parameters. */
  datatype Naming = Naming(fold: string -> string, composed: string -> bool)

  datatype Owner = Owner(uid: int, gid: int, directoryMode: nat, fileMode: nat)

  /** The three programs that take an inventory: the adoption itself, its recovery and the binding verifier. */
  datatype Reader = Adopting | Recovering | Binding

  datatype Rules = Rules(reader: Reader, limits: Limits, naming: Naming, owner: Owner, device: int)

  // ----- totals --------------------------------------------------------------------------------

  function Max(a: nat, b: nat): nat {
    if a < b then b else a
  }

  datatype Totals = Totals(files: nat, directories: nat, bytes: nat, largest: nat, deepest: nat)

  const NOTHING := Totals(0, 0, 0, 0, 0)

  function Plus(a: Totals, b: Totals): Totals {
    Totals(a.files + b.files, a.directories + b.directories, a.bytes + b.bytes, Max(a.largest, b.largest), Max(a.deepest, b.deepest))
  }

  /** Files, directories and bytes of a tree, its largest file and the depth of its deepest directory. */
  function Tally(node: Node, depth: nat): Totals
    decreases node
  {
    match node
    case FileNode(_, _, content) => Totals(1, 0, |content|, |content|, 0)
    case DirNode(_, entries) => Plus(Totals(0, 1, 0, 0, depth), TallyIn(entries, depth + 1))
    case SpecialNode => NOTHING
  }

  function TallyIn(entries: seq<Entry>, depth: nat): Totals
    decreases entries
  {
    if entries == [] then NOTHING
    else Plus(TallyIn(entries[..|entries| - 1], depth), Tally(entries[|entries| - 1].node, depth))
  }

  predicate Within(limits: Limits, totals: Totals) {
    totals.files <= limits.maxFiles && totals.directories <= limits.maxDirectories && totals.bytes <= limits.maxBytes
  }

  predicate NoMore(a: Totals, b: Totals) {
    && a.files <= b.files && a.directories <= b.directories && a.bytes <= b.bytes
    && a.largest <= b.largest && a.deepest <= b.deepest
  }

  lemma PlusAssociates(a: Totals, b: Totals, c: Totals)
    ensures Plus(Plus(a, b), c) == Plus(a, Plus(b, c))
    ensures Plus(a, NOTHING) == a == Plus(NOTHING, a)
    ensures NoMore(a, Plus(a, b)) && NoMore(b, Plus(a, b))
  {
  }

  lemma {:induction false} TallySplits(a: seq<Entry>, b: seq<Entry>, depth: nat)
    ensures TallyIn(a + b, depth) == Plus(TallyIn(a, depth), TallyIn(b, depth))
  {
    hide Tally, Plus;
    if b == [] {
      assert a + b == a;
      PlusAssociates(TallyIn(a, depth), NOTHING, NOTHING);
    } else {
      var last := b[|b| - 1];
      assert (a + b)[..|a + b| - 1] == a + b[..|b| - 1];
      assert (a + b)[|a + b| - 1] == last;
      TallySplits(a, b[..|b| - 1], depth);
      PlusAssociates(TallyIn(a, depth), TallyIn(b[..|b| - 1], depth), Tally(last.node, depth));
    }
  }

  lemma TallyPrefix(entries: seq<Entry>, n: nat, depth: nat)
    requires n < |entries|
    ensures TallyIn(entries[..n + 1], depth) == Plus(TallyIn(entries[..n], depth), Tally(entries[n].node, depth))
    ensures NoMore(TallyIn(entries[..n + 1], depth), TallyIn(entries, depth))
  {
    hide Tally, Plus;
    assert entries[..n + 1][..n] == entries[..n];
    assert entries == entries[..n + 1] + entries[n + 1..];
    TallySplits(entries[..n + 1], entries[n + 1..], depth);
    PlusAssociates(TallyIn(entries[..n + 1], depth), TallyIn(entries[n + 1..], depth), NOTHING);
  }

  /** Every entry of a directory without special files counts as at least one file or directory. */
  lemma {:induction false} EntriesAreCounted(entries: seq<Entry>, depth: nat)
    requires forall i | 0 <= i < |entries| :: entries[i].node.FileNode? || entries[i].node.DirNode?
    ensures |entries| <= TallyIn(entries, depth).files + TallyIn(entries, depth).directories
  {
    if entries != [] {
      EntriesAreCounted(entries[..|entries| - 1], depth);
    }
  }

  // ----- the policy of a whole tree ------------------------------------------------------------

  predicate NameValid(naming: Naming, name: string) {
    && name != "" && name != "." && name != ".."
    && '/' !in name && '\0' !in name
    && naming.composed(name)
  }

  /** Entry names of one directory; the adoption refuses names that differ in case alone, the binding verifier equal ones. */
  predicate NamesOk(reader: Reader, naming: Naming, entries: seq<Entry>) {
    && (forall i | 0 <= i < |entries| :: NameValid(naming, entries[i].name))
    && (reader == Adopting ==>
          forall i, j | 0 <= i < j < |entries| :: naming.fold(entries[i].name) != naming.fold(entries[j].name))
    && (reader == Binding ==> forall i, j | 0 <= i < j < |entries| :: entries[i].name != entries[j].name)
  }

  predicate HasOwner(attr: Attr, owner: Owner, mode: nat, device: int) {
    attr == Attr(owner.uid, owner.gid, mode, device)
  }

  predicate FileAcceptable(rules: Rules, node: Node) {
    && node.FileNode?
    && HasOwner(node.attr, rules.owner, rules.owner.fileMode, rules.device)
    && node.links == 1
    && |node.content| <= rules.limits.maxFileBytes
  }

  /** Identity, mode, device, size, depth and names, at every node. */
  predicate Acceptable(rules: Rules, node: Node, depth: nat) {
    match node
    case FileNode(_, _, _) => FileAcceptable(rules, node)
    case DirNode(attr, entries) =>
      && depth <= rules.limits.maxDepth
      && HasOwner(attr, rules.owner, rules.owner.directoryMode, rules.device)
      && NamesOk(rules.reader, rules.naming, entries)
      && forall i | 0 <= i < |entries| :: Acceptable(rules, entries[i].node, depth + 1)
    case SpecialNode => false
  }

  /** What an inventory accepts, said of the tree as a whole. */
  predicate MeetsPolicy(rules: Rules, tree: Node) {
    tree.DirNode? && Acceptable(rules, tree, 0) && Within(rules.limits, Tally(tree, 0))
  }

  // ----- the records of an inventory -----------------------------------------------------------

  datatype ContentDigest = ContentDigest(content: Bytes)

  datatype Record = DirRecord(path: string) | FileRecord(path: string, size: nat, sha256: ContentDigest)

  function Join(prefix: string, name: string): string {
    if prefix == "" then name else prefix + "/" + name
  }

  function RecordsOf(node: Node, path: string): seq<Record>
    decreases node
  {
    match node
    case FileNode(_, _, content) => [FileRecord(path, |content|, ContentDigest(content))]
    case DirNode(_, entries) => [DirRecord(path)] + RecordsIn(entries, path)
    case SpecialNode => []
  }

  function RecordsIn(entries: seq<Entry>, path: string): seq<Record>
    decreases entries
  {
    if entries == [] then []
    else
      var last := entries[|entries| - 1];
      RecordsIn(entries[..|entries| - 1], path) + RecordsOf(last.node, Join(path, last.name))
  }
}
