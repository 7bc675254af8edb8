/**
 What the records of an inventory determine: the tree's content at every path, and the depth and size
 facts that john_lomein_persona_qualification_adoption_binding.py recomputes from them and
 john_lomein_persona_qualification_adoption_reconciliation.py checks for consistency.
 */
module CaptureRecords {
  import opened Outcomes
  import opened CaptureTree

  // ----- paths ---------------------------------------------------------------------------------

  /** Entry names as a file system guarantees them: no slash, not empty, distinct in each directory. */
  predicate Named(node: Node) {
    node.DirNode? ==>
      && (forall i | 0 <= i < |node.entries| :: IsName(node.entries[i].name) && Named(node.entries[i].node))
      && (forall i, j | 0 <= i < j < |node.entries| :: node.entries[i].name != node.entries[j].name)
  }

  predicate IsName(name: string) {
    name != "" && '/' !in name
  }

  predicate AreNames(parts: seq<string>) {
    forall i | 0 <= i < |parts| :: IsName(parts[i])
  }

  function PathOf(parts: seq<string>): string {
    if parts == [] then "" else Join(PathOf(parts[..|parts| - 1]), parts[|parts| - 1])
  }

  /** What follows the last slash. */
  function Leaf(path: string): string {
    if path == "" || path[|path| - 1] == '/' then "" else Leaf(path[..|path| - 1]) + [path[|path| - 1]]
  }

  lemma {:induction false} LeafOfJoin(prefix: string, name: string)
    requires '/' !in name && (prefix == "" || prefix[|prefix| - 1] == '/')
    ensures Leaf(prefix + name) == name
  {
    if name == "" {
      assert prefix + name == prefix;
    } else {
      assert (prefix + name)[..|prefix + name| - 1] == prefix + name[..|name| - 1];
      LeafOfJoin(prefix, name[..|name| - 1]);
    }
  }

  lemma JoinIsInjective(a: string, x: string, b: string, y: string)
    requires IsName(x) && IsName(y) && Join(a, x) == Join(b, y)
    ensures a == b && x == y
  {
    LeafOfJoin(if a == "" then "" else a + "/", x);
    LeafOfJoin(if b == "" then "" else b + "/", y);
    assert "" + x == x && "" + y == y;
    assert x == y;
    assert a == Join(a, x)[..|a|];
    assert b == Join(b, y)[..|b|];
  }

  /** Different places have different paths. */
  lemma {:induction false} PathIsInjective(p: seq<string>, q: seq<string>)
    requires AreNames(p) && AreNames(q) && PathOf(p) == PathOf(q)
    ensures p == q
  {
    if p != [] && q != [] {
      JoinIsInjective(PathOf(p[..|p| - 1]), p[|p| - 1], PathOf(q[..|q| - 1]), q[|q| - 1]);
      PathIsInjective(p[..|p| - 1], q[..|q| - 1]);
      assert p == p[..|p| - 1] + [p[|p| - 1]];
      assert q == q[..|q| - 1] + [q[|q| - 1]];
    }
  }

  // ----- looking a path up ---------------------------------------------------------------------

  /** The first n entries, searched from the last. */
  function Find(entries: seq<Entry>, name: string): Option<Node> {
    if entries == [] then None
    else
      var last := entries[|entries| - 1];
      if last.name == name then Some(last.node) else Find(entries[..|entries| - 1], name)
  }

  function At(node: Node, parts: seq<string>): Option<Node>
    decreases |parts|
  {
    if parts == [] then Some(node)
    else if !node.DirNode? then None
    else match Find(node.entries, parts[0])
      case None => None
      case Some(child) => At(child, parts[1..])
  }

  /** The record of one file or directory at a path. */
  function RecordFor(node: Node, path: string): Record
    requires !node.SpecialNode?
  {
    match node
    case FileNode(_, _, content) => FileRecord(path, |content|, ContentDigest(content))
    case DirNode(_, _) => DirRecord(path)
  }

  lemma {:induction false} FindFinds(entries: seq<Entry>, name: string)
    ensures Find(entries, name).Some? ==> exists i :: 0 <= i < |entries| && entries[i] == Entry(name, Find(entries, name).value)
  {
    if entries != [] {
      var prefix := entries[..|entries| - 1];
      if entries[|entries| - 1].name == name {
        assert entries[|entries| - 1] == Entry(name, Find(entries, name).value);
      } else {
        FindFinds(prefix, name);
        if Find(prefix, name).Some? {
          var i :| 0 <= i < |prefix| && prefix[i] == Entry(name, Find(prefix, name).value);
          assert entries[i] == prefix[i];
        }
      }
    }
  }

  lemma {:induction false} FindHasEntry(entries: seq<Entry>, i: nat)
    requires i < |entries|
    requires forall i, j | 0 <= i < j < |entries| :: entries[i].name != entries[j].name
    ensures Find(entries, entries[i].name) == Some(entries[i].node)
  {
    if i < |entries| - 1 {
      assert entries[..|entries| - 1][i] == entries[i];
      FindHasEntry(entries[..|entries| - 1], i);
    }
  }

  lemma {:induction false} EntryRecords(entries: seq<Entry>, path: string, i: nat, r: Record)
    requires i < |entries| && r in RecordsOf(entries[i].node, Join(path, entries[i].name))
    ensures r in RecordsIn(entries, path)
  {
    if i < |entries| - 1 {
      assert entries[..|entries| - 1][i] == entries[i];
      EntryRecords(entries[..|entries| - 1], path, i, r);
    }
  }

  lemma {:induction false} RecordHasEntry(entries: seq<Entry>, path: string, r: Record) returns (i: nat)
    requires r in RecordsIn(entries, path)
    ensures i < |entries| && r in RecordsOf(entries[i].node, Join(path, entries[i].name))
  {
    i := |entries| - 1;
    if r !in RecordsOf(entries[i].node, Join(path, entries[i].name)) {
      var k := RecordHasEntry(entries[..i], path, r);
      assert entries[..i][k] == entries[k];
      i := k;
    }
  }

  lemma PathExtends(base: seq<string>, parts: seq<string>)
    requires parts != []
    ensures PathOf(base + [parts[0]]) == Join(PathOf(base), parts[0])
    ensures base + [parts[0]] + parts[1..] == base + parts
  {
  }

  /** Whatever is at a path is recorded there. */
  lemma {:induction false} PlaceIsRecorded(node: Node, base: seq<string>, parts: seq<string>)
    requires At(node, parts).Some? && !At(node, parts).value.SpecialNode?
    ensures RecordFor(At(node, parts).value, PathOf(base + parts)) in RecordsOf(node, PathOf(base))
    decreases |parts|
  {
    if parts == [] {
      assert base + parts == base;
    } else {
      var name := parts[0];
      FindFinds(node.entries, name);
      var child := Find(node.entries, name).value;
      var i :| 0 <= i < |node.entries| && node.entries[i] == Entry(name, child);
      PathExtends(base, parts);
      PlaceIsRecorded(child, base + [name], parts[1..]);
      EntryRecords(node.entries, PathOf(base), i, RecordFor(At(node, parts).value, PathOf(base + parts)));
    }
  }

  lemma PlaceBelow(node: Node, base: seq<string>, i: nat, below: seq<string>)
    requires node.DirNode? && Named(node) && i < |node.entries|
    ensures var name := node.entries[i].name;
            && At(node, [name] + below) == At(node.entries[i].node, below)
            && PathOf(base + [name]) == Join(PathOf(base), name)
            && base + ([name] + below) == base + [name] + below
  {
    hide RecordsOf, RecordsIn, PathOf;
    var name := node.entries[i].name;
    FindHasEntry(node.entries, i);
    assert ([name] + below)[1..] == below;
    PathExtends(base, [name]);
  }

  /** Whatever is recorded is at its path. */
  lemma {:induction false} RecordHasPlace(node: Node, base: seq<string>, r: Record) returns (parts: seq<string>)
    requires Named(node) && r in RecordsOf(node, PathOf(base))
    ensures AreNames(parts) && At(node, parts).Some? && !At(node, parts).value.SpecialNode?
    ensures r == RecordFor(At(node, parts).value, PathOf(base + parts))
    decreases node
  {
    hide PathOf, Find, RecordsIn, Join;
    parts := [];
    assert base + parts == base;
    if node.DirNode? && r != DirRecord(PathOf(base)) {
      var i := RecordHasEntry(node.entries, PathOf(base), r);
      PlaceBelow(node, base, i, []);
      var below := RecordHasPlace(node.entries[i].node, base + [node.entries[i].name], r);
      PlaceBelow(node, base, i, below);
      parts := [node.entries[i].name] + below;
    }
  }

  predicate SameContent(a: Option<Node>, b: Option<Node>) {
    match (a, b)
    case (None, None) => true
    case (Some(DirNode(_, _)), Some(DirNode(_, _))) => true
    case (Some(FileNode(_, _, one)), Some(FileNode(_, _, two))) => one == two
    case _ => false
  }

  predicate NoSpecial(node: Node) {
    match node
    case FileNode(_, _, _) => true
    case DirNode(_, entries) => forall i | 0 <= i < |entries| :: NoSpecial(entries[i].node)
    case SpecialNode => false
  }

  lemma {:induction false} PlacesAreNotSpecial(node: Node, parts: seq<string>)
    requires NoSpecial(node) && At(node, parts).Some?
    ensures NoSpecial(At(node, parts).value)
    decreases |parts|
  {
    if parts != [] {
      FindFinds(node.entries, parts[0]);
      PlacesAreNotSpecial(Find(node.entries, parts[0]).value, parts[1..]);
    }
  }

  lemma OneSide(a: Node, b: Node, parts: seq<string>)
    requires NoSpecial(a) && Named(b) && AreNames(parts)
    requires forall r :: r in RecordsOf(a, "") ==> r in RecordsOf(b, "")
    ensures At(a, parts).Some? ==> SameContent(At(a, parts), At(b, parts))
  {
    if At(a, parts).Some? {
      PlacesAreNotSpecial(a, parts);
      PlaceIsRecorded(a, [], parts);
      assert [] + parts == parts;
      var q := RecordHasPlace(b, [], RecordFor(At(a, parts).value, PathOf(parts)));
      assert [] + q == q;
      PathIsInjective(parts, q);
    }
  }

  /** Two captures with the same set of records hold the same thing at every path. */
  lemma RecordsDetermineContent(a: Node, b: Node, parts: seq<string>)
    requires NoSpecial(a) && NoSpecial(b) && Named(a) && Named(b) && AreNames(parts)
    requires forall r :: r in RecordsOf(a, "") <==> r in RecordsOf(b, "")
    ensures SameContent(At(a, parts), At(b, parts))
  {
    OneSide(a, b, parts);
    OneSide(b, a, parts);
  }

  /** A path names one record, so the order by path leaves nothing open. */
  lemma OneRecordPerPath(tree: Node, r: Record, other: Record)
    requires Named(tree) && r in RecordsOf(tree, "") && other in RecordsOf(tree, "") && r.path == other.path
    ensures r == other
  {
    var p := RecordHasPlace(tree, [], r);
    var q := RecordHasPlace(tree, [], other);
    assert [] + p == p && [] + q == q;
    PathIsInjective(p, q);
  }

  // ----- facts recomputed from the records -----------------------------------------------------

  function Slashes(path: string): nat {
    if path == "" then 0 else Slashes(path[..|path| - 1]) + Indicator(path[|path| - 1] == '/')
  }

  /** The number of components of a relative path. */
  function PartCount(path: string): nat {
    if path == "" then 0 else 1 + Slashes(path)
  }

  function LargestIn(records: seq<Record>): nat {
    if records == [] then 0
    else
      var last := records[|records| - 1];
      Max(LargestIn(records[..|records| - 1]), if last.FileRecord? then last.size else 0)
  }

  function DeepestIn(records: seq<Record>): nat {
    if records == [] then 0
    else
      var last := records[|records| - 1];
      Max(DeepestIn(records[..|records| - 1]), if last.DirRecord? then PartCount(last.path) else 0)
  }

  lemma {:induction false} SlashesSplit(a: string, b: string)
    ensures Slashes(a + b) == Slashes(a) + Slashes(b)
  {
    if b == [] {
      assert a + b == a;
    } else {
      assert (a + b)[..|a + b| - 1] == a + b[..|b| - 1];
      SlashesSplit(a, b[..|b| - 1]);
    }
  }

  lemma {:induction false} NameHasNoSlashes(name: string)
    requires '/' !in name
    ensures Slashes(name) == 0
  {
    if name != "" {
      NameHasNoSlashes(name[..|name| - 1]);
    }
  }

  lemma JoinAddsPart(path: string, name: string)
    requires IsName(name)
    ensures PartCount(Join(path, name)) == PartCount(path) + 1
  {
    NameHasNoSlashes(name);
    if path != "" {
      SlashesSplit(path + "/", name);
      SlashesSplit(path, "/");
      assert Slashes("/") == 1;
    }
  }

  lemma {:induction false} FactsSplit(a: seq<Record>, b: seq<Record>)
    ensures LargestIn(a + b) == Max(LargestIn(a), LargestIn(b))
    ensures DeepestIn(a + b) == Max(DeepestIn(a), DeepestIn(b))
  {
    if b == [] {
      assert a + b == a;
    } else {
      assert (a + b)[..|a + b| - 1] == a + b[..|b| - 1];
      FactsSplit(a, b[..|b| - 1]);
    }
  }

  /** The facts recomputed from the records are the ones the recovery's counters kept. */
  lemma {:induction false} RecomputedFactsAgree(node: Node, path: string)
    requires Named(node)
    ensures LargestIn(RecordsOf(node, path)) == Tally(node, PartCount(path)).largest
    ensures DeepestIn(RecordsOf(node, path)) == Tally(node, PartCount(path)).deepest
    decreases node, 1
  {
    match node {
      case DirNode(_, entries) =>
        ListingFactsAgree(node, path, |entries|);
        assert entries[..|entries|] == entries;
        FactsSplit([DirRecord(path)], RecordsIn(entries, path));
        OneRecord(DirRecord(path));
      case FileNode(_, _, content) => OneRecord(FileRecord(path, |content|, ContentDigest(content)));
      case SpecialNode =>
    }
  }

  lemma OneRecord(record: Record)
    ensures LargestIn([record]) == if record.FileRecord? then record.size else 0
    ensures DeepestIn([record]) == if record.DirRecord? then PartCount(record.path) else 0
  {
  }

  lemma {:induction false} ListingFactsAgree(node: Node, path: string, n: nat)
    requires node.DirNode? && Named(node) && n <= |node.entries|
    ensures LargestIn(RecordsIn(node.entries[..n], path)) == TallyIn(node.entries[..n], PartCount(path) + 1).largest
    ensures DeepestIn(RecordsIn(node.entries[..n], path)) == TallyIn(node.entries[..n], PartCount(path) + 1).deepest
    decreases node, 0, n
  {
    if n > 0 {
      var entries := node.entries[..n];
      var last := node.entries[n - 1];
      assert entries[..n - 1] == node.entries[..n - 1] && entries[n - 1] == last;
      ListingFactsAgree(node, path, n - 1);
      JoinAddsPart(path, last.name);
      RecomputedFactsAgree(last.node, Join(path, last.name));
      FactsSplit(RecordsIn(entries[..n - 1], path), RecordsOf(last.node, Join(path, last.name)));
    }
  }

  // ----- consistency of a reported inventory ---------------------------------------------------

  /** The limits and cross-checks a reconciliation receipt's inventory facts must pass. */
  predicate FactsConsistent(limits: Limits, facts: Totals) {
    && Within(limits, facts)
    && 1 <= facts.directories
    && facts.largest <= limits.maxFileBytes
    && facts.largest <= facts.bytes
    && facts.deepest <= limits.maxDepth
    && facts.deepest < facts.directories
    && !(facts.bytes > 0 && facts.largest == 0)
    && !(facts.files == 0 && (facts.bytes != 0 || facts.largest != 0))
  }

  /** What the totals of every real tree satisfy. */
  predicate Realistic(totals: Totals, depth: nat) {
    && totals.largest <= totals.bytes <= totals.files * totals.largest
    && (if totals.directories == 0 then totals.deepest == 0 else totals.deepest < depth + totals.directories)
  }

  lemma SumIsRealistic(a: Totals, b: Totals, depth: nat)
    requires Realistic(a, depth) && Realistic(b, depth)
    ensures Realistic(Plus(a, b), depth)
  {
  }

  lemma {:induction false} TalliesAreRealistic(node: Node, depth: nat)
    ensures Realistic(Tally(node, depth), depth)
    decreases node
  {
    if node.DirNode? {
      ListingIsRealistic(node.entries, depth + 1);
    }
  }

  lemma {:induction false} ListingIsRealistic(entries: seq<Entry>, depth: nat)
    ensures Realistic(TallyIn(entries, depth), depth)
    decreases entries
  {
    if entries != [] {
      ListingIsRealistic(entries[..|entries| - 1], depth);
      TalliesAreRealistic(entries[|entries| - 1].node, depth);
      SumIsRealistic(TallyIn(entries[..|entries| - 1], depth), Tally(entries[|entries| - 1].node, depth), depth);
    }
  }

  lemma {:induction false} AcceptableBoundsFacts(rules: Rules, node: Node, depth: nat)
    requires Acceptable(rules, node, depth)
    ensures Tally(node, depth).largest <= rules.limits.maxFileBytes && Tally(node, depth).deepest <= rules.limits.maxDepth
    decreases node, 1
  {
    if node.DirNode? {
      AcceptableBoundsListing(rules, node, depth, |node.entries|);
      assert node.entries[..|node.entries|] == node.entries;
    }
  }

  lemma {:induction false} AcceptableBoundsListing(rules: Rules, node: Node, depth: nat, n: nat)
    requires Acceptable(rules, node, depth) && node.DirNode? && n <= |node.entries|
    ensures var totals := TallyIn(node.entries[..n], depth + 1);
            totals.largest <= rules.limits.maxFileBytes && totals.deepest <= rules.limits.maxDepth
    decreases node, 0, n
  {
    if n > 0 {
      assert node.entries[..n][..n - 1] == node.entries[..n - 1];
      AcceptableBoundsListing(rules, node, depth, n - 1);
      AcceptableBoundsFacts(rules, node.entries[n - 1].node, depth + 1);
    }
  }

  /** A reconciliation receipt never refuses the facts of a tree within its limits. */
  lemma ReconciliationAcceptsRealTrees(rules: Rules, tree: Node)
    requires MeetsPolicy(rules, tree)
    ensures FactsConsistent(rules.limits, Tally(tree, 0))
  {
    TalliesAreRealistic(tree, 0);
    AcceptableBoundsFacts(rules, tree, 0);
  }

  /** Some real tree, with names a file system could hold, has these facts. */
  ghost predicate IsReal(facts: Totals) {
    exists tree :: HasFacts(tree, facts)
  }

  predicate HasFacts(tree: Node, facts: Totals) {
    tree.DirNode? && NoSpecial(tree) && Named(tree) && Tally(tree, 0) == facts
  }

  /**
   The facts of real trees within the limits are exactly those that a reconciliation receipt accepts, whose bytes fit
   into that many files of the largest size, and whose tree of depth zero is a single directory.
   */
  lemma ConsistentFactsAreRealIff(limits: Limits, facts: Totals)
    ensures && IsReal(facts)
            && facts.files <= limits.maxFiles && facts.directories <= limits.maxDirectories && facts.bytes <= limits.maxBytes
            && facts.largest <= limits.maxFileBytes && facts.deepest <= limits.maxDepth
            <==> && FactsConsistent(limits, facts)
                 && facts.bytes <= facts.files * facts.largest && (facts.deepest == 0 ==> facts.directories == 1)
  {
    hide Tally, FactsConsistent;
    if IsReal(facts) {
      var tree :| HasFacts(tree, facts);
      TalliesAreRealistic(tree, 0);
      FlatTreeIsOneDirectory(tree);
      RealIsConsistent(limits, facts);
    }
    if FactsConsistent(limits, facts) {
      ConsistencyUnfolded(limits, facts);
      if facts.bytes <= facts.files * facts.largest && (facts.deepest == 0 ==> facts.directories == 1) {
        WitnessHasFacts(facts);
        assert HasFacts(Witness(facts), facts);
      }
    }
  }

  lemma RealIsConsistent(limits: Limits, facts: Totals)
    requires Realistic(facts, 0) && (facts.deepest == 0 ==> facts.directories == 1)
    ensures FactsConsistent(limits, facts)
            <==> && facts.files <= limits.maxFiles && facts.directories <= limits.maxDirectories && facts.bytes <= limits.maxBytes
                 && facts.largest <= limits.maxFileBytes && facts.deepest <= limits.maxDepth
  {
  }

  lemma ConsistencyUnfolded(limits: Limits, facts: Totals)
    requires FactsConsistent(limits, facts)
    ensures facts.largest <= facts.bytes && facts.deepest < facts.directories && (facts.files == 0 ==> facts.bytes == 0)
    ensures facts.files <= limits.maxFiles && facts.directories <= limits.maxDirectories && facts.bytes <= limits.maxBytes
    ensures facts.largest <= limits.maxFileBytes && facts.deepest <= limits.maxDepth
  {
  }

  /** Two inputs the rules let through although no tree has them: bytes that do not fit, and a directory with no place. */
  lemma ConsistencyIsNotRealism()
    ensures FactsConsistent(GLOBAL_LIMITS, Totals(1, 1, 5, 3, 0)) && !IsReal(Totals(1, 1, 5, 3, 0))
    ensures FactsConsistent(GLOBAL_LIMITS, Totals(0, 2, 0, 0, 0)) && !IsReal(Totals(0, 2, 0, 0, 0))
  {
    ConsistentFactsAreRealIff(GLOBAL_LIMITS, Totals(1, 1, 5, 3, 0));
    ConsistentFactsAreRealIff(GLOBAL_LIMITS, Totals(0, 2, 0, 0, 0));
  }

  /** Directories below some depth reach at least that depth. */
  lemma {:induction false} DirectoriesReachDepth(entries: seq<Entry>, depth: nat)
    ensures TallyIn(entries, depth).directories > 0 ==> TallyIn(entries, depth).deepest >= depth
  {
    if entries != [] {
      DirectoriesReachDepth(entries[..|entries| - 1], depth);
    }
  }

  lemma FlatTreeIsOneDirectory(tree: Node)
    requires tree.DirNode?
    ensures Tally(tree, 0).deepest == 0 ==> Tally(tree, 0).directories == 1
  {
    hide Tally, TallyIn;
    DirectoryTally(tree.attr, tree.entries);
    DirectoriesReachDepth(tree.entries, 1);
  }

  // the tree that shows consistent facts real: the files and the spare directories in the root, and one chain of directories

  const SOME_ATTR := Attr(0, 0, ADOPTED_DIRECTORY_MODE, 0)

  /** A different name for every number. */
  function NameFor(n: nat): string {
    if n == 0 then "a" else NameFor(n - 1) + "a"
  }

  function Filler(size: nat): Bytes {
    seq(size, _ => 0)
  }

  function LeastOf(a: nat, b: nat): nat {
    if a < b then a else b
  }

  /** n files that hold `bytes` bytes, none more than `largest`, the first full ones first. */
  function FilesHolding(n: nat, bytes: nat, largest: nat): seq<Entry> {
    if n == 0 then []
    else
      var size := LeastOf(largest, bytes);
      FilesHolding(n - 1, bytes - size, largest) + [Entry(NameFor(n - 1), FileNode(SOME_ATTR, 1, Filler(size)))]
  }

  function EmptyDirectories(first: nat, n: nat): seq<Entry> {
    if n == 0 then []
    else EmptyDirectories(first, n - 1) + [Entry(NameFor(first + n - 1), DirNode(SOME_ATTR, []))]
  }

  function Chain(length: nat): Node {
    DirNode(SOME_ATTR, if length == 0 then [] else [Entry("a", Chain(length - 1))])
  }

  function Witness(facts: Totals): Node
    requires facts.deepest < facts.directories
  {
    var spare := facts.directories - 1 - facts.deepest;
    var chain := if facts.deepest == 0 then [] else [Entry(NameFor(facts.files + spare), Chain(facts.deepest - 1))];
    DirNode(SOME_ATTR, FilesHolding(facts.files, facts.bytes, facts.largest) + EmptyDirectories(facts.files, spare) + chain)
  }

  lemma {:induction false} NamesForAreNames(n: nat)
    ensures |NameFor(n)| == n + 1 && IsName(NameFor(n))
  {
    if n > 0 {
      NamesForAreNames(n - 1);
    }
  }

  /** The k-th entry carries the k-th name and a node that is itself fit for a tree. */
  predicate NumberedFrom(entries: seq<Entry>, first: nat) {
    forall i | 0 <= i < |entries| ::
      entries[i].name == NameFor(first + i) && NoSpecial(entries[i].node) && Named(entries[i].node)
  }

  lemma NumberedJoin(a: seq<Entry>, b: seq<Entry>, first: nat)
    requires NumberedFrom(a, first) && NumberedFrom(b, first + |a|)
    ensures NumberedFrom(a + b, first)
  {
    forall i | 0 <= i < |a + b|
      ensures (a + b)[i].name == NameFor(first + i) && NoSpecial((a + b)[i].node) && Named((a + b)[i].node)
    {
      if i >= |a| {
        assert (a + b)[i] == b[i - |a|];
      }
    }
  }

  lemma NumberedIsTree(attr: Attr, entries: seq<Entry>)
    requires NumberedFrom(entries, 0)
    ensures NoSpecial(DirNode(attr, entries)) && Named(DirNode(attr, entries))
  {
    forall i | 0 <= i < |entries| ensures |entries[i].name| == i + 1 && IsName(entries[i].name) {
      NamesForAreNames(i);
    }
  }

  /** What is left after the first file fits into the others. */
  lemma FirstFileLeaves(n: nat, bytes: nat, largest: nat)
    requires n > 0 && bytes <= n * largest
    ensures bytes - LeastOf(largest, bytes) <= (n - 1) * largest
    ensures LeastOf(largest, bytes) <= bytes && (n == 1 ==> bytes == LeastOf(largest, bytes))
    ensures LeastOf(largest, bytes - LeastOf(largest, bytes)) <= LeastOf(largest, bytes)
  {
    assert n * largest == (n - 1) * largest + largest;
  }

  lemma {:induction false} FilesHoldingTally(n: nat, bytes: nat, largest: nat, depth: nat)
    requires bytes <= n * largest
    ensures var entries := FilesHolding(n, bytes, largest);
            && |entries| == n && NumberedFrom(entries, 0)
            && TallyIn(entries, depth) == Totals(n, 0, bytes, if n == 0 then 0 else LeastOf(largest, bytes), 0)
  {
    hide Tally, TallyIn, NumberedFrom, NoSpecial, Named, Filler, LeastOf;
    if n == 0 {
      NoEntries(depth, 0);
    } else {
      var size := LeastOf(largest, bytes);
      FirstFileLeaves(n, bytes, largest);
      FilesHoldingTally(n - 1, bytes - size, largest, depth);
      var before := FilesHolding(n - 1, bytes - size, largest);
      var last := Entry(NameFor(n - 1), FileNode(SOME_ATTR, 1, Filler(size)));
      FileTally(size, depth);
      EntryAppended(before, last, depth);
      SingleNumbered(last, n - 1);
      NumberedJoin(before, [last], 0);
    }
  }

  lemma {:induction false} EmptyDirectoriesTally(first: nat, n: nat, depth: nat)
    ensures var entries := EmptyDirectories(first, n);
            && |entries| == n && NumberedFrom(entries, first)
            && TallyIn(entries, depth) == Totals(0, n, 0, 0, if n == 0 then 0 else depth)
  {
    hide Tally, TallyIn, NumberedFrom, NoSpecial, Named;
    if n == 0 {
      NoEntries(depth, first);
    } else {
      var last := Entry(NameFor(first + n - 1), DirNode(SOME_ATTR, []));
      EmptyDirectoriesTally(first, n - 1, depth);
      EmptyDirectoryTally(depth);
      EntryAppended(EmptyDirectories(first, n - 1), last, depth);
      SingleNumbered(last, first + n - 1);
      NumberedJoin(EmptyDirectories(first, n - 1), [last], first);
    }
  }

  lemma NoEntries(depth: nat, first: nat)
    ensures TallyIn([], depth) == NOTHING && NumberedFrom([], first)
  {
  }

  lemma FileTally(size: nat, depth: nat)
    ensures var file := FileNode(SOME_ATTR, 1, Filler(size));
            Tally(file, depth) == Totals(1, 0, size, size, 0) && NoSpecial(file) && Named(file)
  {
  }

  lemma EmptyDirectoryTally(depth: nat)
    ensures var directory := DirNode(SOME_ATTR, []);
            Tally(directory, depth) == Totals(0, 1, 0, 0, depth) && NoSpecial(directory) && Named(directory)
  {
  }

  lemma EntryAppended(entries: seq<Entry>, last: Entry, depth: nat)
    ensures TallyIn(entries + [last], depth) == Plus(TallyIn(entries, depth), Tally(last.node, depth))
  {
    hide Tally;
    assert (entries + [last])[..|entries|] == entries;
  }

  lemma {:induction false} ChainTally(length: nat, depth: nat)
    ensures NoSpecial(Chain(length)) && Named(Chain(length))
    ensures Tally(Chain(length), depth) == Totals(0, length + 1, 0, 0, depth + length)
  {
    if length > 0 {
      ChainTally(length - 1, depth + 1);
      var entries := [Entry("a", Chain(length - 1))];
      assert entries[..0] == [];
      assert TallyIn(entries, depth + 1) == Plus(NOTHING, Tally(Chain(length - 1), depth + 1));
    }
  }

  /** The files and the spare directories of the witness's root. */
  lemma FlatPartTally(facts: Totals, spare: nat)
    requires facts.largest <= facts.bytes <= facts.files * facts.largest && (facts.files == 0 ==> facts.bytes == 0)
    ensures var flat := FilesHolding(facts.files, facts.bytes, facts.largest) + EmptyDirectories(facts.files, spare);
            && |flat| == facts.files + spare && NumberedFrom(flat, 0)
            && TallyIn(flat, 1) == Totals(facts.files, spare, facts.bytes, facts.largest, if spare == 0 then 0 else 1)
  {
    hide Tally, TallyIn, NumberedFrom, FilesHolding, EmptyDirectories;
    var files := FilesHolding(facts.files, facts.bytes, facts.largest);
    var spares := EmptyDirectories(facts.files, spare);
    FilesHoldingTally(facts.files, facts.bytes, facts.largest, 1);
    EmptyDirectoriesTally(facts.files, spare, 1);
    TallySplits(files, spares, 1);
    NumberedJoin(files, spares, 0);
  }

  lemma WitnessHasFacts(facts: Totals)
    requires facts.largest <= facts.bytes <= facts.files * facts.largest && facts.deepest < facts.directories
    requires facts.files == 0 ==> facts.bytes == 0
    requires facts.deepest == 0 ==> facts.directories == 1
    ensures HasFacts(Witness(facts), facts)
  {
    hide Tally, TallyIn, NoSpecial, Named, FilesHolding, EmptyDirectories, Chain, NumberedFrom, NameFor;
    var spare := facts.directories - 1 - facts.deepest;
    var flat := FilesHolding(facts.files, facts.bytes, facts.largest) + EmptyDirectories(facts.files, spare);
    FlatPartTally(facts, spare);
    if facts.deepest > 0 {
      var last := Entry(NameFor(facts.files + spare), Chain(facts.deepest - 1));
      ChainTally(facts.deepest - 1, 1);
      EntryAppended(flat, last, 1);
      SingleNumbered(last, facts.files + spare);
      NumberedJoin(flat, [last], 0);
    } else {
      assert flat + [] == flat;
    }
    NumberedIsTree(SOME_ATTR, Witness(facts).entries);
    DirectoryTally(SOME_ATTR, Witness(facts).entries);
  }

  lemma SingleNumbered(entry: Entry, first: nat)
    requires entry.name == NameFor(first) && NoSpecial(entry.node) && Named(entry.node)
    ensures NumberedFrom([entry], first)
  {
  }

  lemma DirectoryTally(attr: Attr, entries: seq<Entry>)
    ensures Tally(DirNode(attr, entries), 0) == Plus(Totals(0, 1, 0, 0, 0), TallyIn(entries, 1))
  {
  }

  // ----- the three readers ---------------------------------------------------------------------

  predicate LimitsWithin(a: Limits, b: Limits) {
    && a.maxFiles <= b.maxFiles && a.maxDirectories <= b.maxDirectories && a.maxBytes <= b.maxBytes
    && a.maxFileBytes <= b.maxFileBytes && a.maxDepth <= b.maxDepth
  }

  lemma {:induction false} AcceptableCarriesOver(strict: Rules, loose: Rules, node: Node, depth: nat)
    requires loose.reader == Adopting ==> strict.reader == Adopting
    requires loose.reader == Binding ==> strict.reader != Recovering
    requires strict.naming == loose.naming && strict.owner == loose.owner && strict.device == loose.device
    requires LimitsWithin(strict.limits, loose.limits) && Acceptable(strict, node, depth)
    ensures Acceptable(loose, node, depth)
    decreases node
  {
    if node.DirNode? {
      forall i | 0 <= i < |node.entries| ensures Acceptable(loose, node.entries[i].node, depth + 1) {
        AcceptableCarriesOver(strict, loose, node.entries[i].node, depth + 1);
      }
    }
  }

  /** What the adoption accepts, its recovery accepts under the same limits and the binding verifier under the global ones. */
  lemma LaterReadersAccept(rules: Rules, tree: Node, reader: Reader)
    requires rules.reader == Adopting && LimitsWithin(rules.limits, GLOBAL_LIMITS) && MeetsPolicy(rules, tree)
    ensures MeetsPolicy(rules.(reader := reader), tree)
    ensures MeetsPolicy(rules.(reader := reader, limits := GLOBAL_LIMITS), tree)
  {
    AcceptableCarriesOver(rules, rules.(reader := reader), tree, 0);
    AcceptableCarriesOver(rules, rules.(reader := reader, limits := GLOBAL_LIMITS), tree, 0);
  }
}
