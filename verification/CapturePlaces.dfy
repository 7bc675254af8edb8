/**
 The policies of a captured tree and its transform, said place by place: what each node must be or becomes, and
 that the totals count the places.  Nothing here follows the recursion of a traversal.
 */
module CapturePlaces {
  import opened Outcomes
  import opened CaptureTree
  import opened CaptureRecords
  import opened CaptureAdoption
  import opened CaptureCleanup

  // ----- what an inventory accepts -------------------------------------------------------------

  /** What must be true of one node, at its depth, for an inventory to accept it. */
  predicate Inventoriable(rules: Rules, node: Node, depth: nat) {
    && !node.SpecialNode?
    && node.attr.device == rules.device && node.attr.uid == rules.owner.uid && node.attr.gid == rules.owner.gid
    && match node
       case FileNode(attr, links, content) =>
         attr.mode == rules.owner.fileMode && links == 1 && |content| <= rules.limits.maxFileBytes
       case DirNode(attr, entries) =>
         && attr.mode == rules.owner.directoryMode && depth <= rules.limits.maxDepth
         && (forall i | 0 <= i < |entries| :: entries[i].name !in {"", ".", ".."} && rules.naming.composed(entries[i].name))
         && (forall i | 0 <= i < |entries| :: '/' !in entries[i].name && '\0' !in entries[i].name)
         && (rules.reader == Adopting ==>
               forall i, j | 0 <= i < j < |entries| :: rules.naming.fold(entries[i].name) != rules.naming.fold(entries[j].name))
         && (rules.reader == Binding ==> forall i, j | 0 <= i < j < |entries| :: entries[i].name != entries[j].name)
       case SpecialNode => false
  }

  lemma {:induction false} AcceptedAt(rules: Rules, node: Node, depth: nat, parts: seq<string>)
    requires Acceptable(rules, node, depth) && At(node, parts).Some?
    ensures Inventoriable(rules, At(node, parts).value, depth + |parts|)
    decreases |parts|
  {
    if parts != [] {
      FindFinds(node.entries, parts[0]);
      AcceptedAt(rules, Find(node.entries, parts[0]).value, depth + 1, parts[1..]);
    }
  }

  lemma ChildAt(node: Node, i: nat, below: seq<string>)
    requires node.DirNode? && i < |node.entries|
    requires forall j, k | 0 <= j < k < |node.entries| :: node.entries[j].name != node.entries[k].name
    ensures At(node, [node.entries[i].name] + below) == At(node.entries[i].node, below)
  {
    FindHasEntry(node.entries, i);
    assert ([node.entries[i].name] + below)[1..] == below;
  }

  lemma InventoriableAlone(rules: Rules, node: Node, depth: nat)
    requires Inventoriable(rules, node, depth)
    ensures Acceptable(rules, node, depth)
            <==> node.FileNode?
                 || (node.DirNode? && forall i | 0 <= i < |node.entries| :: Acceptable(rules, node.entries[i].node, depth + 1))
  {
  }

  lemma {:induction false} EverywhereAccepted(rules: Rules, node: Node, depth: nat)
    requires Named(node)
    requires forall parts | At(node, parts).Some? :: Inventoriable(rules, At(node, parts).value, depth + |parts|)
    ensures Acceptable(rules, node, depth)
    decreases node
  {
    assert At(node, []) == Some(node);
    InventoriableAlone(rules, node, depth);
    hide Inventoriable, Acceptable, At;
    if node.DirNode? {
      forall i | 0 <= i < |node.entries| ensures Acceptable(rules, node.entries[i].node, depth + 1) {
        var child := node.entries[i].node;
        forall below | At(child, below).Some? ensures Inventoriable(rules, At(child, below).value, depth + 1 + |below|) {
          ChildAt(node, i, below);
          assert At(node, [node.entries[i].name] + below).Some?;
        }
        EverywhereAccepted(rules, child, depth + 1);
      }
    }
  }

  // ----- what a cleanup removes ----------------------------------------------------------------

  lemma {:induction false} EverywhereRemovable(policy: Policy, node: Node, depth: nat)
    requires forall parts | At(node, parts).Some? :: Unlinkable(policy, At(node, parts).value, depth + |parts|)
    ensures Removable(policy, node, depth)
    decreases node
  {
    assert At(node, []) == Some(node);
    if node.DirNode? {
      NamesDiffer(policy, node, depth);
      forall i | 0 <= i < |node.entries| ensures Removable(policy, node.entries[i].node, depth + 1) {
        var child := node.entries[i].node;
        forall below | At(child, below).Some? ensures Unlinkable(policy, At(child, below).value, depth + 1 + |below|) {
          ChildAt(node, i, below);
          assert At(node, [node.entries[i].name] + below).Some?;
        }
        EverywhereRemovable(policy, child, depth + 1);
      }
    }
  }

  // ----- totals count places -------------------------------------------------------------------

  /** The bytes of all recorded files. */
  function BytesIn(records: seq<Record>): nat {
    if records == [] then 0
    else BytesIn(records[1..]) + if records[0].FileRecord? then |records[0].sha256.content| else 0
  }

  function FilesAmong(records: seq<Record>): set<int> {
    set i | 0 <= i < |records| && records[i].FileRecord?
  }

  function DirectoriesAmong(records: seq<Record>): set<int> {
    set i | 0 <= i < |records| && records[i].DirRecord?
  }

  lemma {:induction false} BytesSplit(a: seq<Record>, b: seq<Record>)
    ensures BytesIn(a + b) == BytesIn(a) + BytesIn(b)
  {
    if a == [] {
      assert a + b == b;
    } else {
      assert (a + b)[1..] == a[1..] + b;
      BytesSplit(a[1..], b);
    }
  }

  lemma {:induction false} CountsSplit(a: seq<Record>, b: seq<Record>)
    ensures |FilesAmong(a + b)| == |FilesAmong(a)| + |FilesAmong(b)|
    ensures |DirectoriesAmong(a + b)| == |DirectoriesAmong(a)| + |DirectoriesAmong(b)|
  {
    hide FilesAmong, DirectoriesAmong;
    if b == [] {
      assert a + b == a;
      NoRecordsCount();
    } else {
      var before, last := b[..|b| - 1], b[|b| - 1];
      assert a + b == (a + before) + [last] && b == before + [last];
      CountsSplit(a, before);
      CountGrows(a + before, last);
      CountGrows(before, last);
    }
  }

  lemma CountGrows(records: seq<Record>, last: Record)
    ensures |FilesAmong(records + [last])| == |FilesAmong(records)| + Indicator(last.FileRecord?)
    ensures |DirectoriesAmong(records + [last])| == |DirectoriesAmong(records)| + Indicator(last.DirRecord?)
  {
    OneMore(FilesAmong(records), FilesAmong(records + [last]), |records|);
    OneMore(DirectoriesAmong(records), DirectoriesAmong(records + [last]), |records|);
  }

  /** The totals of a tree are those of its records: files, directories and bytes, nothing twice and nothing missed. */
  lemma {:induction false} TotalsCountRecords(node: Node, path: string, depth: nat)
    ensures var records, totals := RecordsOf(node, path), Tally(node, depth);
            && totals.files == |FilesAmong(records)|
            && totals.directories == |DirectoriesAmong(records)|
            && totals.bytes == BytesIn(records)
    decreases node
  {
    match node {
      case FileNode(_, _, content) =>
        OneRecordCounts(FileRecord(path, |content|, ContentDigest(content)));
      case DirNode(_, entries) =>
        OneRecordCounts(DirRecord(path));
        ListingCounts(entries, path, depth + 1);
        CountsSplit([DirRecord(path)], RecordsIn(entries, path));
        BytesSplit([DirRecord(path)], RecordsIn(entries, path));
      case SpecialNode =>
    }
  }

  lemma OneRecordCounts(record: Record)
    ensures |FilesAmong([record])| == Indicator(record.FileRecord?) && |DirectoriesAmong([record])| == Indicator(record.DirRecord?)
    ensures BytesIn([record]) == if record.FileRecord? then |record.sha256.content| else 0
  {
    assert FilesAmong([record]) == if record.FileRecord? then {0} else {};
    assert DirectoriesAmong([record]) == if record.DirRecord? then {0} else {};
  }

  lemma {:induction false} ListingCounts(entries: seq<Entry>, path: string, depth: nat)
    ensures var records, totals := RecordsIn(entries, path), TallyIn(entries, depth);
            && totals.files == |FilesAmong(records)|
            && totals.directories == |DirectoriesAmong(records)|
            && totals.bytes == BytesIn(records)
    decreases entries
  {
    hide FilesAmong, DirectoriesAmong;
    if entries == [] {
      NoRecordsCount();
    } else {
      var last, before := entries[|entries| - 1], entries[..|entries| - 1];
      ListingCounts(before, path, depth);
      TotalsCountRecords(last.node, Join(path, last.name), depth);
      CountsSplit(RecordsIn(before, path), RecordsOf(last.node, Join(path, last.name)));
      BytesSplit(RecordsIn(before, path), RecordsOf(last.node, Join(path, last.name)));
    }
  }

  lemma NoRecordsCount()
    ensures FilesAmong([]) == {} && DirectoriesAmong([]) == {}
  {
  }

  /** No two records of a tree have the same path, so the totals count places. */
  lemma {:induction false} RecordsAreDistinct(node: Node, base: seq<string>, i: nat, j: nat)
    requires Named(node) && AreNames(base) && i < j < |RecordsOf(node, PathOf(base))|
    ensures RecordsOf(node, PathOf(base))[i].path != RecordsOf(node, PathOf(base))[j].path
    decreases node, 1
  {
    hide PathOf;
    if node.DirNode? {
      var path, n := PathOf(base), |node.entries|;
      assert node.entries[..n] == node.entries;
      if i > 0 {
        ListingIsDistinct(node, base, n, i - 1, j - 1);
      } else {
        var k := RecordHasEntry(node.entries, path, RecordsOf(node, path)[j]);
        PlaceBelow(node, base, k, []);
        var below := RecordHasPlace(node.entries[k].node, base + [node.entries[k].name], RecordsOf(node, path)[j]);
        PlacesDiffer(base, base + [node.entries[k].name] + below);
      }
    }
  }

  lemma PlacesDiffer(p: seq<string>, q: seq<string>)
    requires AreNames(p) && AreNames(q) && p != q
    ensures PathOf(p) != PathOf(q)
  {
    hide PathOf;
    if PathOf(p) == PathOf(q) {
      PathIsInjective(p, q);
    }
  }

  lemma {:induction false} ListingIsDistinct(node: Node, base: seq<string>, n: nat, i: nat, j: nat)
    requires node.DirNode? && Named(node) && AreNames(base) && n <= |node.entries|
    requires i < j < |RecordsIn(node.entries[..n], PathOf(base))|
    ensures RecordsIn(node.entries[..n], PathOf(base))[i].path != RecordsIn(node.entries[..n], PathOf(base))[j].path
    decreases node, 0, n
  {
    hide PathOf, Named, At, RecordsOf, RecordsIn;
    var path := PathOf(base);
    ListingGrows(node.entries, path, n);
    var last := node.entries[n - 1];
    var before, own := RecordsIn(node.entries[..n - 1], path), RecordsOf(last.node, Join(path, last.name));
    NamedParts(node);
    PlaceBelow(node, base, n - 1, []);
    if j < |before| {
      ListingIsDistinct(node, base, n - 1, i, j);
    } else if i >= |before| {
      RecordsAreDistinct(last.node, base + [last.name], i - |before|, j - |before|);
    } else {
      var k := RecordHasEntry(node.entries[..n - 1], path, before[i]);
      assert node.entries[..n - 1][k] == node.entries[k];
      SiblingsDiffer(node, base, k, n - 1, before[i], own[j - |before|]);
    }
  }

  lemma ListingGrows(entries: seq<Entry>, path: string, n: nat)
    requires n <= |entries|
    ensures if n == 0 then RecordsIn(entries[..n], path) == []
            else RecordsIn(entries[..n], path)
                 == RecordsIn(entries[..n - 1], path) + RecordsOf(entries[n - 1].node, Join(path, entries[n - 1].name))
  {
    if n > 0 {
      assert entries[..n][..n - 1] == entries[..n - 1];
    }
  }

  /** What is recorded below two entries of a directory has different paths. */
  lemma SiblingsDiffer(node: Node, base: seq<string>, k: nat, m: nat, one: Record, two: Record)
    requires node.DirNode? && Named(node) && AreNames(base) && k < m < |node.entries|
    requires one in RecordsOf(node.entries[k].node, Join(PathOf(base), node.entries[k].name))
    requires two in RecordsOf(node.entries[m].node, Join(PathOf(base), node.entries[m].name))
    ensures one.path != two.path
  {
    hide PathOf, Named, RecordsOf, At;
    NamedParts(node);
    PlaceBelow(node, base, k, []);
    PlaceBelow(node, base, m, []);
    var left, right := base + [node.entries[k].name], base + [node.entries[m].name];
    var p := RecordHasPlace(node.entries[k].node, left, one);
    var q := RecordHasPlace(node.entries[m].node, right, two);
    assert (left + p)[|base|] != (right + q)[|base|];
    PlacesDiffer(left + p, right + q);
  }

  lemma NamedParts(node: Node)
    requires node.DirNode? && Named(node)
    ensures forall i | 0 <= i < |node.entries| :: IsName(node.entries[i].name) && Named(node.entries[i].node)
    ensures forall i, j | 0 <= i < j < |node.entries| :: node.entries[i].name != node.entries[j].name
  {
  }

  /** The number of components of a path is the depth of its place. */
  lemma {:induction false} PartsAreCounted(parts: seq<string>)
    requires AreNames(parts)
    ensures PartCount(PathOf(parts)) == |parts|
  {
    hide PartCount;
    if parts != [] {
      PartsAreCounted(parts[..|parts| - 1]);
      JoinAddsPart(PathOf(parts[..|parts| - 1]), parts[|parts| - 1]);
    } else {
      NoParts();
    }
  }

  lemma NoParts()
    ensures PartCount("") == 0
  {
  }

  /** The recomputed facts are the size of a largest file and the depth of a deepest directory, or zero without any. */
  lemma {:induction false} FactsAreExtremes(records: seq<Record>)
    ensures forall i | 0 <= i < |records| && records[i].FileRecord? :: records[i].size <= LargestIn(records)
    ensures LargestIn(records) == 0 || exists i :: 0 <= i < |records| && records[i].FileRecord? && records[i].size == LargestIn(records)
    ensures forall i | 0 <= i < |records| && records[i].DirRecord? :: PartCount(records[i].path) <= DeepestIn(records)
    ensures DeepestIn(records) == 0
            || exists i :: 0 <= i < |records| && records[i].DirRecord? && PartCount(records[i].path) == DeepestIn(records)
  {
    hide PartCount;
    if records != [] {
      var n := |records| - 1;
      FactsAreExtremes(records[..n]);
      assert forall i | 0 <= i < n :: records[..n][i] == records[i];
      assert records[n] == records[|records| - 1];
    }
  }

  // ----- both policies, place by place ---------------------------------------------------------

  /**
   An inventory accepts a directory exactly when every place in it holds what the policy demands of that place,
   and its files, directories and bytes are within the limits.
   */
  lemma MeetsPolicyIff(rules: Rules, tree: Node)
    requires Named(tree)
    ensures var records := RecordsOf(tree, "");
            MeetsPolicy(rules, tree) <==>
              && tree.DirNode?
              && (forall parts | At(tree, parts).Some? :: Inventoriable(rules, At(tree, parts).value, |parts|))
              && |FilesAmong(records)| <= rules.limits.maxFiles && |DirectoriesAmong(records)| <= rules.limits.maxDirectories
              && BytesIn(records) <= rules.limits.maxBytes
  {
    hide Inventoriable, Acceptable, At, FilesAmong, DirectoriesAmong, RecordsOf;
    TotalsCountRecords(tree, "", 0);
    if Acceptable(rules, tree, 0) {
      forall parts | At(tree, parts).Some? ensures Inventoriable(rules, At(tree, parts).value, |parts|) {
        AcceptedAt(rules, tree, 0, parts);
      }
    }
    if forall parts | At(tree, parts).Some? :: Inventoriable(rules, At(tree, parts).value, |parts|) {
      EverywhereAccepted(rules, tree, 0);
    }
  }

  lemma {:induction false} NamesSplit(a: seq<Entry>, b: seq<Entry>)
    ensures NamesIn(a + b) == NamesIn(a) + NamesIn(b)
  {
    hide NamesBelow;
    if a == [] {
      assert a + b == b;
    } else {
      assert (a + b)[1..] == a[1..] + b;
      NamesSplit(a[1..], b);
    }
  }

  /** Without special files, every name below a directory is a record, and so is the directory itself. */
  lemma {:induction false} NamesAreRecorded(node: Node, path: string)
    requires NoSpecial(node)
    ensures NamesBelow(node) + 1 == |RecordsOf(node, path)|
    decreases node, 1
  {
    if node.DirNode? {
      assert node.entries[..|node.entries|] == node.entries;
      ListingIsRecorded(node, path, |node.entries|);
    }
  }

  lemma {:induction false} ListingIsRecorded(node: Node, path: string, n: nat)
    requires NoSpecial(node) && node.DirNode? && n <= |node.entries|
    ensures NamesIn(node.entries[..n]) == |RecordsIn(node.entries[..n], path)|
    decreases node, 0, n
  {
    if n > 0 {
      var last := node.entries[n - 1];
      ListingIsRecorded(node, path, n - 1);
      assert node.entries[..n][..n - 1] == node.entries[..n - 1];
      assert node.entries[..n] == node.entries[..n - 1] + [last];
      NamesSplit(node.entries[..n - 1], [last]);
      assert NamesIn([last]) == 1 + NamesBelow(last.node) + NamesIn([last][1..]);
      NamesAreRecorded(last.node, Join(path, last.name));
    }
  }

  lemma {:induction false} RemovableHasNoSpecial(policy: Policy, node: Node, depth: nat)
    requires Removable(policy, node, depth)
    ensures NoSpecial(node)
    decreases node
  {
    if node.DirNode? {
      forall i | 0 <= i < |node.entries| ensures NoSpecial(node.entries[i].node) {
        RemovableHasNoSpecial(policy, node.entries[i].node, depth + 1);
      }
    }
  }

  /**
   A cleanup without failing calls removes a directory exactly when every place in it may be removed, and no more
   names than the limit are below it.
   */
  lemma RecoverableIff(policy: Policy, tree: Node)
    ensures Recoverable(policy, tree) <==>
              && tree.DirNode?
              && (forall parts | At(tree, parts).Some? :: Unlinkable(policy, At(tree, parts).value, |parts|))
              && |RecordsOf(tree, "")| <= 1 + policy.limits.maxFiles + policy.limits.maxDirectories
  {
    hide Unlinkable, Removable, At, RecordsOf, NamesBelow;
    if Removable(policy, tree, 0) {
      forall parts | At(tree, parts).Some? ensures Unlinkable(policy, At(tree, parts).value, |parts|) {
        RemovableAt(policy, tree, 0, parts);
      }
    }
    if forall parts | At(tree, parts).Some? :: Unlinkable(policy, At(tree, parts).value, |parts|) {
      EverywhereRemovable(policy, tree, 0);
    }
    if Removable(policy, tree, 0) {
      RemovableHasNoSpecial(policy, tree, 0);
      NamesAreRecorded(tree, "");
    }
  }

  // ----- the transform, place by place ---------------------------------------------------------

  /** What an adopted node differs in from the captured one: owner, group and mode, and nothing else. */
  predicate IsAdopted(policy: Policy, before: Node, after: Node) {
    match (before, after)
    case (FileNode(attr, links, content), FileNode(attr', links', content')) =>
      links' == links && content' == content && attr' == Attr(policy.ids.rootUid, policy.ids.verifierGid, Octal(4, 4, 0), attr.device)
    case (DirNode(attr, entries), DirNode(attr', entries')) =>
      && attr' == Attr(policy.ids.rootUid, policy.ids.verifierGid, Octal(5, 5, 0), attr.device)
      && |entries'| == |entries| && forall i | 0 <= i < |entries| :: entries'[i].name == entries[i].name
    case (SpecialNode, SpecialNode) => true
    case _ => false
  }

  lemma {:induction false} FindAdopted(policy: Policy, entries: seq<Entry>, name: string)
    ensures Find(AdoptedEntries(policy, entries), name) ==
              match Find(entries, name)
              case None => None
              case Some(node) => Some(AdoptedTree(policy, node))
  {
    if entries != [] {
      FindAdopted(policy, entries[..|entries| - 1], name);
    }
  }

  /** The adopted tree has a node wherever the captured one had, the adopted form of it, and no other. */
  lemma {:induction false} AdoptedEverywhere(policy: Policy, captured: Node, parts: seq<string>)
    ensures At(AdoptedTree(policy, captured), parts).Some? <==> At(captured, parts).Some?
    ensures At(captured, parts).Some? ==> IsAdopted(policy, At(captured, parts).value, At(AdoptedTree(policy, captured), parts).value)
    decreases |parts|
  {
    if parts != [] && captured.DirNode? {
      FindAdopted(policy, captured.entries, parts[0]);
      if Find(captured.entries, parts[0]).Some? {
        AdoptedEverywhere(policy, Find(captured.entries, parts[0]).value, parts[1..]);
      }
    }
  }

  /** The four states a captured node passes through: as it was, closed, closed under its new owner, adopted. */
  predicate IsInTransit(policy: Policy, before: Node, after: Node) {
    || after == before
    || (&& !before.SpecialNode? && !after.SpecialNode?
        && before.attr == Attr(policy.ids.captureUid, policy.ids.captureGid,
                               if before.DirNode? then Octal(5, 0, 0) else Octal(4, 0, 0), policy.device)
        && (|| after == before.(attr := before.attr.(mode := 0))
            || after == before.(attr := Attr(policy.ids.rootUid, policy.ids.verifierGid, 0, policy.device))
            || after == before.(attr := Attr(policy.ids.rootUid, policy.ids.verifierGid,
                                             if before.DirNode? then Octal(5, 5, 0) else Octal(4, 4, 0), policy.device))))
  }

  /** The same, for one node of a tree whose entries may be in transit themselves. */
  predicate TransitAt(policy: Policy, before: Node, after: Node) {
    match (before, after)
    case (DirNode(attr, entries), DirNode(attr', entries')) =>
      && IsInTransit(policy, DirNode(attr, []), DirNode(attr', []))
      && |entries'| == |entries| && forall i | 0 <= i < |entries| :: entries'[i].name == entries[i].name
    case _ => IsInTransit(policy, before, after)
  }

  lemma {:induction false} FindInTransit(policy: Policy, before: seq<Entry>, after: seq<Entry>, name: string)
    requires |before| == |after|
    requires forall i | 0 <= i < |before| :: after[i].name == before[i].name && HalfAdopted(policy, before[i].node, after[i].node)
    ensures Find(after, name).Some? <==> Find(before, name).Some?
    ensures Find(before, name).Some? ==> HalfAdopted(policy, Find(before, name).value, Find(after, name).value)
  {
    hide HalfAdopted;
    if before != [] {
      FindInTransit(policy, before[..|before| - 1], after[..|after| - 1], name);
    }
  }

  /** An interrupted adoption has a node wherever the captured tree had, in one of four states, and no other. */
  lemma {:induction false} TransitEverywhere(policy: Policy, captured: Node, now: Node, parts: seq<string>)
    requires HalfAdopted(policy, captured, now)
    ensures At(now, parts).Some? <==> At(captured, parts).Some?
    ensures At(captured, parts).Some? ==> TransitAt(policy, At(captured, parts).value, At(now, parts).value)
    decreases |parts|
  {
    if parts != [] && captured.DirNode? {
      FindInTransit(policy, captured.entries, now.entries, parts[0]);
      if Find(captured.entries, parts[0]).Some? {
        TransitEverywhere(policy, Find(captured.entries, parts[0]).value, Find(now.entries, parts[0]).value, parts[1..]);
      }
    }
  }
}
