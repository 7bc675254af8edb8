/**
 Removing a captured tree in whatever state the adoption, a crash or an earlier cleanup left it
 (qualification_attestor/john_lomein_persona_qualification_capture_adoption.py, _cleanup_tree_mixed).
 */
module CaptureCleanup {
  import opened Outcomes
  import opened CaptureTree
  import opened CaptureInventory
  import opened CaptureRecords
  import opened CaptureAdoption

  /** _allowed_recovery_identity: either owner pair, and any mode the adoption passes through. */
  predicate AllowedIdentity(policy: Policy, attr: Attr, directory: bool) {
    var ids := policy.ids;
    && ((attr.uid == ids.captureUid && attr.gid == ids.captureGid) || (attr.uid == ids.rootUid && attr.gid == ids.verifierGid))
    && (if directory
        then attr.mode in {0, PROVISIONAL_DIRECTORY_MODE, BUILDING_DIRECTORY_MODE, ADOPTED_DIRECTORY_MODE}
        else attr.mode in {0, PROVISIONAL_FILE_MODE, BUILDING_FILE_MODE, ADOPTED_FILE_MODE})
  }

  predicate FileRemovable(policy: Policy, node: Node) {
    node.FileNode? && node.attr.device == policy.device && node.links == 1 && AllowedIdentity(policy, node.attr, false)
  }

  /** A permission mode, by its octal digits. */
  function Octal(user: nat, group: nat, other: nat): nat {
    64 * user + 8 * group + other
  }

  /** What must be true of one node, at its depth, for the cleanup to remove it. */
  predicate Unlinkable(policy: Policy, node: Node, depth: nat) {
    && !node.SpecialNode? && node.attr.device == policy.device
    && (|| (node.attr.uid, node.attr.gid) == (policy.ids.captureUid, policy.ids.captureGid)
        || (node.attr.uid, node.attr.gid) == (policy.ids.rootUid, policy.ids.verifierGid))
    && match node
       case FileNode(attr, links, _) => links == 1 && attr.mode in {0, Octal(4, 0, 0), Octal(6, 0, 0), Octal(4, 4, 0)}
       case DirNode(attr, entries) =>
         && depth <= policy.limits.maxDepth && attr.mode in {0, Octal(5, 0, 0), Octal(7, 0, 0), Octal(5, 5, 0)}
         && (forall i | 0 <= i < |entries| :: entries[i].name !in {"", ".", ".."} && policy.naming.composed(entries[i].name))
         && (forall i | 0 <= i < |entries| :: '/' !in entries[i].name && '\0' !in entries[i].name)
         && forall i, j | 0 <= i < j < |entries| :: policy.naming.fold(entries[i].name) != policy.naming.fold(entries[j].name)
       case SpecialNode => false
  }

  /** Every node that may not be removed is still in its place; a directory may have been made writable. */
  ghost predicate KeepsUnfit(policy: Policy, before: Node, after: Node, depth: nat) {
    forall parts | At(before, parts).Some? && !Unlinkable(policy, At(before, parts).value, depth + |parts|) ::
      StillThere(At(before, parts).value, At(after, parts))
  }

  predicate StillThere(before: Node, after: Option<Node>) {
    after.Some? && (after.value == before || (before.DirNode? && after.value == Revoked(before)))
  }

  /** What cleanup demands of every node. */
  predicate Removable(policy: Policy, node: Node, depth: nat) {
    match node
    case FileNode(_, _, _) => FileRemovable(policy, node)
    case DirNode(attr, entries) =>
      && depth <= policy.limits.maxDepth
      && attr.device == policy.device && AllowedIdentity(policy, attr, true)
      && NamesOk(Adopting, policy.naming, entries)
      && forall i | 0 <= i < |entries| :: Removable(policy, entries[i].node, depth + 1)
    case SpecialNode => false
  }

  /** The number of names below a directory. */
  function NamesBelow(node: Node): nat
    decreases node
  {
    if node.DirNode? then NamesIn(node.entries) else 0
  }

  function NamesIn(entries: seq<Entry>): nat
    decreases entries
  {
    if entries == [] then 0 else 1 + NamesBelow(entries[0].node) + NamesIn(entries[1..])
  }

  /** A tree that one cleanup without failing calls removes. */
  predicate Recoverable(policy: Policy, tree: Node) {
    tree.DirNode? && Removable(policy, tree, 0) && NamesBelow(tree) <= policy.limits.maxFiles + policy.limits.maxDirectories
  }

  function Revoked(node: Node): Node
    requires node.DirNode?
  {
    node.(attr := node.attr.(mode := BUILDING_DIRECTORY_MODE))
  }

  /** Dropping a directory's first entries, or replacing its first by a smaller one, leaves it removable. */
  lemma RestRemovable(policy: Policy, attr: Attr, rest: seq<Entry>, depth: nat)
    requires rest != [] && Removable(policy, DirNode(attr, rest), depth)
    ensures Removable(policy, DirNode(attr, rest[1..]), depth)
    ensures Removable(policy, rest[0].node, depth + 1)
  {
  }

  lemma FirstReplaced(policy: Policy, attr: Attr, rest: seq<Entry>, child: Node, depth: nat)
    requires rest != [] && Removable(policy, DirNode(attr, rest), depth) && Removable(policy, child, depth + 1)
    requires NamesBelow(child) <= NamesBelow(rest[0].node)
    ensures Removable(policy, DirNode(attr, [rest[0].(node := child)] + rest[1..]), depth)
    ensures NamesIn([rest[0].(node := child)] + rest[1..]) <= NamesIn(rest)
  {
  }

  lemma {:induction false} NamesAreCounted(entries: seq<Entry>)
    ensures |entries| <= NamesIn(entries)
  {
    if entries != [] {
      NamesAreCounted(entries[1..]);
    }
  }

  /** In a removable tree every node may be removed. */
  lemma {:induction false} RemovableAt(policy: Policy, node: Node, depth: nat, parts: seq<string>)
    requires Removable(policy, node, depth) && At(node, parts).Some?
    ensures Unlinkable(policy, At(node, parts).value, depth + |parts|)
    decreases |parts|
  {
    if parts != [] {
      FindFinds(node.entries, parts[0]);
      RemovableAt(policy, Find(node.entries, parts[0]).value, depth + 1, parts[1..]);
    }
  }

  lemma UnfitUntouched(policy: Policy, node: Node, depth: nat)
    ensures KeepsUnfit(policy, node, node, depth)
    ensures node.DirNode? ==> KeepsUnfit(policy, node, Revoked(node), depth)
  {
    if node.DirNode? {
      forall parts | parts != [] ensures At(Revoked(node), parts) == At(node, parts) {
      }
    }
  }

  /** Dropping removable entries from the front, and perhaps replacing the next, keeps every unfit node. */
  lemma ListingKeepsUnfit(policy: Policy, node: Node, attr: Attr, gone: nat, rest: seq<Entry>, depth: nat)
    requires node.DirNode? && Unlinkable(policy, node, depth) && gone <= |node.entries| && |rest| == |node.entries| - gone
    requires forall i | 0 <= i < gone :: Removable(policy, node.entries[i].node, depth + 1)
    requires rest != [] ==> rest[0].name == node.entries[gone].name && rest[1..] == node.entries[gone + 1..]
                            && KeepsUnfit(policy, node.entries[gone].node, rest[0].node, depth + 1)
    ensures KeepsUnfit(policy, node, DirNode(attr, rest), depth)
  {
    hide Unlinkable, Removable, StillThere, KeepsUnfit;
    assert forall i, j | 0 <= i < j < |node.entries| :: node.entries[i].name != node.entries[j].name by {
      NamesDiffer(policy, node, depth);
    }
    var after := DirNode(attr, rest);
    forall parts | At(node, parts).Some? && !Unlinkable(policy, At(node, parts).value, depth + |parts|)
      ensures StillThere(At(node, parts).value, At(after, parts))
    {
      FindFinds(node.entries, parts[0]);
      var i :| 0 <= i < |node.entries| && node.entries[i] == Entry(parts[0], Find(node.entries, parts[0]).value);
      if i < gone {
        RemovableAt(policy, node.entries[i].node, depth + 1, parts[1..]);
      } else {
        assert forall j | 0 < j < |rest| :: rest[j] == rest[1..][j - 1] == node.entries[gone + j];
        FindHasEntry(rest, i - gone);
        if i > gone {
          UnfitUntouched(policy, node.entries[i].node, depth + 1);
        }
        UnfitStays(policy, node.entries[i].node, rest[i - gone].node, depth + 1, parts[1..]);
      }
    }
    UnfitKept(policy, node, after, depth);
  }

  lemma NamesDiffer(policy: Policy, node: Node, depth: nat)
    requires node.DirNode? && Unlinkable(policy, node, depth)
    ensures forall i, j | 0 <= i < j < |node.entries| :: node.entries[i].name != node.entries[j].name
  {
  }

  lemma UnfitStays(policy: Policy, before: Node, after: Node, depth: nat, parts: seq<string>)
    requires KeepsUnfit(policy, before, after, depth)
    requires At(before, parts).Some? && !Unlinkable(policy, At(before, parts).value, depth + |parts|)
    ensures StillThere(At(before, parts).value, At(after, parts))
  {
  }

  lemma UnfitKept(policy: Policy, before: Node, after: Node, depth: nat)
    requires forall parts | At(before, parts).Some? && !Unlinkable(policy, At(before, parts).value, depth + |parts|) ::
               StillThere(At(before, parts).value, At(after, parts))
    ensures KeepsUnfit(policy, before, after, depth)
  {
  }

  lemma FitDirectory(policy: Policy, node: Node, depth: nat)
    requires node.DirNode? && depth <= policy.limits.maxDepth && node.attr.device == policy.device
    requires AllowedIdentity(policy, node.attr, true) && NamesOk(Adopting, policy.naming, node.entries)
    ensures Unlinkable(policy, node, depth)
  {
  }

  /** Unlinks a file's name after checking what it names. */
  method CleanupFile(policy: Policy, file: Node, reliable: bool) returns (ok: bool)
    requires file.FileNode?
    ensures ok ==> FileRemovable(policy, file)
    ensures reliable && FileRemovable(policy, file) ==> ok
  {
    var fault := Fault(reliable);
    ok := FileRemovable(policy, file) && !fault;
  }

  /** Empties one directory, names in order; `counter` is how many names have been met so far. */
  method CleanupTree(policy: Policy, node: Node, depth: nat, counter: nat, reliable: bool)
    returns (after: Node, count: nat, ok: bool)
    requires node.DirNode?
    decreases node, 1
    ensures after.DirNode? && (after == node || after.attr == Revoked(node).attr)
    ensures ok ==> after.entries == [] && Removable(policy, node, depth) && count == counter + NamesBelow(node)
    ensures ok ==> count <= Max(counter, policy.limits.maxFiles + policy.limits.maxDirectories)
    ensures Removable(policy, node, depth) ==> Removable(policy, after, depth) && NamesBelow(after) <= NamesBelow(node)
    ensures (&& reliable && Removable(policy, node, depth)
             && counter + NamesBelow(node) <= policy.limits.maxFiles + policy.limits.maxDirectories) ==> ok
    ensures KeepsUnfit(policy, node, after, depth)
  {
    UnfitUntouched(policy, node, depth);
    after, count := node, counter;
    if depth > policy.limits.maxDepth || node.attr.device != policy.device || !AllowedIdentity(policy, node.attr, true) {
      return after, count, false;
    }
    var fault := Fault(reliable);
    if fault {
      return after, count, false;
    }
    after := Revoked(node);
    NamesAreCounted(node.entries);
    if |node.entries| > policy.limits.maxFiles + policy.limits.maxDirectories + 1
       || !NamesOk(Adopting, policy.naming, node.entries)
    {
      return after, count, false;
    }
    var rest;
    rest, count, ok := CleanupEntries(policy, node, depth, counter, reliable);
    after := after.(entries := rest);
    if ok {
      fault := Fault(reliable);
      ok := !fault;
    }
  }

  /** The loop over a directory's names; those it has removed are gone when it stops. */
  method CleanupEntries(policy: Policy, node: Node, depth: nat, counter: nat, reliable: bool)
    returns (rest: seq<Entry>, count: nat, ok: bool)
    requires node.DirNode?
    requires depth <= policy.limits.maxDepth && node.attr.device == policy.device && AllowedIdentity(policy, node.attr, true)
    requires NamesOk(Adopting, policy.naming, node.entries)
    decreases node, 0
    ensures ok ==> rest == [] && Removable(policy, node, depth) && count == counter + NamesIn(node.entries)
    ensures ok ==> count <= Max(counter, policy.limits.maxFiles + policy.limits.maxDirectories)
    ensures Removable(policy, node, depth) ==>
              Removable(policy, DirNode(Revoked(node).attr, rest), depth) && NamesIn(rest) <= NamesIn(node.entries)
    ensures (&& reliable && Removable(policy, node, depth)
             && counter + NamesIn(node.entries) <= policy.limits.maxFiles + policy.limits.maxDirectories) ==> ok
    ensures KeepsUnfit(policy, node, DirNode(Revoked(node).attr, rest), depth)
  {
    FitDirectory(policy, node, depth);
    hide Removable, NamesOk, NamesBelow, AllowedIdentity, FileRemovable, Unlinkable, KeepsUnfit, StillThere, At;
    var attr := Revoked(node).attr;
    var most := policy.limits.maxFiles + policy.limits.maxDirectories;
    rest, count := node.entries, counter;
    ghost var gone := 0;
    RevokedRemovable(policy, node, depth);
    while rest != []
      invariant 0 <= gone <= |node.entries| && rest == node.entries[gone..]
      invariant forall i | 0 <= i < gone :: Removable(policy, node.entries[i].node, depth + 1)
      invariant Removable(policy, node, depth) ==> Removable(policy, DirNode(attr, rest), depth)
      invariant count + NamesIn(rest) == counter + NamesIn(node.entries)
      invariant count <= Max(counter, most)
      invariant NamesIn(rest) <= NamesIn(node.entries)
      decreases |rest|
    {
      var child := rest[0].node;
      ghost var removable := Removable(policy, node, depth);
      if removable {
        RestRemovable(policy, attr, rest, depth);
      }
      NodeKinds(policy, child, depth + 1);
      UnfitUntouched(policy, child, depth + 1);
      ListingKeepsUnfit(policy, node, attr, gone, rest, depth);
      count := count + 1;
      if count > most {
        return rest, count, false;
      }
      match child {
        case DirNode(_, _) =>
          var emptied;
          emptied, count, ok := CleanupTree(policy, child, depth + 1, count, reliable);
          var fault := Fault(reliable);
          ok := ok && !fault;
          if !ok {
            if removable {
              FirstReplaced(policy, attr, rest, emptied, depth);
            }
            ListingKeepsUnfit(policy, node, attr, gone, [rest[0].(node := emptied)] + rest[1..], depth);
            return [rest[0].(node := emptied)] + rest[1..], count, false;
          }
        case FileNode(_, _, _) =>
          ok := CleanupFile(policy, child, reliable);
          if !ok {
            return rest, count, false;
          }
        case SpecialNode =>
          return rest, count, false;
      }
      rest := rest[1..];
      gone := gone + 1;
    }
    AllRemovable(policy, node, depth);
    ListingKeepsUnfit(policy, node, attr, gone, rest, depth);
    return rest, count, true;
  }

  lemma RevokedRemovable(policy: Policy, node: Node, depth: nat)
    requires node.DirNode?
    ensures Removable(policy, node, depth) ==> Removable(policy, Revoked(node), depth)
  {
  }

  lemma AllRemovable(policy: Policy, node: Node, depth: nat)
    requires node.DirNode? && depth <= policy.limits.maxDepth && node.attr.device == policy.device
    requires AllowedIdentity(policy, node.attr, true) && NamesOk(Adopting, policy.naming, node.entries)
    requires forall i | 0 <= i < |node.entries| :: Removable(policy, node.entries[i].node, depth + 1)
    ensures Removable(policy, node, depth)
  {
  }

  lemma NodeKinds(policy: Policy, node: Node, depth: nat)
    ensures node.FileNode? ==> (Removable(policy, node, depth) <==> FileRemovable(policy, node))
    ensures node.SpecialNode? ==> !Removable(policy, node, depth)
    ensures NamesBelow(node) == if node.DirNode? then NamesIn(node.entries) else 0
  {
  }

  /** A full cleanup of a bound tree: empty it, then remove its own name; None is a tree that is gone. */
  method UnlinkBoundTree(policy: Policy, tree: Node, reliable: bool) returns (left: Option<Node>, ok: bool)
    requires tree.DirNode?
    ensures ok <==> left.None?
    ensures ok ==> Recoverable(policy, tree)
    ensures left.Some? ==> left.value.DirNode? && (left.value == tree || left.value.attr == Revoked(tree).attr)
    ensures Recoverable(policy, tree) && left.Some? ==> Recoverable(policy, left.value)
    ensures reliable ==> (ok <==> Recoverable(policy, tree))
    ensures ok ==> forall parts | At(tree, parts).Some? :: Unlinkable(policy, At(tree, parts).value, |parts|)
    ensures left.Some? ==> KeepsUnfit(policy, tree, left.value, 0)
  {
    forall parts | Removable(policy, tree, 0) && At(tree, parts).Some? ensures Unlinkable(policy, At(tree, parts).value, |parts|) {
      RemovableAt(policy, tree, 0, parts);
    }
    var emptied, _, done := CleanupTree(policy, tree, 0, 0, reliable);
    var fault := Fault(reliable);
    if done && !fault {
      return None, true;
    }
    return Some(emptied), false;
  }

  // ----- every state of the adoption can be cleaned up -----------------------------------------

  /** An interrupted adoption of an acceptable tree leaves a removable one. */
  lemma {:induction false} HalfAdoptedIsRemovable(policy: Policy, before: Node, after: Node, depth: nat)
    requires Acceptable(policy.RulesFor(policy.Provisional()), before, depth) && HalfAdopted(policy, before, after)
    ensures Removable(policy, after, depth) && NamesBelow(after) == NamesBelow(before)
    decreases before
  {
    if before.DirNode? {
      forall i | 0 <= i < |after.entries|
        ensures Removable(policy, after.entries[i].node, depth + 1)
        ensures NamesBelow(after.entries[i].node) == NamesBelow(before.entries[i].node)
      {
        HalfAdoptedIsRemovable(policy, before.entries[i].node, after.entries[i].node, depth + 1);
      }
      SameNames(before.entries, after.entries);
    }
  }

  lemma {:induction false} SameNames(before: seq<Entry>, after: seq<Entry>)
    requires |before| == |after|
    requires forall i | 0 <= i < |before| :: NamesBelow(after[i].node) == NamesBelow(before[i].node)
    ensures NamesIn(before) == NamesIn(after)
  {
    if before != [] {
      SameNames(before[1..], after[1..]);
    }
  }

  /** The names below a directory are its files and its other directories. */
  lemma {:induction false} NamesAreTallied(rules: Rules, node: Node, depth: nat)
    requires Acceptable(rules, node, depth)
    ensures NamesBelow(node) + 1 == Tally(node, depth).files + Tally(node, depth).directories
    decreases node
  {
    if node.DirNode? {
      forall i | 0 <= i < |node.entries|
        ensures NamesBelow(node.entries[i].node) + 1
                == Tally(node.entries[i].node, depth + 1).files + Tally(node.entries[i].node, depth + 1).directories
      {
        NamesAreTallied(rules, node.entries[i].node, depth + 1);
      }
      NamesInTallied(node.entries, depth + 1);
    }
  }

  lemma {:induction false} NamesInTallied(entries: seq<Entry>, depth: nat)
    requires forall i | 0 <= i < |entries| ::
               NamesBelow(entries[i].node) + 1 == Tally(entries[i].node, depth).files + Tally(entries[i].node, depth).directories
    ensures NamesIn(entries) == TallyIn(entries, depth).files + TallyIn(entries, depth).directories
  {
    hide Tally, NamesBelow;
    if entries != [] {
      NamesInTallied(entries[1..], depth);
      assert entries == entries[..1] + entries[1..];
      TallySplits(entries[..1], entries[1..], depth);
      assert entries[..1][..0] == [];
      assert TallyIn(entries[..1], depth) == Plus(NOTHING, Tally(entries[0].node, depth));
    }
  }

  /** Whatever state the adoption of an accepted capture is interrupted in, that state is recoverable. */
  lemma AdoptionStaysRecoverable(policy: Policy, captured: Node, now: Node)
    requires MeetsPolicy(policy.RulesFor(policy.Provisional()), captured) && HalfAdopted(policy, captured, now)
    ensures Recoverable(policy, now)
  {
    HalfAdoptedIsRemovable(policy, captured, now, 0);
    NamesAreTallied(policy.RulesFor(policy.Provisional()), captured, 0);
  }

  /** The adopted root made writable for the rename is recoverable too. */
  lemma RenameWindowIsRecoverable(policy: Policy, tree: Node)
    requires Recoverable(policy, tree)
    ensures Recoverable(policy, Revoked(tree))
  {
  }

  /** The full transform is one of the states it passes through. */
  lemma {:induction false} AdoptedIsHalfAdopted(policy: Policy, node: Node, depth: nat)
    requires Acceptable(policy.RulesFor(policy.Provisional()), node, depth)
    ensures HalfAdopted(policy, node, AdoptedTree(policy, node))
    decreases node
  {
    if node.DirNode? {
      forall i | 0 <= i < |node.entries|
        ensures HalfAdopted(policy, node.entries[i].node, AdoptedTree(policy, node.entries[i].node))
      {
        AdoptedIsHalfAdopted(policy, node.entries[i].node, depth + 1);
      }
    }
  }

  // ----- what the adoption preserves -----------------------------------------------------------

  /** No state of the adoption changes a record or a total. */
  lemma {:induction false} AdoptionPreservesRecords(policy: Policy, before: Node, after: Node, path: string, depth: nat)
    requires HalfAdopted(policy, before, after)
    ensures RecordsOf(after, path) == RecordsOf(before, path) && Tally(after, depth) == Tally(before, depth)
    decreases before, 1
  {
    if before.DirNode? {
      ListingPreserved(policy, before, after, path, depth, |before.entries|);
      assert before.entries[..|before.entries|] == before.entries && after.entries[..|before.entries|] == after.entries;
    }
  }

  lemma {:induction false} ListingPreserved(policy: Policy, before: Node, after: Node, path: string, depth: nat, n: nat)
    requires before.DirNode? && HalfAdopted(policy, before, after) && n <= |before.entries|
    ensures RecordsIn(after.entries[..n], path) == RecordsIn(before.entries[..n], path)
    ensures TallyIn(after.entries[..n], depth + 1) == TallyIn(before.entries[..n], depth + 1)
    decreases before, 0, n
  {
    if n > 0 {
      ListingPreserved(policy, before, after, path, depth, n - 1);
      assert after.entries[..n][..n - 1] == after.entries[..n - 1];
      assert before.entries[..n][..n - 1] == before.entries[..n - 1];
      AdoptionPreservesRecords(policy, before.entries[n - 1].node, after.entries[n - 1].node,
                               Join(path, before.entries[n - 1].name), depth + 1);
    }
  }

  lemma {:induction false} AdoptedIsAcceptable(policy: Policy, node: Node, depth: nat)
    requires Acceptable(policy.RulesFor(policy.Provisional()), node, depth)
    ensures Acceptable(policy.RulesFor(policy.Adopted()), AdoptedTree(policy, node), depth)
    decreases node
  {
    if node.DirNode? {
      forall i | 0 <= i < |node.entries|
        ensures Acceptable(policy.RulesFor(policy.Adopted()), AdoptedTree(policy, node.entries[i].node), depth + 1)
      {
        AdoptedIsAcceptable(policy, node.entries[i].node, depth + 1);
      }
    }
  }

  /** The second inventory accepts what the transform of an accepted capture produces, with the same records. */
  lemma AdoptedMeetsPolicy(policy: Policy, captured: Node)
    requires MeetsPolicy(policy.RulesFor(policy.Provisional()), captured)
    ensures MeetsPolicy(policy.RulesFor(policy.Adopted()), AdoptedTree(policy, captured))
    ensures RecordsOf(AdoptedTree(policy, captured), "") == RecordsOf(captured, "")
    ensures Tally(AdoptedTree(policy, captured), 0) == Tally(captured, 0)
  {
    AdoptedIsHalfAdopted(policy, captured, 0);
    AdoptionPreservesRecords(policy, captured, AdoptedTree(policy, captured), "", 0);
    AdoptedIsAcceptable(policy, captured, 0);
  }
}
