/**
 The ownership transform of a captured tree and the cleanup that must cope with every half-transformed
 tree (qualification_attestor/john_lomein_persona_qualification_capture_adoption.py).

 Every system call may fail, which is also where a crash may strike; `reliable` says that none does.
 A failed call has no effect.
 */
module CaptureAdoption {
  import opened Outcomes
  import opened CaptureTree
  import opened CaptureInventory
  import opened CaptureRecords

  datatype Identities = Identities(captureUid: int, captureGid: int, rootUid: int, verifierGid: int)

  /** The adoption policy as far as the tree is concerned. */
  datatype Policy = Policy(limits: Limits, naming: Naming, ids: Identities, device: int)
  {
    function Provisional(): Owner {
      Owner(ids.captureUid, ids.captureGid, PROVISIONAL_DIRECTORY_MODE, PROVISIONAL_FILE_MODE)
    }

    function Adopted(): Owner {
      Owner(ids.rootUid, ids.verifierGid, ADOPTED_DIRECTORY_MODE, ADOPTED_FILE_MODE)
    }

    function RulesFor(owner: Owner): Rules {
      Rules(Adopting, limits, naming, owner, device)
    }
  }

  // ----- the transform -------------------------------------------------------------------------

  function ModeOf(owner: Owner, node: Node): nat {
    if node.DirNode? then owner.directoryMode else owner.fileMode
  }

  function Owned(attr: Attr, owner: Owner, mode: nat): Attr {
    Attr(owner.uid, owner.gid, mode, attr.device)
  }

  /** The fully adopted tree: the same entries and bytes under the new owner. */
  function AdoptedTree(policy: Policy, node: Node): Node
    decreases node
  {
    match node
    case FileNode(attr, links, content) => FileNode(Owned(attr, policy.Adopted(), ADOPTED_FILE_MODE), links, content)
    case DirNode(attr, entries) =>
      DirNode(Owned(attr, policy.Adopted(), ADOPTED_DIRECTORY_MODE), AdoptedEntries(policy, entries))
    case SpecialNode => node
  }

  function AdoptedEntries(policy: Policy, entries: seq<Entry>): (adopted: seq<Entry>)
    ensures |adopted| == |entries|
    ensures forall i | 0 <= i < |entries| :: adopted[i] == entries[i].(node := AdoptedTree(policy, entries[i].node))
    decreases entries
  {
    if entries == [] then []
    else
      var last := entries[|entries| - 1];
      AdoptedEntries(policy, entries[..|entries| - 1]) + [last.(node := AdoptedTree(policy, last.node))]
  }

  /** The attributes a node can be left with: untouched, or a provisional node after one, two or three of its calls. */
  predicate AttrInTransit(policy: Policy, before: Node, after: Attr)
    requires !before.SpecialNode?
  {
    var attr := before.attr;
    || after == attr
    || (&& HasOwner(attr, policy.Provisional(), ModeOf(policy.Provisional(), before), policy.device)
        && (|| after == attr.(mode := 0)
            || after == Owned(attr, policy.Adopted(), 0)
            || after == Owned(attr, policy.Adopted(), ModeOf(policy.Adopted(), before))))
  }

  /** A tree the transform was interrupted in, anywhere: same shape, names and bytes, every node in transit. */
  predicate HalfAdopted(policy: Policy, before: Node, after: Node) {
    match before
    case FileNode(_, links, content) =>
      after.FileNode? && after.links == links && after.content == content && AttrInTransit(policy, before, after.attr)
    case DirNode(_, entries) =>
      && after.DirNode? && AttrInTransit(policy, before, after.attr) && |after.entries| == |entries|
      && forall i | 0 <= i < |entries| ::
           after.entries[i].name == entries[i].name && HalfAdopted(policy, entries[i].node, after.entries[i].node)
    case SpecialNode => after == before
  }

  lemma {:induction false} Untouched(policy: Policy, node: Node)
    ensures HalfAdopted(policy, node, node)
    decreases node
  {
    if node.DirNode? {
      forall i | 0 <= i < |node.entries| ensures HalfAdopted(policy, node.entries[i].node, node.entries[i].node) {
        Untouched(policy, node.entries[i].node);
      }
    }
  }

  /** Revoke, hand over, publish: the three calls that change one file or directory. */
  method ChangeOwner(policy: Policy, node: Node, reliable: bool) returns (after: Node, ok: bool)
    requires !node.SpecialNode?
    ensures !after.SpecialNode? && after == node.(attr := after.attr)
    ensures HasOwner(node.attr, policy.Provisional(), ModeOf(policy.Provisional(), node), policy.device) ==>
              AttrInTransit(policy, node, after.attr)
    ensures ok ==> after.attr == Owned(node.attr, policy.Adopted(), ModeOf(policy.Adopted(), node))
    ensures reliable ==> ok
  {
    after := node;
    var fault := Fault(reliable);
    if fault {
      return after, false;
    }
    after := after.(attr := after.attr.(mode := 0));
    fault := Fault(reliable);
    if fault {
      return after, false;
    }
    after := after.(attr := after.attr.(uid := policy.ids.rootUid, gid := policy.ids.verifierGid));
    fault := Fault(reliable);
    if fault {
      return after, false;
    }
    after := after.(attr := after.attr.(mode := if node.DirNode? then ADOPTED_DIRECTORY_MODE else ADOPTED_FILE_MODE));
    fault := Fault(reliable);
    ok := !fault;
  }

  method AdoptFile(policy: Policy, file: Node, ghost depth: nat, reliable: bool) returns (after: Node, ok: bool)
    requires file.FileNode?
    ensures HalfAdopted(policy, file, after)
    ensures ok ==> Acceptable(policy.RulesFor(policy.Provisional()), file, depth) && after == AdoptedTree(policy, file)
    ensures reliable && Acceptable(policy.RulesFor(policy.Provisional()), file, depth) ==> ok
  {
    if !FileAcceptable(policy.RulesFor(policy.Provisional()), file) {
      return file, false;
    }
    after, ok := ChangeOwner(policy, file, reliable);
  }

  /** Adopts one directory: its entries in order, then itself. */
  method AdoptTree(policy: Policy, node: Node, depth: nat, reliable: bool) returns (after: Node, ok: bool)
    requires node.DirNode?
    decreases node, 1
    ensures HalfAdopted(policy, node, after)
    ensures ok ==> Acceptable(policy.RulesFor(policy.Provisional()), node, depth) && after == AdoptedTree(policy, node)
    ensures (&& reliable && Acceptable(policy.RulesFor(policy.Provisional()), node, depth)
             && Within(policy.limits, Tally(node, depth))) ==> ok
  {
    Untouched(policy, node);
    after := node;
    if depth > policy.limits.maxDepth
       || !HasOwner(node.attr, policy.Provisional(), PROVISIONAL_DIRECTORY_MODE, policy.device)
    {
      return after, false;
    }
    BoundIsImplied(policy.RulesFor(policy.Provisional()), node, depth, NOTHING);
    if |node.entries| > policy.limits.maxFiles + policy.limits.maxDirectories || !NamesOk(Adopting, policy.naming, node.entries) {
      return after, false;
    }
    var entries;
    entries, ok := AdoptEntries(policy, node, depth, reliable);
    after := after.(entries := entries);
    if !ok {
      return after, false;
    }
    var done := after;
    after, ok := ChangeOwner(policy, done, reliable);
    if ok {
      assert after.entries == AdoptedTree(policy, node).entries;
    }
  }

  /** The loop over a directory's entries; what it has replaced stays replaced when it stops. */
  method AdoptEntries(policy: Policy, node: Node, depth: nat, reliable: bool) returns (entries: seq<Entry>, ok: bool)
    requires node.DirNode?
    decreases node, 0
    ensures |entries| == |node.entries|
    ensures forall i | 0 <= i < |entries| ::
              entries[i].name == node.entries[i].name && HalfAdopted(policy, node.entries[i].node, entries[i].node)
    ensures ok ==> forall i | 0 <= i < |entries| ::
              && Acceptable(policy.RulesFor(policy.Provisional()), node.entries[i].node, depth + 1)
              && entries[i].node == AdoptedTree(policy, node.entries[i].node)
    ensures (&& reliable && Within(policy.limits, Tally(node, depth))
             && forall i | 0 <= i < |node.entries| ::
                  Acceptable(policy.RulesFor(policy.Provisional()), node.entries[i].node, depth + 1)) ==> ok
  {
    entries := node.entries;
    forall i | 0 <= i < |entries| ensures HalfAdopted(policy, entries[i].node, entries[i].node) {
      Untouched(policy, entries[i].node);
    }
    var n := 0;
    while n < |entries|
      invariant 0 <= n <= |entries| == |node.entries|
      invariant forall i | 0 <= i < |entries| ::
                  entries[i].name == node.entries[i].name && HalfAdopted(policy, node.entries[i].node, entries[i].node)
      invariant forall i | n <= i < |entries| :: entries[i] == node.entries[i]
      invariant forall i | 0 <= i < n ::
                  && Acceptable(policy.RulesFor(policy.Provisional()), node.entries[i].node, depth + 1)
                  && entries[i].node == AdoptedTree(policy, node.entries[i].node)
    {
      hide HalfAdopted, Acceptable, AdoptedTree;
      var child := entries[n].node;
      var changed: Node;
      match child {
        case DirNode(_, _) =>
          ChildWithin(policy.limits, node, n, depth);
          changed, ok := AdoptTree(policy, child, depth + 1, reliable);
        case FileNode(_, _, _) =>
          changed, ok := AdoptFile(policy, child, depth + 1, reliable);
        case SpecialNode =>
          changed, ok := child, false;
          SpecialIsRefused(policy, depth + 1);
      }
      entries := entries[n := entries[n].(node := changed)];
      if !ok {
        return entries, false;
      }
      n := n + 1;
    }
    return entries, true;
  }

  lemma SpecialIsRefused(policy: Policy, depth: nat)
    ensures HalfAdopted(policy, SpecialNode, SpecialNode)
    ensures !Acceptable(policy.RulesFor(policy.Provisional()), SpecialNode, depth)
  {
  }

  lemma ChildWithin(limits: Limits, node: Node, n: nat, depth: nat)
    requires node.DirNode? && n < |node.entries|
    ensures NoMore(Tally(node.entries[n].node, depth + 1), Tally(node, depth))
    ensures Within(limits, Tally(node, depth)) ==> Within(limits, Tally(node.entries[n].node, depth + 1))
  {
    TallyPrefix(node.entries, n, depth + 1);
  }
}
