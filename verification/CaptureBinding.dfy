/**
 The binding verifier's own traversal of an adopted capture, with its records and counters, and its check
 of a recovered adoption against facts recomputed from those records
 (qualification_attestor/john_lomein_persona_qualification_adoption_binding.py).
 */
module CaptureBinding {
  import opened Outcomes
  import opened CaptureTree
  import opened CaptureInventory
  import opened CaptureRecords

  /** The verifier reads under the global limits, whatever limits the adoption had. */
  function GlobalRules(naming: Naming, owner: Owner, device: int): Rules {
    Rules(Binding, GLOBAL_LIMITS, naming, owner, device)
  }

  /** The counts of a tree without the facts the verifier recomputes later. */
  predicate Counted(before: Totals, totals: Totals, files: nat, directories: nat, bytes: nat) {
    files == before.files + totals.files && directories == before.directories + totals.directories
    && bytes == before.bytes + totals.bytes
  }

  class Observation {
    const naming: Naming
    const owner: Owner
    const device: int
    var records: seq<Record>
    var files: nat
    var directories: nat
    var bytes: nat

    constructor (naming: Naming, owner: Owner, device: int)
      ensures this.naming == naming && this.owner == owner && this.device == device
      ensures records == [] && Counts() == NOTHING
    {
      this.naming, this.owner, this.device := naming, owner, device;
      records, files, directories, bytes := [], 0, 0, 0;
    }

    function Counts(): Totals
      reads this
    {
      Totals(files, directories, bytes, 0, 0)
    }

    function TheRules(): Rules {
      GlobalRules(naming, owner, device)
    }

    method ReadFile(file: Node, path: string, ghost depth: nat, reliable: bool) returns (ok: bool)
      requires file.FileNode? && Within(GLOBAL_LIMITS, Counts())
      modifies this
      ensures ok ==> Acceptable(TheRules(), file, depth) && Within(GLOBAL_LIMITS, Counts())
      ensures ok ==> Counted(old(Counts()), Tally(file, depth), files, directories, bytes)
      ensures ok ==> records == old(records) + RecordsOf(file, path)
      ensures reliable && Acceptable(TheRules(), file, depth) && Within(GLOBAL_LIMITS, Plus(old(Counts()), Tally(file, depth))) ==> ok
    {
      var fault := Fault(reliable);
      if fault || !FileAcceptable(TheRules(), file) {
        return false;
      }
      var read, size, sha256 := ReadDigest(file.content, MAX_CAPTURE_FILE_BYTES, reliable);
      if !read {
        return false;
      }
      files := files + 1;
      bytes := bytes + size;
      if files > MAX_CAPTURE_FILES || bytes > MAX_CAPTURE_BYTES {
        return false;
      }
      records := records + [FileRecord(path, size, sha256)];
      return true;
    }

    /** Observes one directory of the capture. */
    method InventoryTree(node: Node, prefix: string, depth: nat, reliable: bool) returns (ok: bool)
      requires node.DirNode? && Within(GLOBAL_LIMITS, Counts())
      modifies this
      decreases node, 1
      ensures ok ==> Acceptable(TheRules(), node, depth) && Within(GLOBAL_LIMITS, Counts())
      ensures ok ==> Counted(old(Counts()), Tally(node, depth), files, directories, bytes)
      ensures ok ==> records == old(records) + RecordsOf(node, prefix)
      ensures reliable && Acceptable(TheRules(), node, depth) && Within(GLOBAL_LIMITS, Plus(old(Counts()), Tally(node, depth))) ==> ok
    {
      hide RecordsIn, TallyIn;
      if depth > MAX_CAPTURE_DEPTH || !HasOwner(node.attr, owner, owner.directoryMode, device) {
        return false;
      }
      ghost var recorded := records;
      ghost var before := Counts();
      directories := directories + 1;
      if directories > MAX_CAPTURE_DIRECTORIES {
        return false;
      }
      records := records + [DirRecord(prefix)];
      EntriesFit(TheRules(), node, depth, before);
      if |node.entries| > MAX_CAPTURE_FILES + MAX_CAPTURE_DIRECTORIES || !NamesOk(Binding, naming, node.entries) {
        return false;
      }
      ok := InventoryEntries(node, prefix, depth, reliable);
      if ok {
        assert recorded + [DirRecord(prefix)] + RecordsIn(node.entries, prefix) == recorded + RecordsOf(node, prefix);
        var fault := Fault(reliable);
        ok := !fault;
      }
    }

    /** The loop over a directory's entries. */
    method InventoryEntries(node: Node, prefix: string, depth: nat, reliable: bool) returns (ok: bool)
      requires node.DirNode? && Within(GLOBAL_LIMITS, Counts())
      modifies this
      decreases node, 0
      ensures ok ==> (forall i | 0 <= i < |node.entries| :: Acceptable(TheRules(), node.entries[i].node, depth + 1))
      ensures ok ==> Within(GLOBAL_LIMITS, Counts())
      ensures ok ==> Counted(old(Counts()), TallyIn(node.entries, depth + 1), files, directories, bytes)
      ensures ok ==> records == old(records) + RecordsIn(node.entries, prefix)
      ensures (&& reliable
               && (forall i | 0 <= i < |node.entries| :: Acceptable(TheRules(), node.entries[i].node, depth + 1))
               && Within(GLOBAL_LIMITS, Plus(old(Counts()), TallyIn(node.entries, depth + 1)))) ==> ok
    {
      hide Tally, TallyIn, RecordsIn, RecordsOf, Acceptable;
      var entries := node.entries;
      ghost var start := Counts();
      ghost var recorded := records;
      var n := 0;
      StartOfListing(TheRules(), start, depth + 1, prefix);
      assert entries[..0] == [];
      while n < |entries|
        invariant 0 <= n <= |entries|
        invariant Within(GLOBAL_LIMITS, Counts())
        invariant Counted(start, TallyIn(entries[..n], depth + 1), files, directories, bytes)
        invariant records == recorded + RecordsIn(entries[..n], prefix)
        invariant forall i | 0 <= i < n :: Acceptable(TheRules(), entries[i].node, depth + 1)
      {
        var child := entries[n].node;
        var path := Join(prefix, entries[n].name);
        TallyPrefix(entries, n, depth + 1);
        PrefixRecords(entries, n, prefix);
        ghost var soFar := records;
        match child {
          case DirNode(_, _) => ok := InventoryTree(child, path, depth + 1, reliable);
          case FileNode(_, _, _) => ok := ReadFile(child, path, depth + 1, reliable);
          case SpecialNode => ok := false;
        }
        if !ok {
          return false;
        }
        assert records == soFar + RecordsOf(child, path);
        n := n + 1;
      }
      assert entries[..n] == entries;
      return true;
    }
  }

  /** The bound on one directory's names refuses no tree whose totals are within the limits. */
  lemma EntriesFit(rules: Rules, node: Node, depth: nat, before: Totals)
    requires node.DirNode?
    ensures Acceptable(rules, node, depth) && Within(rules.limits, Plus(before, Tally(node, depth))) ==>
              |node.entries| <= rules.limits.maxFiles + rules.limits.maxDirectories
  {
    BoundIsImplied(rules, node, depth, before);
  }

  /** Within the global limits, the limits of one adoption are met as soon as the whole tree's facts meet them. */
  lemma {:induction false} FactsImplyLimits(rules: Rules, limits: Limits, node: Node, depth: nat)
    requires Acceptable(rules, node, depth)
    requires Tally(node, depth).largest <= limits.maxFileBytes && Tally(node, depth).deepest <= limits.maxDepth
    ensures Acceptable(rules.(limits := limits), node, depth)
    decreases node
  {
    if node.DirNode? {
      forall i | 0 <= i < |node.entries| ensures Acceptable(rules.(limits := limits), node.entries[i].node, depth + 1) {
        TallyPrefix(node.entries, i, depth + 1);
        FactsImplyLimits(rules, limits, node.entries[i].node, depth + 1);
      }
    }
  }

  lemma {:induction false} BindingTreesAreNamed(rules: Rules, node: Node, depth: nat)
    requires rules.reader == Binding && Acceptable(rules, node, depth)
    ensures Named(node)
    decreases node
  {
    if node.DirNode? {
      forall i | 0 <= i < |node.entries| ensures IsName(node.entries[i].name) && Named(node.entries[i].node) {
        BindingTreesAreNamed(rules, node.entries[i].node, depth + 1);
      }
    }
  }

  function Recomputed(records: seq<Record>, counts: Totals): Totals {
    counts.(largest := LargestIn(records), deepest := DeepestIn(records))
  }

  lemma RecomputedIsTally(rules: Rules, tree: Node, counts: Totals)
    requires rules.reader == Binding && Acceptable(rules, tree, 0)
    requires Counted(NOTHING, Tally(tree, 0), counts.files, counts.directories, counts.bytes)
    ensures Recomputed(RecordsOf(tree, ""), counts) == Tally(tree, 0)
  {
    BindingTreesAreNamed(rules, tree, 0);
    RecomputedFactsAgree(tree, "");
  }

  /**
   The binding check of a recovered adoption: it passes exactly when the tree meets the policy under the
   adoption's own limits and the recovered facts and records are the tree's.
   */
  method VerifyRecovered(naming: Naming, owner: Owner, device: int, tree: Node, limits: Limits, recovered: Totals,
                         recoveredRecords: set<Record>, reliable: bool) returns (ok: bool)
    requires tree.DirNode? && LimitsWithin(limits, GLOBAL_LIMITS)
    ensures ok ==> MeetsPolicy(GlobalRules(naming, owner, device).(limits := limits), tree)
    ensures ok ==> recovered == Tally(tree, 0) && recoveredRecords == (set r | r in RecordsOf(tree, ""))
    ensures reliable ==>
              (ok <==> && MeetsPolicy(GlobalRules(naming, owner, device).(limits := limits), tree)
                       && recovered == Tally(tree, 0) && recoveredRecords == (set r | r in RecordsOf(tree, "")))
  {
    hide Acceptable, Tally, RecordsOf;
    ghost var rules := GlobalRules(naming, owner, device);
    if MeetsPolicy(rules.(limits := limits), tree) {
      AcceptableCarriesOver(rules.(limits := limits), rules, tree, 0);
      AcceptableBoundsFacts(rules.(limits := limits), tree, 0);
    }
    var observation := new Observation(naming, owner, device);
    ok := observation.InventoryTree(tree, "", 0, reliable);
    if !ok {
      return false;
    }
    assert observation.records == RecordsOf(tree, "");
    RecomputedIsTally(rules, tree, observation.Counts());
    var facts := Recomputed(observation.records, observation.Counts());
    if recovered != facts || recoveredRecords != (set r | r in observation.records) {
      return false;
    }
    ok := Within(limits, facts) && facts.largest <= limits.maxFileBytes && facts.deepest <= limits.maxDepth;
    if ok {
      FactsImplyLimits(rules, limits, tree, 0);
    }
  }

  /**
   The recovery's observation and the binding verifier's: whatever both accept, they record alike, and the
   facts the one counts are the facts the other recomputes.
   */
  method ObserveTwice(rules: Rules, tree: Node, reliable: bool)
    returns (recovered: bool, bound: bool, inventory: Inventory, observation: Observation)
    requires tree.DirNode? && rules.reader == Recovering
    ensures recovered && bound ==> observation.records == inventory.records
    ensures recovered && bound ==> Recomputed(observation.records, observation.Counts()) == inventory.Counters()
  {
    hide Acceptable, Tally, RecordsOf;
    recovered, inventory := TakeInventory(rules, tree, reliable);
    observation := new Observation(rules.naming, rules.owner, rules.device);
    bound := observation.InventoryTree(tree, "", 0, reliable);
    if bound {
      assert observation.records == RecordsOf(tree, "");
      RecomputedIsTally(GlobalRules(rules.naming, rules.owner, rules.device), tree, observation.Counts());
    }
  }
}
