/**
 The inventory traversal of the adoption and of its recovery, with running counters
 (john_lomein_persona_qualification_capture_adoption.py and
 john_lomein_persona_qualification_adoption_recovery.py, _inventory_tree), proved against the policy of
 the whole tree.  The two differ in their bound on one directory's entries and in their rule on names.
 */
module CaptureInventory {
  import opened Outcomes
  import opened CaptureTree

  /** A system call may fail for reasons outside the model; `reliable` says that none does. */
  method Fault(reliable: bool) returns (fault: bool)
    ensures reliable ==> !fault
  {
    fault := *;
    if reliable {
      fault := false;
    }
  }

  const READ_CHUNK := 64 * 1024

  /** Reads a file in chunks, each of at least one byte while there is more, and stops beyond the permitted size. */
  method ReadDigest(content: Bytes, maximum: nat, reliable: bool) returns (ok: bool, size: nat, sha256: ContentDigest)
    ensures ok ==> size == |content| <= maximum && sha256 == ContentDigest(content)
    ensures reliable && |content| <= maximum ==> ok
  {
    var raw: Bytes := [];
    while |raw| <= maximum && |raw| < |content|
      invariant raw <= content
      decreases |content| - |raw|
    {
      var fault := Fault(reliable);
      if fault {
        return false, 0, ContentDigest([]);
      }
      var wanted := if READ_CHUNK < maximum + 1 - |raw| then READ_CHUNK else maximum + 1 - |raw|;
      var read :| 1 <= read <= wanted && read <= |content| - |raw|;
      raw := raw + content[|raw|..|raw| + read];
    }
    assert |raw| == |content| ==> raw == content;
    return |raw| <= maximum, |raw|, ContentDigest(raw);
  }

  class Inventory {
    const rules: Rules
    var records: seq<Record>
    var files: nat
    var directories: nat
    var totalBytes: nat
    var largestFileBytes: nat
    var maximumDepth: nat

    constructor (rules: Rules)
      ensures this.rules == rules && records == [] && Counters() == NOTHING
    {
      this.rules := rules;
      records, files, directories, totalBytes, largestFileBytes, maximumDepth := [], 0, 0, 0, 0, 0;
    }

    function Counters(): Totals
      reads this
    {
      Totals(files, directories, totalBytes, largestFileBytes, maximumDepth)
    }

    /** How many entries a directory may list, given what has been counted before it. */
    function EntryBound(): int
      reads this
    {
      var total := rules.limits.maxFiles + rules.limits.maxDirectories;
      if rules.reader == Adopting then total - files - directories + 1
      else Max(0, if total >= files + directories then total - files - directories else 0)
    }

    method InventoryFile(file: Node, path: string, ghost depth: nat, reliable: bool) returns (ok: bool)
      requires file.FileNode? && Within(rules.limits, Counters())
      modifies this
      ensures ok ==> Acceptable(rules, file, depth) && Within(rules.limits, Counters())
      ensures ok ==> Counters() == Plus(old(Counters()), Tally(file, depth)) && records == old(records) + RecordsOf(file, path)
      ensures reliable && Acceptable(rules, file, depth) && Within(rules.limits, Plus(old(Counters()), Tally(file, depth))) ==> ok
    {
      var fault := Fault(reliable);
      if fault || !FileAcceptable(rules, file) {
        return false;
      }
      var read, size, sha256 := ReadDigest(file.content, rules.limits.maxFileBytes, reliable);
      if !read {
        return false;
      }
      files := files + 1;
      totalBytes := totalBytes + size;
      largestFileBytes := Max(largestFileBytes, size);
      if files > rules.limits.maxFiles || totalBytes > rules.limits.maxBytes {
        return false;
      }
      records := records + [FileRecord(path, size, sha256)];
      return true;
    }

    /** Inventories one directory of the capture, adding to the records and counters. */
    method InventoryTree(node: Node, prefix: string, depth: nat, reliable: bool) returns (ok: bool)
      requires node.DirNode? && Within(rules.limits, Counters())
      modifies this
      decreases node, 1
      ensures ok ==> Acceptable(rules, node, depth) && Within(rules.limits, Counters())
      ensures ok ==> Counters() == Plus(old(Counters()), Tally(node, depth)) && records == old(records) + RecordsOf(node, prefix)
      ensures reliable && Acceptable(rules, node, depth) && Within(rules.limits, Plus(old(Counters()), Tally(node, depth))) ==> ok
    {
      hide RecordsIn, TallyIn;
      if depth > rules.limits.maxDepth || !HasOwner(node.attr, rules.owner, rules.owner.directoryMode, rules.device) {
        return false;
      }
      ghost var before := Counters();
      ghost var recorded := records;
      directories := directories + 1;
      maximumDepth := Max(maximumDepth, depth);
      if directories > rules.limits.maxDirectories {
        return false;
      }
      records := records + [DirRecord(prefix)];
      BoundIsImplied(rules, node, depth, before);
      if |node.entries| > EntryBound() || !NamesOk(rules.reader, rules.naming, node.entries) {
        return false;
      }
      PlusAssociates(before, Totals(0, 1, 0, 0, depth), TallyIn(node.entries, depth + 1));
      ok := InventoryEntries(node, prefix, depth, reliable);
      if ok {
        assert recorded + [DirRecord(prefix)] + RecordsIn(node.entries, prefix) == recorded + RecordsOf(node, prefix);
        var fault := Fault(reliable);
        ok := !fault;
      }
    }

    /** The loop over a directory's entries. */
    method InventoryEntries(node: Node, prefix: string, depth: nat, reliable: bool) returns (ok: bool)
      requires node.DirNode? && Within(rules.limits, Counters())
      modifies this
      decreases node, 0
      ensures ok ==> (forall i | 0 <= i < |node.entries| :: Acceptable(rules, node.entries[i].node, depth + 1))
      ensures ok ==> Within(rules.limits, Counters())
      ensures ok ==> Counters() == Plus(old(Counters()), TallyIn(node.entries, depth + 1))
      ensures ok ==> records == old(records) + RecordsIn(node.entries, prefix)
      ensures (&& reliable
               && (forall i | 0 <= i < |node.entries| :: Acceptable(rules, node.entries[i].node, depth + 1))
               && Within(rules.limits, Plus(old(Counters()), TallyIn(node.entries, depth + 1)))) ==> ok
    {
      hide Plus, Tally, TallyIn, RecordsIn, RecordsOf, Acceptable, Within;
      var entries := node.entries;
      ghost var start := Counters();
      ghost var recorded := records;
      var n := 0;
      StartOfListing(rules, start, depth + 1, prefix);
      assert entries[..0] == [];
      while n < |entries|
        invariant 0 <= n <= |entries|
        invariant Within(rules.limits, Counters())
        invariant Counters() == Plus(start, TallyIn(entries[..n], depth + 1))
        invariant records == recorded + RecordsIn(entries[..n], prefix)
        invariant forall i | 0 <= i < n :: Acceptable(rules, entries[i].node, depth + 1)
      {
        var child := entries[n].node;
        var path := Join(prefix, entries[n].name);
        PrefixFits(rules.limits, start, entries, n, depth + 1);
        PrefixRecords(entries, n, prefix);
        ghost var soFar := records;
        match child {
          case DirNode(_, _) => ok := InventoryTree(child, path, depth + 1, reliable);
          case FileNode(_, _, _) => ok := InventoryFile(child, path, depth + 1, reliable);
          case SpecialNode => ok := false;
        }
        if !ok {
          return false;
        }
        assert records == soFar + RecordsOf(child, path);
        n := n + 1;
      }
      assert entries[..n] == entries;
      return true;
    }
  }

  lemma StartOfListing(rules: Rules, start: Totals, depth: nat, prefix: string)
    ensures Plus(start, TallyIn([], depth)) == start && RecordsIn([], prefix) == []
    ensures !Acceptable(rules, SpecialNode, depth)
  {
  }

  lemma PrefixRecords(entries: seq<Entry>, n: nat, prefix: string)
    requires n < |entries|
    ensures RecordsIn(entries[..n + 1], prefix)
            == RecordsIn(entries[..n], prefix) + RecordsOf(entries[n].node, Join(prefix, entries[n].name))
  {
    assert entries[..n + 1][..n] == entries[..n];
  }

  /** Counting one more entry stays within what the whole directory counts. */
  lemma PrefixFits(limits: Limits, start: Totals, entries: seq<Entry>, n: nat, depth: nat)
    requires n < |entries|
    ensures Plus(start, TallyIn(entries[..n + 1], depth)) == Plus(Plus(start, TallyIn(entries[..n], depth)), Tally(entries[n].node, depth))
    ensures Within(limits, Plus(start, TallyIn(entries, depth))) ==> Within(limits, Plus(start, TallyIn(entries[..n + 1], depth)))
  {
    hide TallyIn;
    TallyPrefix(entries, n, depth);
    PlusAssociates(start, TallyIn(entries[..n], depth), Tally(entries[n].node, depth));
  }

  /** The bound on one directory's entries refuses no tree whose totals are within the limits. */
  lemma BoundIsImplied(rules: Rules, node: Node, depth: nat, before: Totals)
    requires node.DirNode?
    ensures Acceptable(rules, node, depth) && Within(rules.limits, Plus(before, Tally(node, depth))) ==>
              |node.entries| <= rules.limits.maxFiles + rules.limits.maxDirectories - before.files - before.directories - 1
  {
    if Acceptable(rules, node, depth) {
      assert forall i | 0 <= i < |node.entries| :: Acceptable(rules, node.entries[i].node, depth + 1);
      EntriesAreCounted(node.entries, depth + 1);
    }
  }

  /** An inventory from scratch accepts exactly the trees that meet the policy as a whole. */
  method TakeInventory(rules: Rules, tree: Node, reliable: bool) returns (ok: bool, inventory: Inventory)
    requires tree.DirNode?
    ensures fresh(inventory) && inventory.rules == rules
    ensures ok ==> MeetsPolicy(rules, tree)
    ensures reliable ==> (ok <==> MeetsPolicy(rules, tree))
    ensures ok ==> inventory.records == RecordsOf(tree, "") && inventory.Counters() == Tally(tree, 0)
  {
    inventory := new Inventory(rules);
    ok := inventory.InventoryTree(tree, "", 0, reliable);
  }
}
