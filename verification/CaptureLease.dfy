/**
 The adoption of one capture from its staging name to its final name, and the lease that owns the result
 (qualification_attestor/john_lomein_persona_qualification_capture_adoption.py, _adopt_impl and AdoptedCaptureLease).
 */
module CaptureLease {
  import opened Outcomes
  import opened CaptureTree
  import opened CaptureInventory
  import opened CaptureRecords
  import opened CaptureAdoption
  import opened CaptureCleanup

  /** What the provisional name and the final name are bound to. */
  class Parents {
    var staging: Option<Node>
    var destination: Option<Node>

    constructor (staging: Option<Node>, destination: Option<Node>)
      ensures this.staging == staging && this.destination == destination
    {
      this.staging, this.destination := staging, destination;
    }
  }

  datatype CleanupState = Bound | BoundRetry | ParentFsyncRetry | Detached | Closed

  /** What a recovery names when it takes the capture over. */
  datatype Handoff = Handoff(objectId: string, adoptionId: string, evidence: string)

  class Lease {
    const policy: Policy
    const parents: Parents
    const adopted: Node
    const objectId: string
    const adoptionId: string
    var state: CleanupState
    var rootOpen: bool
    var parentOpen: bool
    var handoff: Option<Handoff>

    constructor (policy: Policy, parents: Parents, adopted: Node, objectId: string, adoptionId: string)
      requires parents.destination == Some(adopted)
      requires adopted.DirNode? && adopted.attr.mode == ADOPTED_DIRECTORY_MODE && Recoverable(policy, adopted)
      ensures Valid() && state == Bound
      ensures this.policy == policy && this.parents == parents && this.adopted == adopted
      ensures this.objectId == objectId && this.adoptionId == adoptionId
    {
      this.policy, this.parents, this.adopted, this.objectId, this.adoptionId := policy, parents, adopted, objectId, adoptionId;
      state, rootOpen, parentOpen, handoff := Bound, true, true, None;
    }

    /** The final name is bound to the adopted tree, to a remainder of it that can still be removed, or to nothing. */
    ghost predicate Valid()
      reads this, parents
    {
      && adopted.DirNode? && adopted.attr.mode == ADOPTED_DIRECTORY_MODE && Recoverable(policy, adopted)
      && (Active() <==> rootOpen) && (Active() <==> parentOpen)
      && (handoff.Some? <==> state == Detached)
      && match state
         case Bound => parents.destination == Some(adopted)
         case BoundRetry =>
           && parents.destination.Some?
           && Recoverable(policy, parents.destination.value)
           && (parents.destination.value == adopted || parents.destination.value.attr.mode == BUILDING_DIRECTORY_MODE)
         case ParentFsyncRetry => parents.destination.None?
         case Detached => parents.destination == Some(adopted) && handoff.value.objectId == objectId && handoff.value.adoptionId == adoptionId
         case Closed => parents.destination.None?
    }

    predicate Active()
      reads this
    {
      state in {Bound, BoundRetry, ParentFsyncRetry}
    }

    method CloseDescriptors(reliable: bool) returns (ok: bool)
      modifies this`rootOpen, this`parentOpen
      ensures !rootOpen && !parentOpen
      ensures reliable ==> ok
    {
      var rootFault := Fault(reliable);
      rootOpen := false;
      var parentFault := Fault(reliable);
      parentOpen := false;
      ok := !rootFault && !parentFault;
    }

    /** Removes the capture and closes the lease; after a failure the same call may be tried again. */
    method Cleanup(reliable: bool) returns (ok: bool)
      requires Valid()
      modifies this, parents`destination
      ensures Valid() && handoff == old(handoff)
      ensures !old(Active()) ==> ok && state == old(state) && parents.destination == old(parents.destination)
      ensures old(Active()) ==> state in {BoundRetry, ParentFsyncRetry, Closed}
      ensures old(Active()) && ok ==> state == Closed
      ensures reliable ==> ok
    {
      if !Active() {
        return true;
      }
      if state in {Bound, BoundRetry} {
        var left, removed := UnlinkBoundTree(policy, parents.destination.value, reliable);
        parents.destination := left;
        if !removed {
          state := BoundRetry;
          return false;
        }
        state := ParentFsyncRetry;
      }
      var fault := Fault(reliable);
      if fault {
        state := ParentFsyncRetry;
        return false;
      }
      ok := CloseDescriptors(reliable);
      state := Closed;
    }

    /** The finalizer: a lease that was not handed over cleans up and swallows the error. */
    method Finalize(reliable: bool)
      requires Valid()
      modifies this, parents`destination
      ensures Valid()
      ensures old(state) == Detached ==> state == Detached && parents.destination == old(parents.destination)
      ensures reliable && old(Active()) ==> state == Closed
    {
      if state == Detached {
        return;
      }
      if rootOpen {
        var _ := Cleanup(reliable);
      }
    }

    /** Hands the untouched capture over to recovery; a lease that was handed over answers the same request again. */
    method DeferToRecovery(request: Handoff, reliable: bool) returns (ok: bool)
      requires Valid()
      modifies this
      ensures Valid()
      ensures ok ==> state == Detached && handoff == Some(request)
      ensures !ok ==> state == old(state) || state == Detached
      ensures old(state) == Detached ==> (ok <==> old(handoff) == Some(request)) && state == Detached && handoff == old(handoff)
      ensures state == Detached && old(state) != Detached ==> old(Active()) && old(parents.destination) == Some(adopted)
      ensures reliable && old(state) == Bound ==> (ok <==> request.objectId == objectId && request.adoptionId == adoptionId)
    {
      if handoff.Some? {
        return request == handoff.value;
      }
      if !Active() {
        return false;
      }
      var fault := Fault(reliable);
      if fault || !StillAdopted() || request.objectId != objectId || request.adoptionId != adoptionId {
        return false;
      }
      fault := Fault(reliable);
      if fault || !StillAdopted() {
        return false;
      }
      handoff := Some(request);
      state := Detached;
      ok := CloseDescriptors(reliable);
    }

    /** The post-verifier binding check: the final name still leads to the root as the receipt describes it. */
    predicate StillAdopted()
      requires adopted.DirNode?
      reads this, parents
    {
      && parents.destination.Some?
      && parents.destination.value.DirNode?
      && parents.destination.value.attr == adopted.attr
    }

    /** However many cleanups fail, and however, one that meets no fault removes the capture and closes the lease. */
    method RetryUntilClosed(failures: nat)
      requires Valid() && Active()
      modifies this, parents`destination
      ensures Valid() && state == Closed && parents.destination.None?
    {
      for n := 0 to failures
        invariant Valid() && (Active() || state == Closed)
      {
        var _ := Cleanup(false);
      }
      var _ := Cleanup(true);
    }
  }

  // ----- adoption ------------------------------------------------------------------------------

  datatype Receipt = Receipt(records: seq<Record>, facts: Totals)

  /** Removal of the capture after a failed adoption, under whichever name it is bound. */
  method RemoveBoundTree(policy: Policy, parents: Parents, renamed: bool, reliable: bool)
    requires var bound := if renamed then parents.destination else parents.staging; bound.Some? && bound.value.DirNode?
    modifies parents
    ensures renamed ==> parents.staging == old(parents.staging)
    ensures !renamed ==> parents.destination == old(parents.destination)
    ensures var bound := if renamed then parents.destination else parents.staging;
            var before := if renamed then old(parents.destination) else old(parents.staging);
            && (Recoverable(policy, before.value) && bound.Some? ==> Recoverable(policy, bound.value))
            && (bound.None? ==> Recoverable(policy, before.value))
            && (reliable && Recoverable(policy, before.value) ==> bound.None?)
            && (bound.Some? ==> bound.value.DirNode? && KeepsUnfit(policy, before.value, bound.value, 0))
  {
    var tree := if renamed then parents.destination.value else parents.staging.value;
    var left, _ := UnlinkBoundTree(policy, tree, reliable);
    if renamed {
      parents.destination := left;
    } else {
      parents.staging := left;
    }
  }

  /** Everything up to and including the rename; `staging` holds the tree as far as it got. */
  method TransformAndRename(policy: Policy, parents: Parents, reliable: bool) returns (ok: bool, records: seq<Record>, facts: Totals)
    requires parents.staging.Some? && parents.staging.value.DirNode?
    modifies parents
    ensures var captured := old(parents.staging).value;
            && (ok ==> && MeetsPolicy(policy.RulesFor(policy.Provisional()), captured)
                       && old(parents.destination).None? && parents.staging.None?
                       && parents.destination == Some(Revoked(AdoptedTree(policy, captured)))
                       && records == RecordsOf(captured, "") && facts == Tally(captured, 0))
            && (!ok ==> && parents.destination == old(parents.destination)
                        && parents.staging.Some? && parents.staging.value.DirNode?
                        && (MeetsPolicy(policy.RulesFor(policy.Provisional()), captured) ==> Recoverable(policy, parents.staging.value))
                        && (!MeetsPolicy(policy.RulesFor(policy.Provisional()), captured) ==> parents.staging == old(parents.staging)))
            && (reliable ==> (ok <==> MeetsPolicy(policy.RulesFor(policy.Provisional()), captured) && old(parents.destination).None?))
  {
    hide Acceptable, Tally, HalfAdopted, Removable, RecordsOf, NamesBelow;
    var captured := parents.staging.value;
    var accepted, provisional := TakeInventory(policy.RulesFor(policy.Provisional()), captured, reliable);
    records, facts := provisional.records, provisional.Counters();
    if !accepted {
      UntouchedIsRecoverable(policy, captured);
      return false, records, facts;
    }
    var after;
    after, ok := AdoptTree(policy, captured, 0, reliable);
    parents.staging := Some(after);
    AdoptionStaysRecoverable(policy, captured, after);
    StaysDirectory(policy, captured, after);
    if !ok {
      return false, records, facts;
    }
    AdoptedMeetsPolicy(policy, captured);
    var again, adopted := TakeInventory(policy.RulesFor(policy.Adopted()), after, reliable);
    if !again || adopted.records != records || adopted.Counters() != facts {
      return false, records, facts;
    }
    var fault := Fault(reliable);
    if fault {
      return false, records, facts;
    }
    parents.staging := Some(Revoked(after));
    RenameWindowIsRecoverable(policy, after);
    fault := Fault(reliable);
    if fault || parents.destination.Some? {
      return false, records, facts;
    }
    parents.destination, parents.staging := parents.staging, None;
    return true, records, facts;
  }

  lemma StaysDirectory(policy: Policy, before: Node, after: Node)
    requires HalfAdopted(policy, before, after)
    ensures after.DirNode? <==> before.DirNode?
  {
  }

  lemma UntouchedIsRecoverable(policy: Policy, captured: Node)
    ensures MeetsPolicy(policy.RulesFor(policy.Provisional()), captured) ==> Recoverable(policy, captured)
  {
    if MeetsPolicy(policy.RulesFor(policy.Provisional()), captured) {
      Untouched(policy, captured);
      AdoptionStaysRecoverable(policy, captured, captured);
    }
  }

  /**
   Adopts the capture bound to the staging name.  On success the final name holds the fully adopted tree
   with the captured content; on failure the capture is under one name only and, if it was acceptable,
   what is left of it can still be removed.
   */
  method AdoptCapture(policy: Policy, parents: Parents, objectId: string, adoptionId: string, reliable: bool)
    returns (lease: Option<Lease>, receipt: Receipt)
    requires parents.staging.Some? && parents.staging.value.DirNode? && parents.staging.value.attr.device == policy.device
    modifies parents
    ensures var captured := old(parents.staging).value;
            lease.Some? ==>
              && MeetsPolicy(policy.RulesFor(policy.Provisional()), captured)
              && old(parents.destination).None?
              && parents.staging.None? && parents.destination == Some(AdoptedTree(policy, captured))
              && fresh(lease.value) && lease.value.Valid() && lease.value.state == Bound && lease.value.parents == parents
              && lease.value.adopted == AdoptedTree(policy, captured)
              && receipt == Receipt(RecordsOf(captured, ""), Tally(captured, 0))
    ensures var captured := old(parents.staging).value;
            lease.None? && MeetsPolicy(policy.RulesFor(policy.Provisional()), captured) ==>
              && (parents.destination == old(parents.destination) || (old(parents.destination).None? && parents.staging.None?))
              && (parents.staging.Some? ==> Recoverable(policy, parents.staging.value))
              && (parents.destination.Some? && old(parents.destination).None? ==> Recoverable(policy, parents.destination.value))
    ensures !MeetsPolicy(policy.RulesFor(policy.Provisional()), old(parents.staging).value) ==>
              && lease.None? && parents.destination == old(parents.destination)
              && (parents.staging.Some? && Recoverable(policy, old(parents.staging).value) ==>
                    Recoverable(policy, parents.staging.value))
              && (parents.staging.Some? ==> KeepsUnfit(policy, old(parents.staging).value, parents.staging.value, 0))
              && (parents.staging.None? ==> Recoverable(policy, old(parents.staging).value))
              && (reliable ==> (parents.staging.None? <==> Recoverable(policy, old(parents.staging).value)))
    ensures reliable ==>
              (lease.Some? <==> MeetsPolicy(policy.RulesFor(policy.Provisional()), old(parents.staging).value)
                                && old(parents.destination).None?)
    ensures reliable && lease.None? && MeetsPolicy(policy.RulesFor(policy.Provisional()), old(parents.staging).value) ==>
              parents.staging.None? && parents.destination == old(parents.destination)
  {
    hide Acceptable, Tally, HalfAdopted, Removable, RecordsOf, NamesBelow, AdoptedTree, KeepsUnfit;
    var captured := parents.staging.value;
    var moved, records, facts := TransformAndRename(policy, parents, reliable);
    receipt := Receipt(records, facts);
    if !moved {
      RemoveBoundTree(policy, parents, false, reliable);
      return None, receipt;
    }
    AdoptedShape(policy, captured);
    AdoptedMeetsPolicy(policy, captured);
    var fault := Fault(reliable);
    if fault {
      RemoveBoundTree(policy, parents, true, reliable);
      return None, receipt;
    }
    var root := parents.destination.value;
    var adopted := DirNode(root.attr.(mode := ADOPTED_DIRECTORY_MODE), root.entries);
    parents.destination := Some(adopted);
    fault := Fault(reliable);
    var accepted, inventory := TakeInventory(policy.RulesFor(policy.Adopted()), adopted, reliable);
    if fault || !accepted || inventory.records != records {
      RemoveBoundTree(policy, parents, true, reliable);
      return None, receipt;
    }
    var held := new Lease(policy, parents, adopted, objectId, adoptionId);
    return Some(held), receipt;
  }

  lemma AdoptedShape(policy: Policy, captured: Node)
    requires MeetsPolicy(policy.RulesFor(policy.Provisional()), captured)
    ensures var adopted := AdoptedTree(policy, captured);
            && adopted.DirNode? && adopted.attr.mode == ADOPTED_DIRECTORY_MODE
            && Recoverable(policy, adopted) && Recoverable(policy, Revoked(adopted))
            && DirNode(Revoked(adopted).attr.(mode := ADOPTED_DIRECTORY_MODE), Revoked(adopted).entries) == adopted
  {
    AdoptedIsHalfAdopted(policy, captured, 0);
    AdoptionStaysRecoverable(policy, captured, AdoptedTree(policy, captured));
    RenameWindowIsRecoverable(policy, AdoptedTree(policy, captured));
  }
}
