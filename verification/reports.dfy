/** Who reports a physical device, read off the trace of calls. */
module Reports {
  import opened Registries
  import opened NativeDriver
  import opened Linking

  predicate Lists(call: Call, instance: Native, native: Native) {
    call.Retrieve? && call.kind == PhysicalDevice && call.under == instance && native in call.found
  }

  predicate EndsInstance(call: Call, instance: Native) {
    call.Destroy? && call.kind == Instance && call.native == instance
  }

  /** The instance has listed the physical device, and has not been destroyed since. */
  ghost predicate StillListed(trace: seq<Call>, instance: Native, native: Native) {
    exists k :: 0 <= k < |trace| && ListedAt(trace, instance, native, k)
  }

  ghost predicate ListedAt(trace: seq<Call>, instance: Native, native: Native, k: nat)
    requires k < |trace|
  {
    Lists(trace[k], instance, native) && forall m :: k < m < |trace| ==> !EndsInstance(trace[m], instance)
  }

  lemma ListedSnoc(trace: seq<Call>, instance: Native, native: Native)
    requires trace != []
    ensures var n := |trace| - 1;
      StillListed(trace, instance, native) <==>
      Lists(trace[n], instance, native)
      || (StillListed(trace[..n], instance, native) && !EndsInstance(trace[n], instance))
  {
    var n := |trace| - 1;
    hide Lists, EndsInstance;
    if Lists(trace[n], instance, native) {
      assert ListedAt(trace, instance, native, n);
    }
    if k :| 0 <= k < n && ListedAt(trace[..n], instance, native, k) && !EndsInstance(trace[n], instance) {
      assert forall m :: k < m < n ==> trace[..n][m] == trace[m];
      assert ListedAt(trace, instance, native, k);
    }
    if k :| 0 <= k < n && ListedAt(trace, instance, native, k) {
      assert forall m :: k < m < n ==> trace[..n][m] == trace[m];
      assert ListedAt(trace[..n], instance, native, k);
    }
  }

  lemma OwnerStep(drv: Driver, call: Call, instance: Native, native: Native)
    requires Conforms(drv, call)
    ensures OwnerIs(Apply(drv, call).owner, Ref(PhysicalDevice, native), instance) <==>
            Lists(call, instance, native)
            || (OwnerIs(drv.owner, Ref(PhysicalDevice, native), instance) && !EndsInstance(call, instance))
  {
  }

  /** The driver's owner of a physical device is the instance that still lists it. */
  lemma {:induction false} OwnerIsLister(trace: seq<Call>, instance: Native, native: Native)
    requires ConformingTrace(trace)
    ensures OwnerIs(Drive(trace).owner, Ref(PhysicalDevice, native), instance) <==> StillListed(trace, instance, native)
  {
    hide Conforms, Apply, Lists, EndsInstance, StillListed, OwnerIs;
    if trace == [] {
      NothingListed(instance, native);
    } else {
      var n := |trace| - 1;
      OwnerIsLister(trace[..n], instance, native);
      ListedSnoc(trace, instance, native);
      OwnerStep(Drive(trace[..n]), trace[n], instance, native);
    }
  }

  lemma NothingListed(instance: Native, native: Native)
    ensures !OwnerIs(NativeDriver.INITIAL.owner, Ref(PhysicalDevice, native), instance)
    ensures !StillListed([], instance, native)
  {
  }
}
