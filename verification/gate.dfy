/** The hardware compatibility gate in front of the three driver items
    (`_block_incompatible`): a driver for a GPU vendor that was not detected
    is refused before anything else happens. */
module Gate {
  import opened Wrappers

  /** Why an item was refused; each reason has its own error dialog. */
  datatype BlockReason = NoNvidiaGpu | AmdCpuWithoutIntelGpu | NoIntelGpu | NoAmdGpu

  /** The GPU vendors the gate considers: the vendors cached at start-up, or
      a fresh detection when that list is empty, together with the vendors
      whose kernel modules are loaded. */
  function GateVendors(cached: seq<string>, detected: seq<string>, modules: seq<string>): (vendors: set<string>)
    ensures forall i :: 0 <= i < |modules| ==> modules[i] in vendors
    ensures cached != [] ==> forall i :: 0 <= i < |cached| ==> cached[i] in vendors
    ensures cached == [] ==> forall i :: 0 <= i < |detected| ==> detected[i] in vendors
    ensures forall v :: v in vendors ==> v in modules || v in cached || v in detected
    ensures cached != [] ==> forall v :: v in vendors ==> v in modules || v in cached
  {
    var listed := if cached != [] then cached else detected;
    set v | v in listed + modules
  }

  /** The CPU vendor, cached or freshly detected, or "desconhecido" when
      neither is known (the empty string). */
  function GateCpu(cached: string, detected: string): (cpu: string)
    ensures cpu != []
    ensures cpu == "amd" <==> cached == "amd" || (cached == [] && detected == "amd")
  {
    if cached != [] then cached else if detected != [] then detected else "desconhecido"
  }

  /** `_block_incompatible`, with the error dialog it shows as the reason. */
  function BlockIncompatible(itemId: string, vendors: set<string>, cpu: string): (r: Option<BlockReason>)
    ensures r.Some? <==>
      || (itemId == "nvidia-driver" && "nvidia" !in vendors)
      || (itemId == "intel-mesa" && "intel" !in vendors)
      || (itemId == "amd-mesa" && "amd" !in vendors)
    ensures r == Some(NoNvidiaGpu) <==> itemId == "nvidia-driver" && "nvidia" !in vendors
    ensures r == Some(AmdCpuWithoutIntelGpu) <==> itemId == "intel-mesa" && "intel" !in vendors && cpu == "amd"
    ensures r == Some(NoIntelGpu) <==> itemId == "intel-mesa" && "intel" !in vendors && cpu != "amd"
    ensures r == Some(NoAmdGpu) <==> itemId == "amd-mesa" && "amd" !in vendors
  {
    if itemId == "nvidia-driver" && "nvidia" !in vendors then Some(NoNvidiaGpu)
    else if itemId == "intel-mesa" && "intel" !in vendors then
      if cpu == "amd" then Some(AmdCpuWithoutIntelGpu) else Some(NoIntelGpu)
    else if itemId == "amd-mesa" && "amd" !in vendors then Some(NoAmdGpu)
    else None
  }

  /** The whole gate on the raw detection results. */
  function Gate(itemId: string, cachedGpus: seq<string>, detectedGpus: seq<string>, modules: seq<string>,
                cachedCpu: string, detectedCpu: string): (r: Option<BlockReason>)
    ensures var listed := if cachedGpus != [] then cachedGpus else detectedGpus;
      r.Some? <==>
        || (itemId == "nvidia-driver" && "nvidia" !in listed && "nvidia" !in modules)
        || (itemId == "intel-mesa" && "intel" !in listed && "intel" !in modules)
        || (itemId == "amd-mesa" && "amd" !in listed && "amd" !in modules)
    ensures r == Some(AmdCpuWithoutIntelGpu) <==>
      r.Some? && itemId == "intel-mesa" && (cachedCpu == "amd" || (cachedCpu == [] && detectedCpu == "amd"))
  {
    BlockIncompatible(itemId, GateVendors(cachedGpus, detectedGpus, modules), GateCpu(cachedCpu, detectedCpu))
  }

  /** Only the three driver items are ever refused. */
  lemma OnlyDriversBlocked(itemId: string, cachedGpus: seq<string>, detectedGpus: seq<string>, modules: seq<string>,
                           cachedCpu: string, detectedCpu: string)
    requires itemId != "nvidia-driver" && itemId != "intel-mesa" && itemId != "amd-mesa"
    ensures Gate(itemId, cachedGpus, detectedGpus, modules, cachedCpu, detectedCpu) == None
  {
  }

  /** Detecting more vendors never refuses more: what passes the gate with
      fewer vendors passes it with more. */
  lemma MoreVendorsBlockLess(itemId: string, fewer: set<string>, more: set<string>, cpu: string)
    requires fewer <= more
    ensures BlockIncompatible(itemId, more, cpu).Some? ==> BlockIncompatible(itemId, fewer, cpu).Some?
  {
  }

  /** A loaded kernel module of the vendor lets its driver through whatever
      the PCI scan found. */
  lemma LoadedModuleUnblocks(itemId: string, cachedGpus: seq<string>, detectedGpus: seq<string>, modules: seq<string>,
                             cachedCpu: string, detectedCpu: string)
    requires itemId == "nvidia-driver" ==> "nvidia" in modules
    requires itemId == "intel-mesa" ==> "intel" in modules
    requires itemId == "amd-mesa" ==> "amd" in modules
    ensures Gate(itemId, cachedGpus, detectedGpus, modules, cachedCpu, detectedCpu) == None
  {
    var vendors := GateVendors(cachedGpus, detectedGpus, modules);
    assert forall v :: v in modules ==> v in vendors by {
      forall v | v in modules ensures v in vendors {
        var i :| 0 <= i < |modules| && modules[i] == v;
      }
    }
  }

  /** The cached vendor list is used only when non-empty: with nothing cached
      the decision is the fresh detection's. */
  lemma EmptyCacheUsesFreshDetection(itemId: string, detectedGpus: seq<string>, modules: seq<string>,
                                     detectedCpu: string)
    ensures Gate(itemId, [], detectedGpus, modules, "", detectedCpu)
         == BlockIncompatible(itemId, GateVendors(detectedGpus, [], modules), GateCpu(detectedCpu, ""))
  {
    assert GateVendors([], detectedGpus, modules) == GateVendors(detectedGpus, [], modules);
  }
}
