/** Container resources and node placement of a step (`_set_container_resources`,
    `_create_resource_based_node_type_toleration`): requests and limits,
    shared memory, and the node affinity and tolerations that steer the pod
    onto accelerator, spot or large nodes. */
module Scheduling {
  import opened Results
  import opened Text
  import opened Decorators

  datatype Toleration = Toleration(effect: string, key: string, operator: string, value: string)

  /** One match expression of a node-selector term. */
  datatype SelectorRequirement = SelectorRequirement(key: string, operator: string, values: seq<string>)

  datatype GpuLimit = GpuLimit(count: string, vendor: string)

  /** An in-memory `emptyDir` volume mounted at `mountPath`. */
  datatype MemoryVolume = MemoryVolume(name: string, mountPath: string, sizeLimit: string)

  /** Requests and limits: memory and cpu are each set as both request and limit. */
  datatype ContainerResources = ContainerResources(
    memory: Option<string>,
    cpu: Option<string>,
    gpu: Option<GpuLimit>,
    sharedMemory: Option<MemoryVolume>)

  /** The scheduling constraints of one pod: its tolerations, and the match
      expressions of the single required node-selector term, if any. */
  datatype Placement = Placement(tolerations: seq<Toleration>, nodeSelectorTerm: Option<seq<SelectorRequirement>>)

  const AcceleratorKey := "k8s.amazonaws.com/accelerator"
  const CapacityTypeKey := "node.k8s.zgtools.net/capacity-type"
  const PurposeKey := "node.k8s.zgtools.net/purpose"

  const HighMemoryToleration := Toleration("NoSchedule", PurposeKey, "Equal", "high-memory")
  const SpotToleration := Toleration("NoSchedule", CapacityTypeKey, "Equal", "spot")
  const SpotRequirement := SelectorRequirement(CapacityTypeKey, "In", ["spot"])

  function AcceleratorToleration(acceleratorType: string): Toleration {
    Toleration("NoSchedule", AcceleratorKey, "Equal", acceleratorType)
  }

  function AcceleratorRequirement(acceleratorType: string): SelectorRequirement {
    SelectorRequirement(AcceleratorKey, "In", [acceleratorType])
  }

  /** Half of a 16 vCPU / 32 GB node: 16 GB of memory (GB, not GiB) and 8 vCPU. */
  const MemoryThresholdBytes := 16_000_000_000
  const CpuThresholdMillicores := 8000

  /** `_create_resource_based_node_type_toleration`, with the parsed cpu in
      millicores and the parsed memory in bytes. */
  function ResourceBasedToleration(cpuMillicores: int, memoryBytes: int): (r: Option<Toleration>)
    ensures r.Some? <==> memoryBytes >= 16_000_000_000 || cpuMillicores >= 8000
    ensures r.Some? ==> r.value == HighMemoryToleration
  {
    if memoryBytes >= MemoryThresholdBytes || cpuMillicores >= CpuThresholdMillicores then Some(HighMemoryToleration)
    else None
  }

  /** The accelerator type a component asks for, when its accelerator decorator
      names one (a missing or empty `type` asks for nothing). */
  function RequestedAccelerator(accelerator: Option<Option<string>>): Option<string> {
    if accelerator.Some? && Truthy(accelerator.value) then accelerator.value else None
  }

  /** The requests, limits and shared-memory volume of `_set_container_resources`.
      The GPU vendor defaults to nvidia when absent or empty. */
  function ContainerResourcesOf(stepName: string, rr: map<string, string>): (r: ContainerResources)
    ensures r.memory.Some? <==> "memory" in rr
    ensures r.cpu.Some? <==> "cpu" in rr
    ensures r.gpu.Some? <==> "gpu" in rr
    ensures r.gpu.Some? ==> r.gpu.value.vendor != ""
    ensures r.sharedMemory.Some? <==> "shared_memory" in rr
    ensures r.sharedMemory.Some? ==> ValidVolumeName(r.sharedMemory.value.name)
    // Memory and cpu are passed through as given.
    ensures "memory" in rr ==> r.memory == Some(rr["memory"])
    ensures "cpu" in rr ==> r.cpu == Some(rr["cpu"])
    // The GPU count as given, from the requested vendor or else nvidia.
    ensures "gpu" in rr ==> r.gpu.value.count == rr["gpu"]
    ensures "gpu" in rr && "gpu_vendor" in rr && rr["gpu_vendor"] != "" ==> r.gpu.value.vendor == rr["gpu_vendor"]
    ensures "gpu" in rr && ("gpu_vendor" !in rr || rr["gpu_vendor"] == "") ==> r.gpu.value.vendor == "nvidia"
    // Shared memory is the step's `-shm` volume of the requested size at `dev/shm`.
    ensures "shared_memory" in rr ==>
              && r.sharedMemory.value.name == SharedMemoryVolumeName(stepName)
              && r.sharedMemory.value.mountPath == "dev/shm"
              && r.sharedMemory.value.sizeLimit == rr["shared_memory"]
  {
    var gpuVendor := if "gpu_vendor" in rr && rr["gpu_vendor"] != "" then rr["gpu_vendor"] else "nvidia";
    ContainerResources(
      if "memory" in rr then Some(rr["memory"]) else None,
      if "cpu" in rr then Some(rr["cpu"]) else None,
      if "gpu" in rr then Some(GpuLimit(rr["gpu"], gpuVendor)) else None,
      if "shared_memory" in rr then Some(MemoryVolume(SharedMemoryVolumeName(stepName), "dev/shm", rr["shared_memory"])) else None)
  }

  /** From the decorators to the container: memory, cpu, a GPU and shared
      memory are requested iff some resources decorator sets them. */
  lemma ContainerResourcesOfDecorators(stepName: string, decos: seq<Decorator>)
    requires ResourceRequirements(decos).Ok?
    ensures var c := ContainerResourcesOf(stepName, ResourceRequirements(decos).value);
            && (c.memory.Some? <==> exists i :: 0 <= i < |decos| && SetsResource(decos[i], "memory"))
            && (c.cpu.Some? <==> exists i :: 0 <= i < |decos| && SetsResource(decos[i], "cpu"))
            && (c.gpu.Some? <==> exists i :: 0 <= i < |decos| && SetsResource(decos[i], "gpu"))
            && (c.sharedMemory.Some? <==> exists i :: 0 <= i < |decos| && SetsResource(decos[i], "shared_memory"))
  {
    ResourceRequirementsKeys(decos);
  }

  /** The memory or cpu the container requests is the formatted value of the
      last resources decorator that sets it. */
  lemma ContainerRequestOfLastDecorator(stepName: string, decos: seq<Decorator>, key: string)
    requires ResourceRequirements(decos).Ok?
    requires key == "memory" || key == "cpu"
    ensures var c := ContainerResourcesOf(stepName, ResourceRequirements(decos).value);
            var v := if key == "memory" then c.memory else c.cpu;
            v.Some? ==>
              exists i :: 0 <= i < |decos| && SetsResource(decos[i], key)
                && v.value == ToK8sResourceFormat(key, decos[i].kind.attributes[key].value)
                && forall j :: i < j < |decos| ==> !SetsResource(decos[j], key)
  {
    if key in ResourceRequirements(decos).value {
      ResourceRequirementsLastWins(decos, key);
    }
  }

  /** No upper-case letter and no underscore, as Kubernetes volume names require. */
  predicate ValidVolumeName(name: string) {
    forall i :: 0 <= i < |name| ==> name[i] != '_' && !('A' <= name[i] <= 'Z')
  }

  /** The shared-memory volume name: the step name lower-cased, with `_` turned
      into `-`, followed by `-shm`. */
  function SharedMemoryVolumeName(stepName: string): (name: string)
    ensures ValidVolumeName(name)
    ensures |name| == |stepName| + 4
    ensures name[|stepName|..] == "-shm"
    ensures forall i :: 0 <= i < |stepName| ==>
              name[i] == if stepName[i] == '_' then '-' else LowerChar(stepName[i])
  {
    ReplaceChar(Lower(stepName), '_', '-') + "-shm"
  }

  /** A step name that is already a valid volume name is kept as it is. */
  lemma SharedMemoryVolumeNameKeepsValid(stepName: string)
    requires ValidVolumeName(stepName)
    ensures SharedMemoryVolumeName(stepName) == stepName + "-shm"
  {
    var name := SharedMemoryVolumeName(stepName);
    assert forall i :: 0 <= i < |stepName| ==> name[i] == stepName[i];
    assert name == name[..|stepName|] + name[|stepName|..];
  }

  /** The placement part of `_set_container_resources`. `cpuMillicores` and
      `memoryBytes` stand for the resource-quantity parsers of the pipeline
      library, applied to the requirement or to `"0"` when it is absent. */
  function PlacementOf(
    rr: map<string, string>,
    accelerator: Option<Option<string>>,
    interruptible: bool,
    cpuMillicores: string -> int,
    memoryBytes: string -> int): (r: Placement)
    // The accelerator type, when given, brings its match expression and toleration.
    ensures forall t :: AcceleratorToleration(t) in r.tolerations <==> RequestedAccelerator(accelerator) == Some(t)
    ensures RequestedAccelerator(accelerator).Some? ==>
              r.nodeSelectorTerm.Some? && |r.nodeSelectorTerm.value| > 0 && r.nodeSelectorTerm.value[0] == AcceleratorRequirement(RequestedAccelerator(accelerator).value)
    // Large pods tolerate the large-node taint, unless an accelerator decorator or a GPU is involved.
    ensures HighMemoryToleration in r.tolerations <==>
              accelerator.None? && "gpu" !in rr &&
              (memoryBytes(if "memory" in rr then rr["memory"] else "0") >= MemoryThresholdBytes ||
               cpuMillicores(if "cpu" in rr then rr["cpu"] else "0") >= CpuThresholdMillicores)
    // Spot capacity is asked for in addition to, not instead of, the accelerator.
    ensures SpotToleration in r.tolerations <==> interruptible
    ensures interruptible ==> r.nodeSelectorTerm.Some? && SpotRequirement in r.nodeSelectorTerm.value
    ensures r.nodeSelectorTerm.Some? ==> (SpotRequirement in r.nodeSelectorTerm.value <==> interruptible)
    ensures interruptible ==> r.nodeSelectorTerm.value[|r.nodeSelectorTerm.value| - 1] == SpotRequirement
    // The term holds the accelerator expression and the spot expression, and nothing else.
    ensures r.nodeSelectorTerm.Some? ==>
              |r.nodeSelectorTerm.value| == (if RequestedAccelerator(accelerator).Some? then 1 else 0) + (if interruptible then 1 else 0)
    // A node-selector term is attached only when it has a match expression.
    ensures r.nodeSelectorTerm.Some? <==> RequestedAccelerator(accelerator).Some? || interruptible
    ensures r.nodeSelectorTerm.Some? ==> |r.nodeSelectorTerm.value| > 0
    ensures forall t :: t in r.tolerations ==> t == HighMemoryToleration || t == SpotToleration || t.key == AcceleratorKey
  {
    var acceleratorType := RequestedAccelerator(accelerator);
    var acceleratorTerms := if acceleratorType.Some? then [AcceleratorRequirement(acceleratorType.value)] else [];
    var acceleratorTolerations := if acceleratorType.Some? then [AcceleratorToleration(acceleratorType.value)] else [];
    var sizeTolerations :=
      if accelerator.Some? || "gpu" in rr then []
      else
        var t := ResourceBasedToleration(
          cpuMillicores(if "cpu" in rr then rr["cpu"] else "0"),
          memoryBytes(if "memory" in rr then rr["memory"] else "0"));
        if t.Some? then [t.value] else [];
    var spotTerms := if interruptible then [SpotRequirement] else [];
    var spotTolerations := if interruptible then [SpotToleration] else [];
    var terms := acceleratorTerms + spotTerms;
    Placement(acceleratorTolerations + sizeTolerations + spotTolerations, if |terms| > 0 then Some(terms) else None)
  }

  /** At most two tolerations: the accelerator and the large-node tolerations
      exclude each other. */
  lemma PlacementTolerationCount(
    rr: map<string, string>, accelerator: Option<Option<string>>, interruptible: bool,
    cpuMillicores: string -> int, memoryBytes: string -> int)
    ensures var p := PlacementOf(rr, accelerator, interruptible, cpuMillicores, memoryBytes);
            |p.tolerations| <= 2 &&
            !(HighMemoryToleration in p.tolerations && exists t :: AcceleratorToleration(t) in p.tolerations)
  {
  }

  /** A pod whose resources carry a GPU limit never gets the large-node
      toleration, whatever its memory and cpu: the size-based toleration is
      only considered without a GPU. */
  lemma GpuPodNotSteeredBySize(
    stepName: string, rr: map<string, string>, accelerator: Option<Option<string>>, interruptible: bool,
    cpuMillicores: string -> int, memoryBytes: string -> int)
    requires ContainerResourcesOf(stepName, rr).gpu.Some?
    ensures HighMemoryToleration !in PlacementOf(rr, accelerator, interruptible, cpuMillicores, memoryBytes).tolerations
  {
  }

  /** A small CPU-only pod with no decorators tolerates nothing and selects no nodes. */
  lemma SmallPodHasNoConstraints(cpuMillicores: string -> int, memoryBytes: string -> int)
    requires cpuMillicores("0.5") < CpuThresholdMillicores && memoryBytes("300M") < MemoryThresholdBytes
    ensures PlacementOf(map["cpu" := "0.5", "memory" := "300M"], None, false, cpuMillicores, memoryBytes)
            == Placement([], None)
  {
  }
}
