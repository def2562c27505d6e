/**
 * Per-operation admission decisions of ExecTask
 * (src/oplibraries/tensorflow/v2/exectask.cpp).
 *
 * An ExecTask carries one graph node through device binding and resource
 * estimation. What the TensorFlow runtime answers is given to each operation
 * as a parameter: the device registry as a function from device names to
 * devices, the kernel cache's answer for the node, the session's recorded
 * usage, and the node's inferred output shapes. Resource amounts are exact
 * reals; shapes are sequences of optional dimension sizes.
 */
module ExecTask {
  import opened Wrappers

  // ---------------------------------------------------------------------------
  // Devices and their names
  // ---------------------------------------------------------------------------

  /** The device types of the scheduler: CPU, GPU, or any other value of the enumeration. */
  datatype DeviceType = CPU | GPU | OtherType(code: nat)

  /** A device specification: a type and an index. */
  datatype DeviceSpec = DeviceSpec(devType: DeviceType, id: int)

  predicate IsDigits(s: string)
  {
    forall i :: 0 <= i < |s| ==> '0' <= s[i] <= '9'
  }

  function DigitChar(d: nat): char
    requires d < 10
  {
    ('0' as int + d) as char
  }

  /** Decimal digits of `n`, most significant first. */
  function NatToString(n: nat): (s: string)
    ensures |s| > 0 && IsDigits(s)
  {
    if n < 10 then [DigitChar(n)] else NatToString(n / 10) + [DigitChar(n % 10)]
  }

  /** std::to_string of an int: a minus sign before the digits of a negative value. */
  function IntToString(i: int): (s: string)
    ensures |s| > 0
  {
    if i < 0 then "-" + NatToString(-i) else NatToString(i)
  }

  function ParseNat(s: string): nat
    requires IsDigits(s)
  {
    if |s| == 0 then 0 else 10 * ParseNat(s[..|s| - 1]) + (s[|s| - 1] as int - '0' as int)
  }

  lemma {:induction false} ParseNatToString(n: nat)
    ensures ParseNat(NatToString(n)) == n
  {
    if n >= 10 {
      var s := NatToString(n / 10) + [DigitChar(n % 10)];
      assert s[..|s| - 1] == NatToString(n / 10);
      ParseNatToString(n / 10);
    }
  }

  /** The prefix LookupDevice picks: "GPU:" for a GPU, "CPU:" for a CPU and for any other type. */
  function TypePrefix(t: DeviceType): string
  {
    if t == GPU then "GPU:" else "CPU:"
  }

  /** The registry name LookupDevice builds from a specification. */
  function DeviceName(spec: DeviceSpec): string
  {
    TypePrefix(spec.devType) + IntToString(spec.id)
  }

  /** Reads back decimal text with an optional minus sign. */
  function ParseInt(s: string): Option<int>
  {
    if |s| > 1 && s[0] == '-' && IsDigits(s[1..]) then Some(0 - ParseNat(s[1..]))
    else if |s| > 0 && IsDigits(s) then Some(ParseNat(s))
    else None
  }

  lemma ParseIntToString(i: int)
    ensures ParseInt(IntToString(i)) == Some(i)
  {
    var s := IntToString(i);
    if i < 0 {
      assert s[1..] == NatToString(-i);
      ParseNatToString(-i);
    } else {
      ParseNatToString(i);
    }
  }

  /** Reads back a device name: whether it names a GPU, and the device index. */
  function ParseDeviceName(name: string): Option<(bool, int)>
  {
    if |name| < 4 || (name[..4] != "GPU:" && name[..4] != "CPU:") then None
    else match ParseInt(name[4..])
      case None => None
      case Some(id) => Some((name[..4] == "GPU:", id))
  }

  /** A device name determines whether the device is a GPU and its index. */
  lemma DeviceNameRoundTrip(spec: DeviceSpec)
    ensures ParseDeviceName(DeviceName(spec)) == Some((spec.devType == GPU, spec.id))
  {
    var name := DeviceName(spec);
    assert name[..4] == TypePrefix(spec.devType);
    assert name[4..] == IntToString(spec.id);
    ParseIntToString(spec.id);
  }

  /** Two specifications share a name exactly when both or neither are GPUs and their indices agree;
      in particular every non-GPU type is looked up as a CPU. */
  lemma DeviceNameInjective(a: DeviceSpec, b: DeviceSpec)
    ensures DeviceName(a) == DeviceName(b) <==> ((a.devType == GPU) == (b.devType == GPU) && a.id == b.id)
  {
    DeviceNameRoundTrip(a);
    DeviceNameRoundTrip(b);
  }

  // ---------------------------------------------------------------------------
  // Supported device types (the constructor's filtering)
  // ---------------------------------------------------------------------------

  /** The scheduler's types for TensorFlow's type names: "CPU" and "GPU" are kept, others are dropped. */
  function KnownTypes(tfTypes: seq<string>): seq<DeviceType>
  {
    if |tfTypes| == 0 then []
    else
      var t := tfTypes[|tfTypes| - 1];
      KnownTypes(tfTypes[..|tfTypes| - 1]) + (if t == "CPU" then [CPU] else if t == "GPU" then [GPU] else [])
  }

  /** The constructor's loop over the node's TensorFlow device types. */
  method SupportedTypesOf(tfTypes: seq<string>) returns (types: seq<DeviceType>)
    ensures types == KnownTypes(tfTypes)
  {
    types := [];
    for i := 0 to |tfTypes|
      invariant types == KnownTypes(tfTypes[..i])
    {
      assert tfTypes[..i + 1][..i] == tfTypes[..i];
      if tfTypes[i] == "CPU" {
        types := types + [CPU];
      } else if tfTypes[i] == "GPU" {
        types := types + [GPU];
      }
    }
    assert tfTypes[..|tfTypes|] == tfTypes;
  }

  /** A type is supported exactly when TensorFlow reported its name; no other type is ever supported. */
  lemma {:induction false} KnownTypesExactly(tfTypes: seq<string>, d: DeviceType)
    ensures d in KnownTypes(tfTypes) <==> (d == CPU && "CPU" in tfTypes) || (d == GPU && "GPU" in tfTypes)
    ensures |KnownTypes(tfTypes)| <= |tfTypes|
  {
    if |tfTypes| > 0 {
      var front := tfTypes[..|tfTypes| - 1];
      assert tfTypes == front + [tfTypes[|tfTypes| - 1]];
      KnownTypesExactly(front, d);
    }
  }

  // ---------------------------------------------------------------------------
  // Resources
  // ---------------------------------------------------------------------------

  datatype ResourceType = Memory | OtherResource(code: nat)

  /** A resource of one type on one device. */
  datatype ResourceTag = ResourceTag(resType: ResourceType, device: DeviceSpec)

  /** Amounts per resource tag. */
  type Resources = map<ResourceTag, real>

  /** The amount of `t` in `r`, zero when absent. */
  function Amount(r: Resources, t: ResourceTag): real
  {
    if t in r then r[t] else 0.0
  }

  /** resources::merge, taken to add the amounts of the second map into the first. */
  function Merge(lhs: Resources, rhs: Resources): (r: Resources)
    ensures forall t :: t in r <==> t in lhs || t in rhs
    ensures forall t :: Amount(r, t) == Amount(lhs, t) + Amount(rhs, t)
  {
    map t | t in lhs.Keys + rhs.Keys :: Amount(lhs, t) + Amount(rhs, t)
  }

  /** resources::scale by 1 / divisor, in exact arithmetic. */
  function Scale(r: Resources, divisor: nat): (s: Resources)
    requires divisor > 0
    ensures s.Keys == r.Keys
    ensures forall t :: t in s ==> s[t] * (divisor as real) == r[t]
  {
    map t | t in r :: r[t] / (divisor as real)
  }

  // ---------------------------------------------------------------------------
  // The failure-scaled shortcut
  // ---------------------------------------------------------------------------

  function Pow2(n: nat): (r: nat)
    ensures r >= 1
  {
    if n == 0 then 1 else 2 * Pow2(n - 1)
  }

  lemma {:induction false} Pow2Monotone(a: nat, b: nat)
    requires a <= b
    ensures Pow2(a) <= Pow2(b)
  {
    if a < b {
      Pow2Monotone(a, b - 1);
    }
  }

  /** The failure count after clamping to the maximum (which the source takes as a plain int,
      so it may be zero or negative). */
  function ClampedFailures(failures: nat, maxFailures: int): int
  {
    if failures > maxFailures then maxFailures else failures
  }

  /** The shift amount `maxFailures + 1 - f` for a task that has failed at least once. */
  function ScaleExponent(failures: nat, maxFailures: int): (e: nat)
    requires failures > 0
    ensures e >= 1
  {
    maxFailures + 1 - ClampedFailures(failures, maxFailures)
  }

  /** The divisor `1 << (maxFailures + 1 - f)`. */
  function ScaleDivisor(failures: nat, maxFailures: int): nat
    requires failures > 0
  {
    Pow2(ScaleExponent(failures, maxFailures))
  }

  /** The divisor is at least 2, at most 2^maxFailures (when maxFailures is positive),
      and reaches 2 once the failures reach the maximum, so always when the maximum is not positive. */
  lemma ScaleDivisorBounds(failures: nat, maxFailures: int)
    requires failures > 0
    ensures 2 <= ScaleDivisor(failures, maxFailures)
    ensures maxFailures >= 1 ==> ScaleDivisor(failures, maxFailures) <= Pow2(maxFailures)
    ensures failures >= maxFailures ==> ScaleDivisor(failures, maxFailures) == 2
    ensures maxFailures <= 0 ==> ScaleDivisor(failures, maxFailures) == 2
  {
    var e := ScaleExponent(failures, maxFailures);
    Pow2Monotone(1, e);
    if maxFailures >= 1 {
      Pow2Monotone(e, maxFailures);
    }
  }

  /** More failures never give a larger divisor, so the scaled estimate never shrinks as failures
      grow; below the maximum, each failure halves the divisor. */
  lemma ScaleDivisorNonIncreasing(f1: nat, f2: nat, maxFailures: int)
    requires 0 < f1 <= f2
    ensures ScaleDivisor(f2, maxFailures) <= ScaleDivisor(f1, maxFailures)
    ensures f2 == f1 + 1 && f2 <= maxFailures ==> ScaleDivisor(f1, maxFailures) == 2 * ScaleDivisor(f2, maxFailures)
  {
    Pow2Monotone(ScaleExponent(f2, maxFailures), ScaleExponent(f1, maxFailures));
  }

  // ---------------------------------------------------------------------------
  // The shape-based estimate
  // ---------------------------------------------------------------------------

  /** One output of the node: its dimensions if the rank is known (each dimension's size if known),
      the size of its data type, and whether it lives in host memory. */
  datatype OutputInfo = OutputInfo(dims: Option<seq<Option<nat>>>, dtypeSize: nat, hostMemory: bool)

  /** The product of the known dimensions; unknown dimensions are skipped. */
  function KnownProduct(dims: seq<Option<nat>>): nat
  {
    if |dims| == 0 then 1
    else KnownProduct(dims[..|dims| - 1]) * (if dims[|dims| - 1].Some? then dims[|dims| - 1].value else 1)
  }

  /** The bytes all outputs of known rank need: known-dimension product times data-type size. */
  function ShapeTotal(outputs: seq<OutputInfo>): nat
  {
    if |outputs| == 0 then 0
    else
      var o := outputs[|outputs| - 1];
      ShapeTotal(outputs[..|outputs| - 1]) + (if o.dims.Some? then KnownProduct(o.dims.value) * o.dtypeSize else 0)
  }

  predicate AnyRankKnown(outputs: seq<OutputInfo>)
  {
    exists i :: 0 <= i < |outputs| && outputs[i].dims.Some?
  }

  /** The memory tag of a device. The source builds a separate tag for host-memory outputs from the
      same device specification, so both tags are this one. */
  function MemoryTag(dev: DeviceSpec): ResourceTag
  {
    ResourceTag(Memory, dev)
  }

  /** The shape estimate: the whole sum on the device's memory tag, or nothing when no output has
      a known rank. */
  function ShapeEstimate(dev: DeviceSpec, outputs: seq<OutputInfo>): Resources
  {
    if AnyRankKnown(outputs) then map[MemoryTag(dev) := ShapeTotal(outputs) as real] else map[]
  }

  /** Outputs of unknown rank contribute nothing. */
  lemma {:induction false} ShapeTotalNoRank(outputs: seq<OutputInfo>)
    requires !AnyRankKnown(outputs)
    ensures ShapeTotal(outputs) == 0
  {
    if |outputs| > 0 {
      var front := outputs[..|outputs| - 1];
      assert !AnyRankKnown(front) by {
        assert forall k :: 0 <= k < |front| ==> front[k] == outputs[k];
      }
      ShapeTotalNoRank(front);
    }
  }

  /** Adding one output of known rank to the estimate adds its bytes to the memory tag. */
  lemma ShapeEstimateKnown(dev: DeviceSpec, outputs: seq<OutputInfo>, o: OutputInfo)
    requires o.dims.Some?
    ensures ShapeEstimate(dev, outputs + [o]) ==
              map[MemoryTag(dev) := (Amount(ShapeEstimate(dev, outputs), MemoryTag(dev)) +
                                     (KnownProduct(o.dims.value) * o.dtypeSize) as real)]
  {
    var all := outputs + [o];
    assert all[..|all| - 1] == outputs;
    assert AnyRankKnown(all) by {
      assert all[|outputs|] == o;
    }
    if !AnyRankKnown(outputs) {
      ShapeTotalNoRank(outputs);
    }
  }

  /** Adding one output of unknown rank changes nothing. */
  lemma ShapeEstimateUnknown(dev: DeviceSpec, outputs: seq<OutputInfo>, o: OutputInfo)
    requires o.dims.None?
    ensures ShapeEstimate(dev, outputs + [o]) == ShapeEstimate(dev, outputs)
  {
    var all := outputs + [o];
    assert all[..|all| - 1] == outputs;
    assert AnyRankKnown(all) == AnyRankKnown(outputs) by {
      assert forall k :: 0 <= k < |outputs| ==> all[k] == outputs[k];
    }
  }

  /** The product of the known dimensions of one output (the inner loop). */
  method CountElements(dims: seq<Option<nat>>) returns (count: nat)
    ensures count == KnownProduct(dims)
  {
    count := 1;
    for j := 0 to |dims|
      invariant count == KnownProduct(dims[..j])
    {
      assert dims[..j + 1][..j] == dims[..j];
      if dims[j].None? {
        continue;
      }
      count := count * dims[j].value;
    }
    assert dims[..|dims|] == dims;
  }

  /** The slow path's loop over the outputs. */
  method EstimateFromShapes(dev: DeviceSpec, outputs: seq<OutputInfo>) returns (res: Resources)
    ensures res == ShapeEstimate(dev, outputs)
  {
    var devTag := ResourceTag(Memory, dev);
    var cpuTag := ResourceTag(Memory, dev);
    res := map[];
    for i := 0 to |outputs|
      invariant res == ShapeEstimate(dev, outputs[..i])
    {
      assert outputs[..i + 1] == outputs[..i] + [outputs[i]];
      var o := outputs[i];
      if o.dims.None? {
        ShapeEstimateUnknown(dev, outputs[..i], o);
        continue;
      }
      ShapeEstimateKnown(dev, outputs[..i], o);
      var count := CountElements(o.dims.value);
      var subtotal := (count * o.dtypeSize) as real;
      if o.hostMemory {
        res := res[cpuTag := Amount(res, cpuTag) + subtotal];
      } else {
        res := res[devTag := Amount(res, devTag) + subtotal];
      }
    }
    assert outputs[..|outputs|] == outputs;
  }

  // ---------------------------------------------------------------------------
  // ExecTask
  // ---------------------------------------------------------------------------

  /** Reservation bookkeeping: only the set of tickets not yet freed. */
  class ResourceMonitor {
    var outstanding: set<nat>

    constructor (tickets: set<nat>)
      ensures outstanding == tickets
    {
      outstanding := tickets;
    }

    method Free(ticket: nat)
      modifies this
      ensures outstanding == old(outstanding) - {ticket}
    {
      outstanding := outstanding - {ticket};
    }
  }

  /** The device specification, the reservation ticket and the monitor that issued it. */
  datatype ResourceContext = ResourceContext(spec: DeviceSpec, ticket: nat, resMon: ResourceMonitor?)

  /** The per-operation device a lookup produces; only its name matters here. */
  datatype Device = Device(name: string)

  /** A looked-up device with the resource context attached to it. */
  datatype DeviceItem = DeviceItem(device: Device, context: ResourceContext)

  /** What the kernel cache's find_kernel reports for the node: whether the lookup succeeded, the
      device it recorded for the kernel, and the kernel it wrote out. */
  datatype KernelLookup = KernelLookup(ok: bool, devName: string, kernel: Option<nat>)

  /** The session tracker's usage for the session: temporary and persistent parts. */
  datatype SessionUsage = SessionUsage(temporary: Resources, persistent: Resources)

  /** The status codes maybeMemoryFailure distinguishes. */
  datatype StatusCode = OK | ResourceExhausted | OtherError(code: nat)

  class ExecTask {
    const maxFailures: int
    /** Set by `run` when an input is a reference; false until then. */
    var hasRefInput: bool
    var supportedTypes: seq<DeviceType>
    var failureTimes: nat
    var cachedUsage: map<DeviceSpec, Resources>
    var rctx: ResourceContext
    var ditem: Option<DeviceItem>
    var opKernel: Option<nat>

    /** The constructor: keeps the node's CPU and GPU types and estimates its usage on each of
        them (on device 0) before any failure, so from the shapes alone. */
    constructor (maxFailures: int, tfTypes: seq<string>, shapes: Option<seq<OutputInfo>>)
      ensures this.maxFailures == maxFailures && !hasRefInput
      ensures supportedTypes == KnownTypes(tfTypes)
      ensures failureTimes == 0 && ditem.None? && opKernel.None? && rctx.resMon == null
      ensures forall t :: t in supportedTypes ==> DeviceSpec(t, 0) in cachedUsage
      ensures forall d :: d in cachedUsage ==>
                cachedUsage[d] == if shapes.Some? then ShapeEstimate(d, shapes.value) else map[]
    {
      this.maxFailures := maxFailures;
      hasRefInput := false;
      failureTimes := 0;
      cachedUsage := map[];
      rctx := ResourceContext(DeviceSpec(CPU, 0), 0, null);
      ditem := None;
      opKernel := None;
      supportedTypes := [];
      new;
      supportedTypes := SupportedTypesOf(tfTypes);
      for i := 0 to |supportedTypes|
        invariant supportedTypes == KnownTypes(tfTypes) && failureTimes == 0 && !hasRefInput
        invariant ditem.None? && opKernel.None? && rctx.resMon == null
        invariant forall k :: 0 <= k < i ==> DeviceSpec(supportedTypes[k], 0) in cachedUsage
        invariant forall d :: d in cachedUsage ==>
                    cachedUsage[d] == if shapes.Some? then ShapeEstimate(d, shapes.value) else map[]
      {
        var _ := EstimatedUsage(DeviceSpec(supportedTypes[i], 0), None, shapes);
      }
    }

    /** estimatedUsage: after a failure with the session's usage at hand, the merged usage divided
        by the failure divisor replaces the cache entry; then a cached entry is returned as it is;
        otherwise the entry is created empty and, when shapes are known, filled with the shape
        estimate. Whatever is returned is what the cache holds for `dev`. */
    method EstimatedUsage(dev: DeviceSpec, session: Option<SessionUsage>, shapes: Option<seq<OutputInfo>>)
      returns (res: Resources)
      modifies this`cachedUsage
      ensures cachedUsage == old(cachedUsage)[dev := res]
      ensures failureTimes > 0 && session.Some? ==>
                res == Scale(Merge(session.value.temporary, session.value.persistent),
                             ScaleDivisor(failureTimes, maxFailures))
      ensures !(failureTimes > 0 && session.Some?) && dev in old(cachedUsage) ==> res == old(cachedUsage)[dev]
      ensures !(failureTimes > 0 && session.Some?) && dev !in old(cachedUsage) ==>
                res == if shapes.Some? then ShapeEstimate(dev, shapes.value) else map[]
    {
      if failureTimes > 0 {
        if session.Some? {
          var merged := Merge(session.value.temporary, session.value.persistent);
          var f: int := failureTimes;
          if f > maxFailures {
            f := maxFailures;
          }
          var scale := Pow2(maxFailures + 1 - f);
          cachedUsage := cachedUsage[dev := Scale(merged, scale)];
        }
      }

      if dev in cachedUsage {
        return cachedUsage[dev];
      }

      cachedUsage := cachedUsage[dev := map[]];
      if shapes.None? {
        return map[];
      }
      res := EstimateFromShapes(dev, shapes.value);
      cachedUsage := cachedUsage[dev := res];
    }

    /** prepare: binds the ExecTask to the device of `ctx`. It fails when the type is unsupported,
        when the registry has no device of that name, or when the node's kernel was created
        before on another device or on a device it did not record; a failed kernel lookup is
        no reason to fail. The source asserts that a context bound to a device carries its monitor. */
    method Prepare(ctx: ResourceContext, registry: string -> Option<Device>, found: KernelLookup)
      returns (ok: bool)
      requires ctx.spec.devType in supportedTypes && registry(DeviceName(ctx.spec)).Some? ==> ctx.resMon != null
      modifies this`rctx, this`ditem, this`opKernel
      ensures rctx == ctx
      ensures ok <==> ctx.spec.devType in supportedTypes &&
                      registry(DeviceName(ctx.spec)).Some? &&
                      (found.ok && found.kernel.Some? ==>
                         found.devName != [] && found.devName == registry(DeviceName(ctx.spec)).value.name)
      ensures ctx.spec.devType !in supportedTypes || registry(DeviceName(ctx.spec)).None? ==>
                ditem == old(ditem) && opKernel == old(opKernel)
      ensures ctx.spec.devType in supportedTypes && registry(DeviceName(ctx.spec)).Some? ==>
                ditem == Some(DeviceItem(registry(DeviceName(ctx.spec)).value, ctx)) &&
                opKernel == if ok then found.kernel else None
    {
      rctx := ctx;
      var dev := rctx.spec;
      if dev.devType !in supportedTypes {
        return false;
      }

      var device := registry(DeviceName(dev));
      if device.None? {
        return false;
      }
      assert rctx.resMon != null;
      ditem := Some(DeviceItem(device.value, rctx));

      opKernel := None;
      opKernel := found.kernel;
      if found.ok && opKernel.Some? {
        if found.devName == [] {
          opKernel := None;
          return false;
        }
        if found.devName == device.value.name {
          return true;
        }
        opKernel := None;
        return false;
      }
      return true;
    }

    /** releasePreAllocation: frees the reservation ticket with the monitor that issued it, if any. */
    method ReleasePreAllocation()
      modifies if rctx.resMon != null then {rctx.resMon} else {}
      ensures rctx.resMon != null ==> rctx.resMon.outstanding == old(rctx.resMon.outstanding) - {rctx.ticket}
    {
      if rctx.resMon != null {
        rctx.resMon.Free(rctx.ticket);
      }
    }

    /** maybeMemoryFailure: a RESOURCE_EXHAUSTED status counts one more failure and notifies the
        memory-failure callback when one is set; any other status changes nothing. The source
        asserts that such a task has no reference input. */
    method MaybeMemoryFailure(status: StatusCode, hasMemFailure: bool) returns (failed: bool, notified: bool)
      requires status == ResourceExhausted ==> !hasRefInput
      modifies this`failureTimes
      ensures failed <==> status == ResourceExhausted
      ensures failureTimes == if failed then old(failureTimes) + 1 else old(failureTimes)
      ensures notified <==> failed && hasMemFailure
    {
      if status == ResourceExhausted {
        failureTimes := failureTimes + 1;
        notified := hasMemFailure;
        return true, notified;
      }
      return false, false;
    }
  }

  /** Without a failure in between, a second estimate for a device returns what the first did
      and leaves the cache as the first left it. */
  method EstimateTwice(task: ExecTask, dev: DeviceSpec, session: Option<SessionUsage>, shapes: Option<seq<OutputInfo>>)
    returns (first: Resources, second: Resources)
    requires task.failureTimes == 0
    modifies task
    ensures first == second
    ensures task.cachedUsage == old(task.cachedUsage)[dev := first]
  {
    first := task.EstimatedUsage(dev, session, shapes);
    second := task.EstimatedUsage(dev, session, shapes);
  }

  /** The first memory failure of a task makes its next estimate, when the session's usage is
      known, that usage halved maxFailures times (once when the maximum is not positive). */
  method FailThenEstimate(task: ExecTask, dev: DeviceSpec, usage: SessionUsage, shapes: Option<seq<OutputInfo>>)
    returns (failed: bool, res: Resources)
    requires task.failureTimes == 0 && !task.hasRefInput
    modifies task
    ensures failed && task.failureTimes == 1
    ensures res == Scale(Merge(usage.temporary, usage.persistent),
                         if task.maxFailures <= 0 then 2 else Pow2(task.maxFailures))
  {
    var notified;
    failed, notified := task.MaybeMemoryFailure(ResourceExhausted, false);
    res := task.EstimatedUsage(dev, Some(usage), shapes);
  }
}
