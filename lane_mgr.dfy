/**
 * Memory-partition bookkeeping of the GPU lane manager
 * (src/oplibraries/tensorflow/device/gpu/lane/lanemgr.cpp).
 *
 * One GPU's memory is carved into lanes. The control block keeps the memory
 * not yet given to any lane, the next stream index to hand out, and the list
 * of lanes in ascending order of their available memory. A lane is a record
 * of its memory fields; its identity is its base stream index, which no two
 * lanes share. The lane manager serves a FIFO queue of single-lane layout
 * requests against the first GPU. Reference counting, hold accounting inside
 * a lane and the TensorFlow device behind each lane are not modelled.
 */
module LaneMgr {
  import opened Wrappers

  /** The memory fields of a GpuLane and its base stream index. */
  datatype Lane = Lane(total: nat, available: nat, baseStream: nat)

  /** Memory given to the lanes of a list. */
  function TotalOf(lanes: seq<Lane>): nat
  {
    if |lanes| == 0 then 0 else TotalOf(lanes[..|lanes| - 1]) + lanes[|lanes| - 1].total
  }

  lemma {:induction false} TotalOfConcat(a: seq<Lane>, b: seq<Lane>)
    ensures TotalOf(a + b) == TotalOf(a) + TotalOf(b)
  {
    if |b| > 0 {
      assert (a + b)[..|a + b| - 1] == a + b[..|b| - 1];
      TotalOfConcat(a, b[..|b| - 1]);
    } else {
      assert a + b == a;
    }
  }

  /** Ascending by available memory. */
  ghost predicate SortedByAvailable(lanes: seq<Lane>)
  {
    forall i, j :: 0 <= i < j < |lanes| ==> lanes[i].available <= lanes[j].available
  }

  /** No two lanes share a base stream index, and every index is below `bound`. */
  ghost predicate StreamsDistinctBelow(lanes: seq<Lane>, bound: nat)
  {
    (forall i :: 0 <= i < |lanes| ==> lanes[i].baseStream < bound) &&
    (forall i, j :: 0 <= i < j < |lanes| ==> lanes[i].baseStream != lanes[j].baseStream)
  }

  /** The position newLane inserts at: before the first lane with strictly more available memory. */
  function FirstGreater(lanes: seq<Lane>, a: nat): (k: nat)
    ensures k <= |lanes|
    ensures forall i :: 0 <= i < k ==> lanes[i].available <= a
    ensures k < |lanes| ==> lanes[k].available > a
  {
    if |lanes| == 0 || lanes[0].available > a then 0 else 1 + FirstGreater(lanes[1..], a)
  }

  /** Any position with FirstGreater's two properties is FirstGreater. */
  lemma FirstGreaterUnique(lanes: seq<Lane>, a: nat, k: nat)
    requires k <= |lanes|
    requires forall i :: 0 <= i < k ==> lanes[i].available <= a
    requires k < |lanes| ==> lanes[k].available > a
    ensures k == FirstGreater(lanes, a)
  {
  }

  /** `l` inserted into `lanes` at position `k`. */
  function InsertAt(lanes: seq<Lane>, k: nat, l: Lane): seq<Lane>
    requires k <= |lanes|
  {
    lanes[..k] + [l] + lanes[k..]
  }

  /** Inserting keeps every lane already present and adds exactly the new one. */
  lemma InsertKeepsMembers(lanes: seq<Lane>, k: nat, l: Lane)
    requires k <= |lanes|
    ensures forall x :: x in InsertAt(lanes, k, l) <==> x in lanes || x == l
  {
    assert lanes == lanes[..k] + lanes[k..];
  }

  /** Inserting at FirstGreater keeps a sorted list sorted, and adds the new lane's memory to the total. */
  lemma InsertKeepsSorted(lanes: seq<Lane>, l: Lane)
    requires SortedByAvailable(lanes)
    ensures SortedByAvailable(InsertAt(lanes, FirstGreater(lanes, l.available), l))
  {
    var k := FirstGreater(lanes, l.available);
    var r := InsertAt(lanes, k, l);
    forall i, j | 0 <= i < j < |r|
      ensures r[i].available <= r[j].available
    {
      if j < k {
        assert r[i] == lanes[i] && r[j] == lanes[j];
      } else if j == k {
        assert r[i] == lanes[i];
      } else if i < k {
        assert r[i] == lanes[i] && r[j] == lanes[j - 1];
      } else if i == k {
        assert r[j] == lanes[j - 1] && lanes[k].available > l.available;
        assert k <= j - 1;
      } else {
        assert r[i] == lanes[i - 1] && r[j] == lanes[j - 1];
      }
    }
  }

  lemma InsertAccounting(lanes: seq<Lane>, k: nat, l: Lane)
    requires k <= |lanes|
    ensures TotalOf(InsertAt(lanes, k, l)) == TotalOf(lanes) + l.total
  {
    assert lanes == lanes[..k] + lanes[k..];
    TotalOfConcat(lanes[..k], lanes[k..]);
    TotalOfConcat(lanes[..k] + [l], lanes[k..]);
    TotalOfConcat(lanes[..k], [l]);
    assert TotalOf([l]) == l.total by { assert [l][..0] == []; }
  }

  /** Inserting a lane whose base stream is the bound keeps the streams distinct under the next bound,
      and keeps every lane's free part within its partition. */
  lemma InsertKeepsStreams(lanes: seq<Lane>, k: nat, l: Lane, bound: nat)
    requires k <= |lanes| && StreamsDistinctBelow(lanes, bound) && l.baseStream == bound
    requires l.available <= l.total && forall i :: 0 <= i < |lanes| ==> lanes[i].available <= lanes[i].total
    ensures StreamsDistinctBelow(InsertAt(lanes, k, l), bound + 1)
    ensures forall i :: 0 <= i < |InsertAt(lanes, k, l)| ==> InsertAt(lanes, k, l)[i].available <= InsertAt(lanes, k, l)[i].total
  {
    var r := InsertAt(lanes, k, l);
    assert forall i :: 0 <= i < |r| ==> r[i] == l || r[i] in lanes;
    forall i, j | 0 <= i < j < |r|
      ensures r[i].baseStream != r[j].baseStream
    {
      if j < k {
        assert r[i] == lanes[i] && r[j] == lanes[j];
      } else if j == k {
        assert r[i] == lanes[i];
      } else if i < k {
        assert r[i] == lanes[i] && r[j] == lanes[j - 1];
      } else if i == k {
        assert r[j] == lanes[j - 1];
      } else {
        assert r[i] == lanes[i - 1] && r[j] == lanes[j - 1];
      }
    }
  }

  /** A lane that can serve a request of `memory` with `persistentSize` resident at once. */
  predicate Fits(l: Lane, memory: nat, persistentSize: nat)
  {
    l.total >= memory && l.available >= persistentSize
  }

  /** The first lane in list order that fits, if any. */
  function FirstFit(lanes: seq<Lane>, memory: nat, persistentSize: nat): (r: Option<nat>)
    ensures r.Some? ==> r.value < |lanes| && Fits(lanes[r.value], memory, persistentSize) &&
                        forall j :: 0 <= j < r.value ==> !Fits(lanes[j], memory, persistentSize)
    ensures r.None? ==> forall j :: 0 <= j < |lanes| ==> !Fits(lanes[j], memory, persistentSize)
  {
    if |lanes| == 0 then None
    else if Fits(lanes[0], memory, persistentSize) then Some(0)
    else match FirstFit(lanes[1..], memory, persistentSize)
      case None => None
      case Some(i) => Some(i + 1)
  }

  /** `lanes` with every lane of base stream `id` removed (list::remove_if). */
  function Without(lanes: seq<Lane>, id: nat): (r: seq<Lane>)
    ensures |r| <= |lanes|
    ensures forall i :: 0 <= i < |r| ==> r[i].baseStream != id && r[i] in lanes
  {
    if |lanes| == 0 then []
    else
      var last := lanes[|lanes| - 1];
      Without(lanes[..|lanes| - 1], id) + (if last.baseStream == id then [] else [last])
  }

  /** Removal keeps exactly the lanes of another base stream. */
  lemma {:induction false} WithoutExactly(lanes: seq<Lane>, id: nat, l: Lane)
    ensures l in Without(lanes, id) <==> l in lanes && l.baseStream != id
  {
    if |lanes| > 0 {
      var init := lanes[..|lanes| - 1];
      WithoutExactly(init, id, l);
      assert lanes == init + [lanes[|lanes| - 1]];
    }
  }

  /** What maybeRemoveLane gives back: the available memory of the lane of base stream `id`, or 0. */
  function MatchedAvailable(lanes: seq<Lane>, id: nat): nat
  {
    if |lanes| == 0 then 0
    else if lanes[|lanes| - 1].baseStream == id then lanes[|lanes| - 1].available
    else MatchedAvailable(lanes[..|lanes| - 1], id)
  }

  /** Removing a lane frees at most the memory that lane was given. */
  lemma {:induction false} RemoveAccounting(lanes: seq<Lane>, id: nat)
    requires forall i :: 0 <= i < |lanes| ==> lanes[i].available <= lanes[i].total
    ensures TotalOf(Without(lanes, id)) + MatchedAvailable(lanes, id) <= TotalOf(lanes)
  {
    if |lanes| > 0 {
      RemoveAccounting(lanes[..|lanes| - 1], id);
      var last := lanes[|lanes| - 1];
      if last.baseStream != id {
        TotalOfConcat(Without(lanes[..|lanes| - 1], id), [last]);
        assert TotalOf([last]) == last.total by { assert [last][..0] == []; }
      } else {
        assert Without(lanes, id) == Without(lanes[..|lanes| - 1], id);
      }
    }
  }

  /** Removing lanes keeps the list sorted. */
  lemma {:induction false} RemoveKeepsSorted(lanes: seq<Lane>, id: nat)
    requires SortedByAvailable(lanes)
    ensures SortedByAvailable(Without(lanes, id))
  {
    if |lanes| > 0 {
      var front := lanes[..|lanes| - 1];
      var last := lanes[|lanes| - 1];
      RemoveKeepsSorted(front, id);
      var w := Without(front, id);
      if last.baseStream != id {
        assert Without(lanes, id) == w + [last];
        forall i | 0 <= i < |w|
          ensures w[i].available <= last.available
        {
          var j :| 0 <= j < |front| && front[j] == w[i];
          assert lanes[j] == w[i];
        }
      } else {
        assert Without(lanes, id) == w;
      }
    }
  }

  /** Removing lanes keeps the base streams distinct and below the bound. */
  lemma {:induction false} RemoveKeepsStreams(lanes: seq<Lane>, id: nat, bound: nat)
    requires StreamsDistinctBelow(lanes, bound)
    ensures StreamsDistinctBelow(Without(lanes, id), bound)
  {
    if |lanes| > 0 {
      var front := lanes[..|lanes| - 1];
      var last := lanes[|lanes| - 1];
      RemoveKeepsStreams(front, id, bound);
      var w := Without(front, id);
      if last.baseStream != id {
        assert Without(lanes, id) == w + [last];
        forall i | 0 <= i < |w|
          ensures w[i].baseStream != last.baseStream
        {
          var j :| 0 <= j < |front| && front[j] == w[i];
          assert lanes[j] == w[i];
        }
      } else {
        assert Without(lanes, id) == w;
      }
    }
  }

  /** The control block's invariant over its state: the pool and the lanes together never exceed
      the device; each lane's free part is within its partition; base streams are distinct and
      below the next index. */
  ghost predicate Consistent(totalMemory: nat, availableMemory: nat, nextStream: nat, lanes: seq<Lane>)
  {
    availableMemory + TotalOf(lanes) <= totalMemory &&
    (forall i :: 0 <= i < |lanes| ==> lanes[i].available <= lanes[i].total) &&
    StreamsDistinctBelow(lanes, nextStream)
  }

  /** Carving a new lane out of the pool keeps the control block consistent. */
  lemma NewLaneConsistent(totalMemory: nat, availableMemory: nat, nextStream: nat, lanes: seq<Lane>, memory: nat)
    requires Consistent(totalMemory, availableMemory, nextStream, lanes) && memory <= availableMemory
    ensures Consistent(totalMemory, availableMemory - memory, nextStream + 1,
                       InsertAt(lanes, FirstGreater(lanes, memory), Lane(memory, memory, nextStream)))
  {
    var k := FirstGreater(lanes, memory);
    var l := Lane(memory, memory, nextStream);
    InsertAccounting(lanes, k, l);
    InsertKeepsStreams(lanes, k, l, nextStream);
  }

  /** Removing a lane and returning its available memory to the pool keeps the control block consistent. */
  lemma RemoveConsistent(totalMemory: nat, availableMemory: nat, nextStream: nat, lanes: seq<Lane>, id: nat)
    requires Consistent(totalMemory, availableMemory, nextStream, lanes)
    ensures Consistent(totalMemory, availableMemory + MatchedAvailable(lanes, id), nextStream, Without(lanes, id))
  {
    RemoveAccounting(lanes, id);
    RemoveKeepsStreams(lanes, id, nextStream);
    var w := Without(lanes, id);
    forall i | 0 <= i < |w|
      ensures w[i].available <= w[i].total
    {
      var j :| 0 <= j < |lanes| && lanes[j] == w[i];
    }
  }

  /** The per-GPU control block (LaneMgr::GpuControlBlock). */
  class GpuControlBlock {
    /** The device's total memory. */
    const totalMemory: nat
    /** Memory not yet carved into a lane. */
    var availableMemory: nat
    /** The base stream index the next lane receives. */
    var nextStream: nat
    /** The lanes, meant to be ascending by available memory. */
    var lanes: seq<Lane>

    ghost predicate Valid()
      reads this
    {
      Consistent(totalMemory, availableMemory, nextStream, lanes)
    }

    /** The state LaneMgr's constructor sets up: the queried free memory may not exceed the total. */
    constructor (totalMemory: nat, availableMemory: nat, firstStream: nat)
      requires availableMemory <= totalMemory
      ensures Valid()
      ensures this.totalMemory == totalMemory && this.availableMemory == availableMemory
      ensures nextStream == firstStream && lanes == []
    {
      this.totalMemory := totalMemory;
      this.availableMemory := availableMemory;
      nextStream := firstStream;
      lanes := [];
    }

    /** newLane: carves `memory` out of the pool into a fresh lane placed after every lane
        with no more available memory than it. */
    method NewLane(memory: nat) returns (lane: Option<Lane>)
      requires Valid()
      modifies this
      ensures Valid()
      ensures old(availableMemory) < memory ==>
                lane.None? && availableMemory == old(availableMemory) &&
                nextStream == old(nextStream) && lanes == old(lanes)
      ensures old(availableMemory) >= memory ==>
                lane == Some(Lane(memory, memory, old(nextStream))) &&
                availableMemory == old(availableMemory) - memory &&
                nextStream == old(nextStream) + 1 &&
                lanes == InsertAt(old(lanes), FirstGreater(old(lanes), memory), lane.value)
      ensures SortedByAvailable(old(lanes)) ==> SortedByAvailable(lanes)
    {
      if availableMemory < memory {
        return None;
      }
      var ls := lanes;
      var l := Lane(memory, memory, nextStream);
      var it := 0;
      while it < |ls|
        invariant it <= |ls|
        invariant forall i :: 0 <= i < it ==> ls[i].available <= l.available
      {
        if ls[it].available > l.available {
          break;
        }
        it := it + 1;
      }
      FirstGreaterUnique(ls, memory, it);
      NewLaneConsistent(totalMemory, availableMemory, nextStream, ls, memory);
      if SortedByAvailable(ls) {
        InsertKeepsSorted(ls, l);
      }
      availableMemory := availableMemory - memory;
      nextStream := nextStream + 1;
      lanes := ls[..it] + [l] + ls[it..];
      lane := Some(l);
    }

    /** bestFitFor: a new lane when the pool has room, else the first existing lane that fits. */
    method BestFitFor(memory: nat, persistentSize: nat) returns (lane: Option<Lane>)
      requires Valid()
      modifies this
      ensures Valid()
      ensures old(availableMemory) >= memory ==>
                lane == Some(Lane(memory, memory, old(nextStream))) &&
                availableMemory == old(availableMemory) - memory &&
                nextStream == old(nextStream) + 1 &&
                lanes == InsertAt(old(lanes), FirstGreater(old(lanes), memory), lane.value)
      ensures old(availableMemory) < memory ==>
                availableMemory == old(availableMemory) && nextStream == old(nextStream) && lanes == old(lanes) &&
                lane == match FirstFit(lanes, memory, persistentSize)
                        case None => None
                        case Some(i) => Some(lanes[i])
      ensures SortedByAvailable(old(lanes)) ==> SortedByAvailable(lanes)
    {
      if availableMemory >= memory {
        lane := NewLane(memory);
        return;
      }
      for i := 0 to |lanes|
        invariant forall j :: 0 <= j < i ==> !Fits(lanes[j], memory, persistentSize)
      {
        if lanes[i].total >= memory && lanes[i].available >= persistentSize {
          return Some(lanes[i]);
        }
      }
      return None;
    }

    /** maybeRemoveLane: drops the lane from the list and returns its available memory
        (not its partition) to the pool; the pool stays within the device's memory. */
    method MaybeRemoveLane(id: nat)
      requires Valid()
      modifies this
      ensures Valid()
      ensures lanes == Without(old(lanes), id)
      ensures availableMemory == old(availableMemory) + MatchedAvailable(old(lanes), id)
      ensures availableMemory <= totalMemory
      ensures nextStream == old(nextStream)
      ensures SortedByAvailable(old(lanes)) ==> SortedByAvailable(lanes)
    {
      var avail := 0;
      var kept := [];
      for i := 0 to |lanes|
        invariant kept == Without(lanes[..i], id)
        invariant avail == MatchedAvailable(lanes[..i], id)
      {
        assert lanes[..i + 1][..i] == lanes[..i];
        if lanes[i].baseStream == id {
          avail := lanes[i].available;
        } else {
          kept := kept + [lanes[i]];
        }
      }
      assert lanes[..|lanes|] == lanes;
      RemoveConsistent(totalMemory, availableMemory, nextStream, lanes, id);
      if SortedByAvailable(lanes) {
        RemoveKeepsSorted(lanes, id);
      }
      lanes := kept;
      if avail == 0 {
        return;
      }
      availableMemory := availableMemory + avail;
    }
  }

  /** A layout request: per lane, the memory limit and the persistent part of it. */
  datatype Layout = Layout(persistentOccupation: seq<nat>, memoryLimits: seq<nat>)

  /** requestLanes' checks: one persistent size per limit, each within its limit. */
  predicate WellFormed(layout: Layout)
  {
    |layout.persistentOccupation| == |layout.memoryLimits| &&
    forall i :: 0 <= i < |layout.memoryLimits| ==> layout.persistentOccupation[i] <= layout.memoryLimits[i]
  }

  /** Whether the control block can give a single-lane request a lane: a new lane from the pool,
      or an existing lane that fits (bestFitFor's two ways to succeed). */
  predicate CanServe(availableMemory: nat, lanes: seq<Lane>, layout: Layout)
    requires WellFormed(layout) && |layout.memoryLimits| == 1
  {
    availableMemory >= layout.memoryLimits[0] ||
    FirstFit(lanes, layout.memoryLimits[0], layout.persistentOccupation[0]).Some?
  }

  /** A callback invocation that received one lane fitting its single-lane layout. */
  predicate ServedFits(d: (Layout, seq<Lane>))
  {
    |d.1| == 1 && |d.0.memoryLimits| == 1 && |d.0.persistentOccupation| == 1 &&
    Fits(d.1[0], d.0.memoryLimits[0], d.0.persistentOccupation[0])
  }

  /** The result of one iteration of processRequests' loop. */
  datatype StepOutcome = Idle | Served(lane: Lane) | NoFit

  /** The layouts of a log of callback invocations, in order. */
  function LayoutsOf(log: seq<(Layout, seq<Lane>)>): (r: seq<Layout>)
    ensures |r| == |log| && forall i :: 0 <= i < |log| ==> r[i] == log[i].0
  {
    if |log| == 0 then [] else LayoutsOf(log[..|log| - 1]) + [log[|log| - 1].0]
  }

  /** Serving the front of the queue keeps the queue at entry equal to the served layouts
      followed by what is still queued, and keeps one lane per served request. */
  lemma ServeKeepsFifo(entry: seq<Layout>, n: nat, log: seq<(Layout, seq<Lane>)>, queued: seq<Layout>, lane: Lane)
    requires n <= |log| && |queued| > 0
    requires entry == LayoutsOf(log[n..]) + queued
    requires forall i :: n <= i < |log| ==> |log[i].1| == 1
    ensures entry == LayoutsOf((log + [(queued[0], [lane])])[n..]) + queued[1..]
    ensures forall i :: n <= i < |log| + 1 ==> |(log + [(queued[0], [lane])])[i].1| == 1
  {
    var served := log + [(queued[0], [lane])];
    assert served[n..] == log[n..] + [(queued[0], [lane])];
    assert served[n..][..|served[n..]| - 1] == log[n..];
    assert queued == [queued[0]] + queued[1..];
  }

  /** Every delivery from position `n` on got one lane that fits its request and is among `lanes`. */
  ghost predicate ServedFrom(log: seq<(Layout, seq<Lane>)>, n: nat, lanes: seq<Lane>)
  {
    forall i :: n <= i < |log| ==> ServedFits(log[i]) && log[i].1[0] in lanes
  }

  /** Appending a fitting delivery of a lane the control block holds keeps ServedFrom, also when
      the control block's lanes only grew. */
  lemma ServeKeepsFits(log: seq<(Layout, seq<Lane>)>, n: nat, before: seq<Lane>, after: seq<Lane>,
                       d: (Layout, seq<Lane>))
    requires ServedFrom(log, n, before)
    requires forall l :: l in before ==> l in after
    requires ServedFits(d) && d.1[0] in after
    ensures ServedFrom(log + [d], n, after)
  {
  }

  /** A ServedFrom log is stated in full. */
  lemma ServedFromMeans(log: seq<(Layout, seq<Lane>)>, n: nat, lanes: seq<Lane>)
    requires ServedFrom(log, n, lanes)
    ensures forall i :: n <= i < |log| ==> ServedFits(log[i])
    ensures forall i :: n <= i < |log| ==> |log[i].1| == 1 && log[i].1[0] in lanes
  {
  }

  /** The lane manager: a FIFO of pending layout requests served against the first GPU.
      A callback is modelled by recording the lanes it receives in `delivered`. */
  class LaneMgr {
    const gpu: GpuControlBlock
    var pending: seq<Layout>
    var delivered: seq<(Layout, seq<Lane>)>

    ghost predicate Valid()
      reads this, gpu
    {
      gpu.Valid() &&
      forall i :: 0 <= i < |pending| ==> WellFormed(pending[i]) && |pending[i].memoryLimits| == 1
    }

    constructor (gpu: GpuControlBlock)
      requires gpu.Valid()
      ensures Valid() && this.gpu == gpu && pending == [] && delivered == []
    {
      this.gpu := gpu;
      pending := [];
      delivered := [];
    }

    /** One iteration of processRequests' loop: the front request gets exactly one lane and is
        popped after its callback, or nothing changes at all when no lane fits (the source then
        retries the same request). */
    method ProcessStep() returns (outcome: StepOutcome)
      requires Valid()
      modifies this, gpu
      ensures Valid()
      ensures old(pending) == [] <==> outcome.Idle?
      ensures outcome.NoFit? <==>
                old(pending) != [] && !CanServe(old(gpu.availableMemory), old(gpu.lanes), old(pending)[0])
      ensures outcome.Served? ==>
                Fits(outcome.lane, old(pending)[0].memoryLimits[0], old(pending)[0].persistentOccupation[0]) &&
                outcome.lane in gpu.lanes
      ensures gpu.availableMemory + TotalOf(gpu.lanes) == old(gpu.availableMemory) + old(TotalOf(gpu.lanes))
      ensures forall l :: l in old(gpu.lanes) ==> l in gpu.lanes
      ensures outcome.Served? ==>
                pending == old(pending)[1..] &&
                delivered == old(delivered) + [(old(pending)[0], [outcome.lane])]
      ensures outcome.Served? ==>
                var m := old(pending)[0].memoryLimits[0];
                var ps := old(pending)[0].persistentOccupation[0];
                if old(gpu.availableMemory) >= m then
                  outcome.lane == Lane(m, m, old(gpu.nextStream)) &&
                  gpu.availableMemory == old(gpu.availableMemory) - m &&
                  gpu.nextStream == old(gpu.nextStream) + 1 &&
                  gpu.lanes == InsertAt(old(gpu.lanes), FirstGreater(old(gpu.lanes), m), outcome.lane)
                else
                  FirstFit(old(gpu.lanes), m, ps).Some? &&
                  outcome.lane == old(gpu.lanes)[FirstFit(old(gpu.lanes), m, ps).value] &&
                  gpu.availableMemory == old(gpu.availableMemory) &&
                  gpu.nextStream == old(gpu.nextStream) && gpu.lanes == old(gpu.lanes)
      ensures !outcome.Served? ==>
                pending == old(pending) && delivered == old(delivered) &&
                gpu.availableMemory == old(gpu.availableMemory) &&
                gpu.nextStream == old(gpu.nextStream) && gpu.lanes == old(gpu.lanes)
      ensures SortedByAvailable(old(gpu.lanes)) ==> SortedByAvailable(gpu.lanes)
    {
      if pending == [] {
        return Idle;
      }
      var req := pending[0];
      ghost var queued := pending;
      var lane := gpu.BestFitFor(req.memoryLimits[0], req.persistentOccupation[0]);
      assert pending == queued;
      if lane.None? {
        assert old(gpu.availableMemory) < req.memoryLimits[0];
        return NoFit;
      }
      if old(gpu.availableMemory) >= req.memoryLimits[0] {
        InsertAccounting(old(gpu.lanes), FirstGreater(old(gpu.lanes), req.memoryLimits[0]), lane.value);
        InsertKeepsMembers(old(gpu.lanes), FirstGreater(old(gpu.lanes), req.memoryLimits[0]), lane.value);
      }
      delivered := delivered + [(req, [lane.value])];
      pending := pending[1..];
      assert forall i :: 0 <= i < |pending| ==> pending[i] == queued[i + 1];
      outcome := Served(lane.value);
    }

    /** One iteration of processRequests' loop, stated as the step of the loop's invariants: the
        queue at entry stays the layouts served since position `n` followed by the queue, every
        delivery since `n` fits and comes from the control block, and pool plus lane totals
        stays `budget`; it either serves the front or finds that nothing can serve it. */
    method ServeFront(ghost entry: seq<Layout>, ghost n: nat, ghost budget: int) returns (served: bool)
      requires Valid() && pending != [] && n <= |delivered|
      requires entry == LayoutsOf(delivered[n..]) + pending
      requires ServedFrom(delivered, n, gpu.lanes)
      requires gpu.availableMemory + TotalOf(gpu.lanes) == budget
      modifies this, gpu
      ensures Valid() && n <= |delivered| && delivered[..n] == old(delivered)[..n]
      ensures entry == LayoutsOf(delivered[n..]) + pending
      ensures ServedFrom(delivered, n, gpu.lanes)
      ensures gpu.availableMemory + TotalOf(gpu.lanes) == budget
      ensures served <==> CanServe(old(gpu.availableMemory), old(gpu.lanes), old(pending)[0])
      ensures served ==> |delivered| == |old(delivered)| + 1
      ensures !served ==> pending != [] && !CanServe(gpu.availableMemory, gpu.lanes, pending[0])
    {
      ghost var before := delivered;
      ghost var queued := pending;
      ghost var lanes := gpu.lanes;
      var outcome := ProcessStep();
      served := outcome.Served?;
      if served {
        ServeKeepsFifo(entry, n, before, queued, outcome.lane);
        ServeKeepsFits(before, n, lanes, gpu.lanes, (queued[0], [outcome.lane]));
        assert delivered[..n] == before[..n];
      }
    }

    /** processRequests, run for at most `fuel` iterations: requests are served strictly in
        arrival order, each receiving exactly one lane that fits it and that the control block
        holds, with every lane carved out debited from the pool. */
    method ProcessRequests(fuel: nat)
      requires Valid()
      modifies this, gpu
      ensures Valid()
      ensures |delivered| >= |old(delivered)| && delivered[..|old(delivered)|] == old(delivered)
      ensures old(pending) == LayoutsOf(delivered[|old(delivered)|..]) + pending
      ensures forall i :: |old(delivered)| <= i < |delivered| ==> ServedFits(delivered[i])
      ensures forall i :: |old(delivered)| <= i < |delivered| ==> |delivered[i].1| == 1 && delivered[i].1[0] in gpu.lanes
      ensures gpu.availableMemory + TotalOf(gpu.lanes) == old(gpu.availableMemory) + old(TotalOf(gpu.lanes))
      ensures fuel >= |old(pending)| ==> pending == [] || !CanServe(gpu.availableMemory, gpu.lanes, pending[0])
    {
      var steps := 0;
      ghost var n := |delivered|;
      ghost var budget := gpu.availableMemory + TotalOf(gpu.lanes);
      while pending != [] && steps < fuel
        invariant Valid()
        invariant n <= |delivered| && delivered[..n] == old(delivered)
        invariant old(pending) == LayoutsOf(delivered[n..]) + pending
        invariant ServedFrom(delivered, n, gpu.lanes)
        invariant gpu.availableMemory + TotalOf(gpu.lanes) == budget
        invariant (pending != [] && !CanServe(gpu.availableMemory, gpu.lanes, pending[0])) ||
                  |delivered| - n == steps
        decreases fuel - steps
      {
        var served := ServeFront(old(pending), n, budget);
        steps := steps + 1;
      }
      ServedFromMeans(delivered, n, gpu.lanes);
    }

    /** requestLanes: checks the layout, queues it and processes the queue. */
    method RequestLanes(layout: Layout, fuel: nat)
      requires Valid()
      requires WellFormed(layout) && |layout.memoryLimits| == 1
      modifies this, gpu
      ensures Valid()
      ensures |delivered| >= |old(delivered)| && delivered[..|old(delivered)|] == old(delivered)
      ensures old(pending) + [layout] == LayoutsOf(delivered[|old(delivered)|..]) + pending
      ensures forall i :: |old(delivered)| <= i < |delivered| ==> ServedFits(delivered[i])
      ensures forall i :: |old(delivered)| <= i < |delivered| ==> |delivered[i].1| == 1 && delivered[i].1[0] in gpu.lanes
      ensures gpu.availableMemory + TotalOf(gpu.lanes) == old(gpu.availableMemory) + old(TotalOf(gpu.lanes))
      ensures fuel > |old(pending)| ==> pending == [] || !CanServe(gpu.availableMemory, gpu.lanes, pending[0])
    {
      pending := pending + [layout];
      ProcessRequests(fuel);
    }
  }
}
