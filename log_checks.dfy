/**
 * The three log-consistency validators of scripts/checks.py.
 *
 * Each validator reads a log file, matches every line against one or more
 * regular expressions and replays the matches against a small piece of state,
 * raising an exception on the first inconsistency. Here the file reading and
 * the regular-expression matching are replaced by lines that are already
 * parsed: a line carries the matches it produced, and a line that matches
 * several patterns yields several events, in the order the script tests them.
 * Each validator is a method with the script's loop, proved equal to a replay
 * of its step function over the event sequence, and the replay is
 * characterised by lemmas in terms of the events alone.
 */
module LogChecks {
  import opened Wrappers

  /** The exceptions the validators raise, with the values they report. */
  datatype Violation =
    | EndOfUnknownSeq(id: string)                              // set.remove raises KeyError
    | UnknownKernelName(node: string, line: string)            // decrement of a zero counter
    | FoundNonexistKernel(kernel: string, op: string)
    | FoundKernelChangedOp(kernel: string, was: string, op: string)
    | DeleteNonexistKernel(kernel: string, op: string)
    | DeleteKernelChangedOp(kernel: string, was: string, op: string)

  /** Runs `step` over `evts` from `init`, stopping at the first violation. */
  function Replay<S, E>(step: (S, E) -> Result<S, Violation>, init: S, evts: seq<E>): Result<S, Violation>
  {
    if |evts| == 0 then Ok(init)
    else match Replay(step, init, evts[..|evts| - 1])
      case Err(v) => Err(v)
      case Ok(s) => step(s, evts[|evts| - 1])
  }

  /** Once a prefix of the events raises, the whole replay raises the same violation. */
  lemma {:induction false} ReplayErrSticky<S, E>(step: (S, E) -> Result<S, Violation>, init: S, pre: seq<E>, evts: seq<E>)
    requires pre <= evts && Replay(step, init, pre).Err?
    ensures Replay(step, init, evts) == Replay(step, init, pre)
  {
    if |pre| < |evts| {
      var front := evts[..|evts| - 1];
      assert pre <= front;
      ReplayErrSticky(step, init, pre, front);
    } else {
      assert pre == evts;
    }
  }

  /** Replaying one more event is one more step. */
  lemma ReplayAppend<S, E>(step: (S, E) -> Result<S, Violation>, init: S, evts: seq<E>, e: E)
    ensures Replay(step, init, evts + [e]) ==
            match Replay(step, init, evts)
            case Err(v) => Err(v)
            case Ok(s) => step(s, e)
  {
    assert (evts + [e])[..|evts|] == evts;
  }

  // ---------------------------------------------------------------------------
  // check_threadpool: pairing of "start to run seq N" and "end to run seq N"
  // ---------------------------------------------------------------------------

  /** A line that matched the thread-pool pattern. */
  datatype PoolEvent = Start(id: string) | End(id: string)

  /** The loop body of check_threadpool over the set of live sequence numbers. */
  function PoolStep(live: set<string>, e: PoolEvent): Result<set<string>, Violation>
  {
    match e
    case Start(x) => Ok(live + {x})
    case End(x) => if x in live then Ok(live - {x}) else Err(EndOfUnknownSeq(x))
  }

  function LiveSeqs(evts: seq<PoolEvent>): Result<set<string>, Violation>
  {
    Replay(PoolStep, {}, evts)
  }

  /** Some start of `x` is followed by no end of `x`. */
  ghost predicate OpenStart(evts: seq<PoolEvent>, x: string)
  {
    exists i :: 0 <= i < |evts| && evts[i] == Start(x) && forall j :: i < j < |evts| ==> evts[j] != End(x)
  }

  /** check_threadpool: the set of sequence numbers still running, or the KeyError. */
  method CheckThreadpool(evts: seq<PoolEvent>) returns (r: Result<set<string>, Violation>)
    ensures r == LiveSeqs(evts)
  {
    var live: set<string> := {};
    for i := 0 to |evts|
      invariant LiveSeqs(evts[..i]) == Ok(live)
    {
      ReplayAppend(PoolStep, {}, evts[..i], evts[i]);
      assert evts[..i + 1] == evts[..i] + [evts[i]];
      match evts[i]
      case Start(x) =>
        live := live + {x};
      case End(x) =>
        if x !in live {
          ReplayErrSticky(PoolStep, {}, evts[..i + 1], evts);
          return Err(EndOfUnknownSeq(x));
        }
        live := live - {x};
    }
    assert evts[..|evts|] == evts;
    r := Ok(live);
  }

  /** A successful run returns exactly the sequence numbers with a start that no end follows. */
  lemma {:induction false} LiveSeqsExactly(evts: seq<PoolEvent>, x: string)
    requires LiveSeqs(evts).Ok?
    ensures x in LiveSeqs(evts).value <==> OpenStart(evts, x)
  {
    if |evts| > 0 {
      var n := |evts| - 1;
      var front := evts[..n];
      assert evts == front + [evts[n]];
      ReplayAppend(PoolStep, {}, front, evts[n]);
      assert LiveSeqs(front).Ok?;
      {
        LiveSeqsExactly(front, x);
        if evts[n] == Start(x) {
          assert OpenStart(evts, x) by {
            assert evts[n] == Start(x);
          }
        } else if evts[n] == End(x) {
          assert !OpenStart(evts, x) by {
            forall i | 0 <= i < |evts| && evts[i] == Start(x)
              ensures exists j :: i < j < |evts| && evts[j] == End(x)
            {
              assert i < n && evts[n] == End(x);
            }
          }
        } else {
          if OpenStart(front, x) {
            var i :| 0 <= i < |front| && front[i] == Start(x) && forall j :: i < j < |front| ==> front[j] != End(x);
            assert evts[i] == Start(x) && forall j :: i < j < |evts| ==> evts[j] != End(x);
          }
          if OpenStart(evts, x) {
            var i :| 0 <= i < |evts| && evts[i] == Start(x) && forall j :: i < j < |evts| ==> evts[j] != End(x);
            assert i < n;
            assert front[i] == Start(x) && forall j :: i < j < |front| ==> front[j] != End(x);
          }
        }
      }
    }
  }

  /** The replay raises exactly when some end comes for a sequence number that is not running. */
  lemma {:induction false} LiveSeqsFailsExactly(evts: seq<PoolEvent>)
    ensures LiveSeqs(evts).Ok? <==>
            forall i :: 0 <= i < |evts| && evts[i].End? ==> OpenStart(evts[..i], evts[i].id)
  {
    if |evts| > 0 {
      var n := |evts| - 1;
      var front := evts[..n];
      assert evts == front + [evts[n]];
      ReplayAppend(PoolStep, {}, front, evts[n]);
      LiveSeqsFailsExactly(front);
      assert forall i :: 0 <= i < n ==> evts[..i] == front[..i];
      assert evts[..n] == front;
      if LiveSeqs(front).Ok? && evts[n].End? {
        LiveSeqsExactly(front, evts[n].id);
      }
    }
  }

  // ---------------------------------------------------------------------------
  // check_pending_ops: balance of "Process node" and "Propagate outputs for node"
  // ---------------------------------------------------------------------------

  /** A log line with the node name each of the two patterns captured, if any. */
  datatype NodeLine = NodeLine(text: string, processed: Option<string>, propagated: Option<string>)

  datatype NodeEvent = Process(node: string, text: string) | Propagate(node: string, text: string)

  /** The events of one line: the start pattern is tested before the end pattern. */
  function LineNodeEvents(l: NodeLine): seq<NodeEvent>
  {
    (if l.processed.Some? then [Process(l.processed.value, l.text)] else []) +
    (if l.propagated.Some? then [Propagate(l.propagated.value, l.text)] else [])
  }

  function NodeEvents(lines: seq<NodeLine>): seq<NodeEvent>
  {
    if |lines| == 0 then [] else NodeEvents(lines[..|lines| - 1]) + LineNodeEvents(lines[|lines| - 1])
  }

  /** The events of the first `k` lines begin the events of all lines. */
  lemma {:induction false} NodeEventsPrefix(lines: seq<NodeLine>, k: nat)
    requires k <= |lines|
    ensures NodeEvents(lines[..k]) <= NodeEvents(lines)
  {
    if k < |lines| {
      var front := lines[..|lines| - 1];
      assert front[..k] == lines[..k];
      NodeEventsPrefix(front, k);
    } else {
      assert lines[..k] == lines;
    }
  }

  /** The script's two defaultdicts: a counter per node and the lines that started it. */
  datatype PendingState = PendingState(counters: map<string, nat>, started: map<string, seq<string>>)

  /** The value a defaultdict(int) yields for `k`. */
  function Counter(m: map<string, nat>, k: string): nat
  {
    if k in m then m[k] else 0
  }

  function Lines(m: map<string, seq<string>>, k: string): seq<string>
  {
    if k in m then m[k] else []
  }

  /** One matched pattern of check_pending_ops' loop body. */
  function PendingStep(st: PendingState, e: NodeEvent): Result<PendingState, Violation>
  {
    match e
    case Process(n, t) =>
      Ok(PendingState(st.counters[n := Counter(st.counters, n) + 1], st.started[n := Lines(st.started, n) + [t]]))
    case Propagate(n, t) =>
      if Counter(st.counters, n) == 0 then Err(UnknownKernelName(n, t))
      else Ok(st.(counters := st.counters[n := Counter(st.counters, n) - 1]))
  }

  function PendingReplay(evts: seq<NodeEvent>): Result<PendingState, Violation>
  {
    Replay(PendingStep, PendingState(map[], map[]), evts)
  }

  /** The nodes whose counter is not zero, with their counters (the script's `remaining`). */
  function Remaining(counters: map<string, nat>): (r: map<string, nat>)
    ensures forall k :: k in r <==> Counter(counters, k) != 0
    ensures forall k :: k in r ==> r[k] == Counter(counters, k)
  {
    map k | k in counters && counters[k] != 0 :: counters[k]
  }

  /** Number of start events for `n`. */
  function Starts(evts: seq<NodeEvent>, n: string): nat
  {
    if |evts| == 0 then 0
    else Starts(evts[..|evts| - 1], n) + (if evts[|evts| - 1].Process? && evts[|evts| - 1].node == n then 1 else 0)
  }

  /** Number of end events for `n`. */
  function Ends(evts: seq<NodeEvent>, n: string): nat
  {
    if |evts| == 0 then 0
    else Ends(evts[..|evts| - 1], n) + (if evts[|evts| - 1].Propagate? && evts[|evts| - 1].node == n then 1 else 0)
  }

  /** The loop body of check_pending_ops on one line: the start pattern first, then the end pattern. */
  function PendingLine(st: PendingState, line: NodeLine): Result<PendingState, Violation>
  {
    var mid := if line.processed.Some? then PendingStep(st, Process(line.processed.value, line.text)).value else st;
    if line.propagated.Some? then PendingStep(mid, Propagate(line.propagated.value, line.text)) else Ok(mid)
  }

  /** Replaying the events of one more line is one application of the loop body. */
  lemma PendingReplayLine(lines: seq<NodeLine>, i: nat)
    requires i < |lines|
    ensures PendingReplay(NodeEvents(lines[..i + 1])) ==
            match PendingReplay(NodeEvents(lines[..i]))
            case Err(v) => Err(v)
            case Ok(st) => PendingLine(st, lines[i])
  {
    assert lines[..i + 1][..i] == lines[..i];
    var done := NodeEvents(lines[..i]);
    var line := lines[i];
    var init := PendingState(map[], map[]);
    if line.processed.Some? {
      var p := Process(line.processed.value, line.text);
      ReplayAppend(PendingStep, init, done, p);
      if line.propagated.Some? {
        var q := Propagate(line.propagated.value, line.text);
        ReplayAppend(PendingStep, init, done + [p], q);
        assert done + [p] + [q] == NodeEvents(lines[..i + 1]);
      } else {
        assert done + [p] == NodeEvents(lines[..i + 1]);
      }
    } else if line.propagated.Some? {
      var q := Propagate(line.propagated.value, line.text);
      ReplayAppend(PendingStep, init, done, q);
      assert done + [q] == NodeEvents(lines[..i + 1]);
    } else {
      assert done == NodeEvents(lines[..i + 1]);
    }
  }

  /** What check_pending_ops returns for `lines`, stated through the replay of their events. */
  function PendingOpsOutcome(lines: seq<NodeLine>): Result<(map<string, nat>, map<string, seq<string>>), Violation>
  {
    match PendingReplay(NodeEvents(lines))
    case Err(v) => Err(v)
    case Ok(st) => Ok((Remaining(st.counters), st.started))
  }

  /** The first violation raised by a prefix of the lines is what the whole check raises. */
  lemma PendingOpsStopsAt(lines: seq<NodeLine>, k: nat)
    requires k <= |lines| && PendingReplay(NodeEvents(lines[..k])).Err?
    ensures PendingOpsOutcome(lines) == Err(PendingReplay(NodeEvents(lines[..k])).error)
  {
    NodeEventsPrefix(lines, k);
    ReplayErrSticky(PendingStep, PendingState(map[], map[]), NodeEvents(lines[..k]), NodeEvents(lines));
  }

  /** The loop body of check_pending_ops on one line: count a start, record its line, then
      count an end, raising when the node has no start left. */
  method PendingLineUpdate(kernels: map<string, nat>, started: map<string, seq<string>>, line: NodeLine)
    returns (r: Result<PendingState, Violation>)
    ensures r == PendingLine(PendingState(kernels, started), line)
  {
    var counters := kernels;
    var collected := started;
    if line.processed.Some? {
      var n := line.processed.value;
      counters := counters[n := Counter(counters, n) + 1];
      collected := collected[n := Lines(collected, n) + [line.text]];
    }
    if line.propagated.Some? {
      var n := line.propagated.value;
      if Counter(counters, n) == 0 {
        return Err(UnknownKernelName(n, line.text));
      }
      counters := counters[n := Counter(counters, n) - 1];
    }
    return Ok(PendingState(counters, collected));
  }

  /** check_pending_ops: the nodes left running with their counters, and the lines that started each node. */
  method CheckPendingOps(lines: seq<NodeLine>) returns (r: Result<(map<string, nat>, map<string, seq<string>>), Violation>)
    ensures r == PendingOpsOutcome(lines)
  {
    var kernels: map<string, nat> := map[];
    var started: map<string, seq<string>> := map[];
    for i := 0 to |lines|
      invariant PendingReplay(NodeEvents(lines[..i])) == Ok(PendingState(kernels, started))
    {
      PendingReplayLine(lines, i);
      var next := PendingLineUpdate(kernels, started, lines[i]);
      if next.Err? {
        PendingOpsStopsAt(lines, i + 1);
        return Err(next.error);
      }
      kernels, started := next.value.counters, next.value.started;
    }
    assert lines[..|lines|] == lines;
    r := Ok((Remaining(kernels), started));
  }

  /** Each node's counter is its starts minus its ends, so it never goes below zero;
      each node's collected lines are one per start. */
  lemma {:induction false} PendingReplayCounts(evts: seq<NodeEvent>, n: string)
    requires PendingReplay(evts).Ok?
    ensures Counter(PendingReplay(evts).value.counters, n) + Ends(evts, n) == Starts(evts, n)
    ensures |Lines(PendingReplay(evts).value.started, n)| == Starts(evts, n)
  {
    if |evts| > 0 {
      var k := |evts| - 1;
      var front := evts[..k];
      assert evts == front + [evts[k]];
      ReplayAppend(PendingStep, PendingState(map[], map[]), front, evts[k]);
      assert PendingReplay(front).Ok?;
      PendingReplayCounts(front, n);
    }
  }

  /** The replay raises exactly when an end for a node comes while the node has no unmatched start. */
  lemma {:induction false} PendingReplayFailsExactly(evts: seq<NodeEvent>)
    ensures PendingReplay(evts).Ok? <==>
            forall i :: 0 <= i < |evts| && evts[i].Propagate? ==> Ends(evts[..i], evts[i].node) < Starts(evts[..i], evts[i].node)
  {
    if |evts| > 0 {
      var k := |evts| - 1;
      var front := evts[..k];
      assert evts == front + [evts[k]];
      ReplayAppend(PendingStep, PendingState(map[], map[]), front, evts[k]);
      PendingReplayFailsExactly(front);
      assert forall i :: 0 <= i < k ==> evts[..i] == front[..i];
      if PendingReplay(front).Ok? && evts[k].Propagate? {
        PendingReplayCounts(front, evts[k].node);
      }
    }
  }

  /** check_pending_ops returns exactly the nodes whose starts and ends differ, with the difference. */
  lemma PendingOpsRemainingExactly(lines: seq<NodeLine>, n: string)
    requires PendingOpsOutcome(lines).Ok?
    ensures n in PendingOpsOutcome(lines).value.0 <==> Starts(NodeEvents(lines), n) != Ends(NodeEvents(lines), n)
    ensures n in PendingOpsOutcome(lines).value.0 ==>
              PendingOpsOutcome(lines).value.0[n] == Starts(NodeEvents(lines), n) - Ends(NodeEvents(lines), n)
  {
    PendingReplayCounts(NodeEvents(lines), n);
  }

  // ---------------------------------------------------------------------------
  // check_kernel_create: lifecycle of "Created", "Found cached" and "Deleted" kernels
  // ---------------------------------------------------------------------------

  /** The kernel address and the op text a kernel pattern captured. */
  datatype KernelRef = KernelRef(kernel: string, op: string)

  /** A log line with the capture of each of the three patterns, if it matched. */
  datatype KernelLine = KernelLine(created: Option<KernelRef>, found: Option<KernelRef>, deleted: Option<KernelRef>)

  datatype KernelEvent = Create(ref: KernelRef) | Find(ref: KernelRef) | Delete(ref: KernelRef)

  /** The events of one line, in the order the script tests its three patterns. */
  function LineKernelEvents(l: KernelLine): seq<KernelEvent>
  {
    (if l.created.Some? then [Create(l.created.value)] else []) +
    (if l.found.Some? then [Find(l.found.value)] else []) +
    (if l.deleted.Some? then [Delete(l.deleted.value)] else [])
  }

  function KernelEvents(lines: seq<KernelLine>): seq<KernelEvent>
  {
    if |lines| == 0 then [] else KernelEvents(lines[..|lines| - 1]) + LineKernelEvents(lines[|lines| - 1])
  }

  /** The events of the first `k` lines begin the events of all lines. */
  lemma {:induction false} KernelEventsPrefix(lines: seq<KernelLine>, k: nat)
    requires k <= |lines|
    ensures KernelEvents(lines[..k]) <= KernelEvents(lines)
  {
    if k < |lines| {
      var front := lines[..|lines| - 1];
      assert front[..k] == lines[..k];
      KernelEventsPrefix(front, k);
    } else {
      assert lines[..k] == lines;
    }
  }

  /** One matched pattern of check_kernel_create's loop body over the map of live kernels. */
  function KernelStep(kernels: map<string, string>, e: KernelEvent): Result<map<string, string>, Violation>
  {
    match e
    case Create(KernelRef(k, op)) => Ok(kernels[k := op])
    case Find(KernelRef(k, op)) =>
      if k !in kernels then Err(FoundNonexistKernel(k, op))
      else if kernels[k] != op then Err(FoundKernelChangedOp(k, kernels[k], op))
      else Ok(kernels)
    case Delete(KernelRef(k, op)) =>
      if k !in kernels then Err(DeleteNonexistKernel(k, op))
      else if kernels[k] != op then Err(DeleteKernelChangedOp(k, kernels[k], op))
      else Ok(kernels - {k})
  }

  function KernelReplay(evts: seq<KernelEvent>): Result<map<string, string>, Violation>
  {
    Replay(KernelStep, map[], evts)
  }

  /** The loop body of check_kernel_create on one line. */
  function KernelLineStep(kernels: map<string, string>, line: KernelLine): Result<map<string, string>, Violation>
  {
    var m1 := if line.created.Some? then KernelStep(kernels, Create(line.created.value)).value else kernels;
    var r2 := if line.found.Some? then KernelStep(m1, Find(line.found.value)) else Ok(m1);
    if r2.Err? then r2
    else if line.deleted.Some? then KernelStep(r2.value, Delete(line.deleted.value))
    else r2
  }

  /** Replaying an optional event: one more step when present, nothing otherwise. */
  lemma KernelReplayMaybe(done: seq<KernelEvent>, o: Option<KernelEvent>)
    ensures KernelReplay(done + (if o.Some? then [o.value] else [])) ==
            match KernelReplay(done)
            case Err(v) => Err(v)
            case Ok(m) => if o.Some? then KernelStep(m, o.value) else Ok(m)
  {
    if o.Some? {
      ReplayAppend(KernelStep, map[], done, o.value);
    } else {
      assert done + [] == done;
    }
  }

  /** Replaying the events of one more line is one application of the loop body. */
  lemma KernelReplayLine(lines: seq<KernelLine>, i: nat)
    requires i < |lines|
    ensures KernelReplay(KernelEvents(lines[..i + 1])) ==
            match KernelReplay(KernelEvents(lines[..i]))
            case Err(v) => Err(v)
            case Ok(m) => KernelLineStep(m, lines[i])
  {
    assert lines[..i + 1][..i] == lines[..i];
    var line := lines[i];
    var oa := if line.created.Some? then Some(Create(line.created.value)) else None;
    var ob := if line.found.Some? then Some(Find(line.found.value)) else None;
    var oc := if line.deleted.Some? then Some(Delete(line.deleted.value)) else None;
    var a := if oa.Some? then [oa.value] else [];
    var b := if ob.Some? then [ob.value] else [];
    var c := if oc.Some? then [oc.value] else [];
    var done := KernelEvents(lines[..i]);
    assert KernelEvents(lines[..i + 1]) == done + a + b + c;
    KernelReplayMaybe(done, oa);
    KernelReplayMaybe(done + a, ob);
    KernelReplayMaybe(done + a + b, oc);
  }

  /** What check_kernel_create returns for `lines`. */
  function KernelCreateOutcome(lines: seq<KernelLine>): Result<map<string, string>, Violation>
  {
    KernelReplay(KernelEvents(lines))
  }

  /** check_kernel_create: the kernels created and not deleted, with their ops, or the first ValueError. */
  method CheckKernelCreate(lines: seq<KernelLine>) returns (r: Result<map<string, string>, Violation>)
    ensures r == KernelCreateOutcome(lines)
  {
    var kernels: map<string, string> := map[];
    for i := 0 to |lines|
      invariant KernelReplay(KernelEvents(lines[..i])) == Ok(kernels)
    {
      KernelReplayLine(lines, i);
      ghost var before := kernels;
      var line := lines[i];
      if line.created.Some? {
        kernels := kernels[line.created.value.kernel := line.created.value.op];
      }
      if line.found.Some? {
        var addr, op := line.found.value.kernel, line.found.value.op;
        if addr !in kernels || kernels[addr] != op {
          var v := if addr !in kernels then FoundNonexistKernel(addr, op) else FoundKernelChangedOp(addr, kernels[addr], op);
          assert KernelLineStep(before, line) == Err(v);
          KernelEventsPrefix(lines, i + 1);
          ReplayErrSticky(KernelStep, map[], KernelEvents(lines[..i + 1]), KernelEvents(lines));
          return Err(v);
        }
      }
      if line.deleted.Some? {
        var addr, op := line.deleted.value.kernel, line.deleted.value.op;
        if addr !in kernels || kernels[addr] != op {
          var v := if addr !in kernels then DeleteNonexistKernel(addr, op) else DeleteKernelChangedOp(addr, kernels[addr], op);
          assert KernelLineStep(before, line) == Err(v);
          KernelEventsPrefix(lines, i + 1);
          ReplayErrSticky(KernelStep, map[], KernelEvents(lines[..i + 1]), KernelEvents(lines));
          return Err(v);
        }
        kernels := kernels - {addr};
      }
      assert KernelLineStep(before, line) == Ok(kernels);
    }
    assert lines[..|lines|] == lines;
    r := Ok(kernels);
  }

  /** Event `e` creates or deletes kernel `k` (a find leaves the map as it is). */
  predicate Touches(e: KernelEvent, k: string)
  {
    (e.Create? || e.Delete?) && e.ref.kernel == k
  }

  /** `k` was created for `op` and neither created again nor deleted afterwards. */
  ghost predicate LiveAs(evts: seq<KernelEvent>, k: string, op: string)
  {
    exists i :: 0 <= i < |evts| && evts[i] == Create(KernelRef(k, op)) &&
      forall j :: i < j < |evts| ==> !Touches(evts[j], k)
  }

  /** When the last event creates or deletes `k`, `k` is live for `op` exactly when that event creates it for `op`. */
  lemma LiveAsLastTouches(evts: seq<KernelEvent>, k: string, op: string)
    requires |evts| > 0 && Touches(evts[|evts| - 1], k)
    ensures LiveAs(evts, k, op) <==> evts[|evts| - 1] == Create(KernelRef(k, op))
  {
    var n := |evts| - 1;
    if LiveAs(evts, k, op) {
      var i :| 0 <= i < |evts| && evts[i] == Create(KernelRef(k, op)) && forall j :: i < j < |evts| ==> !Touches(evts[j], k);
      assert i == n;
    }
    if evts[n] == Create(KernelRef(k, op)) {
      assert LiveAs(evts, k, op) by { assert evts[n] == Create(KernelRef(k, op)); }
    }
  }

  /** An event that does not create or delete `k` leaves whether `k` is live unchanged. */
  lemma LiveAsLastUntouched(evts: seq<KernelEvent>, k: string, op: string)
    requires |evts| > 0 && !Touches(evts[|evts| - 1], k)
    ensures LiveAs(evts, k, op) <==> LiveAs(evts[..|evts| - 1], k, op)
  {
    var front := evts[..|evts| - 1];
    if LiveAs(front, k, op) {
      var i :| 0 <= i < |front| && front[i] == Create(KernelRef(k, op)) && forall j :: i < j < |front| ==> !Touches(front[j], k);
      assert evts[i] == Create(KernelRef(k, op)) && forall j :: i < j < |evts| ==> !Touches(evts[j], k);
    }
    if LiveAs(evts, k, op) {
      var i :| 0 <= i < |evts| && evts[i] == Create(KernelRef(k, op)) && forall j :: i < j < |evts| ==> !Touches(evts[j], k);
      assert i < |front|;
      assert front[i] == Create(KernelRef(k, op)) && forall j :: i < j < |front| ==> !Touches(front[j], k);
    }
  }

  /** A successful run maps a kernel to an op exactly when its last create was for that op
      and no delete came after it. */
  lemma {:induction false} KernelReplayExactly(evts: seq<KernelEvent>, k: string, op: string)
    requires KernelReplay(evts).Ok?
    ensures (k in KernelReplay(evts).value && KernelReplay(evts).value[k] == op) <==> LiveAs(evts, k, op)
  {
    if |evts| > 0 {
      var n := |evts| - 1;
      var front := evts[..n];
      assert evts == front + [evts[n]];
      ReplayAppend(KernelStep, map[], front, evts[n]);
      assert KernelReplay(front).Ok?;
      KernelReplayExactly(front, k, op);
      if Touches(evts[n], k) {
        LiveAsLastTouches(evts, k, op);
      } else {
        LiveAsLastUntouched(evts, k, op);
      }
    }
  }

  /** A find or a delete raises exactly when its kernel is not live for the op it names. */
  lemma {:induction false} KernelReplayFailsExactly(evts: seq<KernelEvent>)
    ensures KernelReplay(evts).Ok? <==>
            forall i :: 0 <= i < |evts| && !evts[i].Create? ==> LiveAs(evts[..i], evts[i].ref.kernel, evts[i].ref.op)
  {
    if |evts| > 0 {
      var n := |evts| - 1;
      var front := evts[..n];
      assert evts == front + [evts[n]];
      ReplayAppend(KernelStep, map[], front, evts[n]);
      KernelReplayFailsExactly(front);
      assert forall i :: 0 <= i < n ==> evts[..i] == front[..i];
      if KernelReplay(front).Ok? && !evts[n].Create? {
        KernelReplayExactly(front, evts[n].ref.kernel, evts[n].ref.op);
      }
    }
  }
}
