/**
 * The single-producer single-consumer ring as atomic steps of two threads. A load of the other thread's
 * index may return any value stored since the last one read, as acquire loads allow; a slot records the
 * last push that wrote it and the last pop that moved its value out.
 */
module SpscRing {
  import opened Optional

  datatype Cell<T> = Cell(value: Option<T>, write: int, read: int)

  datatype Producer<T> =
    | PIdle
    | PLoaded(value: T, head: nat)
    | PReady(value: T, head: nat)
    | PWritten(value: T, head: nat)

  datatype Consumer<T> =
    | CIdle
    | CLoaded(tail: nat)
    | CReady(tail: nat)
    | CHolds(tail: nat, value: T)

  /**
   * `heads` and `tails` hold every value stored in an index, `seenTail` and `seenHead` the last one the other
   * thread read.
   */
  datatype Ring<T> = Ring(
    cells: seq<Cell<T>>, heads: seq<nat>, tails: seq<nat>,
    producer: Producer<T>, seenTail: nat, consumer: Consumer<T>, seenHead: nat,
    pushed: seq<T>, popped: seq<T>)

  datatype Step<T> =
    | LoadHead(value: T)
    | CheckTail(k: nat)
    | WriteSlot
    | StoreHead
    | LoadTail
    | CheckHead(k: nat)
    | MoveSlot
    | StoreTail

  function SlotCount(capacity: nat): (n: nat)
    ensures n >= 2
  {
    (if capacity == 0 then 1 else capacity) + 1
  }

  function Start<T>(capacity: nat): Ring<T> {
    Ring(seq(SlotCount(capacity), i => Cell(None, -1, -1)), [0], [0], PIdle, 0, CIdle, 0, [], [])
  }

  function NextIndex(i: nat, n: nat): nat {
    if i + 1 == n then 0 else i + 1
  }

  predicate Enabled<T>(r: Ring<T>, step: Step<T>) {
    match step
    case LoadHead(_) => r.producer.PIdle? && r.heads != []
    case CheckTail(k) => r.producer.PLoaded? && r.seenTail <= k < |r.tails|
    case WriteSlot => r.producer.PReady? && r.producer.head < |r.cells|
    case StoreHead => r.producer.PWritten?
    case LoadTail => r.consumer.CIdle? && r.tails != []
    case CheckHead(k) => r.consumer.CLoaded? && r.seenHead <= k < |r.heads|
    case MoveSlot => r.consumer.CReady? && r.consumer.tail < |r.cells| && r.cells[r.consumer.tail].value.Some?
    case StoreTail => r.consumer.CHolds?
  }

  function Apply<T>(r: Ring<T>, step: Step<T>): Ring<T>
    requires Enabled(r, step)
  {
    match step
    case LoadHead(v) => r.(producer := PLoaded(v, r.heads[|r.heads| - 1]))
    case CheckTail(k) =>
      var p := r.producer;
      if NextIndex(p.head, |r.cells|) == r.tails[k] then r.(producer := PIdle, seenTail := k)
      else r.(producer := PReady(p.value, p.head), seenTail := k)
    case WriteSlot =>
      var p := r.producer;
      r.(producer := PWritten(p.value, p.head),
         cells := r.cells[p.head := r.cells[p.head].(value := Some(p.value), write := |r.pushed|)])
    case StoreHead =>
      var p := r.producer;
      r.(producer := PIdle, heads := r.heads + [NextIndex(p.head, |r.cells|)], pushed := r.pushed + [p.value])
    case LoadTail => r.(consumer := CLoaded(r.tails[|r.tails| - 1]))
    case CheckHead(k) =>
      var t := r.consumer.tail;
      if t == r.heads[k] then r.(consumer := CIdle, seenHead := k)
      else r.(consumer := CReady(t), seenHead := k)
    case MoveSlot =>
      var t := r.consumer.tail;
      r.(consumer := CHolds(t, r.cells[t].value.value),
         cells := r.cells[t := r.cells[t].(value := None, read := |r.popped|)])
    case StoreTail =>
      var c := r.consumer;
      r.(consumer := CIdle, tails := r.tails + [NextIndex(c.tail, |r.cells|)], popped := r.popped + [c.value])
  }

  /** `r` follows from a fresh ring by these steps, in this order. */
  ghost predicate Reached<T(!new)>(capacity: nat, steps: seq<Step<T>>, r: Ring<T>)
    decreases |steps|
  {
    if steps == [] then r == Start(capacity)
    else
      var last := |steps| - 1;
      exists q :: Reached(capacity, steps[..last], q) && Enabled(q, steps[last]) && r == Apply(q, steps[last])
  }

  // ---------------------------------------------------------------- slot of the k-th value

  function SlotOf(k: nat, n: nat): (i: nat)
    requires n >= 2
    ensures i < n
  {
    if k == 0 then 0 else NextIndex(SlotOf(k - 1, n), n)
  }

  lemma {:induction false} SlotAhead(k: nat, d: nat, n: nat)
    requires n >= 2 && d <= n
    ensures SlotOf(k + d, n) == if SlotOf(k, n) + d < n then SlotOf(k, n) + d else SlotOf(k, n) + d - n
    decreases d
  {
    if d > 0 {
      SlotAhead(k, d - 1, n);
    }
  }

  /** Values less than `n` apart lie in different slots, and `n` apart in the same one. */
  lemma SlotsDiffer(j: nat, k: nat, n: nat)
    requires n >= 2 && k <= j <= k + n
    ensures SlotOf(j, n) == SlotOf(k, n) <==> j == k || j == k + n
  {
    SlotAhead(k, j - k, n);
  }

  lemma {:induction false} SameSlotFarApart(j: nat, k: nat, n: nat)
    requires n >= 2 && k < j && SlotOf(j, n) == SlotOf(k, n)
    ensures j >= k + n
  {
    if j < k + n {
      SlotsDiffer(j, k, n);
    }
  }

  // ---------------------------------------------------------------- invariant

  ghost predicate Indexed(h: seq<nat>, count: nat, n: nat)
    requires n >= 2
  {
    |h| == count + 1 && forall k :: 0 <= k < |h| ==> h[k] == SlotOf(k, n)
  }

  /** A slot that holds value number `k`. */
  ghost predicate Live<T>(cells: seq<Cell<T>>, pushed: seq<T>, k: nat)
    requires k < |pushed|
  {
    && |cells| >= 2
    && cells[SlotOf(k, |cells|)].value == Some(pushed[k]) && cells[SlotOf(k, |cells|)].write == k
  }

  ghost predicate CellsOk<T>(r: Ring<T>) {
    && |r.cells| >= 2
    && (forall k :: |r.popped| <= k < |r.pushed| && (r.consumer.CHolds? ==> k > |r.popped|) ==>
        Live(r.cells, r.pushed, k))
    && (forall i :: 0 <= i < |r.cells| && r.cells[i].read >= 0 ==>
          && SlotOf(r.cells[i].read, |r.cells|) == i
          && (r.cells[i].read < |r.popped| || (r.consumer.CHolds? && r.cells[i].read == |r.popped|)))
  }

  ghost predicate ProducerOk<T>(r: Ring<T>)
    requires |r.cells| >= 2
  {
    var n, at := |r.cells|, SlotOf(|r.pushed|, |r.cells|);
    match r.producer
    case PIdle => true
    case PLoaded(_, head) => head == at
    case PReady(_, head) => head == at && |r.pushed| - r.seenTail <= n - 2
    case PWritten(v, head) =>
      head == at && |r.pushed| - r.seenTail <= n - 2 && r.cells[at].value == Some(v) && r.cells[at].write == |r.pushed|
  }

  ghost predicate ConsumerOk<T>(r: Ring<T>)
    requires |r.cells| >= 2
  {
    var at := SlotOf(|r.popped|, |r.cells|);
    match r.consumer
    case CIdle => true
    case CLoaded(tail) => tail == at
    case CReady(tail) => tail == at && |r.popped| < r.seenHead
    case CHolds(tail, v) =>
      tail == at && |r.popped| < r.seenHead && |r.popped| < |r.pushed| && v == r.pushed[|r.popped|]
  }

  ghost predicate Inv<T>(r: Ring<T>) {
    && |r.cells| >= 2
    && Indexed(r.heads, |r.pushed|, |r.cells|) && Indexed(r.tails, |r.popped|, |r.cells|)
    && r.seenTail <= |r.popped| <= r.seenHead <= |r.pushed| && |r.pushed| - r.seenTail <= |r.cells| - 1
    && r.popped == r.pushed[..|r.popped|]
    && CellsOk(r) && ProducerOk(r) && ConsumerOk(r)
  }

  // ---------------------------------------------------------------- every step keeps the invariant

  lemma CheckTailKeeps<T>(r: Ring<T>, k: nat)
    requires Inv(r) && Enabled(r, CheckTail(k))
    ensures Inv(Apply(r, CheckTail(k)))
    ensures Apply(r, CheckTail(k)).producer.PIdle? <==> |r.pushed| - k == |r.cells| - 1
  {
    SlotsDiffer(|r.pushed| + 1, k, |r.cells|);
  }

  lemma CheckHeadKeeps<T>(r: Ring<T>, k: nat)
    requires Inv(r) && Enabled(r, CheckHead(k))
    ensures Inv(Apply(r, CheckHead(k)))
    ensures Apply(r, CheckHead(k)).consumer.CIdle? <==> k == |r.popped|
  {
    SlotsDiffer(k, |r.popped|, |r.cells|);
  }

  lemma WriteSlotKeeps<T>(r: Ring<T>)
    requires Inv(r) && Enabled(r, WriteSlot)
    ensures Inv(Apply(r, WriteSlot))
  {
    var s := Apply(r, WriteSlot);
    forall k | |r.popped| <= k < |r.pushed| && (r.consumer.CHolds? ==> k > |r.popped|)
      ensures Live(s.cells, s.pushed, k)
    {
      assert Live(r.cells, r.pushed, k);
      SlotsDiffer(|r.pushed|, k, |r.cells|);
    }
  }

  lemma StoreHeadKeeps<T>(r: Ring<T>)
    requires Inv(r) && Enabled(r, StoreHead)
    ensures Inv(Apply(r, StoreHead))
  {
    var s := Apply(r, StoreHead);
    forall k | |s.popped| <= k < |s.pushed| && (s.consumer.CHolds? ==> k > |s.popped|)
      ensures Live(s.cells, s.pushed, k)
    {
      assert k < |r.pushed| ==> Live(r.cells, r.pushed, k);
    }
  }

  lemma MoveSlotKeeps<T>(r: Ring<T>)
    requires Inv(r) && Enabled(r, MoveSlot)
    ensures Inv(Apply(r, MoveSlot))
  {
    var s := Apply(r, MoveSlot);
    assert Live(r.cells, r.pushed, |r.popped|);
    forall k | |r.popped| < k < |r.pushed| ensures Live(s.cells, s.pushed, k) {
      assert Live(r.cells, r.pushed, k);
      SlotsDiffer(k, |r.popped|, |r.cells|);
    }
    if r.producer.PWritten? {
      SlotsDiffer(|r.pushed|, |r.popped|, |r.cells|);
    }
  }

  lemma StoreTailKeeps<T>(r: Ring<T>)
    requires Inv(r) && Enabled(r, StoreTail)
    ensures Inv(Apply(r, StoreTail))
  {
    var s := Apply(r, StoreTail);
    forall k | |s.popped| <= k < |s.pushed| ensures Live(s.cells, s.pushed, k) {
      assert Live(r.cells, r.pushed, k);
    }
  }

  lemma StepKeeps<T>(r: Ring<T>, step: Step<T>)
    requires Inv(r) && Enabled(r, step)
    ensures Inv(Apply(r, step)) && |Apply(r, step).cells| == |r.cells|
  {
    match step
    case LoadHead(_) =>
    case CheckTail(k) => CheckTailKeeps(r, k);
    case WriteSlot => WriteSlotKeeps(r);
    case StoreHead => StoreHeadKeeps(r);
    case LoadTail =>
    case CheckHead(k) => CheckHeadKeeps(r, k);
    case MoveSlot => MoveSlotKeeps(r);
    case StoreTail => StoreTailKeeps(r);
  }

  lemma {:induction false} ReachedOk<T(!new)>(capacity: nat, steps: seq<Step<T>>, r: Ring<T>)
    requires Reached(capacity, steps, r)
    ensures Inv(r) && |r.cells| == SlotCount(capacity)
    decreases |steps|
  {
    if steps != [] {
      var last := |steps| - 1;
      var q :| Reached(capacity, steps[..last], q) && Enabled(q, steps[last]) && r == Apply(q, steps[last]);
      ReachedOk(capacity, steps[..last], q);
      StepKeeps(q, steps[last]);
    }
  }

  // ---------------------------------------------------------------- main theorems

  /** In every interleaving the popped values are a prefix of the pushed ones and at most the capacity is in flight. */
  lemma PoppedIsPrefix<T(!new)>(capacity: nat, steps: seq<Step<T>>, r: Ring<T>)
    requires Reached(capacity, steps, r)
    ensures r.popped <= r.pushed
    ensures |r.pushed| - |r.popped| <= (if capacity == 0 then 1 else capacity)
  {
    ReachedOk(capacity, steps, r);
  }

  /**
   * In every interleaving the threads never touch one slot without order: a slot about to be moved out was
   * written by a push the consumer has seen, a slot about to be written was last moved out by a pop the
   * producer has seen, and the two are never the same.
   */
  lemma NoRace<T(!new)>(capacity: nat, steps: seq<Step<T>>, r: Ring<T>)
    requires Reached(capacity, steps, r)
    ensures r.consumer.CReady? ==>
      && r.consumer.tail < |r.cells| && |r.popped| < |r.pushed|
      && r.cells[r.consumer.tail].value == Some(r.pushed[|r.popped|])
      && 0 <= r.cells[r.consumer.tail].write < r.seenHead
    ensures r.producer.PReady? ==>
      && r.producer.head < |r.cells| && r.cells[r.producer.head].read < r.seenTail
    ensures (r.producer.PReady? || r.producer.PWritten?) && (r.consumer.CReady? || r.consumer.CHolds?) ==>
      r.producer.head != r.consumer.tail
  {
    ReachedOk(capacity, steps, r);
    var n, p, c := |r.cells|, |r.pushed|, |r.popped|;
    if r.consumer.CReady? {
      assert Live(r.cells, r.pushed, c);
    }
    if r.producer.PReady? && r.cells[r.producer.head].read >= 0 {
      SameSlotFarApart(p, r.cells[r.producer.head].read, n);
    }
    if (r.producer.PReady? || r.producer.PWritten?) && (r.consumer.CReady? || r.consumer.CHolds?) {
      SlotsDiffer(p, c, n);
    }
  }

  /**
   * A push is refused exactly when the pops it has seen leave the ring full, a pop exactly when it has seen
   * no push beyond those it took; with up-to-date loads these are the full and the empty ring.
   */
  lemma RefusedExactlyWhenFullOrEmpty<T(!new)>(capacity: nat, steps: seq<Step<T>>, r: Ring<T>, k: nat)
    requires Reached(capacity, steps, r)
    ensures Enabled(r, CheckTail(k)) ==>
      (Apply(r, CheckTail(k)).producer.PIdle? <==> |r.pushed| - k == (if capacity == 0 then 1 else capacity))
    ensures Enabled(r, CheckHead(k)) ==>
      (Apply(r, CheckHead(k)).consumer.CIdle? <==> k == |r.popped|)
  {
    ReachedOk(capacity, steps, r);
    if Enabled(r, CheckTail(k)) {
      CheckTailKeeps(r, k);
    }
    if Enabled(r, CheckHead(k)) {
      CheckHeadKeeps(r, k);
    }
  }

  /** No thread is ever stuck: whatever it is doing, its next step is possible. */
  lemma NeitherThreadBlocks<T(!new)>(capacity: nat, steps: seq<Step<T>>, r: Ring<T>)
    requires Reached(capacity, steps, r)
    ensures r.producer.PLoaded? ==> Enabled(r, CheckTail(|r.popped|))
    ensures r.producer.PReady? ==> Enabled(r, WriteSlot)
    ensures r.producer.PWritten? ==> Enabled(r, StoreHead)
    ensures r.consumer.CLoaded? ==> Enabled(r, CheckHead(|r.pushed|))
    ensures r.consumer.CReady? ==> Enabled(r, MoveSlot)
    ensures r.consumer.CHolds? ==> Enabled(r, StoreTail)
  {
    ReachedOk(capacity, steps, r);
    if r.consumer.CReady? {
      assert Live(r.cells, r.pushed, |r.popped|);
    }
  }
}
