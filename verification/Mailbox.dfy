/** The hand-off of a step list from a control thread to the render thread, as
    interleaved atomic steps: claims are compare-and-swaps, entries are written
    and copied one by one (lib/AudioEngine/AudioEngine.cpp). */
module Mailbox {
  import opened Common
  import opened Voice
  import opened Front
  import opened EngineState

  datatype Flag = Free | Writing | Ready | Reading

  datatype Producer = Away | Filling | Counted | Tagged
  datatype Consumer = Absent | Checking(wanted: U32) | Copying(tag: U32, n: nat, done: nat)

  type Buffer = b: seq<SeqStep> | |b| == MAX_STEPS witness seq(MAX_STEPS, i => SeqStep(0, 0, 0))

  /** `last` is the list most recently committed; `taken` is the outcome of the
      consumer's last finished take. */
  datatype Box = Box(flag: Flag, count: nat, gen: U32, steps: Buffer, dst: Buffer,
                     producer: Producer, consumer: Consumer, last: Option<Letter>, taken: Option<Letter>)

  datatype Step =
    | BeginWrite
    | Fill(i: nat, step: SeqStep)
    | StoreCount(count: int)
    | StoreGen(gen: U32)
    | Publish
    | BeginTake(wanted: U32)
    | TagDiffers
    | TagMatches
    | CopyOne
    | EndTake

  function Clipped(count: int): nat {
    if count < 0 then 0 else if MAX_STEPS < count then MAX_STEPS else count
  }

  /** One atomic step of either thread; None when that thread is not there. */
  function Stepped(b: Box, p: Step): Option<Box> {
    match p
    case BeginWrite =>
      if b.producer != Away then None
      else if b.flag == Free || b.flag == Ready then Some(b.(flag := Writing, producer := Filling))
      else Some(b)
    case Fill(i, step) =>
      if b.producer != Filling || MAX_STEPS <= i then None else Some(b.(steps := b.steps[i := step]))
    case StoreCount(count) =>
      if b.producer != Filling then None else Some(b.(count := Clipped(count), producer := Counted))
    case StoreGen(gen) =>
      if b.producer != Counted then None else Some(b.(gen := gen, producer := Tagged))
    case Publish =>
      if b.producer != Tagged || MAX_STEPS < b.count then None
      else Some(b.(flag := Ready, producer := Away, last := Some(Letter(b.gen, b.steps[..b.count]))))
    case BeginTake(wanted) =>
      if b.consumer != Absent then None
      else if b.flag == Ready then Some(b.(flag := Reading, consumer := Checking(wanted)))
      else Some(b.(taken := None))
    case TagDiffers =>
      if !b.consumer.Checking? || b.gen == b.consumer.wanted then None
      else Some(b.(flag := Ready, consumer := Absent, taken := None))
    case TagMatches =>
      if !b.consumer.Checking? || b.gen != b.consumer.wanted then None
      else Some(b.(consumer := Copying(b.gen, b.count, 0)))
    case CopyOne =>
      if !b.consumer.Copying? || b.consumer.n <= b.consumer.done || MAX_STEPS <= b.consumer.done then None
      else Some(b.(dst := b.dst[b.consumer.done := b.steps[b.consumer.done]],
                   consumer := b.consumer.(done := b.consumer.done + 1)))
    case EndTake =>
      if !b.consumer.Copying? || b.consumer.n != b.consumer.done || MAX_STEPS < b.consumer.n then None
      else Some(b.(flag := Free, consumer := Absent, taken := Some(Letter(b.consumer.tag, b.dst[..b.consumer.n]))))
  }

  function EmptyBuffer(): Buffer {
    seq(MAX_STEPS, i => SeqStep(0, 0, 0))
  }

  function Initial(): Box {
    Box(Free, 0, 0, EmptyBuffer(), EmptyBuffer(), Away, Absent, None, None)
  }

  /** Who is in the buffer, and what the buffer holds. */
  predicate BoxOk(b: Box) {
    && (b.producer != Away <==> b.flag == Writing)
    && (b.consumer != Absent <==> b.flag == Reading)
    && b.count <= MAX_STEPS
    && (b.flag == Ready || b.flag == Reading ==> b.last == Some(Letter(b.gen, b.steps[..b.count])))
    && (b.consumer.Copying? ==>
          && b.consumer.tag == b.gen && b.consumer.n == b.count && b.consumer.done <= b.consumer.n
          && b.dst[..b.consumer.done] == b.steps[..b.consumer.done])
  }

  lemma StepKeepsBoxOk(b: Box, p: Step)
    requires BoxOk(b) && Stepped(b, p).Some?
    ensures BoxOk(Stepped(b, p).value)
  {
    if p == CopyOne {
      var d, r := b.consumer.done, Stepped(b, p).value;
      assert r.dst[..d + 1] == b.dst[..d] + [b.steps[d]];
      assert r.steps[..d + 1] == b.steps[..d] + [b.steps[d]];
    }
  }

  /** The box before the n-th step of an interleaving. */
  ghost predicate IsRun(boxes: seq<Box>, trace: seq<Step>) {
    && |boxes| == |trace| + 1
    && boxes[0] == Initial()
    && forall i :: 0 <= i < |trace| ==> Stepped(boxes[i], trace[i]) == Some(boxes[i + 1])
  }

  lemma {:induction false} EveryBoxOk(boxes: seq<Box>, trace: seq<Step>, n: nat)
    requires IsRun(boxes, trace) && n < |boxes|
    ensures BoxOk(boxes[n])
  {
    if n != 0 {
      EveryBoxOk(boxes, trace, n - 1);
      assert Stepped(boxes[n - 1], trace[n - 1]) == Some(boxes[n]);
      StepKeepsBoxOk(boxes[n - 1], trace[n - 1]);
    }
  }

  /** In every interleaving the two threads are never in the buffer at once. */
  lemma NeverBothInside(boxes: seq<Box>, trace: seq<Step>, n: nat)
    requires IsRun(boxes, trace) && n < |boxes|
    ensures boxes[n].producer == Away || boxes[n].consumer == Absent
  {
    EveryBoxOk(boxes, trace, n);
  }

  ghost predicate LastPublish(trace: seq<Step>, k: nat, n: nat) {
    k < n <= |trace| && trace[k] == Publish && forall i :: k < i < n ==> trace[i] != Publish
  }

  lemma {:induction false} LastIsLastPublished(boxes: seq<Box>, trace: seq<Step>, k: nat, n: nat)
    requires IsRun(boxes, trace) && LastPublish(trace, k, n)
    ensures boxes[k].count <= MAX_STEPS
    ensures boxes[n].last == Some(Letter(boxes[k].gen, boxes[k].steps[..boxes[k].count]))
    decreases n - k
  {
    EveryBoxOk(boxes, trace, k);
    assert Stepped(boxes[n - 1], trace[n - 1]) == Some(boxes[n]);
    if k + 1 < n { LastIsLastPublished(boxes, trace, k, n - 1); }
  }

  lemma {:induction false} NothingPublishedYet(boxes: seq<Box>, trace: seq<Step>, n: nat)
    requires IsRun(boxes, trace) && n < |boxes| && forall i :: 0 <= i < n ==> trace[i] != Publish
    ensures boxes[n].last == None
  {
    if n != 0 {
      NothingPublishedYet(boxes, trace, n - 1);
      assert Stepped(boxes[n - 1], trace[n - 1]) == Some(boxes[n]);
    }
  }

  /** The take going on before step n began at j. */
  ghost predicate OpenedAt(trace: seq<Step>, j: nat, n: nat) {
    j < n <= |trace| && trace[j].BeginTake? && forall i :: j < i < n ==> !trace[i].BeginTake?
  }

  /** A take keeps the tag it was begun with. */
  lemma {:induction false} TakeWasOpened(boxes: seq<Box>, trace: seq<Step>, n: nat) returns (j: nat)
    requires IsRun(boxes, trace) && n < |boxes| && boxes[n].consumer != Absent
    ensures OpenedAt(trace, j, n)
    ensures trace[j].wanted == if boxes[n].consumer.Checking? then boxes[n].consumer.wanted else boxes[n].consumer.tag
  {
    if n == 0 {
      assert false;
    } else {
      assert Stepped(boxes[n - 1], trace[n - 1]) == Some(boxes[n]);
      if boxes[n - 1].consumer == Absent { j := n - 1; } else { j := TakeWasOpened(boxes, trace, n - 1); }
    }
  }

  /** In every interleaving a successful take returns exactly the whole list as
      it stood when it was last committed, and that commit carried the tag the
      take asked for. */
  lemma TakeReturnsTheLastCommitted(boxes: seq<Box>, trace: seq<Step>, n: nat) returns (k: nat, j: nat)
    requires IsRun(boxes, trace) && n < |trace| && trace[n] == EndTake
    ensures LastPublish(trace, k, n) && boxes[k].count <= MAX_STEPS
    ensures OpenedAt(trace, j, n) && boxes[k].gen == trace[j].wanted
    ensures boxes[n + 1].taken == Some(Letter(boxes[k].gen, boxes[k].steps[..boxes[k].count]))
  {
    EveryBoxOk(boxes, trace, n);
    assert boxes[n].consumer.Copying? by { assert Stepped(boxes[n], trace[n]) == Some(boxes[n + 1]); }
    j := TakeWasOpened(boxes, trace, n);
    assert Stepped(boxes[n], trace[n]) == Some(boxes[n + 1]);
    if forall i :: 0 <= i < n ==> trace[i] != Publish { NothingPublishedYet(boxes, trace, n); }
    k := LatestPublish(trace, n);
    LastIsLastPublished(boxes, trace, k, n);
  }

  lemma {:induction false} LatestPublish(trace: seq<Step>, n: nat) returns (k: nat)
    requires n <= |trace| && exists i :: 0 <= i < n && trace[i] == Publish
    ensures LastPublish(trace, k, n)
  {
    if trace[n - 1] == Publish { k := n - 1; } else { k := LatestPublish(trace, n - 1); }
  }

  /** A take with another tag leaves the newer list waiting, untouched. */
  lemma MismatchLeavesTheList(boxes: seq<Box>, trace: seq<Step>, n: nat) returns (j: nat)
    requires IsRun(boxes, trace) && n < |trace| && trace[n] == TagDiffers
    ensures var b, r := boxes[n], boxes[n + 1];
            && r.flag == Ready && r.taken == None && r.last == b.last
            && r.steps == b.steps && r.count == b.count && r.gen == b.gen
            && r.count <= MAX_STEPS && r.last == Some(Letter(r.gen, r.steps[..r.count]))
    ensures OpenedAt(trace, j, n) && boxes[n + 1].gen != trace[j].wanted
  {
    EveryBoxOk(boxes, trace, n);
    assert Stepped(boxes[n], trace[n]) == Some(boxes[n + 1]);
    j := TakeWasOpened(boxes, trace, n);
    EveryBoxOk(boxes, trace, n + 1);
  }

  /** The producer is only ever kept out by a copy in progress. */
  lemma BusyOnlyWhileCopying(boxes: seq<Box>, trace: seq<Step>, n: nat)
    requires IsRun(boxes, trace) && n < |trace| && trace[n] == BeginWrite
    ensures boxes[n + 1].producer == Filling || boxes[n].consumer != Absent
  {
    EveryBoxOk(boxes, trace, n);
    assert Stepped(boxes[n], trace[n]) == Some(boxes[n + 1]);
  }
}
