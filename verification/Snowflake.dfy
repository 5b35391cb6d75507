/** Identifiers: 41 bits of milliseconds, 10 bits of worker, 12 bits of sequence. */
module Snowflake {
  const EPOCH: int := 1_704_067_200_000
  const SEQ_SPAN: int := 4096
  const WORKER_SPAN: int := 1024
  const STAMP_SPAN: int := 0x200_0000_0000
  const NODE_SPAN: int := 128
  const TOLERANCE: int := 10

  // ------------------------------------------------------------------------------------
  // Layout
  // ------------------------------------------------------------------------------------

  function Pack(elapsed: int, worker: int, seq_: int): int {
    (elapsed * WORKER_SPAN + worker) * SEQ_SPAN + seq_
  }

  predicate Fits(elapsed: int, worker: int, seq_: int) {
    0 <= elapsed < STAMP_SPAN && 0 <= worker < WORKER_SPAN && 0 <= seq_ < SEQ_SPAN
  }

  /** The worker number of a service type and a node number. */
  function WorkerOf(svc: int, node: int): int {
    svc * NODE_SPAN + node
  }

  predicate ValidIdentity(svc: int, node: int) {
    1 <= svc <= 7 && 1 <= node <= 127
  }

  datatype Parts = Parts(timestamp: int, worker: int, seq_: int, svc: int, node: int)

  function Parse(id: int): Parts {
    var worker := id / SEQ_SPAN % WORKER_SPAN;
    Parts(id / SEQ_SPAN / WORKER_SPAN + EPOCH, worker, id % SEQ_SPAN, worker / NODE_SPAN, worker % NODE_SPAN)
  }

  /** Parsing recovers every part of an identifier, which is never zero, and with it the identity. */
  lemma ParseRecoversParts(elapsed: int, svc: int, node: int, seq_: int)
    requires ValidIdentity(svc, node) && Fits(elapsed, WorkerOf(svc, node), seq_)
    ensures var worker := WorkerOf(svc, node);
      && Parse(Pack(elapsed, worker, seq_)) == Parts(elapsed + EPOCH, worker, seq_, svc, node)
      && Pack(elapsed, worker, seq_) == elapsed * 0x40_0000 + svc * 0x8_0000 + node * 0x1000 + seq_
    ensures Pack(elapsed, WorkerOf(svc, node), seq_) > 0
  {
  }

  /** Identifiers of different identities never collide, whatever their clocks show. */
  lemma IdentitiesNeverCollide(e1: int, svc1: int, node1: int, q1: int, e2: int, svc2: int, node2: int, q2: int)
    requires ValidIdentity(svc1, node1) && ValidIdentity(svc2, node2) && (svc1, node1) != (svc2, node2)
    requires Fits(e1, WorkerOf(svc1, node1), q1) && Fits(e2, WorkerOf(svc2, node2), q2)
    ensures Pack(e1, WorkerOf(svc1, node1), q1) != Pack(e2, WorkerOf(svc2, node2), q2)
  {
    ParseRecoversParts(e1, svc1, node1, q1);
    ParseRecoversParts(e2, svc2, node2, q2);
  }

  /** The shifts and masks of the program are this arithmetic. */
  lemma ShiftsPack(elapsed: bv64, worker: bv64, seq_: bv64)
    requires elapsed < 0x200_0000_0000 && worker < 1024 && seq_ < 4096
    ensures (elapsed << 22) | (worker << 12) | seq_ == (elapsed * 1024 + worker) * 4096 + seq_
    ensures var id := (elapsed << 22) | (worker << 12) | seq_;
      id & 4095 == seq_ && (id >> 12) & 1023 == worker && id >> 22 == elapsed
  {
  }

  // ------------------------------------------------------------------------------------
  // The generator
  // ------------------------------------------------------------------------------------

  /** Waiting: the clock readings so far did not let the call return. */
  datatype Outcome = Id(id: int) | Halted | ClockBackwards | BeforeEpoch | StampOverflow | Waiting

  ghost predicate Increasing(ids: seq<int>) {
    forall i, j :: 0 <= i < j < |ids| ==> ids[i] < ids[j]
  }

  class Generator {
    const worker: int
    var lastTS: int
    var sequence: int
    var halted: bool
    /** A call that is still waiting holds the lock. */
    var locked: bool
    ghost var issued: seq<int>

    ghost predicate Valid()
      reads this
    {
      && 0 <= worker < WORKER_SPAN && 0 <= sequence < SEQ_SPAN && Increasing(issued)
      && (issued != [] ==> issued[|issued| - 1] <= Pack(lastTS - EPOCH, worker, sequence))
    }

    constructor (worker: int)
      requires 0 <= worker < WORKER_SPAN
      ensures Valid() && this.worker == worker && lastTS == -1 && sequence == 0 && !halted && !locked && issued == []
    {
      this.worker, lastTS, sequence, halted, locked, issued := worker, -1, 0, false, false, [];
    }

    /** Records the moment and issues the identifier for it. */
    method Stamp(now: int) returns (out: Outcome)
      requires 0 <= worker < WORKER_SPAN && 0 <= sequence < SEQ_SPAN && Increasing(issued)
      requires issued != [] ==> issued[|issued| - 1] < Pack(now - EPOCH, worker, sequence)
      modifies this`lastTS, this`issued
      ensures Valid() && lastTS == now
      ensures out == if now < EPOCH then BeforeEpoch
        else if now - EPOCH >= STAMP_SPAN then StampOverflow else Id(Pack(now - EPOCH, worker, sequence))
      ensures issued == if out.Id? then old(issued) + [out.id] else old(issued)
    {
      lastTS := now;
      var elapsed := now - EPOCH;
      if elapsed < 0 { return BeforeEpoch; }
      if elapsed >= STAMP_SPAN { return StampOverflow; }
      var id := Pack(elapsed, worker, sequence);
      issued := issued + [id];
      return Id(id);
    }

    /** Advances the sequence number for a moment not before the last one. Some reading after
        the last moment lets a used-up millisecond pass. */
    method Step(first: int, clock: seq<int>) returns (out: Outcome)
      requires Valid() && !locked && first >= lastTS
      modifies this`lastTS, this`issued, this`sequence, this`locked
      ensures !out.Waiting? ==> Valid() && !locked && lastTS >= old(lastTS) && (lastTS == first || lastTS in clock)
      ensures out.Id? ==> Fits(lastTS - EPOCH, worker, sequence) && out.id == Pack(lastTS - EPOCH, worker, sequence)
      ensures issued == if out.Id? then old(issued) + [out.id] else old(issued)
      ensures out.Id? ==> sequence == if lastTS == old(lastTS) then old(sequence) + 1 else 0
      ensures out.BeforeEpoch? ==> lastTS < EPOCH
      ensures out.StampOverflow? ==> lastTS - EPOCH >= STAMP_SPAN
      ensures !out.Halted? && !out.ClockBackwards?
      ensures out.Waiting? ==> first == lastTS == old(lastTS) && forall i :: 0 <= i < |clock| ==> clock[i] <= lastTS
    {
      var now := first;
      if now == lastTS {
        sequence := (sequence + 1) % SEQ_SPAN;
        if sequence == 0 {
          var rest, caught;
          now, rest, caught := WaitFor(now, clock, lastTS + 1);
          if !caught { locked := true; return Waiting; }
        }
      } else {
        sequence := 0;
      }
      out := Stamp(now);
    }

    /** One call, reading the clock as often as it needs. */
    method Next(clock: seq<int>) returns (out: Outcome)
      requires Valid() && !locked && clock != []
      modifies this
      ensures !out.Waiting? ==> Valid() && !locked
      ensures out.Id? ==> lastTS in clock && lastTS >= old(lastTS)
      ensures out.Id? ==> Fits(lastTS - EPOCH, worker, sequence) && out.id == Pack(lastTS - EPOCH, worker, sequence)
      ensures issued == if out.Id? then old(issued) + [out.id] else old(issued)
      ensures out.Id? ==> sequence == if lastTS == old(lastTS) then old(sequence) + 1 else 0
      ensures out.BeforeEpoch? ==> lastTS < EPOCH
      ensures out.StampOverflow? ==> lastTS - EPOCH >= STAMP_SPAN
      ensures out.Halted? <==> old(halted) && clock[0] <= old(lastTS)
      ensures out.ClockBackwards? <==> !old(halted) && clock[0] < old(lastTS) - TOLERANCE
      ensures out.Halted? || out.ClockBackwards? ==> halted && lastTS == old(lastTS) && sequence == old(sequence)
      ensures !(out.Halted? || out.ClockBackwards?) ==> !halted
      ensures out.Waiting? ==> forall i :: 0 <= i < |clock| ==> clock[i] <= old(lastTS)
    {
      var now := clock[0];
      if halted {
        if now <= lastTS { return Halted; }
        halted := false;
      }
      if lastTS - now > TOLERANCE {
        halted := true;
        return ClockBackwards;
      }
      out := CatchUp(now, clock[1..]);
      if out.Waiting? { AllBut(clock, clock[1..], lastTS); }
    }

    /** Goes on with a reading that is at most a little behind, after waiting for the last moment
        to come back. */
    method CatchUp(first: int, clock: seq<int>) returns (out: Outcome)
      requires Valid() && !locked && lastTS - first <= TOLERANCE
      modifies this`lastTS, this`issued, this`sequence, this`locked
      ensures !out.Waiting? ==> Valid() && !locked && lastTS >= old(lastTS) && (lastTS == first || lastTS in clock)
      ensures out.Id? ==> Fits(lastTS - EPOCH, worker, sequence) && out.id == Pack(lastTS - EPOCH, worker, sequence)
      ensures out.Id? ==> sequence == if lastTS == old(lastTS) then old(sequence) + 1 else 0
      ensures out.BeforeEpoch? ==> lastTS < EPOCH
      ensures out.StampOverflow? ==> lastTS - EPOCH >= STAMP_SPAN
      ensures issued == if out.Id? then old(issued) + [out.id] else old(issued)
      ensures !out.Halted? && !out.ClockBackwards?
      ensures out.Waiting? ==> first <= lastTS == old(lastTS) && forall i :: 0 <= i < |clock| ==> clock[i] <= lastTS
    {
      var now, rest := first, clock;
      if now < lastTS {
        var caught;
        now, rest, caught := WaitFor(now, rest, lastTS);
        if !caught { locked := true; return Waiting; }
      }
      out := Step(now, rest);
      if out.Waiting? { AllRead(clock, rest, now, lastTS); }
    }
  }

  /** If what was read before the rest is within the bound, and the rest is, then all is. */
  lemma AllRead(later: seq<int>, rest: seq<int>, now: int, bound: int)
    requires |rest| <= |later| && rest == later[|later| - |rest|..] && now <= bound
    requires forall i :: 0 <= i < |later| - |rest| ==> later[i] <= now
    requires forall i :: 0 <= i < |rest| ==> rest[i] <= bound
    ensures forall i :: 0 <= i < |later| ==> later[i] <= bound
  {
    var m := |later| - |rest|;
    forall i | m <= i < |later| ensures later[i] <= bound { assert rest[i - m] == later[i]; }
  }

  lemma AllBut(clock: seq<int>, later: seq<int>, bound: int)
    requires clock != [] && later == clock[1..] && clock[0] <= bound
    requires forall i :: 0 <= i < |later| ==> later[i] <= bound
    ensures forall i :: 0 <= i < |clock| ==> clock[i] <= bound
  {
    forall i | 0 < i < |clock| ensures clock[i] <= bound { assert later[i - 1] == clock[i]; }
  }

  /** Reads the clock until it shows the target. */
  method WaitFor(first: int, clock: seq<int>, target: int) returns (now: int, rest: seq<int>, caught: bool)
    ensures caught ==> now >= target && (now == first || now in clock) && (first >= target ==> now == first)
    ensures caught ==> |rest| <= |clock| && rest == clock[|clock| - |rest|..]
    ensures caught ==> forall i :: 0 <= i < |clock| - |rest| ==> clock[i] < target || clock[i] == now
    ensures !caught ==> first < target && forall i :: 0 <= i < |clock| ==> clock[i] < target
  {
    now, rest, caught := first, clock, true;
    ghost var k := 0;
    while now < target
      invariant 0 <= k <= |clock| && rest == clock[k..]
      invariant now == first || now in clock
      invariant first >= target ==> now == first
      invariant forall i :: 0 <= i < k - 1 ==> clock[i] < target
      invariant k > 0 ==> now == clock[k - 1]
      invariant k > 0 ==> first < target
      invariant caught
      decreases |rest|
    {
      if rest == [] { caught := false; return; }
      now, rest := rest[0], rest[1..];
      k := k + 1;
    }
  }
}
