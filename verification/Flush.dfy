/** Batched flushing: how a batch's replies are judged, and what happens to marks and stored
    versions while batches are written and answered in any order. */
module Flush {
  import opened Keyspace

  // ------------------------------------------------------------------------------------
  // Judging the replies of a batch
  // ------------------------------------------------------------------------------------

  /** The reply of one script: an error, a value that is no integer, or an integer. */
  datatype ScriptReply = Error | NotInt | Int(n: int)

  /** The entity's module script and profile script, where it has them. */
  datatype Slot = Slot(id: nat, mods: Option<ScriptReply>, hash: Option<ScriptReply>)

  predicate Good(r: Option<ScriptReply>) {
    r.None? || r.value == Int(1)
  }

  predicate Fenced(r: Option<ScriptReply>) {
    r == Some(Int(0))
  }

  function Unwritten(slots: seq<Slot>): seq<nat> {
    if slots == [] then []
    else
      var s, before := slots[|slots| - 1], Unwritten(slots[..|slots| - 1]);
      if Good(s.mods) && Good(s.hash) then before else before + [s.id]
  }

  /** Goes through the replies; only an explicit 1 counts as written. */
  method Judge(slots: seq<Slot>) returns (failed: seq<nat>, fenced: bool)
    ensures failed == Unwritten(slots)
    ensures fenced <==> exists i :: 0 <= i < |slots| && (slots[i].mods == Some(Int(0)) || slots[i].hash == Some(Int(0)))
  {
    failed, fenced := [], false;
    for i := 0 to |slots|
      invariant failed == Unwritten(slots[..i])
      invariant fenced <==> exists k :: 0 <= k < i && (Fenced(slots[k].mods) || Fenced(slots[k].hash))
    {
      var s := slots[i];
      var cmds := [s.mods, s.hash];
      var ok, zero := true, false;
      for j := 0 to 2
        invariant ok <==> (j > 0 ==> Good(s.mods)) && (j > 1 ==> Good(s.hash))
        invariant zero <==> (j > 0 && Fenced(s.mods)) || (j > 1 && Fenced(s.hash))
      {
        if cmds[j].None? { continue; }
        match cmds[j].value
        case Error => ok := false;
        case NotInt => ok := false;
        case Int(n) =>
          if n == 0 { ok, zero := false, true; } else if n != 1 { ok := false; }
      }
      assert slots[..i + 1][..i] == slots[..i];
      if zero { fenced := true; }
      if !ok { failed := failed + [s.id]; }
    }
    assert slots[..|slots|] == slots;
  }

  /** An entity is reported failed exactly when some script of it did not answer 1. */
  lemma {:induction false} FailedExactly(slots: seq<Slot>, id: nat)
    ensures id in Unwritten(slots) <==>
      exists i :: 0 <= i < |slots| && slots[i].id == id
        && (slots[i].mods !in {None, Some(Int(1))} || slots[i].hash !in {None, Some(Int(1))})
  {
    if slots != [] {
      var n := |slots| - 1;
      FailedExactly(slots[..n], id);
      assert Good(slots[n].mods) <==> slots[n].mods in {None, Some(Int(1))};
      assert Good(slots[n].hash) <==> slots[n].hash in {None, Some(Int(1))};
      if id in Unwritten(slots[..n]) {
        var i :| 0 <= i < n && slots[..n][i].id == id
          && (slots[..n][i].mods !in {None, Some(Int(1))} || slots[..n][i].hash !in {None, Some(Int(1))});
        assert slots[i].id == id;
      }
    }
  }

  // ------------------------------------------------------------------------------------
  // Marks, batches and stored versions
  // ------------------------------------------------------------------------------------

  /** A module of a resident entity. */
  type Cell = (nat, Module)

  /** A submitted batch carries a version of each of its cells; once written it knows which
      entities were reported written. */
  datatype Batch = Batch(carries: map<Cell, nat>, answer: Option<set<nat>>)

  datatype State = State(
    version: map<Cell, nat>,    // how often the copy in memory was changed and marked
    stored: map<Cell, nat>,     // the version in the store
    confirmed: map<Cell, nat>,  // the highest version reported as written
    dirty: set<Cell>,
    batches: map<nat, Batch>)   // submitted and not yet answered

  datatype Step =
    | Change(cell: Cell)
    | Submit(id: nat, cells: set<Cell>)             // taken from the dirty set, accepted by the channel
    | Refused(cells: set<Cell>)                     // taken, refused by the channel, marked again
    | Write(id: nat, landed: set<Cell>, ok: set<nat>) // which cells were stored, which entities answered 1
    | Answer(id: nat)

  function At(m: map<Cell, nat>, c: Cell): nat {
    if c in m then m[c] else 0
  }

  predicate Enabled(s: State, step: Step) {
    match step
    case Change(_) => true
    case Submit(id, cells) => id !in s.batches && cells <= s.dirty
    case Refused(cells) => cells <= s.dirty
    case Write(id, landed, ok) =>
      && id in s.batches && s.batches[id].answer.None? && landed <= s.batches[id].carries.Keys
      && (forall c <- s.batches[id].carries :: c.0 in ok ==> c in landed)
    case Answer(id) => id in s.batches && s.batches[id].answer.Some?
  }

  function Snapshot(version: map<Cell, nat>, cells: set<Cell>): map<Cell, nat> {
    map c | c in cells :: At(version, c)
  }

  function Landed(stored: map<Cell, nat>, carries: map<Cell, nat>, landed: set<Cell>): map<Cell, nat>
    requires landed <= carries.Keys
  {
    map c | c in stored.Keys + landed :: if c in landed then carries[c] else stored[c]
  }

  function Raised(confirmed: map<Cell, nat>, carries: map<Cell, nat>, ok: set<nat>): map<Cell, nat> {
    map c | c in confirmed.Keys + carries.Keys ::
      if c in carries && c.0 in ok && carries[c] > At(confirmed, c) then carries[c] else At(confirmed, c)
  }

  function Failed(carries: map<Cell, nat>, ok: set<nat>): set<Cell> {
    set c <- carries.Keys | c.0 !in ok
  }

  function Apply(s: State, step: Step): State
    requires Enabled(s, step)
  {
    match step
    case Change(c) => s.(version := s.version[c := At(s.version, c) + 1], dirty := s.dirty + {c})
    case Submit(id, cells) =>
      s.(dirty := s.dirty - cells, batches := s.batches[id := Batch(Snapshot(s.version, cells), None)])
    case Refused(cells) => s.(dirty := (s.dirty - cells) + cells)
    case Write(id, landed, ok) =>
      s.(stored := Landed(s.stored, s.batches[id].carries, landed),
         batches := s.batches[id := s.batches[id].(answer := Some(ok))])
    case Answer(id) =>
      var b := s.batches[id];
      s.(confirmed := Raised(s.confirmed, b.carries, b.answer.value),
         dirty := s.dirty + Failed(b.carries, b.answer.value),
         batches := s.batches - {id})
  }

  predicate Init(s: State) {
    s.version == map[] && s.stored == map[] && s.confirmed == map[] && s.dirty == {} && s.batches == map[]
  }

  predicate IsRun(s: State, steps: seq<Step>)
    decreases |steps|
  {
    steps == [] || (Enabled(s, steps[0]) && IsRun(Apply(s, steps[0]), steps[1..]))
  }

  function Final(s: State, steps: seq<Step>): State
    requires IsRun(s, steps)
    decreases |steps|
  {
    if steps == [] then s else Final(Apply(s, steps[0]), steps[1..])
  }

  /** Batch id holds version v of the cell and is not answered yet. */
  predicate Carries(s: State, id: nat, c: Cell, v: nat) {
    id in s.batches && c in s.batches[id].carries && s.batches[id].carries[c] == v
  }

  ghost predicate Carried(s: State, c: Cell) {
    exists id: nat :: Carries(s, id, c, At(s.version, c))
  }

  /** A change that is not confirmed is marked or on its way. */
  ghost predicate Remembered(s: State, c: Cell) {
    c in s.dirty || At(s.confirmed, c) == At(s.version, c) || Carried(s, c)
  }

  predicate NoneFromTheFuture(s: State) {
    && (forall c <- s.confirmed :: s.confirmed[c] <= At(s.version, c))
    && (forall id <- s.batches :: forall c <- s.batches[id].carries :: s.batches[id].carries[c] <= At(s.version, c))
  }

  ghost predicate NothingForgotten(s: State) {
    NoneFromTheFuture(s) && forall c: Cell :: Remembered(s, c)
  }

  lemma StepKeepsPast(s: State, step: Step)
    requires NoneFromTheFuture(s) && Enabled(s, step)
    ensures NoneFromTheFuture(Apply(s, step))
  {
  }

  lemma StepRemembers(s: State, step: Step, c: Cell)
    requires NothingForgotten(s) && Enabled(s, step)
    ensures Remembered(Apply(s, step), c)
  {
    var t := Apply(s, step);
    assert Remembered(s, c);
    if step.Submit? && c in step.cells {
      assert Carries(t, step.id, c, At(t.version, c));
    } else if c !in s.dirty && At(s.confirmed, c) != At(s.version, c) {
      var id: nat :| Carries(s, id, c, At(s.version, c));
      if !(step.Answer? && step.id == id) && !(step.Change? && step.cell == c) {
        assert Carries(t, id, c, At(t.version, c));
      }
    }
  }

  lemma {:induction false} RunForgetsNothing(s: State, steps: seq<Step>)
    requires NothingForgotten(s) && IsRun(s, steps)
    ensures NothingForgotten(Final(s, steps))
    decreases |steps|
  {
    if steps != [] {
      StepKeepsPast(s, steps[0]);
      forall c: Cell ensures Remembered(Apply(s, steps[0]), c) { StepRemembers(s, steps[0], c); }
      RunForgetsNothing(Apply(s, steps[0]), steps[1..]);
    }
  }

  /** In every run of changes, flushes, refusals, writes in any order, partial failures and
      answers, each cell changed since its last confirmed write is marked or in an unanswered
      batch. */
  lemma EveryChangeIsRemembered(s: State, steps: seq<Step>, c: Cell)
    requires Init(s) && IsRun(s, steps)
    ensures Remembered(Final(s, steps), c)
  {
    forall d: Cell ensures Remembered(s, d) { assert At(s.confirmed, d) == At(s.version, d); }
    RunForgetsNothing(s, steps);
  }

  // ------------------------------------------------------------------------------------
  // When a clean cell is stored at its latest version
  // ------------------------------------------------------------------------------------

  predicate InFlight(s: State, c: Cell) {
    exists id <- s.batches :: c in s.batches[id].carries
  }

  /** The batch still has to write the cell. */
  predicate Waits(s: State, id: nat, c: Cell) {
    id in s.batches && c in s.batches[id].carries && s.batches[id].answer.None?
  }

  /** A write of the cell was reported as failed and will mark it again. */
  predicate Fails(s: State, id: nat, c: Cell) {
    && id in s.batches && c in s.batches[id].carries
    && s.batches[id].answer.Some? && c.0 !in s.batches[id].answer.value
  }

  /** The cell is clean, will stay clean, and an older version of it is stored for good or still
      has to be written. */
  ghost predicate Stale(s: State, c: Cell) {
    && c !in s.dirty && (forall id: nat :: !Fails(s, id, c))
    && if exists id: nat :: Waits(s, id, c)
       then exists id: nat :: Waits(s, id, c) && s.batches[id].carries[c] != At(s.version, c)
       else At(s.stored, c) != At(s.version, c)
  }

  /** A batch waits to write another version of the cell. */
  ghost predicate Contended(s: State, c: Cell) {
    exists id: nat :: Waits(s, id, c) && s.batches[id].carries[c] != At(s.version, c)
  }

  /** A flush that contends with no batch still to be written. */
  ghost predicate Alone(s: State, step: Step) {
    step.Submit? ==> forall c <- step.cells :: !Contended(s, c)
  }

  ghost predicate AloneRun(s: State, steps: seq<Step>)
    requires IsRun(s, steps)
    decreases |steps|
  {
    steps == [] || (Alone(s, steps[0]) && AloneRun(Apply(s, steps[0]), steps[1..]))
  }

  lemma WriteKeepsFresh(s: State, step: Step, c: Cell)
    requires !Stale(s, c) && Enabled(s, step) && step.Write?
    ensures !Stale(Apply(s, step), c)
  {
    var t, id := Apply(s, step), step.id;
    if c in s.batches[id].carries && c.0 !in step.ok {
      assert Fails(t, id, c);
    } else if exists j: nat :: Fails(s, j, c) {
      var j: nat :| Fails(s, j, c);
      assert Fails(t, j, c);
    } else if c !in s.dirty {
      assert forall j: nat :: Waits(t, j, c) ==> Waits(s, j, c);
      if Waits(s, id, c) { assert At(t.stored, c) == s.batches[id].carries[c]; }
      forall j: nat | Waits(s, j, c) && j != id ensures Waits(t, j, c) { }
    }
  }

  lemma AnswerKeepsFresh(s: State, step: Step, c: Cell)
    requires !Stale(s, c) && Enabled(s, step) && step.Answer?
    ensures !Stale(Apply(s, step), c)
  {
    var t, id := Apply(s, step), step.id;
    if exists j: nat :: Fails(s, j, c) {
      var j: nat :| Fails(s, j, c);
      if j != id { assert Fails(t, j, c); }
    } else if c !in s.dirty {
      assert forall j: nat :: Waits(t, j, c) <==> Waits(s, j, c);
    }
  }

  lemma SubmitKeepsFresh(s: State, step: Step, c: Cell)
    requires !Stale(s, c) && Enabled(s, step) && step.Submit? && Alone(s, step)
    ensures !Stale(Apply(s, step), c)
  {
    var t, id := Apply(s, step), step.id;
    forall j: nat | j != id ensures Waits(t, j, c) == Waits(s, j, c) && Fails(t, j, c) == Fails(s, j, c) { }
    if c in step.cells {
      assert Waits(t, id, c) && !Contended(s, c);
      if exists j: nat :: Fails(s, j, c) {
        var j: nat :| Fails(s, j, c);
        assert Fails(t, j, c);
      }
    } else if c !in s.dirty {
      assert !Waits(t, id, c) && !Fails(t, id, c);
    }
  }

  lemma StepKeepsFresh(s: State, step: Step, c: Cell)
    requires !Stale(s, c) && Enabled(s, step) && Alone(s, step)
    ensures !Stale(Apply(s, step), c)
  {
    match step {
      case Write(_, _, _) => WriteKeepsFresh(s, step, c);
      case Answer(_) => AnswerKeepsFresh(s, step, c);
      case Submit(_, _) => SubmitKeepsFresh(s, step, c);
      case Change(d) => ChangeKeepsFresh(s, d, c);
      case Refused(cells) => assert (s.dirty - cells) + cells == s.dirty;
    }
  }

  lemma ChangeKeepsFresh(s: State, d: Cell, c: Cell)
    requires !Stale(s, c)
    ensures !Stale(Apply(s, Change(d)), c)
  {
    var t := Apply(s, Change(d));
    assert forall j: nat :: Waits(t, j, c) == Waits(s, j, c) && Fails(t, j, c) == Fails(s, j, c);
  }

  lemma {:induction false} AloneRunsStayFresh(s: State, steps: seq<Step>, c: Cell)
    requires !Stale(s, c) && IsRun(s, steps) && AloneRun(s, steps)
    ensures !Stale(Final(s, steps), c)
    decreases |steps|
  {
    if steps != [] {
      StepKeepsFresh(s, steps[0], c);
      AloneRunsStayFresh(Apply(s, steps[0]), steps[1..], c);
    }
  }

  lemma SettledAndFreshIsStored(s: State, c: Cell)
    requires c !in s.dirty && !InFlight(s, c)
    ensures Stale(s, c) <==> At(s.stored, c) != At(s.version, c)
  {
    assert forall id: nat :: !Waits(s, id, c) && !Fails(s, id, c);
  }

  /** Over runs that never submit a cell while another version of it waits to be written, a
      cell that is neither dirty nor in flight is stored at its latest version. */
  lemma CleanMeansStored(s: State, steps: seq<Step>, c: Cell)
    requires Init(s) && IsRun(s, steps) && AloneRun(s, steps)
    requires c !in Final(s, steps).dirty && !InFlight(Final(s, steps), c)
    ensures At(Final(s, steps).stored, c) == At(Final(s, steps).version, c)
  {
    SettledAndFreshIsStored(s, c);
    AloneRunsStayFresh(s, steps, c);
    SettledAndFreshIsStored(Final(s, steps), c);
  }

  /** Submitting a cell makes it stale exactly when another version waits to be written and no
      failure is pending that will mark it again. */
  lemma SubmitIsSafeExactly(s: State, id: nat, cells: set<Cell>, c: Cell)
    requires Enabled(s, Submit(id, cells)) && c in cells
    ensures Stale(Apply(s, Submit(id, cells)), c) <==> Contended(s, c) && forall j: nat :: !Fails(s, j, c)
  {
    var t := Apply(s, Submit(id, cells));
    forall j: nat | j != id ensures Waits(t, j, c) == Waits(s, j, c) && Fails(t, j, c) == Fails(s, j, c) { }
    assert Waits(t, id, c) && !Fails(t, id, c) && !Waits(s, id, c) && !Fails(s, id, c);
    if Contended(s, c) {
      var j: nat :| Waits(s, j, c) && s.batches[j].carries[c] != At(s.version, c);
      assert Waits(t, j, c) && t.batches[j].carries[c] != At(t.version, c);
    }
  }

  // ------------------------------------------------------------------------------------
  // A stale cell can be lost
  // ------------------------------------------------------------------------------------

  /** Only writes and answers of the batches under way. */
  ghost predicate Finishing(steps: seq<Step>) {
    forall i :: 0 <= i < |steps| ==> steps[i].Write? || steps[i].Answer?
  }

  /** Finishing this way leaves the cell clean, settled and stored at an older version. */
  ghost predicate Loses(s: State, steps: seq<Step>, c: Cell) {
    && Finishing(steps) && IsRun(s, steps)
    && c !in Final(s, steps).dirty && !InFlight(Final(s, steps), c)
    && At(Final(s, steps).stored, c) != At(Final(s, steps).version, c)
  }

  function Waiting(s: State, c: Cell): set<nat> {
    set id <- s.batches | c in s.batches[id].carries && s.batches[id].answer.None?
  }

  function Carrying(s: State, c: Cell): set<nat> {
    set id <- s.batches | c in s.batches[id].carries
  }

  /** Everything in the batch lands and is reported as written. */
  function WriteAll(s: State, id: nat): Step
    requires id in s.batches
  {
    Write(id, s.batches[id].carries.Keys, set c <- s.batches[id].carries.Keys :: c.0)
  }

  /** Which batch to write next so that an older version comes last. */
  lemma WriteStaysStale(s: State, id: nat, c: Cell)
    requires Stale(s, c) && Waits(s, id, c)
    requires (exists j: nat :: j != id && Waits(s, j, c)) ==>
      exists j: nat :: j != id && Waits(s, j, c) && s.batches[j].carries[c] != At(s.version, c)
    requires (forall j: nat :: j != id ==> !Waits(s, j, c)) ==> s.batches[id].carries[c] != At(s.version, c)
    ensures Enabled(s, WriteAll(s, id)) && Stale(Apply(s, WriteAll(s, id)), c)
    ensures Waiting(Apply(s, WriteAll(s, id)), c) == Waiting(s, c) - {id}
    ensures Carrying(Apply(s, WriteAll(s, id)), c) == Carrying(s, c)
  {
    var t := Apply(s, WriteAll(s, id));
    forall j: nat ensures Waits(t, j, c) == (Waits(s, j, c) && j != id) && !Fails(t, j, c) {
      assert !Fails(s, j, c);
    }
    if exists j: nat :: j != id && Waits(s, j, c) {
      var j: nat :| j != id && Waits(s, j, c) && s.batches[j].carries[c] != At(s.version, c);
      assert Waits(t, j, c) && t.batches[j].carries[c] != At(t.version, c);
    }
  }

  lemma AnswerStaysStale(s: State, id: nat, c: Cell)
    requires Stale(s, c) && id in Carrying(s, c) && Waiting(s, c) == {}
    ensures Enabled(s, Answer(id)) && Stale(Apply(s, Answer(id)), c)
    ensures Waiting(Apply(s, Answer(id)), c) == {} && Carrying(Apply(s, Answer(id)), c) == Carrying(s, c) - {id}
  {
    assert !Fails(s, id, c) && id !in Waiting(s, c);
    var t := Apply(s, Answer(id));
    forall j: nat ensures !Waits(t, j, c) && !Fails(t, j, c) {
      assert j !in Waiting(s, c) && !Fails(s, j, c);
    }
    assert forall j: nat :: Waits(s, j, c) ==> j in Waiting(s, c);
  }

  lemma {:induction false} StaleCanBeLost(s: State, c: Cell) returns (steps: seq<Step>)
    requires Stale(s, c)
    ensures Loses(s, steps, c)
    decreases |Waiting(s, c)| + |Carrying(s, c)|
  {
    if Waiting(s, c) != {} {
      var id := NextToWrite(s, c);
      WriteStaysStale(s, id, c);
      steps := StaleCanBeLost(Apply(s, WriteAll(s, id)), c);
      LosesLater(s, WriteAll(s, id), steps, c);
      steps := [WriteAll(s, id)] + steps;
    } else if Carrying(s, c) != {} {
      var id :| id in Carrying(s, c);
      AnswerStaysStale(s, id, c);
      steps := StaleCanBeLost(Apply(s, Answer(id)), c);
      LosesLater(s, Answer(id), steps, c);
      steps := [Answer(id)] + steps;
    } else {
      steps := [];
      assert forall id <- s.batches :: id !in Carrying(s, c);
      SettledAndFreshIsStored(s, c);
    }
  }

  /** Any batch but one of an older version, which goes last. */
  lemma NextToWrite(s: State, c: Cell) returns (id: nat)
    requires Stale(s, c) && Waiting(s, c) != {}
    ensures Waits(s, id, c)
    ensures (exists j: nat :: j != id && Waits(s, j, c)) ==>
      exists j: nat :: j != id && Waits(s, j, c) && s.batches[j].carries[c] != At(s.version, c)
    ensures (forall j: nat :: j != id ==> !Waits(s, j, c)) ==> s.batches[id].carries[c] != At(s.version, c)
  {
    var some :| some in Waiting(s, c);
    assert Waits(s, some, c);
    var last: nat :| Waits(s, last, c) && s.batches[last].carries[c] != At(s.version, c);
    if j: nat :| Waits(s, j, c) && j != last {
      id := j;
    } else {
      id := last;
    }
  }

  lemma LosesLater(s: State, step: Step, rest: seq<Step>, c: Cell)
    requires Enabled(s, step) && (step.Write? || step.Answer?) && Loses(Apply(s, step), rest, c)
    ensures Loses(s, [step] + rest, c)
  {
    Cons(s, step, rest);
    var steps := [step] + rest;
    forall i | 0 <= i < |steps| ensures steps[i].Write? || steps[i].Answer? {
      if i > 0 { assert steps[i] == rest[i - 1]; }
    }
  }

  lemma {:induction false} FinishingKeepsFresh(s: State, steps: seq<Step>, c: Cell)
    requires !Stale(s, c) && Finishing(steps) && IsRun(s, steps)
    ensures !Stale(Final(s, steps), c)
    decreases |steps|
  {
    if steps != [] {
      StepKeepsFresh(s, steps[0], c);
      assert forall i :: 0 <= i < |steps[1..]| ==> steps[1..][i] == steps[i + 1];
      FinishingKeepsFresh(Apply(s, steps[0]), steps[1..], c);
    }
  }

  /** From any state, some order of writes and answers of the batches under way loses the
      latest version of a cell exactly when the cell is stale. */
  lemma LostExactlyWhenStale(s: State, c: Cell)
    ensures (exists steps :: Loses(s, steps, c)) <==> Stale(s, c)
  {
    if Stale(s, c) {
      var steps := StaleCanBeLost(s, c);
    }
    if steps :| Loses(s, steps, c) && !Stale(s, c) {
      FinishingKeepsFresh(s, steps, c);
      SettledAndFreshIsStored(Final(s, steps), c);
    }
  }

  lemma Cons(s: State, step: Step, rest: seq<Step>)
    requires Enabled(s, step) && IsRun(Apply(s, step), rest)
    ensures IsRun(s, [step] + rest) && Final(s, [step] + rest) == Final(Apply(s, step), rest)
  {
    assert ([step] + rest)[1..] == rest;
  }

  /** Both versions of the cell submitted, the older batch first. */
  function BothSubmitted(c: Cell): State {
    State(map[c := 2], map[], map[], {}, map[0 := Batch(map[c := 1], None), 1 := Batch(map[c := 2], None)])
  }

  lemma BothCanBeSubmitted(c: Cell)
    ensures var s0 := State(map[], map[], map[], {}, map[]);
      var s1 := State(map[c := 1], map[], map[], {c}, map[]);
      var s2 := State(map[c := 1], map[], map[], {}, map[0 := Batch(map[c := 1], None)]);
      var s3 := State(map[c := 2], map[], map[], {c}, map[0 := Batch(map[c := 1], None)]);
      && Apply(s0, Change(c)) == s1
      && Enabled(s1, Submit(0, {c})) && Apply(s1, Submit(0, {c})) == s2
      && Apply(s2, Change(c)) == s3
      && Enabled(s3, Submit(1, {c})) && Apply(s3, Submit(1, {c})) == BothSubmitted(c)
  {
    assert {} + {c} == {c} && {c} - {c} == {};
    assert Snapshot(map[c := 1], {c}) == map[c := 1] && Snapshot(map[c := 2], {c}) == map[c := 2];
    assert map[c := 1][c := 2] == map[c := 2];
    assert map[0 := Batch(map[c := 1], None)][1 := Batch(map[c := 2], None)] == BothSubmitted(c).batches;
  }

  /** Both written, the older one last. */
  function BothWritten(c: Cell): State {
    State(map[c := 2], map[c := 1], map[], {},
          map[0 := Batch(map[c := 1], Some({c.0})), 1 := Batch(map[c := 2], Some({c.0}))])
  }

  lemma NewestIsOverwritten(c: Cell)
    ensures var s4 := BothSubmitted(c);
      var s5 := State(map[c := 2], map[c := 2], map[], {},
                      map[0 := Batch(map[c := 1], None), 1 := Batch(map[c := 2], Some({c.0}))]);
      && Enabled(s4, Write(1, {c}, {c.0})) && Apply(s4, Write(1, {c}, {c.0})) == s5
      && Enabled(s5, Write(0, {c}, {c.0})) && Apply(s5, Write(0, {c}, {c.0})) == BothWritten(c)
  {
  }

  lemma BothAreAnswered(c: Cell)
    ensures var s6 := BothWritten(c);
      var s7 := State(map[c := 2], map[c := 1], map[c := 1], {}, map[1 := Batch(map[c := 2], Some({c.0}))]);
      && Enabled(s6, Answer(0)) && Apply(s6, Answer(0)) == s7
      && Enabled(s7, Answer(1)) && Apply(s7, Answer(1)) == State(map[c := 2], map[c := 1], map[c := 2], {}, map[])
  {
  }

  /** Two batches of the same cell written in the other order leave the older version stored
      while the cell is clean and its latest version confirmed. */
  lemma ReorderedBatchesLoseAVersion(c: Cell) returns (steps: seq<Step>)
    ensures var s := State(map[], map[], map[], {}, map[]);
      IsRun(s, steps) && Final(s, steps) == State(map[c := 2], map[c := 1], map[c := 2], {}, map[])
  {
    BothCanBeSubmitted(c);
    NewestIsOverwritten(c);
    BothAreAnswered(c);
    var s0 := State(map[], map[], map[], {}, map[]);
    var s1 := Apply(s0, Change(c));
    var s2 := Apply(s1, Submit(0, {c}));
    var s3 := Apply(s2, Change(c));
    var s4 := Apply(s3, Submit(1, {c}));
    var s5 := Apply(s4, Write(1, {c}, {c.0}));
    var s6 := Apply(s5, Write(0, {c}, {c.0}));
    Cons(Apply(s6, Answer(0)), Answer(1), []);
    Cons(s6, Answer(0), [Answer(1)] + []);
    steps := [Answer(0)] + ([Answer(1)] + []);
    Cons(s5, Write(0, {c}, {c.0}), steps);
    steps := [Write(0, {c}, {c.0})] + steps;
    Cons(s4, Write(1, {c}, {c.0}), steps);
    steps := [Write(1, {c}, {c.0})] + steps;
    Cons(s3, Submit(1, {c}), steps);
    steps := [Submit(1, {c})] + steps;
    Cons(s2, Change(c), steps);
    steps := [Change(c)] + steps;
    Cons(s1, Submit(0, {c}), steps);
    steps := [Submit(0, {c})] + steps;
    Cons(s0, Change(c), steps);
    steps := [Change(c)] + steps;
  }
}
