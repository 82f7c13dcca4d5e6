// What the worker pool does for one removeBatch call, counted over whole runs: how many
// removals are made for it, and what it is told.
module VacuumReplies {
  import opened Basics
  import opened VacuumPool

  // ---- Counting over a run ----

  // The step removes one path of call `i`.
  predicate RemovesFor(s: State, t: Step, i: nat)
  {
    t.WorkerRemoves? && t.w < |s.workers| && s.workers[t.w].work.Removing? && s.workers[t.w].work.cmd == i
  }

  // The step hands the command of call `i` to a worker.
  predicate TakesFor(s: State, t: Step, i: nat)
  {
    && t.WorkerTakes? && t.w < |s.workers| && s.workers[t.w].gen < |s.gens|
    && s.gens[s.workers[t.w].gen].queue != [] && s.gens[s.workers[t.w].gen].queue[0] == i
  }

  ghost function Removals(P: nat, s: State, run: seq<Step>, i: nat): nat
    requires Possible(P, s, run)
    decreases |run|
  {
    if run == [] then 0
    else (if RemovesFor(s, run[0], i) then 1 else 0) + Removals(P, Apply(P, s, run[0]), run[1..], i)
  }

  ghost function Takings(P: nat, s: State, run: seq<Step>, i: nat): nat
    requires Possible(P, s, run)
    decreases |run|
  {
    if run == [] then 0
    else (if TakesFor(s, run[0], i) then 1 else 0) + Takings(P, Apply(P, s, run[0]), run[1..], i)
  }

  // What the step settles for call `i`: the guards of removeBatch, its context, or the
  // reply of a worker.
  function Settles(s: State, t: Step, i: nat): seq<Reply>
  {
    if i >= |s.callers| then []
    else if t == BatchChecks(i) && s.jobs.None? then [NotStarted]
    else if t == BatchChecks(i) && s.callers[i].n == 0 then [NothingToDo]
    else if t == BatchOpens(i, false) then [NoRoot]
    else if t == BatchCancels(i) then [Cancelled]
    else if t.WorkerReplies? && t.w < |s.workers| && s.workers[t.w].work.Removing? && s.workers[t.w].work.cmd == i then [Answered]
    else []
  }

  ghost function Settled(P: nat, s: State, run: seq<Step>, i: nat): seq<Reply>
    requires Possible(P, s, run)
    decreases |run|
  {
    if run == [] then [] else Settles(s, run[0], i) + Settled(P, Apply(P, s, run[0]), run[1..], i)
  }

  // ---- What the state remembers of it ----

  predicate AtSomeWorker(s: State, i: nat) { At(s, i) && s.callers[i].pc.BatchAwait? && s.callers[i].pc.at.AtWorker? }

  // Removals made so far for call `i`.
  function Made(s: State, i: nat): int
  {
    if !At(s, i) then 0
    else if GotReply(s.callers[i].pc) then s.callers[i].n
    else if AtSomeWorker(s, i) && s.callers[i].pc.at.w < |s.workers| && s.workers[s.callers[i].pc.at.w].work.Removing?
    then s.callers[i].n - s.workers[s.callers[i].pc.at.w].work.left
    else 0
  }

  function Taken(s: State, i: nat): nat
  {
    if At(s, i) && (GotReply(s.callers[i].pc) || AtSomeWorker(s, i)) then 1 else 0
  }

  function VerdictOf(pc: Pc): seq<Reply>
  {
    if pc.BatchClose? || pc.BatchUnlock? || pc.BatchDone? then [pc.r]
    else if pc.BatchAwait? && pc.at.Replied? then [Answered]
    else []
  }

  // What call `i` has been told, or is going to return.
  function Verdict(s: State, i: nat): seq<Reply> { if At(s, i) then VerdictOf(s.callers[i].pc) else [] }

  // A worker never has more to remove than the command holds.
  ghost predicate LeftOk(s: State)
  {
    forall w :: 0 <= w < |s.workers| && s.workers[w].work.Removing? ==>
      At(s, s.workers[w].work.cmd) && s.workers[w].work.left <= s.callers[s.workers[w].work.cmd].n
  }

  // ---- Steps of a caller ----

  predicate WorkerStep(t: Step) { t.WorkerTakes? || t.WorkerRemoves? || t.WorkerReplies? || t.WorkerExits? }

  // A caller's step moves it, and at most adds an idle worker.
  lemma CallerStepShape(P: nat, s: State, t: Step)
    requires Enabled(P, s, t) && !t.Arrive? && !WorkerStep(t)
    ensures var s' := Apply(P, s, t);
      && At(s, t.i) && |s'.callers| == |s.callers|
      && s'.callers == s.callers[t.i := s.callers[t.i].(pc := s'.callers[t.i].pc)]
      && (s'.workers == s.workers || exists g :: s'.workers == s.workers + [Worker(g, Idle)])
  {
  }

  // The mover is at no worker, before or after, and gets no reply by moving.
  lemma MoverIsNotServed(P: nat, s: State, t: Step)
    requires Inv(P, s) && Enabled(P, s, t) && !t.Arrive? && !WorkerStep(t)
    ensures var s' := Apply(P, s, t);
      && At(s, t.i) && At(s', t.i) && !AtSomeWorker(s, t.i) && !AtSomeWorker(s', t.i)
      && (GotReply(s'.callers[t.i].pc) <==> GotReply(s.callers[t.i].pc))
  {
    assert CallerOk(P, s, t.i);
  }

  predicate BatchStep(t: Step) { MovesReader(t) || t.BatchSends? }

  lemma BatchMoverSettles(P: nat, s: State, t: Step)
    requires Inv(P, s) && Enabled(P, s, t) && BatchStep(t)
    ensures At(Apply(P, s, t), t.i) && VerdictOf(Apply(P, s, t).callers[t.i].pc) == VerdictOf(s.callers[t.i].pc) + Settles(s, t, t.i)
  {
    assert CallerOk(P, s, t.i);
  }

  lemma OtherMoverSettles(P: nat, s: State, t: Step)
    requires Enabled(P, s, t) && !t.Arrive? && !WorkerStep(t) && !BatchStep(t)
    ensures At(Apply(P, s, t), t.i) && VerdictOf(Apply(P, s, t).callers[t.i].pc) == VerdictOf(s.callers[t.i].pc) == []
  {
  }

  lemma MoverSettles(P: nat, s: State, t: Step)
    requires Inv(P, s) && Enabled(P, s, t) && !t.Arrive? && !WorkerStep(t)
    ensures At(s, t.i) && Verdict(Apply(P, s, t), t.i) == Verdict(s, t.i) + Settles(s, t, t.i)
  {
    if BatchStep(t) { BatchMoverSettles(P, s, t); } else { OtherMoverSettles(P, s, t); }
  }

  lemma CallerStepCounts(P: nat, s: State, t: Step, i: nat)
    requires Inv(P, s) && Enabled(P, s, t) && !t.Arrive? && !WorkerStep(t)
    ensures var s' := Apply(P, s, t);
      Made(s', i) == Made(s, i) && Taken(s', i) == Taken(s, i) && Verdict(s', i) == Verdict(s, i) + Settles(s, t, i)
  {
    CallerStepShape(P, s, t);
    if i == t.i {
      MoverIsNotServed(P, s, t);
      MoverSettles(P, s, t);
    } else if i < |s.callers| {
      assert CallerOk(P, s, i);
    }
  }

  lemma CallerStepKeepsLeft(P: nat, s: State, t: Step)
    requires LeftOk(s) && Enabled(P, s, t) && !t.Arrive? && !WorkerStep(t)
    ensures LeftOk(Apply(P, s, t))
  {
    CallerStepShape(P, s, t);
  }

  // ---- Steps of a worker ----

  lemma WorkerStepMakes(P: nat, s: State, t: Step, i: nat)
    requires Inv(P, s) && Enabled(P, s, t) && WorkerStep(t)
    ensures Made(Apply(P, s, t), i) == Made(s, i) + if RemovesFor(s, t, i) then 1 else 0
  {
    assert WorkerOk(s, t.w) && QueueOk(P, s, s.workers[t.w].gen);
    if i < |s.callers| { assert CallerOk(P, s, i); }
  }

  lemma WorkerStepTakes(P: nat, s: State, t: Step, i: nat)
    requires Inv(P, s) && Enabled(P, s, t) && WorkerStep(t)
    ensures Taken(Apply(P, s, t), i) == Taken(s, i) + if TakesFor(s, t, i) then 1 else 0
  {
    assert WorkerOk(s, t.w) && QueueOk(P, s, s.workers[t.w].gen);
    if i < |s.callers| { assert CallerOk(P, s, i); }
  }

  lemma ReplySettles(P: nat, s: State, t: Step, i: nat)
    requires Inv(P, s) && Enabled(P, s, t) && t.WorkerReplies?
    ensures Verdict(Apply(P, s, t), i) == Verdict(s, i) + Settles(s, t, i)
  {
    assert WorkerOk(s, t.w);
  }

  lemma WorkerStepSettles(P: nat, s: State, t: Step, i: nat)
    requires Inv(P, s) && Enabled(P, s, t) && WorkerStep(t)
    ensures Verdict(Apply(P, s, t), i) == Verdict(s, i) + Settles(s, t, i)
  {
    if t.WorkerReplies? {
      ReplySettles(P, s, t, i);
    } else if t.WorkerTakes? {
      assert QueueOk(P, s, s.workers[t.w].gen);
    }
  }

  lemma WorkerStepKeepsLeft(P: nat, s: State, t: Step)
    requires Inv(P, s) && LeftOk(s) && Enabled(P, s, t) && WorkerStep(t)
    ensures LeftOk(Apply(P, s, t))
  {
  }

  // ---- Every step ----

  lemma StepCounts(P: nat, s: State, t: Step, i: nat)
    requires Inv(P, s) && LeftOk(s) && Enabled(P, s, t)
    ensures var s' := Apply(P, s, t);
      && LeftOk(s')
      && Made(s', i) == Made(s, i) + (if RemovesFor(s, t, i) then 1 else 0)
      && Taken(s', i) == Taken(s, i) + (if TakesFor(s, t, i) then 1 else 0)
      && Verdict(s', i) == Verdict(s, i) + Settles(s, t, i)
  {
    if WorkerStep(t) {
      WorkerStepMakes(P, s, t, i);
      WorkerStepTakes(P, s, t, i);
      WorkerStepSettles(P, s, t, i);
      WorkerStepKeepsLeft(P, s, t);
    } else if t.Arrive? {
      ArrivalCounts(P, s, t, i);
    } else {
      CallerStepCounts(P, s, t, i);
      CallerStepKeepsLeft(P, s, t);
    }
  }

  lemma ArrivalCounts(P: nat, s: State, t: Step, i: nat)
    requires Inv(P, s) && LeftOk(s) && Enabled(P, s, t) && t.Arrive?
    ensures var s' := Apply(P, s, t);
      && LeftOk(s') && Made(s', i) == Made(s, i) && Taken(s', i) == Taken(s, i)
      && Verdict(s', i) == Verdict(s, i) + Settles(s, t, i)
  {
  }

  // ---- Over whole runs ----

  lemma {:induction false} RunCounts(P: nat, s: State, run: seq<Step>, i: nat)
    requires 0 < P && Inv(P, s) && LeftOk(s) && Possible(P, s, run)
    ensures var s' := After(P, s, run);
      && Inv(P, s') && LeftOk(s')
      && Made(s', i) == Made(s, i) + Removals(P, s, run, i)
      && Taken(s', i) == Taken(s, i) + Takings(P, s, run, i)
      && Verdict(s', i) == Verdict(s, i) + Settled(P, s, run, i)
    decreases |run|, 0
  {
    if run == [] {
      assert Verdict(s, i) + [] == Verdict(s, i);
    } else {
      StepKeepsInv(P, s, run[0]);
      StepCounts(P, s, run[0], i);
      RunGoesOn(P, s, Apply(P, s, run[0]), run[0], run[1..], i);
    }
  }

  // The rest of a run, after its first step.
  lemma {:induction false} RunGoesOn(P: nat, s: State, s1: State, t: Step, rest: seq<Step>, i: nat)
    requires 0 < P && Inv(P, s1) && LeftOk(s1) && Possible(P, s1, rest)
    ensures var s' := After(P, s1, rest);
      && Inv(P, s') && LeftOk(s')
      && Made(s', i) == Made(s1, i) + Removals(P, s1, rest, i)
      && Taken(s', i) == Taken(s1, i) + Takings(P, s1, rest, i)
      && Verdict(s', i) == Verdict(s1, i) + Settled(P, s1, rest, i)
    ensures Verdict(s1, i) == Verdict(s, i) + Settles(s, t, i) ==>
      Verdict(s1, i) + Settled(P, s1, rest, i) == Verdict(s, i) + (Settles(s, t, i) + Settled(P, s1, rest, i))
    decreases |rest|, 1
  {
    RunCounts(P, s1, rest, i);
  }

  // From a state without calls.
  lemma CountsFromStart(P: nat, s: State, run: seq<Step>, i: nat)
    requires 0 < P && Inv(P, s) && s.callers == [] && s.workers == [] && Possible(P, s, run)
    ensures var s' := After(P, s, run);
      && Inv(P, s') && LeftOk(s')
      && Removals(P, s, run, i) == Made(s', i) && Takings(P, s, run, i) == Taken(s', i) && Settled(P, s, run, i) == Verdict(s', i)
  {
    RunCounts(P, s, run, i);
    assert Verdict(s, i) == [];
  }

  lemma MadeWithinBounds(P: nat, s: State, i: nat)
    requires Inv(P, s) && LeftOk(s) && At(s, i)
    ensures 0 <= Made(s, i) <= s.callers[i].n && (Taken(s, i) == 0 ==> Made(s, i) == 0)
    ensures GotReply(s.callers[i].pc) ==> Made(s, i) == s.callers[i].n && Taken(s, i) == 1
  {
    assert CallerOk(P, s, i);
  }

  // The empty pool.
  ghost predicate Starts(s: State) { s == INIT }

  // A command is carried out before it is answered: once a call has its reply, exactly as
  // many removals were made for it as it has paths.  There are never more, none before a
  // worker takes the command, and no command is taken twice.
  lemma AnsweredIsCarriedOut(P: nat, s: State, run: seq<Step>, i: nat)
    requires 0 < P && Starts(s) && Possible(P, s, run) && i < |After(P, s, run).callers|
    ensures var c := After(P, s, run).callers[i];
      && (GotReply(c.pc) ==> Removals(P, s, run, i) == c.n && Takings(P, s, run, i) == 1)
      && Removals(P, s, run, i) <= c.n && Takings(P, s, run, i) <= 1
      && (Takings(P, s, run, i) == 0 ==> Removals(P, s, run, i) == 0)
  {
    CountsFromStart(P, s, run, i);
    MadeWithinBounds(P, After(P, s, run), i);
  }

  // A removeBatch is told one thing, once, and returns it: that the pool is not started or
  // there is nothing to do, as its guards found; that its directory did not open; that its
  // context ended first; or its worker's answer.  Before that it has been told nothing.
  lemma ReturnsWhatWasSettled(P: nat, s: State, run: seq<Step>, i: nat)
    requires 0 < P && Starts(s) && Possible(P, s, run) && i < |After(P, s, run).callers|
    ensures var c := After(P, s, run).callers[i];
      && |Settled(P, s, run, i)| <= 1
      && (c.pc.BatchDone? ==> Settled(P, s, run, i) == [c.pc.r])
      && (c.pc.BatchLock? || c.pc.BatchCheck? || c.pc.BatchOpen? || c.pc.BatchSend? ==> Settled(P, s, run, i) == [])
      && (c.pc == BatchDone(Answered) ==> Removals(P, s, run, i) == c.n)
      && (c.pc.BatchDone? && !c.pc.r.Answered? ==> Removals(P, s, run, i) == 0)
  {
    CountsFromStart(P, s, run, i);
  }

  // ---- The size of a pool ----

  function PoolSize(ws: seq<Worker>, g: nat): nat
  {
    if ws == [] then 0 else PoolSize(ws[..|ws| - 1], g) + if ws[|ws| - 1].gen == g then 1 else 0
  }

  lemma {:induction false} SameGens(ws: seq<Worker>, vs: seq<Worker>, g: nat)
    requires |ws| == |vs| && forall w :: 0 <= w < |ws| ==> ws[w].gen == vs[w].gen
    ensures PoolSize(ws, g) == PoolSize(vs, g)
    decreases |ws|
  {
    if ws != [] { SameGens(ws[..|ws| - 1], vs[..|vs| - 1], g); }
  }

  lemma {:induction false} NoneOfGen(ws: seq<Worker>, g: nat)
    requires forall w :: 0 <= w < |ws| ==> ws[w].gen != g
    ensures PoolSize(ws, g) == 0
    decreases |ws|
  {
    if ws != [] { NoneOfGen(ws[..|ws| - 1], g); }
  }

  // A Start has spawned all but `left` of its workers, or all.
  ghost predicate SpawnedSoFar(P: nat, s: State, i: nat)
    requires i < |s.callers|
  {
    match s.callers[i].pc
    case StartSpawn(g, left) => left <= P && PoolSize(s.workers, g) == P - left
    case StartDone(Some(g)) => PoolSize(s.workers, g) == P
    case _ => true
  }

  lemma SpawningCounts(P: nat, s: State, t: Step, i: nat)
    requires Inv(P, s) && Enabled(P, s, t) && t.StartSpawns? && i < |s.callers| && SpawnedSoFar(P, s, i) && SpawnedSoFar(P, s, t.i)
    ensures i < |Apply(P, s, t).callers| && SpawnedSoFar(P, Apply(P, s, t), i)
  {
    var s', g := Apply(P, s, t), s.callers[t.i].pc.g;
    assert CallerOk(P, s, i) && CallerOk(P, s, t.i);
    if s.callers[t.i].pc.left > 0 { assert s'.workers[..|s'.workers| - 1] == s.workers; }
  }

  lemma InstallingCounts(P: nat, s: State, t: Step, i: nat)
    requires Inv(P, s) && Enabled(P, s, t) && t.StartInstalls? && i < |s.callers| && SpawnedSoFar(P, s, i)
    ensures i < |Apply(P, s, t).callers| && SpawnedSoFar(P, Apply(P, s, t), i)
  {
    forall w | 0 <= w < |s.workers| ensures s.workers[w].gen != |s.gens| { assert WorkerOk(s, w); }
    NoneOfGen(s.workers, |s.gens|);
  }

  lemma OthersSpawnNothing(P: nat, s: State, t: Step)
    requires Enabled(P, s, t) && !t.StartSpawns? && !t.StartInstalls?
    ensures var s' := Apply(P, s, t);
      |s'.workers| == |s.workers| && forall w :: 0 <= w < |s.workers| ==> s'.workers[w].gen == s.workers[w].gen
  {
  }

  lemma OthersMoveNoStart(P: nat, s: State, t: Step, i: nat)
    requires Enabled(P, s, t) && !t.StartSpawns? && !t.StartInstalls? && i < |Apply(P, s, t).callers|
    requires Apply(P, s, t).callers[i].pc.StartSpawn? || Apply(P, s, t).callers[i].pc.StartDone?
    ensures i < |s.callers| && Apply(P, s, t).callers[i].pc == s.callers[i].pc
  {
  }

  lemma StepSpawns(P: nat, s: State, t: Step)
    requires Inv(P, s) && Enabled(P, s, t) && forall i :: 0 <= i < |s.callers| ==> SpawnedSoFar(P, s, i)
    ensures forall i :: 0 <= i < |Apply(P, s, t).callers| ==> SpawnedSoFar(P, Apply(P, s, t), i)
  {
    var s' := Apply(P, s, t);
    if t.StartSpawns? || t.StartInstalls? {
      CallerStepShape(P, s, t);
      forall i | 0 <= i < |s'.callers| ensures SpawnedSoFar(P, s', i) {
        if t.StartSpawns? { SpawningCounts(P, s, t, i); } else { InstallingCounts(P, s, t, i); }
      }
    } else {
      OthersSpawnNothing(P, s, t);
      forall i | 0 <= i < |s'.callers| ensures SpawnedSoFar(P, s', i) {
        var pc := s'.callers[i].pc;
        if pc.StartSpawn? || pc.StartDone? {
          OthersMoveNoStart(P, s, t, i);
          assert SpawnedSoFar(P, s, i);
        }
        if pc.StartSpawn? { SameGens(s'.workers, s.workers, pc.g); }
        if pc.StartDone? && pc.gen.Some? { SameGens(s'.workers, s.workers, pc.gen.value); }
      }
    }
  }

  lemma {:induction false} RunSpawns(P: nat, s: State, run: seq<Step>)
    requires 0 < P && Inv(P, s) && Possible(P, s, run) && forall i :: 0 <= i < |s.callers| ==> SpawnedSoFar(P, s, i)
    ensures forall i :: 0 <= i < |After(P, s, run).callers| ==> SpawnedSoFar(P, After(P, s, run), i)
    decreases |run|
  {
    if run != [] {
      StepSpawns(P, s, run[0]);
      StepKeepsInv(P, s, run[0]);
      RunSpawns(P, Apply(P, s, run[0]), run[1..]);
    }
  }

  // A Start that returned a stop closure has started as many workers as the pool is to have,
  // no more and no fewer.
  lemma PoolIsComplete(P: nat, s: State, run: seq<Step>, i: nat, g: nat)
    requires 0 < P && Starts(s) && Possible(P, s, run) && i < |After(P, s, run).callers|
    requires After(P, s, run).callers[i].pc == StartDone(Some(g))
    ensures PoolSize(After(P, s, run).workers, g) == P
  {
    RunSpawns(P, s, run);
    assert SpawnedSoFar(P, After(P, s, run), i);
  }
}
