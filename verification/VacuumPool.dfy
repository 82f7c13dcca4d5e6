// internal/blobstore/fs/vacuum.go: the VacuumManager as a labelled transition system.
// Any number of Start, stop and removeBatch calls run against pools of any size, over
// any number of Start/stop generations.
module VacuumPool {
  import opened Basics

  // The RWMutex.  A waiting writer holds new readers back, as sync.RWMutex does.
  datatype Lock = Free | Wanted(owner: nat) | Held(owner: nat)

  datatype Once = Fresh | Running(owner: nat) | Finished

  // One jobs channel with the sync.Once of its stop closure.  `starter` is the call
  // that made it and `first` its first worker.
  datatype Gen = Gen(queue: seq<nat>, closed: bool, once: Once, starter: nat, first: Option<nat>)

  // Where an accepted command is: in the channel, at a worker, or answered.
  datatype Place = Queued | AtWorker(w: nat) | Replied

  datatype Reply = Answered | NotStarted | NothingToDo | NoRoot | Cancelled

  datatype Pc =
    | StartLock | StartWait | StartCheck | StartSpawn(g: nat, left: nat) | StartDone(gen: Option<nat>)
    | BatchLock | BatchCheck | BatchOpen(g: nat) | BatchSend(g: nat) | BatchAwait(g: nat, at: Place)
    | BatchClose(r: Reply) | BatchUnlock(r: Reply) | BatchDone(r: Reply)
    | StopOnce(g: nat) | StopLock(g: nat) | StopWait(g: nat) | StopClose(g: nat) | StopDrain(g: nat) | StopDone(g: nat)

  // `n` is the number of paths of a removeBatch call.
  datatype Caller = Caller(n: nat, pc: Pc)

  datatype Work = Idle | Removing(cmd: nat, left: nat) | Exited

  datatype Worker = Worker(gen: nat, work: Work)

  // `answered` lists the replies sent; `panicked` records a send on, or a close of, a
  // closed channel.
  datatype State = State(
    lock: Lock, readers: set<nat>, jobs: Option<nat>,
    gens: seq<Gen>, callers: seq<Caller>, workers: seq<Worker>,
    answered: seq<nat>, panicked: bool)

  const INIT: State := State(Free, {}, None, [], [], [], [], false)

  datatype Step =
    | Arrive(caller: Caller)
    | StartWants(i: nat) | StartAcquires(i: nat) | StartInstalls(i: nat) | StartSpawns(i: nat)
    | BatchEnters(i: nat) | BatchChecks(i: nat) | BatchOpens(i: nat, ok: bool) | BatchSends(i: nat)
    | BatchCancels(i: nat) | BatchReceives(i: nat) | BatchCloses(i: nat) | BatchLeaves(i: nat)
    | StopEnters(i: nat) | StopWants(i: nat) | StopAcquires(i: nat) | StopCloses(i: nat) | StopDrains(i: nat)
    | WorkerTakes(w: nat) | WorkerRemoves(w: nat) | WorkerReplies(w: nat) | WorkerExits(w: nat)

  predicate At(s: State, i: nat) { i < |s.callers| }

  predicate Enabled(P: nat, s: State, t: Step)
  {
    match t
    case Arrive(c) =>
      c.pc.StartLock? || c.pc.BatchLock?
      // The stop closure exists once Start has returned it.
      || (c.pc.StopOnce? && exists i :: 0 <= i < |s.callers| && s.callers[i].pc == StartDone(Some(c.pc.g)))
    case StartWants(i) => At(s, i) && s.callers[i].pc.StartLock? && s.lock == Free
    case StartAcquires(i) => At(s, i) && s.callers[i].pc.StartWait? && s.readers == {}
    case StartInstalls(i) => At(s, i) && s.callers[i].pc.StartCheck?
    case StartSpawns(i) => At(s, i) && s.callers[i].pc.StartSpawn? && s.callers[i].pc.g < |s.gens|
    case BatchEnters(i) => At(s, i) && s.callers[i].pc.BatchLock? && s.lock == Free
    case BatchChecks(i) => At(s, i) && s.callers[i].pc.BatchCheck?
    case BatchOpens(i, _) => At(s, i) && s.callers[i].pc.BatchOpen?
    case BatchSends(i) =>
      At(s, i) && s.callers[i].pc.BatchSend? && s.callers[i].pc.g < |s.gens| && |s.gens[s.callers[i].pc.g].queue| < P
    case BatchCancels(i) => At(s, i) && s.callers[i].pc.BatchSend?
    case BatchReceives(i) => At(s, i) && s.callers[i].pc.BatchAwait? && i in s.answered
    case BatchCloses(i) => At(s, i) && s.callers[i].pc.BatchClose?
    case BatchLeaves(i) => At(s, i) && s.callers[i].pc.BatchUnlock?
    case StopEnters(i) =>
      At(s, i) && s.callers[i].pc.StopOnce? && s.callers[i].pc.g < |s.gens| && !s.gens[s.callers[i].pc.g].once.Running?
    case StopWants(i) => At(s, i) && s.callers[i].pc.StopLock? && s.lock == Free
    case StopAcquires(i) => At(s, i) && s.callers[i].pc.StopWait? && s.readers == {}
    case StopCloses(i) => At(s, i) && s.callers[i].pc.StopClose? && s.callers[i].pc.g < |s.gens|
    case StopDrains(i) =>
      && At(s, i) && s.callers[i].pc.StopDrain? && s.callers[i].pc.g < |s.gens|
      && forall w :: 0 <= w < |s.workers| && s.workers[w].gen == s.callers[i].pc.g ==> s.workers[w].work.Exited?
    case WorkerTakes(w) =>
      && w < |s.workers| && s.workers[w].work.Idle? && s.workers[w].gen < |s.gens|
      && s.gens[s.workers[w].gen].queue != [] && At(s, s.gens[s.workers[w].gen].queue[0])
    case WorkerRemoves(w) => w < |s.workers| && s.workers[w].work.Removing? && s.workers[w].work.left > 0
    case WorkerReplies(w) =>
      w < |s.workers| && s.workers[w].work.Removing? && s.workers[w].work.left == 0 && At(s, s.workers[w].work.cmd)
    case WorkerExits(w) =>
      && w < |s.workers| && s.workers[w].work.Idle? && s.workers[w].gen < |s.gens|
      && s.gens[s.workers[w].gen].queue == [] && s.gens[s.workers[w].gen].closed
  }

  function Goto(s: State, i: nat, pc: Pc): State
    requires At(s, i)
  {
    s.(callers := s.callers[i := s.callers[i].(pc := pc)])
  }

  function Apply(P: nat, s: State, t: Step): State
    requires Enabled(P, s, t)
  {
    match t
    case Arrive(c) => s.(callers := s.callers + [c])
    case StartWants(i) => Goto(s.(lock := Wanted(i)), i, StartWait)
    case StartAcquires(i) => Goto(s.(lock := Held(i)), i, StartCheck)
    case StartInstalls(i) =>
      if s.jobs.Some? then Goto(s.(lock := Free), i, StartDone(None))
      else
        var g := |s.gens|;
        Goto(s.(lock := Free, jobs := Some(g), gens := s.gens + [Gen([], false, Fresh, i, None)]), i, StartSpawn(g, P))
    case StartSpawns(i) =>
      var g, left := s.callers[i].pc.g, s.callers[i].pc.left;
      if left == 0 then Goto(s, i, StartDone(Some(g)))
      else
        Goto(s.(workers := s.workers + [Worker(g, Idle)],
                gens := if s.gens[g].first.None? then s.gens[g := s.gens[g].(first := Some(|s.workers|))] else s.gens),
             i, StartSpawn(g, left - 1))
    case BatchEnters(i) => Goto(s.(readers := s.readers + {i}), i, BatchCheck)
    case BatchChecks(i) =>
      Goto(s, i, if s.jobs.None? then BatchUnlock(NotStarted)
                 else if s.callers[i].n == 0 then BatchUnlock(NothingToDo)
                 else BatchOpen(s.jobs.value))
    case BatchOpens(i, ok) => Goto(s, i, if ok then BatchSend(s.callers[i].pc.g) else BatchUnlock(NoRoot))
    case BatchSends(i) =>
      var g := s.callers[i].pc.g;
      Goto(s.(gens := s.gens[g := s.gens[g].(queue := s.gens[g].queue + [i])],
              panicked := s.panicked || s.gens[g].closed), i, BatchAwait(g, Queued))
    case BatchCancels(i) => Goto(s, i, BatchClose(Cancelled))
    case BatchReceives(i) => Goto(s, i, BatchClose(Answered))
    case BatchCloses(i) => Goto(s, i, BatchUnlock(s.callers[i].pc.r))
    case BatchLeaves(i) => Goto(s.(readers := s.readers - {i}), i, BatchDone(s.callers[i].pc.r))
    case StopEnters(i) =>
      var g := s.callers[i].pc.g;
      if s.gens[g].once.Finished? then Goto(s, i, StopDone(g))
      else Goto(s.(gens := s.gens[g := s.gens[g].(once := Running(i))]), i, StopLock(g))
    case StopWants(i) => Goto(s.(lock := Wanted(i)), i, StopWait(s.callers[i].pc.g))
    case StopAcquires(i) => Goto(s.(lock := Held(i)), i, StopClose(s.callers[i].pc.g))
    case StopCloses(i) =>
      var g := s.callers[i].pc.g;
      var s' := if s.jobs == Some(g)
                then s.(jobs := None, gens := s.gens[g := s.gens[g].(closed := true)],
                        panicked := s.panicked || s.gens[g].closed)
                else s;
      Goto(s'.(lock := Free), i, StopDrain(g))
    case StopDrains(i) =>
      var g := s.callers[i].pc.g;
      Goto(s.(gens := s.gens[g := s.gens[g].(once := Finished)]), i, StopDone(g))
    case WorkerTakes(w) =>
      var g := s.workers[w].gen;
      var i := s.gens[g].queue[0];
      Goto(s.(gens := s.gens[g := s.gens[g].(queue := s.gens[g].queue[1..])],
              workers := s.workers[w := Worker(g, Removing(i, s.callers[i].n))]), i, BatchAwait(g, AtWorker(w)))
    case WorkerRemoves(w) =>
      var work := s.workers[w].work;
      s.(workers := s.workers[w := s.workers[w].(work := Removing(work.cmd, work.left - 1))])
    case WorkerReplies(w) =>
      var i := s.workers[w].work.cmd;
      Goto(s.(workers := s.workers[w := s.workers[w].(work := Idle)], answered := s.answered + [i]),
           i, BatchAwait(s.workers[w].gen, Replied))
    case WorkerExits(w) => s.(workers := s.workers[w := s.workers[w].(work := Exited)])
  }

  // ---- Runs ----

  ghost predicate Possible(P: nat, s: State, run: seq<Step>)
    decreases |run|
  {
    run == [] || (Enabled(P, s, run[0]) && Possible(P, Apply(P, s, run[0]), run[1..]))
  }

  ghost function After(P: nat, s: State, run: seq<Step>): State
    requires Possible(P, s, run)
    decreases |run|
  {
    if run == [] then s else After(P, Apply(P, s, run[0]), run[1..])
  }

  // ---- The invariant ----

  predicate WaitsForLock(pc: Pc) { pc.StartWait? || pc.StopWait? }
  predicate HoldsLock(pc: Pc) { pc.StartCheck? || pc.StopClose? }
  predicate HoldsRLock(pc: Pc)
  {
    pc.BatchCheck? || pc.BatchOpen? || pc.BatchSend? || pc.BatchAwait? || pc.BatchClose? || pc.BatchUnlock?
  }
  predicate InsideOnce(pc: Pc, g: nat) { (pc.StopLock? || pc.StopWait? || pc.StopClose? || pc.StopDrain?) && pc.g == g }
  predicate Stops(pc: Pc) { pc.StopOnce? || pc.StopLock? || pc.StopWait? || pc.StopClose? || pc.StopDrain? || pc.StopDone? }

  predicate GotReply(pc: Pc)
  {
    (pc.BatchAwait? && pc.at.Replied?) || ((pc.BatchClose? || pc.BatchUnlock? || pc.BatchDone?) && pc.r.Answered?)
  }

  // The mutex excludes: its state mirrors where the callers are.
  ghost predicate LockOk(s: State)
  {
    && (forall i :: 0 <= i < |s.callers| ==>
          && (WaitsForLock(s.callers[i].pc) <==> s.lock == Wanted(i))
          && (HoldsLock(s.callers[i].pc) <==> s.lock == Held(i))
          && (HoldsRLock(s.callers[i].pc) <==> i in s.readers))
    && (forall i :: i in s.readers ==> i < |s.callers|)
    && (s.lock.Held? ==> s.readers == {})
    && (s.lock != Free ==> s.lock.owner < |s.callers|)
  }

  // The open generation is the one `jobs` points to, and closing is tied to the once.
  ghost predicate GenOk(s: State, g: nat)
    requires g < |s.gens|
  {
    var gen := s.gens[g];
    && (gen.closed <==> s.jobs != Some(g))
    && (gen.closed ==> gen.queue == [])
    && (gen.closed ==> gen.once.Finished? || (gen.once.Running? && At(s, gen.once.owner) && s.callers[gen.once.owner].pc == StopDrain(g)))
    && (gen.once.Finished? ==> gen.closed && forall w :: 0 <= w < |s.workers| && s.workers[w].gen == g ==> s.workers[w].work.Exited?)
    && (gen.once.Running? ==> At(s, gen.once.owner) && InsideOnce(s.callers[gen.once.owner].pc, g))
    && At(s, gen.starter)
    && (s.callers[gen.starter].pc.StartSpawn? || s.callers[gen.starter].pc == StartDone(Some(g)))
    && (s.callers[gen.starter].pc.StartSpawn? ==> s.callers[gen.starter].pc.g == g && !gen.once.Running? && !gen.closed)
    && (gen.first.Some? ==> gen.first.value < |s.workers| && s.workers[gen.first.value].gen == g)
    && (gen.first.None? ==> s.callers[gen.starter].pc.StartSpawn?)
  }

  ghost predicate QueueOk(P: nat, s: State, g: nat)
    requires g < |s.gens|
  {
    var q := s.gens[g].queue;
    && |q| <= P
    && (forall k :: 0 <= k < |q| ==> At(s, q[k]) && s.callers[q[k]].pc == BatchAwait(g, Queued))
    && (forall k, l :: 0 <= k < l < |q| ==> q[k] != q[l])
  }

  ghost predicate CallerOk(P: nat, s: State, i: nat)
    requires i < |s.callers|
  {
    var pc := s.callers[i].pc;
    && (pc.BatchOpen? || pc.BatchSend? || pc.BatchAwait? ==> pc.g < |s.gens| && s.jobs == Some(pc.g))
    && (pc.BatchOpen? || pc.BatchSend? || pc.BatchAwait? ==> 0 < s.callers[i].n)
    && (pc.BatchAwait? && pc.at.Queued? ==> i in s.gens[pc.g].queue)
    && (pc.BatchAwait? && pc.at.AtWorker? ==>
          pc.at.w < |s.workers| && s.workers[pc.at.w].gen == pc.g && s.workers[pc.at.w].work.Removing? && s.workers[pc.at.w].work.cmd == i)
    && (GotReply(pc) <==> i in s.answered)
    && (pc.StartSpawn? ==> pc.g < |s.gens| && pc.left <= P && s.gens[pc.g].starter == i && (s.gens[pc.g].first.None? <==> pc.left == P))
    && (pc.StartDone? && pc.gen.Some? ==> pc.gen.value < |s.gens| && s.gens[pc.gen.value].starter == i)
    && (Stops(pc) ==> pc.g < |s.gens| && At(s, s.gens[pc.g].starter) && s.callers[s.gens[pc.g].starter].pc == StartDone(Some(pc.g)))
    && (pc.StopLock? || pc.StopWait? || pc.StopClose? || pc.StopDrain? ==> s.gens[pc.g].once == Running(i))
    && (pc.StopDrain? ==> s.gens[pc.g].closed)
    && (pc.StopLock? || pc.StopWait? || pc.StopClose? ==> !s.gens[pc.g].closed)
    && (pc.StopDone? ==> s.gens[pc.g].once.Finished?)
  }

  ghost predicate WorkerOk(s: State, w: nat)
    requires w < |s.workers|
  {
    var work := s.workers[w].work;
    && s.workers[w].gen < |s.gens|
    && (work.Exited? ==> s.gens[s.workers[w].gen].closed)
    && (work.Removing? ==> At(s, work.cmd) && s.callers[work.cmd].pc == BatchAwait(s.workers[w].gen, AtWorker(w)))
  }

  ghost predicate Inv(P: nat, s: State)
  {
    && LockOk(s)
    && (forall g :: 0 <= g < |s.gens| ==> GenOk(s, g) && QueueOk(P, s, g))
    && (s.jobs.Some? ==> s.jobs.value < |s.gens|)
    && (forall i :: 0 <= i < |s.callers| ==> CallerOk(P, s, i))
    && (forall w :: 0 <= w < |s.workers| ==> WorkerOk(s, w))
    && (forall k :: 0 <= k < |s.answered| ==> At(s, s.answered[k]))
    && (forall k, l :: 0 <= k < l < |s.answered| ==> s.answered[k] != s.answered[l])
    && !s.panicked
  }

  // ---- Every step keeps the invariant ----

  // A queued command's caller is a reader.
  lemma QueuedReader(P: nat, s: State, g: nat)
    requires Inv(P, s) && g < |s.gens|
    ensures s.gens[g].queue != [] ==> s.readers != {}
  {
    assert QueueOk(P, s, g);
    if s.gens[g].queue != [] { assert s.gens[g].queue[0] in s.readers; }
  }

  // A stop closure that holds the mutex closes an open channel with nothing in it.
  lemma ClosesEmptyQueue(P: nat, s: State, i: nat)
    requires Inv(P, s) && i < |s.callers| && s.callers[i].pc.StopClose?
    ensures var g := s.callers[i].pc.g; g < |s.gens| && s.jobs == Some(g) && !s.gens[g].closed && s.gens[g].queue == []
    ensures s.lock == Held(i) && s.readers == {}
  {
    var g := s.callers[i].pc.g;
    assert CallerOk(P, s, i) && GenOk(s, g);
    QueuedReader(P, s, g);
    assert s.lock == Held(i);
  }

  lemma KeepArrive(P: nat, s: State, t: Step)
    requires 0 < P && Inv(P, s) && Enabled(P, s, t) && t.Arrive?
    ensures Inv(P, Apply(P, s, t))
  {
    var c := t.caller;
    if c.pc.StopOnce? {
      var i :| 0 <= i < |s.callers| && s.callers[i].pc == StartDone(Some(c.pc.g));
      assert CallerOk(P, s, i);
    }
    var s' := Apply(P, s, t);
    forall g | 0 <= g < |s'.gens| ensures GenOk(s', g) { if g < |s.gens| { assert GenOk(s, g) && QueueOk(P, s, g); } }
    forall g | 0 <= g < |s'.gens| ensures QueueOk(P, s', g) { if g < |s.gens| { assert GenOk(s, g) && QueueOk(P, s, g); } }
    forall i | 0 <= i < |s'.callers| ensures CallerOk(P, s', i) { if i < |s.callers| { assert CallerOk(P, s, i); } }
    forall w | 0 <= w < |s'.workers| ensures WorkerOk(s', w) { if w < |s.workers| { assert WorkerOk(s, w); } }
  }

  // Steps in which one caller moves on, and only the mutex changes with it.
  predicate MovesWriter(t: Step) { t.StartWants? || t.StopWants? || t.StartAcquires? || t.StopAcquires? }
  predicate MovesReader(t: Step)
  {
    t.BatchEnters? || t.BatchLeaves? || t.BatchChecks? || t.BatchOpens? || t.BatchCancels? || t.BatchReceives? || t.BatchCloses?
  }

  // No generation, queue or worker depends on the caller being where it was.
  predicate FreeToMove(pc: Pc, pc': Pc)
  {
    && !pc.StartSpawn? && !pc.StartDone? && !pc.StopDrain? && (pc.BatchAwait? ==> pc.at.Replied?)
    && (pc.StopLock? || pc.StopWait? || pc.StopClose? ==> InsideOnce(pc', pc.g))
  }

  lemma CallerMoveKeeps(P: nat, s: State, s': State, i: nat)
    requires Inv(P, s) && i < |s.callers| == |s'.callers| && s' == s.(callers := s'.callers, lock := s'.lock, readers := s'.readers)
    requires s'.callers == s.callers[i := s'.callers[i]] && FreeToMove(s.callers[i].pc, s'.callers[i].pc)
    requires LockOk(s') && CallerOk(P, s', i)
    ensures Inv(P, s')
  {
    forall g | 0 <= g < |s'.gens| ensures GenOk(s', g) && QueueOk(P, s', g) { assert GenOk(s, g) && QueueOk(P, s, g); }
    forall k | 0 <= k < |s'.callers| ensures CallerOk(P, s', k) { if k != i { assert CallerOk(P, s, k); } }
    forall w | 0 <= w < |s'.workers| ensures WorkerOk(s', w) { assert WorkerOk(s, w); }
  }

  lemma WriterOk(P: nat, s: State, t: Step)
    requires Inv(P, s) && Enabled(P, s, t) && MovesWriter(t)
    ensures t.i < |Apply(P, s, t).callers| && CallerOk(P, Apply(P, s, t), t.i)
  {
    assert CallerOk(P, s, t.i);
  }

  lemma ReaderMovesOn(P: nat, s: State, t: Step)
    requires Inv(P, s) && Enabled(P, s, t) && MovesReader(t)
    ensures var s' := Apply(P, s, t);
      && s' == s.(callers := s'.callers, lock := s'.lock, readers := s'.readers)
      && |s'.callers| == |s.callers| && s'.callers == s.callers[t.i := s'.callers[t.i]] && FreeToMove(s.callers[t.i].pc, s'.callers[t.i].pc)
  {
    assert CallerOk(P, s, t.i);
  }

  lemma ReaderLocks(P: nat, s: State, t: Step)
    requires Inv(P, s) && Enabled(P, s, t) && MovesReader(t)
    ensures LockOk(Apply(P, s, t))
  {
  }

  lemma ReaderOk(P: nat, s: State, t: Step)
    requires Inv(P, s) && Enabled(P, s, t) && MovesReader(t)
    ensures t.i < |Apply(P, s, t).callers| && CallerOk(P, Apply(P, s, t), t.i)
  {
    assert CallerOk(P, s, t.i);
  }

  lemma KeepCallerMoves(P: nat, s: State, t: Step)
    requires Inv(P, s) && Enabled(P, s, t) && (MovesWriter(t) || MovesReader(t))
    ensures Inv(P, Apply(P, s, t))
  {
    if MovesWriter(t) {
      WriterOk(P, s, t);
    } else {
      ReaderMovesOn(P, s, t);
      ReaderLocks(P, s, t);
      ReaderOk(P, s, t);
    }
    CallerMoveKeeps(P, s, Apply(P, s, t), t.i);
  }

  lemma StartInstallsKeepsGens(P: nat, s: State, t: Step)
    requires 0 < P && Inv(P, s) && Enabled(P, s, t) && t.StartInstalls?
    ensures forall g :: 0 <= g < |Apply(P, s, t).gens| ==> GenOk(Apply(P, s, t), g) && QueueOk(P, Apply(P, s, t), g)
  {
    var s' := Apply(P, s, t);
    forall g | 0 <= g < |s'.gens| ensures GenOk(s', g) && QueueOk(P, s', g) { if g < |s.gens| { assert GenOk(s, g) && QueueOk(P, s, g); } }
  }

  lemma StartInstallsKeepsCallers(P: nat, s: State, t: Step)
    requires 0 < P && Inv(P, s) && Enabled(P, s, t) && t.StartInstalls?
    ensures forall i :: 0 <= i < |Apply(P, s, t).callers| ==> CallerOk(P, Apply(P, s, t), i)
  {
    var s' := Apply(P, s, t);
    forall i | 0 <= i < |s'.callers| ensures CallerOk(P, s', i) { assert CallerOk(P, s, i); }
  }

  lemma KeepStartInstalls(P: nat, s: State, t: Step)
    requires 0 < P && Inv(P, s) && Enabled(P, s, t) && t.StartInstalls?
    ensures Inv(P, Apply(P, s, t))
  {
    var s' := Apply(P, s, t);
    StartInstallsKeepsGens(P, s, t);
    StartInstallsKeepsCallers(P, s, t);
    forall w | 0 <= w < |s'.workers| ensures WorkerOk(s', w) { if w < |s.workers| { assert WorkerOk(s, w); } }
  }

  lemma StartSpawnsKeepsGens(P: nat, s: State, t: Step)
    requires 0 < P && Inv(P, s) && Enabled(P, s, t) && t.StartSpawns?
    ensures forall g :: 0 <= g < |Apply(P, s, t).gens| ==> GenOk(Apply(P, s, t), g) && QueueOk(P, Apply(P, s, t), g)
  {
    assert CallerOk(P, s, t.i);
    var s' := Apply(P, s, t);
    forall g | 0 <= g < |s'.gens| ensures GenOk(s', g) && QueueOk(P, s', g) { if g < |s.gens| { assert GenOk(s, g) && QueueOk(P, s, g); } }
  }

  lemma StartSpawnsKeepsStarter(P: nat, s: State, t: Step)
    requires Inv(P, s) && Enabled(P, s, t) && t.StartSpawns?
    ensures t.i < |Apply(P, s, t).callers| && CallerOk(P, Apply(P, s, t), t.i)
  {
    assert CallerOk(P, s, t.i) && GenOk(s, s.callers[t.i].pc.g);
  }

  // The other callers see one more worker, and perhaps a generation's first.
  lemma StartSpawnsKeepsOthers(P: nat, s: State, t: Step, i: nat)
    requires Inv(P, s) && Enabled(P, s, t) && t.StartSpawns? && i < |s.callers| && i != t.i
    ensures i < |Apply(P, s, t).callers| && CallerOk(P, Apply(P, s, t), i)
  {
    assert CallerOk(P, s, t.i) && CallerOk(P, s, i);
  }

  lemma StartSpawnsKeepsCallers(P: nat, s: State, t: Step)
    requires Inv(P, s) && Enabled(P, s, t) && t.StartSpawns?
    ensures forall i :: 0 <= i < |Apply(P, s, t).callers| ==> CallerOk(P, Apply(P, s, t), i)
  {
    StartSpawnsKeepsStarter(P, s, t);
    forall i | 0 <= i < |Apply(P, s, t).callers| && i != t.i ensures CallerOk(P, Apply(P, s, t), i) {
      StartSpawnsKeepsOthers(P, s, t, i);
    }
  }

  lemma KeepStartSpawns(P: nat, s: State, t: Step)
    requires 0 < P && Inv(P, s) && Enabled(P, s, t) && t.StartSpawns?
    ensures Inv(P, Apply(P, s, t))
  {
    assert CallerOk(P, s, t.i);
    var s' := Apply(P, s, t);
    StartSpawnsKeepsGens(P, s, t);
    StartSpawnsKeepsCallers(P, s, t);
    forall w | 0 <= w < |s'.workers| ensures WorkerOk(s', w) { if w < |s.workers| { assert WorkerOk(s, w); } }
  }

  lemma BatchSendsKeepsGens(P: nat, s: State, t: Step)
    requires 0 < P && Inv(P, s) && Enabled(P, s, t) && t.BatchSends?
    ensures forall g :: 0 <= g < |Apply(P, s, t).gens| ==> GenOk(Apply(P, s, t), g) && QueueOk(P, Apply(P, s, t), g)
  {
    var g := s.callers[t.i].pc.g;
    assert CallerOk(P, s, t.i) && GenOk(s, g) && QueueOk(P, s, g);
    var s' := Apply(P, s, t);
    forall g | 0 <= g < |s'.gens| ensures GenOk(s', g) && QueueOk(P, s', g) { if g < |s.gens| { assert GenOk(s, g) && QueueOk(P, s, g); } }
  }

  lemma BatchSendsKeepsCallers(P: nat, s: State, t: Step)
    requires 0 < P && Inv(P, s) && Enabled(P, s, t) && t.BatchSends?
    ensures forall i :: 0 <= i < |Apply(P, s, t).callers| ==> CallerOk(P, Apply(P, s, t), i)
  {
    var g := s.callers[t.i].pc.g;
    assert CallerOk(P, s, t.i) && GenOk(s, g) && QueueOk(P, s, g);
    var s' := Apply(P, s, t);
    forall i | 0 <= i < |s'.callers| ensures CallerOk(P, s', i) { assert CallerOk(P, s, i); }
  }

  lemma KeepBatchSends(P: nat, s: State, t: Step)
    requires 0 < P && Inv(P, s) && Enabled(P, s, t) && t.BatchSends?
    ensures Inv(P, Apply(P, s, t))
  {
    var g := s.callers[t.i].pc.g;
    assert CallerOk(P, s, t.i) && GenOk(s, g) && QueueOk(P, s, g);
    var s' := Apply(P, s, t);
    BatchSendsKeepsGens(P, s, t);
    BatchSendsKeepsCallers(P, s, t);
    forall w | 0 <= w < |s'.workers| ensures WorkerOk(s', w) { if w < |s.workers| { assert WorkerOk(s, w); } }
  }

  lemma StopEntersKeepsGens(P: nat, s: State, t: Step)
    requires 0 < P && Inv(P, s) && Enabled(P, s, t) && t.StopEnters?
    ensures forall g :: 0 <= g < |Apply(P, s, t).gens| ==> GenOk(Apply(P, s, t), g) && QueueOk(P, Apply(P, s, t), g)
  {
    assert CallerOk(P, s, t.i) && GenOk(s, s.callers[t.i].pc.g);
    var s' := Apply(P, s, t);
    forall g | 0 <= g < |s'.gens| ensures GenOk(s', g) && QueueOk(P, s', g) { if g < |s.gens| { assert GenOk(s, g) && QueueOk(P, s, g); } }
  }

  lemma StopEntersKeepsCallers(P: nat, s: State, t: Step)
    requires 0 < P && Inv(P, s) && Enabled(P, s, t) && t.StopEnters?
    ensures forall i :: 0 <= i < |Apply(P, s, t).callers| ==> CallerOk(P, Apply(P, s, t), i)
  {
    assert CallerOk(P, s, t.i) && GenOk(s, s.callers[t.i].pc.g);
    var s' := Apply(P, s, t);
    forall i | 0 <= i < |s'.callers| ensures CallerOk(P, s', i) { assert CallerOk(P, s, i); }
  }

  lemma KeepStopEnters(P: nat, s: State, t: Step)
    requires 0 < P && Inv(P, s) && Enabled(P, s, t) && t.StopEnters?
    ensures Inv(P, Apply(P, s, t))
  {
    assert CallerOk(P, s, t.i) && GenOk(s, s.callers[t.i].pc.g);
    var s' := Apply(P, s, t);
    StopEntersKeepsGens(P, s, t);
    StopEntersKeepsCallers(P, s, t);
    forall w | 0 <= w < |s'.workers| ensures WorkerOk(s', w) { if w < |s.workers| { assert WorkerOk(s, w); } }
  }

  lemma StopClosesKeepsGens(P: nat, s: State, t: Step)
    requires 0 < P && Inv(P, s) && Enabled(P, s, t) && t.StopCloses?
    ensures forall g :: 0 <= g < |Apply(P, s, t).gens| ==> GenOk(Apply(P, s, t), g) && QueueOk(P, Apply(P, s, t), g)
  {
    ClosesEmptyQueue(P, s, t.i);
    assert CallerOk(P, s, t.i) && GenOk(s, s.callers[t.i].pc.g);
    var s' := Apply(P, s, t);
    forall g | 0 <= g < |s'.gens| ensures GenOk(s', g) && QueueOk(P, s', g) { if g < |s.gens| { assert GenOk(s, g) && QueueOk(P, s, g); } }
  }

  lemma StopClosesKeepsCallers(P: nat, s: State, t: Step)
    requires 0 < P && Inv(P, s) && Enabled(P, s, t) && t.StopCloses?
    ensures forall i :: 0 <= i < |Apply(P, s, t).callers| ==> CallerOk(P, Apply(P, s, t), i)
  {
    ClosesEmptyQueue(P, s, t.i);
    assert CallerOk(P, s, t.i) && GenOk(s, s.callers[t.i].pc.g);
    var s' := Apply(P, s, t);
    forall i | 0 <= i < |s'.callers| ensures CallerOk(P, s', i) { assert CallerOk(P, s, i); }
  }

  lemma KeepStopCloses(P: nat, s: State, t: Step)
    requires 0 < P && Inv(P, s) && Enabled(P, s, t) && t.StopCloses?
    ensures Inv(P, Apply(P, s, t))
  {
    ClosesEmptyQueue(P, s, t.i);
    assert CallerOk(P, s, t.i) && GenOk(s, s.callers[t.i].pc.g);
    var s' := Apply(P, s, t);
    StopClosesKeepsGens(P, s, t);
    StopClosesKeepsCallers(P, s, t);
    forall w | 0 <= w < |s'.workers| ensures WorkerOk(s', w) { if w < |s.workers| { assert WorkerOk(s, w); } }
  }

  lemma StopDrainsKeepsGens(P: nat, s: State, t: Step)
    requires 0 < P && Inv(P, s) && Enabled(P, s, t) && t.StopDrains?
    ensures forall g :: 0 <= g < |Apply(P, s, t).gens| ==> GenOk(Apply(P, s, t), g) && QueueOk(P, Apply(P, s, t), g)
  {
    assert CallerOk(P, s, t.i) && GenOk(s, s.callers[t.i].pc.g);
    var s' := Apply(P, s, t);
    forall g | 0 <= g < |s'.gens| ensures GenOk(s', g) && QueueOk(P, s', g) { if g < |s.gens| { assert GenOk(s, g) && QueueOk(P, s, g); } }
  }

  lemma StopDrainsKeepsCallers(P: nat, s: State, t: Step)
    requires 0 < P && Inv(P, s) && Enabled(P, s, t) && t.StopDrains?
    ensures forall i :: 0 <= i < |Apply(P, s, t).callers| ==> CallerOk(P, Apply(P, s, t), i)
  {
    assert CallerOk(P, s, t.i) && GenOk(s, s.callers[t.i].pc.g);
    var s' := Apply(P, s, t);
    forall i | 0 <= i < |s'.callers| ensures CallerOk(P, s', i) { assert CallerOk(P, s, i); }
  }

  lemma KeepStopDrains(P: nat, s: State, t: Step)
    requires 0 < P && Inv(P, s) && Enabled(P, s, t) && t.StopDrains?
    ensures Inv(P, Apply(P, s, t))
  {
    assert CallerOk(P, s, t.i) && GenOk(s, s.callers[t.i].pc.g);
    var s' := Apply(P, s, t);
    StopDrainsKeepsGens(P, s, t);
    StopDrainsKeepsCallers(P, s, t);
    forall w | 0 <= w < |s'.workers| ensures WorkerOk(s', w) { if w < |s.workers| { assert WorkerOk(s, w); } }
  }

  lemma WorkerTakesKeepsGens(P: nat, s: State, t: Step)
    requires 0 < P && Inv(P, s) && Enabled(P, s, t) && t.WorkerTakes?
    ensures forall g :: 0 <= g < |Apply(P, s, t).gens| ==> GenOk(Apply(P, s, t), g) && QueueOk(P, Apply(P, s, t), g)
  {
    var g := s.workers[t.w].gen;
    assert WorkerOk(s, t.w) && GenOk(s, g) && QueueOk(P, s, g);
    assert CallerOk(P, s, s.gens[g].queue[0]);
    var s' := Apply(P, s, t);
    forall g | 0 <= g < |s'.gens| ensures GenOk(s', g) && QueueOk(P, s', g) { if g < |s.gens| { assert GenOk(s, g) && QueueOk(P, s, g); } }
  }

  lemma WorkerTakesKeepsCallers(P: nat, s: State, t: Step)
    requires 0 < P && Inv(P, s) && Enabled(P, s, t) && t.WorkerTakes?
    ensures forall i :: 0 <= i < |Apply(P, s, t).callers| ==> CallerOk(P, Apply(P, s, t), i)
  {
    var g := s.workers[t.w].gen;
    assert WorkerOk(s, t.w) && GenOk(s, g) && QueueOk(P, s, g);
    assert CallerOk(P, s, s.gens[g].queue[0]);
    var s' := Apply(P, s, t);
    forall i | 0 <= i < |s'.callers| ensures CallerOk(P, s', i) { assert CallerOk(P, s, i); }
  }

  lemma KeepWorkerTakes(P: nat, s: State, t: Step)
    requires 0 < P && Inv(P, s) && Enabled(P, s, t) && t.WorkerTakes?
    ensures Inv(P, Apply(P, s, t))
  {
    var g := s.workers[t.w].gen;
    assert WorkerOk(s, t.w) && GenOk(s, g) && QueueOk(P, s, g);
    assert CallerOk(P, s, s.gens[g].queue[0]);
    var s' := Apply(P, s, t);
    WorkerTakesKeepsGens(P, s, t);
    WorkerTakesKeepsCallers(P, s, t);
    forall w | 0 <= w < |s'.workers| ensures WorkerOk(s', w) { if w < |s.workers| { assert WorkerOk(s, w); } }
  }

  lemma KeepWorkerMoves(P: nat, s: State, t: Step)
    requires 0 < P && Inv(P, s) && Enabled(P, s, t) && (t.WorkerRemoves? || t.WorkerExits?)
    ensures Inv(P, Apply(P, s, t))
  {
    var s' := Apply(P, s, t);
    forall g | 0 <= g < |s'.gens| ensures GenOk(s', g) { if g < |s.gens| { assert GenOk(s, g) && QueueOk(P, s, g); } }
    forall g | 0 <= g < |s'.gens| ensures QueueOk(P, s', g) { if g < |s.gens| { assert GenOk(s, g) && QueueOk(P, s, g); } }
    forall i | 0 <= i < |s'.callers| ensures CallerOk(P, s', i) { if i < |s.callers| { assert CallerOk(P, s, i); } }
    forall w | 0 <= w < |s'.workers| ensures WorkerOk(s', w) { if w < |s.workers| { assert WorkerOk(s, w); } }
  }

  lemma WorkerRepliesKeepsGens(P: nat, s: State, t: Step)
    requires 0 < P && Inv(P, s) && Enabled(P, s, t) && t.WorkerReplies?
    ensures forall g :: 0 <= g < |Apply(P, s, t).gens| ==> GenOk(Apply(P, s, t), g) && QueueOk(P, Apply(P, s, t), g)
  {
    assert WorkerOk(s, t.w) && CallerOk(P, s, s.workers[t.w].work.cmd);
    assert s.workers[t.w].work.cmd !in s.answered;
    var s' := Apply(P, s, t);
    forall g | 0 <= g < |s'.gens| ensures GenOk(s', g) && QueueOk(P, s', g) { if g < |s.gens| { assert GenOk(s, g) && QueueOk(P, s, g); } }
  }

  lemma WorkerRepliesKeepsCallers(P: nat, s: State, t: Step)
    requires 0 < P && Inv(P, s) && Enabled(P, s, t) && t.WorkerReplies?
    ensures forall i :: 0 <= i < |Apply(P, s, t).callers| ==> CallerOk(P, Apply(P, s, t), i)
  {
    assert WorkerOk(s, t.w) && CallerOk(P, s, s.workers[t.w].work.cmd);
    assert s.workers[t.w].work.cmd !in s.answered;
    var s' := Apply(P, s, t);
    forall i | 0 <= i < |s'.callers| ensures CallerOk(P, s', i) { assert CallerOk(P, s, i); }
  }

  lemma KeepWorkerReplies(P: nat, s: State, t: Step)
    requires 0 < P && Inv(P, s) && Enabled(P, s, t) && t.WorkerReplies?
    ensures Inv(P, Apply(P, s, t))
  {
    assert WorkerOk(s, t.w) && CallerOk(P, s, s.workers[t.w].work.cmd);
    assert s.workers[t.w].work.cmd !in s.answered;
    var s' := Apply(P, s, t);
    WorkerRepliesKeepsGens(P, s, t);
    WorkerRepliesKeepsCallers(P, s, t);
    forall w | 0 <= w < |s'.workers| ensures WorkerOk(s', w) { if w < |s.workers| { assert WorkerOk(s, w); } }
  }

  lemma StepKeepsInv(P: nat, s: State, t: Step)
    requires 0 < P && Inv(P, s) && Enabled(P, s, t)
    ensures Inv(P, Apply(P, s, t))
  {
    match t {
      case Arrive(_) => KeepArrive(P, s, t);
      case StartInstalls(_) => KeepStartInstalls(P, s, t);
      case StartSpawns(_) => KeepStartSpawns(P, s, t);
      case BatchSends(_) => KeepBatchSends(P, s, t);
      case StopEnters(_) => KeepStopEnters(P, s, t);
      case StopCloses(_) => KeepStopCloses(P, s, t);
      case StopDrains(_) => KeepStopDrains(P, s, t);
      case WorkerTakes(_) => KeepWorkerTakes(P, s, t);
      case WorkerRemoves(_) => KeepWorkerMoves(P, s, t);
      case WorkerExits(_) => KeepWorkerMoves(P, s, t);
      case WorkerReplies(_) => KeepWorkerReplies(P, s, t);
      case _ => KeepCallerMoves(P, s, t);
    }
  }

  lemma {:induction false} RunKeepsInv(P: nat, s: State, run: seq<Step>)
    requires 0 < P && Inv(P, s) && Possible(P, s, run)
    ensures Inv(P, After(P, s, run))
    decreases |run|
  {
    if run != [] {
      StepKeepsInv(P, s, run[0]);
      RunKeepsInv(P, Apply(P, s, run[0]), run[1..]);
    }
  }

  // ---- Safety over all runs and generations ----

  ghost predicate Reachable(P: nat, s: State)
  {
    exists run :: Possible(P, INIT, run) && After(P, INIT, run) == s
  }

  lemma ReachableInv(P: nat, s: State)
    requires 0 < P && Reachable(P, s)
    ensures Inv(P, s)
  {
    var run :| Possible(P, INIT, run) && After(P, INIT, run) == s;
    RunKeepsInv(P, INIT, run);
  }

  // No send on a closed channel and no second close ever happens; a channel is closed
  // with an empty queue; and the guard `m.jobs == jobs` holds whenever it is evaluated.
  lemma NoPanic(P: nat, s: State)
    requires 0 < P && Reachable(P, s)
    ensures !s.panicked
    ensures forall i :: 0 <= i < |s.callers| && s.callers[i].pc.StopClose? ==>
      var g := s.callers[i].pc.g; g < |s.gens| && s.jobs == Some(g) && !s.gens[g].closed && s.gens[g].queue == []
    ensures forall i :: 0 <= i < |s.callers| && s.callers[i].pc.BatchSend? ==>
      s.callers[i].pc.g < |s.gens| && !s.gens[s.callers[i].pc.g].closed
  {
    ReachableInv(P, s);
    forall i | 0 <= i < |s.callers| && s.callers[i].pc.StopClose?
      ensures var g := s.callers[i].pc.g; g < |s.gens| && s.jobs == Some(g) && !s.gens[g].closed && s.gens[g].queue == []
    {
      ClosesEmptyQueue(P, s, i);
    }
    forall i | 0 <= i < |s.callers| && s.callers[i].pc.BatchSend?
      ensures s.callers[i].pc.g < |s.gens| && !s.gens[s.callers[i].pc.g].closed
    {
      assert CallerOk(P, s, i) && GenOk(s, s.callers[i].pc.g);
    }
  }

  // Every command is answered at most once, and a removeBatch that returned a result
  // was answered.
  lemma AnsweredExactlyOnce(P: nat, s: State, i: nat)
    requires 0 < P && Reachable(P, s) && i < |s.callers|
    ensures multiset(s.answered)[i] == if GotReply(s.callers[i].pc) then 1 else 0
  {
    ReachableInv(P, s);
    assert CallerOk(P, s, i);
    OccursOnce(s.answered, i);
  }

  lemma {:induction false} OccursOnce(q: seq<nat>, x: nat)
    requires forall k, l :: 0 <= k < l < |q| ==> q[k] != q[l]
    ensures multiset(q)[x] == if x in q then 1 else 0
  {
    if q != [] {
      assert q == [q[0]] + q[1..];
      OccursOnce(q[1..], x);
    }
  }

  // The directory handle a worker is using is open: its caller has not reached the
  // deferred root.Close, and no other worker holds the same command.
  lemma RootOpenWhileUsed(P: nat, s: State, w: nat)
    requires 0 < P && Reachable(P, s) && w < |s.workers| && s.workers[w].work.Removing?
    ensures var i := s.workers[w].work.cmd;
      && i < |s.callers| && s.callers[i].pc.BatchAwait?
      && forall v :: 0 <= v < |s.workers| && v != w && s.workers[v].work.Removing? ==> s.workers[v].work.cmd != i
  {
    ReachableInv(P, s);
    assert WorkerOk(s, w);
    forall v | 0 <= v < |s.workers| && v != w && s.workers[v].work.Removing? ensures s.workers[v].work.cmd != s.workers[w].work.cmd {
      assert WorkerOk(s, v);
    }
  }

  // Once a stop closure has returned, no worker of its pool removes anything.
  lemma NothingRemovedAfterStop(P: nat, s: State, i: nat, w: nat)
    requires 0 < P && Reachable(P, s) && i < |s.callers| && s.callers[i].pc.StopDone?
    requires w < |s.workers| && s.workers[w].gen == s.callers[i].pc.g
    ensures s.workers[w].work.Exited? && !Enabled(P, s, WorkerRemoves(w)) && !Enabled(P, s, WorkerTakes(w))
  {
    ReachableInv(P, s);
    assert CallerOk(P, s, i) && GenOk(s, s.callers[i].pc.g);
  }

  // ---- Progress ----

  predicate Returned(pc: Pc) { pc.StartDone? || pc.BatchDone? || pc.StopDone? }

  // A worker whose queue has an entry, or whose channel is closed, can move.
  lemma WorkerMoves(P: nat, s: State, w: nat) returns (t: Step)
    requires Inv(P, s) && w < |s.workers| && !s.workers[w].work.Exited?
    requires s.workers[w].gen < |s.gens| && (s.gens[s.workers[w].gen].queue != [] || s.gens[s.workers[w].gen].closed)
    ensures !t.Arrive? && Enabled(P, s, t)
  {
    var g := s.workers[w].gen;
    assert WorkerOk(s, w) && QueueOk(P, s, g);
    match s.workers[w].work
    case Removing(_, left) => t := if left > 0 then WorkerRemoves(w) else WorkerReplies(w);
    case Idle => t := if s.gens[g].queue != [] then WorkerTakes(w) else WorkerExits(w);
  }

  // A queued command can advance: its starter is still spawning, or a worker can move.
  lemma QueueMoves(P: nat, s: State, g: nat) returns (t: Step)
    requires 0 < P && Inv(P, s) && g < |s.gens| && s.jobs == Some(g) && s.gens[g].queue != []
    ensures !t.Arrive? && Enabled(P, s, t)
  {
    assert GenOk(s, g);
    if s.gens[g].first.None? {
      assert CallerOk(P, s, s.gens[g].starter);
      t := StartSpawns(s.gens[g].starter);
    } else {
      assert WorkerOk(s, s.gens[g].first.value);
      t := WorkerMoves(P, s, s.gens[g].first.value);
    }
  }

  // A removeBatch that holds the read lock can move, or the pool can on its behalf.
  lemma ReaderMoves(P: nat, s: State, i: nat) returns (t: Step)
    requires 0 < P && Inv(P, s) && i < |s.callers| && HoldsRLock(s.callers[i].pc)
    ensures !t.Arrive? && Enabled(P, s, t)
  {
    assert CallerOk(P, s, i);
    match s.callers[i].pc
    case BatchCheck => t := BatchChecks(i);
    case BatchOpen(_) => t := BatchOpens(i, true);
    case BatchSend(g) =>
      if |s.gens[g].queue| < P { t := BatchSends(i); } else { t := QueueMoves(P, s, g); }
    case BatchAwait(g, at) =>
      match at {
        case Replied => t := BatchReceives(i);
        case Queued => t := QueueMoves(P, s, g);
        case AtWorker(w) => t := if s.workers[w].work.left > 0 then WorkerRemoves(w) else WorkerReplies(w);
      }
    case BatchClose(_) => t := BatchCloses(i);
    case BatchUnlock(_) => t := BatchLeaves(i);
  }

  // Whoever holds or awaits the mutex is not stuck.
  lemma LockMoves(P: nat, s: State) returns (t: Step)
    requires 0 < P && Inv(P, s) && s.lock != Free
    ensures !t.Arrive? && Enabled(P, s, t)
  {
    var i := s.lock.owner;
    assert CallerOk(P, s, i);
    if s.lock.Held? {
      t := if s.callers[i].pc.StartCheck? then StartInstalls(i) else StopCloses(i);
    } else if s.readers != {} {
      var r :| r in s.readers;
      t := ReaderMoves(P, s, r);
    } else {
      t := if s.callers[i].pc.StartWait? then StartAcquires(i) else StopAcquires(i);
    }
  }

  // A stop closure that is draining its pool is not stuck.
  lemma DrainMoves(P: nat, s: State, i: nat) returns (t: Step)
    requires 0 < P && Inv(P, s) && i < |s.callers| && s.callers[i].pc.StopDrain?
    ensures !t.Arrive? && Enabled(P, s, t)
  {
    var g := s.callers[i].pc.g;
    assert CallerOk(P, s, i);
    if w :| 0 <= w < |s.workers| && s.workers[w].gen == g && !s.workers[w].work.Exited? {
      t := WorkerMoves(P, s, w);
    } else {
      t := StopDrains(i);
    }
  }

  // Deadlock freedom: while any call has not returned, some step other than a new
  // arrival is possible.
  lemma NeverStuck(P: nat, s: State, i: nat) returns (t: Step)
    requires 0 < P && Inv(P, s) && i < |s.callers| && !Returned(s.callers[i].pc)
    ensures !t.Arrive? && Enabled(P, s, t)
  {
    assert CallerOk(P, s, i);
    match s.callers[i].pc
    case StartLock => if s.lock == Free { t := StartWants(i); } else { t := LockMoves(P, s); }
    case BatchLock => if s.lock == Free { t := BatchEnters(i); } else { t := LockMoves(P, s); }
    case StopLock(_) => if s.lock == Free { t := StopWants(i); } else { t := LockMoves(P, s); }
    case StartWait => t := LockMoves(P, s);
    case StartCheck => t := StartInstalls(i);
    case StartSpawn(_, _) => t := StartSpawns(i);
    case StopWait(_) => t := LockMoves(P, s);
    case StopClose(_) => t := StopCloses(i);
    case StopDrain(_) => t := DrainMoves(P, s, i);
    case StopOnce(g) =>
      if s.gens[g].once.Running? {
        assert GenOk(s, g);
        var j := s.gens[g].once.owner;
        match s.callers[j].pc {
          case StopLock(_) => if s.lock == Free { t := StopWants(j); } else { t := LockMoves(P, s); }
          case StopWait(_) => t := LockMoves(P, s);
          case StopClose(_) => t := StopCloses(j);
          case StopDrain(_) => t := DrainMoves(P, s, j);
        }
      } else {
        t := StopEnters(i);
      }
    case _ => t := ReaderMoves(P, s, i);
  }

  // ---- Termination ----

  // Steps a caller still has to take, counting the work it will give to a worker.
  function CallerWeight(P: nat, c: Caller): nat
  {
    match c.pc
    case StartLock => 2 * P + 4
    case StartWait => 2 * P + 3
    case StartCheck => 2 * P + 2
    case StartSpawn(_, left) => 2 * left + 1
    case BatchLock => c.n + 9
    case BatchCheck => c.n + 8
    case BatchOpen(_) => c.n + 7
    case BatchSend(_) => c.n + 6
    case BatchAwait(_, at) => if at.Queued? then c.n + 5 else 3
    case BatchClose(_) => 2
    case BatchUnlock(_) => 1
    case StopOnce(_) => 5
    case StopLock(_) => 4
    case StopWait(_) => 3
    case StopClose(_) => 2
    case StopDrain(_) => 1
    case _ => 0
  }

  function WorkerWeight(w: Worker): nat
  {
    match w.work
    case Idle => 1
    case Removing(_, left) => left + 2
    case Exited => 0
  }

  function CallersWeight(P: nat, cs: seq<Caller>): nat
  {
    if cs == [] then 0 else CallerWeight(P, cs[0]) + CallersWeight(P, cs[1..])
  }

  function WorkersWeight(ws: seq<Worker>): nat
  {
    if ws == [] then 0 else WorkerWeight(ws[0]) + WorkersWeight(ws[1..])
  }

  function Measure(P: nat, s: State): nat { CallersWeight(P, s.callers) + WorkersWeight(s.workers) }

  lemma {:induction false} CallerMoved(P: nat, cs: seq<Caller>, i: nat, c: Caller)
    requires i < |cs|
    ensures CallersWeight(P, cs[i := c]) == CallersWeight(P, cs) - CallerWeight(P, cs[i]) + CallerWeight(P, c)
  {
    if i > 0 {
      assert cs[i := c][1..] == cs[1..][i - 1 := c];
      CallerMoved(P, cs[1..], i - 1, c);
    } else {
      assert cs[i := c][1..] == cs[1..];
    }
  }

  lemma {:induction false} WorkerMoved(ws: seq<Worker>, i: nat, w: Worker)
    requires i < |ws|
    ensures WorkersWeight(ws[i := w]) == WorkersWeight(ws) - WorkerWeight(ws[i]) + WorkerWeight(w)
  {
    if i > 0 {
      assert ws[i := w][1..] == ws[1..][i - 1 := w];
      WorkerMoved(ws[1..], i - 1, w);
    } else {
      assert ws[i := w][1..] == ws[1..];
    }
  }

  lemma {:induction false} CallerAdded(P: nat, cs: seq<Caller>, c: Caller)
    ensures CallersWeight(P, cs + [c]) == CallersWeight(P, cs) + CallerWeight(P, c)
  {
    if cs == [] {
      assert cs + [c] == [c] && [c][1..] == [];
    } else {
      assert (cs + [c])[1..] == cs[1..] + [c];
      CallerAdded(P, cs[1..], c);
    }
  }

  lemma {:induction false} WorkerAdded(ws: seq<Worker>, w: Worker)
    ensures WorkersWeight(ws + [w]) == WorkersWeight(ws) + WorkerWeight(w)
  {
    if ws == [] {
      assert ws + [w] == [w] && [w][1..] == [];
    } else {
      assert (ws + [w])[1..] == ws[1..] + [w];
      WorkerAdded(ws[1..], w);
    }
  }

  // One worker changes, and the caller whose command it takes or answers.
  lemma WorkerIsLess(P: nat, s: State, s': State, w: nat, i: nat)
    requires w < |s.workers| == |s'.workers| && s'.workers == s.workers[w := s'.workers[w]]
    requires i < |s.callers| == |s'.callers| && s'.callers == s.callers[i := s'.callers[i]]
    requires WorkerWeight(s'.workers[w]) + CallerWeight(P, s'.callers[i]) < WorkerWeight(s.workers[w]) + CallerWeight(P, s.callers[i])
    ensures Measure(P, s') < Measure(P, s)
  {
    WorkerMoved(s.workers, w, s'.workers[w]);
    CallerMoved(P, s.callers, i, s'.callers[i]);
  }

  // A worker that takes a command or answers it passes its weight on, less one.
  lemma WorkerServesDecreases(P: nat, s: State, t: Step)
    requires Inv(P, s) && Enabled(P, s, t) && (t.WorkerTakes? || t.WorkerReplies?)
    ensures Measure(P, Apply(P, s, t)) < Measure(P, s)
  {
    var w, g := t.w, s.workers[t.w].gen;
    assert WorkerOk(s, w) && QueueOk(P, s, g);
    WorkerIsLess(P, s, Apply(P, s, t), w, if t.WorkerTakes? then s.gens[g].queue[0] else s.workers[w].work.cmd);
  }

  // A step of a worker uses up one unit of the measure.
  lemma WorkerStepDecreases(P: nat, s: State, t: Step)
    requires Inv(P, s) && Enabled(P, s, t) && (t.WorkerTakes? || t.WorkerReplies? || t.WorkerRemoves? || t.WorkerExits?)
    ensures Measure(P, Apply(P, s, t)) < Measure(P, s)
  {
    if t.WorkerTakes? || t.WorkerReplies? {
      WorkerServesDecreases(P, s, t);
    } else {
      WorkerMoved(s.workers, t.w, Apply(P, s, t).workers[t.w]);
    }
  }

  // So does a step of Start.
  lemma StartStepDecreases(P: nat, s: State, t: Step)
    requires 0 < P && Inv(P, s) && Enabled(P, s, t)
    requires t.StartWants? || t.StartAcquires? || t.StartInstalls? || t.StartSpawns?
    ensures Measure(P, Apply(P, s, t)) < Measure(P, s)
  {
    assert CallerOk(P, s, t.i);
    CallerMoved(P, s.callers, t.i, Apply(P, s, t).callers[t.i]);
    if t.StartSpawns? { WorkerAdded(s.workers, Worker(s.callers[t.i].pc.g, Idle)); }
  }

  // One caller moves on to a lighter place; nothing else changes weight.
  predicate Lightens(P: nat, s: State, s': State, i: nat)
  {
    && i < |s.callers| && s'.workers == s.workers
    && i < |s'.callers| && s'.callers == s.callers[i := s'.callers[i]]
    && CallerWeight(P, s'.callers[i]) < CallerWeight(P, s.callers[i])
  }

  lemma LighterIsLess(P: nat, s: State, s': State, i: nat)
    requires Lightens(P, s, s', i)
    ensures Measure(P, s') < Measure(P, s)
  {
    CallerMoved(P, s.callers, i, s'.callers[i]);
  }

  // Steps of removeBatch are like that, and so are steps of a stop closure.
  lemma StopStepLightens(P: nat, s: State, t: Step)
    requires 0 < P && Enabled(P, s, t)
    requires t.StopEnters? || t.StopWants? || t.StopAcquires? || t.StopCloses? || t.StopDrains?
    ensures Lightens(P, s, Apply(P, s, t), t.i)
  {
  }

  // Every step other than an arrival uses up at least one unit of the measure, and an
  // arrival adds only its own.
  lemma StepDecreases(P: nat, s: State, t: Step)
    requires 0 < P && Inv(P, s) && Enabled(P, s, t)
    ensures t.Arrive? ==> Measure(P, Apply(P, s, t)) == Measure(P, s) + CallerWeight(P, t.caller)
    ensures !t.Arrive? ==> Measure(P, Apply(P, s, t)) < Measure(P, s)
  {
    if t.Arrive? {
      CallerAdded(P, s.callers, t.caller);
    } else if t.WorkerTakes? || t.WorkerReplies? || t.WorkerRemoves? || t.WorkerExits? {
      WorkerStepDecreases(P, s, t);
    } else if t.StartWants? || t.StartAcquires? || t.StartInstalls? || t.StartSpawns? {
      StartStepDecreases(P, s, t);
    } else if t.StopEnters? || t.StopWants? || t.StopAcquires? || t.StopCloses? || t.StopDrains? {
      StopStepLightens(P, s, t);
      LighterIsLess(P, s, Apply(P, s, t), t.i);
    } else {
      LighterIsLess(P, s, Apply(P, s, t), t.i);
    }
  }

  // Steps of the run that are not arrivals.
  function Moves(run: seq<Step>): nat
  {
    if run == [] then 0 else (if run[0].Arrive? then 0 else 1) + Moves(run[1..])
  }

  // What the run's arrivals add to the measure.
  function Offered(P: nat, run: seq<Step>): nat
  {
    if run == [] then 0 else (if run[0].Arrive? then CallerWeight(P, run[0].caller) else 0) + Offered(P, run[1..])
  }

  // Termination: in every run, the calls that arrived bound the number of steps taken
  // for them, whatever the schedule.
  lemma {:induction false} MovesAreBounded(P: nat, s: State, run: seq<Step>)
    requires 0 < P && Inv(P, s) && Possible(P, s, run)
    ensures Moves(run) + Measure(P, After(P, s, run)) <= Measure(P, s) + Offered(P, run)
    decreases |run|
  {
    if run != [] {
      StepDecreases(P, s, run[0]);
      StepKeepsInv(P, s, run[0]);
      MovesAreBounded(P, Apply(P, s, run[0]), run[1..]);
    }
  }

  // Together with NeverStuck: in a run that has gone as far as it can without new
  // arrivals, every removeBatch, Start and stop has returned, after boundedly many steps.
  lemma EveryCallReturns(P: nat, run: seq<Step>)
    requires 0 < P && Possible(P, INIT, run)
    requires forall t: Step :: !t.Arrive? ==> !Enabled(P, After(P, INIT, run), t)
    ensures Moves(run) <= Offered(P, run)
    ensures forall i :: 0 <= i < |After(P, INIT, run).callers| ==> Returned(After(P, INIT, run).callers[i].pc)
  {
    MovesAreBounded(P, INIT, run);
    RunKeepsInv(P, INIT, run);
    var s := After(P, INIT, run);
    forall i | 0 <= i < |s.callers| ensures Returned(s.callers[i].pc) {
      if !Returned(s.callers[i].pc) { var t := NeverStuck(P, s, i); }
    }
  }
}
