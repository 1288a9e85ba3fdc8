/** Threads that register codecs at the same time: `GetCodecManager` tests the
    variable without a lock and then relies on `sync.Once`; `RegisterCodec` runs
    under the manager's mutex.  A state is advanced one atomic step of one
    thread at a time, in any order a schedule picks. */
module Concurrency {
  import opened Options
  import opened Messages
  import opened Layouts
  import opened Registry
  import opened Frames

  datatype Once = Fresh | Running(t: nat) | Done

  /** What a thread does next, on its way through
      `GetCodecManager().RegisterCodec(...)`. */
  datatype Pc =
    | Start  // test the manager variable against nil
    | EnterOnce  // it was nil: call `once.Do`
    | Create  // inside `once.Do`: create the manager and assign the variable
    | LeaveOnce  // inside `once.Do`: return from it
    | Return  // read the variable and return it
    | Lock(receiver: Option<nat>)  // lock the mutex of the manager returned
    | ReadTable(m: nat)  // read the inner map out of the outer one
    | TestTable(m: nat, found: Option<nat>)  // create and store the inner map if it was nil
    | Insert(m: nat, table: nat)  // insert the codec
    | Unlock(m: nat)  // unlock and return
  {
    predicate Critical() {
      ReadTable? || TestTable? || Insert? || Unlock?
    }
  }

  /** `script` is what the thread registers, `done` how much of it is completed. */
  datatype Thread = Thread(script: seq<Registration>, done: nat, pc: Pc)

  datatype Entry = Entry(thread: nat, registration: Registration)

  /** Managers and inner maps are objects, known by their index in the state.
      `order` records the registrations in the order their calls got the lock. */
  datatype Manager = Manager(owner: Option<nat>, codecMap: map<CodecType, nat>, order: seq<Entry>)

  datatype State = State(
    codecManager: Option<nat>,
    once: Once,
    managers: seq<Manager>,
    tables: seq<map<MessageType, Codec>>,
    threads: seq<Thread>)

  function Initial(scripts: seq<seq<Registration>>): State {
    State(None, Fresh, [], [], seq(|scripts|, i requires 0 <= i < |scripts| => Thread(scripts[i], 0, Start)))
  }

  function Goto(s: State, t: nat, pc: Pc): State
    requires t < |s.threads|
  {
    s.(threads := s.threads[t := s.threads[t].(pc := pc)])
  }

  function SetManager(s: State, m: nat, manager: Manager): State
    requires m < |s.managers|
  {
    s.(managers := s.managers[m := manager])
  }

  /** One atomic step of thread `t`; a thread that is blocked or has finished stays put. */
  function Step(s: State, t: nat): State
    requires t < |s.threads|
  {
    var th := s.threads[t];
    if th.done >= |th.script| then s
    else
      var r := th.script[th.done];
      match th.pc
      case Start => Goto(s, t, if s.codecManager.None? then EnterOnce else Return)
      case EnterOnce =>
        (match s.once
         case Fresh => Goto(s.(once := Running(t)), t, Create)
         case Running(_) => s
         case Done => Goto(s, t, Return))
      case Create =>
        Goto(s.(managers := s.managers + [Manager(None, map[], [])], codecManager := Some(|s.managers|)), t, LeaveOnce)
      case LeaveOnce => Goto(s.(once := Done), t, Return)
      case Return => Goto(s, t, Lock(s.codecManager))
      case Lock(receiver) =>
        if receiver.None? || receiver.value >= |s.managers| || s.managers[receiver.value].owner.Some? then s
        else
          var manager := s.managers[receiver.value];
          var locked := manager.(owner := Some(t), order := manager.order + [Entry(t, r)]);
          Goto(SetManager(s, receiver.value, locked), t, ReadTable(receiver.value))
      case ReadTable(m) =>
        if m >= |s.managers| then s
        else
          var codecMap := s.managers[m].codecMap;
          Goto(s, t, TestTable(m, if r.codecType in codecMap then Some(codecMap[r.codecType]) else None))
      case TestTable(m, found) =>
        if m >= |s.managers| then s
        else if found.Some? then Goto(s, t, Insert(m, found.value))
        else
          var manager := s.managers[m];
          var created := |s.tables|;
          var stored := manager.(codecMap := manager.codecMap[r.codecType := created]);
          Goto(SetManager(s.(tables := s.tables + [map[]]), m, stored), t, Insert(m, created))
      case Insert(m, table) =>
        if table >= |s.tables| then s
        else
          var filled := s.tables[table][r.codec.GetMessageType() := r.codec];
          Goto(s.(tables := s.tables[table := filled]), t, Unlock(m))
      case Unlock(m) =>
        if m >= |s.managers| then s
        else
          var freed := SetManager(s, m, s.managers[m].(owner := None));
          freed.(threads := s.threads[t := th.(done := th.done + 1, pc := Start)])
  }

  /** Run the threads that the schedule names, one step each. */
  function Run(s: State, schedule: seq<nat>): State {
    if schedule == [] then s
    else
      var before := Run(s, schedule[..|schedule| - 1]);
      var t := schedule[|schedule| - 1];
      if t < |before.threads| then Step(before, t) else before
  }

  // ----- What every state keeps -----

  function Order(s: State): seq<Entry> {
    if s.managers == [] then [] else s.managers[0].order
  }

  function Log(order: seq<Entry>): seq<Registration> {
    seq(|order|, i requires 0 <= i < |order| => order[i].registration)
  }

  /** The registrations of thread `t`, in the order it got the lock. */
  function Of(order: seq<Entry>, t: nat): seq<Registration> {
    if order == [] then []
    else
      var e := order[|order| - 1];
      Of(order[..|order| - 1], t) + if e.thread == t then [e.registration] else []
  }

  function Lookup(s: State, ct: CodecType, mt: MessageType): Option<Codec> {
    if s.managers == [] || ct !in s.managers[0].codecMap then None
    else
      var table := s.managers[0].codecMap[ct];
      if table < |s.tables| && mt in s.tables[table] then Some(s.tables[table][mt]) else None
  }

  /** The thread that holds the lock has not inserted its codec yet. */
  predicate Pending(s: State) {
    && s.managers != []
    && s.managers[0].owner.Some?
    && s.managers[0].owner.value < |s.threads|
    && !s.threads[s.managers[0].owner.value].pc.Unlock?
  }

  /** The registrations that have taken effect, in lock order. */
  function Effective(s: State): seq<Registration> {
    var log := Log(Order(s));
    if Pending(s) && log != [] then log[..|log| - 1] else log
  }

  /** At most one manager, and the variable points to it once it exists. */
  predicate OneManager(s: State) {
    && |s.managers| <= 1
    && s.codecManager == (if s.managers == [] then None else Some(0))
    && match s.once
       case Fresh => s.managers == []
       case Running(t) =>
         && t < |s.threads|
         && (s.threads[t].pc.Create? || s.threads[t].pc.LeaveOnce?)
         && (s.threads[t].pc.Create? <==> s.managers == [])
       case Done => s.managers != []
  }

  predicate ThreadOk(s: State, t: nat)
    requires t < |s.threads|
  {
    var th := s.threads[t];
    && th.done <= |th.script|
    && (!th.pc.Start? ==> th.done < |th.script|)
    && Of(Order(s), t) == th.script[..th.done + if th.pc.Critical() && th.done < |th.script| then 1 else 0]
    && (th.pc.Critical() ==>
          s.managers != [] && s.managers[0].owner == Some(t)
          && Order(s) != [] && Order(s)[|Order(s)| - 1] == Entry(t, th.script[th.done]))
    && match th.pc
       case Create => s.once == Running(t)
       case LeaveOnce => s.once == Running(t)
       case Return => s.managers != []
       case Lock(receiver) => s.managers != [] && receiver == Some(0)
       case ReadTable(m) => m == 0
       case TestTable(m, found) =>
         var ct := th.script[th.done].codecType;
         m == 0
         && found == if ct in s.managers[0].codecMap then Some(s.managers[0].codecMap[ct]) else None
       case Insert(m, table) =>
         var ct := th.script[th.done].codecType;
         m == 0 && ct in s.managers[0].codecMap && s.managers[0].codecMap[ct] == table
       case Unlock(m) => m == 0
       case _ => true
  }

  /** Inner maps exist and are not shared; the lock is held from inside only. */
  predicate RegistryOk(s: State) {
    s.managers != [] ==>
      var manager := s.managers[0];
      && (forall ct <- manager.codecMap :: manager.codecMap[ct] < |s.tables|)
      && (forall a <- manager.codecMap, b <- manager.codecMap ::
            a != b ==> manager.codecMap[a] != manager.codecMap[b])
      && (manager.owner.Some? ==>
            manager.owner.value < |s.threads| && s.threads[manager.owner.value].pc.Critical())
      && (forall i :: 0 <= i < |manager.order| ==> manager.order[i].thread < |s.threads|)
  }

  /** The registry holds what the effective registrations leave, key by key. */
  ghost predicate Refines(s: State) {
    forall ct, mt :: Lookup(s, ct, mt) == LastRegistered(Effective(s), ct, mt)
  }

  ghost predicate Inv(s: State) {
    && OneManager(s)
    && RegistryOk(s)
    && (forall t :: 0 <= t < |s.threads| ==> ThreadOk(s, t))
    && Refines(s)
  }

  lemma InitialInv(scripts: seq<seq<Registration>>)
    ensures Inv(Initial(scripts))
  {
  }

  lemma OfSnoc(order: seq<Entry>, e: Entry, t: nat)
    ensures Of(order + [e], t) == Of(order, t) + if e.thread == t then [e.registration] else []
  {
    assert (order + [e])[..|order|] == order;
  }

  predicate At(s: State, t: nat) {
    t < |s.threads| && s.threads[t].done < |s.threads[t].script|
  }

  lemma StepStart(s: State, t: nat)
    requires Inv(s) && At(s, t) && s.threads[t].pc.Start?
    ensures Inv(Step(s, t))
  {
    hide LastRegistered, Of;
    var s' := Step(s, t);
    assert Effective(s') == Effective(s);
    forall u | 0 <= u < |s'.threads| ensures ThreadOk(s', u) {
      assert ThreadOk(s, u);
    }
  }

  lemma StepEnterOnce(s: State, t: nat)
    requires Inv(s) && At(s, t) && s.threads[t].pc.EnterOnce?
    ensures Inv(Step(s, t))
  {
    hide LastRegistered, Of;
    var s' := Step(s, t);
    assert Effective(s') == Effective(s);
    forall u | 0 <= u < |s'.threads| ensures ThreadOk(s', u) {
      assert ThreadOk(s, u);
    }
  }

  lemma StepCreate(s: State, t: nat)
    requires Inv(s) && At(s, t) && s.threads[t].pc.Create?
    ensures Inv(Step(s, t))
  {
    assert ThreadOk(s, t);
    var s' := Step(s, t);
    forall u | 0 <= u < |s'.threads| ensures ThreadOk(s', u) {
      assert ThreadOk(s, u);
    }
  }

  lemma StepLeaveOnce(s: State, t: nat)
    requires Inv(s) && At(s, t) && s.threads[t].pc.LeaveOnce?
    ensures Inv(Step(s, t))
  {
    hide LastRegistered, Of;
    assert ThreadOk(s, t);
    var s' := Step(s, t);
    assert Effective(s') == Effective(s);
    forall u | 0 <= u < |s'.threads| ensures ThreadOk(s', u) {
      assert ThreadOk(s, u);
    }
  }

  lemma StepReturn(s: State, t: nat)
    requires Inv(s) && At(s, t) && s.threads[t].pc.Return?
    ensures Inv(Step(s, t))
  {
    hide LastRegistered, Of;
    assert ThreadOk(s, t);
    var s' := Step(s, t);
    assert Effective(s') == Effective(s);
    forall u | 0 <= u < |s'.threads| ensures ThreadOk(s', u) {
      assert ThreadOk(s, u);
    }
  }

  /** The state in which thread `t` has just locked the mutex. */
  predicate Locks(s: State, t: nat) {
    && At(s, t)
    && s.threads[t].pc.Lock?
    && s.managers != []
    && s.managers[0].owner.None?
  }

  lemma StepLock(s: State, t: nat)
    requires Inv(s) && At(s, t) && s.threads[t].pc.Lock?
    ensures Inv(Step(s, t))
  {
    assert ThreadOk(s, t);
    if Locks(s, t) {
      LockEffective(s, t);
      LockRegistry(s, t);
      forall u | 0 <= u < |s.threads| ensures ThreadOk(Step(s, t), u) {
        LockThread(s, t, u);
      }
    }
  }

  lemma LockOrder(s: State, t: nat)
    requires Inv(s) && Locks(s, t)
    ensures Order(Step(s, t)) == Order(s) + [Entry(t, s.threads[t].script[s.threads[t].done])]
  {
    assert ThreadOk(s, t);
  }

  lemma LockEffective(s: State, t: nat)
    requires Inv(s) && Locks(s, t)
    ensures Effective(Step(s, t)) == Effective(s) == Log(Order(s))
    ensures Refines(Step(s, t))
  {
    hide LastRegistered, Of;
    assert ThreadOk(s, t);
    LockOrder(s, t);
    assert Log(Order(Step(s, t)))[..|Order(s)|] == Log(Order(s));
    forall ct, mt ensures Lookup(Step(s, t), ct, mt) == Lookup(s, ct, mt) {
    }
  }

  lemma LockRegistry(s: State, t: nat)
    requires Inv(s) && Locks(s, t)
    ensures OneManager(Step(s, t)) && RegistryOk(Step(s, t))
  {
    hide LastRegistered, Of;
    assert ThreadOk(s, t);
  }

  lemma LockThread(s: State, t: nat, u: nat)
    requires Inv(s) && Locks(s, t) && u < |s.threads|
    ensures ThreadOk(Step(s, t), u)
  {
    hide LastRegistered, Of, Log;
    assert ThreadOk(s, t) && ThreadOk(s, u);
    LockOrder(s, t);
    OfSnoc(Order(s), Entry(t, s.threads[t].script[s.threads[t].done]), u);
  }

  lemma StepReadTable(s: State, t: nat)
    requires Inv(s) && At(s, t) && s.threads[t].pc.ReadTable?
    ensures Inv(Step(s, t))
  {
    hide LastRegistered, Of;
    assert ThreadOk(s, t);
    var s' := Step(s, t);
    assert Effective(s') == Effective(s);
    forall u | 0 <= u < |s'.threads| ensures ThreadOk(s', u) {
      assert ThreadOk(s, u);
    }
  }

  lemma StepTestTable(s: State, t: nat)
    requires Inv(s) && At(s, t) && s.threads[t].pc.TestTable?
    ensures Inv(Step(s, t))
  {
    hide LastRegistered, Of, RegistryOk, Refines;
    TestTableRegistry(s, t);
    forall u | 0 <= u < |s.threads| ensures ThreadOk(Step(s, t), u) {
      TestTableThread(s, t, u);
    }
  }

  lemma TestTableRegistry(s: State, t: nat)
    requires Inv(s) && At(s, t) && s.threads[t].pc.TestTable?
    ensures OneManager(Step(s, t)) && RegistryOk(Step(s, t)) && Refines(Step(s, t))
  {
    hide LastRegistered, Of;
    assert ThreadOk(s, t);
    var s' := Step(s, t);
    assert Effective(s') == Effective(s);
    forall ct, mt ensures Lookup(s', ct, mt) == Lookup(s, ct, mt) {
    }
  }

  lemma TestTableThread(s: State, t: nat, u: nat)
    requires Inv(s) && At(s, t) && s.threads[t].pc.TestTable? && u < |s.threads|
    ensures ThreadOk(Step(s, t), u)
  {
    hide LastRegistered, Of, Refines;
    assert ThreadOk(s, t) && ThreadOk(s, u);
  }

  lemma StepInsert(s: State, t: nat)
    requires Inv(s) && At(s, t) && s.threads[t].pc.Insert?
    ensures Inv(Step(s, t))
  {
    hide LastRegistered, Of;
    assert ThreadOk(s, t);
    var s' := Step(s, t);
    var r := s.threads[t].script[s.threads[t].done];
    assert Effective(s') == Effective(s) + [r];
    forall u | 0 <= u < |s'.threads| ensures ThreadOk(s', u) {
      assert ThreadOk(s, u);
    }
    forall ct, mt ensures Lookup(s', ct, mt) == LastRegistered(Effective(s'), ct, mt) {
      LastRegisteredSnoc(Effective(s), r, ct, mt);
      assert Lookup(s, ct, mt) == LastRegistered(Effective(s), ct, mt);
    }
  }

  lemma StepUnlock(s: State, t: nat)
    requires Inv(s) && At(s, t) && s.threads[t].pc.Unlock?
    ensures Inv(Step(s, t))
  {
    hide LastRegistered, Of;
    assert ThreadOk(s, t);
    var s' := Step(s, t);
    assert Effective(s') == Effective(s);
    forall u | 0 <= u < |s'.threads| ensures ThreadOk(s', u) {
      assert ThreadOk(s, u);
    }
  }

  /** Every atomic step of every thread keeps the invariant. */
  lemma StepInv(s: State, t: nat)
    requires Inv(s) && t < |s.threads|
    ensures Inv(Step(s, t))
  {
    if At(s, t) {
      match s.threads[t].pc
      case Start => StepStart(s, t);
      case EnterOnce => StepEnterOnce(s, t);
      case Create => StepCreate(s, t);
      case LeaveOnce => StepLeaveOnce(s, t);
      case Return => StepReturn(s, t);
      case Lock(_) => StepLock(s, t);
      case ReadTable(_) => StepReadTable(s, t);
      case TestTable(_, _) => StepTestTable(s, t);
      case Insert(_, _) => StepInsert(s, t);
      case Unlock(_) => StepUnlock(s, t);
    }
  }

  lemma StepMovesOne(s: State, t: nat)
    requires t < |s.threads|
    ensures |Step(s, t).threads| == |s.threads| && Step(s, t).threads[t].script == s.threads[t].script
    ensures Step(s, t).threads == s.threads[t := Step(s, t).threads[t]]
  {
  }

  lemma StepKeepsScripts(s: State, t: nat)
    requires t < |s.threads|
    ensures |Step(s, t).threads| == |s.threads|
    ensures forall u :: 0 <= u < |s.threads| ==> Step(s, t).threads[u].script == s.threads[u].script
  {
    hide Step;
    StepMovesOne(s, t);
  }

  /** Every state of every run, whatever the threads register and however they
      interleave. */
  lemma {:induction false} RunInv(s: State, schedule: seq<nat>)
    requires Inv(s)
    ensures Inv(Run(s, schedule))
  {
    if schedule != [] {
      var before, t := Run(s, schedule[..|schedule| - 1]), schedule[|schedule| - 1];
      RunInv(s, schedule[..|schedule| - 1]);
      if t < |before.threads| {
        StepInv(before, t);
      }
    }
  }

  lemma {:induction false} RunKeepsScripts(s: State, schedule: seq<nat>)
    ensures |Run(s, schedule).threads| == |s.threads|
    ensures forall u :: 0 <= u < |s.threads| ==> Run(s, schedule).threads[u].script == s.threads[u].script
  {
    if schedule != [] {
      var before, t := Run(s, schedule[..|schedule| - 1]), schedule[|schedule| - 1];
      RunKeepsScripts(s, schedule[..|schedule| - 1]);
      if t < |before.threads| {
        StepKeepsScripts(before, t);
      }
    }
  }

  // ----- What that means -----

  /** In any run at most one manager is created, and every call of
      `GetCodecManager` that has returned gave that manager, never nil. */
  lemma OneManagerEver(scripts: seq<seq<Registration>>, schedule: seq<nat>, t: nat)
    requires t < |Run(Initial(scripts), schedule).threads|
    ensures var s := Run(Initial(scripts), schedule);
            && |s.managers| <= 1
            && (s.threads[t].pc.Lock? ==> |s.managers| == 1 && s.threads[t].pc.receiver == Some(0) == s.codecManager)
  {
    InitialInv(scripts);
    RunInv(Initial(scripts), schedule);
    assert ThreadOk(Run(Initial(scripts), schedule), t);
  }

  /** Two threads are never inside `RegisterCodec` together. */
  lemma MutualExclusion(scripts: seq<seq<Registration>>, schedule: seq<nat>, t: nat, u: nat)
    requires var s := Run(Initial(scripts), schedule);
             t < |s.threads| && u < |s.threads| && s.threads[t].pc.Critical() && s.threads[u].pc.Critical()
    ensures t == u
  {
    InitialInv(scripts);
    RunInv(Initial(scripts), schedule);
    assert ThreadOk(Run(Initial(scripts), schedule), t) && ThreadOk(Run(Initial(scripts), schedule), u);
  }

  /** Whenever the lock is free, the registry is the outcome of all calls so far
      in lock order, and every thread's completed calls are among them, in its
      own order: no registration is lost. */
  lemma NoRegistrationLost(scripts: seq<seq<Registration>>, schedule: seq<nat>, ct: CodecType, mt: MessageType)
    requires var s := Run(Initial(scripts), schedule); s.managers != [] ==> s.managers[0].owner.None?
    ensures var s := Run(Initial(scripts), schedule);
            && |s.threads| == |scripts|
            && Lookup(s, ct, mt) == LastRegistered(Log(Order(s)), ct, mt)
            && forall t :: 0 <= t < |scripts| ==>
                 s.threads[t].done <= |scripts[t]| && Of(Order(s), t) == scripts[t][..s.threads[t].done]
    ensures var order := Order(Run(Initial(scripts), schedule));
            forall i :: 0 <= i < |order| ==> order[i].thread < |scripts|
  {
    var s := Run(Initial(scripts), schedule);
    InitialInv(scripts);
    RunInv(Initial(scripts), schedule);
    RunKeepsScripts(Initial(scripts), schedule);
    forall t | 0 <= t < |scripts|
      ensures s.threads[t].done <= |scripts[t]| && Of(Order(s), t) == scripts[t][..s.threads[t].done]
    {
      assert ThreadOk(s, t);
    }
  }

  // ----- Progress -----

  predicate Finished(s: State) {
    forall t :: 0 <= t < |s.threads| ==> s.threads[t].done == |s.threads[t].script|
  }

  function Rank(pc: Pc): nat {
    match pc
    case Start => 10
    case EnterOnce => 9
    case Create => 8
    case LeaveOnce => 7
    case Return => 6
    case Lock(_) => 5
    case ReadTable(_) => 4
    case TestTable(_, _) => 3
    case Insert(_, _) => 2
    case Unlock(_) => 1
  }

  /** The steps a thread has left. */
  function Work(th: Thread): nat {
    if th.done >= |th.script| then 0 else 10 * (|th.script| - th.done - 1) + Rank(th.pc)
  }

  function TotalWork(ths: seq<Thread>): nat {
    if ths == [] then 0 else Work(ths[0]) + TotalWork(ths[1..])
  }

  lemma {:induction false} LessWork(ths: seq<Thread>, t: nat, th: Thread)
    requires t < |ths| && Work(th) < Work(ths[t])
    ensures TotalWork(ths[t := th]) < TotalWork(ths)
  {
    if t == 0 {
      assert ths[t := th][1..] == ths[1..];
    } else {
      assert ths[t := th][1..] == ths[1..][t - 1 := th];
      LessWork(ths[1..], t - 1, th);
    }
  }

  /** Thread `t` is not waiting for another. */
  predicate CanStep(s: State, t: nat) {
    && At(s, t)
    && (s.threads[t].pc.EnterOnce? ==> !s.once.Running?)
    && (s.threads[t].pc.Lock? ==> s.managers != [] && s.managers[0].owner.None?)
  }

  lemma StepWorksAt(s: State, t: nat)
    requires Inv(s) && CanStep(s, t)
    ensures |Step(s, t).threads| == |s.threads| && Work(Step(s, t).threads[t]) < Work(s.threads[t])
  {
    hide LastRegistered, Of, Refines;
    assert ThreadOk(s, t);
  }

  lemma StepWorks(s: State, t: nat)
    requires Inv(s) && CanStep(s, t)
    ensures TotalWork(Step(s, t).threads) < TotalWork(s.threads)
  {
    hide Step, Inv, Work, TotalWork;
    StepWorksAt(s, t);
    StepMovesOne(s, t);
    LessWork(s.threads, t, Step(s, t).threads[t]);
  }

  /** No deadlock: until all is registered, some thread can go on. */
  lemma SomeThreadCanStep(s: State) returns (t: nat)
    requires Inv(s) && !Finished(s)
    ensures CanStep(s, t)
  {
    var u :| 0 <= u < |s.threads| && s.threads[u].done != |s.threads[u].script|;
    assert ThreadOk(s, u);
    if s.threads[u].pc.EnterOnce? && s.once.Running? {
      t := s.once.t;
    } else if s.threads[u].pc.Lock? && s.managers[0].owner.Some? {
      t := s.managers[0].owner.value;
    } else {
      t := u;
    }
    assert ThreadOk(s, t);
  }

  /** From every reachable state some schedule completes all registrations. */
  lemma {:induction false} CanFinish(s: State) returns (schedule: seq<nat>)
    requires Inv(s)
    ensures Finished(Run(s, schedule))
    decreases TotalWork(s.threads)
  {
    if Finished(s) {
      schedule := [];
    } else {
      var t := SomeThreadCanStep(s);
      StepInv(s, t);
      StepWorks(s, t);
      var later := CanFinish(Step(s, t));
      schedule := [t] + later;
      RunCons(s, t, later);
    }
  }

  lemma {:induction false} RunCons(s: State, t: nat, later: seq<nat>)
    requires t < |s.threads|
    ensures Run(s, [t] + later) == Run(Step(s, t), later)
  {
    if later == [] {
      assert [t] + later == [t];
      assert Run(s, [t][..0]) == s;
    } else {
      var n := |later| - 1;
      assert ([t] + later)[..|[t] + later| - 1] == [t] + later[..n];
      RunCons(s, t, later[..n]);
    }
  }

  // ----- Concurrent Init -----

  /** Every thread registers codecs that `Init` registers, and one of them all. */
  predicate InitScripts(scripts: seq<seq<Registration>>) {
    && (forall t, i :: 0 <= t < |scripts| && 0 <= i < |scripts[t]| ==> IsInitRegistration(scripts[t][i]))
    && (exists t :: 0 <= t < |scripts| && forall r :: r in InitLog() ==> r in scripts[t])
  }

  lemma {:induction false} OfMembers(order: seq<Entry>, t: nat, r: Registration)
    ensures r in Of(order, t) <==> Entry(t, r) in order
  {
    if order != [] {
      OfMembers(order[..|order| - 1], t, r);
      assert order == order[..|order| - 1] + [order[|order| - 1]];
    }
  }

  lemma FinishedIsFree(s: State)
    requires Inv(s) && Finished(s)
    ensures Effective(s) == Log(Order(s))
    ensures forall t :: 0 <= t < |s.threads| ==> Of(Order(s), t) == s.threads[t].script
  {
    forall t | 0 <= t < |s.threads| ensures Of(Order(s), t) == s.threads[t].script && s.threads[t].pc.Start? {
      assert ThreadOk(s, t);
    }
  }

  /** `Init` called by any number of threads at once ends as if called once. */
  lemma ConcurrentInit(scripts: seq<seq<Registration>>, schedule: seq<nat>)
    requires InitScripts(scripts) && Finished(Run(Initial(scripts), schedule))
    ensures var s := Run(Initial(scripts), schedule);
            Ready(Log(Order(s)))
            && forall ct, mt :: Lookup(s, ct, mt) == if ct == 0x1 then CodecFor(mt) else None
  {
    var s := Run(Initial(scripts), schedule);
    InitialInv(scripts);
    RunInv(Initial(scripts), schedule);
    RunKeepsScripts(Initial(scripts), schedule);
    FinishedIsFree(s);
    InitFromThreads(s, scripts);
    InitMakesReady(Log(Order(s)));
  }

  lemma InitFromThreads(s: State, scripts: seq<seq<Registration>>)
    requires Inv(s) && InitScripts(scripts) && |s.threads| == |scripts|
    requires forall t :: 0 <= t < |scripts| ==> Of(Order(s), t) == scripts[t]
    ensures SameRegistrationsAsInit(Log(Order(s)))
  {
    var order := Order(s);
    forall i | 0 <= i < |order| ensures IsInitRegistration(order[i].registration) {
      var t, r := order[i].thread, order[i].registration;
      OfMembers(order, t, r);
      assert r in scripts[t];
    }
    var t :| 0 <= t < |scripts| && forall r :: r in InitLog() ==> r in scripts[t];
    forall r | r in InitLog() ensures r in Log(order) {
      OfMembers(order, t, r);
      var i :| 0 <= i < |order| && order[i] == Entry(t, r);
      assert Log(order)[i] == r;
    }
  }

  /** So after concurrent `Init`, frames round-trip exactly when all strings fit. */
  lemma RoundTripAfterConcurrentInit(scripts: seq<seq<Registration>>, schedule: seq<nat>, m: Message)
    requires InitScripts(scripts) && Finished(Run(Initial(scripts), schedule)) && !m.GlobalReportRequest?
    ensures var log := Log(Order(Run(Initial(scripts), schedule)));
            && EncodeFrame(log, CODEC_TYPE_SEATA, m).Frame?
            && (DecodeFrame(log, CODEC_TYPE_SEATA, EncodeFrame(log, CODEC_TYPE_SEATA, m).bytes) == Received(Norm(m))
                <==> Fits(m))
  {
    ConcurrentInit(scripts, schedule);
    FrameRoundTripExact(Log(Order(Run(Initial(scripts), schedule))), m);
  }
}
