/** log.c: the start-up protocol of log_init and the daily rotation of log_write_impl, as interleaved
    atomic steps of any number of threads. */
module LogProtocols {

  const NEED_INIT: int := 0
  const INIT_ING: int := 1
  const HAS_INIT: int := 2

  const SPIN_LIMIT: int := 1000000

  /** Where a thread stands. An activity of a signal handler is a thread of its own with the same id. */
  datatype Pc =
    | Idle
    // log_init
    | Enter(config: seq<int>)
    | Copy(config: seq<int>, k: nat)
    | MakeDir(config: seq<int>)
    | Reset
    | Publish(config: seq<int>)
    | Wait
    | ReadPid
    | StorePid
    | StoreFork
    // log_write_impl
    | LoadFork(day: nat)
    | LoadId(day: nat, fork: bool)
    | TestInit(day: nat, id: int)
    | TestDay(day: nat, id: int)
    | Acquire(day: nat, id: int, loop: int)
    | Recheck(day: nat, id: int)
    | Open(day: nat, id: int)
    | StoreDay(day: nat, id: int)
    | Release(day: nat, id: int)
    | Emit

  /** The shared variables, the place of every thread, and the days of the log files opened so far. */
  datatype State = State(hasInit: int, config: seq<int>, gPid: int, hasFork: int,
                         lastDay: int, currentTid: int, pcs: seq<Pc>, openings: seq<int>)

  /** What the surroundings decide: the next call, its arguments, whether mkdir or open succeeds. */
  datatype Choice = Choice(init: bool, config: seq<int>, day: nat, ok: bool)

  /** The process id, and the thread id of each thread; ids may coincide. */
  datatype Ids = Ids(pid: int, tid: nat -> int)

  ghost predicate ProperIds(p: Ids) {
    p.pid > 0 && forall t :: p.tid(t) > 0
  }

  function Start(threads: nat, config: seq<int>): State {
    State(NEED_INIT, config, 0, 0, -1, 0, seq(threads, _ => Idle), [])
  }

  function To(s: State, t: nat, pc: Pc): State
    requires t < |s.pcs|
  {
    s.(pcs := s.pcs[t := pc])
  }

  /** One atomic step of thread t. */
  function Step(p: Ids, s: State, t: nat, c: Choice): State
    requires t < |s.pcs|
  {
    match s.pcs[t]
    case Idle =>
      if !c.init then To(s, t, LoadFork(c.day))
      else if |c.config| == |s.config| then To(s, t, Enter(c.config))
      else s
    case Enter(config) =>
      if s.hasInit == NEED_INIT then To(s, t, Copy(config, 0)).(hasInit := INIT_ING)
      else if s.hasInit == INIT_ING then To(s, t, Wait)
      else To(s, t, ReadPid)
    case Copy(config, k) =>
      if k < |s.config| && k < |config| then To(s, t, Copy(config, k + 1)).(config := s.config[k := config[k]])
      else To(s, t, MakeDir(config))
    case MakeDir(config) => To(s, t, if c.ok then Publish(config) else Reset)
    case Reset => To(s, t, Idle).(hasInit := NEED_INIT)
    case Publish(config) => To(s, t, Wait).(hasInit := HAS_INIT)
    case Wait => To(s, t, if s.hasInit == HAS_INIT then ReadPid else Wait)
    case ReadPid => To(s, t, if s.gPid != -1 && s.gPid != p.pid then StorePid else Idle)
    case StorePid => To(s, t, StoreFork).(gPid := p.pid)
    case StoreFork => To(s, t, Idle).(hasFork := 1)
    case LoadFork(day) => To(s, t, LoadId(day, s.hasFork == 1))
    case LoadId(day, fork) => To(s, t, TestInit(day, if fork then s.gPid else p.tid(t)))
    case TestInit(day, id) => To(s, t, if s.hasInit == HAS_INIT then TestDay(day, id) else Emit)
    case TestDay(day, id) => To(s, t, if day != s.lastDay then Acquire(day, id, SPIN_LIMIT) else Emit)
    case Acquire(day, id, loop) =>
      if s.currentTid == 0 then To(s, t, Recheck(day, id)).(currentTid := id)
      else To(s, t, if s.currentTid == id || loop - 1 <= 0 then Idle else Acquire(day, id, loop - 1))
    case Recheck(day, id) => To(s, t, if day != s.lastDay then Open(day, id) else Release(day, id))
    case Open(day, id) =>
      if c.ok then To(s, t, StoreDay(day, id)).(openings := s.openings + [day as int]) else To(s, t, Release(day, id))
    case StoreDay(day, id) => To(s, t, Release(day, id)).(lastDay := day)
    case Release(day, id) => To(s, t, Emit).(currentTid := 0)
    case Emit => To(s, t, Idle)
  }

  /** A run: which thread steps, and what the surroundings decide. */
  function Exec(p: Ids, s: State, run: seq<(nat, Choice)>): (r: State)
    requires forall i :: 0 <= i < |run| ==> run[i].0 < |s.pcs|
    ensures |r.pcs| == |s.pcs|
    decreases |run|
  {
    if |run| == 0 then s
    else
      var n := |run| - 1;
      Step(p, Exec(p, s, run[..n]), run[n].0, run[n].1)
  }

  // ----- The invariants

  predicate Initializing(pc: Pc) { pc.Copy? || pc.MakeDir? || pc.Reset? || pc.Publish? }

  predicate InSection(pc: Pc) { pc.Recheck? || pc.Open? || pc.StoreDay? || pc.Release? }

  /** Past the test that log_init has finished. */
  predicate SawInit(pc: Pc) {
    pc.ReadPid? || pc.StorePid? || pc.StoreFork? || pc.TestDay? || pc.Acquire? || InSection(pc)
  }

  /** One thread initialises at a time, and g_config holds what it has copied so far. */
  ghost predicate InitOk(s: State) {
    && (forall t :: 0 <= t < |s.pcs| && Initializing(s.pcs[t]) ==> s.hasInit == INIT_ING)
    && (forall t, u :: 0 <= t < u < |s.pcs| && Initializing(s.pcs[t]) ==> !Initializing(s.pcs[u]))
    && (forall t :: 0 <= t < |s.pcs| && SawInit(s.pcs[t]) ==> s.hasInit == HAS_INIT)
    && (s.hasInit == NEED_INIT || s.hasInit == INIT_ING || s.hasInit == HAS_INIT)
    && (s.hasInit == INIT_ING ==> exists t :: 0 <= t < |s.pcs| && Initializing(s.pcs[t]))
    && (forall t :: 0 <= t < |s.pcs| ==> CopyOk(s.config, s.pcs[t]))
  }

  ghost predicate CopyOk(config: seq<int>, pc: Pc) {
    match pc
    case Enter(c) => |c| == |config|
    case Copy(c, k) => |c| == |config| && k <= |c| && config[..k] == c[..k]
    case MakeDir(c) => config == c
    case Publish(c) => config == c
    case _ => true
  }

  function IdOf(pc: Pc): int {
    match pc
    case TestInit(_, id) => id
    case TestDay(_, id) => id
    case Acquire(_, id, _) => id
    case Recheck(_, id) => id
    case Open(_, id) => id
    case StoreDay(_, id) => id
    case Release(_, id) => id
    case _ => 1
  }

  /** No thread goes by the id 0: the process id is stored before the fork flag that makes threads use it. */
  ghost predicate IdsOk(p: Ids, s: State) {
    && (s.gPid == 0 || s.gPid == p.pid)
    && (s.hasFork == 1 ==> s.gPid == p.pid)
    && (forall t :: 0 <= t < |s.pcs| ==>
          && IdOf(s.pcs[t]) != 0
          && ((s.pcs[t].StoreFork? || (s.pcs[t].LoadId? && s.pcs[t].fork)) ==> s.gPid == p.pid))
  }

  /** current_tid is the id of the one thread in the rotation section. */
  ghost predicate SectionOk(s: State) {
    && (forall t :: 0 <= t < |s.pcs| && InSection(s.pcs[t]) ==> s.currentTid == IdOf(s.pcs[t]))
    && (forall t, u :: 0 <= t < u < |s.pcs| && InSection(s.pcs[t]) ==> !InSection(s.pcs[u]))
    && (s.currentTid != 0 ==> exists t :: 0 <= t < |s.pcs| && InSection(s.pcs[t]))
  }

  function LastOf(days: seq<int>): int { if |days| == 0 then -1 else days[|days| - 1] }

  /** last_day is the day of the last file opened, except while the thread that opened it has not stored it yet. */
  ghost predicate DaysOk(s: State) {
    && (forall i :: 0 <= i < |s.openings| - 1 ==> s.openings[i] != s.openings[i + 1])
    && (forall i :: 0 <= i < |s.openings| ==> s.openings[i] >= 0)
    && (forall t :: 0 <= t < |s.pcs| && s.pcs[t].Open? ==> s.pcs[t].day != s.lastDay)
    && (forall t :: 0 <= t < |s.pcs| && s.pcs[t].StoreDay? ==>
          |s.openings| > 0 && LastOf(s.openings) == s.pcs[t].day)
    && ((forall t :: 0 <= t < |s.pcs| ==> !s.pcs[t].StoreDay?) ==> s.lastDay == LastOf(s.openings))
  }

  ghost predicate Inv(p: Ids, s: State) {
    InitOk(s) && IdsOk(p, s) && SectionOk(s) && DaysOk(s)
  }

  /** What a step does to g_config. */
  lemma CopyEffect(p: Ids, s: State, t: nat, c: Choice)
    requires t < |s.pcs| && CopyOk(s.config, s.pcs[t])
    ensures var s' := Step(p, s, t, c);
      && s'.pcs == s.pcs[t := s'.pcs[t]] && CopyOk(s'.config, s'.pcs[t]) && |s'.config| == |s.config|
      && (Initializing(s.pcs[t]) || s'.config == s.config)
  {
    var pc := s.pcs[t];
    if pc.Copy? && pc.k < |s.config| && pc.k < |pc.config| {
      assert s.config[pc.k := pc.config[pc.k]][..pc.k + 1] == s.config[..pc.k] + [pc.config[pc.k]];
      assert pc.config[..pc.k + 1] == pc.config[..pc.k] + [pc.config[pc.k]];
    } else if pc.Copy? {
      assert s.config[..pc.k] == s.config && pc.config[..pc.k] == pc.config;
    }
  }

  /** What a step does to the start-up protocol: begin it, end it, or neither. */
  lemma InitEffect(p: Ids, s: State, t: nat, c: Choice)
    requires t < |s.pcs|
    ensures var s', pc, pc' := Step(p, s, t, c), s.pcs[t], Step(p, s, t, c).pcs[t];
      (s.hasInit == NEED_INIT && s'.hasInit == INIT_ING && Initializing(pc') && !SawInit(pc'))
      || (Initializing(pc) && !Initializing(pc') && !SawInit(pc')
          && (s'.hasInit == NEED_INIT || s'.hasInit == HAS_INIT))
      || (s'.hasInit == s.hasInit && (Initializing(pc) <==> Initializing(pc'))
          && (SawInit(pc') ==>
                SawInit(pc) || s.hasInit == HAS_INIT || (s.hasInit != NEED_INIT && s.hasInit != INIT_ING)))
  {
    hide CopyOk;
    match s.pcs[t]
    case Enter(_) =>
    case Copy(_, _) =>
    case MakeDir(_) =>
    case Reset =>
    case Publish(_) =>
    case _ =>
  }

  lemma InitKept(p: Ids, s: State, t: nat, c: Choice)
    requires t < |s.pcs| && InitOk(s)
    ensures InitOk(Step(p, s, t, c))
  {
    hide Step, Initializing, SawInit;
    var s' := Step(p, s, t, c);
    InitEffect(p, s, t, c);
    CopyEffect(p, s, t, c);
    if s'.hasInit == INIT_ING && s.hasInit == INIT_ING {
      var u :| 0 <= u < |s.pcs| && Initializing(s.pcs[u]);
      assert Initializing(s'.pcs[u]);
    } else if s'.hasInit == INIT_ING {
      assert Initializing(s'.pcs[t]);
    }
    forall u | 0 <= u < |s.pcs| && u != t
      ensures CopyOk(s'.config, s.pcs[u])
    {
      if s'.config != s.config {
        NotCopying(s.config, s'.config, s.pcs[u]);
      }
    }
  }

  lemma NotCopying(config: seq<int>, config': seq<int>, pc: Pc)
    requires CopyOk(config, pc) && !Initializing(pc) && |config'| == |config|
    ensures CopyOk(config', pc)
  {}

  lemma IdsKept(p: Ids, s: State, t: nat, c: Choice)
    requires t < |s.pcs| && IdsOk(p, s) && ProperIds(p)
    ensures IdsOk(p, Step(p, s, t, c))
  {
    var s' := Step(p, s, t, c);
    assert forall u :: 0 <= u < |s.pcs| && u != t ==> s'.pcs[u] == s.pcs[u];
  }

  /** What a step does to the rotation section: enter it, leave it, or neither. */
  lemma SectionEffect(p: Ids, s: State, t: nat, c: Choice)
    requires t < |s.pcs|
    ensures var s', pc, pc' := Step(p, s, t, c), s.pcs[t], Step(p, s, t, c).pcs[t];
      && s'.pcs == s.pcs[t := pc']
      && ((!InSection(pc) && InSection(pc') && s.currentTid == 0 && s'.currentTid == IdOf(pc'))
          || (InSection(pc) && !InSection(pc') && s'.currentTid == 0)
          || (s'.currentTid == s.currentTid && (InSection(pc) <==> InSection(pc'))
              && (InSection(pc) ==> IdOf(pc) == IdOf(pc'))))
  {
    match s.pcs[t]
    case Acquire(_, _, _) =>
    case Recheck(_, _) =>
    case Open(_, _) =>
    case StoreDay(_, _) =>
    case Release(_, _) =>
    case _ =>
  }

  lemma SectionKept(p: Ids, s: State, t: nat, c: Choice)
    requires t < |s.pcs| && SectionOk(s) && IdsOk(p, s)
    ensures SectionOk(Step(p, s, t, c))
  {
    hide Step, InSection, IdOf;
    var s' := Step(p, s, t, c);
    SectionEffect(p, s, t, c);
    if s'.currentTid != 0 && !InSection(s'.pcs[t]) {
      var u :| 0 <= u < |s.pcs| && InSection(s.pcs[u]);
      assert InSection(s'.pcs[u]);
    }
  }

  /** What a step does to the log files: open one, store its day, or neither. */
  lemma DaysEffect(p: Ids, s: State, t: nat, c: Choice)
    requires t < |s.pcs|
    ensures var s', pc, pc' := Step(p, s, t, c), s.pcs[t], Step(p, s, t, c).pcs[t];
      && s'.pcs == s.pcs[t := pc']
      && ((pc.Open? && pc'.StoreDay? && pc'.day == pc.day && s'.openings == s.openings + [pc.day as int]
          && s'.lastDay == s.lastDay)
          || (pc.StoreDay? && pc'.Release? && s'.openings == s.openings && s'.lastDay == pc.day)
          || (!pc.StoreDay? && !pc'.StoreDay? && s'.openings == s.openings && s'.lastDay == s.lastDay
              && (pc'.Open? ==> pc'.day != s.lastDay)))
  {
    match s.pcs[t]
    case Open(_, _) =>
    case StoreDay(_, _) =>
    case Recheck(_, _) =>
    case _ =>
  }

  lemma OpensInSection(pc: Pc)
    ensures pc.Open? || pc.StoreDay? ==> InSection(pc)
  {}

  lemma DaysKept(p: Ids, s: State, t: nat, c: Choice)
    requires t < |s.pcs| && SectionOk(s) && DaysOk(s)
    ensures DaysOk(Step(p, s, t, c))
  {
    hide Step, InSection;
    var s' := Step(p, s, t, c);
    DaysEffect(p, s, t, c);
    if s.pcs[t].Open? || s.pcs[t].StoreDay? {
      forall u | 0 <= u < |s.pcs| && u != t
        ensures !s.pcs[u].Open? && !s.pcs[u].StoreDay?
      {
        OpensInSection(s.pcs[u]);
        OpensInSection(s.pcs[t]);
      }
    }
    assert forall u :: 0 <= u < |s.pcs| && u != t ==> s'.pcs[u] == s.pcs[u];
  }

  lemma {:induction false} RunKeepsInv(p: Ids, threads: nat, config: seq<int>, run: seq<(nat, Choice)>)
    requires ProperIds(p) && forall i :: 0 <= i < |run| ==> run[i].0 < threads
    ensures Inv(p, Exec(p, Start(threads, config), run))
    decreases |run|
  {
    hide InitOk, IdsOk, SectionOk, DaysOk, Step;
    var s := Start(threads, config);
    if |run| == 0 {
      StartIsOk(p, threads, config);
    } else {
      var n := |run| - 1;
      RunKeepsInv(p, threads, config, run[..n]);
      var r := Exec(p, s, run[..n]);
      InitKept(p, r, run[n].0, run[n].1);
      IdsKept(p, r, run[n].0, run[n].1);
      SectionKept(p, r, run[n].0, run[n].1);
      DaysKept(p, r, run[n].0, run[n].1);
    }
  }

  lemma StartIsOk(p: Ids, threads: nat, config: seq<int>)
    ensures Inv(p, Start(threads, config))
  {}

  // ----- What every run keeps

  ghost predicate ValidRun(s: State, run: seq<(nat, Choice)>) {
    forall i :: 0 <= i < |run| ==> run[i].0 < |s.pcs|
  }

  /** No two threads are in the rotation section at once, even if their ids coincide, and no two
      write g_config at once. */
  lemma {:induction false} MutualExclusion(p: Ids, threads: nat, config: seq<int>, run: seq<(nat, Choice)>,
                                           t: nat, u: nat)
    requires ProperIds(p) && ValidRun(Start(threads, config), run) && t < u < threads
    ensures var s := Exec(p, Start(threads, config), run);
      && !(InSection(s.pcs[t]) && InSection(s.pcs[u]))
      && !(Initializing(s.pcs[t]) && Initializing(s.pcs[u]))
  {
    hide Exec, InSection, Initializing;
    RunKeepsInv(p, threads, config, run);
  }

  /** What threads carry, and what has become of it, was handed in by some call. */
  ghost predicate Offered(s: State, days: set<int>, configs: set<seq<int>>) {
    && (forall i :: 0 <= i < |s.openings| ==> s.openings[i] in days)
    && (forall t :: 0 <= t < |s.pcs| ==> CarriesFrom(s.pcs[t], days, configs))
    && (s.hasInit == HAS_INIT ==> s.config in configs)
  }

  predicate CarriesFrom(pc: Pc, days: set<int>, configs: set<seq<int>>) {
    match pc
    case Enter(c) => c in configs
    case Copy(c, _) => c in configs
    case MakeDir(c) => c in configs
    case Publish(c) => c in configs
    case LoadFork(day) => day as int in days
    case LoadId(day, _) => day as int in days
    case TestInit(day, _) => day as int in days
    case TestDay(day, _) => day as int in days
    case Acquire(day, _, _) => day as int in days
    case Recheck(day, _) => day as int in days
    case Open(day, _) => day as int in days
    case StoreDay(day, _) => day as int in days
    case _ => true
  }

  /** The calls of a run bring these days and configurations. */
  ghost predicate Brings(run: seq<(nat, Choice)>, days: set<int>, configs: set<seq<int>>) {
    forall i :: 0 <= i < |run| ==> run[i].1.day as int in days && run[i].1.config in configs
  }

  lemma CarryEffect(p: Ids, s: State, t: nat, c: Choice, days: set<int>, configs: set<seq<int>>)
    requires t < |s.pcs| && CarriesFrom(s.pcs[t], days, configs) && CopyOk(s.config, s.pcs[t])
    requires c.day as int in days && c.config in configs
    ensures var s' := Step(p, s, t, c);
      && s'.pcs == s.pcs[t := s'.pcs[t]] && CarriesFrom(s'.pcs[t], days, configs)
      && (s'.openings == s.openings || exists day :: day in days && s'.openings == s.openings + [day])
      && (s'.hasInit == HAS_INIT ==>
            (s.hasInit == HAS_INIT && (s'.config == s.config || Initializing(s.pcs[t])))
            || s'.config in configs)
  {
    if s.pcs[t].Open? {
      assert s.pcs[t].day as int in days;
    }
  }

  lemma OfferedKept(p: Ids, s: State, t: nat, c: Choice, days: set<int>, configs: set<seq<int>>)
    requires t < |s.pcs| && InitOk(s) && Offered(s, days, configs) && c.day as int in days && c.config in configs
    ensures Offered(Step(p, s, t, c), days, configs)
  {
    hide Step, CarriesFrom, CopyOk, Initializing;
    assert CarriesFrom(s.pcs[t], days, configs);
    CarryEffect(p, s, t, c, days, configs);
  }

  lemma {:induction false} RunOffers(p: Ids, threads: nat, config: seq<int>, run: seq<(nat, Choice)>,
                                     days: set<int>, configs: set<seq<int>>)
    requires ProperIds(p) && ValidRun(Start(threads, config), run) && Brings(run, days, configs)
    ensures Offered(Exec(p, Start(threads, config), run), days, configs)
    decreases |run|
  {
    hide InitOk, IdsOk, SectionOk, DaysOk, Step;
    if |run| > 0 {
      var n := |run| - 1;
      RunOffers(p, threads, config, run[..n], days, configs);
      RunKeepsInv(p, threads, config, run[..n]);
      OfferedKept(p, Exec(p, Start(threads, config), run[..n]), run[n].0, run[n].1, days, configs);
    }
  }

  /** Threads that all carry the same day open at most one log file between them. */
  lemma {:induction false} OneFilePerDay(p: Ids, threads: nat, config: seq<int>, run: seq<(nat, Choice)>, day: nat)
    requires ProperIds(p) && ValidRun(Start(threads, config), run)
    requires forall i :: 0 <= i < |run| ==> run[i].1.day == day
    ensures |Exec(p, Start(threads, config), run).openings| <= 1
  {
    hide Exec, InitOk, IdsOk, SectionOk;
    var s := Exec(p, Start(threads, config), run);
    var configs := set i | 0 <= i < |run| :: run[i].1.config;
    var twice := |s.openings| > 1 && s.openings[0] == s.openings[0 + 1];
    RunKeepsInv(p, threads, config, run);
    RunOffers(p, threads, config, run, {day as int}, configs);
  }

  /** In any run, a log file is never opened for the day of the file opened just before it. */
  lemma {:induction false} NeighboursDiffer(p: Ids, threads: nat, config: seq<int>, run: seq<(nat, Choice)>, i: nat)
    requires ProperIds(p) && ValidRun(Start(threads, config), run)
    requires i + 1 < |Exec(p, Start(threads, config), run).openings|
    ensures Exec(p, Start(threads, config), run).openings[i] != Exec(p, Start(threads, config), run).openings[i + 1]
  {
    hide Exec, InitOk, IdsOk, SectionOk;
    RunKeepsInv(p, threads, config, run);
  }

  /** Once log_init is over, g_config is one of the configurations handed in, unmixed. */
  lemma {:induction false} ConfigIsWhole(p: Ids, threads: nat, config: seq<int>, run: seq<(nat, Choice)>)
    requires ProperIds(p) && ValidRun(Start(threads, config), run)
    requires Exec(p, Start(threads, config), run).hasInit == HAS_INIT
    ensures exists i :: 0 <= i < |run| && Exec(p, Start(threads, config), run).config == run[i].1.config
  {
    hide Exec, CarriesFrom;
    var days := set i | 0 <= i < |run| :: run[i].1.day as int;
    var configs := set i | 0 <= i < |run| :: run[i].1.config;
    RunOffers(p, threads, config, run, days, configs);
  }

  lemma FrozenStep(p: Ids, s: State, t: nat, c: Choice)
    requires t < |s.pcs| && InitOk(s) && s.hasInit == HAS_INIT
    ensures Step(p, s, t, c).config == s.config && Step(p, s, t, c).hasInit == HAS_INIT
  {
    hide CopyOk;
    assert !Initializing(s.pcs[t]);
  }

  /** And it is never written again. */
  lemma {:induction false} ConfigIsFrozen(p: Ids, s: State, run: seq<(nat, Choice)>)
    requires Inv(p, s) && ProperIds(p) && s.hasInit == HAS_INIT && ValidRun(s, run)
    ensures Exec(p, s, run).config == s.config && Exec(p, s, run).hasInit == HAS_INIT && Inv(p, Exec(p, s, run))
    decreases |run|
  {
    hide InitOk, IdsOk, SectionOk, DaysOk, Step;
    if |run| > 0 {
      var n := |run| - 1;
      ConfigIsFrozen(p, s, run[..n]);
      var r := Exec(p, s, run[..n]);
      FrozenStep(p, r, run[n].0, run[n].1);
      InitKept(p, r, run[n].0, run[n].1);
      IdsKept(p, r, run[n].0, run[n].1);
      SectionKept(p, r, run[n].0, run[n].1);
      DaysKept(p, r, run[n].0, run[n].1);
    }
  }

  // ----- Threads that wait for log_init to finish

  ghost predicate NoNewCalls(run: seq<(nat, Choice)>) {
    forall i :: 0 <= i < |run| ==> !run[i].1.init
  }

  /** On its way to finish log_init, if the directory can be made. */
  predicate MayFinish(pc: Pc) { pc.Enter? || pc.Copy? || pc.MakeDir? || pc.Publish? }

  /** log_init has finished, or some thread may still finish it. A thread whose mkdir has failed will not. */
  ghost predicate Hopeful(s: State) {
    s.hasInit == HAS_INIT || exists t :: 0 <= t < |s.pcs| && MayFinish(s.pcs[t])
  }

  lemma HopelessStep(p: Ids, s: State, t: nat, c: Choice, w: nat)
    requires t < |s.pcs| && !Hopeful(s) && !c.init && w < |s.pcs| && s.pcs[w] == Wait
    ensures !Hopeful(Step(p, s, t, c)) && Step(p, s, t, c).pcs[w] == Wait
  {
    assert !MayFinish(s.pcs[t]);
  }

  /** Without hope a waiting thread stays where it is, whatever the others do. */
  lemma {:induction false} HopelessWait(p: Ids, s: State, run: seq<(nat, Choice)>, w: nat)
    requires !Hopeful(s) && w < |s.pcs| && s.pcs[w] == Wait && ValidRun(s, run) && NoNewCalls(run)
    ensures !Hopeful(Exec(p, s, run)) && Exec(p, s, run).pcs[w] == Wait
    decreases |run|
  {
    hide Step, Hopeful;
    if |run| > 0 {
      var n := |run| - 1;
      HopelessWait(p, s, run[..n], w);
      HopelessStep(p, Exec(p, s, run[..n]), run[n].0, run[n].1, w);
    }
  }

  lemma {:induction false} Extend(p: Ids, s: State, run: seq<(nat, Choice)>, t: nat, c: Choice)
    requires ValidRun(s, run) && t < |s.pcs|
    ensures ValidRun(s, run + [(t, c)]) && Exec(p, s, run + [(t, c)]) == Step(p, Exec(p, s, run), t, c)
  {
    assert (run + [(t, c)])[..|run|] == run;
  }

  lemma StepSize(p: Ids, s: State, t: nat, c: Choice)
    requires t < |s.pcs|
    ensures |Step(p, s, t, c).pcs| == |s.pcs|
  {}

  /** A run may begin with one step more. */
  lemma {:induction false} Prepend(p: Ids, s: State, t: nat, c: Choice, run: seq<(nat, Choice)>)
    requires t < |s.pcs| && ValidRun(s, run)
    ensures ValidRun(s, [(t, c)] + run) && |Step(p, s, t, c).pcs| == |s.pcs|
    ensures Exec(p, s, [(t, c)] + run) == Exec(p, Step(p, s, t, c), run)
    decreases |run|
  {
    hide Step;
    StepSize(p, s, t, c);
    if |run| == 0 {
      assert [(t, c)] + run == [] + [(t, c)];
      Extend(p, s, [], t, c);
    } else {
      var n := |run| - 1;
      Prepend(p, s, t, c, run[..n]);
      assert ([(t, c)] + run)[..n + 1] == [(t, c)] + run[..n];
    }
  }

  const GO: Choice := Choice(false, [], 0, true)

  /** How far a thread is from finishing log_init. */
  function Distance(s: State, pc: Pc): nat {
    match pc
    case Copy(config, k) => if k < |config| then |config| - k + 2 else 2
    case MakeDir(_) => 1
    case _ => 0
  }

  lemma OneCloser(p: Ids, s: State, t: nat)
    requires t < |s.pcs| && (s.pcs[t].Copy? || s.pcs[t].MakeDir? || s.pcs[t].Publish?)
    ensures var s' := Step(p, s, t, GO);
      && s'.pcs == s.pcs[t := s'.pcs[t]]
      && (s'.hasInit == HAS_INIT
          || ((s'.pcs[t].Copy? || s'.pcs[t].MakeDir? || s'.pcs[t].Publish?)
              && Distance(s', s'.pcs[t]) < Distance(s, s.pcs[t])))
  {}

  /** A thread that has begun log_init can finish it, and a waiting one then goes on. */
  lemma {:induction false} FinishThenLeave(p: Ids, s: State, t: nat, w: nat) returns (run: seq<(nat, Choice)>)
    requires t < |s.pcs| && w < |s.pcs| && s.pcs[w] == Wait
    requires s.pcs[t].Copy? || s.pcs[t].MakeDir? || s.pcs[t].Publish?
    ensures ValidRun(s, run) && NoNewCalls(run) && Exec(p, s, run).pcs[w] != Wait
    decreases Distance(s, s.pcs[t])
  {
    hide Step, Exec;
    OneCloser(p, s, t);
    var s' := Step(p, s, t, GO);
    if s'.hasInit == HAS_INIT {
      run := Leave(p, s', w);
    } else {
      run := FinishThenLeave(p, s', t, w);
    }
    Prepend(p, s, t, GO, run);
    run := [(t, GO)] + run;
  }

  lemma WaitEnds(p: Ids, s: State, w: nat)
    requires w < |s.pcs| && s.pcs[w] == Wait && s.hasInit == HAS_INIT
    ensures Step(p, s, w, GO).pcs[w] == ReadPid
  {}

  lemma Leave(p: Ids, s: State, w: nat) returns (run: seq<(nat, Choice)>)
    requires w < |s.pcs| && s.pcs[w] == Wait && s.hasInit == HAS_INIT
    ensures ValidRun(s, run) && NoNewCalls(run) && Exec(p, s, run).pcs[w] != Wait
  {
    hide Exec, Step;
    run := [(w, GO)];
    ExecNothing(p, s);
    Extend(p, s, [], w, GO);
    assert [] + [(w, GO)] == run;
    WaitEnds(p, s, w);
  }

  lemma ExecNothing(p: Ids, s: State)
    ensures Exec(p, s, []) == s
  {}

  /** A thread about to enter log_init begins it when nobody else has. */
  lemma EnterThenLeave(p: Ids, s: State, u: nat, w: nat) returns (run: seq<(nat, Choice)>)
    requires u < |s.pcs| && w < |s.pcs| && s.pcs[w] == Wait && s.pcs[u].Enter? && s.hasInit == NEED_INIT
    ensures ValidRun(s, run) && NoNewCalls(run) && Exec(p, s, run).pcs[w] != Wait
  {
    hide Exec;
    var s' := Step(p, s, u, GO);
    run := FinishThenLeave(p, s', u, w);
    Prepend(p, s, u, GO, run);
    run := [(u, GO)] + run;
  }

  lemma HopeThenLeave(p: Ids, s: State, w: nat) returns (run: seq<(nat, Choice)>)
    requires InitOk(s) && Hopeful(s) && w < |s.pcs| && s.pcs[w] == Wait
    ensures ValidRun(s, run) && NoNewCalls(run) && Exec(p, s, run).pcs[w] != Wait
  {
    hide Exec, CopyOk;
    if s.hasInit == HAS_INIT {
      run := Leave(p, s, w);
    } else {
      var t :| 0 <= t < |s.pcs| && MayFinish(s.pcs[t]);
      if !s.pcs[t].Enter? {
        run := FinishThenLeave(p, s, t, w);
      } else if s.hasInit == NEED_INIT {
        run := EnterThenLeave(p, s, t, w);
      } else {
        var i :| 0 <= i < |s.pcs| && Initializing(s.pcs[i]);
        if s.pcs[i].Reset? {
          var s' := Step(p, s, i, GO);
          run := EnterThenLeave(p, s', t, w);
          Prepend(p, s, i, GO, run);
          run := [(i, GO)] + run;
        } else {
          run := FinishThenLeave(p, s, i, w);
        }
      }
    }
  }

  /** From any reachable state a waiting thread can go on without a new call of log_init if and only if
      log_init has finished or some thread may still finish it. */
  lemma {:induction false} WaiterLeavesIff(p: Ids, threads: nat, config: seq<int>, past: seq<(nat, Choice)>, w: nat)
    requires ProperIds(p) && ValidRun(Start(threads, config), past) && w < threads
    requires Exec(p, Start(threads, config), past).pcs[w] == Wait
    ensures var s := Exec(p, Start(threads, config), past);
      Hopeful(s) <==> exists run :: ValidRun(s, run) && NoNewCalls(run) && Exec(p, s, run).pcs[w] != Wait
  {
    hide Exec, Hopeful, IdsOk, SectionOk, DaysOk, InitOk;
    var s := Exec(p, Start(threads, config), past);
    RunKeepsInv(p, threads, config, past);
    if Hopeful(s) {
      var run := HopeThenLeave(p, s, w);
    } else {
      forall run | ValidRun(s, run) && NoNewCalls(run)
        ensures Exec(p, s, run).pcs[w] == Wait
      {
        HopelessWait(p, s, run, w);
      }
    }
  }

  /** One new call of an idle thread is enough. */
  lemma {:induction false} NewCallReleases(p: Ids, threads: nat, config: seq<int>, past: seq<(nat, Choice)>,
                                           w: nat, u: nat)
      returns (run: seq<(nat, Choice)>)
    requires ProperIds(p) && ValidRun(Start(threads, config), past) && w < threads && u < threads
    requires Exec(p, Start(threads, config), past).pcs[w] == Wait
        && Exec(p, Start(threads, config), past).pcs[u] == Idle
    ensures var s := Exec(p, Start(threads, config), past);
      && ValidRun(s, run) && |run| > 0 && run[0].0 == u && NoNewCalls(run[1..])
      && Exec(p, s, run).pcs[w] != Wait
  {
    hide Exec, IdsOk, SectionOk, DaysOk;
    var s := Exec(p, Start(threads, config), past);
    RunKeepsInv(p, threads, config, past);
    var call := Choice(true, s.config, 0, true);
    var s' := Step(p, s, u, call);
    InitKept(p, s, u, call);
    assert s'.pcs[u].Enter? && MayFinish(s'.pcs[u]);
    run := HopeThenLeave(p, s', w);
    Prepend(p, s, u, call, run);
    assert ([(u, call)] + run)[1..] == run;
    run := [(u, call)] + run;
  }

  /** A state without hope is reached: thread 0 fails to make the directory while thread 1 waits. */
  lemma {:induction false} HopelessIsReachable(p: Ids) returns (run: seq<(nat, Choice)>)
    ensures ValidRun(Start(2, []), run)
    ensures var s := Exec(p, Start(2, []), run); !Hopeful(s) && s.pcs[1] == Wait
  {
    hide Exec;
    var s := Start(2, []);
    var c := Choice(true, [], 0, false);
    var who: seq<nat> := [0, 0, 1, 1, 0, 0, 0];
    run := [];
    ExecNothing(p, s);
    for i := 0 to 7
      invariant ValidRun(s, run)
      invariant Exec(p, s, run) == Hoping(i)
    {
      Extend(p, s, run, who[i], c);
      run := run + [(who[i], c)];
    }
  }

  /** The states on the way there. */
  function Hoping(i: nat): State {
    var pcs := if i == 0 then [Idle, Idle] else if i == 1 then [Enter([]), Idle] else if i == 2 then [Copy([], 0), Idle]
               else if i == 3 then [Copy([], 0), Enter([])] else if i == 4 then [Copy([], 0), Wait]
               else if i == 5 then [MakeDir([]), Wait] else if i == 6 then [Reset, Wait] else [Idle, Wait];
    Start(2, []).(pcs := pcs, hasInit := if 2 <= i <= 6 then INIT_ING else NEED_INIT)
  }

  // ----- What one call does when nobody interferes

  /** Thread t makes n steps. */
  function Alone(t: nat, c: Choice, n: nat): (run: seq<(nat, Choice)>)
    ensures |run| == n && forall i :: 0 <= i < n ==> run[i] == (t, c)
  {
    seq(n, _ => (t, c))
  }

  lemma {:induction false} OneMore(p: Ids, s: State, t: nat, c: Choice, n: nat)
    requires t < |s.pcs|
    ensures Exec(p, s, Alone(t, c, n + 1)) == Step(p, Exec(p, s, Alone(t, c, n)), t, c)
  {
    hide Step;
    assert Alone(t, c, n + 1)[..n] == Alone(t, c, n);
  }

  lemma {:induction false} NoSteps(p: Ids, s: State, t: nat, c: Choice)
    ensures Exec(p, s, Alone(t, c, 0)) == s
  {}

  /** The id under which the thread rotates. */
  function OwnId(p: Ids, s: State, t: nat): int {
    if s.hasFork == 1 then p.pid else p.tid(t)
  }

  /** The way to the test of the day. */
  lemma {:induction false} ToTestDay(p: Ids, s: State, t: nat, c: Choice, day: nat)
    requires t < |s.pcs| && IdsOk(p, s) && s.pcs[t] == LoadFork(day)
    ensures Exec(p, s, Alone(t, c, 3))
         == To(s, t, if s.hasInit == HAS_INIT then TestDay(day, OwnId(p, s, t)) else Emit)
  {
    hide Exec;
    NoSteps(p, s, t, c);
    OneMore(p, s, t, c, 0);
    assert Exec(p, s, Alone(t, c, 1)) == To(s, t, LoadId(day, s.hasFork == 1));
    OneMore(p, s, t, c, 1);
    assert Exec(p, s, Alone(t, c, 2)) == To(s, t, TestInit(day, OwnId(p, s, t)));
    OneMore(p, s, t, c, 2);
  }

  /** From every reachable state a call that is left alone opens the file of its day exactly when that is not the
      last day, and ends outside the free section. When open fails nothing has changed. */
  lemma {:induction false} AloneRotates(p: Ids, threads: nat, config: seq<int>, past: seq<(nat, Choice)>, t: nat,
                                        day: nat, c: Choice)
    requires ProperIds(p) && ValidRun(Start(threads, config), past) && t < threads
    requires var s := Exec(p, Start(threads, config), past);
      s.pcs[t] == LoadFork(day) && s.hasInit == HAS_INIT && s.currentTid == 0
    ensures var s := Exec(p, Start(threads, config), past);
      && (day as int == s.lastDay ==> Exec(p, s, Alone(t, c, 4)) == To(s, t, Emit))
      && (day as int != s.lastDay ==>
            && Exec(p, s, Alone(t, c, 5)).currentTid == (if s.hasFork == 1 then p.pid else p.tid(t))
            && (c.ok ==> Exec(p, s, Alone(t, c, 9))
                         == To(s, t, Emit).(openings := s.openings + [day as int], lastDay := day))
            && (!c.ok ==> Exec(p, s, Alone(t, c, 8)) == To(s, t, Emit)))
  {
    hide Exec, InitOk, SectionOk, DaysOk;
    var s := Exec(p, Start(threads, config), past);
    RunKeepsInv(p, threads, config, past);
    ToTestDay(p, s, t, c, day);
    OneMore(p, s, t, c, 3);
    if day as int != s.lastDay {
      Rotates(p, s, t, c, day);
    }
  }

  /** Thread t goes from one place to the next, and the shared variables change to those of r. */
  lemma {:induction false} Goes(p: Ids, s: State, t: nat, c: Choice, n: nat, now: State, r: State)
    requires t < |s.pcs| && |now.pcs| == |s.pcs| && Exec(p, s, Alone(t, c, n)) == now && Step(p, now, t, c) == r
    ensures Exec(p, s, Alone(t, c, n + 1)) == r
  {
    hide Step, Exec;
    OneMore(p, s, t, c, n);
  }

  lemma {:induction false} Rotates(p: Ids, s: State, t: nat, c: Choice, day: nat)
    requires t < |s.pcs| && day as int != s.lastDay && s.currentTid == 0
    requires Exec(p, s, Alone(t, c, 4)) == To(s, t, Acquire(day, OwnId(p, s, t), SPIN_LIMIT))
    ensures Exec(p, s, Alone(t, c, 5)).currentTid == OwnId(p, s, t)
    ensures if c.ok then
        Exec(p, s, Alone(t, c, 9)) == To(s, t, Emit).(openings := s.openings + [day as int], lastDay := day)
      else Exec(p, s, Alone(t, c, 8)) == To(s, t, Emit)
  {
    hide Exec, Step, OwnId, Alone;
    var id := OwnId(p, s, t);
    var r := s.(currentTid := id);
    StepsIn(p, s, t, c, day, id);
    Goes(p, s, t, c, 4, To(s, t, Acquire(day, id, SPIN_LIMIT)), To(r, t, Recheck(day, id)));
    Goes(p, s, t, c, 5, To(r, t, Recheck(day, id)), To(r, t, Open(day, id)));
    if c.ok {
      var o := r.(openings := s.openings + [day as int]);
      StepsOut(p, o, t, c, day, id);
      StepsOut(p, o.(lastDay := day), t, c, day, id);
      Goes(p, s, t, c, 6, To(r, t, Open(day, id)), To(o, t, StoreDay(day, id)));
      Goes(p, s, t, c, 7, To(o, t, StoreDay(day, id)), To(o.(lastDay := day), t, Release(day, id)));
      Goes(p, s, t, c, 8, To(o.(lastDay := day), t, Release(day, id)),
           To(s, t, Emit).(openings := s.openings + [day as int], lastDay := day));
    } else {
      StepsOut(p, r, t, c, day, id);
      Goes(p, s, t, c, 6, To(r, t, Open(day, id)), To(r, t, Release(day, id)));
      Goes(p, s, t, c, 7, To(r, t, Release(day, id)), To(s, t, Emit));
    }
  }

  lemma StepsIn(p: Ids, s: State, t: nat, c: Choice, day: nat, id: int)
    requires t < |s.pcs| && day as int != s.lastDay && s.currentTid == 0
    ensures var r := s.(currentTid := id);
      && Step(p, To(s, t, Acquire(day, id, SPIN_LIMIT)), t, c) == To(r, t, Recheck(day, id))
      && Step(p, To(r, t, Recheck(day, id)), t, c) == To(r, t, Open(day, id))
      && Step(p, To(r, t, Open(day, id)), t, c)
         == (if c.ok then To(r.(openings := s.openings + [day as int]), t, StoreDay(day, id))
             else To(r, t, Release(day, id)))
  {}

  lemma StepsOut(p: Ids, r: State, t: nat, c: Choice, day: nat, id: int)
    requires t < |r.pcs|
    ensures Step(p, To(r, t, StoreDay(day, id)), t, c) == To(r.(lastDay := day), t, Release(day, id))
    ensures Step(p, To(r, t, Release(day, id)), t, c) == To(r.(currentTid := 0), t, Emit)
  {}

  /** A call before log_init has finished opens nothing; and so does one that finds the section taken: it gives up
      at once when the section is held under its own id, and otherwise after 1000000 attempts. */
  lemma {:induction false} AloneGivesUp(p: Ids, threads: nat, config: seq<int>, past: seq<(nat, Choice)>, t: nat,
                                        day: nat, c: Choice)
    requires ProperIds(p) && ValidRun(Start(threads, config), past) && t < threads
    requires Exec(p, Start(threads, config), past).pcs[t] == LoadFork(day)
    ensures var s := Exec(p, Start(threads, config), past);
      var own := if s.hasFork == 1 then p.pid else p.tid(t);
      && (s.hasInit != HAS_INIT ==> Exec(p, s, Alone(t, c, 3)) == To(s, t, Emit))
      && (s.hasInit == HAS_INIT && day as int != s.lastDay && s.currentTid != 0 ==>
            Exec(p, s, Alone(t, c, if s.currentTid == own then 5 else 4 + 1000000)) == To(s, t, Idle))
  {
    hide Exec, InitOk, SectionOk, DaysOk;
    var s := Exec(p, Start(threads, config), past);
    RunKeepsInv(p, threads, config, past);
    ToTestDay(p, s, t, c, day);
    OneMore(p, s, t, c, 3);
    OneMore(p, s, t, c, 4);
    if s.hasInit == HAS_INIT && day as int != s.lastDay && s.currentTid != 0 && s.currentTid != OwnId(p, s, t) {
      Spins(p, s, t, c, day, OwnId(p, s, t), SPIN_LIMIT - 1);
      OneMore(p, s, t, c, 4 + (SPIN_LIMIT - 1));
    }
  }

  lemma {:induction false} Spins(p: Ids, s: State, t: nat, c: Choice, day: nat, id: int, k: nat)
    requires t < |s.pcs| && s.currentTid != 0 && s.currentTid != id && k < SPIN_LIMIT
    requires Exec(p, s, Alone(t, c, 4)) == To(s, t, Acquire(day, id, SPIN_LIMIT))
    ensures Exec(p, s, Alone(t, c, 4 + k)) == To(s, t, Acquire(day, id, SPIN_LIMIT - k))
    decreases k
  {
    hide Exec;
    if k > 0 {
      Spins(p, s, t, c, day, id, k - 1);
      OneMore(p, s, t, c, 4 + (k - 1));
    }
  }

  lemma {:induction false} Copies(p: Ids, s: State, t: nat, c: Choice, config: seq<int>, k: nat)
    requires t < |s.pcs| && s.pcs[t] == Enter(config) && s.hasInit == NEED_INIT
    requires |config| == |s.config| && k <= |config|
    ensures Exec(p, s, Alone(t, c, 1 + k))
         == To(s, t, Copy(config, k)).(hasInit := INIT_ING, config := config[..k] + s.config[k..])
    decreases k
  {
    hide Exec;
    if k == 0 {
      NoSteps(p, s, t, c);
      OneMore(p, s, t, c, 0);
      assert config[..0] + s.config[0..] == s.config;
    } else {
      Copies(p, s, t, c, config, k - 1);
      OneMore(p, s, t, c, 1 + (k - 1));
      assert (config[..k - 1] + s.config[k - 1..])[k - 1 := config[k - 1]] == config[..k] + s.config[k..];
    }
  }

  /** The first log_init, left alone, installs its configuration and the process id; when the directory cannot be
      made the next call may begin again. */
  lemma {:induction false} AloneInitialises(p: Ids, threads: nat, config: seq<int>, past: seq<(nat, Choice)>, t: nat,
                                            mine: seq<int>, c: Choice)
    requires ProperIds(p) && ValidRun(Start(threads, config), past) && t < threads
    requires var s := Exec(p, Start(threads, config), past); s.pcs[t] == Enter(mine) && s.hasInit == NEED_INIT
    ensures var s := Exec(p, Start(threads, config), past);
      if !c.ok then Exec(p, s, Alone(t, c, |mine| + 4)) == To(s, t, Idle).(config := mine)
      else if s.gPid == p.pid then
        Exec(p, s, Alone(t, c, |mine| + 6)) == To(s, t, Idle).(config := mine, hasInit := HAS_INIT)
      else
        Exec(p, s, Alone(t, c, |mine| + 8))
        == To(s, t, Idle).(config := mine, hasInit := HAS_INIT, gPid := p.pid, hasFork := 1)
  {
    hide Exec, Step, SectionOk, DaysOk, Alone;
    var s, n := Exec(p, Start(threads, config), past), |mine|;
    RunKeepsInv(p, threads, config, past);
    assert CopyOk(s.config, s.pcs[t]);
    Copies(p, s, t, c, mine, n);
    assert mine[..n] + s.config[n..] == mine;
    var r := s.(hasInit := INIT_ING, config := mine);
    var h := r.(hasInit := HAS_INIT);
    InitSteps(p, r, t, c, mine);
    Goes(p, s, t, c, n + 1, To(r, t, Copy(mine, n)), To(r, t, MakeDir(mine)));
    if c.ok {
      Goes(p, s, t, c, n + 2, To(r, t, MakeDir(mine)), To(r, t, Publish(mine)));
      Goes(p, s, t, c, n + 3, To(r, t, Publish(mine)), To(h, t, Wait));
      PidSteps(p, h, t, c);
      Goes(p, s, t, c, n + 4, To(h, t, Wait), To(h, t, ReadPid));
      if s.gPid == p.pid {
        Goes(p, s, t, c, n + 5, To(h, t, ReadPid), To(h, t, Idle));
      } else {
        Goes(p, s, t, c, n + 5, To(h, t, ReadPid), To(h, t, StorePid));
        Goes(p, s, t, c, n + 6, To(h, t, StorePid), To(h.(gPid := p.pid), t, StoreFork));
        Goes(p, s, t, c, n + 7, To(h.(gPid := p.pid), t, StoreFork), To(h.(gPid := p.pid, hasFork := 1), t, Idle));
      }
    } else {
      Goes(p, s, t, c, n + 2, To(r, t, MakeDir(mine)), To(r, t, Reset));
      Goes(p, s, t, c, n + 3, To(r, t, Reset), To(r.(hasInit := NEED_INIT), t, Idle));
    }
  }

  lemma InitSteps(p: Ids, r: State, t: nat, c: Choice, mine: seq<int>)
    requires t < |r.pcs| && |mine| == |r.config|
    ensures Step(p, To(r, t, Copy(mine, |mine|)), t, c) == To(r, t, MakeDir(mine))
    ensures Step(p, To(r, t, MakeDir(mine)), t, c) == To(r, t, if c.ok then Publish(mine) else Reset)
    ensures Step(p, To(r, t, Publish(mine)), t, c) == To(r.(hasInit := HAS_INIT), t, Wait)
    ensures Step(p, To(r, t, Reset), t, c) == To(r.(hasInit := NEED_INIT), t, Idle)
  {}

  lemma PidSteps(p: Ids, h: State, t: nat, c: Choice)
    requires t < |h.pcs| && h.hasInit == HAS_INIT && h.gPid != -1
    ensures Step(p, To(h, t, Wait), t, c) == To(h, t, ReadPid)
    ensures Step(p, To(h, t, ReadPid), t, c) == To(h, t, if h.gPid != p.pid then StorePid else Idle)
    ensures Step(p, To(h, t, StorePid), t, c) == To(h.(gPid := p.pid), t, StoreFork)
    ensures Step(p, To(h.(gPid := p.pid), t, StoreFork), t, c) == To(h.(gPid := p.pid, hasFork := 1), t, Idle)
  {}

  // ----- Where the section is left

  /** Whenever a thread was about to open a file, it could. */
  ghost predicate OpensSucceed(p: Ids, s: State, run: seq<(nat, Choice)>)
    requires ValidRun(s, run)
  {
    forall i :: 0 <= i < |run| && Exec(p, s, run[..i]).pcs[run[i].0].Open? ==> run[i].1.ok
  }

  ghost predicate LeftOk(s: State) {
    forall t :: 0 <= t < |s.pcs| && s.pcs[t].Release? ==> s.pcs[t].day as int == s.lastDay
  }

  lemma LeftEffect(p: Ids, s: State, t: nat, c: Choice)
    requires t < |s.pcs| && (s.pcs[t].Open? ==> c.ok) && (s.pcs[t].Release? ==> s.pcs[t].day as int == s.lastDay)
    ensures var s', pc' := Step(p, s, t, c), Step(p, s, t, c).pcs[t];
      && s'.pcs == s.pcs[t := pc']
      && (s'.lastDay == s.lastDay || s.pcs[t].StoreDay?)
      && (pc'.Release? ==> pc'.day as int == s'.lastDay)
  {
    match s.pcs[t]
    case Recheck(_, _) =>
    case Open(_, _) =>
    case StoreDay(_, _) =>
    case _ =>
  }

  lemma LeftKept(p: Ids, s: State, t: nat, c: Choice)
    requires t < |s.pcs| && SectionOk(s) && LeftOk(s) && (s.pcs[t].Open? ==> c.ok)
    ensures LeftOk(Step(p, s, t, c))
  {
    hide Step;
    var s' := Step(p, s, t, c);
    LeftEffect(p, s, t, c);
    if s'.lastDay != s.lastDay {
      forall u | 0 <= u < |s.pcs| && u != t
        ensures !s.pcs[u].Release?
      {
        assert InSection(s.pcs[t]) && (s.pcs[u].Release? ==> InSection(s.pcs[u]));
      }
    }
  }

  /** When no opening has failed, a thread about to leave the section sees the file of its own day open, whoever
      opened it. */
  lemma {:induction false} LeavesWithItsDay(p: Ids, threads: nat, config: seq<int>, run: seq<(nat, Choice)>, t: nat)
    requires ProperIds(p) && ValidRun(Start(threads, config), run) && t < threads
    requires OpensSucceed(p, Start(threads, config), run)
    requires Exec(p, Start(threads, config), run).pcs[t].Release?
    ensures var s := Exec(p, Start(threads, config), run);
      && s.pcs[t].day as int == s.lastDay
      && |s.openings| > 0 && s.openings[|s.openings| - 1] == s.lastDay
  {
    hide Exec, InitOk, IdsOk;
    var s := Exec(p, Start(threads, config), run);
    RunKeepsInv(p, threads, config, run);
    RunLeaves(p, threads, config, run);
    forall u | 0 <= u < threads
      ensures !s.pcs[u].StoreDay?
    {
      assert InSection(s.pcs[t]);
      assert s.pcs[u].StoreDay? ==> InSection(s.pcs[u]);
    }
    assert LastOf(s.openings) == s.lastDay;
  }

  lemma {:induction false} RunLeaves(p: Ids, threads: nat, config: seq<int>, run: seq<(nat, Choice)>)
    requires ProperIds(p) && ValidRun(Start(threads, config), run)
    requires OpensSucceed(p, Start(threads, config), run)
    ensures LeftOk(Exec(p, Start(threads, config), run))
    decreases |run|
  {
    hide InitOk, IdsOk, SectionOk, DaysOk, Step;
    if |run| > 0 {
      var n := |run| - 1;
      assert forall i :: 0 <= i < n ==> run[..n][..i] == run[..i];
      RunLeaves(p, threads, config, run[..n]);
      RunKeepsInv(p, threads, config, run[..n]);
      LeftKept(p, Exec(p, Start(threads, config), run[..n]), run[n].0, run[n].1);
    }
  }
}
