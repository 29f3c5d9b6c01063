/** internal/temporal/supervise.go: the supervisor of the local Temporal dev server. */
module Supervisor {
  import opened Common

  datatype Signal = Term | Kill

  /**
   * The metadata file, by the process it names, and the processes of the host.
   * launched holds every process Start ever created; identifiers are not reused.
   */
  datatype World = World(
    meta: Option<nat>,
    live: set<nat>,
    launched: set<nat>,
    signals: seq<(nat, Signal)>,
    nextPid: nat)

  /** What one evaluation of the status observes besides the world. */
  datatype Observation = Observation(configured: bool, enabled: bool, readFails: bool, reachable: bool, healthy: bool)

  datatype State = StateDisabled | StateStopped | StateRunning | StateUnhealthy | StateUnmanaged | StateStale | StateError

  datatype Status = Status(configured: bool, enabled: bool, pid: Option<nat>, managed: bool, running: bool,
                           reachable: bool, healthy: bool, state: State)

  datatype Failure = NoFailure | Unmanaged | ReadFailed | RemoveFailed | BadAddress | RemoteStart | NoCLI
                   | StartFailed | NotReachable | WriteFailed | SignalFailed

  datatype Answer = Answer(status: Status, failure: Failure)

  /** What happens around one Start: dies says the new process ends by itself, termStops that a signal ends it. */
  datatype StartEnv = StartEnv(
    before: Observation,
    removeFails: bool, addressOk: bool, loopback: bool, cliFound: bool, startFails: bool,
    comesUp: bool, dies: bool, termStops: bool, writeFails: bool,
    after: Observation)

  /** And around one Stop: dies says the process ends by itself after the status was read. */
  datatype StopEnv = StopEnv(
    before: Observation,
    readFails: bool, dies: bool, termFails: bool, termStops: bool, killFails: bool, killStops: bool, removeFails: bool)

  // ---- Specification -----------------------------------------------------

  function Evaluate(w: World, o: Observation): Answer {
    var none := Status(false, false, None, false, false, false, false, StateDisabled);
    if !o.configured then Answer(none, NoFailure)
    else
      var known := none.(configured := true, enabled := o.enabled);
      if !o.enabled then Answer(known, NoFailure)
      else if o.readFails then Answer(known.(state := StateError), ReadFailed)
      else
        var managed := w.meta.Some?;
        var running := managed && w.meta.value in w.live;
        var named := known.(pid := w.meta, managed := managed, running := running);
        if managed && !running then Answer(named.(state := StateStale), NoFailure)
        else
          Answer(named.(reachable := o.reachable, healthy := o.healthy,
                        state := if running && o.healthy then StateRunning
                                 else if running then StateUnhealthy
                                 else if o.reachable then StateUnmanaged
                                 else StateStopped), NoFailure)
  }

  /** Whether Start gets as far as creating a process. */
  predicate Launches(w: World, env: StartEnv) {
    && env.before.configured && env.before.enabled && !env.before.readFails
    && (if w.meta.Some? then w.meta.value !in w.live && !env.removeFails else !env.before.reachable)
    && env.addressOk && env.loopback && env.cliFound && !env.startFails
  }

  function Gone(w: World, pid: nat, gone: bool): World {
    if gone then w.(live := w.live - {pid}) else w
  }

  function Sent(w: World, pid: nat, signal: Signal): World {
    w.(signals := w.signals + [(pid, signal)])
  }

  function Spawned(w: World): World {
    w.(live := w.live + {w.nextPid}, launched := w.launched + {w.nextPid}, nextPid := w.nextPid + 1)
  }

  /** From the point where the process has been created. */
  function Launched(w: World, status: Status, env: StartEnv): (World, Answer) {
    var pid := w.nextPid;
    var spawned := Gone(Spawned(w), pid, env.dies);
    if !env.comesUp then
      (Gone(Sent(spawned, pid, Term), pid, env.termStops), Answer(status.(state := StateError), NotReachable))
    else if env.writeFails then (spawned, Answer(status.(state := StateError), WriteFailed))
    else
      var named := spawned.(meta := Some(pid));
      (named, Evaluate(named, env.after))
  }

  function StartWorld(w: World, env: StartEnv): (World, Answer) {
    var evaluated := Evaluate(w, env.before);
    var status := evaluated.status;
    if evaluated.failure != NoFailure || !status.enabled || (status.managed && status.running) then (w, evaluated)
    else if status.state == StateStale && env.removeFails then (w, Answer(status, RemoveFailed))
    else if status.state != StateStale && status.reachable && !status.managed then (w, Answer(status, Unmanaged))
    else
      var cleared := w.(meta := None);
      var broken := status.(state := StateError);
      if !env.addressOk then (cleared, Answer(broken, BadAddress))
      else if !env.loopback then (cleared, Answer(broken, RemoteStart))
      else if !env.cliFound then (cleared, Answer(broken, NoCLI))
      else if env.startFails then (cleared, Answer(broken, StartFailed))
      else Launched(cleared, status, env)
  }

  /** Removes the metadata; after signals the status also forgets the process. */
  function RemoveMeta(w: World, status: Status, forget: bool, removeFails: bool): (World, Answer) {
    if removeFails then (w, Answer(status.(state := StateError), RemoveFailed))
    else
      var pid := if forget then None else status.pid;
      (w.(meta := None), Answer(status.(pid := pid, managed := false, running := false, state := StateStopped), NoFailure))
  }

  function SignalAll(w: World, pid: nat, status: Status, env: StopEnv): (World, Answer) {
    var broken := Answer(status.(state := StateError), SignalFailed);
    var termed := Gone(Sent(w, pid, Term), pid, !env.termFails && env.termStops);
    if env.termFails then (termed, broken)
    else if env.termStops then RemoveMeta(termed, status, true, env.removeFails)
    else
      var killed := Gone(Sent(termed, pid, Kill), pid, !env.killFails && env.killStops);
      if env.killFails then (killed, broken) else RemoveMeta(killed, status, true, env.removeFails)
  }

  function StopWorld(w: World, env: StopEnv): (World, Answer) {
    var evaluated := Evaluate(w, env.before);
    var status := evaluated.status;
    if evaluated.failure != NoFailure || !status.enabled then (w, evaluated)
    else if status.reachable && !status.managed then (w, Answer(status, Unmanaged))
    else if env.readFails then (w, Answer(status.(state := StateError), ReadFailed))
    else if w.meta.None? then (w, Answer(status.(state := StateStopped), NoFailure))
    else
      var now := Gone(w, w.meta.value, env.dies);
      if w.meta.value !in now.live then RemoveMeta(now, status, false, env.removeFails)
      else SignalAll(now, w.meta.value, status, env)
  }

  function RestartWorld(w: World, stop: StopEnv, start: StartEnv): (World, Answer) {
    var (stopped, answer) := StopWorld(w, stop);
    if answer.failure != NoFailure then
      (stopped, Answer(Status(false, false, None, false, false, false, false, StateDisabled), answer.failure))
    else StartWorld(stopped, start)
  }

  // ---- Runs --------------------------------------------------------------

  /** The calls of the supervisor, and in between the end of any process and the start of one that is not its own. */
  datatype Call = Start(env: StartEnv) | Stop(stop: StopEnv) | Restart(stop: StopEnv, env: StartEnv) | Death(pid: nat) | Foreign

  function Do(w: World, call: Call): World {
    match call
    case Start(env) => StartWorld(w, env).0
    case Stop(env) => StopWorld(w, env).0
    case Restart(stop, start) => RestartWorld(w, stop, start).0
    case Death(pid) => Gone(w, pid, true)
    case Foreign => w.(live := w.live + {w.nextPid}, nextPid := w.nextPid + 1)
  }

  function Run(w: World, calls: seq<Call>): World {
    if calls == [] then w else Do(Run(w, calls[..|calls| - 1]), calls[|calls| - 1])
  }

  // ---- Ownership ---------------------------------------------------------

  /** The metadata names a process Start launched, so does every signal, and new identifiers are new. */
  predicate Owned(w: World) {
    && (w.meta.Some? ==> w.meta.value in w.launched)
    && (forall i | 0 <= i < |w.signals| :: w.signals[i].0 in w.launched)
    && (forall p | p in w.live :: p < w.nextPid)
    && (forall p | p in w.launched :: p < w.nextPid)
  }

  lemma StartOwned(w: World, env: StartEnv)
    requires Owned(w)
    ensures Owned(StartWorld(w, env).0)
  {
  }

  lemma StopOwned(w: World, env: StopEnv)
    requires Owned(w)
    ensures Owned(StopWorld(w, env).0)
  {
  }

  /** Whatever fails, over any run every signalled process group was launched by Start. */
  lemma {:induction false} SignalsOnlyOwn(w: World, calls: seq<Call>)
    requires Owned(w)
    ensures Owned(Run(w, calls))
  {
    if calls != [] {
      var front, call := calls[..|calls| - 1], calls[|calls| - 1];
      SignalsOnlyOwn(w, front);
      var before := Run(w, front);
      match call {
        case Start(env) => StartOwned(before, env);
        case Stop(env) => StopOwned(before, env);
        case Restart(stop, start) =>
          StopOwned(before, stop);
          StartOwned(StopWorld(before, stop).0, start);
        case Death(pid) =>
        case Foreign =>
      }
    }
  }

  /** The metadata can be read and no foreign server is in the way. */
  predicate Clear(w: World, o: Observation) {
    !o.readFails && (w.meta.None? ==> !o.reachable)
  }

  // ---- Signals -----------------------------------------------------------

  /** Stop gets as far as signalling the process the metadata names. */
  predicate Signals(w: World, env: StopEnv) {
    && env.before.configured && env.before.enabled && !env.before.readFails && !env.readFails
    && w.meta.Some? && w.meta.value in w.live && !env.dies
  }

  /** Stop terminates the process the metadata names, and kills it exactly when the first signal was sent and did not end it. */
  lemma StopSignals(w: World, env: StopEnv)
    ensures StopWorld(w, env).0.signals == w.signals +
      if !Signals(w, env) then []
      else if env.termFails || env.termStops then [(w.meta.value, Term)]
      else [(w.meta.value, Term), (w.meta.value, Kill)]
  {
    if Signals(w, env) && !env.termFails && !env.termStops {
      var pid := w.meta.value;
      assert w.signals + [(pid, Term)] + [(pid, Kill)] == w.signals + [(pid, Term), (pid, Kill)];
    }
  }

  /** Start terminates the process it created exactly when that did not come up, and signals no other. */
  lemma StartSignals(w: World, env: StartEnv)
    ensures StartWorld(w, env).0.signals ==
      w.signals + if Launches(w, env) && !env.comesUp then [(w.nextPid, Term)] else []
  {
  }

  /** Which processes a Stop ends: at most the one the metadata names, by itself or by a signal that was sent and works. */
  lemma StopEnds(w: World, env: StopEnv)
    ensures var after := StopWorld(w, env).0;
      var reached := env.before.configured && env.before.enabled && Clear(w, env.before) && !env.readFails && w.meta.Some?;
      var signalled := !env.termFails && (env.termStops || (!env.killFails && env.killStops));
      && after.launched == w.launched && after.nextPid == w.nextPid
      && after.live == if reached && (env.dies || signalled) then w.live - {w.meta.value} else w.live
  {
  }

  /** The process a Start creates is live afterwards unless it ended by itself or was terminated; no other process is touched. */
  lemma StartMakes(w: World, env: StartEnv)
    ensures var after := StartWorld(w, env).0;
      if !Launches(w, env) then after.live == w.live && after.launched == w.launched && after.nextPid == w.nextPid
      else
        && after.launched == w.launched + {w.nextPid} && after.nextPid == w.nextPid + 1
        && after.live - {w.nextPid} == w.live - {w.nextPid}
        && (w.nextPid in after.live <==> !env.dies && (env.comesUp || !env.termStops))
  {
  }

  /** Every kill is directly preceded by a termination of the same process. */
  predicate KillsAfterTerm(signals: seq<(nat, Signal)>) {
    forall i | 0 <= i < |signals| && signals[i].1 == Kill :: i > 0 && signals[i - 1] == (signals[i].0, Term)
  }

  lemma KillsStep(signals: seq<(nat, Signal)>, pid: nat)
    requires KillsAfterTerm(signals)
    ensures KillsAfterTerm(signals + [(pid, Term)]) && KillsAfterTerm(signals + [(pid, Term), (pid, Kill)])
  {
    var twice := signals + [(pid, Term), (pid, Kill)];
    assert twice[|signals|] == (pid, Term) && twice[|signals| + 1] == (pid, Kill);
    assert forall i | 0 <= i < |signals| :: twice[i] == signals[i];
  }

  lemma StopKeepsOrder(w: World, env: StopEnv)
    requires KillsAfterTerm(w.signals)
    ensures KillsAfterTerm(StopWorld(w, env).0.signals)
  {
    StopSignals(w, env);
    if Signals(w, env) { KillsStep(w.signals, w.meta.value); } else { assert w.signals + [] == w.signals; }
  }

  lemma StartKeepsOrder(w: World, env: StartEnv)
    requires KillsAfterTerm(w.signals)
    ensures KillsAfterTerm(StartWorld(w, env).0.signals)
  {
    StartSignals(w, env);
    KillsStep(w.signals, w.nextPid);
    assert w.signals + [] == w.signals;
  }

  /** Over any run, whatever fails. */
  lemma {:induction false} KillsOnlyAfterTerm(w: World, calls: seq<Call>)
    requires KillsAfterTerm(w.signals)
    ensures KillsAfterTerm(Run(w, calls).signals) && w.signals <= Run(w, calls).signals
  {
    if calls != [] {
      var front, call := calls[..|calls| - 1], calls[|calls| - 1];
      KillsOnlyAfterTerm(w, front);
      var before := Run(w, front);
      match call {
        case Start(env) => StartKeepsOrder(before, env); StartSignals(before, env);
        case Stop(env) => StopKeepsOrder(before, env); StopSignals(before, env);
        case Restart(stop, start) =>
          var stopped := StopWorld(before, stop).0;
          StopKeepsOrder(before, stop); StopSignals(before, stop);
          StartKeepsOrder(stopped, start); StartSignals(stopped, start);
        case Death(pid) =>
        case Foreign =>
      }
    }
  }

  // ---- Why a call fails --------------------------------------------------

  predicate RunsAlready(w: World) {
    w.meta.Some? && w.meta.value in w.live
  }

  /**
   * Each failure of Start has its one cause, given that nothing before it failed, and
   * what is done is then as far as it got.
   */
  lemma StartFailures(w: World, env: StartEnv)
    ensures var (after, answer) := StartWorld(w, env);
      var asked := env.before.configured && env.before.enabled;
      var tried := asked && Clear(w, env.before) && !RunsAlready(w);
      var cleared := tried && !(w.meta.Some? && env.removeFails);
      && (!tried ==> after == w && answer.status == Evaluate(w, env.before).status)
      && (!asked ==> answer.failure == NoFailure)
      && (asked && env.before.readFails ==> answer.failure == ReadFailed)
      && (asked && !env.before.readFails && w.meta.None? && env.before.reachable ==> answer.failure == Unmanaged)
      && (asked && !env.before.readFails && RunsAlready(w) ==> answer.failure == NoFailure)
      && (tried && !cleared ==> after == w && answer.failure == RemoveFailed)
      && (cleared && !Launches(w, env) ==> after == w.(meta := None) && answer.status.state == StateError)
      && (cleared && !env.addressOk ==> answer.failure == BadAddress)
      && (cleared && env.addressOk && !env.loopback ==> answer.failure == RemoteStart)
      && (cleared && env.addressOk && env.loopback && !env.cliFound ==> answer.failure == NoCLI)
      && (cleared && env.addressOk && env.loopback && env.cliFound && env.startFails ==> answer.failure == StartFailed)
      && (Launches(w, env) && !env.comesUp ==> after.meta.None? && answer.failure == NotReachable && answer.status.state == StateError)
      && (Launches(w, env) && env.comesUp && env.writeFails ==>
            after.meta.None? && answer.failure == WriteFailed && answer.status.state == StateError)
      && (Launches(w, env) && env.comesUp && !env.writeFails ==> after.meta == Some(w.nextPid) && answer == Evaluate(after, env.after))
  {
  }

  /** Each failure of Stop has its one cause, and a failure keeps the metadata. */
  lemma StopFailures(w: World, env: StopEnv)
    ensures var (after, answer) := StopWorld(w, env);
      var asked := env.before.configured && env.before.enabled;
      var managed := asked && Clear(w, env.before) && !env.readFails && w.meta.Some?;
      var signalled := Signals(w, env) && !env.termFails && (env.termStops || !env.killFails);
      && (!asked ==> after == w && answer.failure == NoFailure)
      && (asked && env.before.readFails ==> after == w && answer.failure == ReadFailed)
      && (asked && !env.before.readFails && w.meta.None? && env.before.reachable ==> after == w && answer.failure == Unmanaged)
      && (asked && Clear(w, env.before) && env.readFails ==> after == w && answer.failure == ReadFailed)
      && (asked && Clear(w, env.before) && !env.readFails && w.meta.None? ==>
            after == w && answer.failure == NoFailure && answer.status.state == StateStopped)
      && (Signals(w, env) && !signalled ==> after.meta == w.meta && answer.failure == SignalFailed && answer.status.state == StateError)
      && (managed && (Signals(w, env) ==> signalled) && env.removeFails ==>
            after.meta == w.meta && answer.failure == RemoveFailed && answer.status.state == StateError)
      && (managed && (Signals(w, env) ==> signalled) && !env.removeFails ==>
            after.meta.None? && answer.failure == NoFailure
            && answer.status.state == StateStopped && !answer.status.managed && !answer.status.running
            && answer.status.pid == if Signals(w, env) then None else w.meta)
  {
  }

  /** A restart whose stop fails starts nothing and reports that failure with an empty status. */
  lemma RestartFailures(w: World, stop: StopEnv, start: StartEnv)
    requires StopWorld(w, stop).1.failure != NoFailure
    ensures var (after, answer) := RestartWorld(w, stop, start);
      && after == StopWorld(w, stop).0 && after.launched == w.launched
      && answer.failure == StopWorld(w, stop).1.failure && !answer.status.configured && answer.status.state == StateDisabled
  {
  }

  /** What is reported before anything is probed. */
  lemma StatusWithoutProbes(w: World, o: Observation)
    ensures var answer := Evaluate(w, o);
      && answer.status.configured == o.configured && answer.status.enabled == (o.configured && o.enabled)
      && (answer.failure != NoFailure <==> o.configured && o.enabled && o.readFails)
      && (!(o.configured && o.enabled) ==> answer.status.state == StateDisabled)
      && (answer.failure != NoFailure ==> answer.failure == ReadFailed && answer.status.state == StateError)
      && (!(o.configured && o.enabled) || o.readFails ==> answer.status.pid.None? && !answer.status.managed && !answer.status.running)
      && (o.configured && o.enabled && !o.readFails ==>
            && answer.status.pid == w.meta && answer.status.managed == w.meta.Some? && answer.status.running == RunsAlready(w))
      && (answer.status.reachable || answer.status.healthy ==>
            o.configured && o.enabled && !o.readFails && (w.meta.Some? ==> RunsAlready(w)))
      && (o.configured && o.enabled && !o.readFails && (w.meta.Some? ==> RunsAlready(w)) ==>
            answer.status.reachable == o.reachable && answer.status.healthy == o.healthy)
  {
  }

  // ---- Uniqueness --------------------------------------------------------

  /** Every live server Start launched is the one the metadata names, so there is at most one. */
  predicate Unique(w: World) {
    forall p | p in w.live && p in w.launched :: w.meta == Some(p)
  }

  lemma UniqueMeansOne(w: World)
    requires Unique(w)
    ensures |w.live * w.launched| <= 1
  {
    var own := w.live * w.launched;
    if p :| p in own {
      assert own == {p} by { assert forall q | q in own :: q == p; }
    }
  }

  /** Start leaves a live server without metadata: it did not come up and survived the signal, or the metadata could not be written. */
  predicate StartLeaks(w: World, env: StartEnv) {
    Launches(w, env) && !env.dies && (if env.comesUp then env.writeFails else !env.termStops)
  }

  /** Start keeps uniqueness exactly when it does not leak. */
  lemma StartUnique(w: World, env: StartEnv)
    requires Owned(w) && Unique(w)
    ensures Unique(StartWorld(w, env).0) <==> !StartLeaks(w, env)
  {
    var after := StartWorld(w, env).0;
    if StartLeaks(w, env) {
      assert w.nextPid in after.live && w.nextPid in after.launched;
    }
  }

  /** Stop drops the metadata of a server that neither signal ended. */
  predicate StopLeaks(w: World, env: StopEnv) {
    && env.before.configured && env.before.enabled && !env.before.readFails && !env.readFails
    && w.meta.Some? && w.meta.value in w.live && !env.dies
    && !env.termFails && !env.termStops && !env.killFails && !env.killStops && !env.removeFails
  }

  lemma StopUnique(w: World, env: StopEnv)
    requires Owned(w) && Unique(w)
    ensures Unique(StopWorld(w, env).0) <==> !StopLeaks(w, env)
  {
    var after := StopWorld(w, env).0;
    if StopLeaks(w, env) {
      assert w.meta.value in after.live && w.meta.value in after.launched;
    }
  }

  /** Metadata can be written, and a signal, or the second one of Stop, ends the process it is sent to. */
  predicate Effective(call: Call) {
    match call
    case Start(env) => !env.writeFails && env.termStops
    case Stop(env) => env.termStops || env.killStops
    case Restart(stop, start) => (stop.termStops || stop.killStops) && !start.writeFails && start.termStops
    case Death(_) => true
    case Foreign => true
  }

  /** With effective signals and metadata, at most one launched server is live after each call, and the metadata names it. */
  lemma {:induction false} OneServer(w: World, calls: seq<Call>)
    requires Owned(w) && Unique(w) && forall i | 0 <= i < |calls| :: Effective(calls[i])
    ensures Unique(Run(w, calls)) && |Run(w, calls).live * Run(w, calls).launched| <= 1
  {
    if calls != [] {
      var front, call := calls[..|calls| - 1], calls[|calls| - 1];
      assert forall i | 0 <= i < |front| :: front[i] == calls[i];
      OneServer(w, front);
      SignalsOnlyOwn(w, front);
      EffectiveCall(Run(w, front), call);
    }
    UniqueMeansOne(Run(w, calls));
  }

  lemma EffectiveCall(w: World, call: Call)
    requires Owned(w) && Unique(w) && Effective(call)
    ensures Unique(Do(w, call))
  {
    match call {
      case Start(env) => StartUnique(w, env);
      case Stop(env) => StopUnique(w, env);
      case Restart(stop, start) =>
        StopOwned(w, stop);
        StopUnique(w, stop);
        StartUnique(StopWorld(w, stop).0, start);
      case Death(pid) =>
      case Foreign =>
    }
  }

  // ---- Leaks -------------------------------------------------------------

  const FRESH := World(None, {}, {}, [], 0)

  const STOPPED := Observation(true, true, false, false, false)

  /** A start on an idle host whose server never answers and ignores the one signal. */
  const DEAF_START := StartEnv(STOPPED, false, true, true, true, false, false, false, false, false, STOPPED)

  /** From a fresh host, two such starts leave two live servers of the supervisor and no metadata. */
  lemma StartLeaksTwice()
    ensures Owned(FRESH) && Unique(FRESH)
    ensures var w := Run(FRESH, [Start(DEAF_START), Start(DEAF_START)]);
      w.live * w.launched == {0, 1} && w.meta.None? && !Unique(w)
  {
    var calls := [Start(DEAF_START), Start(DEAF_START)];
    assert calls[..1] == [Start(DEAF_START)] && [Start(DEAF_START)][..0] == [];
    var once := World(None, {0}, {0}, [(0, Term)], 1);
    assert Run(FRESH, []) == FRESH && Run(FRESH, [Start(DEAF_START)]) == once;
    assert Run(FRESH, calls) == World(None, {0, 1}, {0, 1}, [(0, Term), (1, Term)], 2);
  }

  const GOOD_START := StartEnv(STOPPED, false, true, true, true, false, true, false, true, false, STOPPED)

  /** A stop whose signals are both sent and both ignored. */
  const DEAF_STOP := StopEnv(Observation(true, true, false, true, true), false, false, false, false, false, false, false)

  /** From a fresh host, a good start and a stop that neither signal carries out leave a live server that nothing names. */
  lemma StopLeavesUnnamed()
    ensures var w := Run(FRESH, [Start(GOOD_START), Stop(DEAF_STOP)]);
      w.live * w.launched == {0} && w.meta.None? && !Unique(w)
  {
    var calls := [Start(GOOD_START), Stop(DEAF_STOP)];
    assert calls[..1] == [Start(GOOD_START)] && [Start(GOOD_START)][..0] == [];
    assert Run(FRESH, []) == FRESH && Run(FRESH, [Start(GOOD_START)]) == World(Some(0), {0}, {0}, [], 1);
    assert Run(FRESH, calls) == World(None, {0}, {0}, [(0, Term), (0, Kill)], 1);
  }

  // ---- What the calls promise --------------------------------------------

  /** The reported state tells whether the one launched server is live, whether one was, and whether a foreign one answers. */
  lemma StatusTellsTruth(w: World, o: Observation)
    requires Owned(w) && Unique(w) && o.configured && o.enabled && !o.readFails
    ensures var status := Evaluate(w, o).status;
      var own := w.live * w.launched;
      && (status.running <==> own != {}) && (status.running ==> status.pid.Some? && own == {status.pid.value})
      && (status.state == StateRunning <==> own != {} && o.healthy)
      && (status.state == StateUnhealthy <==> own != {} && !o.healthy)
      && (status.state == StateStale <==> own == {} && w.meta.Some?)
      && (status.state == StateUnmanaged <==> w.meta.None? && o.reachable)
      && (status.state == StateStopped <==> w.meta.None? && !o.reachable)
  {
    var own := w.live * w.launched;
    if w.meta.Some? && w.meta.value in w.live {
      assert w.meta.value in own;
      assert own == {w.meta.value} by { assert forall q | q in own :: w.meta == Some(q); }
    } else {
      assert forall p :: p !in own;
    }
  }

  /** A Stop that reports success leaves no metadata, and no launched server unless it leaked one. */
  lemma StopStops(w: World, env: StopEnv)
    requires Owned(w) && Unique(w) && !StopLeaks(w, env)
    requires env.before.configured && env.before.enabled
    ensures var (after, answer) := StopWorld(w, env);
      answer.failure == NoFailure ==> after.meta.None? && after.live * after.launched == {} && answer.status.state == StateStopped
  {
    StopUnique(w, env);
  }

  /** Start creates a process only when no launched server is live. */
  lemma StartNeedsNone(w: World, env: StartEnv)
    requires Owned(w) && Unique(w)
    ensures var after := StartWorld(w, env).0;
      && (after.launched != w.launched <==> Launches(w, env))
      && (Launches(w, env) ==> w.live * w.launched == {} && after.launched == w.launched + {w.nextPid})
  {
    assert w.nextPid !in w.launched;
  }

  /**
   * Start refuses a foreign server only when there is no metadata at all: stale
   * metadata makes it launch beside a server it did not look for.
   */
  lemma RefusesForeign(w: World, env: StartEnv)
    requires env.before.configured && env.before.enabled && !env.before.readFails
    ensures StartWorld(w, env).1.failure == Unmanaged <==> w.meta.None? && env.before.reachable
  {
  }

  lemma StaleMetadataSkipsTheCheck(w: World, env: StartEnv)
    requires env.before == Observation(true, true, false, true, true) && w.meta.Some? && w.meta.value !in w.live
    requires !env.removeFails && env.addressOk && env.loopback && env.cliFound && !env.startFails
    ensures Launches(w, env) && StartWorld(w, env).0.launched == w.launched + {w.nextPid}
  {
  }

  /** A successful restart replaces the server: what runs afterwards under OCA was launched by it. */
  lemma RestartReplaces(w: World, stop: StopEnv, start: StartEnv)
    requires Owned(w) && Unique(w) && Effective(Restart(stop, start))
    requires stop.before.configured && stop.before.enabled && start.before.configured && start.before.enabled
    ensures var (after, answer) := RestartWorld(w, stop, start);
      answer.failure == NoFailure ==>
        && after.meta == Some(w.nextPid)
        && (forall p | p in after.live && p in after.launched :: p == w.nextPid)
  {
    StopUnique(w, stop);
    StopOwned(w, stop);
    StopStops(w, stop);
    var stopped := StopWorld(w, stop).0;
    StartUnique(stopped, start);
  }

  // ---- The calls ---------------------------------------------------------

  class Host {
    var meta: Option<nat>
    var live: set<nat>
    var launched: set<nat>
    var signals: seq<(nat, Signal)>
    var nextPid: nat

    constructor ()
      ensures Now() == FRESH && Owned(Now()) && Unique(Now())
    {
      meta, live, launched, signals, nextPid := None, {}, {}, [], 0;
    }

    function Now(): World
      reads this
    {
      World(meta, live, launched, signals, nextPid)
    }

    method EvaluateStatus(o: Observation) returns (answer: Answer)
      ensures answer == Evaluate(Now(), o)
    {
      var status := Status(false, false, None, false, false, false, false, StateDisabled);
      if !o.configured { return Answer(status, NoFailure); }
      status := status.(configured := true, enabled := o.enabled);
      if !status.enabled { return Answer(status, NoFailure); }
      if o.readFails { return Answer(status.(state := StateError), ReadFailed); }
      if meta.Some? {
        status := status.(pid := meta, managed := true, running := meta.value in live);
        if !status.running { return Answer(status.(state := StateStale), NoFailure); }
      }
      status := status.(reachable := o.reachable, healthy := o.healthy);
      if status.managed && status.running && status.healthy {
        status := status.(state := StateRunning);
      } else if status.managed && status.running {
        status := status.(state := StateUnhealthy);
      } else if status.reachable {
        status := status.(state := StateUnmanaged);
      } else {
        status := status.(state := StateStopped);
      }
      return Answer(status, NoFailure);
    }

    method Start(env: StartEnv) returns (answer: Answer)
      modifies this
      ensures (Now(), answer) == StartWorld(old(Now()), env)
      ensures signals == old(signals) +
        if Launches(old(Now()), env) && !env.comesUp then [(old(nextPid), Term)] else []
    {
      StartSignals(Now(), env);
      var evaluated := EvaluateStatus(env.before);
      var status := evaluated.status;
      if evaluated.failure != NoFailure || !status.enabled { return evaluated; }
      if status.managed && status.running { return evaluated; }
      if status.state == StateStale {
        if env.removeFails { return Answer(status, RemoveFailed); }
        meta := None;
      } else if status.reachable && !status.managed {
        return Answer(status, Unmanaged);
      }
      if !env.addressOk { return Answer(status.(state := StateError), BadAddress); }
      if !env.loopback { return Answer(status.(state := StateError), RemoteStart); }
      if !env.cliFound { return Answer(status.(state := StateError), NoCLI); }
      if env.startFails { return Answer(status.(state := StateError), StartFailed); }
      answer := Launch(status, env);
    }

    method Launch(status: Status, env: StartEnv) returns (answer: Answer)
      modifies this
      ensures (Now(), answer) == Launched(old(Now()), status, env)
    {
      var pid := nextPid;
      live, launched, nextPid := live + {pid}, launched + {pid}, nextPid + 1;
      if env.dies { live := live - {pid}; }
      if !env.comesUp {
        signals := signals + [(pid, Term)];
        if env.termStops { live := live - {pid}; }
        return Answer(status.(state := StateError), NotReachable);
      }
      if env.writeFails { return Answer(status.(state := StateError), WriteFailed); }
      meta := Some(pid);
      answer := EvaluateStatus(env.after);
    }

    method RemoveMetadata(status: Status, forget: bool, removeFails: bool) returns (answer: Answer)
      modifies this`meta
      ensures (Now(), answer) == RemoveMeta(old(Now()), status, forget, removeFails)
    {
      if removeFails { return Answer(status.(state := StateError), RemoveFailed); }
      meta := None;
      var now := status.(managed := false, running := false, state := StateStopped);
      if forget { now := now.(pid := None); }
      return Answer(now, NoFailure);
    }

    method SignalGroup(pid: nat, signal: Signal, fails: bool, stops: bool) returns (ok: bool)
      modifies this`signals, this`live
      ensures ok == !fails && Now() == Gone(Sent(old(Now()), pid, signal), pid, !fails && stops)
    {
      signals := signals + [(pid, signal)];
      if fails { return false; }
      if stops { live := live - {pid}; }
      return true;
    }

    method Stop(env: StopEnv) returns (answer: Answer)
      modifies this
      ensures (Now(), answer) == StopWorld(old(Now()), env)
      ensures signals == old(signals) +
        if !Signals(old(Now()), env) then []
        else if env.termFails || env.termStops then [(old(meta).value, Term)]
        else [(old(meta).value, Term), (old(meta).value, Kill)]
    {
      StopSignals(Now(), env);
      var evaluated := EvaluateStatus(env.before);
      var status := evaluated.status;
      if evaluated.failure != NoFailure || !status.enabled { return evaluated; }
      if status.reachable && !status.managed { return Answer(status, Unmanaged); }
      if env.readFails { return Answer(status.(state := StateError), ReadFailed); }
      if meta.None? { return Answer(status.(state := StateStopped), NoFailure); }
      var pid := meta.value;
      if env.dies { live := live - {pid}; }
      if pid !in live {
        answer := RemoveMetadata(status, false, env.removeFails);
        return;
      }
      var sent := SignalGroup(pid, Term, env.termFails, env.termStops);
      if !sent { return Answer(status.(state := StateError), SignalFailed); }
      if !env.termStops {
        sent := SignalGroup(pid, Kill, env.killFails, env.killStops);
        if !sent { return Answer(status.(state := StateError), SignalFailed); }
      }
      answer := RemoveMetadata(status, true, env.removeFails);
    }

    method Restart(stop: StopEnv, start: StartEnv) returns (answer: Answer)
      modifies this
      ensures (Now(), answer) == RestartWorld(old(Now()), stop, start)
    {
      var stopped := Stop(stop);
      if stopped.failure != NoFailure {
        return Answer(Status(false, false, None, false, false, false, false, StateDisabled), stopped.failure);
      }
      answer := Start(start);
    }
  }
}
