/** internal/plugin/probe.go: probing plugins at the same time, a bounded number at once. */
module ProbeAll {
  import opened Common
  import opened Ordering

  datatype Plugin = Plugin(ref: string, enabled: bool, npm: bool)

  datatype Status = UpToDate | UpdateAvailable | Pinned | Unknown

  datatype DriftResult = DriftResult(name: string, ref: string, localSHA: string, remoteSHA: string, status: Status, error: string)

  /** What one probe of a plugin comes to; a failure may come before or after the local revision is known. */
  datatype Outcome = Resolved(local: string, remote: string) | FullSHA(local: string) | Failed(localSHA: string, message: string)

  /** How a goroutine ends. */
  datatype Ending = Cancelled | Probed(outcome: Outcome)

  const CONTEXT_ERROR := "context deadline exceeded"

  function RefOf(p: Plugin): string {
    if p.ref == "" then "trunk" else p.ref
  }

  function ResultOf(name: string, p: Plugin, outcome: Outcome): DriftResult {
    match outcome
    case Resolved(local, remote) =>
      DriftResult(name, RefOf(p), local, remote, if local == remote then UpToDate else UpdateAvailable, "")
    case FullSHA(local) => DriftResult(name, RefOf(p), local, RefOf(p), Pinned, "")
    case Failed(local, message) => DriftResult(name, RefOf(p), local, "", Unknown, message)
  }

  function Initial(name: string, p: Plugin): DriftResult {
    DriftResult(name, RefOf(p), "", "", Unknown, "")
  }

  function Parallelism(requested: int): (cap: nat)
    ensures cap > 0
  {
    if requested <= 0 then 4 else requested
  }

  // ---- Which plugins -----------------------------------------------------

  predicate Chosen(name: string, p: Plugin, selected: map<string, bool>) {
    && (selected == map[] || (name in selected && selected[name]))
    && p.enabled && !p.npm
  }

  method SelectNames(plugins: map<string, Plugin>, selected: map<string, bool>) returns (names: seq<string>)
    ensures Sorted(names) && NoDup(names)
    ensures forall n :: n in names <==> n in plugins && Chosen(n, plugins[n], selected)
  {
    var chosen := {};
    var todo := plugins.Keys;
    while todo != {}
      invariant todo <= plugins.Keys
      invariant forall n :: n in chosen <==> n in plugins && n !in todo && Chosen(n, plugins[n], selected)
    {
      var name :| name in todo;
      todo := todo - {name};
      if selected != map[] && !(name in selected && selected[name]) { continue; }
      if !plugins[name].enabled || plugins[name].npm { continue; }
      chosen := chosen + {name};
    }
    names := SortedNames(chosen);
    assert forall n :: n in names <==> n in Elements(names);
  }

  // ---- The goroutines ----------------------------------------------------

  datatype Worker =
    | Waiting                      // for a token, or for the deadline
    | Probing                      // holds a token
    | Recorded(outcome: Outcome)   // holds a token, result written, error not reported yet
    | GaveUp                       // result written, error not reported yet
    | Leaving(ending: Ending)      // holds a token
    | Done(ending: Ending)

  datatype Step =
    | Start(i: nat)
    | GiveUp(i: nat)
    | Finish(i: nat, outcome: Outcome)
    | ReportError(i: nat)
    | Release(i: nat)
    | Expire

  datatype State = State(workers: seq<Worker>, results: seq<DriftResult>, firstErr: Option<string>, tokens: nat, expired: bool)

  /** The names, sorted, and their plugins. */
  datatype Job = Job(names: seq<string>, plugins: seq<Plugin>, cap: nat)

  predicate WellFormed(job: Job) {
    |job.names| == |job.plugins| && job.cap > 0
  }

  /** The job of one call, over the selected names. */
  function JobOf(plugins: map<string, Plugin>, names: seq<string>, parallelism: int): (job: Job)
    requires forall n | n in names :: n in plugins
    ensures WellFormed(job) && job.names == names && job.cap == Parallelism(parallelism)
    ensures forall i | 0 <= i < |names| :: names[i] in plugins && job.plugins[i] == plugins[names[i]]
  {
    Job(names, seq(|names|, i requires 0 <= i < |names| => assert names[i] in names; plugins[names[i]]), Parallelism(parallelism))
  }

  function Begin(job: Job): State
    requires WellFormed(job)
  {
    State(seq(|job.names|, i => Waiting),
          seq(|job.names|, i requires 0 <= i < |job.names| => Initial(job.names[i], job.plugins[i])),
          None, 0, false)
  }

  function FirstOf(first: Option<string>, message: string): Option<string> {
    if first.None? then Some(message) else first
  }

  predicate Fails(outcome: Outcome) {
    outcome.Failed?
  }

  /** What a step of a goroutine can change: itself, its result, the first error and the tokens in use. */
  datatype Local = Local(worker: Worker, result: DriftResult, firstErr: Option<string>, tokens: nat)

  function Move(cap: nat, name: string, p: Plugin, expired: bool, l: Local, step: Step): Local {
    match step
    case Start(_) =>
      if l.worker.Waiting? && l.tokens < cap then l.(worker := Probing, tokens := l.tokens + 1) else l
    case GiveUp(_) =>
      if l.worker.Waiting? && expired then l.(worker := GaveUp, result := l.result.(error := CONTEXT_ERROR)) else l
    case Finish(_, outcome) =>
      if l.worker.Probing? then
        l.(worker := if Fails(outcome) then Recorded(outcome) else Leaving(Probed(outcome)),
           result := ResultOf(name, p, outcome))
      else l
    case ReportError(_) =>
      if l.worker.Recorded? && Fails(l.worker.outcome) then
        l.(worker := Leaving(Probed(l.worker.outcome)), firstErr := FirstOf(l.firstErr, l.worker.outcome.message))
      else if l.worker.GaveUp? then
        l.(worker := Done(Cancelled), firstErr := FirstOf(l.firstErr, CONTEXT_ERROR))
      else l
    case Release(_) =>
      if l.worker.Leaving? && l.tokens > 0 then l.(worker := Done(l.worker.ending), tokens := l.tokens - 1) else l
    case Expire => l
  }

  /** One atomic step; a step that is not possible changes nothing. */
  function Do(job: Job, st: State, step: Step): State
    requires WellFormed(job) && |st.workers| == |st.results| == |job.names|
  {
    if step.Expire? then st.(expired := true)
    else if step.i >= |st.workers| then st
    else
      var i := step.i;
      var l := Move(job.cap, job.names[i], job.plugins[i], st.expired, LocalAt(st, i), step);
      PutBack(st, i, l)
  }

  function PutBack(st: State, i: nat, l: Local): State
    requires i < |st.workers| == |st.results|
  {
    State(st.workers[i := l.worker], st.results[i := l.result], l.firstErr, l.tokens, st.expired)
  }

  function LocalAt(st: State, i: nat): Local
    requires i < |st.workers| == |st.results|
  {
    Local(st.workers[i], st.results[i], st.firstErr, st.tokens)
  }

  /** Any interleaving is a schedule. */
  function After(job: Job, schedule: seq<Step>): (st: State)
    requires WellFormed(job)
    ensures |st.workers| == |st.results| == |job.names|
  {
    if schedule == [] then Begin(job)
    else Do(job, After(job, schedule[..|schedule| - 1]), schedule[|schedule| - 1])
  }

  // ---- What every interleaving keeps -------------------------------------

  predicate Holds(w: Worker) {
    w.Probing? || w.Recorded? || w.Leaving?
  }

  function Holders(workers: seq<Worker>): nat {
    if workers == [] then 0
    else Holders(workers[..|workers| - 1]) + (if Holds(workers[|workers| - 1]) then 1 else 0)
  }

  lemma {:induction false} HoldersUpdate(workers: seq<Worker>, i: nat, w: Worker)
    requires i < |workers|
    ensures Holders(workers[i := w]) ==
      Holders(workers) - (if Holds(workers[i]) then 1 else 0) + (if Holds(w) then 1 else 0)
  {
    var n := |workers| - 1;
    if i == n {
      assert workers[i := w][..n] == workers[..n];
    } else {
      assert workers[i := w][..n] == workers[..n][i := w];
      HoldersUpdate(workers[..n], i, w);
    }
  }

  /** The entry of a plugin's result, given how far its goroutine is. */
  function Expected(name: string, p: Plugin, w: Worker): DriftResult {
    match w
    case Waiting => Initial(name, p)
    case Probing => Initial(name, p)
    case Recorded(outcome) => ResultOf(name, p, outcome)
    case GaveUp => Initial(name, p).(error := CONTEXT_ERROR)
    case Leaving(ending) => Reported(name, p, ending)
    case Done(ending) => Reported(name, p, ending)
  }

  function Reported(name: string, p: Plugin, ending: Ending): DriftResult {
    match ending
    case Cancelled => Initial(name, p).(error := CONTEXT_ERROR)
    case Probed(outcome) => ResultOf(name, p, outcome)
  }

  function ErrorOf(ending: Ending): Option<string> {
    match ending
    case Cancelled => Some(CONTEXT_ERROR)
    case Probed(outcome) => if Fails(outcome) then Some(outcome.message) else None
  }

  /** The error a goroutine has reported. */
  function ReportedError(w: Worker): Option<string> {
    if w.Leaving? || w.Done? then ErrorOf(w.ending) else None
  }

  predicate Counted(job: Job, st: State) {
    st.tokens == Holders(st.workers) && st.tokens <= job.cap
  }

  predicate Placed(job: Job, st: State) {
    && WellFormed(job) && |st.workers| == |st.results| == |job.names|
    && (forall i | 0 <= i < |st.workers| :: st.results[i] == Expected(job.names[i], job.plugins[i], st.workers[i]))
    && (forall i | 0 <= i < |st.workers| && st.workers[i].Recorded? :: Fails(st.workers[i].outcome))
  }

  predicate FirstIsReported(st: State) {
    && (st.firstErr.None? <==> forall i | 0 <= i < |st.workers| :: ReportedError(st.workers[i]).None?)
    && (st.firstErr.Some? ==> exists i | 0 <= i < |st.workers| :: ReportedError(st.workers[i]) == st.firstErr)
  }

  lemma {:induction false} NoHolders(workers: seq<Worker>)
    requires forall i | 0 <= i < |workers| :: !Holds(workers[i])
    ensures Holders(workers) == 0
  {
    if workers != [] { NoHolders(workers[..|workers| - 1]); }
  }

  function Rank(w: Worker): nat {
    match w
    case Waiting => 4
    case Probing => 3
    case Recorded(_) => 2
    case GaveUp => 1
    case Leaving(_) => 1
    case Done(_) => 0
  }

  function TotalRank(workers: seq<Worker>): nat {
    if workers == [] then 0 else TotalRank(workers[..|workers| - 1]) + Rank(workers[|workers| - 1])
  }

  lemma {:induction false} TotalRankUpdate(workers: seq<Worker>, i: nat, w: Worker)
    requires i < |workers|
    ensures TotalRank(workers[i := w]) == TotalRank(workers) - Rank(workers[i]) + Rank(w)
  {
    var n := |workers| - 1;
    if i == n {
      assert workers[i := w][..n] == workers[..n];
    } else {
      assert workers[i := w][..n] == workers[..n][i := w];
      TotalRankUpdate(workers[..n], i, w);
    }
  }

  function Held(w: Worker): nat {
    if Holds(w) then 1 else 0
  }

  /** What every move of one goroutine, from l to m, keeps. */
  predicate Keeps(cap: nat, name: string, p: Plugin, l: Local, m: Local) {
    && m.result == Expected(name, p, m.worker) && (m.worker.Recorded? ==> Fails(m.worker.outcome))
    && m.tokens - l.tokens == Held(m.worker) - Held(l.worker) && m.tokens <= cap
    && (m.worker == l.worker || Rank(m.worker) < Rank(l.worker))
    && (if ReportedError(l.worker).None? && ReportedError(m.worker).Some? then
          m.firstErr == FirstOf(l.firstErr, ReportedError(m.worker).value)
        else m.firstErr == l.firstErr && ReportedError(m.worker) == ReportedError(l.worker))
  }

  lemma MoveKeeps(cap: nat, name: string, p: Plugin, expired: bool, l: Local, step: Step)
    requires l.result == Expected(name, p, l.worker) && (l.worker.Recorded? ==> Fails(l.worker.outcome))
    requires Held(l.worker) <= l.tokens <= cap
    ensures Keeps(cap, name, p, l, Move(cap, name, p, expired, l, step))
  {
  }

  lemma {:induction false} HoldersAtLeast(workers: seq<Worker>, i: nat)
    requires i < |workers|
    ensures Held(workers[i]) <= Holders(workers)
  {
    if i < |workers| - 1 { HoldersAtLeast(workers[..|workers| - 1], i); }
  }

  lemma PlacedAfter(job: Job, st: State, i: nat, m: Local)
    requires Placed(job, st) && i < |st.workers| && Keeps(job.cap, job.names[i], job.plugins[i], LocalAt(st, i), m)
    ensures Placed(job, PutBack(st, i, m))
  {
  }

  lemma CountedAfter(job: Job, st: State, i: nat, m: Local)
    requires Placed(job, st) && Counted(job, st) && i < |st.workers|
    requires Keeps(job.cap, job.names[i], job.plugins[i], LocalAt(st, i), m)
    ensures Counted(job, PutBack(st, i, m))
    ensures m.worker == st.workers[i] || TotalRank(PutBack(st, i, m).workers) < TotalRank(st.workers)
  {
    HoldersUpdate(st.workers, i, m.worker);
    TotalRankUpdate(st.workers, i, m.worker);
  }

  lemma FirstAfter(job: Job, st: State, i: nat, m: Local)
    requires Placed(job, st) && FirstIsReported(st) && i < |st.workers|
    requires Keeps(job.cap, job.names[i], job.plugins[i], LocalAt(st, i), m)
    ensures FirstIsReported(PutBack(st, i, m))
  {
    var next := PutBack(st, i, m);
    assert forall j | 0 <= j < |st.workers| && j != i :: next.workers[j] == st.workers[j];
    if st.firstErr.Some? {
      var k :| 0 <= k < |st.workers| && ReportedError(st.workers[k]) == st.firstErr;
      assert ReportedError(next.workers[k]) == st.firstErr;
    } else if next.firstErr.Some? {
      assert ReportedError(next.workers[i]) == next.firstErr;
    }
  }

  predicate Sound(job: Job, st: State) {
    Placed(job, st) && Counted(job, st) && FirstIsReported(st)
  }

  lemma SoundAfter(job: Job, st: State, i: nat, m: Local)
    requires Sound(job, st) && i < |st.workers| && Keeps(job.cap, job.names[i], job.plugins[i], LocalAt(st, i), m)
    ensures Sound(job, PutBack(st, i, m))
    ensures PutBack(st, i, m).workers == st.workers || TotalRank(PutBack(st, i, m).workers) < TotalRank(st.workers)
  {
    PlacedAfter(job, st, i, m);
    CountedAfter(job, st, i, m);
    FirstAfter(job, st, i, m);
  }

  lemma StepKeeps(job: Job, st: State, step: Step)
    requires Sound(job, st)
    ensures var next := Do(job, st, step);
      Sound(job, next) && (next.workers == st.workers || TotalRank(next.workers) < TotalRank(st.workers))
  {
    if !step.Expire? && step.i < |st.workers| {
      var i := step.i;
      HoldersAtLeast(st.workers, i);
      MoveKeeps(job.cap, job.names[i], job.plugins[i], st.expired, LocalAt(st, i), step);
      SoundAfter(job, st, i, Move(job.cap, job.names[i], job.plugins[i], st.expired, LocalAt(st, i), step));
    }
  }

  lemma {:induction false} AlwaysHolds(job: Job, schedule: seq<Step>)
    requires WellFormed(job)
    ensures Sound(job, After(job, schedule))
  {
    if schedule == [] {
      NoHolders(Begin(job).workers);
    } else {
      var front, step := schedule[..|schedule| - 1], schedule[|schedule| - 1];
      AlwaysHolds(job, front);
      StepKeeps(job, After(job, front), step);
    }
  }

  // ---- The guarantees ----------------------------------------------------

  predicate Finished(st: State) {
    forall i | 0 <= i < |st.workers| :: st.workers[i].Done?
  }

  function Running(workers: seq<Worker>): nat {
    if workers == [] then 0
    else Running(workers[..|workers| - 1]) + (if workers[|workers| - 1].Probing? then 1 else 0)
  }

  lemma {:induction false} RunningHold(workers: seq<Worker>)
    ensures Running(workers) <= Holders(workers)
  {
    if workers != [] { RunningHold(workers[..|workers| - 1]); }
  }

  /** No interleaving has more probes running than the options allow. */
  lemma BoundedParallelism(job: Job, schedule: seq<Step>)
    requires WellFormed(job)
    ensures Running(After(job, schedule).workers) <= job.cap
  {
    AlwaysHolds(job, schedule);
    RunningHold(After(job, schedule).workers);
  }

  /** With the default of four, or the parallelism asked for. */
  lemma AtMostAskedFor(plugins: map<string, Plugin>, names: seq<string>, parallelism: int, schedule: seq<Step>)
    requires forall n | n in names :: n in plugins
    ensures Running(After(JobOf(plugins, names, parallelism), schedule).workers) <= if parallelism <= 0 then 4 else parallelism
  {
    BoundedParallelism(JobOf(plugins, names, parallelism), schedule);
  }

  lemma FirstOfDone(st: State)
    requires FirstIsReported(st) && Finished(st)
    ensures st.firstErr.None? <==> forall i | 0 <= i < |st.workers| :: ErrorOf(st.workers[i].ending).None?
    ensures st.firstErr.Some? ==> exists i | 0 <= i < |st.workers| :: ErrorOf(st.workers[i].ending) == st.firstErr
  {
    assert forall i | 0 <= i < |st.workers| :: ReportedError(st.workers[i]) == ErrorOf(st.workers[i].ending);
  }

  lemma SoundAtTheEnd(job: Job, st: State)
    requires WellFormed(job) && Sound(job, st) && Finished(st)
    ensures |st.workers| == |st.results| == |job.names| && st.tokens == 0
    ensures forall i | 0 <= i < |job.names| :: st.results[i] == Reported(job.names[i], job.plugins[i], st.workers[i].ending)
    ensures st.firstErr.None? <==> forall i | 0 <= i < |st.workers| :: ErrorOf(st.workers[i].ending).None?
    ensures st.firstErr.Some? ==> exists i | 0 <= i < |st.workers| :: ErrorOf(st.workers[i].ending) == st.firstErr
  {
    NoHolders(st.workers);
    FirstOfDone(st);
  }

  /**
   * When all goroutines are done, the i-th result is the one of the i-th name, and
   * the returned error is absent exactly when none failed or was cancelled;
   * otherwise it is the error of one that did.
   */
  lemma ResultsInOrder(job: Job, schedule: seq<Step>)
    requires WellFormed(job) && Finished(After(job, schedule))
    ensures var st := After(job, schedule);
      && |st.results| == |job.names| && st.tokens == 0
      && (forall i | 0 <= i < |job.names| ::
            st.results[i].name == job.names[i]
            && st.results[i] == Reported(job.names[i], job.plugins[i], st.workers[i].ending))
      && (st.firstErr.None? <==> forall i | 0 <= i < |st.workers| :: ErrorOf(st.workers[i].ending).None?)
      && (st.firstErr.Some? ==> exists i | 0 <= i < |st.workers| :: ErrorOf(st.workers[i].ending) == st.firstErr)
  {
    hide After, Sound, ErrorOf;
    AlwaysHolds(job, schedule);
    SoundAtTheEnd(job, After(job, schedule));
  }

  /** The first error to be reported is the one that is returned: no later step changes it. */
  lemma FirstErrorStays(job: Job, schedule: seq<Step>, step: Step)
    requires WellFormed(job) && After(job, schedule).firstErr.Some?
    ensures After(job, schedule + [step]).firstErr == After(job, schedule).firstErr
  {
    assert (schedule + [step])[..|schedule|] == schedule;
  }

  /** What one result says of the outcome of its probe. */
  lemma ResultTells(name: string, p: Plugin, outcome: Outcome)
    ensures var r := ResultOf(name, p, outcome);
      && r.name == name && r.ref == (if p.ref != "" then p.ref else "trunk")
      && (r.status == UpToDate <==> outcome.Resolved? && outcome.local == outcome.remote)
      && (r.status == UpdateAvailable <==> outcome.Resolved? && outcome.local != outcome.remote)
      && (r.status == Pinned <==> outcome.FullSHA?) && (r.status == Unknown <==> outcome.Failed?)
      && (r.error != "" ==> outcome.Failed?)
      && match outcome
         case Resolved(local, remote) => r.localSHA == local && r.remoteSHA == remote
         case FullSHA(local) => r.localSHA == local && r.remoteSHA == r.ref
         case Failed(local, message) => r.localSHA == local && r.remoteSHA == "" && r.error == message
  {
  }

  /** A cancelled plugin is reported as unknown, with the error of the deadline and no revision. */
  lemma CancelledTells(name: string, p: Plugin)
    ensures Reported(name, p, Cancelled) ==
      DriftResult(name, if p.ref != "" then p.ref else "trunk", "", "", Unknown, CONTEXT_ERROR)
  {
  }

  /** How a goroutine stands that gave up. */
  predicate Gave(w: Worker) {
    w.GaveUp? || ((w.Leaving? || w.Done?) && w.ending.Cancelled?)
  }

  /** Nothing is cancelled before the deadline. */
  lemma {:induction false} CancelledOnlyLate(job: Job, schedule: seq<Step>)
    requires WellFormed(job) && Expire !in schedule
    ensures var st := After(job, schedule);
      !st.expired && forall i | 0 <= i < |st.workers| :: !Gave(st.workers[i])
  {
    if schedule != [] {
      var front, step := schedule[..|schedule| - 1], schedule[|schedule| - 1];
      assert schedule == front + [step];
      CancelledOnlyLate(job, front);
    }
  }

  /** Starts the first k goroutines. */
  function Starts(k: nat): seq<Step> {
    if k == 0 then [] else Starts(k - 1) + [Start(k - 1)]
  }

  lemma {:induction false} AllProbing(workers: seq<Worker>, k: nat)
    requires k <= |workers| && forall i | 0 <= i < |workers| :: workers[i].Probing? <==> i < k
    ensures Running(workers) == k
  {
    if workers != [] {
      var n := |workers| - 1;
      AllProbing(workers[..n], if k == |workers| then n else k);
    }
  }

  lemma {:induction false} Started(job: Job, k: nat)
    requires WellFormed(job) && k <= job.cap && k <= |job.names|
    ensures var st := After(job, Starts(k));
      st.tokens == k && forall i | 0 <= i < |st.workers| :: st.workers[i] == if i < k then Probing else Waiting
  {
    if k > 0 {
      Started(job, k - 1);
      assert Starts(k)[..k - 1] == Starts(k - 1) by { StartsLength(k - 1); }
      StartsLength(k);
    }
  }

  lemma {:induction false} StartsLength(k: nat)
    ensures |Starts(k)| == k
  {
    if k > 0 { StartsLength(k - 1); }
  }

  /** As many probes as the options allow can indeed run at once: four, or the parallelism asked for. */
  lemma UsesTheParallelism(plugins: map<string, Plugin>, names: seq<string>, parallelism: int, k: nat)
    requires (forall n | n in names :: n in plugins) && k <= |names| && k <= if parallelism <= 0 then 4 else parallelism
    ensures exists schedule :: Running(After(JobOf(plugins, names, parallelism), schedule).workers) == k
  {
    var job := JobOf(plugins, names, parallelism);
    Started(job, k);
    AllProbing(After(job, Starts(k)).workers, k);
  }

  /** Every step that moves a goroutine brings the end nearer. */
  lemma StepsDescend(job: Job, schedule: seq<Step>, step: Step)
    requires WellFormed(job)
    ensures var st, next := After(job, schedule), After(job, schedule + [step]);
      next.workers == st.workers || TotalRank(next.workers) < TotalRank(st.workers)
  {
    AlwaysHolds(job, schedule);
    assert (schedule + [step])[..|schedule|] == schedule;
    StepKeeps(job, After(job, schedule), step);
  }

  lemma {:induction false} SomeHolder(workers: seq<Worker>) returns (i: nat)
    requires Holders(workers) > 0
    ensures i < |workers| && Holds(workers[i])
  {
    if Holds(workers[|workers| - 1]) {
      i := |workers| - 1;
    } else {
      i := SomeHolder(workers[..|workers| - 1]);
    }
  }

  /** A move that is possible for a worker: a waiting one needs a free token. */
  function Movable(i: nat, w: Worker): Step {
    match w
    case Waiting => Start(i)
    case Probing => Finish(i, FullSHA(""))
    case Recorded(_) => ReportError(i)
    case GaveUp => ReportError(i)
    case _ => Release(i)
  }

  lemma MovableMoves(cap: nat, name: string, p: Plugin, expired: bool, l: Local, i: nat)
    requires !l.worker.Done? && (l.worker.Recorded? ==> Fails(l.worker.outcome)) && Held(l.worker) <= l.tokens
    requires l.worker.Waiting? ==> l.tokens < cap
    ensures Move(cap, name, p, expired, l, Movable(i, l.worker)).worker != l.worker
  {
  }

  /** No interleaving gets stuck: until all goroutines are done, one of them can move. */
  lemma NoDeadlock(job: Job, schedule: seq<Step>) returns (step: Step)
    requires WellFormed(job) && !Finished(After(job, schedule))
    ensures After(job, schedule + [step]).workers != After(job, schedule).workers
  {
    var st := After(job, schedule);
    AlwaysHolds(job, schedule);
    var i :| 0 <= i < |st.workers| && !st.workers[i].Done?;
    if st.workers[i].Waiting? && st.tokens == job.cap {
      i := SomeHolder(st.workers);
    }
    HoldersAtLeast(st.workers, i);
    step := Movable(i, st.workers[i]);
    MovableMoves(job.cap, job.names[i], job.plugins[i], st.expired, LocalAt(st, i), i);
    assert !step.Expire? && step.i == i;
    assert (schedule + [step])[..|schedule|] == schedule;
    assert Do(job, st, step).workers[i] != st.workers[i];
  }
}
