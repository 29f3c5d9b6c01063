/** plugins/oca/src/watchdog.ts: hang detection with bounded restarts, and `oca watchdog reset` of cmd/oca/watchdog.go. */
module Watchdog {
  import opened Common

  datatype Config = Config(enabled: bool, idleTimeout: int, maxBumps: int)

  datatype Activity = Idle | Busy | Unknown

  datatype Tracker = Tracker(lastActivityAt: int, status: Activity)

  datatype BumpStatus = Active | Exhausted | Disabled

  datatype Bumps = Bumps(enabled: bool, count: int, lastBumpAt: int, lastActivityAt: int, status: BumpStatus)

  /** The pane state file; everything but the session and the watchdog record is left alone. */
  datatype Pane = Pane(sessionID: string, watchdog: Option<Bumps>)

  datatype Event =
    | SessionStatus(sessionID: string, status: Activity)
    | PartUpdated
    | SessionIdle(sessionID: string)
    | SessionDeleted(sessionID: string)
    | Unrelated

  /** What reaches the watchdog: events, timer ticks, the reset command, and other writers of the pane file. */
  datatype Input =
    | Seen(time: int, event: Event)
    | Tick(time: int, writable: bool)
    | Reset
    | Rewritten(pane: Option<Pane>)

  /** The shell commands it issues. */
  datatype Action = Restart(sessionID: string, at: int) | Warn(sessionID: string, at: int)

  datatype State = State(trackers: map<string, Tracker>, pane: Option<Pane>, actions: seq<Action>)

  // ---- Specification -----------------------------------------------------

  function Touched(t: Tracker, now: int): Tracker {
    if t.status == Busy then t.(lastActivityAt := now) else t
  }

  function OnEvent(trackers: map<string, Tracker>, now: int, e: Event): map<string, Tracker> {
    match e
    case SessionStatus(s, status) =>
      if s == "" then trackers
      else
        var t := if s in trackers then trackers[s] else Tracker(now, Unknown);
        trackers[s := match status
                      case Busy => Tracker(now, Busy)
                      case Idle => t.(status := Idle)
                      case Unknown => t]
    case PartUpdated => map s | s in trackers :: Touched(trackers[s], now)
    case SessionIdle(s) => if s in trackers then trackers[s := trackers[s].(status := Idle)] else trackers
    case SessionDeleted(s) => trackers - {s}
    case Unrelated => trackers
  }

  predicate Hung(config: Config, t: Tracker, now: int) {
    t.status == Busy && now - t.lastActivityAt >= config.idleTimeout
  }

  function Record(pane: Pane, now: int): Bumps {
    if pane.watchdog.Some? then pane.watchdog.value else Bumps(true, 0, 0, now, Active)
  }

  function Count(pane: Option<Pane>): int {
    if pane.Some? && pane.value.watchdog.Some? then pane.value.watchdog.value.count else 0
  }

  /** The pane file and the command after a bump of a hung session. */
  function Bump(config: Config, pane: Pane, now: int): (Pane, Action) {
    var wd := Record(pane, now);
    if wd.count >= config.maxBumps then
      (pane.(watchdog := Some(wd.(status := Exhausted))), Warn(pane.sessionID, now))
    else
      (pane.(watchdog := Some(wd.(count := wd.count + 1, lastBumpAt := now, status := Active))), Restart(pane.sessionID, now))
  }

  predicate WillBump(config: Config, trackers: map<string, Tracker>, pane: Option<Pane>, now: int, writable: bool) {
    && config.enabled && config.idleTimeout > 0 && writable && pane.Some?
    && pane.value.sessionID in trackers && Hung(config, trackers[pane.value.sessionID], now)
  }

  /** A tick concerns at most the one session the pane belongs to; a failed write stops it before the command. */
  function OnTick(config: Config, st: State, now: int, writable: bool): State {
    if !WillBump(config, st.trackers, st.pane, now, writable) then st
    else
      var (pane, action) := Bump(config, st.pane.value, now);
      st.(pane := Some(pane), actions := st.actions + [action])
  }

  function OnReset(pane: Option<Pane>): Option<Pane> {
    if pane.Some? && pane.value.watchdog.Some? then
      Some(pane.value.(watchdog := Some(pane.value.watchdog.value.(count := 0, lastBumpAt := 0, status := Active))))
    else pane
  }

  function Next(config: Config, st: State, input: Input): State {
    match input
    case Seen(now, e) => if config.enabled then st.(trackers := OnEvent(st.trackers, now, e)) else st
    case Tick(now, writable) => OnTick(config, st, now, writable)
    case Reset => st.(pane := OnReset(st.pane))
    case Rewritten(pane) => st.(pane := pane)
  }

  function Run(config: Config, st: State, inputs: seq<Input>): State {
    if inputs == [] then st
    else Next(config, Run(config, st, inputs[..|inputs| - 1]), inputs[|inputs| - 1])
  }

  // ---- Hangs, told from the history --------------------------------------

  function Time(input: Input): Option<int> {
    if input.Seen? || input.Tick? then Some(input.time) else None
  }

  /** Times never go back. */
  predicate Ordered(inputs: seq<Input>) {
    forall i, j | 0 <= i < j < |inputs| && Time(inputs[i]).Some? && Time(inputs[j]).Some? ::
      Time(inputs[i]).value <= Time(inputs[j]).value
  }

  predicate Starts(input: Input, s: string) {
    input.Seen? && input.event == SessionStatus(s, Busy)
  }

  predicate Ends(input: Input, s: string) {
    input.Seen? && (input.event == SessionStatus(s, Idle) || input.event == SessionIdle(s) || input.event == SessionDeleted(s))
  }

  /** A busy status of s, or message activity of any session. */
  predicate Stirs(input: Input, s: string) {
    Starts(input, s) || (input.Seen? && input.event == PartUpdated)
  }

  predicate BusySince(inputs: seq<Input>, s: string, i: int) {
    0 <= i < |inputs| && Starts(inputs[i], s) && forall j | i < j < |inputs| :: !Ends(inputs[j], s)
  }

  predicate BusyNow(inputs: seq<Input>, s: string) {
    exists i | 0 <= i < |inputs| :: BusySince(inputs, s, i)
  }

  predicate QuietSince(inputs: seq<Input>, s: string, limit: int) {
    forall i | 0 <= i < |inputs| && Stirs(inputs[i], s) :: inputs[i].time <= limit
  }

  predicate IsBusy(trackers: map<string, Tracker>, s: string) {
    s in trackers && trackers[s].status == Busy
  }

  /** t is the time of the last stirring input. */
  predicate LastStir(inputs: seq<Input>, s: string, t: int) {
    QuietSince(inputs, s, t) && exists i | 0 <= i < |inputs| :: Stirs(inputs[i], s) && inputs[i].time == t
  }

  lemma BusyStep(inputs: seq<Input>, input: Input, s: string)
    ensures BusyNow(inputs + [input], s) <==> Starts(input, s) || (BusyNow(inputs, s) && !Ends(input, s))
  {
    var all := inputs + [input];
    assert all[|inputs|] == input;
    if Starts(input, s) {
      assert BusySince(all, s, |inputs|);
    } else if BusyNow(inputs, s) && !Ends(input, s) {
      var i :| 0 <= i < |inputs| && BusySince(inputs, s, i);
      assert BusySince(all, s, i);
    }
    if BusyNow(all, s) && !Starts(input, s) {
      var i :| 0 <= i < |all| && BusySince(all, s, i);
      assert i < |inputs|;
      forall j | i < j < |inputs| ensures !Ends(inputs[j], s) { assert all[j] == inputs[j]; }
      assert BusySince(inputs, s, i);
    }
  }

  lemma LastStirStep(inputs: seq<Input>, input: Input, s: string, t: int)
    requires Ordered(inputs + [input])
    ensures Stirs(input, s) ==> LastStir(inputs + [input], s, input.time)
    ensures !Stirs(input, s) && LastStir(inputs, s, t) ==> LastStir(inputs + [input], s, t)
  {
    var all := inputs + [input];
    assert all[|inputs|] == input;
    if Stirs(input, s) {
      forall i | 0 <= i < |all| && Stirs(all[i], s)
        ensures all[i].time <= input.time
      {
        if i < |inputs| { assert Time(all[i]).value <= Time(all[|inputs|]).value; }
      }
    } else if LastStir(inputs, s, t) {
      var i :| 0 <= i < |inputs| && Stirs(inputs[i], s) && inputs[i].time == t;
      assert all[i] == inputs[i];
    }
  }

  lemma OrderedFront(inputs: seq<Input>, input: Input)
    requires Ordered(inputs + [input])
    ensures Ordered(inputs)
  {
    var all := inputs + [input];
    forall i, j | 0 <= i < j < |inputs| && Time(inputs[i]).Some? && Time(inputs[j]).Some?
      ensures Time(inputs[i]).value <= Time(inputs[j]).value
    {
      assert all[i] == inputs[i] && all[j] == inputs[j];
    }
  }

  /** What one input does to the tracker of s. */
  lemma TrackerStep(config: Config, st: State, input: Input, s: string)
    requires config.enabled && s != ""
    ensures var after := Next(config, st, input).trackers;
      && (IsBusy(after, s) <==> Starts(input, s) || (IsBusy(st.trackers, s) && !Ends(input, s)))
      && (IsBusy(after, s) ==>
            after[s].lastActivityAt == if Stirs(input, s) then input.time else st.trackers[s].lastActivityAt)
  {
  }

  /** The trackers remember exactly which sessions are busy, and since when nothing stirred. */
  lemma {:induction false} TrackersKnow(config: Config, st: State, inputs: seq<Input>, s: string)
    requires config.enabled && st.trackers == map[] && s != "" && Ordered(inputs)
    ensures var trackers := Run(config, st, inputs).trackers;
      && (IsBusy(trackers, s) <==> BusyNow(inputs, s))
      && (IsBusy(trackers, s) ==> LastStir(inputs, s, trackers[s].lastActivityAt))
  {
    if inputs != [] {
      var front, input := inputs[..|inputs| - 1], inputs[|inputs| - 1];
      assert inputs == front + [input];
      OrderedFront(front, input);
      TrackersKnow(config, st, front, s);
      BusyStep(front, input, s);
      TrackerStep(config, Run(config, st, front), input, s);
      var before := Run(config, st, front).trackers;
      LastStirStep(front, input, s, if s in before then before[s].lastActivityAt else 0);
    }
  }

  /** The restarts a tick adds. */
  predicate Restarts(config: Config, st: State, now: int, writable: bool, s: string) {
    OnTick(config, st, now, writable).actions == st.actions + [Restart(s, now)]
  }

  /**
   * A tick restarts s exactly when the pane belongs to s with bumps left and can be
   * written, s has been busy, neither idle nor deleted since, and no busy status of s
   * and no message activity came after now - idleTimeout.
   */
  lemma RestartMeansHang(config: Config, st: State, inputs: seq<Input>, now: int, writable: bool, s: string)
    requires config.enabled && config.idleTimeout > 0 && st.trackers == map[] && s != ""
    requires Ordered(inputs)
    ensures var before := Run(config, st, inputs);
      Restarts(config, before, now, writable, s) <==>
        && writable && before.pane.Some? && before.pane.value.sessionID == s && Count(before.pane) < config.maxBumps
        && BusyNow(inputs, s) && QuietSince(inputs, s, now - config.idleTimeout)
  {
    var before := Run(config, st, inputs);
    TrackersKnow(config, st, inputs, s);
    if Restarts(config, before, now, writable, s) {
      assert before.actions + [Restart(s, now)] != before.actions;
      assert (before.actions + [Restart(s, now)])[|before.actions|] == Restart(s, now);
    }
    if IsBusy(before.trackers, s) {
      var last := before.trackers[s].lastActivityAt;
      var i :| 0 <= i < |inputs| && Stirs(inputs[i], s) && inputs[i].time == last;
      assert QuietSince(inputs, s, now - config.idleTimeout) <==> last <= now - config.idleTimeout;
    }
  }

  /** And it warns instead exactly when the bumps are used up. */
  lemma WarningMeansSpent(config: Config, st: State, inputs: seq<Input>, now: int, writable: bool, s: string)
    requires config.enabled && config.idleTimeout > 0 && st.trackers == map[] && s != ""
    requires Ordered(inputs)
    ensures var before := Run(config, st, inputs);
      OnTick(config, before, now, writable).actions == before.actions + [Warn(s, now)] <==>
        && writable && before.pane.Some? && before.pane.value.sessionID == s && Count(before.pane) >= config.maxBumps
        && BusyNow(inputs, s) && QuietSince(inputs, s, now - config.idleTimeout)
  {
    var before := Run(config, st, inputs);
    TrackersKnow(config, st, inputs, s);
    var after := OnTick(config, before, now, writable).actions;
    if after == before.actions + [Warn(s, now)] {
      assert after[|before.actions|] == Warn(s, now);
    }
    if IsBusy(before.trackers, s) {
      var last := before.trackers[s].lastActivityAt;
      var i :| 0 <= i < |inputs| && Stirs(inputs[i], s) && inputs[i].time == last;
      assert QuietSince(inputs, s, now - config.idleTimeout) <==> last <= now - config.idleTimeout;
    }
  }

  /** A watchdog that is switched off, or has no idle timeout, issues no command and leaves the pane file alone. */
  lemma {:induction false} SwitchedOff(config: Config, st: State, inputs: seq<Input>)
    requires !config.enabled || config.idleTimeout <= 0
    requires Undisturbed(inputs)
    ensures var end := Run(config, st, inputs); end.actions == st.actions && end.pane == st.pane
    ensures !config.enabled ==> Run(config, st, inputs).trackers == st.trackers
  {
    if inputs != [] {
      var front := inputs[..|inputs| - 1];
      assert forall i | 0 <= i < |front| :: front[i] == inputs[i];
      SwitchedOff(config, st, front);
    }
  }

  // ---- Which sessions are known, and as what ------------------------------

  predicate Reports(input: Input, s: string) {
    input.Seen? && input.event.SessionStatus? && input.event.sessionID == s
  }

  predicate Forgets(input: Input, s: string) {
    input.Seen? && input.event == SessionDeleted(s)
  }

  /** A status of s was reported and s has not been deleted since. */
  predicate KnownNow(inputs: seq<Input>, s: string) {
    exists i | 0 <= i < |inputs| :: KnownSince(inputs, s, i)
  }

  predicate KnownSince(inputs: seq<Input>, s: string, i: int) {
    0 <= i < |inputs| && Reports(inputs[i], s) && forall j | i < j < |inputs| :: !Forgets(inputs[j], s)
  }

  lemma KnownStep(inputs: seq<Input>, input: Input, s: string)
    ensures KnownNow(inputs + [input], s) <==> Reports(input, s) || (KnownNow(inputs, s) && !Forgets(input, s))
  {
    var all := inputs + [input];
    assert all[|inputs|] == input;
    if Reports(input, s) {
      assert KnownSince(all, s, |inputs|);
    } else if KnownNow(inputs, s) && !Forgets(input, s) {
      var i :| 0 <= i < |inputs| && KnownSince(inputs, s, i);
      assert KnownSince(all, s, i);
    }
    if KnownNow(all, s) && !Reports(input, s) {
      var i :| 0 <= i < |all| && KnownSince(all, s, i);
      assert i < |inputs|;
      forall j | i < j < |inputs| ensures !Forgets(inputs[j], s) { assert all[j] == inputs[j]; }
      assert KnownSince(inputs, s, i);
    }
  }

  /** A session is tracked exactly while one of its statuses was reported and it was not deleted since. */
  lemma {:induction false} TracksKnown(config: Config, st: State, inputs: seq<Input>, s: string)
    requires config.enabled && st.trackers == map[] && s != ""
    ensures s in Run(config, st, inputs).trackers <==> KnownNow(inputs, s)
  {
    if inputs != [] {
      var front, input := inputs[..|inputs| - 1], inputs[|inputs| - 1];
      assert inputs == front + [input];
      TracksKnown(config, st, front, s);
      KnownStep(front, input, s);
    }
  }

  /** An event about one session leaves every other alone, and its status is the last one told. */
  lemma StatusIsLastTold(config: Config, st: State, now: int, e: Event, s: string)
    requires config.enabled && s != ""
    ensures var after := Next(config, st, Seen(now, e)).trackers;
      && (e == SessionStatus(s, Busy) ==> after == st.trackers[s := Tracker(now, Busy)])
      && (e == SessionStatus(s, Idle) || (e == SessionIdle(s) && s in st.trackers) ==>
            s in after && after[s].status == Idle && after == st.trackers[s := after[s]]
            && after[s].lastActivityAt == if s in st.trackers then st.trackers[s].lastActivityAt else now)
      && (e == SessionStatus(s, Unknown) ==>
            after == if s in st.trackers then st.trackers else st.trackers[s := Tracker(now, Unknown)])
      && (e == SessionIdle(s) && s !in st.trackers ==> after == st.trackers)
      && (e == SessionDeleted(s) ==> s !in after && forall r | r in st.trackers && r != s :: r in after && after[r] == st.trackers[r])
      && (e == Unrelated || e == SessionStatus("", Busy) ==> after == st.trackers)
      && (e == PartUpdated ==> after.Keys == st.trackers.Keys && forall r | r in after ::
            after[r] == Tracker(if st.trackers[r].status == Busy then now else st.trackers[r].lastActivityAt, st.trackers[r].status))
  {
    var after := Next(config, st, Seen(now, e)).trackers;
    if e == SessionIdle(s) && s in st.trackers { assert after == st.trackers[s := after[s]]; }
  }

  // ---- Bounded restarts --------------------------------------------------

  function RestartCount(actions: seq<Action>): nat {
    if actions == [] then 0
    else RestartCount(actions[..|actions| - 1]) + (if actions[|actions| - 1].Restart? then 1 else 0)
  }

  /** No reset, and nobody else writes the pane file. */
  predicate Undisturbed(inputs: seq<Input>) {
    forall i | 0 <= i < |inputs| :: inputs[i].Seen? || inputs[i].Tick?
  }

  function Max(a: int, b: int): int {
    if a < b then b else a
  }

  /** Nothing is taken back, and the stored count grows by the restarts issued but not beyond maxBumps. */
  predicate Grows(config: Config, st: State, end: State) {
    && st.actions <= end.actions
    && Count(end.pane) - Count(st.pane) == RestartCount(end.actions) - RestartCount(st.actions)
    && Count(st.pane) <= Count(end.pane) <= Max(Count(st.pane), config.maxBumps)
    && (end.pane.Some? <==> st.pane.Some?)
    && (st.pane.Some? ==> end.pane.value.sessionID == st.pane.value.sessionID)
  }

  lemma GrowsStep(config: Config, st: State, input: Input)
    requires input.Seen? || input.Tick?
    ensures Grows(config, st, Next(config, st, input))
  {
    var end := Next(config, st, input);
    if end.actions != st.actions { assert end.actions[..|st.actions|] == st.actions; }
  }

  /**
   * Between resets and rewrites the pane keeps its session, the stored count grows
   * by exactly the restarts issued, and never beyond maxBumps unless it started there.
   */
  lemma {:induction false} CountsRestarts(config: Config, st: State, inputs: seq<Input>)
    requires Undisturbed(inputs)
    ensures Grows(config, st, Run(config, st, inputs))
  {
    if inputs != [] {
      var front, input := inputs[..|inputs| - 1], inputs[|inputs| - 1];
      assert forall i | 0 <= i < |front| :: front[i] == inputs[i];
      CountsRestarts(config, st, front);
      GrowsStep(config, Run(config, st, front), input);
    }
  }

  /** After a reset as many restarts are possible as maxBumps allows, and no more. */
  lemma RestartsAfterReset(config: Config, st: State, inputs: seq<Input>)
    requires Undisturbed(inputs)
    ensures var start := Next(config, st, Reset);
      RestartCount(Run(config, start, inputs).actions) - RestartCount(st.actions) <= Max(0, config.maxBumps)
  {
    CountsRestarts(config, Next(config, st, Reset), inputs);
  }

  /** The last restart among the commands, if any. */
  function LastRestart(actions: seq<Action>): Option<Action> {
    if actions == [] then None
    else if actions[|actions| - 1].Restart? then Some(actions[|actions| - 1])
    else LastRestart(actions[..|actions| - 1])
  }

  /** What bumps leave of the record that the pane had, or of the one made for it at the first bump. */
  predicate StartsFrom(wd: Bumps, pane: Pane, first: int) {
    match pane.watchdog
    case Some(had) => wd.enabled == had.enabled && wd.lastActivityAt == had.lastActivityAt
    case None => wd.enabled && wd.lastActivityAt == first
  }

  /**
   * What the pane file says after commands were issued: it is marked exhausted exactly
   * when the last one was a warning, the last bump is the time of the last restart, and
   * the session and the rest of the record are as before.
   */
  ghost predicate Tells(config: Config, pane: Option<Pane>, issued: seq<Action>, now: Option<Pane>) {
    && (issued == [] ==> now == pane)
    && (issued != [] ==>
          && pane.Some? && now.Some? && now.value.watchdog.Some? && now.value.sessionID == pane.value.sessionID
          && StartsFrom(now.value.watchdog.value, pane.value, issued[0].at)
          && now.value.watchdog.value.status == (if issued[|issued| - 1].Warn? then Exhausted else Active)
          && now.value.watchdog.value.count == Count(pane) + RestartCount(issued)
          && (LastRestart(issued).Some? ==> now.value.watchdog.value.lastBumpAt == LastRestart(issued).value.at)
          && (LastRestart(issued).None? ==>
                now.value.watchdog.value.lastBumpAt == if pane.value.watchdog.Some? then pane.value.watchdog.value.lastBumpAt else 0))
  }

  lemma TellsStep(config: Config, before: State, now: int, writable: bool, pane: Option<Pane>, issued: seq<Action>)
    requires Tells(config, pane, issued, before.pane)
    ensures var end := OnTick(config, before, now, writable);
      if end.actions == before.actions then end.pane == before.pane
      else
        exists a :: end.actions == before.actions + [a] && Tells(config, pane, issued + [a], end.pane)
  {
    if WillBump(config, before.trackers, before.pane, now, writable) {
      var a := Bump(config, before.pane.value, now).1;
      var more := issued + [a];
      assert more[..|issued|] == issued && more[|issued|] == a;
      assert (before.actions + [a])[|before.actions|] == a;
      assert OnTick(config, before, now, writable).actions == before.actions + [a];
      assert Tells(config, pane, more, OnTick(config, before, now, writable).pane);
    }
  }

  /** Over any run without resets and rewrites the pane file tells what was done. */
  lemma {:induction false} PaneTells(config: Config, st: State, inputs: seq<Input>)
    requires Undisturbed(inputs)
    ensures var end := Run(config, st, inputs);
      st.actions <= end.actions && Tells(config, st.pane, end.actions[|st.actions|..], end.pane)
  {
    if inputs == [] {
      assert st.actions[|st.actions|..] == [];
    } else {
      var front, input := inputs[..|inputs| - 1], inputs[|inputs| - 1];
      assert forall i | 0 <= i < |front| :: front[i] == inputs[i];
      PaneTells(config, st, front);
      var before, end := Run(config, st, front), Run(config, st, inputs);
      var issued := before.actions[|st.actions|..];
      if input.Tick? {
        TellsStep(config, before, input.time, input.writable, st.pane, issued);
        if end.actions != before.actions {
          var a :| end.actions == before.actions + [a] && Tells(config, st.pane, issued + [a], end.pane);
          assert end.actions[|st.actions|..] == issued + [a];
        }
      }
    }
  }

  /** A reset clears the count, the time of the last bump and the mark, and nothing else. */
  lemma ResetClears(config: Config, st: State)
    ensures var end := Next(config, st, Reset);
      && end.trackers == st.trackers && end.actions == st.actions
      && (if st.pane.Some? && st.pane.value.watchdog.Some? then
            var wd := st.pane.value.watchdog.value;
            end.pane == Some(Pane(st.pane.value.sessionID, Some(Bumps(wd.enabled, 0, 0, wd.lastActivityAt, Active))))
          else end.pane == st.pane)
  {
  }

  /** A session reported as exhausted has used its bumps. */
  predicate ExhaustedIsSpent(config: Config, pane: Option<Pane>) {
    pane.Some? && pane.value.watchdog.Some? && pane.value.watchdog.value.status == Exhausted ==>
      Count(pane) >= config.maxBumps
  }

  /** The status stays truthful over any run, resets included. */
  lemma {:induction false} ExhaustedStaysTruthful(config: Config, st: State, inputs: seq<Input>)
    requires ExhaustedIsSpent(config, st.pane)
    requires forall i | 0 <= i < |inputs| && inputs[i].Rewritten? :: ExhaustedIsSpent(config, inputs[i].pane)
    ensures ExhaustedIsSpent(config, Run(config, st, inputs).pane)
  {
    if inputs != [] {
      var front := inputs[..|inputs| - 1];
      assert forall i | 0 <= i < |front| :: front[i] == inputs[i];
      ExhaustedStaysTruthful(config, st, front);
    }
  }

  /** Checking goes on after exhaustion: a session that stays hung is warned about again at every tick. */
  lemma WarnsAgain(config: Config, st: State, now: int, later: int)
    requires WillBump(config, st.trackers, st.pane, now, true) && now <= later && Count(st.pane) >= config.maxBumps
    requires st.pane.value.watchdog.Some?
    ensures var s := st.pane.value.sessionID;
      OnTick(config, OnTick(config, st, now, true), later, true).actions == st.actions + [Warn(s, now), Warn(s, later)]
  {
    var once := OnTick(config, st, now, true);
    assert once.actions == st.actions + [Warn(st.pane.value.sessionID, now)];
  }

  /** Every restart a run issues is of the session the pane belongs to. */
  lemma {:induction false} RestartsOwnSession(config: Config, st: State, inputs: seq<Input>, k: nat)
    requires Undisturbed(inputs) && |st.actions| <= k < |Run(config, st, inputs).actions|
    ensures st.pane.Some? && Run(config, st, inputs).actions[k].sessionID == st.pane.value.sessionID
  {
    if inputs != [] {
      var front := inputs[..|inputs| - 1];
      assert forall i | 0 <= i < |front| :: front[i] == inputs[i];
      CountsRestarts(config, st, front);
      if k < |Run(config, st, front).actions| { RestartsOwnSession(config, st, front, k); }
    }
  }

  // ---- The loops ---------------------------------------------------------

  class Dog {
    const config: Config
    var trackers: map<string, Tracker>
    var pane: Option<Pane>
    var actions: seq<Action>

    constructor (config: Config, pane: Option<Pane>)
      ensures this.config == config && Now() == State(map[], pane, [])
    {
      this.config, this.pane := config, pane;
      trackers, actions := map[], [];
    }

    function Now(): State
      reads this
    {
      State(trackers, pane, actions)
    }

    method HandleWatchdogEvent(now: int, event: Event)
      modifies this`trackers
      ensures Now() == Next(config, old(Now()), Seen(now, event))
    {
      if !config.enabled { return; }
      match event {
        case SessionStatus(s, status) =>
          if s == "" { return; }
          if s !in trackers { trackers := trackers[s := Tracker(now, Unknown)]; }
          if status == Busy {
            trackers := trackers[s := Tracker(now, Busy)];
          } else if status == Idle {
            trackers := trackers[s := trackers[s].(status := Idle)];
          }
        case PartUpdated =>
          TouchAll(now);
        case SessionIdle(s) =>
          if s in trackers { trackers := trackers[s := trackers[s].(status := Idle)]; }
        case SessionDeleted(s) =>
          trackers := trackers - {s};
        case Unrelated =>
      }
    }

    /** Message activity resets the timer of every busy session. */
    method TouchAll(now: int)
      modifies this`trackers
      ensures trackers == map s | s in old(trackers) :: Touched(old(trackers)[s], now)
    {
      ghost var before := trackers;
      var todo := trackers.Keys;
      while todo != {}
        invariant todo <= before.Keys == trackers.Keys
        invariant forall s | s in before :: trackers[s] == if s in todo then before[s] else Touched(before[s], now)
      {
        var s :| s in todo;
        if trackers[s].status == Busy {
          trackers := trackers[s := trackers[s].(lastActivityAt := now)];
        }
        todo := todo - {s};
      }
    }

    method BumpSession(paneState: Pane, now: int, writable: bool) returns (written: bool)
      requires pane == Some(paneState)
      modifies this`pane, this`actions
      ensures written == writable
      ensures if writable then
          pane == Some(Bump(config, paneState, now).0) && actions == old(actions) + [Bump(config, paneState, now).1]
        else pane == old(pane) && actions == old(actions)
    {
      var wd := Record(paneState, now);
      if !writable { return false; }
      if wd.count >= config.maxBumps {
        pane := Some(paneState.(watchdog := Some(wd.(status := Exhausted))));
        actions := actions + [Warn(paneState.sessionID, now)];
        return true;
      }
      pane := Some(paneState.(watchdog := Some(wd.(count := wd.count + 1, lastBumpAt := now, status := Active))));
      actions := actions + [Restart(paneState.sessionID, now)];
      return true;
    }

    /** Visits every tracked session, in any order; at most one command is issued. */
    method CheckHang(now: int, writable: bool)
      modifies this`pane, this`actions
      ensures Now() == Next(config, old(Now()), Tick(now, writable))
      ensures |old(actions)| <= |actions| <= |old(actions)| + 1
    {
      if !config.enabled || config.idleTimeout <= 0 { return; }
      ghost var start := Now();
      var todo := trackers.Keys;
      while todo != {}
        invariant todo <= trackers.Keys && trackers == start.trackers
        invariant Now() == if start.pane.Some? && start.pane.value.sessionID !in todo
          then OnTick(config, start, now, writable) else start
      {
        var s :| s in todo;
        var tracker := trackers[s];
        todo := todo - {s};
        if tracker.status == Busy && now - tracker.lastActivityAt >= config.idleTimeout {
          if pane.Some? && pane.value.sessionID == s {
            var written := BumpSession(pane.value, now, writable);
            if !written { return; }
          }
        }
      }
    }

    method ResetBumps()
      modifies this`pane
      ensures Now() == Next(config, old(Now()), Reset)
    {
      if pane.Some? && pane.value.watchdog.Some? {
        var wd := pane.value.watchdog.value;
        pane := Some(pane.value.(watchdog := Some(wd.(count := 0, lastBumpAt := 0, status := Active))));
      }
    }
  }
}
