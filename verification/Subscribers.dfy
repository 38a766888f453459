/**
  Live rollout state: a paged load, then a stream with reconnects, then polling; all of it
  interleaved with refreshes, visibility changes, scope changes and late completions.

  The machine is a total step function over events; an event that cannot happen in a state
  leaves it as it is.  Every state reached by any sequence of events keeps `Inv`
  (`RunKeepsInv`), from which the promises follow: one snapshot source and one poll timer
  (`OneSource`), data of the current scope only (`DataOfCurrentScope`), no frame after a
  refresh (`NoFrameAfterRefresh`), no page behind a frame (`NoPageBehindFrame`,
  `PagesAreFresh`) and none beside a stream (`NoPageBesideStream`).  What arrives in time is
  shown (`LatestPageShows`, `AcceptedFrameShows`), and something is always under way
  (`NeverStalls`), but for an abort error on a stream that nobody aborted (`StrayAbortStalls`).
*/
module Subscribers {
  import opened JsonSyntax

  /** Environment, application, release and schema version as one string; empty when disabled. */
  type Scope = string

  datatype Transport = Off | Stream | Poll

  /** Where the rows and counts shown came from. */
  datatype Origin = Nowhere | FromPage(load: nat) | FromFrame(life: nat)

  /** `of` is the scope the content was fetched for. */
  datatype Data = Data(origin: Origin, of: Scope, transport: Transport, stale: bool)

  const EMPTY_DATA := Data(Nowhere, "", Off, false)

  datatype Shown = Shown(scope: Scope, data: Data)

  datatype Loop = Idle | Connected | Sleeping | Over

  /** One run of the effect: its abort flags, its polling and its stream loop. */
  datatype Life = Life(scope: Scope, pollOnly: bool, aborted: bool, streamAborted: bool, polling: bool, timer: Option<nat>,
                       loop: Loop, failures: nat, attempt: nat, refreshed: bool)

  /** What follows a page load once it settles. */
  datatype After = Initially(life: nat) | OnTimer(life: nat) | OnVisible(life: nat) | Manually

  /** A page load under way; `mine` is the generation it began with. */
  datatype Load = Load(scope: Scope, mine: nat, begun: nat, after: After)

  /** `timeouts` are the poll timers set and not yet fired or cleared, with the run of the effect that set each. */
  datatype State = State(scope: Scope, pollOnly: bool, dirty: bool, shown: Shown, generation: nat, loads: map<nat, Load>,
                         lives: seq<Life>, owner: Option<nat>, hidden: bool, timeouts: map<nat, nat>, nextTimer: nat,
                         clock: nat, lastFrame: nat)

  datatype Failure = Aborted | Unimplemented | Other

  datatype Event =
    | Render(to: Scope, only: bool)
    | RunEffects
    | PageOk(load: nat, complete: bool)
    | PageFailed(load: nat, failure: Failure)
    | TimerFires(timer: nat)
    | Visibility(isHidden: bool)
    | Frame(life: nat, complete: bool)
    | StreamEnds(life: nat)
    | StreamFails(life: nat, failure: Failure)
    | SleepOver(life: nat)
    | Refresh(of: Scope)
    | Unmount

  const FAILURES_BEFORE_POLL := 2

  const INIT := State("", false, true, Shown("", EMPTY_DATA), 0, map[], [], None, false, map[], 0, 1, 0)

  // ---- pieces of a step ---------------------------------------------------------------------------------

  /** Applies a change to what is shown, unless the scope has moved on. */
  function Update(s: State, scope: Scope, data: Data): State {
    if scope == "" || s.shown.scope != scope then s else s.(shown := Shown(scope, data))
  }

  function SetLife(s: State, l: nat, life: Life): State
    requires l < |s.lives|
  {
    s.(lives := s.lives[l := life])
  }

  /** Starts a page load: the generation moves on, so every load before it is superseded. */
  function BeginLoad(s: State, scope: Scope, after: After): State {
    var mine := s.generation + 1;
    s.(generation := mine, loads := s.loads[mine := Load(scope, mine, s.clock, after)])
  }

  function SchedulePoll(s: State, l: nat): State
    requires l < |s.lives|
  {
    if s.lives[l].aborted || s.hidden || s.lives[l].timer.Some? then s
    else
      SetLife(s, l, s.lives[l].(timer := Some(s.nextTimer))).(timeouts := s.timeouts[s.nextTimer := l], nextTimer := s.nextTimer + 1)
  }

  /** Clears the timer of a run of the effect, if it has set one. */
  function ClearTimeout(s: State, l: nat): State
    requires l < |s.lives|
  {
    if s.lives[l].timer.None? then s else s.(timeouts := s.timeouts - {s.lives[l].timer.value})
  }

  function StartPolling(s: State, l: nat): State
    requires l < |s.lives|
  {
    if s.lives[l].polling || s.lives[l].aborted then s else SchedulePoll(Polled(s, l), l)
  }

  function Polled(s: State, l: nat): State
    requires l < |s.lives|
  {
    var t := SetLife(s, l, s.lives[l].(polling := true));
    Update(t, s.lives[l].scope, t.shown.data.(transport := Poll))
  }

  /** The cleanup of the effect that owns the component, if one does. */
  function Cleanup(s: State): State {
    if s.owner.None? || s.owner.value >= |s.lives| then s
    else
      var l := s.owner.value;
      ClearTimeout(SetLife(s, l, s.lives[l].(aborted := true, streamAborted := true)), l).(owner := None)
  }

  /** What a load does once it settles. */
  function Settle(s: State, after: After): State {
    match after
    case Manually => s
    case OnTimer(l) => if l < |s.lives| then SchedulePoll(s, l) else s
    case OnVisible(l) => if l < |s.lives| then SchedulePoll(s, l) else s
    case Initially(l) =>
      if l >= |s.lives| || s.lives[l].aborted then s
      else if s.lives[l].pollOnly || s.lives[l].streamAborted then StartPolling(s, l)
      else SetLife(s, l, s.lives[l].(loop := Connected))
  }

  predicate Accepting(life: Life) {
    life.loop == Connected && !life.aborted && !life.streamAborted
  }

  function NewLife(scope: Scope, pollOnly: bool): Life {
    Life(scope, pollOnly, false, false, false, None, Idle, 0, 0, false)
  }

  function Effects(s: State): State {
    var t := Cleanup(s).(dirty := false);
    if t.scope == "" then t.(shown := Shown("", EMPTY_DATA))
    else
      var l := |t.lives|;
      var u := t.(shown := if t.shown.scope == t.scope then t.shown else Shown(t.scope, EMPTY_DATA),
                  lives := t.lives + [NewLife(t.scope, t.pollOnly)], owner := Some(l));
      BeginLoad(u, u.scope, Initially(l))
  }

  /** A page arrives: it is shown only if no load or frame came after it began. */
  function Arrive(s: State, load: Load, complete: bool): State {
    if load.mine != s.generation then s
    else Update(s, load.scope, Data(FromPage(load.mine), load.scope, s.shown.data.transport, !complete))
  }

  function Fail(s: State, load: Load, failure: Failure): State {
    if load.mine != s.generation || failure == Aborted then s
    else Update(s, load.scope, s.shown.data.(stale := true))
  }

  function TakeFrame(s: State, l: nat, complete: bool): State
    requires l < |s.lives|
  {
    var life := s.lives[l].(failures := 0, attempt := 0);
    var t := SetLife(s, l, life).(generation := s.generation + 1, lastFrame := s.clock);
    Update(t, life.scope, Data(FromFrame(l), life.scope, Stream, !complete))
  }

  /** The listener of the effect that polls. */
  function Visible(s: State, l: nat): State
    requires l < |s.lives|
  {
    var t := StopTimer(s, l);
    if s.hidden then t else BeginLoad(t, s.lives[l].scope, OnVisible(l))
  }

  function StopTimer(s: State, l: nat): State
    requires l < |s.lives|
  {
    SetLife(ClearTimeout(s, l), l, s.lives[l].(timer := None))
  }

  function Fired(s: State, id: nat, l: nat): State
    requires l < |s.lives|
  {
    var t := SetLife(s, l, s.lives[l].(timer := None)).(timeouts := s.timeouts - {id});
    BeginLoad(t, s.lives[l].scope, OnTimer(l))
  }

  function StreamFailed(s: State, l: nat, failure: Failure): State
    requires l < |s.lives|
  {
    var life := s.lives[l];
    if life.aborted || life.streamAborted || failure == Aborted then SetLife(s, l, life.(loop := Over))
    else if failure == Unimplemented then StartPolling(SetLife(s, l, life.(loop := Over)), l)
    else CountFailure(Update(s, life.scope, s.shown.data.(stale := true)), l)
  }

  /** One more failure: polling after enough of them, else another attempt later. */
  function CountFailure(s: State, l: nat): State
    requires l < |s.lives|
  {
    var failures := s.lives[l].failures + 1;
    if failures >= FAILURES_BEFORE_POLL then StartPolling(SetLife(s, l, LoopOver(s.lives[l], failures)), l)
    else SetLife(s, l, LoopAsleep(s.lives[l], failures))
  }

  function LoopOver(life: Life, failures: nat): Life {
    life.(failures := failures, loop := Over)
  }

  function LoopAsleep(life: Life, failures: nat): Life {
    life.(failures := failures, attempt := life.attempt + 1, loop := Sleeping)
  }

  function StreamEnded(s: State, l: nat): State
    requires l < |s.lives|
  {
    var life := s.lives[l];
    SetLife(s, l, if life.aborted || life.streamAborted then life.(loop := Over)
                  else life.(attempt := life.attempt + 1, loop := Sleeping))
  }

  function Woken(s: State, l: nat): State
    requires l < |s.lives|
  {
    SetLife(s, l, s.lives[l].(loop := if s.lives[l].aborted || s.lives[l].streamAborted then Over else Connected))
  }

  /** The owner retires its stream and polls; then a page is loaded. */
  function Refreshed(s: State, l: nat, scope: Scope): State
    requires l < |s.lives|
  {
    var t := SetLife(s, l, s.lives[l].(streamAborted := true, refreshed := true));
    BeginLoad(StartPolling(t, l), scope, Manually)
  }

  predicate Owns(s: State, scope: Scope) {
    s.owner.Some? && s.owner.value < |s.lives| && s.lives[s.owner.value].scope == scope
  }

  function Without(s: State, load: nat): State {
    s.(loads := s.loads - {load})
  }

  function React(s: State, e: Event): State {
    match e
    case Render(to, only) => s.(scope := to, pollOnly := only, dirty := true)
    case RunEffects => if s.dirty then Effects(s) else s
    case PageOk(i, complete) => if i in s.loads then Settle(Arrive(Without(s, i), s.loads[i], complete), s.loads[i].after) else s
    case PageFailed(i, failure) => if i in s.loads then Settle(Fail(Without(s, i), s.loads[i], failure), s.loads[i].after) else s
    case TimerFires(id) => if id in s.timeouts && s.timeouts[id] < |s.lives| then Fired(s, id, s.timeouts[id]) else s
    case Visibility(isHidden) =>
      var t := s.(hidden := isHidden);
      if s.owner.Some? && s.owner.value < |s.lives| && s.lives[s.owner.value].polling then Visible(t, s.owner.value) else t
    case Frame(l, complete) => if l < |s.lives| && Accepting(s.lives[l]) then TakeFrame(s, l, complete) else s
    case StreamEnds(l) => if l < |s.lives| && s.lives[l].loop == Connected then StreamEnded(s, l) else s
    case StreamFails(l, failure) => if l < |s.lives| && s.lives[l].loop == Connected then StreamFailed(s, l, failure) else s
    case SleepOver(l) => if l < |s.lives| && s.lives[l].loop == Sleeping then Woken(s, l) else s
    case Refresh(scope) => if Owns(s, scope) then Refreshed(s, s.owner.value, scope) else s
    case Unmount =>
      var t := Cleanup(s);
      t.(generation := t.generation + 1, dirty := false)
  }

  function Next(s: State, e: Event): State {
    var t := React(s, e);
    t.(clock := t.clock + 1)
  }

  function Run(s: State, es: seq<Event>): State
    decreases |es|
  {
    if es == [] then s else Run(Next(s, es[0]), es[1..])
  }

  /** What the component returns. */
  function Returned(s: State): Data {
    if s.shown.scope == s.scope && s.scope != "" then s.shown.data else EMPTY_DATA
  }

  // ---- the invariant ----------------------------------------------------------------------------------------

  /** A run of the effect either has a stream that is accepting or polls, and times polls only while it lives. */
  ghost predicate LifeOk(life: Life) {
    life.scope != "" &&
    (life.timer.Some? ==> life.polling) &&
    (life.polling ==> life.streamAborted || life.loop == Over || life.pollOnly) &&
    (life.pollOnly ==> life.loop == Idle) &&
    (life.refreshed ==> life.streamAborted && (life.polling || life.aborted))
  }

  ghost predicate LivesOk(s: State) {
    (forall l :: 0 <= l < |s.lives| ==> LifeOk(s.lives[l])) &&
    (forall l :: 0 <= l < |s.lives| && s.owner != Some(l) ==> s.lives[l].aborted) &&
    (s.owner.Some? ==> s.owner.value < |s.lives| && !s.lives[s.owner.value].aborted)
  }

  ghost predicate LoadOk(s: State, i: nat)
    requires i in s.loads
  {
    var load := s.loads[i];
    load.mine == i && i <= s.generation && load.scope != "" && load.begun < s.clock && s.lastFrame < s.clock &&
    (i == s.generation ==> load.begun > s.lastFrame) &&
    (load.after.Initially? ==> load.after.life < |s.lives| && s.lives[load.after.life].loop == Idle) &&
    (load.after.OnTimer? || load.after.OnVisible? ==> load.after.life < |s.lives| && s.lives[load.after.life].polling)
  }

  ghost predicate LoadsOk(s: State) {
    s.lastFrame < s.clock &&
    (forall i :: i in s.loads ==> LoadOk(s, i)) &&
    (forall i, j :: i in s.loads && j in s.loads && s.loads[i].after.Initially? && s.loads[j].after == s.loads[i].after ==> i == j)
  }

  ghost predicate ShownOk(s: State) {
    (s.shown.data.origin.Nowhere? || s.shown.data.of == s.shown.scope) &&
    (s.owner.Some? && s.owner.value < |s.lives| ==>
       s.shown.scope == s.lives[s.owner.value].scope &&
       (s.lives[s.owner.value].polling ==> s.shown.data.transport == Poll))
  }

  /** Every timer is the one its run of the effect knows of, and the run is the live one. */
  ghost predicate TimersOk(s: State) {
    forall id :: id in s.timeouts ==>
      id < s.nextTimer && s.timeouts[id] < |s.lives| && s.lives[s.timeouts[id]].timer == Some(id) &&
      !s.lives[s.timeouts[id]].aborted
  }

  ghost predicate Inv(s: State) {
    LivesOk(s) && LoadsOk(s) && ShownOk(s) && TimersOk(s)
  }

  // ---- the pieces keep the invariant ----------------------------------------------------------------------------

  /** No load still waits to start the stream loop of `l`. */
  ghost predicate Started(s: State, l: nat) {
    forall i :: i in s.loads ==> s.loads[i].after != Initially(l)
  }

  lemma LoadsKept(s: State, t: State)
    requires LoadsOk(s) && t.loads == s.loads && t.generation == s.generation && t.clock == s.clock && t.lastFrame == s.lastFrame
    requires |t.lives| == |s.lives|
    requires forall l :: 0 <= l < |s.lives| && s.lives[l].loop == Idle ==> t.lives[l].loop == Idle
    requires forall l :: 0 <= l < |s.lives| && s.lives[l].polling ==> t.lives[l].polling
    ensures LoadsOk(t)
  {
    forall i | i in t.loads
      ensures LoadOk(t, i)
    {
      assert LoadOk(s, i);
    }
  }

  lemma UpdateInv(s: State, scope: Scope, data: Data)
    requires Inv(s)
    requires data.origin.Nowhere? || data.of == scope
    requires s.owner.Some? && s.lives[s.owner.value].polling && s.shown.scope == scope ==> data.transport == Poll
    ensures Inv(Update(s, scope, data))
  {
    hide LifeOk, LoadsOk;
    var t := Update(s, scope, data);
    LoadsKept(s, t);
  }

  /** Changing a run of the effect, polling apart. */
  lemma SetLifeInv(s: State, l: nat, life: Life)
    requires Inv(s) && l < |s.lives| && LifeOk(life)
    requires life.scope == s.lives[l].scope && life.aborted == s.lives[l].aborted && life.polling == s.lives[l].polling
    requires life.timer == s.lives[l].timer && (life.loop == Idle || Started(s, l))
    ensures Inv(SetLife(s, l, life))
  {
    hide LifeOk;
    var t := SetLife(s, l, life);
    forall i | i in t.loads
      ensures LoadOk(t, i)
    {
      assert LoadOk(s, i);
    }
  }

  lemma BeginLoadInv(s: State, scope: Scope, after: After)
    requires Inv(s) && scope != ""
    requires after.Initially? ==> after.life < |s.lives| && s.lives[after.life].loop == Idle && Started(s, after.life)
    requires after.OnTimer? || after.OnVisible? ==> after.life < |s.lives| && s.lives[after.life].polling
    ensures InvSoon(BeginLoad(s, scope, after))
  {
    hide LifeOk;
    var t := BeginLoad(s, scope, after);
    forall i | i in t.loads
      ensures LoadOk(t.(clock := t.clock + 1), i)
    {
      if i != t.generation {
        assert LoadOk(s, i);
      }
    }
  }

  /** The invariant holds once the clock ticks. */
  ghost predicate InvSoon(s: State) {
    Inv(s.(clock := s.clock + 1))
  }

  lemma TickInv(s: State)
    requires Inv(s)
    ensures InvSoon(s)
  {
    hide LifeOk;
    var t := s.(clock := s.clock + 1);
    forall i | i in t.loads
      ensures LoadOk(t, i)
    {
      assert LoadOk(s, i);
    }
  }

  lemma SchedulePollInv(s: State, l: nat)
    requires Inv(s) && l < |s.lives| && s.lives[l].polling
    ensures Inv(SchedulePoll(s, l))
  {
    assert LifeOk(s.lives[l]);
    if !(s.lives[l].aborted || s.hidden || s.lives[l].timer.Some?) {
      var life := s.lives[l].(timer := Some(s.nextTimer));
      assert LifeOk(life);
      hide LifeOk, LoadsOk;
      LoadsKept(s, SchedulePoll(s, l));
    }
  }

  /** Two states that differ in one run of the effect, and perhaps in the timers. */
  ghost predicate Differ(s: State, t: State, l: nat) {
    l < |s.lives| && |t.lives| == |s.lives| && t.lives == s.lives[l := t.lives[l]] &&
    t == s.(lives := t.lives, timeouts := t.timeouts, nextTimer := t.nextTimer) &&
    t.lives[l].scope == s.lives[l].scope && t.lives[l].aborted == s.lives[l].aborted && t.lives[l].polling == s.lives[l].polling &&
    t.lives[l].loop == s.lives[l].loop
  }

  lemma DifferLives(s: State, t: State, l: nat)
    requires Differ(s, t, l) && LivesOk(s) && LifeOk(t.lives[l])
    ensures LivesOk(t)
  {
    hide LifeOk;
  }

  lemma DifferShown(s: State, t: State, l: nat)
    requires Differ(s, t, l) && ShownOk(s)
    ensures ShownOk(t)
  {
  }

  lemma DifferLoads(s: State, t: State, l: nat)
    requires Differ(s, t, l) && LoadsOk(s)
    ensures LoadsOk(t)
  {
    hide LoadsOk;
    LoadsKept(s, t);
  }

  lemma TimersGone(s: State, t: State, l: nat)
    requires Differ(s, t, l) && TimersOk(s) && t.nextTimer == s.nextTimer
    requires t.timeouts == if s.lives[l].timer.Some? then s.timeouts - {s.lives[l].timer.value} else s.timeouts
    ensures TimersOk(t)
  {
  }

  /** The timer of a run fires or is cleared. */
  lemma TimerGoneInv(s: State, l: nat)
    requires Inv(s) && l < |s.lives|
    ensures Inv(StopTimer(s, l)) && |StopTimer(s, l).lives| == |s.lives| && StopTimer(s, l).lives[l] == s.lives[l].(timer := None)
  {
    var t := StopTimer(s, l);
    assert LifeOk(s.lives[l]) && LifeOk(t.lives[l]);
    assert Differ(s, t, l);
    hide LifeOk, LivesOk, LoadsOk, ShownOk, Differ;
    TimersGone(s, t, l);
    hide TimersOk, StopTimer;
    DifferLives(s, t, l);
    DifferShown(s, t, l);
    DifferLoads(s, t, l);
  }

  /** The run may start to poll: its stream is retired, over or unwanted. */
  ghost predicate MayPoll(life: Life) {
    life.streamAborted || life.loop == Over || life.pollOnly
  }

  lemma PolledIs(s: State, l: nat)
    requires l < |s.lives| && s.shown.scope == s.lives[l].scope != ""
    ensures Polled(s, l) == s.(lives := s.lives[l := s.lives[l].(polling := true)], shown := Polled(s, l).shown)
    ensures Polled(s, l).shown == Shown(s.shown.scope, s.shown.data.(transport := Poll))
  {
  }

  lemma PolledInv(s: State, l: nat)
    requires Inv(s) && s.owner == Some(l) && LifeOk(s.lives[l].(polling := true))
    ensures Inv(Polled(s, l)) && |Polled(s, l).lives| == |s.lives| && Polled(s, l).lives[l] == s.lives[l].(polling := true)
  {
    assert LifeOk(s.lives[l]);
    PolledIs(s, l);
    var t := Polled(s, l);
    hide LifeOk, LoadsOk, Polled;
    LoadsKept(s, t);
  }

  lemma StartPollingInv(s: State, l: nat)
    requires Inv(s) && l < |s.lives| && MayPoll(s.lives[l])
    ensures Inv(StartPolling(s, l))
  {
    assert LifeOk(s.lives[l]);
    if !s.lives[l].polling && !s.lives[l].aborted {
      assert LifeOk(s.lives[l].(polling := true));
      assert s.owner == Some(l);
      hide LifeOk, LivesOk, LoadsOk, ShownOk, TimersOk, Polled, SchedulePoll;
      PolledInv(s, l);
      SchedulePollInv(Polled(s, l), l);
    }
  }

  lemma OnlyOwnerTimes(s: State, id: nat)
    requires LivesOk(s) && TimersOk(s) && id in s.timeouts
    ensures s.owner == Some(s.timeouts[id]) && s.timeouts[id] < |s.lives| && s.lives[s.timeouts[id]].timer == Some(id)
  {
    hide LifeOk;
  }

  lemma CleanupTimers(s: State)
    requires LivesOk(s) && TimersOk(s) && s.owner.Some?
    ensures Cleanup(s).timeouts == map[]
  {
    hide LivesOk, TimersOk;
    OwnerIn(s);
    var t := Cleanup(s);
    forall id | id in s.timeouts
      ensures id !in t.timeouts
    {
      OnlyOwnerTimes(s, id);
    }
  }

  lemma OwnerIn(s: State)
    requires LivesOk(s)
    ensures s.owner.Some? ==> s.owner.value < |s.lives|
  {
    hide LifeOk;
  }

  lemma CleanupIs(s: State)
    requires LivesOk(s) && TimersOk(s) && s.owner.Some?
    ensures var l := s.owner.value;
            l < |s.lives| &&
            Cleanup(s) == s.(lives := s.lives[l := s.lives[l].(aborted := true, streamAborted := true)], timeouts := map[], owner := None)
  {
    OwnerIn(s);
    CleanupTimers(s);
    hide LivesOk, TimersOk;
  }

  lemma CleanupLives(s: State, t: State)
    requires LivesOk(s) && s.owner.Some? && s.owner.value < |s.lives| && t.owner.None?
    requires t.lives == s.lives[s.owner.value := s.lives[s.owner.value].(aborted := true, streamAborted := true)]
    ensures LivesOk(t)
  {
    var l := s.owner.value;
    assert LifeOk(s.lives[l]) && LifeOk(t.lives[l]);
    hide LifeOk;
  }

  lemma CleanupInv(s: State)
    requires Inv(s)
    ensures Inv(Cleanup(s)) && Cleanup(s).owner.None?
  {
    if s.owner.Some? {
      var t := Cleanup(s);
      hide LivesOk, LoadsOk, Cleanup;
      CleanupIs(s);
      CleanupLives(s, t);
      LoadsKept(s, t);
    }
  }

  lemma SettleInv(s: State, after: After)
    requires Inv(s)
    requires after.Initially? ==> after.life < |s.lives| && s.lives[after.life].loop == Idle && Started(s, after.life)
    requires after.OnTimer? || after.OnVisible? ==> after.life < |s.lives| && s.lives[after.life].polling
    ensures Inv(Settle(s, after))
  {
    hide Inv, StartPolling, SchedulePoll, SetLife;
    match after {
      case Manually =>
      case OnTimer(l) => SchedulePollInv(s, l);
      case OnVisible(l) => SchedulePollInv(s, l);
      case Initially(l) =>
        if !s.lives[l].aborted {
          if s.lives[l].pollOnly || s.lives[l].streamAborted {
            StartPollingInv(s, l);
          } else {
            ConnectInv(s, l);
          }
        }
    }
  }

  lemma ConnectInv(s: State, l: nat)
    requires Inv(s) && l < |s.lives| && Started(s, l)
    requires !s.lives[l].pollOnly && !s.lives[l].streamAborted && s.lives[l].loop == Idle
    ensures Inv(SetLife(s, l, s.lives[l].(loop := Connected)))
  {
    assert LifeOk(s.lives[l]);
    var life := s.lives[l].(loop := Connected);
    assert LifeOk(life);
    hide LifeOk, LoadsOk, ShownOk;
    SetLifeInv(s, l, life);
  }

  // ---- every event keeps the invariant -----------------------------------------------------------------------------

  lemma WithoutInv(s: State, i: nat)
    requires Inv(s) && i in s.loads
    ensures Inv(Without(s, i))
    ensures var after := s.loads[i].after;
            (after.Initially? ==> after.life < |s.lives| && s.lives[after.life].loop == Idle && Started(Without(s, i), after.life)) &&
            (after.OnTimer? || after.OnVisible? ==> after.life < |s.lives| && s.lives[after.life].polling)
  {
    hide LifeOk;
    assert LoadOk(s, i);
    var t := Without(s, i);
    forall j | j in t.loads
      ensures LoadOk(t, j)
    {
      assert LoadOk(s, j);
    }
  }

  lemma UpdateKeepsRest(s: State, scope: Scope, data: Data)
    ensures var t := Update(s, scope, data); t == s.(shown := t.shown)
  {
  }

  lemma PageOkInv(s: State, i: nat, complete: bool)
    requires Inv(s) && i in s.loads
    ensures Inv(React(s, PageOk(i, complete)))
  {
    var load := s.loads[i];
    WithoutInv(s, i);
    var t := Without(s, i);
    var data := Data(FromPage(load.mine), load.scope, t.shown.data.transport, !complete);
    assert t.owner.Some? && t.lives[t.owner.value].polling && t.shown.scope == load.scope ==> data.transport == Poll;
    hide LifeOk, LivesOk, LoadsOk, ShownOk, Settle, Started;
    var u := Arrive(t, load, complete);
    if load.mine == t.generation {
      UpdateInv(t, load.scope, data);
      UpdateKeepsRest(t, load.scope, data);
    }
    assert u == t.(shown := u.shown);
    SameStarted(t, u, load.after);
    SettleInv(u, load.after);
  }

  lemma SameStarted(s: State, t: State, after: After)
    requires t.loads == s.loads
    ensures after.Initially? ==> Started(s, after.life) == Started(t, after.life)
  {
  }

  lemma PageFailedInv(s: State, i: nat, failure: Failure)
    requires Inv(s) && i in s.loads
    ensures Inv(React(s, PageFailed(i, failure)))
  {
    var load := s.loads[i];
    WithoutInv(s, i);
    var t := Without(s, i);
    var data := t.shown.data.(stale := true);
    assert t.owner.Some? && t.lives[t.owner.value].polling && t.shown.scope == load.scope ==> data.transport == Poll;
    hide LifeOk, LivesOk, LoadsOk, Settle, Started;
    var u := Fail(t, load, failure);
    if load.mine == t.generation && failure != Aborted {
      if t.shown.scope == load.scope {
        UpdateInv(t, load.scope, data);
      }
      UpdateKeepsRest(t, load.scope, data);
    }
    assert u == t.(shown := u.shown);
    SameStarted(t, u, load.after);
    hide ShownOk;
    SettleInv(u, load.after);
  }

  lemma TimerInv(s: State, id: nat)
    requires Inv(s) && id in s.timeouts
    ensures s.timeouts[id] < |s.lives| && InvSoon(Fired(s, id, s.timeouts[id]))
  {
    var l := s.timeouts[id];
    assert LifeOk(s.lives[l]);
    assert s.lives[l].timer == Some(id);
    var t := SetLife(s, l, s.lives[l].(timer := None)).(timeouts := s.timeouts - {id});
    assert t == StopTimer(s, l);
    hide LifeOk, LivesOk, LoadsOk, ShownOk, TimersOk, StopTimer;
    TimerGoneInv(s, l);
    BeginLoadInv(t, s.lives[l].scope, OnTimer(l));
  }

  lemma HiddenInv(s: State, isHidden: bool)
    requires Inv(s)
    ensures Inv(s.(hidden := isHidden))
  {
    hide LifeOk, LoadsOk;
    var t := s.(hidden := isHidden);
    LoadsKept(s, t);
  }

  lemma VisibilityInv(s: State, isHidden: bool)
    requires Inv(s)
    ensures InvSoon(React(s, Visibility(isHidden)))
  {
    var t := s.(hidden := isHidden);
    HiddenInv(s, isHidden);
    if s.owner.Some? && s.lives[s.owner.value].polling {
      var l := s.owner.value;
      assert LifeOk(s.lives[l]);
      hide LifeOk, LivesOk, LoadsOk, ShownOk, TimersOk, InvSoon, StopTimer;
      TimerGoneInv(t, l);
      TickInv(StopTimer(t, l));
      BeginLoadInv(StopTimer(t, l), s.lives[l].scope, OnVisible(l));
    } else {
      hide LifeOk, LoadsOk, ShownOk, TimersOk, InvSoon;
      TickInv(t);
    }
  }

  lemma FrameInv(s: State, l: nat, complete: bool)
    requires Inv(s) && l < |s.lives| && Accepting(s.lives[l])
    ensures InvSoon(TakeFrame(s, l, complete))
  {
    assert LifeOk(s.lives[l]);
    assert s.owner == Some(l) && !s.lives[l].polling;
    var t := TakeFrame(s, l, complete);
    assert LifeOk(t.lives[l]);
    assert t.shown == Shown(s.lives[l].scope, Data(FromFrame(l), s.lives[l].scope, Stream, !complete));
    hide LifeOk;
    var u := t.(clock := t.clock + 1);
    forall i | i in u.loads
      ensures LoadOk(u, i)
    {
      assert LoadOk(s, i);
    }
  }

  lemma LoopStarted(s: State, l: nat)
    requires Inv(s) && l < |s.lives| && s.lives[l].loop != Idle
    ensures Started(s, l)
  {
    forall i | i in s.loads
      ensures s.loads[i].after != Initially(l)
    {
      assert LoadOk(s, i);
    }
  }

  lemma StreamEndsInv(s: State, l: nat)
    requires Inv(s) && l < |s.lives| && s.lives[l].loop == Connected
    ensures Inv(StreamEnded(s, l))
  {
    LoopStarted(s, l);
    assert LifeOk(s.lives[l]);
    var life := StreamEnded(s, l).lives[l];
    assert LifeOk(life);
    hide LifeOk, LivesOk, LoadsOk, ShownOk, Started;
    SetLifeInv(s, l, life);
  }

  lemma WokenInv(s: State, l: nat)
    requires Inv(s) && l < |s.lives| && s.lives[l].loop == Sleeping
    ensures Inv(Woken(s, l))
  {
    LoopStarted(s, l);
    assert LifeOk(s.lives[l]);
    var life := Woken(s, l).lives[l];
    assert LifeOk(life);
    hide LifeOk, LivesOk, LoadsOk, ShownOk, Started;
    SetLifeInv(s, l, life);
  }

  /** The loop of a run ends, and its failures are counted. */
  lemma LoopOverInv(s: State, l: nat, failures: nat)
    requires Inv(s) && l < |s.lives| && s.lives[l].loop == Connected
    ensures Inv(SetLife(s, l, LoopOver(s.lives[l], failures))) && MayPoll(LoopOver(s.lives[l], failures))
  {
    LoopStarted(s, l);
    assert LifeOk(s.lives[l]);
    var life := LoopOver(s.lives[l], failures);
    assert LifeOk(life);
    hide LifeOk, LivesOk, LoadsOk, ShownOk, Started;
    SetLifeInv(s, l, life);
  }

  lemma StaleInv(s: State, scope: Scope)
    requires Inv(s)
    ensures Inv(Update(s, scope, s.shown.data.(stale := true)))
  {
    hide LifeOk, LoadsOk;
    if s.shown.scope == scope {
      UpdateInv(s, scope, s.shown.data.(stale := true));
    }
  }

  lemma SetLifeAt(s: State, l: nat, life: Life)
    requires l < |s.lives|
    ensures var t := SetLife(s, l, life); |t.lives| == |s.lives| && t.lives[l] == life
  {
  }

  lemma GiveUpInv(s: State, l: nat, failures: nat)
    requires Inv(s) && l < |s.lives| && s.lives[l].loop == Connected
    ensures Inv(StartPolling(SetLife(s, l, LoopOver(s.lives[l], failures)), l))
  {
    hide *;
    LoopOverInv(s, l, failures);
    SetLifeAt(s, l, LoopOver(s.lives[l], failures));
    StartPollingInv(SetLife(s, l, LoopOver(s.lives[l], failures)), l);
  }

  lemma CountFailureInv(s: State, l: nat)
    requires Inv(s) && l < |s.lives|
    requires s.lives[l].loop == Connected && !s.lives[l].aborted && !s.lives[l].streamAborted
    ensures Inv(CountFailure(s, l))
  {
    hide Inv, StartPolling, SetLife, LoopOver, LoopAsleep;
    var failures := s.lives[l].failures + 1;
    GiveUpInv(s, l, failures);
    SleepInv(s, l, failures);
  }

  lemma StreamFailsInv(s: State, l: nat, failure: Failure)
    requires Inv(s) && l < |s.lives| && s.lives[l].loop == Connected
    ensures Inv(StreamFailed(s, l, failure))
  {
    var life := s.lives[l];
    UpdateKeepsRest(s, life.scope, s.shown.data.(stale := true));
    assert LoopOver(life, life.failures) == life.(loop := Over);
    hide Inv, StartPolling, Update, CountFailure, SetLife, LoopOver, MayPoll;
    if !life.aborted && !life.streamAborted && failure == Other {
      StaleInv(s, life.scope);
      CountFailureInv(Update(s, life.scope, s.shown.data.(stale := true)), l);
    } else {
      LoopOverInv(s, l, life.failures);
      SetLifeAt(s, l, life.(loop := Over));
      StartPollingInv(SetLife(s, l, life.(loop := Over)), l);
    }
  }

  lemma SleepInv(s: State, l: nat, failures: nat)
    requires Inv(s) && l < |s.lives| && s.lives[l].loop == Connected && !s.lives[l].aborted && !s.lives[l].streamAborted
    ensures Inv(SetLife(s, l, LoopAsleep(s.lives[l], failures)))
  {
    LoopStarted(s, l);
    assert LifeOk(s.lives[l]);
    var life := LoopAsleep(s.lives[l], failures);
    assert LifeOk(life);
    hide LifeOk, LivesOk, LoadsOk, ShownOk, Started;
    SetLifeInv(s, l, life);
  }

  lemma RefreshInv(s: State, scope: Scope)
    requires Inv(s) && Owns(s, scope)
    ensures InvSoon(Refreshed(s, s.owner.value, scope))
  {
    var l := s.owner.value;
    assert LifeOk(s.lives[l]);
    var life := s.lives[l].(streamAborted := true);
    assert LifeOk(life) && MayPoll(life);
    RetireInv(s, l);
    var t := SetLife(s, l, life.(refreshed := true));
    hide LifeOk, LivesOk, LoadsOk, ShownOk, InvSoon, MayPoll;
    BeginLoadInv(StartPolling(t, l), scope, Manually);
  }

  /** Retiring the stream and starting to poll, in one go. */
  lemma RetireInv(s: State, l: nat)
    requires Inv(s) && s.owner == Some(l) && l < |s.lives|
    ensures Inv(StartPolling(SetLife(s, l, s.lives[l].(streamAborted := true, refreshed := true)), l))
  {
    assert LifeOk(s.lives[l]);
    var life := s.lives[l].(streamAborted := true, refreshed := true);
    var t := SetLife(s, l, life);
    if s.lives[l].polling {
      assert LifeOk(life);
      hide LifeOk, LoadsOk;
      LoadsKept(s, t);
    } else {
      RetiredPolls(s, l);
    }
  }

  lemma RetiredPolls(s: State, l: nat)
    requires Inv(s) && s.owner == Some(l) && l < |s.lives| && !s.lives[l].polling
    ensures Inv(StartPolling(SetLife(s, l, s.lives[l].(streamAborted := true, refreshed := true)), l))
  {
    assert LifeOk(s.lives[l]);
    var t := SetLife(s, l, s.lives[l].(streamAborted := true, refreshed := true));
    PolledIs(t, l);
    var u := Polled(t, l);
    assert LifeOk(u.lives[l]);
    assert u.lives == s.lives[l := u.lives[l]] && u == s.(lives := u.lives, shown := u.shown);
    hide LifeOk, LoadsOk, Polled, SetLife;
    LoadsKept(s, u);
    hide SchedulePoll;
    SchedulePollInv(u, l);
    assert t.lives[l].aborted == false && !t.lives[l].polling by { SetLifeAt(s, l, s.lives[l].(streamAborted := true, refreshed := true)); }
  }

  lemma EmptiedInv(s: State)
    requires Inv(s) && s.owner.None?
    ensures Inv(s.(shown := Shown("", EMPTY_DATA)))
  {
    hide LifeOk, LoadsOk;
    LoadsKept(s, s.(shown := Shown("", EMPTY_DATA)));
  }

  lemma EffectsInv(s: State)
    requires Inv(s)
    ensures InvSoon(Effects(s))
  {
    CleanupInv(s);
    var c := Cleanup(s);
    var t := c.(dirty := false);
    hide Inv, InvSoon, Cleanup, BeginLoad, NewLife;
    PropsInv(c, c.scope, c.pollOnly, false);
    assert t == c.(scope := c.scope, pollOnly := c.pollOnly, dirty := false);
    if t.scope == "" {
      EmptiedInv(t);
      TickInv(t.(shown := Shown("", EMPTY_DATA)));
    } else {
      BirthInv(t);
    }
  }

  lemma BirthInv(t: State)
    requires Inv(t) && t.owner.None? && t.scope != ""
    ensures var l := |t.lives|;
            var u := t.(shown := if t.shown.scope == t.scope then t.shown else Shown(t.scope, EMPTY_DATA),
                        lives := t.lives + [NewLife(t.scope, t.pollOnly)], owner := Some(l));
            InvSoon(BeginLoad(u, u.scope, Initially(l)))
  {
    var l := |t.lives|;
    var u := t.(shown := if t.shown.scope == t.scope then t.shown else Shown(t.scope, EMPTY_DATA),
                lives := t.lives + [NewLife(t.scope, t.pollOnly)], owner := Some(l));
    assert LifeOk(u.lives[l]);
    forall k | 0 <= k < l
      ensures u.lives[k] == t.lives[k]
    {
    }
    hide LifeOk;
    forall i | i in u.loads
      ensures LoadOk(u, i) && u.loads[i].after != Initially(l)
    {
      assert LoadOk(t, i);
    }
    assert Inv(u);
    BeginLoadInv(u, u.scope, Initially(l));
  }

  lemma PropsInv(s: State, scope: Scope, pollOnly: bool, dirty: bool)
    requires Inv(s)
    ensures Inv(s.(scope := scope, pollOnly := pollOnly, dirty := dirty))
  {
    hide LifeOk, LoadsOk;
    var t := s.(scope := scope, pollOnly := pollOnly, dirty := dirty);
    LoadsKept(s, t);
  }

  lemma UnmountInv(s: State)
    requires Inv(s)
    ensures Inv(React(s, Unmount))
  {
    CleanupInv(s);
    var c := Cleanup(s);
    var t := c.(generation := c.generation + 1, dirty := false);
    hide LifeOk, Cleanup;
    forall i | i in t.loads
      ensures LoadOk(t, i)
    {
      assert LoadOk(c, i);
    }
  }

  lemma NextKeepsInv(s: State, e: Event)
    requires Inv(s)
    ensures Inv(Next(s, e))
  {
    hide Inv, Effects, Settle, Arrive, Fail, Accepting, TakeFrame, Visible, Fired, StreamFailed, StreamEnded, Woken,
         Refreshed, Owns, BeginLoad, Cleanup, SetLife;
    var t := React(s, e);
    assert InvSoon(t) by {
      TickInv(s);
      match e {
        case Render(to, only) => PropsInv(s, to, only, true); TickInv(t);
        case RunEffects => EffectsInv(s);
        case PageOk(i, complete) => if i in s.loads { PageOkInv(s, i, complete); TickInv(t); }
        case PageFailed(i, failure) => if i in s.loads { PageFailedInv(s, i, failure); TickInv(t); }
        case TimerFires(id) => if id in s.timeouts { TimerInv(s, id); }
        case Visibility(isHidden) => VisibilityInv(s, isHidden);
        case Frame(l, complete) => if l < |s.lives| && Accepting(s.lives[l]) { FrameInv(s, l, complete); }
        case StreamEnds(l) => if l < |s.lives| && s.lives[l].loop == Connected { StreamEndsInv(s, l); TickInv(t); }
        case StreamFails(l, failure) => if l < |s.lives| && s.lives[l].loop == Connected { StreamFailsInv(s, l, failure); TickInv(t); }
        case SleepOver(l) => if l < |s.lives| && s.lives[l].loop == Sleeping { WokenInv(s, l); TickInv(t); }
        case Refresh(scope) => if Owns(s, scope) { RefreshInv(s, scope); }
        case Unmount => UnmountInv(s); TickInv(t);
      }
    }
  }

  /** Whatever happens, in whatever order, the invariant holds. */
  lemma {:induction false} RunKeepsInv(s: State, es: seq<Event>)
    requires Inv(s)
    ensures Inv(Run(s, es))
    decreases |es|
  {
    hide Inv, Next;
    if es != [] {
      NextKeepsInv(s, es[0]);
      RunKeepsInv(Next(s, es[0]), es[1..]);
    }
  }

  // ---- the promises ---------------------------------------------------------------------------------------------------

  lemma InitInv()
    ensures Inv(INIT)
  {
  }

  /** The states that some sequence of events leads to. */
  ghost predicate Reachable(s: State) {
    exists es :: s == Run(INIT, es)
  }

  lemma ReachableInv(s: State)
    requires Reachable(s)
    ensures Inv(s)
  {
    hide Inv, Next;
    var es :| s == Run(INIT, es);
    InitInv();
    RunKeepsInv(INIT, es);
  }

  predicate PollsNow(life: Life) {
    life.polling && !life.aborted
  }

  /** Polling and an accepting stream are never both live, and there is at most one of either, and one poll timer. */
  lemma OneSource(s: State, l: nat, m: nat)
    requires Reachable(s) && l < |s.lives| && m < |s.lives|
    ensures !(PollsNow(s.lives[l]) && Accepting(s.lives[m]))
    ensures Accepting(s.lives[l]) && Accepting(s.lives[m]) ==> l == m
    ensures |s.timeouts.Keys| <= 1
    ensures forall id :: id in s.timeouts ==> s.timeouts[id] < |s.lives| && PollsNow(s.lives[s.timeouts[id]])
  {
    hide LoadsOk, ShownOk, Run;
    ReachableInv(s);
    assert LifeOk(s.lives[l]) && LifeOk(s.lives[m]);
    forall id | id in s.timeouts
      ensures s.timeouts[id] < |s.lives| && PollsNow(s.lives[s.timeouts[id]]) && s.owner == Some(s.timeouts[id])
    {
      assert LifeOk(s.lives[s.timeouts[id]]);
    }
    AtMostOne(s.timeouts.Keys);
  }

  lemma AtMostOne<T>(ids: set<T>)
    requires forall i, j :: i in ids && j in ids ==> i == j
    ensures |ids| <= 1
  {
    if ids != {} {
      var i :| i in ids;
      assert ids == {i};
    }
  }

  /** What the component returns was fetched for the scope it is rendered with, or is nothing. */
  lemma DataOfCurrentScope(s: State)
    requires Reachable(s)
    ensures Returned(s).origin.Nowhere? || Returned(s).of == s.scope
    ensures s.scope == "" ==> Returned(s) == EMPTY_DATA
    ensures s.owner.Some? && s.owner.value < |s.lives| && s.lives[s.owner.value].polling && s.lives[s.owner.value].scope == s.scope ==>
              Returned(s).transport == Poll
  {
    hide LivesOk, LoadsOk, Run;
    ReachableInv(s);
    OwnerScope(s);
  }

  lemma OwnerScope(s: State)
    requires Inv(s)
    ensures s.owner.Some? ==> s.owner.value < |s.lives| && s.lives[s.owner.value].scope != ""
  {
    if s.owner.Some? {
      assert LifeOk(s.lives[s.owner.value]);
    }
  }

  /** Runs of the effect are not forgotten, generations only grow, and a retired stream stays retired. */
  ghost predicate Later(s: State, t: State) {
    |s.lives| <= |t.lives| && s.generation <= t.generation &&
    forall l :: 0 <= l < |s.lives| && s.lives[l].streamAborted ==> t.lives[l].streamAborted
  }

  lemma LaterTransitive(s: State, t: State, u: State)
    requires Later(s, t) && Later(t, u)
    ensures Later(s, u)
  {
  }

  lemma SetLifeLater(s: State, l: nat, life: Life)
    requires l < |s.lives| && (s.lives[l].streamAborted ==> life.streamAborted)
    ensures Later(s, SetLife(s, l, life))
  {
  }

  lemma SameLater(s: State, t: State)
    requires t.lives == s.lives && s.generation <= t.generation
    ensures Later(s, t)
  {
  }

  lemma SchedulePollLater(s: State, l: nat)
    requires l < |s.lives|
    ensures Later(s, SchedulePoll(s, l)) && SchedulePoll(s, l).shown == s.shown
  {
  }

  lemma StartPollingLater(s: State, l: nat)
    requires l < |s.lives|
    ensures Later(s, StartPolling(s, l)) && SameContent(s, StartPolling(s, l))
  {
    var u := Polled(s, l);
    assert Later(s, u) && SameContent(s, u) && |u.lives| == |s.lives|;
    SameLater(s, s);
    hide Later, SchedulePoll, Polled;
    SchedulePollLater(u, l);
    LaterTransitive(s, u, SchedulePoll(u, l));
  }

  /** The same rows and counts are shown. */
  ghost predicate SameContent(s: State, t: State) {
    t.shown.data.origin == s.shown.data.origin && t.shown.scope == s.shown.scope && t.shown.data.of == s.shown.data.of
  }

  lemma SettleLater(s: State, after: After)
    ensures Later(s, Settle(s, after)) && SameContent(s, Settle(s, after))
  {
    SameLater(s, s);
    hide Later, SchedulePoll, StartPolling;
    match after {
      case Manually =>
      case OnTimer(l) => if l < |s.lives| { SchedulePollLater(s, l); }
      case OnVisible(l) => if l < |s.lives| { SchedulePollLater(s, l); }
      case Initially(l) =>
        if l < |s.lives| {
          StartPollingLater(s, l);
          SetLifeLater(s, l, s.lives[l].(loop := Connected));
        }
    }
  }

  lemma CleanupLater(s: State)
    ensures Later(s, Cleanup(s))
  {
  }

  lemma EffectsLater(s: State)
    ensures Later(s, Effects(s))
  {
    CleanupLater(s);
    var c, u := Cleanup(s), Effects(s);
    assert Later(c, u) by { hide Cleanup; }
    hide Later, Cleanup, Effects;
    LaterTransitive(s, c, u);
  }

  lemma CountFailureLater(s: State, l: nat)
    requires l < |s.lives|
    ensures Later(s, CountFailure(s, l))
  {
    var failures := s.lives[l].failures + 1;
    var t := SetLife(s, l, LoopOver(s.lives[l], failures));
    SetLifeLater(s, l, LoopOver(s.lives[l], failures));
    SetLifeLater(s, l, LoopAsleep(s.lives[l], failures));
    hide Later, StartPolling, LoopOver, LoopAsleep;
    StartPollingLater(t, l);
    LaterTransitive(s, t, StartPolling(t, l));
  }

  lemma StreamFailedLater(s: State, l: nat, failure: Failure)
    requires l < |s.lives|
    ensures Later(s, StreamFailed(s, l, failure))
  {
    var life := s.lives[l];
    var t := SetLife(s, l, life.(loop := Over));
    var u := Update(s, life.scope, s.shown.data.(stale := true));
    UpdateKeepsRest(s, life.scope, s.shown.data.(stale := true));
    hide Later, StartPolling, CountFailure, Update;
    SetLifeLater(s, l, life.(loop := Over));
    StartPollingLater(t, l);
    LaterTransitive(s, t, StartPolling(t, l));
    SameLater(s, u);
    CountFailureLater(u, l);
    LaterTransitive(s, u, CountFailure(u, l));
  }

  lemma RefreshedLater(s: State, l: nat, scope: Scope)
    requires l < |s.lives|
    ensures Later(s, Refreshed(s, l, scope))
    ensures |Refreshed(s, l, scope).lives| >= |s.lives| && Refreshed(s, l, scope).lives[l].streamAborted
  {
    var t := SetLife(s, l, s.lives[l].(streamAborted := true, refreshed := true));
    var u := StartPolling(t, l);
    SetLifeLater(s, l, s.lives[l].(streamAborted := true, refreshed := true));
    hide StartPolling;
    StartPollingLater(t, l);
    assert u.lives[l].streamAborted;
    var v := BeginLoad(u, scope, Manually);
    SameLater(u, v);
    assert v.lives == u.lives;
    hide Later, BeginLoad, SetLife;
    LaterTransitive(s, t, u);
    LaterTransitive(s, u, v);
  }

  lemma PageLater(s: State, i: nat, t: State, after: After)
    requires t.lives == s.lives && t.generation == s.generation
    ensures Later(s, Settle(t, after))
  {
    SameLater(s, t);
    hide Later, Settle;
    SettleLater(t, after);
    LaterTransitive(s, t, Settle(t, after));
  }

  lemma LifeLater(s: State, e: Event)
    requires e.TimerFires? || e.Frame? || e.StreamEnds? || e.SleepOver? || e.Render?
    ensures Later(s, React(s, e))
  {
  }

  lemma ReactLater(s: State, e: Event)
    ensures Later(s, React(s, e))
  {
    hide Settle, Effects, StreamFailed, Refreshed, Cleanup, Owns, Accepting, CountFailure, Later, Visible, TakeFrame, Fired,
         StreamEnded, Woken;
    SameLater(s, s);
    match e {
      case PageOk(i, complete) => if i in s.loads { PageLater(s, i, Arrive(Without(s, i), s.loads[i], complete), s.loads[i].after); }
      case PageFailed(i, failure) => if i in s.loads { PageLater(s, i, Fail(Without(s, i), s.loads[i], failure), s.loads[i].after); }
      case RunEffects => EffectsLater(s);
      case StreamFails(l, failure) => if l < |s.lives| { StreamFailedLater(s, l, failure); }
      case Refresh(scope) => if Owns(s, scope) { RefreshLater(s, scope); }
      case Unmount => UnmountLater(s);
      case Visibility(isHidden) => VisibleLater(s, isHidden);
      case _ => LifeLater(s, e);
    }
  }

  lemma UnmountLater(s: State)
    ensures Later(s, React(s, Unmount))
  {
    CleanupLater(s);
    hide Cleanup;
  }

  lemma VisibleLater(s: State, isHidden: bool)
    ensures Later(s, React(s, Visibility(isHidden)))
  {
  }

  lemma RefreshLater(s: State, scope: Scope)
    requires Owns(s, scope)
    ensures Later(s, Refreshed(s, s.owner.value, scope))
  {
    hide Refreshed, Later;
    RefreshedLater(s, s.owner.value, scope);
  }

  lemma NextLater(s: State, e: Event)
    ensures Later(s, Next(s, e))
  {
    hide React;
    ReactLater(s, e);
  }

  lemma {:induction false} RunLater(s: State, es: seq<Event>)
    ensures Later(s, Run(s, es))
    decreases |es|
  {
    hide Next;
    if es != [] {
      NextLater(s, es[0]);
      RunLater(Next(s, es[0]), es[1..]);
      LaterTransitive(s, Next(s, es[0]), Run(Next(s, es[0]), es[1..]));
    }
  }

  /** After a refresh, whatever else happens, no frame of that run of the effect changes anything but the clock. */
  lemma NoFrameAfterRefresh(s: State, scope: Scope, es: seq<Event>, complete: bool)
    requires Owns(s, scope)
    ensures var t := Run(Next(s, Refresh(scope)), es);
            s.owner.value < |t.lives| && Next(t, Frame(s.owner.value, complete)) == t.(clock := t.clock + 1)
  {
    var l := s.owner.value;
    var u := Next(s, Refresh(scope));
    assert l < |u.lives| && u.lives[l].streamAborted by { RefreshRetires(s, scope); }
    hide Run, Refreshed;
    RunLater(u, es);
  }

  lemma RefreshRetires(s: State, scope: Scope)
    requires Owns(s, scope)
    ensures var u := Next(s, Refresh(scope)); var l := s.owner.value; l < |u.lives| && u.lives[l].streamAborted
  {
    hide Refreshed, Later;
    RefreshedLater(s, s.owner.value, scope);
  }

  /** The loads that were under way when a frame was accepted show nothing when they complete, whatever happens in between. */
  lemma NoPageBehindFrame(s: State, l: nat, i: nat, es: seq<Event>, complete: bool, pageComplete: bool)
    requires Reachable(s) && l < |s.lives| && Accepting(s.lives[l]) && i in s.loads
    ensures var t := Run(Next(s, Frame(l, complete)), es);
            i in t.loads ==> SameContent(t, Next(t, PageOk(i, pageComplete)))
  {
    var u := Next(s, Frame(l, complete));
    var t := Run(u, es);
    ReachableInv(s);
    assert LoadOk(s, i);
    assert u.generation == s.generation + 1;
    hide Run, Reachable, SameContent;
    NextKeepsInv(s, Frame(l, complete));
    RunKeepsInv(u, es);
    RunLater(u, es);
    if i in t.loads {
      assert LoadOk(t, i);
      hide Inv, Next, Accepting, LoadOk;
      StalePage(t, i, pageComplete);
    }
  }

  lemma StalePage(t: State, i: nat, complete: bool)
    requires i in t.loads && t.loads[i].mine != t.generation
    ensures SameContent(t, Next(t, PageOk(i, complete)))
  {
    hide Settle, Later;
    SettleLater(Without(t, i), t.loads[i].after);
  }

  /** A page that changes what is shown was begun after the last frame accepted. */
  lemma PagesAreFresh(s: State, i: nat, complete: bool)
    requires Reachable(s) && i in s.loads && !SameContent(s, Next(s, PageOk(i, complete)))
    ensures s.loads[i].begun > s.lastFrame
  {
    ReachableInv(s);
    assert LoadOk(s, i);
    hide Reachable, SameContent, Next, Inv;
    if s.loads[i].mine != s.generation {
      StalePage(s, i, complete);
    }
  }

  /** A refresh retires the stream for good: the run of the effect polls until it ends. */
  lemma RefreshedPolls(s: State, l: nat)
    requires Reachable(s) && l < |s.lives| && s.lives[l].refreshed
    ensures s.lives[l].streamAborted && (s.lives[l].polling || s.lives[l].aborted)
  {
    ReachableInv(s);
    hide Reachable;
    assert LifeOk(s.lives[l]);
  }

  // ---- a stream and a page never compete ----------------------------------------------------------------------------------------------

  /** While the live run may stream, the only load that is current is the one it starts with. */
  ghost predicate Quiet(s: State) {
    s.owner.Some? && s.owner.value < |s.lives| && s.generation in s.loads ==>
      var life := s.lives[s.owner.value];
      life.streamAborted || life.pollOnly || life.loop == Over ||
      (life.loop == Idle && s.loads[s.generation].after == Initially(s.owner.value))
  }

  predicate Muted(life: Life) {
    life.streamAborted || life.pollOnly || life.loop == Over
  }

  lemma UpdateQuiet(s: State, scope: Scope, data: Data)
    requires Quiet(s)
    ensures Quiet(Update(s, scope, data))
  {
  }

  lemma SchedulePollQuiet(s: State, l: nat)
    requires l < |s.lives| && Quiet(s)
    ensures Quiet(SchedulePoll(s, l))
  {
  }

  lemma StartPollingQuiet(s: State, l: nat)
    requires l < |s.lives| && Quiet(s)
    ensures Quiet(StartPolling(s, l))
  {
    var t := SetLife(s, l, s.lives[l].(polling := true));
    assert Quiet(t);
    UpdateQuiet(t, s.lives[l].scope, t.shown.data.(transport := Poll));
    assert |Polled(s, l).lives| == |s.lives|;
    hide Quiet, SchedulePoll;
    SchedulePollQuiet(Polled(s, l), l);
  }

  /** A run of the effect that is not idle, or may not stream, changes its stream loop. */
  lemma SetLifeQuiet(s: State, l: nat, life: Life)
    requires l < |s.lives| && Quiet(s) && (s.lives[l].loop != Idle || Muted(life) || life.loop == Idle)
    requires Muted(s.lives[l]) ==> Muted(life)
    ensures Quiet(SetLife(s, l, life))
  {
  }

  /** The loop of the effect starts once its first load has settled. */
  lemma ConnectQuiet(s: State, i: nat, l: nat)
    requires Inv(s) && Quiet(s) && i in s.loads && s.loads[i].after == Initially(l) && l < |s.lives|
    ensures Quiet(SetLife(Without(s, i), l, s.lives[l].(loop := Connected)))
  {
    hide LivesOk, ShownOk, TimersOk;
    assert LoadOk(s, i);
  }

  lemma WithoutQuiet(s: State, i: nat)
    requires Quiet(s)
    ensures Quiet(Without(s, i))
  {
  }

  lemma SettleQuiet(s: State, i: nat, t: State)
    requires Inv(s) && Quiet(s) && i in s.loads
    requires t == Without(s, i).(shown := t.shown)
    ensures Quiet(Settle(t, s.loads[i].after))
  {
    var after := s.loads[i].after;
    WithoutQuiet(s, i);
    assert Quiet(t);
    if after.Initially? && after.life < |s.lives| {
      ConnectQuiet(s, i, after.life);
      assert Quiet(SetLife(t, after.life, t.lives[after.life].(loop := Connected)));
      hide Inv, Quiet, StartPolling;
      StartPollingQuiet(t, after.life);
    } else if !after.Manually? && !after.Initially? && after.life < |s.lives| {
      hide Inv, Quiet, SchedulePoll;
      SchedulePollQuiet(t, after.life);
    }
  }

  lemma PageQuiet(s: State, e: Event)
    requires Inv(s) && Quiet(s) && (e.PageOk? || e.PageFailed?)
    ensures Quiet(React(s, e))
  {
    var i := e.load;
    if i in s.loads {
      var load, u := s.loads[i], Without(s, i);
      UpdateKeepsRest(u, load.scope, Data(FromPage(load.mine), load.scope, u.shown.data.transport, e.PageOk? && !e.complete));
      UpdateKeepsRest(u, load.scope, u.shown.data.(stale := true));
      hide Inv, Quiet, Settle, Update;
      var t := if e.PageOk? then Arrive(u, load, e.complete) else Fail(u, load, e.failure);
      SettleQuiet(s, i, t);
    }
  }

  lemma StreamQuiet(s: State, e: Event)
    requires Inv(s) && Quiet(s) && (e.StreamEnds? || e.SleepOver? || e.Frame?)
    ensures Quiet(React(s, e))
  {
    if e.Frame? {
      TakeFrameQuiet(s, e.life, e.complete);
    } else if e.life < |s.lives| {
      var life := s.lives[e.life];
      hide Inv, Quiet;
      if e.SleepOver? && life.loop == Sleeping {
        SetLifeQuiet(s, e.life, life.(loop := if life.aborted || life.streamAborted then Over else Connected));
      } else if e.StreamEnds? && life.loop == Connected {
        SetLifeQuiet(s, e.life, if life.aborted || life.streamAborted then life.(loop := Over)
                                else life.(attempt := life.attempt + 1, loop := Sleeping));
      }
    }
  }

  lemma TakeFrameQuiet(s: State, l: nat, complete: bool)
    requires Inv(s) && Quiet(s)
    ensures Quiet(React(s, Frame(l, complete)))
  {
    hide LivesOk, ShownOk, TimersOk;
  }

  lemma OverQuiet(s: State, l: nat, life: Life)
    requires Quiet(s) && l < |s.lives| && life.loop == Over
    ensures Quiet(SetLife(s, l, life)) && Quiet(StartPolling(SetLife(s, l, life), l))
  {
    assert Muted(life);
    SetLifeQuiet(s, l, life);
    hide Quiet, StartPolling, Muted;
    StartPollingQuiet(SetLife(s, l, life), l);
  }

  lemma CountFailureQuiet(s: State, l: nat)
    requires Quiet(s) && l < |s.lives| && s.lives[l].loop == Connected
    ensures Quiet(CountFailure(s, l))
  {
    hide Quiet, StartPolling, SetLife;
    OverQuiet(s, l, LoopOver(s.lives[l], s.lives[l].failures + 1));
    SetLifeQuiet(s, l, LoopAsleep(s.lives[l], s.lives[l].failures + 1));
  }

  lemma StreamFailsQuiet(s: State, l: nat, failure: Failure)
    requires Quiet(s) && l < |s.lives| && s.lives[l].loop == Connected
    ensures Quiet(StreamFailed(s, l, failure))
  {
    var life := s.lives[l];
    var u := Update(s, life.scope, s.shown.data.(stale := true));
    UpdateQuiet(s, life.scope, s.shown.data.(stale := true));
    assert u.lives == s.lives;
    hide Quiet, StartPolling, Update, SetLife, CountFailure;
    OverQuiet(s, l, life.(loop := Over));
    CountFailureQuiet(u, l);
  }

  /** A run that polls does not stream. */
  lemma PollsMuted(s: State, l: nat)
    requires Inv(s) && l < |s.lives| && s.lives[l].polling
    ensures Muted(s.lives[l])
  {
    assert LifeOk(s.lives[l]);
  }

  lemma BeginMuted(s: State, scope: Scope, after: After)
    requires s.owner.Some? && s.owner.value < |s.lives| ==> Muted(s.lives[s.owner.value])
    ensures Quiet(BeginLoad(s, scope, after))
  {
  }

  lemma FiredQuiet(s: State, id: nat)
    requires Inv(s) && Quiet(s) && id in s.timeouts && s.timeouts[id] < |s.lives|
    ensures Quiet(Fired(s, id, s.timeouts[id]))
  {
    var l := s.timeouts[id];
    assert s.owner == Some(l) && s.lives[l].timer == Some(id) && LifeOk(s.lives[l]);
    PollsMuted(s, l);
    hide Inv, Quiet, BeginLoad;
    var t := SetLife(s, l, s.lives[l].(timer := None)).(timeouts := s.timeouts - {id});
    BeginMuted(t, s.lives[l].scope, OnTimer(l));
  }

  lemma VisibilityQuiet(s: State, isHidden: bool)
    requires Inv(s) && Quiet(s)
    ensures Quiet(React(s, Visibility(isHidden)))
  {
    if s.owner.Some? && s.owner.value < |s.lives| && s.lives[s.owner.value].polling {
      var l := s.owner.value;
      PollsMuted(s, l);
      var t := StopTimer(s.(hidden := isHidden), l);
      assert t.owner == s.owner && |t.lives| == |s.lives| && Muted(t.lives[l]);
      BeginMuted(t, s.lives[l].scope, OnVisible(l));
      hide Inv, BeginLoad, StopTimer;
    }
  }

  lemma RefreshQuiet(s: State, scope: Scope)
    requires Owns(s, scope)
    ensures Quiet(Refreshed(s, s.owner.value, scope))
  {
    var l := s.owner.value;
    var t := SetLife(s, l, s.lives[l].(streamAborted := true, refreshed := true));
    assert Quiet(t);
    var u := StartPolling(t, l);
    StartPollingKeeps(t, l);
    hide StartPolling, Quiet;
    BeginMuted(u, scope, Manually);
  }

  lemma StartPollingKeeps(s: State, l: nat)
    requires l < |s.lives|
    ensures var t := StartPolling(s, l); t.owner == s.owner && |t.lives| == |s.lives| && t.lives[l].streamAborted == s.lives[l].streamAborted
  {
    var t := SetLife(s, l, s.lives[l].(polling := true));
    UpdateKeepsRest(t, s.lives[l].scope, t.shown.data.(transport := Poll));
    hide Update;
    var u := Polled(s, l);
    assert u.owner == s.owner && |u.lives| == |s.lives| && u.lives[l].streamAborted == s.lives[l].streamAborted;
    hide Polled;
  }

  lemma EffectsQuiet(s: State)
    ensures Quiet(Effects(s))
  {
    hide ClearTimeout;
  }

  lemma UnmountQuiet(s: State)
    ensures Quiet(React(s, Unmount))
  {
    hide ClearTimeout;
  }

  lemma QuietNext(s: State, e: Event)
    requires Inv(s) && Quiet(s)
    ensures Quiet(Next(s, e))
  {
    assert Quiet(React(s, e)) by {
      hide Inv, Quiet, Effects, StreamFailed, Refreshed, Fired;
      match e {
        case Render(to, only) => RenderQuiet(s, to, only);
        case RunEffects => EffectsQuiet(s);
        case PageOk(_, _) => PageQuiet(s, e);
        case PageFailed(_, _) => PageQuiet(s, e);
        case TimerFires(id) => if id in s.timeouts && s.timeouts[id] < |s.lives| { FiredQuiet(s, id); }
        case Visibility(isHidden) => VisibilityQuiet(s, isHidden);
        case StreamFails(l, failure) => if l < |s.lives| && s.lives[l].loop == Connected { StreamFailsQuiet(s, l, failure); }
        case Refresh(scope) => if Owns(s, scope) { RefreshQuiet(s, scope); }
        case Unmount => UnmountQuiet(s);
        case _ => StreamQuiet(s, e);
      }
    }
    hide React, Inv;
  }

  lemma RenderQuiet(s: State, to: Scope, only: bool)
    requires Quiet(s)
    ensures Quiet(React(s, Render(to, only)))
  {
  }

  lemma {:induction false} QuietRun(s: State, es: seq<Event>)
    requires Inv(s) && Quiet(s)
    ensures Quiet(Run(s, es))
    decreases |es|
  {
    hide Inv, Quiet, Next;
    if es != [] {
      NextKeepsInv(s, es[0]);
      QuietNext(s, es[0]);
      QuietRun(Next(s, es[0]), es[1..]);
    }
  }

  /** While a stream is accepting, every load under way is already superseded: no page can show, even before the next frame. */
  lemma NoPageBesideStream(s: State, l: nat, i: nat, complete: bool)
    requires Reachable(s) && l < |s.lives| && Accepting(s.lives[l]) && i in s.loads
    ensures s.loads[i].mine != s.generation && SameContent(s, Next(s, PageOk(i, complete)))
  {
    ReachableInv(s);
    var es :| s == Run(INIT, es);
    InitInv();
    assert Quiet(INIT);
    QuietRun(INIT, es);
    assert LoadOk(s, i) && LifeOk(s.lives[l]);
    hide Run, SameContent, Next;
    assert s.owner == Some(l);
    StalePage(s, i, complete);
  }

  // ---- what arrives is shown ---------------------------------------------------------------------------------------------------------

  /** The page of the latest load is shown, if its scope still is. */
  lemma LatestPageShows(s: State, i: nat, complete: bool)
    requires Reachable(s) && i in s.loads && i == s.generation && s.shown.scope == s.loads[i].scope
    ensures var d := Next(s, PageOk(i, complete)).shown.data;
            d.origin == FromPage(i) && d.of == s.loads[i].scope && d.stale == !complete
  {
    ReachableInv(s);
    assert LoadOk(s, i);
    hide Reachable, Settle, Inv;
    var load := s.loads[i];
    var t := Arrive(Without(s, i), load, complete);
    assert t.shown.data.origin == FromPage(i) && t.shown.data.of == load.scope && t.shown.data.stale == !complete;
    SettleShows(t, load.after);
  }

  /** Settling a load touches nothing of what is shown but the transport. */
  lemma SettleShows(s: State, after: After)
    ensures var t := Settle(s, after); t.shown.scope == s.shown.scope && t.shown.data == s.shown.data.(transport := t.shown.data.transport)
  {
    match after
    case Manually =>
    case OnTimer(l) =>
    case OnVisible(l) =>
    case Initially(l) =>
      if l < |s.lives| {
        StartPollingShows(s, l);
        hide StartPolling;
      }
  }

  lemma StartPollingShows(s: State, l: nat)
    requires l < |s.lives|
    ensures var t := StartPolling(s, l); t.shown.scope == s.shown.scope && t.shown.data == s.shown.data.(transport := t.shown.data.transport)
  {
    hide SchedulePoll;
    if !(s.lives[l].polling || s.lives[l].aborted) {
      SchedulePollShows(Polled(s, l), l);
    }
  }

  lemma SchedulePollShows(s: State, l: nat)
    requires l < |s.lives|
    ensures SchedulePoll(s, l).shown == s.shown
  {
  }

  /** A load that fails for another reason than being aborted leaves what is shown, marked as stale. */
  lemma LatestFailureMarks(s: State, i: nat, failure: Failure)
    requires Reachable(s) && i in s.loads && i == s.generation && s.shown.scope == s.loads[i].scope && failure != Aborted
    ensures var d := Next(s, PageFailed(i, failure)).shown.data;
            d.stale && d.origin == s.shown.data.origin && d.of == s.shown.data.of
  {
    ReachableInv(s);
    assert LoadOk(s, i);
    hide Reachable, Settle, Inv;
    var load := s.loads[i];
    var t := Fail(Without(s, i), load, failure);
    assert t.shown.data == s.shown.data.(stale := true);
    SettleShows(t, load.after);
  }

  /** A frame that is accepted is shown, and the count of failures starts again. */
  lemma AcceptedFrameShows(s: State, l: nat, complete: bool)
    requires Reachable(s) && l < |s.lives| && Accepting(s.lives[l]) && s.shown.scope == s.lives[l].scope
    ensures var t := Next(s, Frame(l, complete));
            t.shown == Shown(s.shown.scope, Data(FromFrame(l), s.shown.scope, Stream, !complete)) &&
            l < |t.lives| && t.lives[l].failures == 0 && t.lives[l].attempt == 0
  {
    ReachableInv(s);
    assert LifeOk(s.lives[l]);
  }

  /** Once effects have run for a scope, that scope is the one shown. */
  lemma OwnerIsShown(s: State)
    requires Reachable(s) && s.owner.Some?
    ensures s.owner.value < |s.lives| && s.shown.scope == s.lives[s.owner.value].scope
  {
    ReachableInv(s);
    hide Reachable;
  }

  // ---- something is always under way ---------------------------------------------------------------------------------------------------

  /** A load after which the run of the effect goes on. */
  ghost predicate HasLoad(s: State, after: After) {
    exists i :: i in s.loads && s.loads[i].after == after
  }

  /** The next poll is timed or under way, or waits for the page to be seen again. */
  ghost predicate PollsOn(s: State, l: nat)
    requires l < |s.lives|
  {
    s.hidden || s.lives[l].timer.Some? || HasLoad(s, OnTimer(l)) || HasLoad(s, OnVisible(l))
  }

  /** The first load is out, or the stream is connected or about to be. */
  ghost predicate StreamsOn(s: State, l: nat)
    requires l < |s.lives|
  {
    (s.lives[l].loop == Idle && HasLoad(s, Initially(l))) ||
    (!s.lives[l].streamAborted && (s.lives[l].loop == Connected || s.lives[l].loop == Sleeping))
  }

  ghost predicate GoesOn(s: State, l: nat)
    requires l < |s.lives|
  {
    if s.lives[l].polling then PollsOn(s, l) else StreamsOn(s, l)
  }

  /** The run of the effect that owns the component has not stalled. */
  ghost predicate Alive(s: State) {
    s.owner.Some? ==> s.owner.value < |s.lives| && GoesOn(s, s.owner.value)
  }

  /** An accepting stream reports that it was aborted although nobody aborted it. */
  ghost predicate StrayAbort(s: State, e: Event) {
    e.StreamFails? && e.failure == Aborted && e.life < |s.lives| && Accepting(s.lives[e.life])
  }

  lemma KeptLoad(s: State, t: State, after: After)
    requires HasLoad(s, after) && forall i :: i in s.loads ==> i in t.loads && t.loads[i] == s.loads[i]
    ensures HasLoad(t, after)
  {
  }

  /** A change that leaves loads, visibility and owner, and of the owner's run what matters here. */
  lemma SameGoesOn(s: State, t: State, l: nat)
    requires l < |s.lives| && l < |t.lives| && GoesOn(s, l)
    requires t.loads == s.loads && t.hidden == s.hidden
    requires t.lives[l].polling == s.lives[l].polling && t.lives[l].timer == s.lives[l].timer
    requires t.lives[l].loop == s.lives[l].loop && t.lives[l].streamAborted == s.lives[l].streamAborted
    ensures GoesOn(t, l)
  {
  }

  lemma ScheduledPollsOn(s: State, l: nat)
    requires l < |s.lives| && !s.lives[l].aborted
    ensures l < |SchedulePoll(s, l).lives| && PollsOn(SchedulePoll(s, l), l)
    ensures SchedulePoll(s, l).lives[l] == s.lives[l].(timer := SchedulePoll(s, l).lives[l].timer)
  {
  }

  lemma StartPollingGoesOn(s: State, l: nat)
    requires l < |s.lives| && !s.lives[l].aborted && (s.lives[l].polling ==> PollsOn(s, l))
    ensures var t := StartPolling(s, l); l < |t.lives| && t.lives[l].polling && GoesOn(t, l) && t.owner == s.owner
  {
    if !s.lives[l].polling {
      var u := Polled(s, l);
      UpdateKeepsRest(SetLife(s, l, s.lives[l].(polling := true)), s.lives[l].scope, s.shown.data.(transport := Poll));
      hide Update, SchedulePoll, PollsOn;
      assert |u.lives| == |s.lives| && u.lives[l].polling && !u.lives[l].aborted && u.owner == s.owner;
      ScheduledPollsOn(u, l);
      ScheduleKeepsOwner(u, l);
    }
  }

  lemma ScheduleKeepsOwner(s: State, l: nat)
    requires l < |s.lives|
    ensures SchedulePoll(s, l).owner == s.owner
  {
  }

  /** Settling a load other than the owner's, or one that no poll or stream waits for. */
  lemma SettleOther(s: State, i: nat, t: State, l: nat)
    requires Inv(s) && i in s.loads && t == Without(s, i).(shown := t.shown) && s.owner == Some(l)
    requires s.loads[i].after != Initially(l) && s.loads[i].after != OnTimer(l) && s.loads[i].after != OnVisible(l)
    requires GoesOn(s, l)
    ensures var u := Settle(t, s.loads[i].after); u.owner == s.owner && l < |u.lives| && GoesOn(u, l)
  {
    var after := s.loads[i].after;
    assert l < |s.lives|;
    assert after.Initially? || after.OnTimer? || after.OnVisible? ==> after.life < |s.lives| ==> s.lives[after.life].aborted;
    assert Settle(t, after) == t;
    forall a | HasLoad(s, a) && (a == Initially(l) || a == OnTimer(l) || a == OnVisible(l))
      ensures HasLoad(t, a)
    {
      var j :| j in s.loads && s.loads[j].after == a;
      assert j in t.loads && t.loads[j].after == a;
    }
    hide HasLoad, Inv;
  }

  /** Settling a poll of the owner times the next one. */
  lemma SettlePoll(s: State, i: nat, t: State, l: nat)
    requires Inv(s) && i in s.loads && t == Without(s, i).(shown := t.shown) && s.owner == Some(l)
    requires s.loads[i].after == OnTimer(l) || s.loads[i].after == OnVisible(l)
    ensures var u := Settle(t, s.loads[i].after); u.owner == s.owner && l < |u.lives| && GoesOn(u, l)
  {
    assert LoadOk(s, i);
    assert l < |s.lives| && !s.lives[l].aborted && s.lives[l].polling;
    hide Inv, PollsOn, SchedulePoll;
    ScheduledPollsOn(t, l);
    ScheduleKeepsOwner(t, l);
  }

  /** Settling the first load of the owner connects the stream or starts polling. */
  lemma SettleFirst(s: State, i: nat, t: State, l: nat)
    requires Inv(s) && i in s.loads && t == Without(s, i).(shown := t.shown) && s.owner == Some(l)
    requires s.loads[i].after == Initially(l) && GoesOn(s, l)
    ensures var u := Settle(t, s.loads[i].after); u.owner == s.owner && l < |u.lives| && GoesOn(u, l)
  {
    assert LoadOk(s, i);
    assert l < |s.lives| && !s.lives[l].aborted && s.lives[l].loop == Idle && LifeOk(s.lives[l]);
    if s.lives[l].polling {
      assert PollsOn(t, l) by {
        if HasLoad(s, OnTimer(l)) {
          var j :| j in s.loads && s.loads[j].after == OnTimer(l);
          assert j in t.loads;
        }
        if HasLoad(s, OnVisible(l)) {
          var j :| j in s.loads && s.loads[j].after == OnVisible(l);
          assert j in t.loads;
        }
      }
    }
    hide Inv, PollsOn, StartPolling;
    if s.lives[l].pollOnly || s.lives[l].streamAborted {
      StartPollingGoesOn(t, l);
    }
  }

  lemma PageAlive(s: State, e: Event)
    requires Inv(s) && Alive(s) && (e.PageOk? || e.PageFailed?)
    ensures Alive(React(s, e))
  {
    var i := e.load;
    if i in s.loads && s.owner.Some? {
      var load, u, l := s.loads[i], Without(s, i), s.owner.value;
      UpdateKeepsRest(u, load.scope, Data(FromPage(load.mine), load.scope, u.shown.data.transport, e.PageOk? && !e.complete));
      UpdateKeepsRest(u, load.scope, u.shown.data.(stale := true));
      hide Inv, GoesOn, Settle, Update;
      var t := if e.PageOk? then Arrive(u, load, e.complete) else Fail(u, load, e.failure);
      if load.after == Initially(l) {
        SettleFirst(s, i, t, l);
      } else if load.after == OnTimer(l) || load.after == OnVisible(l) {
        SettlePoll(s, i, t, l);
      } else {
        SettleOther(s, i, t, l);
      }
    } else if i in s.loads {
      SettleUnowned(s, i, e);
    }
  }

  lemma SettleUnowned(s: State, i: nat, e: Event)
    requires Inv(s) && s.owner.None? && i in s.loads && (e == PageOk(i, e.PageOk? && e.complete) || (e.PageFailed? && e.load == i))
    ensures React(s, e).owner.None?
  {
    hide Inv, Update, SchedulePoll;
    SettleOwner(if e.PageOk? then Arrive(Without(s, i), s.loads[i], e.complete) else Fail(Without(s, i), s.loads[i], e.failure), s.loads[i].after);
    UpdateKeepsRest(Without(s, i), s.loads[i].scope,
                    Data(FromPage(s.loads[i].mine), s.loads[i].scope, s.shown.data.transport, e.PageOk? && !e.complete));
    UpdateKeepsRest(Without(s, i), s.loads[i].scope, s.shown.data.(stale := true));
  }

  lemma SettleOwner(s: State, after: After)
    ensures Settle(s, after).owner == s.owner
  {
    if after.Initially? && after.life < |s.lives| {
      StartPollingKeeps(s, after.life);
      hide StartPolling;
    }
  }

  lemma StreamAlive(s: State, e: Event)
    requires Inv(s) && Alive(s) && (e.StreamEnds? || e.SleepOver? || e.Frame?)
    ensures Alive(React(s, e))
  {
    if s.owner.Some? {
      var l, t := s.owner.value, React(s, e);
      assert LifeOk(s.lives[l]) && !s.lives[l].aborted;
      assert t.loads == s.loads && t.hidden == s.hidden && t.owner == s.owner && |t.lives| == |s.lives| by { StreamKeeps(s, e); }
      hide Inv, HasLoad;
    }
  }

  lemma StreamKeeps(s: State, e: Event)
    requires e.StreamEnds? || e.SleepOver? || e.Frame?
    ensures var t := React(s, e); t.loads == s.loads && t.hidden == s.hidden && t.owner == s.owner && |t.lives| == |s.lives|
  {
  }

  lemma FailsAlive(s: State, l: nat, failure: Failure)
    requires Inv(s) && Alive(s) && l < |s.lives| && s.lives[l].loop == Connected
    ensures Alive(StreamFailed(s, l, failure)) <==> !StrayAbort(s, StreamFails(l, failure))
  {
    if s.owner == Some(l) {
      OwnerFails(s, l, failure);
    } else {
      OtherFails(s, l, failure);
    }
  }

  /** A run that does not own the component is over already. */
  lemma OtherFails(s: State, l: nat, failure: Failure)
    requires Inv(s) && Alive(s) && l < |s.lives| && s.owner != Some(l)
    ensures Alive(StreamFailed(s, l, failure)) && !Accepting(s.lives[l])
  {
    assert s.lives[l].aborted;
    if s.owner.Some? {
      var t := SetLife(s, l, s.lives[l].(loop := Over));
      SameGoesOn(s, t, s.owner.value);
      hide GoesOn;
    }
  }

  lemma OwnerFails(s: State, l: nat, failure: Failure)
    requires Inv(s) && Alive(s) && s.owner == Some(l) && s.lives[l].loop == Connected
    ensures Alive(StreamFailed(s, l, failure)) <==> !StrayAbort(s, StreamFails(l, failure))
  {
    var life := s.lives[l];
    assert LifeOk(life) && !life.aborted;
    assert life.polling ==> life.streamAborted;
    hide Inv;
    if life.streamAborted || failure == Aborted {
      OverAlive(s, l);
    } else {
      hide Alive;
      GivesUp(s, l, failure);
    }
  }

  lemma OverAlive(s: State, l: nat)
    requires Alive(s) && s.owner == Some(l) && s.lives[l].loop == Connected
    ensures Alive(SetLife(s, l, s.lives[l].(loop := Over))) <==> s.lives[l].polling
    ensures s.lives[l].streamAborted ==> s.lives[l].polling
  {
    var t := SetLife(s, l, s.lives[l].(loop := Over));
    assert t.loads == s.loads && t.hidden == s.hidden && t.lives[l].timer == s.lives[l].timer;
  }

  /** A failure that is no abort leads to polling or to another attempt. */
  lemma GivesUp(s: State, l: nat, failure: Failure)
    requires Alive(s) && s.owner == Some(l) && s.lives[l].loop == Connected && !s.lives[l].aborted && !s.lives[l].streamAborted
    requires failure != Aborted && !s.lives[l].polling
    ensures Alive(StreamFailed(s, l, failure))
  {
    var life := s.lives[l];
    var u := Update(s, life.scope, s.shown.data.(stale := true));
    UpdateKeepsRest(s, life.scope, s.shown.data.(stale := true));
    assert u.lives == s.lives && u.owner == s.owner && l < |s.lives|;
    hide Alive, StartPolling, Update, CountFailure, SetLife;
    OverPolls(s, l, life.(loop := Over));
    CountAlive(u, l);
  }

  lemma OverPolls(s: State, l: nat, life: Life)
    requires s.owner == Some(l) && l < |s.lives| && !life.aborted && !life.polling
    ensures Alive(StartPolling(SetLife(s, l, life), l))
  {
    hide StartPolling, PollsOn, StreamsOn;
    StartPollingGoesOn(SetLife(s, l, life), l);
  }

  lemma CountAlive(s: State, l: nat)
    requires s.owner == Some(l) && l < |s.lives| && !s.lives[l].aborted && !s.lives[l].streamAborted && !s.lives[l].polling
    ensures Alive(CountFailure(s, l))
  {
    hide StartPolling, PollsOn, HasLoad;
    OverPolls(s, l, LoopOver(s.lives[l], s.lives[l].failures + 1));
  }

  lemma FiredAlive(s: State, id: nat)
    requires Inv(s) && Alive(s) && id in s.timeouts && s.timeouts[id] < |s.lives|
    ensures Alive(Fired(s, id, s.timeouts[id]))
  {
    var l := s.timeouts[id];
    assert s.owner == Some(l) && s.lives[l].timer == Some(id) && LifeOk(s.lives[l]);
    var t := Fired(s, id, l);
    var mine := s.generation + 1;
    assert mine in t.loads && t.loads[mine].after == OnTimer(l);
    assert t.owner == s.owner && t.lives[l].polling;
    hide Inv;
  }

  lemma VisibilityAlive(s: State, isHidden: bool)
    requires Inv(s) && Alive(s)
    ensures Alive(React(s, Visibility(isHidden)))
  {
    if s.owner.Some? {
      var l, t := s.owner.value, React(s, Visibility(isHidden));
      if s.lives[l].polling {
        VisibleAlive(s.(hidden := isHidden), l);
      } else {
        assert t.loads == s.loads && t.lives == s.lives;
      }
    }
  }

  lemma VisibleAlive(s: State, l: nat)
    requires l < |s.lives| && s.lives[l].polling
    ensures var t := Visible(s, l); t.owner == s.owner && l < |t.lives| && GoesOn(t, l)
  {
    var t := Visible(s, l);
    hide ClearTimeout;
    assert t.lives[l].polling && t.hidden == s.hidden && t.owner == s.owner by { VisibleKeeps(s, l); }
    if !s.hidden {
      var u := StopTimer(s, l);
      assert u.generation + 1 in t.loads && t.loads[u.generation + 1].after == OnVisible(l);
    }
  }

  lemma VisibleKeeps(s: State, l: nat)
    requires l < |s.lives|
    ensures var t := Visible(s, l); |t.lives| == |s.lives| && t.lives[l].polling == s.lives[l].polling && t.hidden == s.hidden && t.owner == s.owner
  {
  }

  lemma RefreshAlive(s: State, scope: Scope)
    requires Inv(s) && Alive(s) && Owns(s, scope)
    ensures Alive(Refreshed(s, s.owner.value, scope))
  {
    var l := s.owner.value;
    var t := SetLife(s, l, s.lives[l].(streamAborted := true, refreshed := true));
    assert !t.lives[l].aborted && t.loads == s.loads;
    assert t.lives[l].polling ==> PollsOn(t, l);
    hide Inv, PollsOn, StartPolling, StreamsOn;
    StartPollingGoesOn(t, l);
    var u := StartPolling(t, l);
    StartedLoads(t, l);
    assert GoesOn(u, l) && u.lives[l].polling;
    BegunGoesOn(u, l, scope);
  }

  /** Polling starts no load. */
  lemma StartedLoads(s: State, l: nat)
    requires l < |s.lives|
    ensures StartPolling(s, l).loads == s.loads && StartPolling(s, l).generation == s.generation
  {
  }

  lemma BegunGoesOn(s: State, l: nat, scope: Scope)
    requires l < |s.lives| && s.lives[l].polling && PollsOn(s, l) && s.owner == Some(l) && s.generation + 1 !in s.loads
    ensures Alive(BeginLoad(s, scope, Manually))
  {
    var t := BeginLoad(s, scope, Manually);
    if HasLoad(s, OnTimer(l)) {
      KeptLoad(s, t, OnTimer(l));
    }
    if HasLoad(s, OnVisible(l)) {
      KeptLoad(s, t, OnVisible(l));
    }
    hide HasLoad;
  }

  lemma EffectsAlive(s: State)
    requires Inv(s)
    ensures Alive(Effects(s))
  {
    var t := Effects(s);
    if t.owner.Some? {
      hide ClearTimeout;
      var l := t.owner.value;
      assert t.generation in t.loads && t.loads[t.generation].after == Initially(l);
    }
  }

  lemma UnmountAlive(s: State)
    requires Inv(s)
    ensures React(s, Unmount).owner.None?
  {
  }

  /** A step stalls the owner exactly when its stream reports an abort that nobody asked for. */
  lemma StallsOnlyByStrayAbort(s: State, e: Event)
    requires Inv(s) && Alive(s)
    ensures Alive(Next(s, e)) <==> !StrayAbort(s, e)
  {
    hide Inv, Alive, React, Accepting;
    TickAlive(React(s, e));
    match e {
      case Render(to, only) => RenderAlive(s, to, only);
      case RunEffects => RunEffectsAlive(s);
      case PageOk(_, _) => PageAlive(s, e);
      case PageFailed(_, _) => PageAlive(s, e);
      case TimerFires(id) => TimerAlive(s, id);
      case Visibility(isHidden) => VisibilityAlive(s, isHidden);
      case StreamFails(l, failure) => FailsStep(s, l, failure);
      case Refresh(scope) => RefreshStep(s, scope);
      case Unmount =>
        UnmountAlive(s);
        NoOwnerAlive(React(s, Unmount));
      case _ => StreamAlive(s, e);
    }
  }

  lemma RunEffectsAlive(s: State)
    requires Inv(s) && Alive(s)
    ensures Alive(React(s, RunEffects))
  {
    hide Inv, Alive, Effects;
    EffectsAlive(s);
  }

  lemma TimerAlive(s: State, id: nat)
    requires Inv(s) && Alive(s)
    ensures Alive(React(s, TimerFires(id)))
  {
    hide Inv, Alive, Fired;
    if id in s.timeouts && s.timeouts[id] < |s.lives| {
      FiredAlive(s, id);
    }
  }

  lemma RefreshStep(s: State, scope: Scope)
    requires Inv(s) && Alive(s)
    ensures Alive(React(s, Refresh(scope)))
  {
    hide Inv, Alive, Refreshed;
    if Owns(s, scope) {
      RefreshAlive(s, scope);
    }
  }

  lemma NoOwnerAlive(s: State)
    requires s.owner.None?
    ensures Alive(s)
  {
  }

  lemma FailsStep(s: State, l: nat, failure: Failure)
    requires Inv(s) && Alive(s)
    ensures Alive(React(s, StreamFails(l, failure))) <==> !StrayAbort(s, StreamFails(l, failure))
  {
    hide Inv, Alive, StreamFailed;
    if l < |s.lives| && s.lives[l].loop == Connected {
      FailsAlive(s, l, failure);
    }
  }

  lemma TickAlive(s: State)
    ensures Alive(s.(clock := s.clock + 1)) == Alive(s)
  {
    var t := s.(clock := s.clock + 1);
    assert t.loads == s.loads && t.lives == s.lives && t.owner == s.owner && t.hidden == s.hidden;
  }

  lemma RenderAlive(s: State, to: Scope, only: bool)
    requires Alive(s)
    ensures Alive(React(s, Render(to, only)))
  {
    var t := React(s, Render(to, only));
    assert t.loads == s.loads && t.lives == s.lives && t.owner == s.owner && t.hidden == s.hidden;
  }

  /** No event of the run is such an abort. */
  ghost predicate NoStrayAbort(s: State, es: seq<Event>)
    decreases |es|
  {
    es == [] || (!StrayAbort(s, es[0]) && NoStrayAbort(Next(s, es[0]), es[1..]))
  }

  lemma {:induction false} RunAlive(s: State, es: seq<Event>)
    requires Inv(s) && Alive(s) && NoStrayAbort(s, es)
    ensures Alive(Run(s, es))
    decreases |es|
  {
    hide Inv, Alive, Next, StrayAbort;
    if es != [] {
      NextKeepsInv(s, es[0]);
      StallsOnlyByStrayAbort(s, es[0]);
      RunAlive(Next(s, es[0]), es[1..]);
    }
  }

  /** In every run without such an abort the component always has a load, a stream or a poll to go on with. */
  lemma NeverStalls(es: seq<Event>)
    requires NoStrayAbort(INIT, es)
    ensures Alive(Run(INIT, es))
  {
    InitInv();
    assert Alive(INIT);
    hide Inv, Alive, NoStrayAbort, Run;
    RunAlive(INIT, es);
  }

  /** With one it may stall: here nothing is left to go on with. */
  lemma StrayAbortStalls()
    ensures var es := [Render("x", false), RunEffects, PageOk(1, true), StreamFails(0, Aborted)]; !Alive(Run(INIT, es))
  {
    var es := [Render("x", false), RunEffects, PageOk(1, true), StreamFails(0, Aborted)];
    var a := Next(INIT, es[0]);
    var b := Next(a, es[1]);
    assert b.owner == Some(0) && |b.lives| == 1 && b.lives[0] == NewLife("x", false) && b.loads == map[1 := Load("x", 1, a.clock, Initially(0))];
    var c := Next(b, es[2]);
    assert c.owner == Some(0) && |c.lives| == 1 && c.lives[0] == NewLife("x", false).(loop := Connected);
    var d := Next(c, es[3]);
    assert d.owner == Some(0) && |d.lives| == 1 && d.lives[0] == NewLife("x", false).(loop := Over);
    assert !Alive(d);
    assert es[1..] == [es[1], es[2], es[3]] && es[1..][1..] == [es[2], es[3]] && es[1..][1..][1..] == [es[3]] && es[1..][1..][1..][1..] == [];
    hide Next, Alive;
    RunFour(INIT, es);
  }

  lemma RunFour(s: State, es: seq<Event>)
    requires |es| == 4
    ensures Run(s, es) == Next(Next(Next(Next(s, es[0]), es[1]), es[2]), es[3])
  {
    hide Next;
    var a := Next(s, es[0]);
    assert Run(a, es[1..]) == Run(Next(a, es[1]), es[1..][1..]);
    var b := Next(a, es[1]);
    assert Run(b, es[1..][1..]) == Run(Next(b, es[2]), es[1..][1..][1..]);
    var c := Next(b, es[2]);
    assert Run(c, es[1..][1..][1..]) == Run(Next(c, es[3]), es[1..][1..][1..][1..]);
  }
}
