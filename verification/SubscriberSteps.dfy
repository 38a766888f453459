/**
  What single events bring about in a live rollout view, and what holds over whole runs beside
  the invariant: no poll is timed while the page is hidden (`HiddenIsSilent`), an unmounted view
  never changes again (`UnmountEnds`), and the failures counted are those since the last frame
  (`FailuresAreStrikes`), so a stream gives up at the second in a row (`SecondStrikePolls`).
*/
module SubscriberSteps {
  import opened JsonSyntax
  import opened Subscribers

  // ---- single events -------------------------------------------------------------------------------------

  /** A refresh of the scope shown loads a page, retires the stream and polls. */
  lemma RefreshLoads(s: State, scope: Scope)
    requires Reachable(s) && Owns(s, scope)
    ensures var t, l := Next(s, Refresh(scope)), s.owner.value;
            t.generation == s.generation + 1 && t.generation in t.loads && t.loads[t.generation].scope == scope &&
            l < |t.lives| && t.lives[l].streamAborted && t.lives[l].polling && t.shown.data.transport == Poll &&
            t.shown.data == s.shown.data.(transport := Poll)
  {
    ReachableInv(s);
    OwnerIsShown(s);
    hide Reachable, SchedulePoll;
    var l := s.owner.value;
    assert LifeOk(s.lives[l]);
    var u := SetLife(s, l, s.lives[l].(streamAborted := true, refreshed := true));
    ScheduleOnlyTimes(Polled(u, l), l);
  }

  lemma ScheduleOnlyTimes(s: State, l: nat)
    requires l < |s.lives|
    ensures var t := SchedulePoll(s, l);
            |t.lives| == |s.lives| && t.lives[l] == s.lives[l].(timer := t.lives[l].timer) && t.shown == s.shown &&
            t.generation == s.generation && t.loads == s.loads
  {
  }

  /** A stream that breaks leaves what is shown, marked as stale. */
  lemma StreamFailureMarks(s: State, l: nat)
    requires Reachable(s) && l < |s.lives| && Accepting(s.lives[l]) && s.shown.scope == s.lives[l].scope
    ensures var d := Next(s, StreamFails(l, Other)).shown.data; d.stale && d.origin == s.shown.data.origin && d.of == s.shown.data.of
  {
    ReachableInv(s);
    assert LifeOk(s.lives[l]);
    hide Reachable, Inv, CountFailure;
    CountShows(Update(s, s.lives[l].scope, s.shown.data.(stale := true)), l);
  }

  lemma CountShows(s: State, l: nat)
    requires l < |s.lives|
    ensures var t := CountFailure(s, l); t.shown.data == s.shown.data.(transport := t.shown.data.transport)
  {
    hide StartPolling;
    StartPollingShows(SetLife(s, l, LoopOver(s.lives[l], s.lives[l].failures + 1)), l);
  }

  /** Running the effect keeps what is shown of the same scope, shows nothing of another, and loads the first page. */
  lemma EffectsBegin(s: State)
    requires Reachable(s) && s.dirty
    ensures var t := Next(s, RunEffects);
            if s.scope == "" then t.owner.None? && t.shown == Shown("", EMPTY_DATA)
            else
              t.owner == Some(|s.lives|) && |t.lives| == |s.lives| + 1 && t.lives[|s.lives|] == NewLife(s.scope, s.pollOnly) &&
              t.shown == (if s.shown.scope == s.scope then s.shown else Shown(s.scope, EMPTY_DATA)) &&
              t.generation == s.generation + 1 && t.generation in t.loads &&
              t.loads[t.generation].scope == s.scope && t.loads[t.generation].after == Initially(|s.lives|)
  {
    ReachableInv(s);
    CleanupKeeps(s);
    hide Reachable, Inv, Cleanup;
  }

  lemma CleanupKeeps(s: State)
    requires Inv(s)
    ensures var t := Cleanup(s);
            t == s.(owner := None, lives := t.lives, timeouts := t.timeouts) && |t.lives| == |s.lives| &&
            forall l :: 0 <= l < |s.lives| ==> t.lives[l].failures == s.lives[l].failures
  {
    hide LoadsOk, ShownOk, TimersOk, LifeOk, ClearTimeout;
    if s.owner.Some? {
      var l := s.owner.value;
      ClearsOnly(SetLife(s, l, s.lives[l].(aborted := true, streamAborted := true)), l);
    }
  }

  // ---- hidden pages ----------------------------------------------------------------------------------------

  ghost predicate Silent(s: State) {
    s.hidden ==> s.timeouts == map[]
  }

  lemma ScheduleSilent(s: State, l: nat)
    requires Silent(s) && l < |s.lives|
    ensures Silent(SchedulePoll(s, l)) && SchedulePoll(s, l).hidden == s.hidden
  {
  }

  lemma PollingSilent(s: State, l: nat)
    requires Silent(s) && l < |s.lives|
    ensures Silent(StartPolling(s, l)) && StartPolling(s, l).hidden == s.hidden
  {
    hide SchedulePoll;
    ScheduleSilent(Polled(s, l), l);
  }

  lemma SettleSilent(s: State, after: After)
    requires Silent(s)
    ensures Silent(Settle(s, after))
  {
    hide SchedulePoll, StartPolling;
    if !after.Manually? && after.life < |s.lives| {
      ScheduleSilent(s, after.life);
      PollingSilent(s, after.life);
    }
  }

  /** A page that becomes hidden has its one timer stopped. */
  lemma VisibilitySilent(s: State, isHidden: bool)
    requires Inv(s)
    ensures Silent(React(s, Visibility(isHidden)))
  {
    if isHidden {
      forall id | id in s.timeouts
        ensures s.owner == Some(s.timeouts[id]) && s.lives[s.timeouts[id]].timer == Some(id) && s.lives[s.timeouts[id]].polling
      {
        assert LifeOk(s.lives[s.timeouts[id]]);
        OnlyOwnerTimes(s, id);
      }
    }
  }

  lemma StreamFailsSilent(s: State, l: nat, failure: Failure)
    requires Silent(s) && l < |s.lives|
    ensures Silent(StreamFailed(s, l, failure))
  {
    hide StartPolling;
    var life := s.lives[l];
    PollingSilent(SetLife(s, l, life.(loop := Over)), l);
    var t := Update(s, life.scope, s.shown.data.(stale := true));
    PollingSilent(SetLife(t, l, LoopOver(t.lives[l], t.lives[l].failures + 1)), l);
  }

  lemma RefreshSilent(s: State, scope: Scope)
    requires Silent(s)
    ensures Silent(React(s, Refresh(scope)))
  {
    hide StartPolling;
    if Owns(s, scope) {
      var l := s.owner.value;
      PollingSilent(SetLife(s, l, s.lives[l].(streamAborted := true, refreshed := true)), l);
    }
  }

  lemma PageSilent(s: State, e: Event)
    requires Silent(s) && (e.PageOk? || e.PageFailed?)
    ensures Silent(React(s, e))
  {
    hide Settle;
    if e.load in s.loads {
      var load := s.loads[e.load];
      SettleSilent(if e.PageOk? then Arrive(Without(s, e.load), load, e.complete) else Fail(Without(s, e.load), load, e.failure), load.after);
    }
  }

  lemma OtherSilent(s: State, e: Event)
    requires Silent(s) && !(e.PageOk? || e.PageFailed? || e.Visibility? || e.Refresh?)
    ensures Silent(React(s, e))
  {
    hide StreamFailed;
    if e.StreamFails? && e.life < |s.lives| {
      StreamFailsSilent(s, e.life, e.failure);
    }
  }

  lemma NextSilent(s: State, e: Event)
    requires Inv(s) && Silent(s)
    ensures Silent(Next(s, e))
  {
    hide Inv, React;
    match e
    case PageOk(_, _) => PageSilent(s, e);
    case PageFailed(_, _) => PageSilent(s, e);
    case Visibility(isHidden) => VisibilitySilent(s, isHidden);
    case Refresh(scope) => RefreshSilent(s, scope);
    case _ => OtherSilent(s, e);
  }

  lemma {:induction false} RunSilent(s: State, es: seq<Event>)
    requires Inv(s) && Silent(s)
    ensures Silent(Run(s, es))
    decreases |es|
  {
    hide Next, Inv, Silent;
    if es != [] {
      NextSilent(s, es[0]);
      NextKeepsInv(s, es[0]);
      RunSilent(Next(s, es[0]), es[1..]);
    }
  }

  /** No poll is timed while the page is hidden. */
  lemma HiddenIsSilent(s: State)
    requires Reachable(s) && s.hidden
    ensures s.timeouts == map[]
  {
    InitInv();
    var es :| s == Run(INIT, es);
    hide Run, Inv;
    RunSilent(INIT, es);
  }

  // ---- unmounted views ---------------------------------------------------------------------------------------------

  /** Nothing owns the view, and whatever is still under way is aborted or superseded. */
  ghost predicate Ended(s: State) {
    s.owner.None? && !s.dirty && s.timeouts == map[] && (forall l :: 0 <= l < |s.lives| ==> s.lives[l].aborted) &&
    forall i :: i in s.loads ==> s.loads[i].mine < s.generation
  }

  lemma UnmountIsEnd(s: State)
    requires Inv(s)
    ensures Ended(Next(s, Unmount)) && Next(s, Unmount).shown == s.shown
  {
    CleanupInv(s);
    CleanupKeeps(s);
    var t := Cleanup(s);
    hide Cleanup, LifeOk;
    assert t.timeouts == map[] by {
      forall id | id in t.timeouts
        ensures false
      {
        OnlyOwnerTimes(t, id);
      }
    }
    forall i | i in s.loads
      ensures s.loads[i].mine <= s.generation
    {
      assert LoadOk(s, i);
    }
  }

  lemma AbortedPolls(s: State, l: nat)
    requires l < |s.lives| && s.lives[l].aborted
    ensures SchedulePoll(s, l) == s && StartPolling(s, l) == s
  {
  }

  lemma EndedPages(s: State, e: Event)
    requires Ended(s) && (e.PageOk? || e.PageFailed?)
    ensures Ended(React(s, e)) && React(s, e).shown == s.shown
  {
    hide SchedulePoll, StartPolling;
    if e.load in s.loads && !s.loads[e.load].after.Manually? && s.loads[e.load].after.life < |s.lives| {
      AbortedPolls(Without(s, e.load), s.loads[e.load].after.life);
    }
  }

  lemma EndedStreams(s: State, e: Event)
    requires Ended(s) && (e.Frame? || e.StreamEnds? || e.StreamFails? || e.SleepOver?)
    ensures Ended(React(s, e)) && React(s, e).shown == s.shown
  {
    hide TakeFrame, CountFailure, StartPolling, Update;
    if e.life < |s.lives| {
      assert s.lives[e.life].aborted;
    }
  }

  lemma EndedStays(s: State, e: Event)
    requires Ended(s) && !e.Render?
    ensures Ended(Next(s, e)) && Next(s, e).shown == s.shown
  {
    if e.PageOk? || e.PageFailed? {
      hide React;
      EndedPages(s, e);
    } else if e.Frame? || e.StreamEnds? || e.StreamFails? || e.SleepOver? {
      hide React;
      EndedStreams(s, e);
    } else {
      hide Effects, Fired, Visible, Refreshed;
    }
  }

  lemma {:induction false} EndedRun(s: State, es: seq<Event>)
    requires Ended(s) && forall k :: 0 <= k < |es| ==> !es[k].Render?
    ensures Ended(Run(s, es)) && Run(s, es).shown == s.shown
    decreases |es|
  {
    hide Next, Ended;
    if es != [] {
      EndedStays(s, es[0]);
      EndedRun(Next(s, es[0]), es[1..]);
    }
  }

  /** Once unmounted, and until it is rendered again, the view has no timer, and nothing that still completes changes it. */
  lemma UnmountEnds(s: State, es: seq<Event>)
    requires Reachable(s) && forall k :: 0 <= k < |es| ==> !es[k].Render?
    ensures var t := Run(Next(s, Unmount), es); t.shown == s.shown && t.timeouts == map[] && t.owner.None?
  {
    ReachableInv(s);
    hide Reachable, Run, Next, Inv;
    UnmountIsEnd(s);
    EndedRun(Next(s, Unmount), es);
  }

  // ---- failures in a row ----------------------------------------------------------------------------------------------

  /** The stream of `l` breaks while it counts. */
  predicate Struck(s: State, e: Event, l: nat) {
    l < |s.lives| && Accepting(s.lives[l]) && e == StreamFails(l, Other)
  }

  predicate Served(s: State, e: Event, l: nat) {
    l < |s.lives| && Accepting(s.lives[l]) && e.Frame? && e.life == l
  }

  /** The failures of stream `l` in a run, since its last frame. */
  function Strikes(s: State, es: seq<Event>, l: nat): nat
    decreases |es|
  {
    if es == [] then 0
    else
      var init, e := es[..|es| - 1], es[|es| - 1];
      var t := Run(s, init);
      if Served(t, e, l) then 0 else Strikes(s, init, l) + if Struck(t, e, l) then 1 else 0
  }

  /** Other runs of the effect, and new ones, aside. */
  ghost predicate Counts(s: State, t: State, l: nat, failures: nat) {
    |s.lives| <= |t.lives| && (l < |s.lives| ==> t.lives[l].failures == failures) &&
    (|s.lives| <= l < |t.lives| ==> t.lives[l].failures == 0)
  }

  ghost predicate SameCounts(s: State, t: State) {
    |t.lives| == |s.lives| && forall l :: 0 <= l < |s.lives| ==> t.lives[l].failures == s.lives[l].failures
  }

  lemma PollingCounts(s: State, l: nat)
    requires l < |s.lives|
    ensures SameCounts(s, SchedulePoll(s, l)) && SameCounts(s, StartPolling(s, l))
  {
    hide SchedulePoll;
    ScheduleCounts(s, l);
    ScheduleCounts(Polled(s, l), l);
  }

  lemma ScheduleCounts(s: State, l: nat)
    requires l < |s.lives|
    ensures SameCounts(s, SchedulePoll(s, l))
  {
  }

  lemma SettleCounts(s: State, after: After)
    ensures SameCounts(s, Settle(s, after))
  {
    hide SchedulePoll, StartPolling;
    if !after.Manually? && after.life < |s.lives| {
      PollingCounts(s, after.life);
    }
  }

  lemma FailedCounts(s: State, l: nat, failure: Failure, m: nat)
    requires l < |s.lives| && s.lives[l].loop == Connected && m < |s.lives|
    ensures var t := StreamFailed(s, l, failure);
            |t.lives| == |s.lives| && t.lives[m].failures == s.lives[m].failures + if Struck(s, StreamFails(l, failure), m) then 1 else 0
  {
    hide StartPolling, CountFailure, Update;
    var life := s.lives[l];
    if life.aborted || life.streamAborted || failure != Other {
      PollingCounts(SetLife(s, l, life.(loop := Over)), l);
    } else {
      UpdateShowsOnly(s, life.scope, s.shown.data.(stale := true));
      CountedOne(Update(s, life.scope, s.shown.data.(stale := true)), l, m);
    }
  }

  lemma CountedOne(s: State, l: nat, m: nat)
    requires l < |s.lives| && m < |s.lives|
    ensures var t := CountFailure(s, l);
            |t.lives| == |s.lives| && t.lives[m].failures == s.lives[m].failures + if l == m then 1 else 0
  {
    hide StartPolling;
    PollingCounts(SetLife(s, l, LoopOver(s.lives[l], s.lives[l].failures + 1)), l);
  }

  lemma RefreshCounts(s: State, scope: Scope)
    ensures SameCounts(s, React(s, Refresh(scope)))
  {
    hide StartPolling;
    if Owns(s, scope) {
      var l := s.owner.value;
      PollingCounts(SetLife(s, l, s.lives[l].(streamAborted := true, refreshed := true)), l);
    }
  }

  lemma PageCounts(s: State, e: Event)
    requires e.PageOk? || e.PageFailed?
    ensures SameCounts(s, React(s, e))
  {
    hide Settle;
    if e.load in s.loads {
      var load := s.loads[e.load];
      SettleCounts(if e.PageOk? then Arrive(Without(s, e.load), load, e.complete) else Fail(Without(s, e.load), load, e.failure), load.after);
    }
  }

  lemma EffectCounts(s: State, e: Event, l: nat)
    requires Inv(s) && (e.Render? || e.RunEffects? || e.Unmount?)
    ensures Counts(s, React(s, e), l, if l < |s.lives| then s.lives[l].failures else 0)
  {
    CleanupKeeps(s);
    hide Inv, Cleanup;
  }

  lemma TimerCounts(s: State, id: nat)
    ensures SameCounts(s, React(s, TimerFires(id)))
  {
  }

  lemma VisibilityCounts(s: State, isHidden: bool)
    ensures SameCounts(s, React(s, Visibility(isHidden)))
  {
    hide ClearTimeout;
    if s.owner.Some? && s.owner.value < |s.lives| {
      ClearsOnly(s.(hidden := isHidden), s.owner.value);
    }
  }

  lemma ClearsOnly(s: State, l: nat)
    requires l < |s.lives|
    ensures ClearTimeout(s, l) == s.(timeouts := ClearTimeout(s, l).timeouts)
  {
  }

  lemma LoopCounts(s: State, e: Event)
    requires e.StreamEnds? || e.SleepOver?
    ensures SameCounts(s, React(s, e))
  {
  }

  lemma FrameCounts(s: State, m: nat, complete: bool, l: nat)
    ensures var e := Frame(m, complete);
            var was := if l < |s.lives| then s.lives[l].failures else 0;
            Counts(s, React(s, e), l, if Served(s, e, l) then 0 else was)
  {
  }

  lemma BrokenCounts(s: State, m: nat, failure: Failure, l: nat)
    ensures var e := StreamFails(m, failure);
            var was := if l < |s.lives| then s.lives[l].failures else 0;
            Counts(s, React(s, e), l, was + if Struck(s, e, l) then 1 else 0)
  {
    hide StreamFailed;
    if m < |s.lives| && s.lives[m].loop == Connected {
      FailedCounts(s, m, failure, if l < |s.lives| then l else m);
    }
  }

  /** One event counts a failure, forgets them all, or leaves the count. */
  lemma CountStep(s: State, e: Event, l: nat)
    requires Inv(s)
    ensures var was := if l < |s.lives| then s.lives[l].failures else 0;
            Counts(s, Next(s, e), l, if Served(s, e, l) then 0 else was + if Struck(s, e, l) then 1 else 0)
  {
    hide React, Inv, Accepting;
    match e
    case PageOk(_, _) => PageCounts(s, e);
    case PageFailed(_, _) => PageCounts(s, e);
    case Refresh(scope) => RefreshCounts(s, scope);
    case StreamFails(m, failure) => BrokenCounts(s, m, failure, l);
    case Frame(m, complete) => FrameCounts(s, m, complete, l);
    case TimerFires(id) => TimerCounts(s, id);
    case Visibility(isHidden) => VisibilityCounts(s, isHidden);
    case StreamEnds(_) => LoopCounts(s, e);
    case SleepOver(_) => LoopCounts(s, e);
    case _ => EffectCounts(s, e, l);
  }

  /** The failures counted are those since the last frame. */
  lemma {:induction false} FailuresAreStrikes(es: seq<Event>, l: nat)
    ensures var t := Run(INIT, es); l < |t.lives| ==> t.lives[l].failures == Strikes(INIT, es, l)
    ensures l >= |Run(INIT, es).lives| ==> Strikes(INIT, es, l) == 0
    decreases |es|
  {
    if es != [] {
      var init, e := es[..|es| - 1], es[|es| - 1];
      var t := Run(INIT, init);
      FailuresAreStrikes(init, l);
      InitInv();
      hide Inv, Next;
      RunKeepsInv(INIT, init);
      CountStep(t, e, l);
      RunSnoc(INIT, init, e);
      assert es == init + [e];
    }
  }

  lemma {:induction false} RunSnoc(s: State, es: seq<Event>, e: Event)
    ensures Run(s, es + [e]) == Next(Run(s, es), e)
    decreases |es|
  {
    hide Next;
    if es == [] {
      assert [] + [e] == [e] && [e][1..] == [];
      assert Run(s, [e]) == Run(Next(s, e), []);
    } else {
      assert (es + [e])[1..] == es[1..] + [e];
      RunSnoc(Next(s, es[0]), es[1..], e);
    }
  }

  /** The first failure since a frame is slept over; the second one in a row makes the view poll. */
  lemma SecondStrikePolls(es: seq<Event>, e: Event, l: nat)
    requires Struck(Run(INIT, es), e, l)
    ensures var t := Next(Run(INIT, es), e);
            l < |t.lives| &&
            if Strikes(INIT, es, l) == 0 then t.lives[l].loop == Sleeping && t.lives[l].polling == Run(INIT, es).lives[l].polling
            else t.lives[l].loop == Over && t.lives[l].polling
  {
    var s := Run(INIT, es);
    FailuresAreStrikes(es, l);
    hide Run, Strikes;
    StrikeLeads(s, l);
  }

  lemma StrikeLeads(s: State, l: nat)
    requires l < |s.lives| && Accepting(s.lives[l])
    ensures var t := Next(s, StreamFails(l, Other));
            l < |t.lives| &&
            if s.lives[l].failures == 0 then t.lives[l].loop == Sleeping && t.lives[l].polling == s.lives[l].polling
            else t.lives[l].loop == Over && t.lives[l].polling
  {
    hide CountFailure, Update;
    UpdateShowsOnly(s, s.lives[l].scope, s.shown.data.(stale := true));
    CountLeads(Update(s, s.lives[l].scope, s.shown.data.(stale := true)), l);
  }

  lemma UpdateShowsOnly(s: State, scope: Scope, data: Data)
    ensures Update(s, scope, data) == s.(shown := Update(s, scope, data).shown)
  {
  }

  lemma CountLeads(s: State, l: nat)
    requires l < |s.lives| && Accepting(s.lives[l])
    ensures var t := CountFailure(s, l);
            l < |t.lives| &&
            if s.lives[l].failures == 0 then t.lives[l].loop == Sleeping && t.lives[l].polling == s.lives[l].polling
            else t.lives[l].loop == Over && t.lives[l].polling
  {
    hide StartPolling;
    StartedPolls(SetLife(s, l, LoopOver(s.lives[l], s.lives[l].failures + 1)), l);
  }

  lemma StartedPolls(s: State, l: nat)
    requires l < |s.lives| && !s.lives[l].aborted
    ensures var t := StartPolling(s, l); l < |t.lives| && t.lives[l].polling && t.lives[l].loop == s.lives[l].loop
  {
    hide SchedulePoll, Update;
    var t := SetLife(s, l, s.lives[l].(polling := true));
    UpdateShowsOnly(t, s.lives[l].scope, t.shown.data.(transport := Poll));
    ScheduleOnlyTimes(Polled(s, l), l);
  }
}
