/** The per-goal timer (components/GoalTimer.js): a start/pause button, a
    one-second interval that counts seconds while the timer runs, the report
    of every new count to the goal list, and the hours/minutes display. */
module GoalTimer {
  import opened App

  /** The hours and whole minutes shown under a goal. */
  datatype Clock = Clock(hours: nat, minutes: nat)

  /** The display of a count of seconds: whole hours, then the whole minutes
      of the remainder. Seconds below a minute are not shown. */
  function Display(t: nat): (c: Clock)
    ensures c.minutes < 60
    ensures c.hours * 3600 + c.minutes * 60 <= t < c.hours * 3600 + c.minutes * 60 + 60
  {
    Clock(t / 3600, (t % 3600) / 60)
  }

  /** The two bounds of Display determine the displayed value: no other
      hours/minutes pair with minutes below 60 brackets `t` the same way. */
  lemma DisplayUnique(t: nat, c: Clock)
    requires c.minutes < 60
    requires c.hours * 3600 + c.minutes * 60 <= t < c.hours * 3600 + c.minutes * 60 + 60
    ensures c == Display(t)
  {
    var r := t - c.hours * 3600;
    assert 0 <= r < 3600 && t == c.hours * 3600 + r;
  }

  /** What can happen to a mounted timer: the button is pressed, the interval
      fires, or the component leaves the screen. */
  datatype Event = Press | Tick | Unmount

  /** The timer's state: `running` and `spent` are the component's two state
      variables, `mounted` whether it is still on the screen. */
  datatype TimerState = TimerState(running: bool, spent: nat, mounted: bool)

  /** A timer as first rendered for a goal: paused, showing the goal's time. */
  function Mounted(g: Goal): TimerState {
    TimerState(false, g.timeSpent, true)
  }

  /** An interval is registered exactly while the timer runs on screen: it is
      set when running becomes true and cleared when running changes again or
      the component unmounts. */
  predicate IntervalActive(s: TimerState) {
    s.running && s.mounted
  }

  /** The button only exists on a mounted timer, and the interval only fires
      while it is registered. */
  predicate Enabled(s: TimerState, e: Event) {
    match e
    case Press => s.mounted
    case Tick => IntervalActive(s)
    case Unmount => s.mounted
  }

  /** One event: a press flips running, a firing adds one second, unmounting
      takes the timer off the screen. Each event changes exactly its own part
      of the state. */
  function Step(s: TimerState, e: Event): (r: TimerState)
    requires Enabled(s, e)
    ensures r.running != s.running <==> e == Press
    ensures r.spent == s.spent + (if e == Tick then 1 else 0)
    ensures r.mounted <==> s.mounted && e != Unmount
  {
    match e
    case Press => s.(running := !s.running)
    case Tick => s.(spent := s.spent + 1)
    case Unmount => s.(mounted := false)
  }

  /** A sequence of events each of which can happen in the state the earlier
      ones led to. */
  predicate ValidTrace(s: TimerState, evs: seq<Event>)
    decreases |evs|
  {
    evs == [] || (Enabled(s, evs[0]) && ValidTrace(Step(s, evs[0]), evs[1..]))
  }

  function Run(s: TimerState, evs: seq<Event>): TimerState
    requires ValidTrace(s, evs)
    decreases |evs|
  {
    if evs == [] then s else Run(Step(s, evs[0]), evs[1..])
  }

  function TickCount(evs: seq<Event>): nat
    decreases |evs|
  {
    if evs == [] then 0
    else (if evs[0] == Tick then 1 else 0) + TickCount(evs[1..])
  }

  /** The counter only ever grows, by exactly one per interval firing, however
      the firings are interleaved with pauses and resumes. */
  lemma {:induction false} RunSpent(s: TimerState, evs: seq<Event>)
    requires ValidTrace(s, evs)
    ensures Run(s, evs).spent == s.spent + TickCount(evs)
    ensures Run(s, evs).spent >= s.spent
    decreases |evs|
  {
    if evs != [] {
      RunSpent(Step(s, evs[0]), evs[1..]);
    }
  }

  /** Once the component has unmounted nothing fires any more: the counter
      and the running flag stay as they were. */
  lemma {:induction false} NoTicksAfterUnmount(s: TimerState, evs: seq<Event>)
    requires !s.mounted && ValidTrace(s, evs)
    ensures evs == [] && Run(s, evs) == s
  {
  }

  /** Pressing the button never changes the counter: a run of presses alone
      leaves `spent` as it was and ends running iff the number of presses is
      odd (when the timer started paused). */
  lemma {:induction false} PressesOnly(s: TimerState, n: nat)
    requires s.mounted
    ensures ValidTrace(s, seq(n, _ => Press))
    ensures Run(s, seq(n, _ => Press)) == s.(running := if n % 2 == 0 then s.running else !s.running)
    decreases n
  {
    if n > 0 {
      var evs := seq(n, _ => Press);
      assert evs[1..] == seq(n - 1, _ => Press);
      PressesOnly(Step(s, Press), n - 1);
    }
  }

  /** One timer component on screen. `goalId` and `parent` are what it was
      rendered with: the goal's id and the App screen whose updateGoalTime is
      its onTimeUpdate callback. `interval` says whether an interval is
      registered. */
  class Timer {
    const goalId: string
    const parent: Screen
    var timerRunning: bool
    var timeSpent: nat
    var mounted: bool
    var interval: bool

    ghost predicate Valid()
      reads this
    {
      interval == IntervalActive(State())
    }

    function State(): TimerState
      reads this
    {
      TimerState(timerRunning, timeSpent, mounted)
    }

    /** The parent's list holds this goal, and its record carries the
      timer's count. */
    ghost predicate Synced()
      reads this, parent
    {
      HasId(parent.goals, goalId) && SyncedIn(parent.goals, goalId, timeSpent)
    }

    /** Mounting for `goal`: paused, counting from the goal's time, and the
      first report of that count to the parent. */
    constructor (goal: Goal, parent: Screen)
      requires HasId(parent.goals, goal.id)
      modifies parent
      ensures goalId == goal.id && this.parent == parent
      ensures Valid() && State() == Mounted(goal) && !interval
      ensures parent.goals == WithTimeSpent(old(parent.goals), goal.id, goal.timeSpent)
      ensures parent.activity == old(parent.activity) && parent.targetTime == old(parent.targetTime)
      ensures parent.startDate == old(parent.startDate) && parent.endDate == old(parent.endDate)
      ensures Synced()
    {
      goalId := goal.id;
      this.parent := parent;
      timerRunning := false;
      timeSpent := goal.timeSpent;
      mounted := true;
      interval := false;
      new;
      UpdatePreserves(parent.goals, goalId, timeSpent);
      UpdateKeepsIds(parent.goals, goalId, timeSpent, goalId);
      parent.UpdateGoalTime(goalId, timeSpent);
    }

    /** The start/pause button: running flips, the old interval is cleared and
      a new one registered when the timer now runs. The count is not touched,
      so nothing is reported. */
    method Press()
      requires Valid() && mounted
      modifies this
      ensures Valid() && State() == Step(old(State()), Event.Press)
      ensures timerRunning == !old(timerRunning) && timeSpent == old(timeSpent)
      ensures interval == timerRunning
      ensures Synced() == old(Synced())
    {
      interval := false;
      timerRunning := !timerRunning;
      if timerRunning {
        interval := true;
      }
    }

    /** One firing of the registered interval: the count grows by one and the
      new count is reported to the parent. */
    method Tick()
      requires Valid() && interval
      modifies this, parent
      ensures Valid() && State() == Step(old(State()), Event.Tick)
      ensures timeSpent == old(timeSpent) + 1 && interval
      ensures parent.goals == WithTimeSpent(old(parent.goals), goalId, timeSpent)
      ensures parent.activity == old(parent.activity) && parent.targetTime == old(parent.targetTime)
      ensures parent.startDate == old(parent.startDate) && parent.endDate == old(parent.endDate)
      ensures SyncedIn(parent.goals, goalId, timeSpent)
      ensures Synced() <==> old(HasId(parent.goals, goalId))
    {
      timeSpent := timeSpent + 1;
      UpdatePreserves(parent.goals, goalId, timeSpent);
      if HasId(parent.goals, goalId) {
        UpdateKeepsIds(parent.goals, goalId, timeSpent, goalId);
      }
      parent.UpdateGoalTime(goalId, timeSpent);
    }

    /** Leaving the screen: the cleanup clears the interval, so no firing can
      follow. */
    method Unmount()
      requires Valid() && mounted
      modifies this
      ensures Valid() && State() == Step(old(State()), Event.Unmount)
      ensures !interval && timeSpent == old(timeSpent)
      ensures Synced() == old(Synced())
    {
      interval := false;
      mounted := false;
    }
  }

  /** A screen with one goal and its timer: the record in the list follows
      the timer through a start, three firings, a pause and a resume. */
  method Session(today: string, id: string)
  {
    var screen := new Screen(today);
    screen.SetActivity("Reading");
    screen.SetTargetTime("2");
    var outcome := screen.AddGoal(id, today);
    assert outcome == Added;
    var goal := screen.goals[0];
    assert goal.id == id && goal.timeSpent == 0;
    assert HasId(screen.goals, id);
    var timer := new Timer(goal, screen);
    timer.Press();
    timer.Tick();
    timer.Tick();
    timer.Tick();
    timer.Press();
    assert timer.timeSpent == 3 && !timer.interval;
    timer.Press();
    timer.Tick();
    assert timer.Synced() && timer.timeSpent == 4;
  }

  /** The list renders one timer per goal, all reporting to the same screen.
      A firing of one timer keeps every other timer of the screen, for
      another goal id, in step with the list. */
  method TickKeepsOthersSynced(ticking: Timer, other: Timer)
    requires ticking != other && ticking.parent == other.parent
    requires ticking.goalId != other.goalId
    requires ticking.Valid() && ticking.interval
    requires HasId(ticking.parent.goals, ticking.goalId) && other.Synced()
    modifies ticking, ticking.parent
    ensures ticking.Synced() && other.Synced()
  {
    UpdateKeepsIds(ticking.parent.goals, ticking.goalId, ticking.timeSpent + 1, other.goalId);
    OtherUpdateKeepsSync(ticking.parent.goals, other.goalId, other.timeSpent,
                         ticking.goalId, ticking.timeSpent + 1);
    ticking.Tick();
  }

  /** Adding a goal with a new id keeps an existing timer in step with the
      list. */
  method AddGoalKeepsSynced(timer: Timer, id: string, today: string)
    returns (outcome: AddOutcome)
    requires id != timer.goalId && timer.Synced()
    modifies timer.parent
    ensures timer.Synced()
  {
    var screen := timer.parent;
    var before := screen.goals;
    outcome := screen.AddGoal(id, today);
    if outcome == Added {
      AppendKeepsSync(before, timer.goalId, timer.timeSpent, screen.goals[|screen.goals| - 1]);
      AppendKeepsIds(before, screen.goals[|screen.goals| - 1], timer.goalId);
    }
  }
}
