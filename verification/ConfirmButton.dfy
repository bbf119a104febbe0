/** The two-step confirm button: a first click arms it, a second one confirms, and an arm lapses
    by a timer, by losing focus or by Escape. */
module ConfirmButton {
  import opened Wrappers

  datatype State = Idle | Armed | Busy

  /** What the live region says, as far as this button is concerned. */
  datatype Message = Blank | Prompt | NotConfirmed | Other

  /** What happened to the arm, in order. */
  datatype Mark = Arm | Lapse | Quit | Confirm(run: nat)

  datatype Event =
    | Click | Blur | Escape
    | Fire(timer: nat)
    | Disarm(run: nat)
    | FailRun(run: nat)
    | EndRun(run: nat)
    | Frame
    | Announce
    | Remove

  /** Every confirmation comes right after an arming click: nothing ended that arm in between, and
      no arm is confirmed twice. */
  predicate Deliberate(marks: seq<Mark>) {
    forall n :: 0 <= n < |marks| && marks[n].Confirm? ==> n > 0 && marks[n - 1] == Arm
  }

  predicate RunsOnce(marks: seq<Mark>, runs: nat) {
    && (forall n :: 0 <= n < |marks| && marks[n].Confirm? ==> marks[n].run < runs)
    && (forall m, n :: 0 <= m < n < |marks| && marks[m].Confirm? && marks[n].Confirm? ==> marks[m].run < marks[n].run)
  }

  /** What decides which calls run: everything but the labels and the live region. */
  datatype Moment = Moment(state: State, timer: Option<nat>, clock: nat, runs: nat, running: set<nat>)

  /** The moment after an event. */
  function Next(m: Moment, event: Event): Moment {
    match event
    case Click =>
      (match m.state
       case Busy => m
       case Idle => m.(state := Armed, timer := Some(m.clock), clock := m.clock + 1)
       case Armed => m.(state := Busy, timer := None, runs := m.runs + 1, running := m.running + {m.runs}))
    case Blur => Lapsed(m)
    case Escape => Lapsed(m)
    case Fire(timer) => if m.timer == Some(timer) then Lapsed(m) else m
    case Disarm(run) => if run < m.runs then Disarmed(m) else m
    case FailRun(run) => if run in m.running then Disarmed(m).(running := m.running - {run}) else m
    case EndRun(run) =>
      if run in m.running then m.(running := m.running - {run}, state := if m.state.Busy? then Idle else m.state) else m
    case _ => m
  }

  function Disarmed(m: Moment): Moment {
    m.(state := Idle, timer := None)
  }

  function Lapsed(m: Moment): Moment {
    if m.state.Armed? then Disarmed(m) else m
  }

  /** The moment after the first `n` events. */
  function At(m: Moment, events: seq<Event>, n: nat): Moment
    requires n <= |events|
  {
    if n == 0 then m else Next(At(m, events, n - 1), events[n - 1])
  }

  /** The button is busy exactly while a call runs, and no two run. */
  predicate OneCall(m: Moment) {
    (m.state.Busy? <==> m.running != {}) && forall r, s :: r in m.running && s in m.running ==> r == s
  }

  /** A disarm() that takes effect while a call is running. */
  predicate Cuts(m: Moment, event: Event) {
    event.Disarm? && event.run < m.runs && m.running != {}
  }

  ghost predicate AlwaysOneCall(m: Moment, events: seq<Event>) {
    forall n :: 0 <= n <= |events| ==> OneCall(At(m, events, n))
  }

  ghost predicate NeverCut(m: Moment, events: seq<Event>) {
    forall n :: 0 <= n < |events| ==> !Cuts(At(m, events, n), events[n])
  }

  /** One event breaks the rule exactly if it is such a disarm(). */
  lemma OneCallStep(m: Moment, event: Event)
    requires OneCall(m)
    ensures OneCall(Next(m, event)) <==> !Cuts(m, event)
  {
  }

  lemma {:induction false} OneCallUpTo(m: Moment, events: seq<Event>, n: nat)
    requires OneCall(m) && NeverCut(m, events) && n <= |events|
    ensures OneCall(At(m, events, n))
  {
    if n > 0 {
      OneCallUpTo(m, events, n - 1);
      OneCallStep(At(m, events, n - 1), events[n - 1]);
    }
  }

  /** After every event the button is busy exactly while a call runs, and one runs at a time,
      exactly if no disarm() takes effect while a call is running. */
  lemma OneCallExactly(m: Moment, events: seq<Event>)
    requires OneCall(m)
    ensures AlwaysOneCall(m, events) <==> NeverCut(m, events)
  {
    if NeverCut(m, events) {
      forall n | 0 <= n <= |events| ensures OneCall(At(m, events, n)) { OneCallUpTo(m, events, n); }
    }
    if AlwaysOneCall(m, events) {
      forall n | 0 <= n < |events| ensures !Cuts(At(m, events, n), events[n]) {
        OneCallStep(At(m, events, n), events[n]);
        assert At(m, events, n + 1) == Next(At(m, events, n), events[n]);
      }
    }
  }

  class ConfirmButton {
    const idleLabel: string
    const armedLabel: string

    var state: State
    var armTimer: Option<nat>

    var text: string
    var dataArmed: bool
    var ariaBusy: bool

    /** The page around the button: timers to fire, the live region, what the next frame writes. */
    var timers: set<nat>
    var clock: nat
    var live: Message
    var queue: seq<Message>
    var connected: bool

    /** The calls of onConfirm so far, and those not settled yet. */
    var runs: nat
    var running: set<nat>

    ghost var marks: seq<Mark>

    function Now(): Moment
      reads this
    {
      Moment(state, armTimer, clock, runs, running)
    }

    ghost predicate Shows()
      reads this
    {
      && text == (if state.Armed? then armedLabel else idleLabel) && dataArmed == state.Armed?
          && ariaBusy == state.Busy?
    }

    ghost predicate TimerFits()
      reads this
    {
      && armTimer.Some? == state.Armed?
      && timers == (if armTimer.Some? then {armTimer.value} else {})
      && forall t :: t in timers ==> t < clock
    }

    ghost predicate MarksFit()
      reads this
    {
      && Deliberate(marks) && RunsOnce(marks, runs)
      && (state.Armed? <==> marks != [] && marks[|marks| - 1] == Arm)
    }

    ghost predicate RunsFit()
      reads this
    {
      && (forall r :: r in running ==> r < runs)
      && (state.Busy? ==> running != {})
    }

    ghost predicate Valid()
      reads this
    {
      Shows() && TimerFits() && MarksFit() && RunsFit()
    }

    /** What the live region says once the next frame is drawn. */
    function Said(): Message
      reads this
    {
      if queue == [] then live else queue[|queue| - 1]
    }

    /** The prompt still invites although there is nothing to confirm. */
    predicate Lingers()
      reads this
    {
      !state.Armed? && Said() == Prompt
    }

    constructor (idleLabel: string, armedLabel: string)
      ensures Valid() && state == Idle && !Lingers() && OneCall(Now()) && marks == [] && runs == 0 && running == {}
    {
      this.idleLabel, this.armedLabel := idleLabel, armedLabel;
      state, armTimer, text, dataArmed, ariaBusy := Idle, None, idleLabel, false, false;
      timers, clock, live, queue, connected := {}, 0, Blank, [], true;
      runs, running, marks := 0, {}, [];
    }

    method Show(next: State)
      modifies `state, `text, `dataArmed, `ariaBusy
      ensures state == next && Shows()
    {
      state := next;
      text := if next.Armed? then armedLabel else idleLabel;
      dataArmed := next.Armed?;
      ariaBusy := next.Busy?;
    }

    method Say(m: Message)
      modifies `live, `queue
      ensures Said() == m && live == Blank && queue == old(queue) + [m]
    {
      live, queue := Blank, queue + [m];
    }

    method ClearTimer()
      modifies `armTimer, `timers
      ensures armTimer.None?
      ensures timers == if old(armTimer).Some? then old(timers) - {old(armTimer).value} else old(timers)
    {
      if armTimer.Some? { timers := timers - {armTimer.value}; }
      armTimer := None;
    }

    /** disarm(): quiet, whatever the state. */
    method DisarmNow(mark: Mark)
      requires Shows() && TimerFits() && MarksFit() && !mark.Confirm? && mark != Arm
      modifies `state, `text, `dataArmed, `ariaBusy, `armTimer, `timers, `marks
      ensures Shows() && TimerFits() && MarksFit()
      ensures state == Idle && timers == {}
      ensures marks == old(marks) + [mark]
    {
      ClearTimer();
      Show(Idle);
      marks := marks + [mark];
    }

    /** lapse(): only an armed button lapses, and it says so if it is still on the page. */
    method LapseNow()
      requires Valid()
      modifies `state, `text, `dataArmed, `ariaBusy, `armTimer, `timers, `marks, `live, `queue
      ensures Valid() && Now() == Lapsed(old(Now()))
      ensures !old(state).Armed? ==> unchanged(this)
      ensures old(state).Armed? ==> state == Idle && marks == old(marks) + [Lapse]
      ensures old(state).Armed? && connected ==> Said() == NotConfirmed
      ensures old(state).Armed? && !connected ==> Said() == old(Said())
    {
      if !state.Armed? { return; }
      DisarmNow(Lapse);
      if connected { Say(NotConfirmed); }
    }

    method ClickToArm()
      requires Valid() && state.Idle?
      modifies `state, `text, `dataArmed, `ariaBusy, `armTimer, `timers, `clock, `marks, `live, `queue
      ensures Valid() && state == Armed && marks == old(marks) + [Arm] && timers == {old(clock)} && Said() == Prompt
      ensures Now() == Next(old(Now()), Event.Click)
    {
      Show(Armed);
      Say(Prompt);
      timers, armTimer, clock := timers + {clock}, Some(clock), clock + 1;
      marks := marks + [Arm];
    }

    /** The answer: the timer is stopped, the prompt taken away, onConfirm called. */
    method ClickToConfirm()
      requires Valid() && state.Armed?
      modifies `state, `text, `dataArmed, `ariaBusy, `armTimer, `timers, `marks, `live, `runs, `running
      ensures Valid() && state == Busy && timers == {} && Now() == Next(old(Now()), Event.Click)
      ensures marks == old(marks) + [Confirm(old(runs))] && runs == old(runs) + 1
          && running == old(running) + {old(runs)}
      ensures Said() == Prompt <==> old(queue) != [] && old(Said()) == Prompt
    {
      ClearTimer();
      Show(Busy);
      if live == Prompt { live := Blank; }
      marks := marks + [Confirm(runs)];
      running, runs := running + {runs}, runs + 1;
    }

    method Click()
      requires Valid()
      modifies this
      ensures Valid() && Now() == Next(old(Now()), Event.Click)
      ensures old(state).Busy? ==> unchanged(this)
      ensures old(state).Idle? ==> state == Armed && marks == old(marks) + [Arm]
      ensures old(state).Armed? ==> state == Busy && marks == old(marks) + [Confirm(old(runs))]
      ensures Lingers() && !old(Lingers()) ==> old(queue) != []
    {
      match state
      case Busy => return;
      case Idle => ClickToArm();
      case Armed => ClickToConfirm();
    }

    /** onConfirm calls disarm(): at any time, even after it ended. */
    method Disarm(run: nat)
      requires Valid()
      modifies this
      ensures Valid() && Said() == old(Said()) && Now() == Next(old(Now()), Event.Disarm(run))
      ensures run >= old(runs) ==> unchanged(this)
      ensures run < old(runs) ==> state == Idle && marks == old(marks) + [Quit]
      ensures running == old(running) && runs == old(runs)
    {
      if run >= runs { return; }
      DisarmNow(Quit);
    }

    /** finally: a button still busy goes back to idle. */
    method EndRun(run: nat)
      requires Valid()
      modifies `state, `text, `dataArmed, `ariaBusy, `running
      ensures Valid() && running == old(running) - {run} && Now() == Next(old(Now()), Event.EndRun(run))
      ensures state == if run in old(running) && old(state).Busy? then Idle else old(state)
    {
      if run !in running { return; }
      running := running - {run};
      if state.Busy? { Show(Idle); }
    }

    /** The way onConfirm reports a failure: disarm() and nothing after it. */
    method FailRun(run: nat)
      requires Valid()
      modifies this
      ensures Valid() && Said() == old(Said()) && Now() == Next(old(Now()), Event.FailRun(run))
      ensures run in old(running) && old(OneCall(Now())) ==> state == Idle && running == {}
      ensures Lingers() && !old(Lingers()) ==> !old(OneCall(Now()))
    {
      if run !in running { return; }
      DisarmNow(Quit);
      running := running - {run};
    }

    /** The timer goes off: it can only be the one of the arm that stands. */
    method Fire(timer: nat)
      requires Valid()
      modifies this
      ensures Valid() && connected == old(connected) && Now() == Next(old(Now()), Event.Fire(timer))
      ensures timer !in old(timers) ==> unchanged(this)
      ensures timer in old(timers) ==> old(state).Armed? && state == Idle && marks == old(marks) + [Lapse]
      ensures Lingers() && !old(Lingers()) ==> !connected
    {
      if timer !in timers { return; }
      LapseNow();
    }

    method Escape() returns (consumed: bool)
      requires Valid()
      modifies this
      ensures Valid() && consumed == old(state).Armed? && (!consumed ==> unchanged(this))
      ensures Now() == Next(old(Now()), Event.Escape)
      ensures consumed ==> state == Idle && marks == old(marks) + [Lapse]
      ensures connected == old(connected) && (Lingers() && !old(Lingers()) ==> !connected)
    {
      consumed := state.Armed?;
      if consumed { LapseNow(); }
    }

    /** The next frame writes what was announced. */
    method Frame()
      requires Valid()
      modifies `live, `queue
      ensures Valid() && Said() == old(Said()) && queue == []
    {
      if queue != [] { live, queue := queue[|queue| - 1], []; }
    }

    /** Any event. A prompt outlives its arm only if it was answered before the frame that shows
        it, if the button had left the page, or if a call of onConfirm disarmed a later arm. */
    method Take(event: Event)
      requires Valid()
      modifies this
      ensures Valid() && Now() == Next(old(Now()), event)
      ensures Lingers() && !old(Lingers()) ==>
                (event.Click? && old(queue) != []) || !connected || event.Disarm?
                    || (event.FailRun? && !old(OneCall(Now())))
    {
      match event
      case Click => Click();
      case Blur => LapseNow();
      case Escape => var _ := Escape();
      case Fire(timer) => Fire(timer);
      case Disarm(run) => Disarm(run);
      case FailRun(run) => FailRun(run);
      case EndRun(run) => EndRun(run);
      case Frame => Frame();
      case Announce => Say(Other);
      case Remove => connected := false;
    }
  }

  /** Over any events: every confirmation is deliberate and a timer is pending exactly while armed.
      The button is at every moment where the events so far lead, so by OneCallExactly it is busy
      exactly while its one call runs, exactly if no disarm() cuts a running call short. */
  method Run(button: ConfirmButton, events: seq<Event>)
    requires button.Valid() && OneCall(button.Now())
    modifies button
    ensures button.Valid() && Deliberate(button.marks) && RunsOnce(button.marks, button.runs)
    ensures (button.timers != {}) == button.state.Armed?
    ensures button.Now() == At(old(button.Now()), events, |events|)
    ensures AlwaysOneCall(old(button.Now()), events) <==> NeverCut(old(button.Now()), events)
  {
    for i := 0 to |events|
      invariant button.Valid() && button.Now() == At(old(button.Now()), events, i)
    {
      button.Take(events[i]);
    }
    OneCallExactly(old(button.Now()), events);
  }

  method EarlyDisarm() returns (button: ConfirmButton)
    ensures fresh(button) && button.Valid() && button.state == Idle && button.running == {0} && button.runs == 1
  {
    button := new ConfirmButton("Replace links", "Replace selected links?");
    button.ClickToArm();
    button.ClickToConfirm();
    button.Disarm(0);
  }

  /** The bulk actions on invitations disarm and then wait for the list: meanwhile a second call can
      start, and the end of the first makes the button idle while the second runs. */
  method TwoAtOnce() returns (button: ConfirmButton)
    ensures button.Valid() && button.running == {1} && button.state == Idle && !OneCall(button.Now())
  {
    button := EarlyDisarm();
    button.ClickToArm();
    button.ClickToConfirm();
    button.EndRun(0);
  }
}
