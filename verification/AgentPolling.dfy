/** The agent view: one request at a time, a timer between requests, and a period that may change
    while a request runs. */
module AgentPolling {
  import opened Wrappers

  datatype Answer = Data | Forbidden | Failed

  datatype Event =
    | Choose(days: nat)
    | Refresh
    | Tick(timer: nat, visible: bool)
    | Reply(answer: Answer)
    | Dispose
    | Detach

  class AgentView {
    var disposed: bool
    var timer: Option<nat>
    var inFlight: bool
    var days: nat

    /** The page: timers to fire, the requests without an answer, whether the view is on the page. */
    var timers: set<nat>
    var clock: nat
    var requests: seq<nat>
    var connected: bool

    /** The period whose data is on the screen, and the one whose failed request is reported there. */
    var shown: Option<nat>
    var error: Option<nat>

    /** The period of the last request that was answered; a load was refused off the page. */
    ghost var answered: Option<nat>
    ghost var halted: bool

    /** The periods chosen since the request that runs went out. */
    ghost var since: seq<nat>

    ghost predicate Valid()
      reads this
    {
      && |requests| == (if inFlight then 1 else 0)
      && timers <= (if timer.Some? then {timer.value} else {}) && (forall t :: t in timers ==> t < clock)
      && (disposed ==> timers == {})
      && (halted ==> !connected)
      && (!disposed && !inFlight && !halted ==> timers != {} && answered == Some(days))
      && (shown.Some? && answered.None? ==> false)
      && (inFlight ==> days == if since == [] then requests[0] else since[|since| - 1])
    }

    constructor ()
      ensures Valid() && requests == [30] && days == 30 && shown.None? && error.None? && !disposed && connected
    {
      disposed, timer, inFlight, days := false, None, true, 30;
      timers, clock, requests, connected, shown, error := {}, 0, [30], true, None, None;
      answered, halted, since := None, false, [];
    }

    method ClearTimer()
      modifies `timers
      ensures timers == if timer.Some? then old(timers) - {timer.value} else old(timers)
    {
      if timer.Some? { timers := timers - {timer.value}; }
    }

    method ScheduleRefresh()
      requires timers == {}
      modifies `timer, `timers, `clock
      ensures timer == Some(old(clock)) && timers == {old(clock)} && clock == old(clock) + 1
    {
      timer, timers, clock := Some(clock), timers + {clock}, clock + 1;
    }

    /** load(): nothing while a request runs, after disposal or off the page. */
    method Load()
      requires !disposed && !inFlight && requests == [] && timers <= (if timer.Some? then {timer.value} else {})
      requires (forall t :: t in timers ==> t < clock) && (shown.Some? ==> answered.Some?) && (halted ==> !connected)
      modifies `inFlight, `requests, `halted, `since
      ensures Valid() && inFlight == connected && requests == if connected then [days] else []
      ensures connected ==> since == []
    {
      if !connected { halted := true; return; }
      inFlight, requests, since := true, requests + [days], [];
    }

    /** The period changes; it is loaded at once, or when the request that runs is answered. */
    method Choose(now: nat)
      requires Valid()
      modifies `days, `inFlight, `requests, `halted, `since
      ensures Valid() && days == now && inFlight == (old(inFlight) || (!disposed && connected))
      ensures requests == if disposed || old(inFlight) || !connected then old(requests) else [now]
    {
      days, since := now, since + [now];
      if !disposed && !inFlight { Load(); }
    }

    method Refresh()
      requires Valid()
      modifies `inFlight, `requests, `halted, `since
      ensures Valid() && requests == if disposed || old(inFlight) || !connected then old(requests) else [days]
    {
      if !disposed && !inFlight { Load(); }
    }

    /** The timer goes off; a page nobody looks at waits for the next one. */
    method Tick(t: nat, visible: bool)
      requires Valid()
      modifies `timer, `timers, `clock, `inFlight, `requests, `halted, `since
      ensures Valid() && (t !in old(timers) ==> unchanged(this))
      ensures requests == if t !in old(timers) || !visible || old(inFlight) || !connected then old(requests) else [days]
      ensures t in old(timers) && !visible ==> timers == {old(clock)}
    {
      if t !in timers { return; }
      timers := timers - {t};
      if !visible { ScheduleRefresh(); }
      else if !inFlight { Load(); }
    }

    method Dispose()
      requires Valid()
      modifies `disposed, `timers
      ensures Valid() && disposed && timers == {}
    {
      disposed := true;
      ClearTimer();
    }

    /** The end of a request: the next timer, or the next request if the period has changed. */
    method AfterReply(requested: nat)
      requires Valid() && inFlight && requests == [requested] && answered == Some(requested)
      modifies `inFlight, `requests, `halted, `timer, `timers, `clock, `since
      ensures Valid()
      ensures disposed ==> !inFlight && timers == {}
      ensures !disposed && days == requested ==> !inFlight && timers == {old(clock)}
      ensures !disposed && days != requested ==>
          timers == {} && inFlight == connected && (connected ==> requests == [days])
    {
      inFlight, requests := false, [];
      ClearTimer();
      if !disposed {
        if days != requested { Load(); } else { halted := false; ScheduleRefresh(); }
      }
    }

    /** An answer. Data is drawn only for the period still chosen, but a failure is drawn whatever was
        chosen meanwhile: an answer for a superseded period reaches the screen exactly if its request
        failed, the view was not disposed, and the last period chosen while it ran is another. Being
        refused also clears the view and ends it. */
    method Reply(answer: Answer) returns (drawn: bool)
      requires Valid()
      modifies this
      ensures Valid() && days == old(days) && connected == old(connected)
      ensures !old(inFlight) ==> unchanged(this)
      ensures drawn <==> old(inFlight) && !old(disposed) && (answer.Data? ==> days == old(requests)[0])
      ensures drawn && days != old(requests)[0] <==>
          !answer.Data? && old(inFlight) && !old(disposed)
          && old(since) != [] && old(since)[|old(since)| - 1] != old(requests)[0]
      ensures drawn ==> error == if answer.Data? then None else Some(old(requests)[0])
      ensures !drawn ==> error == old(error)
      ensures shown == if old(inFlight) && answer.Forbidden? then None
                       else if drawn && answer.Data? then Some(days) else old(shown)
      ensures old(inFlight) && !old(disposed) && !answer.Forbidden? && days != old(requests)[0] && connected ==>
          requests == [days]
      ensures disposed == (old(disposed) || (old(inFlight) && answer.Forbidden?))
    {
      drawn := false;
      if !inFlight { return; }
      var requested := requests[0];
      answered := Some(requested);
      if answer.Data? {
        if !disposed && days == requested { drawn, shown, error := true, Some(requested), None; }
      } else {
        if !disposed { drawn, error := true, Some(requested); }
        if answer.Forbidden? {
          shown := None;
          Dispose();
        }
      }
      AfterReply(requested);
    }

    method Take(event: Event)
      requires Valid()
      modifies this
      ensures Valid() && (shown != old(shown) ==> shown.None? || shown == Some(days))
    {
      match event
      case Choose(now) => Choose(now);
      case Refresh => Refresh();
      case Tick(t, visible) => Tick(t, visible);
      case Reply(answer) => var _ := Reply(answer);
      case Dispose => Dispose();
      case Detach => connected := false;
    }

    /** Whatever the order of replies, timers, changes and disposal: at most one request and one
        timer, and a view that is still polling has asked for the period it shows as chosen. */
    method Run(events: seq<Event>)
      requires Valid()
      modifies this
      ensures Valid() && |requests| <= 1 && |timers| <= 1
      ensures !disposed && connected && !inFlight ==> answered == Some(days) && timers != {}
    {
      for i := 0 to |events|
        invariant Valid()
      {
        Take(events[i]);
      }
      assert timer.Some? ==> |{timer.value}| == 1;
      AtMostOne(timers, timer);
    }
  }

  /** The failure of a superseded period on the screen while the chosen one is being asked for. */
  method StaleError() returns (view: AgentView)
    ensures view.Valid() && view.days == 7 && view.error == Some(30) && view.requests == [7] && !view.disposed
  {
    view := new AgentView();
    view.Choose(7);
    var drawn := view.Reply(Failed);
  }

  lemma AtMostOne(timers: set<nat>, timer: Option<nat>)
    requires timers <= (if timer.Some? then {timer.value} else {})
    ensures |timers| <= 1
  {
    if timers != {} { assert timers == {timer.value}; }
  }
}
