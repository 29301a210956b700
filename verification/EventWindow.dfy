/** The event window: while userspace reports a call, music and the like, and for a while after the
    last such event ends, charging follows the event temperature thresholds. */
module EventWindow {
  import opened Common

  datatype EventState = Clear | Set | InTimer

  /** Event bits that are set, the state of the window, and when the alarm will go off. */
  datatype Window = Window(types: set<nat>, state: EventState, alarm: Option<nat>)

  /** A store to one of the event files - with the number it holds, if it holds one - or the alarm. */
  datatype Event = Store(bit: nat, number: Option<int>) | Alarm

  datatype Timed = Timed(time: nat, event: Event)

  // ----- the specification -----

  function StoreTypes(types: set<nat>, bit: nat, number: Option<int>): set<nat> {
    if number == Some(1) then types + {bit}
    else if number == Some(0) then types - {bit}
    else types
  }

  /** battery_event_control: the window opens with the first event, and the timer starts when the
      last event ends. */
  function Control(w: Window, now: nat, period: nat): Window {
    if w.types != {} then w.(state := Set, alarm := if w.state == InTimer then None else w.alarm)
    else if w.state == Set then w.(state := InTimer, alarm := Some(now + period))
    else w
  }

  function Step(w: Window, e: Timed, period: nat): Window {
    match e.event
    case Store(bit, number) => Control(w.(types := StoreTypes(w.types, bit, number)), e.time, period)
    case Alarm => w.(state := Clear, alarm := None)
  }

  /** The alarm goes off only when it is armed and due. */
  predicate CanHappen(w: Window, e: Timed) {
    e.event.Alarm? ==> w.alarm.Some? && w.alarm.value <= e.time
  }

  const START := Window({}, Clear, None)

  function After(h: seq<Timed>, period: nat): Window {
    if h == [] then START else Step(After(h[..|h| - 1], period), h[|h| - 1], period)
  }

  predicate Possible(h: seq<Timed>, period: nat) {
    h == [] ||
    (var init, last := h[..|h| - 1], h[|h| - 1];
     Possible(init, period) && CanHappen(After(init, period), last)
     && (init != [] ==> init[|init| - 1].time <= last.time))
  }

  // ----- what happened, read off the history alone -----

  function Active(h: seq<Timed>): set<nat> {
    if h == [] then {}
    else
      var last := h[|h| - 1];
      if last.event.Store? then StoreTypes(Active(h[..|h| - 1]), last.event.bit, last.event.number)
      else Active(h[..|h| - 1])
  }

  /** An event is active exactly if some store of 1 set its bit and no store of 0 cleared it since; what
      other numbers, unreadable text or other bits were stored does not matter. */
  lemma {:induction false} ActiveIff(h: seq<Timed>, bit: nat)
    ensures bit in Active(h) <==>
      exists i :: 0 <= i < |h| && h[i].event == Store(bit, Some(1))
        && forall j | i < j < |h| :: h[j].event != Store(bit, Some(0))
  {
    if h != [] {
      var init, last := h[..|h| - 1], h[|h| - 1];
      ActiveIff(init, bit);
      if bit in Active(h) {
        if last.event == Store(bit, Some(1)) {
          assert h[|h| - 1].event == Store(bit, Some(1));
        } else {
          var i :| 0 <= i < |init| && init[i].event == Store(bit, Some(1))
            && forall j | i < j < |init| :: init[j].event != Store(bit, Some(0));
          assert h[i].event == Store(bit, Some(1));
        }
      }
      if i :| 0 <= i < |h| && h[i].event == Store(bit, Some(1))
              && forall j | i < j < |h| :: h[j].event != Store(bit, Some(0))
      {
        if i < |init| {
          assert init[i].event == Store(bit, Some(1));
          assert forall j | i < j < |init| :: init[j] == h[j];
        }
      }
    }
  }

  /** When the last event ended most recently. */
  function LastEnd(h: seq<Timed>): Option<nat> {
    if h == [] then None
    else if Active(h[..|h| - 1]) != {} && Active(h) == {} then Some(h[|h| - 1].time)
    else LastEnd(h[..|h| - 1])
  }

  predicate NotBefore(now: nat, h: seq<Timed>) {
    h != [] ==> h[|h| - 1].time <= now
  }

  // ----- the invariant, and the promise -----

  predicate WindowOk(w: Window) {
    && (w.types != {} <==> w.state == Set)
    && (w.state == InTimer <==> w.alarm.Some?)
  }

  lemma {:induction false} WindowStaysOk(h: seq<Timed>, period: nat)
    requires Possible(h, period)
    ensures WindowOk(After(h, period)) && After(h, period).types == Active(h)
  {
    if h != [] {
      WindowStaysOk(h[..|h| - 1], period);
    }
  }

  lemma {:induction false} ClearOnlyAfterPeriod(h: seq<Timed>, period: nat)
    requires Possible(h, period)
    ensures var w := After(h, period);
      && (w.state == InTimer ==> LastEnd(h).Some? && w.alarm == Some(LastEnd(h).value + period))
      && (w.state == Clear && LastEnd(h).Some? ==> h != [] && LastEnd(h).value + period <= h[|h| - 1].time)
  {
    if h != [] {
      var init := h[..|h| - 1];
      WindowStaysOk(init, period);
      WindowStaysOk(h, period);
      ClearOnlyAfterPeriod(init, period);
    }
  }

  /** For any interleaving of stores and alarms: the window is open while any event is active, and
      after that for at least the whole period; it is open only if some event was ever active. */
  lemma WindowCoversEventsAndPeriod(h: seq<Timed>, period: nat, now: nat)
    requires Possible(h, period) && NotBefore(now, h)
    ensures Active(h) != {} ==> After(h, period).state == Set
    ensures LastEnd(h).Some? && now < LastEnd(h).value + period ==> After(h, period).state != Clear
    ensures After(h, period).state != Clear ==> Active(h) != {} || LastEnd(h).Some?
  {
    WindowStaysOk(h, period);
    ClearOnlyAfterPeriod(h, period);
  }

  // ----- the driver -----

  class BatteryEvents {
    const eventTime: nat
    var eventType: set<nat>
    var eventState: EventState
    var eventAlarm: Option<nat>

    ghost function View(): Window
      reads this
    {
      Window(eventType, eventState, eventAlarm)
    }

    constructor (eventTime: nat)
      ensures View() == START && this.eventTime == eventTime
    {
      this.eventTime := eventTime;
      eventType, eventState, eventAlarm := {}, Clear, None;
    }

    method EventControl(now: nat)
      modifies this
      ensures View() == Control(old(View()), now, eventTime)
    {
      if eventType != {} {
        if eventState == Set {
        } else if eventState == InTimer {
          eventAlarm := None;
          eventState := Set;
        } else {
          eventState := Set;
        }
      } else {
        if eventState == Set {
          eventAlarm := Some(now + eventTime);
          eventState := InTimer;
        }
      }
    }

    /** ctia_store_property: any store runs the control step, even one it cannot parse. */
    method CtiaStore(bit: nat, number: Option<int>, now: nat)
      modifies this
      ensures View() == Step(old(View()), Timed(now, Store(bit, number)), eventTime)
    {
      if number.Some? {
        if number.value == 1 {
          eventType := eventType + {bit};
        } else if number.value == 0 {
          eventType := eventType - {bit};
        }
      }
      EventControl(now);
    }

    /** The alarm has gone off and is no longer armed. */
    method EventAlarm(now: nat)
      requires CanHappen(View(), Timed(now, Alarm))
      modifies this
      ensures View() == Step(old(View()), Timed(now, Alarm), eventTime)
    {
      eventAlarm := None;
      eventState := Clear;
    }
  }
}
