/** The payment timer (src/utils/payment-timer.ts): at most one unnamed timer
    in `activeTimer` and any number of named ones in `timers`. The runtime's
    pending timers are modelled as `scheduled`, a map from handle to what the
    handle was created for; `setTimeout`/`setInterval` hand out a fresh handle,
    `clearTimeout` removes a handle from `scheduled`, and a timeout that goes
    off is `Fire`d. Durations and callbacks belong to the caller. */
module Timers {
  import opened Wrappers

  datatype Kind = Timeout | Interval

  /** Where the timer was recorded when it was started. */
  datatype Slot = Unnamed | Named(id: string)

  datatype Scheduled = Scheduled(kind: Kind, slot: Slot)

  /** `if (timerId)`: an absent id and the empty string both mean the unnamed timer. */
  function SlotOf(timerId: Option<string>): (s: Slot)
    ensures s.Named? <==> timerId.Some? && timerId.value != ""
    ensures s.Named? ==> s.id == timerId.value
  {
    if timerId.Some? && timerId.value != "" then Named(timerId.value) else Unnamed
  }

  /** The bookkeeping agrees with the runtime: each recorded handle is
      pending and was started for the slot it is recorded in, every pending
      named timer is the one recorded under its name, and every pending
      handle was handed out before `next`. */
  ghost predicate Consistent(timers: map<string, nat>, activeTimer: Option<nat>, scheduled: map<nat, Scheduled>, next: nat) {
    && (activeTimer.Some? ==> activeTimer.value in scheduled && scheduled[activeTimer.value].slot == Unnamed)
    && (forall id | id in timers :: timers[id] in scheduled && scheduled[timers[id]].slot == Named(id))
    && (forall h | h in scheduled && scheduled[h].slot.Named? ::
          scheduled[h].slot.id in timers && timers[scheduled[h].slot.id] == h)
    && (forall h | h in scheduled :: h < next)
  }

  /** Starting a named timer under handle `next`, cancelling and forgetting
      the one recorded under that name first, keeps the bookkeeping
      consistent. */
  lemma NamedStartConsistent(timers: map<string, nat>, activeTimer: Option<nat>, scheduled: map<nat, Scheduled>, next: nat, kind: Kind, id: string)
    requires Consistent(timers, activeTimer, scheduled, next)
    ensures Consistent(timers[id := next], activeTimer,
      scheduled[next := Scheduled(kind, Named(id))] - (if id in timers then {timers[id]} else {}), next + 1)
  {
  }

  class PaymentTimer {
    var timers: map<string, nat>
    var activeTimer: Option<nat>
    /** The runtime's timers this instance created and nobody has cleared. */
    var scheduled: map<nat, Scheduled>
    var nextHandle: nat

    /** The bookkeeping agrees with the runtime (see `Consistent`). */
    ghost predicate Valid()
      reads this
    {
      Consistent(timers, activeTimer, scheduled, nextHandle)
    }

    /** No pending unnamed timer is out of reach: each one is `activeTimer`. */
    ghost predicate Tracked()
      reads this
    {
      forall h | h in scheduled && scheduled[h].slot == Unnamed :: activeTimer == Some(h)
    }

    constructor ()
      ensures Valid() && Tracked()
      ensures timers == map[] && activeTimer == None && scheduled == map[]
    {
      timers := map[];
      activeTimer := None;
      scheduled := map[];
      nextHandle := 0;
    }

    /** `hasActiveTimer(timerId)`: whether the named timer, or the unnamed one,
        is recorded; with every pending unnamed timer tracked, that is whether
        a timer of that slot is pending. */
    function HasActiveTimer(timerId: Option<string>): (r: bool)
      reads this
      ensures Valid() && SlotOf(timerId).Named? ==>
        (r <==> exists h | h in scheduled :: scheduled[h].slot == SlotOf(timerId))
      ensures Valid() && Tracked() && SlotOf(timerId) == Unnamed ==>
        (r <==> exists h | h in scheduled :: scheduled[h].slot == Unnamed)
    {
      match SlotOf(timerId)
      case Named(id) => id in timers
      case Unnamed => activeTimer.Some?
    }

    /** `clearTimer(timerId)`: cancels and forgets the named timer, or the
        unnamed one; nothing happens when there is none. */
    method ClearTimer(timerId: Option<string>)
      requires Valid()
      modifies this
      ensures Valid()
      ensures old(Tracked()) ==> Tracked()
      ensures nextHandle == old(nextHandle)
      ensures match SlotOf(timerId)
        case Named(id) =>
          && timers == old(timers) - {id} && activeTimer == old(activeTimer)
          && scheduled == if id in old(timers) then old(scheduled) - {old(timers)[id]} else old(scheduled)
        case Unnamed =>
          && timers == old(timers) && activeTimer == None
          && scheduled == if old(activeTimer).Some? then old(scheduled) - {old(activeTimer).value} else old(scheduled)
      ensures !HasActiveTimer(timerId)
    {
      match SlotOf(timerId)
      case Named(id) =>
        if id in timers {
          scheduled := scheduled - {timers[id]};
          timers := timers - {id};
        }
      case Unnamed =>
        if activeTimer.Some? {
          scheduled := scheduled - {activeTimer.value};
          activeTimer := None;
        }
    }

    /** The bookkeeping `startTimer` and `startInterval` share: the new
        handle replaces, and cancels, the timer recorded in the same slot. */
    method Start(kind: Kind, timerId: Option<string>) returns (h: nat)
      requires Valid()
      modifies this
      ensures Valid()
      ensures old(Tracked()) ==> Tracked()
      ensures h == old(nextHandle) && nextHandle == h + 1 && h !in old(scheduled)
      ensures match SlotOf(timerId)
        case Named(id) =>
          && timers == old(timers)[id := h] && activeTimer == old(activeTimer)
          && scheduled == old(scheduled)[h := Scheduled(kind, Named(id))] - (if id in old(timers) then {old(timers)[id]} else {})
        case Unnamed =>
          && timers == old(timers) && activeTimer == Some(h)
          && scheduled == old(scheduled)[h := Scheduled(kind, Unnamed)] - (if old(activeTimer).Some? then {old(activeTimer).value} else {})
      ensures HasActiveTimer(timerId)
    {
      match SlotOf(timerId)
      case Named(id) =>
        h := StartNamed(kind, id);
      case Unnamed =>
        h := StartUnnamed(kind);
    }

    /** `if (timerId)`: the new handle replaces, and cancels, the timer
        recorded under that name (`clearTimer(timerId)` also deletes the
        key, which the `set` that follows writes again). */
    method StartNamed(kind: Kind, id: string) returns (h: nat)
      requires Valid()
      modifies this
      ensures Valid()
      ensures old(Tracked()) ==> Tracked()
      ensures h == old(nextHandle) && nextHandle == h + 1 && h !in old(scheduled)
      ensures timers == old(timers)[id := h] && activeTimer == old(activeTimer)
      ensures scheduled == old(scheduled)[h := Scheduled(kind, Named(id))] - (if id in old(timers) then {old(timers)[id]} else {})
    {
      NamedStartConsistent(timers, activeTimer, scheduled, nextHandle, kind, id);
      h := nextHandle;
      nextHandle := nextHandle + 1;
      scheduled := scheduled[h := Scheduled(kind, Named(id))];
      if id in timers {
        scheduled := scheduled - {timers[id]};
      }
      timers := timers[id := h];
    }

    /** `else`: the new handle replaces, and cancels, the unnamed timer. */
    method StartUnnamed(kind: Kind) returns (h: nat)
      requires Valid()
      modifies this
      ensures Valid()
      ensures old(Tracked()) ==> Tracked()
      ensures h == old(nextHandle) && nextHandle == h + 1 && h !in old(scheduled)
      ensures timers == old(timers) && activeTimer == Some(h)
      ensures scheduled == old(scheduled)[h := Scheduled(kind, Unnamed)] - (if old(activeTimer).Some? then {old(activeTimer).value} else {})
    {
      h := nextHandle;
      nextHandle := nextHandle + 1;
      scheduled := scheduled[h := Scheduled(kind, Unnamed)];
      if activeTimer.Some? {
        scheduled := scheduled - {activeTimer.value};
      }
      activeTimer := Some(h);
    }

    /** `startTimer(duration, callback, timerId)`: a one-shot timer. */
    method StartTimer(timerId: Option<string>) returns (h: nat)
      requires Valid()
      modifies this
      ensures Valid()
      ensures old(Tracked()) ==> Tracked()
      ensures h == old(nextHandle) && nextHandle == h + 1 && h !in old(scheduled)
      ensures match SlotOf(timerId)
        case Named(id) =>
          && timers == old(timers)[id := h] && activeTimer == old(activeTimer)
          && scheduled == old(scheduled)[h := Scheduled(Timeout, Named(id))] - (if id in old(timers) then {old(timers)[id]} else {})
        case Unnamed =>
          && timers == old(timers) && activeTimer == Some(h)
          && scheduled == old(scheduled)[h := Scheduled(Timeout, Unnamed)] - (if old(activeTimer).Some? then {old(activeTimer).value} else {})
      ensures HasActiveTimer(timerId)
      ensures old(Tracked()) || SlotOf(timerId).Named? ==>
        forall h' | h' in scheduled && h' != h :: scheduled[h'].slot != SlotOf(timerId)
    {
      h := Start(Timeout, timerId);
    }

    /** `startInterval(duration, callback, timerId)`: a repeating timer,
        recorded exactly as `startTimer` records a one-shot one. */
    method StartInterval(timerId: Option<string>) returns (h: nat)
      requires Valid()
      modifies this
      ensures Valid()
      ensures old(Tracked()) ==> Tracked()
      ensures h == old(nextHandle) && nextHandle == h + 1 && h !in old(scheduled)
      ensures match SlotOf(timerId)
        case Named(id) =>
          && timers == old(timers)[id := h] && activeTimer == old(activeTimer)
          && scheduled == old(scheduled)[h := Scheduled(Interval, Named(id))] - (if id in old(timers) then {old(timers)[id]} else {})
        case Unnamed =>
          && timers == old(timers) && activeTimer == Some(h)
          && scheduled == old(scheduled)[h := Scheduled(Interval, Unnamed)] - (if old(activeTimer).Some? then {old(activeTimer).value} else {})
      ensures HasActiveTimer(timerId)
      ensures old(Tracked()) || SlotOf(timerId).Named? ==>
        forall h' | h' in scheduled && h' != h :: scheduled[h'].slot != SlotOf(timerId)
    {
      h := Start(Interval, timerId);
    }

    /** `clearAllTimers()`: cancels the unnamed timer and every named one and
        forgets them all. A pending timer that is recorded nowhere survives;
        when every unnamed timer is tracked there is none. */
    method ClearAllTimers()
      requires Valid()
      modifies this
      ensures Valid()
      ensures timers == map[] && activeTimer == None && nextHandle == old(nextHandle)
      ensures scheduled == old(scheduled) - old(timers).Values - (if old(activeTimer).Some? then {old(activeTimer).value} else {})
      ensures forall h | h in scheduled :: scheduled[h].slot == Unnamed && Some(h) != old(activeTimer)
      ensures old(Tracked()) ==> scheduled == map[]
    {
      if activeTimer.Some? {
        scheduled := scheduled - {activeTimer.value};
        activeTimer := None;
      }
      scheduled := scheduled - timers.Values;
      timers := map[];
    }

    /** `destroy()`. */
    method Destroy()
      requires Valid()
      modifies this
      ensures Valid()
      ensures timers == map[] && activeTimer == None
      ensures old(Tracked()) ==> scheduled == map[]
    {
      ClearAllTimers();
    }

    /** The runtime runs timer `h`, as the code is written. A timeout is no
        longer pending and its name is forgotten, and `activeTimer` is set to
        null whichever timer it was: a named timeout going off also forgets
        the unnamed timer. An interval keeps running and changes nothing. */
    method FireAsWritten(h: nat)
      requires Valid() && h in scheduled
      modifies this
      ensures Valid()
      ensures nextHandle == old(nextHandle)
      ensures old(scheduled)[h].kind == Interval ==>
        timers == old(timers) && activeTimer == old(activeTimer) && scheduled == old(scheduled)
      ensures old(scheduled)[h].kind == Timeout ==>
        && scheduled == old(scheduled) - {h}
        && timers == (match old(scheduled)[h].slot case Named(id) => old(timers) - {id} case Unnamed => old(timers))
        && activeTimer == None
    {
      var s := scheduled[h];
      if s.kind == Timeout {
        scheduled := scheduled - {h};
        if s.slot.Named? {
          timers := timers - {s.slot.id};
        }
        activeTimer := None;
      }
    }

    /** The runtime runs timer `h`, as intended: a timeout going off forgets
        only its own record, so every pending unnamed timer stays tracked. */
    method Fire(h: nat)
      requires Valid() && h in scheduled
      modifies this
      ensures Valid()
      ensures old(Tracked()) ==> Tracked()
      ensures nextHandle == old(nextHandle)
      ensures old(scheduled)[h].kind == Interval ==>
        timers == old(timers) && activeTimer == old(activeTimer) && scheduled == old(scheduled)
      ensures old(scheduled)[h].kind == Timeout ==>
        && scheduled == old(scheduled) - {h}
        && timers == (match old(scheduled)[h].slot case Named(id) => old(timers) - {id} case Unnamed => old(timers))
        && activeTimer == (if old(activeTimer) == Some(h) then None else old(activeTimer))
    {
      var s := scheduled[h];
      if s.kind == Timeout {
        scheduled := scheduled - {h};
        if s.slot.Named? {
          timers := timers - {s.slot.id};
        }
        if activeTimer == Some(h) {
          activeTimer := None;
        }
      }
    }
  }

  /** The discrepancy: an unnamed timer, then a named one that goes off. The
      unnamed timer is still pending, `hasActiveTimer()` says there is none,
      and neither `clearTimer()` nor `clearAllTimers()` can cancel it. */
  method OrphanedUnnamedTimer() returns (t: PaymentTimer, lost: nat)
    ensures t.Valid() && !t.Tracked()
    ensures lost in t.scheduled && t.scheduled[lost] == Scheduled(Timeout, Unnamed)
    ensures !t.HasActiveTimer(None)
  {
    t := new PaymentTimer();
    lost := t.StartTimer(None);
    var named := t.StartTimer(Some("split"));
    t.FireAsWritten(named);
    t.ClearTimer(None);
    t.ClearAllTimers();
  }

  /** With the intended `Fire`, the same sequence leaves nothing pending
      after `clearAllTimers()`. */
  method NoOrphanWhenFiringOwnRecord() returns (t: PaymentTimer, kept: nat)
    ensures t.Valid() && t.Tracked()
    ensures t.scheduled == map[]
  {
    t := new PaymentTimer();
    kept := t.StartTimer(None);
    var named := t.StartTimer(Some("split"));
    t.Fire(named);
    assert t.HasActiveTimer(None);
    t.ClearAllTimers();
  }
}
