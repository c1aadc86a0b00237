/**
 The updatable timer: a sleep whose wake-up time may be changed while it sleeps. Times are
 integers; the clock is a step of the environment.
 */
module UpdatableTimer {
  import opened Wrappers

  /** `sleep` is about to look at the clock, waits with an armed deadline, or has returned. */
  datatype Position = Looking | Blocked(deadline: int) | Returned(at: int)

  datatype Timer = Timer(wakeUpTime: int, updated: bool, position: Position)

  /** The top of the loop, up to its wait. */
  function Look(t: Timer, now: int): Timer {
    if t.wakeUpTime - now <= 0 then t.(position := Returned(now))
    else t.(updated := false, position := Blocked(now + (t.wakeUpTime - now)))
  }

  function Update(t: Timer, wakeUpTime: int): Timer {
    t.(wakeUpTime := wakeUpTime, updated := true)
  }

  class SleepingTimer {
    var wakeUpTime: int
    var wakeUpTimeUpdated: bool
    var position: Position

    ghost function View(): Timer
      reads this
    {
      Timer(wakeUpTime, wakeUpTimeUpdated, position)
    }

    constructor (wakeUpTime: int)
      ensures View() == Timer(wakeUpTime, false, Looking)
    {
      this.wakeUpTime, wakeUpTimeUpdated, position := wakeUpTime, false, Looking;
    }

    method SleepPass(now: int)
      modifies this
      ensures View() == Look(old(View()), now)
    {
      var interval := wakeUpTime - now;
      if interval <= 0 {
        position := Returned(now);
      } else {
        wakeUpTimeUpdated := false;
        position := Blocked(now + interval);
      }
    }

    method UpdateWakeUpTime(wakeUpTime: int)
      modifies this
      ensures View() == Update(old(View()), wakeUpTime)
    {
      this.wakeUpTime := wakeUpTime;
      wakeUpTimeUpdated := true;
    }
  }

  // ----- Every schedule of updates and clock advances -----

  /** History, which no step reads: the wake-up time last asked for, whether it was asked for since
      `sleep` last looked at the clock, and the one in force when it returned. */
  datatype System = System(timer: Timer, now: int, asked: int, news: bool, due: Option<int>)

  datatype Step = Advance(amount: nat) | UpdateTo(wakeUpTime: int) | LookStep | Resume

  predicate Enabled(s: System, step: Step) {
    match step
    case Advance(_) => true
    case UpdateTo(_) => true
    case LookStep => s.timer.position.Looking?
    case Resume => s.timer.position.Blocked? && (s.timer.updated || s.now >= s.timer.position.deadline)
  }

  function Apply(s: System, step: Step): System
    requires Enabled(s, step)
  {
    match step
    case Advance(amount) => s.(now := s.now + amount)
    case UpdateTo(wakeUpTime) => s.(timer := Update(s.timer, wakeUpTime), asked := wakeUpTime, news := true)
    case LookStep =>
      var t := Look(s.timer, s.now);
      s.(timer := t, news := false, due := if t.position.Returned? then Some(s.asked) else s.due)
    case Resume => s.(timer := s.timer.(position := Looking))
  }

  predicate Reaches(s: System, steps: seq<Step>, t: System)
    decreases |steps|
  {
    if steps == [] then s == t
    else Enabled(s, steps[0]) && Reaches(Apply(s, steps[0]), steps[1..], t)
  }

  function Initial(wakeUpTime: int, now: int): System {
    System(Timer(wakeUpTime, false, Looking), now, wakeUpTime, false, None)
  }

  /** The time that was asked for last, as the list of steps tells it. */
  function LastAsked(wakeUpTime: int, steps: seq<Step>): int
    decreases |steps|
  {
    if steps == [] then wakeUpTime
    else LastAsked(if steps[0].UpdateTo? then steps[0].wakeUpTime else wakeUpTime, steps[1..])
  }

  /** No update is lost: the timer is set for the time last asked for, and a blocked sleep is armed for
      that time or, exactly when it was asked for after the last look, has the flag pending. */
  predicate Inv(s: System) {
    && s.timer.wakeUpTime == s.asked
    && match s.timer.position
       case Looking => s.due.None?
       case Blocked(deadline) =>
         s.due.None? && (s.timer.updated <==> s.news) && (!s.news ==> deadline == s.asked)
       case Returned(at) => s.due.Some? && s.due.value <= at <= s.now
  }

  lemma {:induction false} NoLostUpdate(s: System, steps: seq<Step>, t: System)
    requires Inv(s) && Reaches(s, steps, t)
    ensures Inv(t) && t.asked == LastAsked(s.asked, steps)
    decreases |steps|
  {
    if steps != [] {
      NoLostUpdate(Apply(s, steps[0]), steps[1..], t);
    }
  }

  /** Against the times asked for: `sleep` returns at or after the one in force; it is blocked exactly
      as long as nothing was asked for since its last look and that time is not there yet; and once the
      time last asked for has come, the loop's own next steps make it return. */
  lemma ReturnsWhenDue(wakeUpTime: int, start: int, steps: seq<Step>, t: System)
    requires Reaches(Initial(wakeUpTime, start), steps, t)
    ensures var asked := LastAsked(wakeUpTime, steps);
      && (t.timer.position.Returned? ==> t.due.Some? && t.due.value <= t.timer.position.at <= t.now)
      && (t.timer.position.Looking? ==>
            (Apply(t, LookStep).timer.position.Returned? <==> t.now >= asked)
            && (t.now < asked ==> Apply(t, LookStep).timer.position == Blocked(asked)))
      && (t.timer.position.Blocked? ==> (Enabled(t, Resume) <==> t.news || t.now >= asked))
      && (t.timer.position.Blocked? && t.now >= asked ==>
            Apply(Apply(t, Resume), LookStep).timer.position == Returned(t.now))
  {
    NoLostUpdate(Initial(wakeUpTime, start), steps, t);
  }
}
