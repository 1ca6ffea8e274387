/**
 * The plugin's event handling as a state machine over values: the one
 * timer field `debounceTimer`, the host's table of timers that are still
 * due to run, and the writes to the pointer file. The class in plugin.dfy
 * is proved to follow `Step`; the lemmas here say what sequences of events
 * do.
 */
module Debounce {
  import opened Wrappers
  import opened Snapshots
  import opened Json

  /**
   * A handle returned by `setTimeout`. The host never hands one out twice
   * and never returns 0, so a held handle is always truthy and the test
   * `if (this.debounceTimer)` is exactly `debounceTimer.Some?`.
   */
  type Handle = h: nat | h >= 1 witness 1

  /**
   * How `fs.writeFileSync` ended; a failure is caught and only logged.
   * The file is opened with flag `'w'`, which truncates it, so a failure
   * before the open (a missing directory, no permission) leaves the file
   * as it was, while one after it (a full disk) leaves only the first
   * `kept` characters of the new content.
   */
  datatype WriteOutcome = Written | FailedBeforeOpen | FailedAfterOpen(kept: nat)

  /** One change of a file's content: the pointer path and what the file then holds. */
  datatype Write = Write(target: string, content: string)

  /** The first `kept` characters of `content`, or all of it. */
  function Torn(content: string, kept: nat): (r: string)
    ensures r <= content && |r| <= kept
  {
    if kept < |content| then content[..kept] else content
  }

  /**
   * `timer` is the `debounceTimer` field; `armed` are the handles whose
   * callback the host will still run; `nextHandle` is the handle the host's
   * next `setTimeout` returns; `log` is every change to the pointer file's content so far, oldest
   * first.
   */
  datatype Machine = Machine(timer: Option<Handle>, armed: set<Handle>, nextHandle: Handle, log: seq<Write>)

  /**
   * What reaches the plugin: the `active-leaf-change` event, `keyup` and
   * `mouseup` on the window, the host running the callback of timer
   * `handle`, and `onunload`. An event that writes carries what the
   * workspace shows at that moment and how the write ends.
   */
  datatype Event =
    | LeafChange(active: Option<View>, io: WriteOutcome)
    | KeyUp
    | MouseUp
    | TimerFires(handle: Handle, active: Option<View>, io: WriteOutcome)
    | Unload

  /** The state before any event: no timer, nothing written. */
  function Init(): Machine {
    Machine(None, {}, 1, [])
  }

  function Held(timer: Option<Handle>): set<Handle> {
    if timer.Some? then {timer.value} else {}
  }

  /**
   * The state every reachable machine is in: the only timer that can still
   * run is the one the field holds, and that handle has been handed out.
   */
  predicate Inv(m: Machine) {
    m.armed <= Held(m.timer) && (m.timer.Some? ==> m.timer.value < m.nextHandle)
  }

  /** A timer is pending when the host will still run one of the plugin's callbacks. */
  predicate Pending(m: Machine) {
    m.armed != {}
  }

  /** The change `writePointer` makes to the pointer file for `active`, if any. */
  function WriteFor(active: Option<View>, io: WriteOutcome, target: string): seq<Write> {
    match BuildSnapshot(active)
    case None => []
    case Some(s) =>
      match io
      case Written => [Write(target, Serialise(s))]
      case FailedBeforeOpen => []
      case FailedAfterOpen(kept) => [Write(target, Torn(Serialise(s), kept))]
  }

  /** `writePointer`: build the record at this moment and write it to `target`. */
  function WritePointer(m: Machine, active: Option<View>, io: WriteOutcome, target: string): Machine {
    m.(log := m.log + WriteFor(active, io, target))
  }

  /**
   * `writePointerDebounced`: clear the timer the field holds (a no-op for
   * one that has already run), then arm a new one and keep its handle.
   */
  function WritePointerDebounced(m: Machine): Machine {
    var cleared := m.armed - Held(m.timer);
    m.(timer := Some(m.nextHandle), armed := cleared + {m.nextHandle}, nextHandle := m.nextHandle + 1)
  }

  /** `onunload`: clear the timer the field holds; the field keeps the handle. */
  function OnUnload(m: Machine): Machine {
    m.(armed := m.armed - Held(m.timer))
  }

  /**
   * One event. The host runs a timer's callback only while it is armed, and
   * only once; running it leaves `debounceTimer` as it was. `target` is the
   * pointer path at that moment.
   */
  function Step(m: Machine, e: Event, target: string): Machine {
    match e
    case LeafChange(active, io) => WritePointer(m, active, io, target)
    case KeyUp => WritePointerDebounced(m)
    case MouseUp => WritePointerDebounced(m)
    case TimerFires(h, active, io) =>
      if h in m.armed then WritePointer(m.(armed := m.armed - {h}), active, io, target) else m
    case Unload => OnUnload(m)
  }

  function Run(m: Machine, events: seq<Event>, target: string): Machine
    decreases |events|
  {
    if events == [] then m else Run(Step(m, events[0], target), events[1..], target)
  }

  /** An event that goes through the debouncer. */
  predicate IsTrigger(e: Event) {
    e.KeyUp? || e.MouseUp?
  }

  /** An event that neither writes at once nor arms a timer. */
  predicate IsQuiet(e: Event) {
    e.TimerFires? || e.Unload?
  }

  // ---------------------------------------------------------------------
  // At most one pending timer

  lemma InitInv()
    ensures Inv(Init()) && !Pending(Init()) && Init().log == []
  {
  }

  lemma StepInv(m: Machine, e: Event, target: string)
    requires Inv(m)
    ensures Inv(Step(m, e, target))
    ensures Step(m, e, target).log[..|m.log|] == m.log
  {
  }

  lemma {:induction false} RunInv(m: Machine, events: seq<Event>, target: string)
    requires Inv(m)
    ensures Inv(Run(m, events, target))
    ensures |Run(m, events, target).log| >= |m.log| && Run(m, events, target).log[..|m.log|] == m.log
    decreases |events|
  {
    if events != [] {
      var m' := Step(m, events[0], target);
      StepInv(m, events[0], target);
      RunInv(m', events[1..], target);
    }
  }

  /** However events arrive, the host never holds more than one of the plugin's timers. */
  lemma AtMostOnePending(events: seq<Event>, target: string)
    ensures |Run(Init(), events, target).armed| <= 1
  {
    InitInv();
    RunInv(Init(), events, target);
    var m := Run(Init(), events, target);
    assert m.armed == {} || m.armed == Held(m.timer);
  }

  lemma {:induction false} RunAppend(m: Machine, a: seq<Event>, b: seq<Event>, target: string)
    ensures Run(m, a + b, target) == Run(Run(m, a, target), b, target)
    decreases |a|
  {
    if a == [] {
      assert a + b == b;
    } else {
      assert (a + b)[0] == a[0] && (a + b)[1..] == a[1..] + b;
      RunAppend(Step(m, a[0], target), a[1..], b, target);
    }
  }

  // ---------------------------------------------------------------------
  // Coalescing

  /**
   * A burst of `keyup`/`mouseup` events writes nothing, and leaves exactly
   * one timer pending: the one armed by the last event of the burst.
   */
  lemma {:induction false} BurstArmsOnlyLast(m: Machine, burst: seq<Event>, target: string)
    requires Inv(m) && |burst| >= 1
    requires forall i :: 0 <= i < |burst| ==> IsTrigger(burst[i])
    ensures var m' := Run(m, burst, target);
            m'.timer == Some(m.nextHandle + |burst| - 1)
            && m'.armed == {m.nextHandle + |burst| - 1}
            && m'.nextHandle == m.nextHandle + |burst|
            && m'.log == m.log
    decreases |burst|
  {
    var m1 := Step(m, burst[0], target);
    assert m1.armed == {m.nextHandle};
    if |burst| > 1 {
      BurstArmsOnlyLast(m1, burst[1..], target);
    }
  }

  /**
   * Events that neither write at once nor arm a timer write at most as
   * many times as there are pending timers, and only ever append.
   */
  lemma {:induction false} QuietWritesAtMostPending(m: Machine, quiet: seq<Event>, target: string)
    requires Inv(m)
    requires forall i :: 0 <= i < |quiet| ==> IsQuiet(quiet[i])
    ensures var m' := Run(m, quiet, target);
            |m.log| <= |m'.log| <= |m.log| + |m.armed| && m'.log[..|m.log|] == m.log
            && m'.armed <= m.armed
    decreases |quiet|
  {
    if quiet != [] {
      var m1 := Step(m, quiet[0], target);
      StepInv(m, quiet[0], target);
      if quiet[0].TimerFires? && quiet[0].handle in m.armed {
        assert |m1.armed| == |m.armed| - 1;
      } else {
        assert |m1.armed| <= |m.armed| by {
          assert m1.armed <= m.armed;
          SubsetCard(m1.armed, m.armed);
        }
      }
      QuietWritesAtMostPending(m1, quiet[1..], target);
      var m' := Run(m1, quiet[1..], target);
      assert m'.log[..|m.log|] == m1.log[..|m1.log|][..|m.log|];
    }
  }

  lemma SubsetCard(a: set<Handle>, b: set<Handle>)
    requires a <= b
    ensures |a| <= |b|
  {
    if a != {} {
      var x :| x in a;
      SubsetCard(a - {x}, b - {x});
    }
  }

  /**
   * Coalescing: after a burst of `n >= 1` debounced triggers, the last
   * timer's callback writes once, with the record built from what the
   * workspace shows when it runs; the timers of the earlier triggers never
   * write, and nothing that follows without a new trigger or focus change
   * writes again.
   */
  lemma Coalescing(m: Machine, burst: seq<Event>, active: Option<View>, quiet: seq<Event>, target: string)
    requires Inv(m) && |burst| >= 1
    requires forall i :: 0 <= i < |burst| ==> IsTrigger(burst[i])
    requires forall i :: 0 <= i < |quiet| ==> IsQuiet(quiet[i])
    requires BuildSnapshot(active).Some?
    ensures var last := m.nextHandle + |burst| - 1;
            Run(m, burst + [TimerFires(last, active, Written)] + quiet, target).log
            == m.log + [Write(target, Serialise(BuildSnapshot(active).value))]
  {
    var last := m.nextHandle + |burst| - 1;
    var fire := TimerFires(last, active, Written);
    BurstArmsOnlyLast(m, burst, target);
    RunAppend(m, burst + [fire], quiet, target);
    RunAppend(m, burst, [fire], target);
    var m1 := Run(m, burst, target);
    StepInv(m1, fire, target);
    var m2 := Step(m1, fire, target);
    assert Run(m1, [fire], target) == m2;
    assert m2.armed == {};
    QuietWritesAtMostPending(m2, quiet, target);
  }

  /**
   * A timer armed before a burst, or by any trigger of it but the last,
   * has been cleared: when the host reaches it, nothing happens.
   */
  lemma SupersededTimerDoesNothing(m: Machine, burst: seq<Event>, h: Handle, active: Option<View>, io: WriteOutcome, target: string)
    requires Inv(m) && |burst| >= 1
    requires forall i :: 0 <= i < |burst| ==> IsTrigger(burst[i])
    requires h != m.nextHandle + |burst| - 1
    ensures var m' := Run(m, burst, target);
            Step(m', TimerFires(h, active, io), target) == m'
  {
    BurstArmsOnlyLast(m, burst, target);
  }

  // ---------------------------------------------------------------------
  // Focus change

  /**
   * `active-leaf-change` writes at once and leaves the timer alone: a
   * timer pending before it still runs afterwards and writes a second
   * time, with the state at that later moment.
   */
  lemma LeafChangeKeepsPendingTimer(m: Machine, burst: seq<Event>, now: Option<View>, later: Option<View>, target: string)
    requires Inv(m) && |burst| >= 1
    requires forall i :: 0 <= i < |burst| ==> IsTrigger(burst[i])
    requires BuildSnapshot(now).Some? && BuildSnapshot(later).Some?
    ensures var last := m.nextHandle + |burst| - 1;
            Run(m, burst + [LeafChange(now, Written), TimerFires(last, later, Written)], target).log
            == m.log + [Write(target, Serialise(BuildSnapshot(now).value)),
                        Write(target, Serialise(BuildSnapshot(later).value))]
  {
    var last := m.nextHandle + |burst| - 1;
    var tail := [LeafChange(now, Written), TimerFires(last, later, Written)];
    BurstArmsOnlyLast(m, burst, target);
    RunAppend(m, burst, tail, target);
    var m1 := Run(m, burst, target);
    var m2 := Step(m1, tail[0], target);
    assert m2.armed == {last};
    assert tail[1..] == [tail[1]] && tail[1..][1..] == [];
    var m3 := Step(m2, tail[1], target);
    assert m3.log == m1.log + [Write(target, Serialise(BuildSnapshot(now).value))]
                            + [Write(target, Serialise(BuildSnapshot(later).value))];
    assert Run(m2, tail[1..], target) == Run(m3, [], target);
    assert Run(m1, tail, target) == Run(m2, tail[1..], target);
  }

  /** Writing the same workspace state twice gives the same file content twice. */
  lemma RepeatedWriteIsIdentical(m: Machine, active: Option<View>, target: string)
    requires BuildSnapshot(active).Some?
    ensures var log := Run(m, [LeafChange(active, Written), LeafChange(active, Written)], target).log;
            |log| == |m.log| + 2 && log[|m.log|] == log[|m.log| + 1]
            && log[|m.log|].content == Serialise(BuildSnapshot(active).value)
  {
    var m1 := Step(m, LeafChange(active, Written), target);
    var m2 := Step(m1, LeafChange(active, Written), target);
    assert Run(m, [LeafChange(active, Written), LeafChange(active, Written)], target) == Run(m2, [], target);
  }

  // ---------------------------------------------------------------------
  // No file, failed writes, unload

  /**
   * With no markdown view, or one without a file, nothing is written and
   * the file keeps its content; so does a write that fails before the
   * file is opened.
   */
  lemma NothingToWrite(m: Machine, active: Option<View>, io: WriteOutcome, target: string)
    requires BuildSnapshot(active).None? || io == FailedBeforeOpen
    ensures Step(m, LeafChange(active, io), target) == m
    ensures forall h :: Step(m, TimerFires(h, active, io), target).log == m.log
  {
  }

  /**
   * A write that fails after the file was opened leaves a prefix of the
   * record's content, shorter than the record when it stopped early; the
   * next successful write puts a whole record back.
   */
  lemma TornWriteIsRepairedByNextWrite(m: Machine, active: Option<View>, kept: nat, next: Option<View>, target: string)
    requires BuildSnapshot(active).Some? && BuildSnapshot(next).Some?
    ensures var full := Serialise(BuildSnapshot(active).value);
            var m1 := Step(m, LeafChange(active, FailedAfterOpen(kept)), target);
            |m1.log| == |m.log| + 1 && m1.log[..|m.log|] == m.log
            && m1.log[|m.log|].content <= full
            && (kept < |full| ==> |m1.log[|m.log|].content| == kept < |full|)
    ensures var m2 := Run(m, [LeafChange(active, FailedAfterOpen(kept)), LeafChange(next, Written)], target);
            |m2.log| == |m.log| + 2
            && m2.log[|m.log| + 1] == Write(target, Serialise(BuildSnapshot(next).value))
  {
    var m1 := Step(m, LeafChange(active, FailedAfterOpen(kept)), target);
    assert m1.log[..|m.log|] == m.log;
    var events := [LeafChange(active, FailedAfterOpen(kept)), LeafChange(next, Written)];
    var m2 := Step(m1, events[1], target);
    assert events[1..] == [events[1]] && events[1..][1..] == [];
    assert Run(m1, events[1..], target) == Run(m2, [], target);
    assert Run(m, events, target) == Run(m1, events[1..], target);
  }

  /**
   * After `onunload` (which also detaches the plugin's event handlers, so
   * only the host's timers can still reach it) nothing is written again.
   */
  lemma UnloadStopsWrites(m: Machine, after: seq<Event>, target: string)
    requires Inv(m)
    requires forall i :: 0 <= i < |after| ==> IsQuiet(after[i])
    ensures Run(m, [Unload] + after, target).log == m.log
  {
    var m1 := Step(m, Unload, target);
    assert m1.armed == {};
    StepInv(m, Unload, target);
    assert ([Unload] + after)[1..] == after;
    QuietWritesAtMostPending(m1, after, target);
  }
}
