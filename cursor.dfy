/** The runtime cursor provider: pointer motion read from libinput, turned
    into a position normalised to the screen, announced at most once per
    emit-timer period, and corrected now and then by a calibration that asks
    the compositor for the true cursor position through a chain of external
    processes. Time is a `now` parameter in milliseconds; an unset
    `QElapsedTimer` is `None`. */
module Cursor {
  import opened Common
  import opened Text
  import opened CursorJournal

  const DefaultScreenWidth: real := 1920.0
  const DefaultScreenHeight: real := 1080.0
  /** Minimum time between two calibrations. */
  const CalibrationCooldown := 5000
  /** A calibration waits until the pointer has been still this long. */
  const MovementQuiet := 200

  /** The four coordinates the provider keeps. */
  datatype Position = Position(rawX: real, rawY: real, mouseX: real, mouseY: real)

  /** One libinput event: relative pointer motion, absolute motion already
      transformed to [0, 1] by libinput, or anything else. */
  datatype InputEvent =
    | RelativeMotion(dx: real, dy: real)
    | AbsoluteMotion(x: real, y: real)
    | OtherEvent

  predicate IsMotion(e: InputEvent) {
    !e.OtherEvent?
  }

  /** `qBound(lo, v, hi)`, that is `qMax(lo, qMin(hi, v))`. */
  function Bound(lo: real, v: real, hi: real): (r: real)
    ensures lo <= hi ==> lo <= r <= hi
    ensures lo <= hi ==> (v < lo ==> r == lo) && (hi < v ==> r == hi) && (lo <= v <= hi ==> r == v)
  {
    var m := if hi < v then hi else v;
    if lo < m then m else lo
  }

  /** What one event does to the position (`handleEvents`' loop body). */
  function ApplyEvent(p: Position, e: InputEvent, sw: real, sh: real): Position
    requires sw != 0.0 && sh != 0.0
  {
    match e
    case RelativeMotion(dx, dy) =>
      var rx := Bound(0.0, p.rawX + dx, sw);
      var ry := Bound(0.0, p.rawY + dy, sh);
      Position(rx, ry, rx / sw, ry / sh)
    case AbsoluteMotion(x, y) => Position(x * sw, y * sh, x, y)
    case OtherEvent => p
  }

  /** The events of one dispatch, in order. */
  function ApplyEvents(p: Position, es: seq<InputEvent>, sw: real, sh: real): Position
    requires sw != 0.0 && sh != 0.0
    decreases |es|
  {
    if es == [] then p
    else ApplyEvent(ApplyEvents(p, es[..|es| - 1], sw, sh), es[|es| - 1], sw, sh)
  }

  function AnyMotion(es: seq<InputEvent>): bool
    decreases |es|
  {
    es != [] && (IsMotion(es[|es| - 1]) || AnyMotion(es[..|es| - 1]))
  }

  /** `AnyMotion` holds exactly when some event of the dispatch is a motion. */
  lemma {:induction false} AnyMotionIff(es: seq<InputEvent>)
    ensures AnyMotion(es) <==> exists j :: 0 <= j < |es| && IsMotion(es[j])
    decreases |es|
  {
    if es != [] {
      var init := es[..|es| - 1];
      AnyMotionIff(init);
      if exists j :: 0 <= j < |init| && IsMotion(init[j]) {
        var j :| 0 <= j < |init| && IsMotion(init[j]);
        assert IsMotion(es[j]);
      }
      if exists j :: 0 <= j < |es| && IsMotion(es[j]) {
        var j :| 0 <= j < |es| && IsMotion(es[j]);
        if j < |init| {
          assert IsMotion(init[j]);
        }
      }
    }
  }

  /** Raw coordinates on the screen, and mouse coordinates their ratio to it. */
  predicate Normalised(p: Position, sw: real, sh: real)
    requires sw > 0.0 && sh > 0.0
  {
    0.0 <= p.rawX <= sw && 0.0 <= p.rawY <= sh && p.mouseX == p.rawX / sw && p.mouseY == p.rawY / sh
  }

  lemma RatioInUnit(r: real, s: real)
    requires s > 0.0 && 0.0 <= r <= s
    ensures 0.0 <= r / s <= 1.0
  {
    assert r / s * s == r;
  }

  /** Relative motion accumulates onto the raw position, clamps it to the
      screen and leaves the mouse coordinates in [0, 1]. */
  lemma RelativeMotionNormalises(p: Position, dx: real, dy: real, sw: real, sh: real)
    requires sw > 0.0 && sh > 0.0
    ensures var q := ApplyEvent(p, RelativeMotion(dx, dy), sw, sh);
      Normalised(q, sw, sh) && 0.0 <= q.mouseX <= 1.0 && 0.0 <= q.mouseY <= 1.0 &&
      (0.0 <= p.rawX + dx <= sw ==> q.rawX == p.rawX + dx) &&
      (p.rawX + dx < 0.0 ==> q.rawX == 0.0) && (sw < p.rawX + dx ==> q.rawX == sw) &&
      (0.0 <= p.rawY + dy <= sh ==> q.rawY == p.rawY + dy) &&
      (p.rawY + dy < 0.0 ==> q.rawY == 0.0) && (sh < p.rawY + dy ==> q.rawY == sh)
  {
    var q := ApplyEvent(p, RelativeMotion(dx, dy), sw, sh);
    RatioInUnit(q.rawX, sw);
    RatioInUnit(q.rawY, sh);
  }

  /** Absolute motion takes the mouse coordinates as given and scales them to
      raw ones; coordinates in [0, 1] give a normalised position. */
  lemma AbsoluteMotionScales(p: Position, x: real, y: real, sw: real, sh: real)
    requires sw > 0.0 && sh > 0.0
    ensures var q := ApplyEvent(p, AbsoluteMotion(x, y), sw, sh);
      q.mouseX == x && q.mouseY == y && q.rawX == x * sw && q.rawY == y * sh &&
      (0.0 <= x <= 1.0 && 0.0 <= y <= 1.0 ==> Normalised(q, sw, sh))
  {
    assert x * sw / sw == x;
    assert y * sh / sh == y;
    if 0.0 <= x <= 1.0 && 0.0 <= y <= 1.0 {
      assert x * sw <= 1.0 * sw;
      assert y * sh <= 1.0 * sh;
    }
  }

  /** Absolute events whose coordinates lie in [0, 1]. */
  predicate AbsoluteInUnit(es: seq<InputEvent>) {
    forall j :: 0 <= j < |es| && es[j].AbsoluteMotion? ==>
      0.0 <= es[j].x <= 1.0 && 0.0 <= es[j].y <= 1.0
  }

  /** A normalised position stays normalised through any dispatch whose
      absolute events stay inside the unit square. */
  lemma {:induction false} NormalisedPreserved(p: Position, es: seq<InputEvent>, sw: real, sh: real)
    requires sw > 0.0 && sh > 0.0 && Normalised(p, sw, sh) && AbsoluteInUnit(es)
    ensures Normalised(ApplyEvents(p, es, sw, sh), sw, sh)
    decreases |es|
  {
    if es != [] {
      var init, e := es[..|es| - 1], es[|es| - 1];
      assert AbsoluteInUnit(init) by {
        forall j | 0 <= j < |init| && init[j].AbsoluteMotion?
          ensures 0.0 <= init[j].x <= 1.0 && 0.0 <= init[j].y <= 1.0
        {
          assert init[j] == es[j];
        }
      }
      NormalisedPreserved(p, init, sw, sh);
      var q := ApplyEvents(p, init, sw, sh);
      match e
      case RelativeMotion(dx, dy) => RelativeMotionNormalises(q, dx, dy, sw, sh);
      case AbsoluteMotion(x, y) =>
        assert es[|es| - 1].AbsoluteMotion?;
        AbsoluteMotionScales(q, x, y, sw, sh);
      case OtherEvent =>
    }
  }

  /** A dispatch without motion leaves the position as it was. */
  lemma {:induction false} NoMotionKeepsPosition(p: Position, es: seq<InputEvent>, sw: real, sh: real)
    requires sw > 0.0 && sh > 0.0 && !AnyMotion(es)
    ensures ApplyEvents(p, es, sw, sh) == p
    decreases |es|
  {
    if es != [] {
      NoMotionKeepsPosition(p, es[..|es| - 1], sw, sh);
    }
  }

  /** The calibration guard: one in progress, the cooldown since the last
      calibration, or recent pointer motion. */
  predicate CalibrationBlocked(calibrating: bool, lastCalibration: Option<int>, lastMovement: Option<int>, now: int) {
    calibrating ||
    (lastCalibration.Some? && now - lastCalibration.value < CalibrationCooldown) ||
    (lastMovement.Some? && now - lastMovement.value < MovementQuiet)
  }

  /** Timers that were never started do not hold a calibration back, which is
      why the constructor's own calibration always goes ahead. */
  lemma UnsetTimersNeverBlock(now: int)
    ensures !CalibrationBlocked(false, None, None, now)
  {
  }

  /** A calibration started at `t`, finished, and with the pointer still since
      `m`, may run again exactly from 5000 ms after `t` and 200 ms after `m`. */
  lemma CalibrationAllowedIff(t: int, m: int, now: int)
    ensures !CalibrationBlocked(false, Some(t), Some(m), now) <==>
      now >= t + CalibrationCooldown && now >= m + MovementQuiet
  {
  }

  /** How far libinput setup got in the constructor. */
  datatype Setup = NoUdev | NoLibinput | NoSeat | Ready

  /** Which external process of the calibration chain is awaited. */
  datatype Step = NoStep | LoadScript | StartScript | ReadJournal | UnloadScript

  class CursorProvider {
    /** libinput events are delivered (a context with an assigned seat and
        its socket notifier). */
    var hasContext: bool
    var rawX: real
    var rawY: real
    var mouseX: real
    var mouseY: real
    var screenWidth: real
    var screenHeight: real
    /** A position change not yet announced. */
    var dirty: bool
    /** When the single-shot emit timer was started; `None` while inactive. */
    var emitTimerStartedAt: Option<int>
    /** How many times `positionChanged` has been emitted. */
    var emitted: nat
    var calibrating: bool
    var lastCalibration: Option<int>
    var lastMovement: Option<int>
    var awaiting: Step

    /** A calibration is in progress exactly while one of its processes is
        awaited. */
    predicate Valid()
      reads this
    {
      calibrating <==> awaiting != NoStep
    }

    function Pos(): Position
      reads this
    {
      Position(rawX, rawY, mouseX, mouseY)
    }

    function MouseX(): (x: real)
      reads this
      ensures x == mouseX
    {
      mouseX
    }

    function MouseY(): (y: real)
      reads this
      ensures y == mouseY
    {
      mouseY
    }

    function ScreenWidth(): (w: real)
      reads this
      ensures w == screenWidth
    {
      screenWidth
    }

    function ScreenHeight(): (h: real)
      reads this
      ensures h == screenHeight
    {
      screenHeight
    }

    /** Setup, the first dispatch, the timers, the first calibration. */
    constructor(setup: Setup, now: int, scriptExists: bool, writeOk: bool)
      ensures Valid()
      ensures hasContext == (setup == Ready)
      ensures Pos() == Position(0.0, 0.0, 0.0, 0.0)
      ensures screenWidth == DefaultScreenWidth && screenHeight == DefaultScreenHeight
      ensures !dirty && emitTimerStartedAt == None && emitted == 0
      ensures setup != Ready ==> !calibrating && lastCalibration == None && lastMovement == None
      ensures setup != Ready ==> awaiting == NoStep
      ensures setup == Ready ==>
        calibrating == (scriptExists || writeOk) && lastCalibration == Some(now) && lastMovement == Some(now) &&
        awaiting == if scriptExists || writeOk then LoadScript else NoStep
    {
      hasContext := false;
      rawX, rawY, mouseX, mouseY := 0.0, 0.0, 0.0, 0.0;
      screenWidth, screenHeight := DefaultScreenWidth, DefaultScreenHeight;
      dirty := false;
      emitTimerStartedAt := None;
      emitted := 0;
      calibrating := false;
      lastCalibration := None;
      lastMovement := None;
      awaiting := NoStep;
      new;
      if setup == Ready {
        hasContext := true;
        UnsetTimersNeverBlock(now);
        Calibrate(now, scriptExists, writeOk);
        lastCalibration := Some(now);
        lastMovement := Some(now);
      }
    }

    method SetScreenWidth(w: real)
      modifies this
      ensures screenWidth == w
      ensures Pos() == old(Pos()) && emitted == old(emitted)
      ensures unchanged(this`hasContext, this`screenHeight, this`dirty, this`emitTimerStartedAt,
        this`calibrating, this`lastCalibration, this`lastMovement, this`awaiting)
    {
      screenWidth := w;
    }

    method SetScreenHeight(h: real)
      modifies this
      ensures screenHeight == h
      ensures Pos() == old(Pos()) && emitted == old(emitted)
      ensures unchanged(this`hasContext, this`screenWidth, this`dirty, this`emitTimerStartedAt,
        this`calibrating, this`lastCalibration, this`lastMovement, this`awaiting)
    {
      screenHeight := h;
    }

    /** Marks the position dirty; starts the emit timer unless it runs. */
    method SchedulePositionUpdate(now: int)
      modifies this`dirty, this`emitTimerStartedAt
      ensures dirty
      ensures emitTimerStartedAt == if old(emitTimerStartedAt).Some? then old(emitTimerStartedAt) else Some(now)
    {
      dirty := true;
      if emitTimerStartedAt.None? {
        emitTimerStartedAt := Some(now);
      }
    }

    /** One event of a dispatch: the body of `handleEvents`' loop. */
    method HandleEvent(ev: InputEvent, now: int)
      requires screenWidth != 0.0 && screenHeight != 0.0
      modifies this`rawX, this`rawY, this`mouseX, this`mouseY, this`dirty, this`emitTimerStartedAt, this`lastMovement
      ensures Pos() == ApplyEvent(old(Pos()), ev, screenWidth, screenHeight)
      ensures IsMotion(ev) ==>
        dirty && lastMovement == Some(now) &&
        emitTimerStartedAt == if old(emitTimerStartedAt).Some? then old(emitTimerStartedAt) else Some(now)
      ensures !IsMotion(ev) ==>
        dirty == old(dirty) && emitTimerStartedAt == old(emitTimerStartedAt) && lastMovement == old(lastMovement)
    {
      match ev {
        case RelativeMotion(dx, dy) =>
          rawX := rawX + dx;
          rawY := rawY + dy;
          rawX := Bound(0.0, rawX, screenWidth);
          rawY := Bound(0.0, rawY, screenHeight);
          mouseX := rawX / screenWidth;
          mouseY := rawY / screenHeight;
          SchedulePositionUpdate(now);
          lastMovement := Some(now);
        case AbsoluteMotion(x, y) =>
          mouseX := x;
          mouseY := y;
          rawX := mouseX * screenWidth;
          rawY := mouseY * screenHeight;
          SchedulePositionUpdate(now);
          lastMovement := Some(now);
        case OtherEvent =>
      }
    }

    /** Handles every event of one libinput dispatch at time `now`. */
    method HandleEvents(events: seq<InputEvent>, now: int)
      requires hasContext ==> screenWidth != 0.0 && screenHeight != 0.0
      modifies this`rawX, this`rawY, this`mouseX, this`mouseY, this`dirty, this`emitTimerStartedAt, this`lastMovement
      ensures !hasContext ==> unchanged(this)
      ensures hasContext ==> Pos() == ApplyEvents(old(Pos()), events, screenWidth, screenHeight)
      ensures hasContext && AnyMotion(events) ==>
        dirty && lastMovement == Some(now) &&
        emitTimerStartedAt == if old(emitTimerStartedAt).Some? then old(emitTimerStartedAt) else Some(now)
      ensures hasContext && !AnyMotion(events) ==>
        dirty == old(dirty) && emitTimerStartedAt == old(emitTimerStartedAt) && lastMovement == old(lastMovement)
    {
      if !hasContext {
        return;
      }
      var i := 0;
      while i < |events|
        invariant 0 <= i <= |events|
        invariant Pos() == ApplyEvents(old(Pos()), events[..i], screenWidth, screenHeight)
        invariant AnyMotion(events[..i]) ==>
          dirty && lastMovement == Some(now) &&
          emitTimerStartedAt == if old(emitTimerStartedAt).Some? then old(emitTimerStartedAt) else Some(now)
        invariant !AnyMotion(events[..i]) ==>
          dirty == old(dirty) && emitTimerStartedAt == old(emitTimerStartedAt) && lastMovement == old(lastMovement)
      {
        HandleEvent(events[i], now);
        assert events[..i + 1][..i] == events[..i];
        i := i + 1;
      }
      assert events[..i] == events;
    }

    /** Announces a pending position change, once. */
    method EmitIfDirty()
      modifies this`dirty, this`emitted
      ensures !dirty
      ensures emitted == if old(dirty) then old(emitted) + 1 else old(emitted)
    {
      if dirty {
        dirty := false;
        emitted := emitted + 1;
      }
    }

    /** The single-shot emit timer runs out. */
    method EmitTimerFired()
      requires emitTimerStartedAt.Some?
      modifies this`dirty, this`emitted, this`emitTimerStartedAt
      ensures emitTimerStartedAt == None && !dirty
      ensures emitted == if old(dirty) then old(emitted) + 1 else old(emitted)
    {
      emitTimerStartedAt := None;
      EmitIfDirty();
    }

    /** Starts a calibration unless the guard holds it back; `scriptExists`
        and `writeOk` stand for the script file on disk and for writing it. */
    method Calibrate(now: int, scriptExists: bool, writeOk: bool)
      requires Valid()
      modifies this`calibrating, this`lastCalibration, this`awaiting
      ensures Valid()
      ensures CalibrationBlocked(old(calibrating), old(lastCalibration), old(lastMovement), now) ==>
        calibrating == old(calibrating) && lastCalibration == old(lastCalibration) && awaiting == old(awaiting)
      ensures !CalibrationBlocked(old(calibrating), old(lastCalibration), old(lastMovement), now) ==>
        lastCalibration == Some(now) && calibrating == (scriptExists || writeOk) &&
        awaiting == if scriptExists || writeOk then LoadScript else NoStep
    {
      if calibrating {
        return;
      }
      if lastCalibration.Some? && now - lastCalibration.value < CalibrationCooldown {
        return;
      }
      if lastMovement.Some? && now - lastMovement.value < MovementQuiet {
        return;
      }
      calibrating := true;
      lastCalibration := Some(now);
      if !scriptExists && !writeOk {
        calibrating := false;
        return;
      }
      awaiting := LoadScript;
    }

    /** The process loading the script finished with `exitCode`. */
    method OnScriptLoaded(exitCode: int)
      requires Valid() && awaiting == LoadScript
      modifies this`calibrating, this`awaiting
      ensures Valid()
      ensures exitCode != 0 ==> !calibrating && awaiting == NoStep
      ensures exitCode == 0 ==> calibrating && awaiting == StartScript
    {
      if exitCode != 0 {
        calibrating := false;
        awaiting := NoStep;
        return;
      }
      awaiting := StartScript;
    }

    /** The process starting the script finished with `exitCode`; the 50 ms
        wait before reading the journal is not modelled. */
    method OnScriptStarted(exitCode: int)
      requires Valid() && awaiting == StartScript
      modifies this`calibrating, this`awaiting
      ensures Valid()
      ensures exitCode != 0 ==> !calibrating && awaiting == NoStep
      ensures exitCode == 0 ==> calibrating && awaiting == ReadJournal
    {
      if exitCode != 0 {
        calibrating := false;
        awaiting := NoStep;
        return;
      }
      awaiting := ReadJournal;
    }

    /** The journal reader finished; `output` is its standard output. */
    method OnJournalRead(exitCode: int, output: string)
      requires Valid() && awaiting == ReadJournal
      requires screenWidth != 0.0 && screenHeight != 0.0
      modifies this`rawX, this`rawY, this`mouseX, this`mouseY, this`emitted, this`awaiting
      ensures Valid() && awaiting == UnloadScript
      ensures ParseCursorLine(output).Some? ==>
        var x, y := ParseCursorLine(output).value.0 as real, ParseCursorLine(output).value.1 as real;
        Pos() == Position(x, y, x / screenWidth, y / screenHeight) && emitted == old(emitted) + 1
      ensures ParseCursorLine(output).None? ==> Pos() == old(Pos()) && emitted == old(emitted)
    {
      var found := ParseCursorLine(output);
      if found.Some? {
        SetCalibratedPosition(found.value.0, found.value.1);
      }
      awaiting := UnloadScript;
    }

    /** Takes the position the journal reported and announces it at once. */
    method SetCalibratedPosition(x: nat, y: nat)
      requires screenWidth != 0.0 && screenHeight != 0.0
      modifies this`rawX, this`rawY, this`mouseX, this`mouseY, this`emitted
      ensures Pos() == Position(x as real, y as real, x as real / screenWidth, y as real / screenHeight)
      ensures emitted == old(emitted) + 1
    {
      rawX := x as real;
      rawY := y as real;
      mouseX := rawX / screenWidth;
      mouseY := rawY / screenHeight;
      emitted := emitted + 1;
    }

    /** The process unloading the script finished; its exit code is ignored. */
    method OnScriptUnloaded(exitCode: int)
      requires Valid() && awaiting == UnloadScript
      modifies this`calibrating, this`awaiting
      ensures Valid() && !calibrating && awaiting == NoStep
    {
      calibrating := false;
      awaiting := NoStep;
    }
  }

  /** A burst of motion over two dispatches inside one emit-timer period is
      announced once, and the emit timer keeps the start time of the first. */
  method BurstEmitsOnce() returns (announced: nat, startedAt: Option<int>)
    ensures announced == 1 && startedAt == Some(1000)
  {
    var c := new CursorProvider(Ready, 0, true, true);
    c.HandleEvents([RelativeMotion(5.0, 5.0), OtherEvent], 1000);
    AnyMotionIff([RelativeMotion(5.0, 5.0), OtherEvent]);
    c.HandleEvents([AbsoluteMotion(0.5, 0.5)], 1008);
    AnyMotionIff([AbsoluteMotion(0.5, 0.5)]);
    startedAt := c.emitTimerStartedAt;
    c.EmitTimerFired();
    announced := c.emitted;
  }

  /** A successful calibration whose journal output holds the position
      `(x, y)` (as the logged line of `ParseLogged` does) moves the cursor
      there, unclamped, announces it at once and ends. */
  method CalibrationSetsPosition(output: string, x: nat, y: nat) returns (mx: real, my: real, announced: nat, busy: bool)
    requires ParseCursorLine(output) == Some((x, y))
    ensures mx == x as real / DefaultScreenWidth && my == y as real / DefaultScreenHeight
    ensures announced == 1 && !busy
  {
    var c := new CursorProvider(Ready, 0, true, true);
    c.OnScriptLoaded(0);
    c.OnScriptStarted(0);
    c.OnJournalRead(0, output);
    c.OnScriptUnloaded(1);
    mx, my, announced, busy := c.MouseX(), c.MouseY(), c.emitted, c.calibrating;
  }

  /** Inside the cooldown after the constructor's calibration has ended, a
      timer-driven calibration is skipped; after it, one starts. */
  method CooldownSkips() returns (early: bool, later: bool)
    ensures !early && later
  {
    var c := new CursorProvider(Ready, 0, true, false);
    c.OnScriptLoaded(1);
    c.Calibrate(4999, true, false);
    early := c.calibrating;
    c.Calibrate(5000, true, false);
    later := c.calibrating;
  }
}
