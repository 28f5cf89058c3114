/** The LED ornament: a periodic pattern of frames, brightness interpolated within a frame, and
    software PWM that turns brightness into on-time. */
module Ornament {
  import opened Arithmetic

  const NUM_LEDS := 6
  const RAMP_TIME := 0x40
  const PWM_STEPS := 0x80
  const AUTO_OFF_FRAMES := 3 * 60 * 60 * 60
  const TWO8 := 0x100
  const TWO16 := 0x1_0000
  const TWO24 := 0x100_0000

  // ---------- The pattern automaton ----------

  const OFF := 0
  const ON := 1
  const RAMP_UP := 2
  const RAMP_DN := 3

  datatype Frame = Frame(duration: nat, leds: seq<nat>)

  /** Frames that fit their integer types, ended by a frame of duration 0 that an 8-bit index reaches. */
  predicate ValidTable(t: seq<Frame>) {
    && 2 <= |t| <= TWO8
    && t[|t| - 1].duration == 0
    && (forall i | 0 <= i < |t| - 1 :: 0 < t[i].duration < TWO16)
    && (forall i | 0 <= i < |t| :: |t[i].leds| == NUM_LEDS)
  }

  /** `pattern_t` without its table: the current frame and the time spent in it. */
  datatype Position = Position(frameId: nat, timer: nat)

  predicate ValidPosition(t: seq<Frame>, p: Position)
    requires ValidTable(t)
  {
    p.frameId < |t| - 1 && p.timer < t[p.frameId].duration
  }

  /** One call of get_brightness_from_pattern, as far as the position goes. */
  function Tick(t: seq<Frame>, p: Position): (p': Position)
    requires ValidTable(t) && ValidPosition(t, p)
    ensures ValidPosition(t, p')
  {
    var timer := (p.timer + 1) % TWO16;
    if timer == t[p.frameId].duration then
      var next := (p.frameId + 1) % TWO8;
      Position(if t[next].duration == 0 then 0 else next, 0)
    else Position(p.frameId, timer)
  }

  function Ticks(t: seq<Frame>, k: nat): (p: Position)
    requires ValidTable(t)
    ensures ValidPosition(t, p)
  {
    if k == 0 then Position(0, 0) else Tick(t, Ticks(t, k - 1))
  }

  /** The time at which frame i starts. */
  function StartOf(t: seq<Frame>, i: nat): nat
    requires i <= |t|
  {
    if i == 0 then 0 else StartOf(t, i - 1) + t[i - 1].duration
  }

  function Total(t: seq<Frame>): nat
    requires ValidTable(t)
  {
    StartOf(t, |t| - 1)
  }

  function TimeOf(t: seq<Frame>, p: Position): nat
    requires ValidTable(t) && ValidPosition(t, p)
  {
    StartOf(t, p.frameId) + p.timer
  }

  lemma {:induction false} StartsIncrease(t: seq<Frame>, i: nat, j: nat)
    requires ValidTable(t) && i < j < |t|
    ensures StartOf(t, i) + t[i].duration <= StartOf(t, j)
  {
    if i + 1 < j {
      StartsIncrease(t, i, j - 1);
    }
  }

  /** A time within the cycle belongs to one position only. */
  lemma PositionIsUnique(t: seq<Frame>, p: Position, q: Position)
    requires ValidTable(t) && ValidPosition(t, p) && ValidPosition(t, q)
    requires TimeOf(t, p) == TimeOf(t, q)
    ensures p == q
  {
    if p.frameId < q.frameId { StartsIncrease(t, p.frameId, q.frameId); }
    if q.frameId < p.frameId { StartsIncrease(t, q.frameId, p.frameId); }
  }

  lemma TimeWithinCycle(t: seq<Frame>, p: Position)
    requires ValidTable(t) && ValidPosition(t, p)
    ensures TimeOf(t, p) < Total(t)
  {
    StartsIncrease(t, p.frameId, |t| - 1);
  }

  lemma TickTakesOne(t: seq<Frame>, p: Position)
    requires ValidTable(t) && ValidPosition(t, p)
    ensures TimeOf(t, Tick(t, p)) == if TimeOf(t, p) + 1 == Total(t) then 0 else TimeOf(t, p) + 1
  {
    if p.timer + 1 == t[p.frameId].duration {
      assert StartOf(t, p.frameId + 1) == TimeOf(t, p) + 1;
      if p.frameId + 1 < |t| - 1 {
        StartsIncrease(t, p.frameId + 1, |t| - 1);
      }
    } else {
      TimeWithinCycle(t, Tick(t, p));
    }
  }

  /** After k calls the automaton is at time k of its cycle, for every table: it never shows the
      sentinel, and no 8- or 16-bit counter wraps on the way. */
  lemma {:induction false} TicksKeepTime(t: seq<Frame>, k: nat)
    requires ValidTable(t)
    ensures Total(t) > 0 && TimeOf(t, Ticks(t, k)) == k % Total(t)
  {
    TimeWithinCycle(t, Position(0, 0));
    if k > 0 {
      TicksKeepTime(t, k - 1);
      TickTakesOne(t, Ticks(t, k - 1));
      ModStep(k - 1, Total(t));
    }
  }

  /** So the pattern repeats, and exactly with its total duration. */
  lemma PatternRepeats(t: seq<Frame>, j: nat, k: nat)
    requires ValidTable(t)
    ensures Total(t) > 0 && (Ticks(t, j) == Ticks(t, k) <==> j % Total(t) == k % Total(t))
  {
    TicksKeepTime(t, j);
    TicksKeepTime(t, k);
    if j % Total(t) == k % Total(t) {
      PositionIsUnique(t, Ticks(t, j), Ticks(t, k));
    }
  }

  // ---------- Brightness ----------

  /** max * timer / RAMP_TIME in 24 bits, cut to 8. */
  function Ramp(max: nat, timer: nat): nat { max * timer % TWO24 / RAMP_TIME % TWO8 }

  /** The brightness of one LED at a time within a frame; an unknown state leaves it as it was. */
  function Bright(max: nat, state: nat, timer: nat, before: nat): int {
    if state == OFF then 0
    else if state == ON then max
    else if state == RAMP_UP then if timer < RAMP_TIME then Ramp(max, timer) else max
    else if state == RAMP_DN then if timer < RAMP_TIME then max - Ramp(max, timer) else 0
    else before
  }

  lemma RampInRange(max: nat, timer: nat)
    requires max < TWO8 && timer < RAMP_TIME
    ensures Ramp(max, timer) == max * timer / RAMP_TIME <= max
  {
    MulMono(max, timer, 63);
    NothingCutOff(max, max * timer);
  }

  lemma NothingCutOff(max: nat, product: nat)
    requires max < TWO8 && product <= max * 63
    ensures product % TWO24 / RAMP_TIME % TWO8 == product / RAMP_TIME <= max
  {
    assert product % TWO24 == product;
  }

  /** Brightness stays within its 8 bits and never exceeds the maximum. */
  lemma BrightInRange(max: nat, state: nat, timer: nat, before: nat)
    requires max < TWO8 && before <= max
    ensures 0 <= Bright(max, state, timer, before) <= max
  {
    if timer < RAMP_TIME { RampInRange(max, timer); }
  }

  /** A ramp up and a ramp down at the same time add up to the maximum: a cross-fade keeps its light. */
  lemma CrossFade(max: nat, timer: nat, a: nat, b: nat)
    requires max < TWO8
    ensures Bright(max, RAMP_UP, timer, a) + Bright(max, RAMP_DN, timer, b) == max
  {
  }

  /** A ramp up never dims, and goes from dark to full. */
  lemma RampUpIsMonotone(max: nat, timer: nat, later: nat, a: nat)
    requires max < TWO8 && timer <= later
    ensures Bright(max, RAMP_UP, timer, a) <= Bright(max, RAMP_UP, later, a)
    ensures Bright(max, RAMP_UP, 0, a) == 0 && (timer >= RAMP_TIME ==> Bright(max, RAMP_UP, timer, a) == max)
  {
    if timer < RAMP_TIME { RampInRange(max, timer); }
    if later < RAMP_TIME {
      RampInRange(max, later);
      MulMono(max, timer, later);
    }
  }
}
