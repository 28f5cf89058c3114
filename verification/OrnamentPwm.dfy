/** The ornament's main loop step: software PWM over 128 steps, a new brightness at the first of them,
    and the automatic switch-off. */
module OrnamentPwm {
  import opened Arithmetic
  import opened Ornament

  // ---------- Output bits ----------

  const BITS: seq<bv8> := [1, 2, 4, 8, 16, 32]

  predicate Bit(b: bv8, i: nat)
    requires i < NUM_LEDS
  {
    b & BITS[i] != 0
  }

  lemma OrBit(b: bv8, i: nat, j: nat)
    requires i < NUM_LEDS && j < NUM_LEDS
    ensures Bit(b | BITS[i], j) == (j == i || Bit(b, j))
    ensures !Bit(0, j)
  {
    OneBitEach(i, j);
    assert (b | BITS[i]) & BITS[j] == (b & BITS[j]) | (BITS[i] & BITS[j]);
  }

  lemma OneBitEach(i: nat, j: nat)
    requires i < NUM_LEDS && j < NUM_LEDS
    ensures BITS[i] & BITS[j] == if i == j then BITS[j] else 0
    ensures BITS[j] != 0
  {
  }

  /** Does LED i light up at a step, given its brightness? The check for 0 comes before the table. */
  predicate Lit(gamma: seq<nat>, brightness: nat, step: nat)
    requires brightness < |gamma|
  {
    brightness != 0 && gamma[brightness] > step
  }

  /** The two ports: LEDs 0-3 on PA0-3, LEDs 4 and 5 on PB0-1. */
  datatype Ports = Ports(a: bv8, b: bv8)

  function UpdateOut(p: Ports, leds: bv8): Ports {
    Ports((p.a & 0xF0) | (leds & 0x0F), (p.b & 0xFC) | ((leds >> 4) & 0x03))
  }

  predicate Shows(p: Ports, i: nat)
    requires i < NUM_LEDS
  {
    if i < 4 then Bit(p.a, i) else Bit(p.b, i - 4)
  }

  lemma PortBits(p: Ports, leds: bv8)
    ensures var q := UpdateOut(p, leds);
            && q.a & 1 == leds & 1 && q.a & 2 == leds & 2 && q.a & 4 == leds & 4 && q.a & 8 == leds & 8
            && (q.b & 1 != 0 <==> leds & 16 != 0) && (q.b & 2 != 0 <==> leds & 32 != 0)
            && q.a & 0xF0 == p.a & 0xF0 && q.b & 0xFC == p.b & 0xFC
  {
  }

  /** Each LED's pin takes its bit, and the other pins of the ports keep theirs. */
  lemma UpdateOutShows(p: Ports, leds: bv8)
    ensures forall i | 0 <= i < NUM_LEDS :: Shows(UpdateOut(p, leds), i) == Bit(leds, i)
    ensures UpdateOut(p, leds).a & 0xF0 == p.a & 0xF0 && UpdateOut(p, leds).b & 0xFC == p.b & 0xFC
  {
    PortBits(p, leds);
  }

  // ---------- The state of the firmware ----------

  /** What the build fixes: the brightness maximum and the gamma table. */
  datatype Build = Build(max: nat, gamma: seq<nat>) {
    predicate Valid() { max < TWO8 && max < |gamma| && forall k | 0 <= k < |gamma| :: gamma[k] < TWO8 }
  }

  /** The static variables; `table` is empty while no pattern runs. */
  datatype State = State(pwmFrame: nat, brightness: seq<nat>, frameCount: nat, table: seq<Frame>, pos: Position,
                         ports: Ports)

  predicate Running(s: State) { s.table != [] }

  predicate ValidState(bd: Build, s: State) {
    && bd.Valid()
    && s.pwmFrame <= PWM_STEPS
    && |s.brightness| == NUM_LEDS && (forall i | 0 <= i < NUM_LEDS :: s.brightness[i] <= bd.max)
    && s.frameCount <= AUTO_OFF_FRAMES
    && (Running(s) ==> ValidTable(s.table) && ValidPosition(s.table, s.pos))
  }

  predicate NewCycle(s: State) { s.pwmFrame % PWM_STEPS == 0 }

  /** The automatic switch-off is due. */
  predicate SwitchOffDue(s: State) { NewCycle(s) && s.frameCount >= AUTO_OFF_FRAMES }

  function NewLed(max: nat, state: nat, timer: nat, before: nat): (after: nat)
    requires max < TWO8 && before <= max
    ensures after <= max && after == Bright(max, state, timer, before)
  {
    BrightInRange(max, state, timer, before);
    Bright(max, state, timer, before)
  }

  /** Brightness after one tick of the pattern; it stays as it is at the change of a frame. */
  function NewBrightness(bd: Build, t: seq<Frame>, p: Position, before: seq<nat>): (after: seq<nat>)
    requires bd.Valid() && ValidTable(t) && ValidPosition(t, p)
    requires |before| == NUM_LEDS && forall i | 0 <= i < NUM_LEDS :: before[i] <= bd.max
    ensures |after| == NUM_LEDS && forall i | 0 <= i < NUM_LEDS :: after[i] <= bd.max
  {
    var timer := (p.timer + 1) % TWO16;
    var leds := t[p.frameId].leds;
    if timer == t[p.frameId].duration then before
    else seq(NUM_LEDS, i requires 0 <= i < NUM_LEDS => NewLed(bd.max, leds[i], timer, before[i]))
  }

  function Leds(bd: Build, brightness: seq<nat>, step: nat, i: nat): (out: bv8)
    requires bd.Valid() && |brightness| == NUM_LEDS && (forall j | 0 <= j < NUM_LEDS :: brightness[j] <= bd.max)
    requires i <= NUM_LEDS
  {
    if i == 0 then 0
    else
      var out := Leds(bd, brightness, step, i - 1);
      if Lit(bd.gamma, brightness[i - 1], step) then out | BITS[i - 1] else out
  }

  lemma {:induction false} LedsBits(bd: Build, brightness: seq<nat>, step: nat, i: nat, j: nat)
    requires bd.Valid() && |brightness| == NUM_LEDS && (forall j | 0 <= j < NUM_LEDS :: brightness[j] <= bd.max)
    requires i <= NUM_LEDS && j < NUM_LEDS
    ensures Bit(Leds(bd, brightness, step, i), j) == (j < i && Lit(bd.gamma, brightness[j], step))
  {
    if i == 0 {
      OrBit(0, 0, j);
    } else {
      LedsBits(bd, brightness, step, i - 1, j);
      OrBit(Leds(bd, brightness, step, i - 1), i - 1, j);
    }
  }

  /** One call of update_loop_step. */
  function Step(bd: Build, s: State): (s': State)
    requires ValidState(bd, s) && Running(s)
    ensures ValidState(bd, s')
  {
    if SwitchOffDue(s) then
      s.(pwmFrame := 0, frameCount := 0, table := [], ports := UpdateOut(s.ports, 0))
    else
      var step := s.pwmFrame % PWM_STEPS;
      var s1 := if step != 0 then s
                else s.(frameCount := s.frameCount + 1, pos := Tick(s.table, s.pos),
                        brightness := NewBrightness(bd, s.table, s.pos, s.brightness));
      s1.(pwmFrame := step + 1, ports := UpdateOut(s.ports, Leds(bd, s1.brightness, step, NUM_LEDS)))
  }

  // ---------- A PWM cycle ----------

  /** n steps into a cycle that starts in s. */
  function Steps(bd: Build, s: State, n: nat): (s': State)
    requires ValidState(bd, s) && Running(s) && NewCycle(s) && !SwitchOffDue(s) && n <= PWM_STEPS
    ensures ValidState(bd, s') && Running(s')
    ensures n > 0 ==> s'.pwmFrame == n
  {
    if n == 0 then s else Step(bd, Steps(bd, s, n - 1))
  }

  /** During a cycle the brightness is that of its first step, and so are position and frame count. */
  lemma {:induction false} CycleIsSteady(bd: Build, s: State, n: nat)
    requires ValidState(bd, s) && Running(s) && NewCycle(s) && !SwitchOffDue(s) && 0 < n <= PWM_STEPS
    ensures var s1, sn := Step(bd, s), Steps(bd, s, n);
            && sn.brightness == s1.brightness && sn.pos == s1.pos && sn.table == s1.table
            && sn.frameCount == s1.frameCount == s.frameCount + 1
            && forall i | 0 <= i < NUM_LEDS :: Shows(sn.ports, i) == Lit(bd.gamma, s1.brightness[i], n - 1)
  {
    var before := Steps(bd, s, n - 1);
    var s1 := Step(bd, s);
    if n == 1 {
      assert Steps(bd, s, 0) == s;
    } else {
      CycleIsSteady(bd, s, n - 1);
    }
    UpdateOutShows(before.ports, Leds(bd, s1.brightness, n - 1, NUM_LEDS));
    forall i | 0 <= i < NUM_LEDS
      ensures Bit(Leds(bd, s1.brightness, n - 1, NUM_LEDS), i) == Lit(bd.gamma, s1.brightness[i], n - 1)
    {
      LedsBits(bd, s1.brightness, n - 1, NUM_LEDS, i);
    }
  }

  /** In how many of the first n steps of a cycle LED i is on. */
  function OnTime(bd: Build, s: State, n: nat, i: nat): nat
    requires ValidState(bd, s) && Running(s) && NewCycle(s) && !SwitchOffDue(s) && n <= PWM_STEPS
    requires i < NUM_LEDS
  {
    if n == 0 then 0 else OnTime(bd, s, n - 1, i) + if Shows(Steps(bd, s, n).ports, i) then 1 else 0
  }

  /** Over the cycle, LED i is on in as many steps as the gamma table says for its brightness, and dark
      at brightness 0; a table entry over 128 would just leave it on. */
  lemma {:induction false} DutyIsGamma(bd: Build, s: State, n: nat, i: nat)
    requires ValidState(bd, s) && Running(s) && NewCycle(s) && !SwitchOffDue(s) && n <= PWM_STEPS
    requires i < NUM_LEDS
    ensures var b := Step(bd, s).brightness[i];
            OnTime(bd, s, n, i) == if b == 0 then 0 else Min(bd.gamma[b], n)
  {
    if n > 0 {
      DutyIsGamma(bd, s, n - 1, i);
      CycleIsSteady(bd, s, n);
    }
  }

  /** A whole cycle leads to the next one, one tick of the pattern and one frame later. */
  lemma NextCycle(bd: Build, s: State)
    requires ValidState(bd, s) && Running(s) && NewCycle(s) && !SwitchOffDue(s)
    ensures var s' := Steps(bd, s, PWM_STEPS);
            NewCycle(s') && s'.pos == Tick(s.table, s.pos) && s'.table == s.table && s'.frameCount == s.frameCount + 1
  {
    CycleIsSteady(bd, s, PWM_STEPS);
  }

  function Cycle(bd: Build, s: State): (s': State)
    requires ValidState(bd, s) && Running(s) && NewCycle(s) && !SwitchOffDue(s)
    ensures ValidState(bd, s') && Running(s') && NewCycle(s')
    ensures s'.pos == Tick(s.table, s.pos) && s'.table == s.table && s'.frameCount == s.frameCount + 1
  {
    NextCycle(bd, s);
    Steps(bd, s, PWM_STEPS)
  }

  /** m cycles from a fresh pattern on, with no touch in between, are m ticks of it. */
  function Cycles(bd: Build, s: State, m: nat): (s': State)
    requires ValidState(bd, s) && Running(s) && NewCycle(s) && s.frameCount == 0 && s.pos == Position(0, 0)
    requires m <= AUTO_OFF_FRAMES
    ensures ValidState(bd, s') && Running(s') && NewCycle(s') && s'.frameCount == m
    ensures s'.table == s.table && s'.pos == Ticks(s.table, m)
  {
    if m == 0 then s else Cycle(bd, Cycles(bd, s, m - 1))
  }

  /** The switch-off comes after 648000 cycles, not before, and turns every LED off. */
  lemma SwitchOffComes(bd: Build, s: State, m: nat)
    requires ValidState(bd, s) && Running(s) && NewCycle(s) && s.frameCount == 0 && s.pos == Position(0, 0)
    requires m <= AUTO_OFF_FRAMES
    ensures SwitchOffDue(Cycles(bd, s, m)) <==> m == 648_000
    ensures m == 648_000 ==>
              var off := Step(bd, Cycles(bd, s, m));
              !Running(off) && off.frameCount == 0 && forall i | 0 <= i < NUM_LEDS :: !Shows(off.ports, i)
  {
    var last := Cycles(bd, s, m);
    if SwitchOffDue(last) {
      UpdateOutShows(last.ports, 0);
      forall i | 0 <= i < NUM_LEDS ensures !Bit(0, i) { OrBit(0, i, i); }
    }
  }

  /** A whole cycle leaves the brightness that its first step computes. */
  lemma CycleBrightness(bd: Build, s: State)
    requires ValidState(bd, s) && Running(s) && NewCycle(s) && !SwitchOffDue(s)
    ensures Cycle(bd, s).brightness == NewBrightness(bd, s.table, s.pos, s.brightness)
  {
    CycleIsSteady(bd, s, PWM_STEPS);
  }

  /** What the table says of an LED at a time within a frame: dark, full, and ramps over 64 frames. */
  function TableLevel(max: nat, state: nat, timer: nat): int {
    if state == 0 then 0
    else if state == 1 then max
    else if state == 2 then if timer < 64 then max * timer / 64 else max
    else if timer < 64 then max - max * timer / 64 else 0
  }

  /** After m cycles from a fresh pattern on, at time u > 0 within frame i, each LED has the brightness that
      its own state in that frame says, in terms of the time m modulo the total duration. */
  lemma BrightnessFromTable(bd: Build, s: State, m: nat, i: nat, u: nat, led: nat)
    requires ValidState(bd, s) && Running(s) && NewCycle(s) && s.frameCount == 0 && s.pos == Position(0, 0)
    requires m <= AUTO_OFF_FRAMES && led < NUM_LEDS
    requires i < |s.table| - 1 && 0 < u < s.table[i].duration && s.table[i].leds[led] <= 3
    requires StartOf(s.table, i) + u == m % Total(s.table)
    ensures Cycles(bd, s, m).brightness[led] == TableLevel(bd.max, s.table[i].leds[led], u)
  {
    var t := s.table;
    TicksKeepTime(t, m);
    PositionIsUnique(t, Ticks(t, m), Position(i, u));
    assert m > 0;
    var before := Cycles(bd, s, m - 1);
    CycleBrightness(bd, before);
    assert before.pos == Position(i, u - 1) by {
      TickBefore(t, Ticks(t, m - 1), i, u);
    }
    if u < RAMP_TIME {
      RampInRange(bd.max, u);
    }
  }

  lemma TickBefore(t: seq<Frame>, p: Position, i: nat, u: nat)
    requires ValidTable(t) && ValidPosition(t, p) && Tick(t, p) == Position(i, u) && u > 0
    ensures p == Position(i, u - 1)
  {
  }

  lemma TickIntoFrame(t: seq<Frame>, p: Position, i: nat)
    requires ValidTable(t) && ValidPosition(t, p) && Tick(t, p) == Position(i, 0)
    ensures (p.timer + 1) % TWO16 == t[p.frameId].duration
  {
  }

  /** At the first moment of a frame it still is what it was at the last moment of the frame before. */
  lemma BrightnessAtFrameStart(bd: Build, s: State, m: nat, i: nat)
    requires ValidState(bd, s) && Running(s) && NewCycle(s) && s.frameCount == 0 && s.pos == Position(0, 0)
    requires 0 < m <= AUTO_OFF_FRAMES && i < |s.table| - 1 && StartOf(s.table, i) == m % Total(s.table)
    ensures Cycles(bd, s, m).brightness == Cycles(bd, s, m - 1).brightness
  {
    var t := s.table;
    TicksKeepTime(t, m);
    PositionIsUnique(t, Ticks(t, m), Position(i, 0));
    var before := Cycles(bd, s, m - 1);
    CycleBrightness(bd, before);
    assert before.pos == Ticks(t, m - 1);
    TickIntoFrame(t, before.pos, i);
  }

  // ---------- The gamma table ----------

  function Times(n: nat, level: nat): (s: seq<nat>)
    ensures |s| == n && forall k | 0 <= k < n :: s[k] == level
  {
    seq(n, _ => level)
  }

  /** gamma.c: 128 entries in runs of equal levels. */
  function Gamma(): (g: seq<nat>)
    ensures |g| == 128 && forall k | 0 <= k < |g| :: g[k] <= 16
  {
    Times(25, 0) + Times(22, 1) + Times(12, 2) + Times(9, 3) + Times(8, 4) + Times(6, 5) + Times(6, 6) +
    Times(6, 7) + Times(5, 8) + Times(4, 9) + Times(5, 10) + Times(4, 11) + Times(4, 12) + Times(3, 13)
    + Times(4, 14) + Times(3, 15) + Times(2, 16)
  }

  function Power5(n: nat): nat { n * n * n * n * n }

  /** n is 16 * (i / 128) to the power of 2.5, plus 0.75, rounded down: as both sides are squared, the
      formula of gentable.py for 128 steps and maximum 16 in integers. */
  predicate IsGammaLevel(i: nat, n: nat) {
    (n > 0 ==> (4 * n - 3) * (4 * n - 3) * 0x80_0000 <= Power5(i)) && Power5(i) < (4 * n + 1) * (4 * n + 1) * 0x80_0000
  }

  lemma Power5Grows(a: nat, b: nat)
    requires a <= b
    ensures Power5(a) <= Power5(b)
  {
    var a2, b2 := a * a, b * b;
    MulBoth(a, b, a, b);
    MulBoth(a2, b2, a, b);
    MulBoth(a2 * a, b2 * b, a, b);
    MulBoth(a2 * a * a, b2 * b * b, a, b);
  }

  lemma MulBoth(a: nat, b: nat, c: nat, d: nat)
    requires a <= b && c <= d
    ensures a * c <= b * d
  {
    MulMono(a, c, d);
    MulMono(d, a, b);
  }

  /** A run of equal levels that starts and ends within the bounds of its level is right throughout. */
  lemma RunIsRight(first: nat, last: nat, n: nat, i: nat)
    requires first <= i <= last && IsGammaLevel(first, n) && IsGammaLevel(last, n)
    ensures IsGammaLevel(i, n)
  {
    Power5Grows(first, i);
    Power5Grows(i, last);
  }

  /** The shipped table is what the generator's formula gives. */
  lemma GammaIsTheFormula(i: nat)
    requires i < 128
    ensures IsGammaLevel(i, Gamma()[i])
  {
    if i < 25 { RunIsRight(0, 24, 0, i); }
    else if i < 47 { RunIsRight(25, 46, 1, i); }
    else if i < 59 { RunIsRight(47, 58, 2, i); }
    else if i < 68 { RunIsRight(59, 67, 3, i); }
    else if i < 76 { RunIsRight(68, 75, 4, i); }
    else if i < 82 { RunIsRight(76, 81, 5, i); }
    else if i < 88 { RunIsRight(82, 87, 6, i); }
    else if i < 94 { RunIsRight(88, 93, 7, i); }
    else if i < 99 { RunIsRight(94, 98, 8, i); }
    else if i < 103 { RunIsRight(99, 102, 9, i); }
    else if i < 108 { RunIsRight(103, 107, 10, i); }
    else if i < 112 { RunIsRight(108, 111, 11, i); }
    else if i < 116 { RunIsRight(112, 115, 12, i); }
    else if i < 119 { RunIsRight(116, 118, 13, i); }
    else if i < 123 { RunIsRight(119, 122, 14, i); }
    else if i < 126 { RunIsRight(123, 125, 15, i); }
    else { RunIsRight(126, 127, 16, i); }
  }

  /** With this table every maximum up to 127 makes a valid build. */
  lemma GammaBuild(max: nat)
    ensures Build(max, Gamma()).Valid() <==> max <= 127
  {
  }

  /** Looking up a table of n entries is safe for every LED state exactly when the maximum is below n. */
  lemma LookupIsSafe(max: nat, n: nat)
    requires max < TWO8
    ensures (forall state: nat, timer: nat, before: nat | before <= max ::
              Bright(max, state, timer, before) < n) <==> max < n
  {
    forall state: nat, timer: nat, before: nat | before <= max
      ensures Bright(max, state, timer, before) <= max
    {
      BrightInRange(max, state, timer, before);
    }
    assert Bright(max, ON, 0, 0) == max;
  }

  /** The default maximum, one PWM resolution, is one too many: an LED that is on reads past the end. */
  lemma DefaultMaximumOverruns(timer: nat, before: nat)
    ensures Bright(PWM_STEPS, ON, timer, before) == |Gamma()|
  {
  }

  // ---------- The firmware, updating its variables in place ----------

  class Firmware {
    const build: Build
    const patterns: seq<seq<Frame>>
    const brightness: array<nat>
    var pwmFrame: nat
    var frameCount: nat
    var patternId: nat
    var table: seq<Frame>
    var frameId: nat
    var frameTimer: nat
    var ports: Ports

    ghost predicate Valid()
      reads this, brightness
    {
      && ValidState(build, View())
      && patternId < |patterns|
      && forall k | 0 <= k < |patterns| :: ValidTable(patterns[k])
    }

    ghost function View(): State
      reads this, brightness
    {
      State(pwmFrame, brightness[..], frameCount, table, Position(frameId, frameTimer), ports)
    }

    constructor (build: Build, patterns: seq<seq<Frame>>)
      requires build.Valid() && |patterns| > 0 && forall k | 0 <= k < |patterns| :: ValidTable(patterns[k])
      ensures Valid() && !Running(View()) && this.patterns == patterns && this.build == build && patternId == 0
      ensures fresh(brightness)
    {
      this.build, this.patterns := build, patterns;
      brightness := new nat[NUM_LEDS](_ => 0);
      pwmFrame, frameCount, patternId, table, frameId, frameTimer := 0, 0, 0, [], 0, 0;
      ports := Ports(0, 0);
    }

    /** `next_pattern`: the patterns take turns, and each starts afresh. */
    method NextPattern()
      requires Valid()
      modifies this`patternId, this`table, this`frameId, this`frameTimer
      ensures Valid() && patternId == (old(patternId) + 1) % |patterns|
      ensures View() == old(View()).(table := patterns[patternId], pos := Position(0, 0)) && Running(View())
    {
      WrapStep(patternId, |patterns|);
      patternId := patternId + 1;
      if patternId == |patterns| {
        patternId := 0;
      }
      table, frameId, frameTimer := patterns[patternId], 0, 0;
    }

    method GetBrightnessFromPattern()
      requires Valid() && Running(View())
      modifies this`frameId, this`frameTimer, brightness
      ensures View() == old(View()).(pos := Tick(table, old(View()).pos),
                                     brightness := NewBrightness(build, table, old(View()).pos, old(View()).brightness))
    {
      ghost var before := brightness[..];
      frameTimer := (frameTimer + 1) % TWO16;
      var frame := table[frameId];
      if frameTimer == frame.duration {
        frameTimer := 0;
        frameId := (frameId + 1) % TWO8;
        if table[frameId].duration == 0 {
          frameId := 0;
        }
        return;
      }
      Interpolate(frame.leds, frameTimer);
      assert brightness[..] == NewBrightness(build, table, Position(frameId, old(frameTimer)), before);
    }

    /** The loop over the LEDs of a frame. */
    method Interpolate(leds: seq<nat>, timer: nat)
      requires build.max < TWO8 && |leds| == NUM_LEDS == brightness.Length
      requires forall j | 0 <= j < NUM_LEDS :: brightness[j] <= build.max
      modifies brightness
      ensures forall j | 0 <= j < NUM_LEDS :: brightness[j] == NewLed(build.max, leds[j], timer, old(brightness[j]))
    {
      for i := 0 to NUM_LEDS
        invariant forall j | 0 <= j < i :: brightness[j] == NewLed(build.max, leds[j], timer, old(brightness[j]))
        invariant forall j | i <= j < NUM_LEDS :: brightness[j] == old(brightness[j])
      {
        brightness[i] := NewLed(build.max, leds[i], timer, brightness[i]);
      }
    }

    method PwmFrameUpdate(frameNo: nat)
      requires Valid()
      modifies this`ports
      ensures View() == old(View()).(ports := UpdateOut(old(ports), Leds(build, brightness[..], frameNo, NUM_LEDS)))
    {
      var out: bv8 := 0;
      for i := 0 to NUM_LEDS
        invariant out == Leds(build, brightness[..], frameNo, i)
      {
        if brightness[i] == 0 {
          continue;
        }
        var bright := build.gamma[brightness[i]];
        if bright > frameNo {
          out := out | BITS[i];
        }
      }
      ports := UpdateOut(ports, out);
    }

    /** One step of the main loop; only a running pattern gets here. */
    method UpdateLoopStep()
      requires Valid() && Running(View())
      modifies this, brightness
      ensures Valid() && View() == Step(build, old(View()))
    {
      pwmFrame := pwmFrame % PWM_STEPS;
      if pwmFrame == 0 {
        if frameCount >= AUTO_OFF_FRAMES {
          frameCount := 0;
          table := [];
          ports := UpdateOut(ports, 0);
          return;
        }
        frameCount := frameCount + 1;
        GetBrightnessFromPattern();
      }
      PwmFrameUpdate(pwmFrame);
      pwmFrame := pwmFrame + 1;
    }
  }
}
