/**
 The cursor's magnification. Each request starts an eased move from wherever the last
 one has got to; every frame samples it. Arithmetic is over the reals, so what is
 proved is the curve and the hand-over between requests.
 */
module CursorClock {
  /** The statics, times in microseconds and durations in seconds. */
  datatype Clock = Clock(from: real, target: real, duration: real, started: int)

  const Still := Clock(1.0, 1.0, 0.0, 0)

  const MICROS := 1_000_000.0

  /** A cubic in and out: slow at both ends. */
  function Ease(t: real): real {
    if t < 0.5 then 4.0 * t * t * t else 1.0 - (-2.0 * t + 2.0) * (-2.0 * t + 2.0) * (-2.0 * t + 2.0) / 2.0
  }

  /** How far a move is, not before its start. */
  function Progress(c: Clock, now: int): real
    requires c.duration > 0.0
  {
    var t := (now - c.started) as real / (c.duration * MICROS);
    if t < 0.0 then 0.0 else t
  }

  function Sample(c: Clock, now: int): real {
    if c.duration <= 0.0 || Progress(c, now) >= 1.0 then c.target
    else c.from + (c.target - c.from) * Ease(Progress(c, now))
  }

  /** declare_cursor_magnification: a sample past the end stops the clock. */
  function Settled(c: Clock, now: int): Clock {
    if c.duration > 0.0 && Progress(c, now) >= 1.0 then c.(duration := 0.0) else c
  }

  /** declare_cursor_magnify */
  function Magnify(c: Clock, scale: real, duration: real, now: int): Clock {
    var from := Sample(c, now);
    Clock(from, scale, if from == scale then 0.0 else duration, now)
  }

  /** root.cursor_magnify's checks: anything else is an error and changes nothing. A cursor
      a client has set is not enlarged. */
  predicate Accepts(scale: real, duration: real) {
    1.0 <= scale <= 16.0 && 0.0 <= duration <= 60.0
  }

  function Request(c: Clock, scale: real, duration: real, themed: bool, now: int): Clock {
    if Accepts(scale, duration) then Magnify(c, if themed then scale else 1.0, duration, now) else c
  }

  // --- the curve ---

  lemma MulMono(a: real, x: real, y: real)
    requires 0.0 <= a && x <= y
    ensures a * x <= a * y
  {
  }

  lemma CubeMono(x: real, y: real)
    requires 0.0 <= x <= y
    ensures 0.0 <= x * x * x <= y * y * y
  {
    MulMono(x, x, y);
    MulMono(y, x, y);
    assert 0.0 <= x * x <= y * y;
    MulMono(x, x * x, y * y);
    MulMono(y * y, x, y);
  }

  lemma EaseBounds(t: real)
    requires 0.0 <= t <= 1.0
    ensures 0.0 <= Ease(t) <= 1.0
    ensures t < 0.5 ==> Ease(t) <= 0.5
    ensures 0.5 <= t ==> 0.5 <= Ease(t)
  {
    if t < 0.5 {
      CubeMono(t, 0.5);
    } else {
      CubeMono(-2.0 * t + 2.0, 1.0);
    }
  }

  lemma EaseMono(s: real, t: real)
    requires 0.0 <= s <= t <= 1.0
    ensures Ease(s) <= Ease(t)
  {
    EaseBounds(s);
    EaseBounds(t);
    if t < 0.5 {
      CubeMono(s, t);
    } else if 0.5 <= s {
      CubeMono(-2.0 * t + 2.0, -2.0 * s + 2.0);
    }
  }

  // --- samples ---

  predicate Between(a: real, x: real, b: real) { a <= x <= b || b <= x <= a }

  predicate Sound(c: Clock) {
    1.0 <= c.from <= 16.0 && 1.0 <= c.target <= 16.0 && 0.0 <= c.duration <= 60.0
  }

  lemma Mix(a: real, b: real, e: real)
    requires 0.0 <= e <= 1.0
    ensures Between(a, a + (b - a) * e, b)
  {
    if a <= b {
      MulMono(b - a, e, 1.0);
      MulMono(b - a, 0.0, e);
    } else {
      MulMono(a - b, e, 1.0);
      MulMono(a - b, 0.0, e);
    }
  }

  lemma SampleBetween(c: Clock, now: int)
    requires Sound(c)
    ensures Between(c.from, Sample(c, now), c.target) && 1.0 <= Sample(c, now) <= 16.0
  {
    if c.duration > 0.0 && Progress(c, now) < 1.0 {
      EaseBounds(Progress(c, now));
      Mix(c.from, c.target, Ease(Progress(c, now)));
    }
  }

  lemma ProgressMono(c: Clock, now: int, later: int)
    requires c.duration > 0.0 && now <= later
    ensures Progress(c, now) <= Progress(c, later)
  {
    var d := c.duration * MICROS;
    var a, b := (now - c.started) as real, (later - c.started) as real;
    assert a <= b;
    DivMono(a, b, d);
  }

  lemma DivMono(a: real, b: real, d: real)
    requires a <= b && d > 0.0
    ensures a / d <= b / d
  {
    assert (b - a) / d >= 0.0;
    assert b / d == a / d + (b - a) / d;
  }

  function Along(a: real, b: real, e: real): real { a + (b - a) * e }

  /** How much of the way a sample has made. */
  function Share(c: Clock, now: int): real {
    if c.duration <= 0.0 || Progress(c, now) >= 1.0 then 1.0 else Ease(Progress(c, now))
  }

  lemma SampleIsShare(c: Clock, now: int)
    ensures Sample(c, now) == Along(c.from, c.target, Share(c, now))
    ensures 0.0 <= Share(c, now) <= 1.0
  {
    if c.duration > 0.0 && Progress(c, now) < 1.0 { EaseBounds(Progress(c, now)); }
  }

  lemma ShareMono(c: Clock, now: int, later: int)
    requires now <= later
    ensures Share(c, now) <= Share(c, later)
  {
    if c.duration > 0.0 {
      ProgressMono(c, now, later);
      if Progress(c, later) < 1.0 {
        EaseMono(Progress(c, now), Progress(c, later));
      } else if Progress(c, now) < 1.0 {
        EaseBounds(Progress(c, now));
      }
    }
  }

  lemma MixMono(a: real, b: real, e: real, f: real)
    requires 0.0 <= e <= f <= 1.0
    ensures Between(Along(a, b, e), Along(a, b, f), b)
  {
    if a <= b {
      MulMono(b - a, e, f);
      MulMono(b - a, f, 1.0);
    } else {
      MulMono(a - b, e, f);
      MulMono(a - b, f, 1.0);
    }
  }

  /** A sample as a share of the way, with the share a plain number. */
  lemma SharesOf(c: Clock, now: int, later: int) returns (e: real, f: real)
    requires now <= later
    ensures 0.0 <= e <= f <= 1.0
    ensures Sample(c, now) == Along(c.from, c.target, e) && Sample(c, later) == Along(c.from, c.target, f)
  {
    SampleIsShare(c, now);
    SampleIsShare(c, later);
    ShareMono(c, now, later);
    e, f := Share(c, now), Share(c, later);
  }

  /** Between requests the samples move from the start to the target and never back. */
  lemma SamplesApproachTheTarget(c: Clock, now: int, later: int)
    requires now <= later
    ensures Between(Sample(c, now), Sample(c, later), c.target)
  {
    var e, f := SharesOf(c, now, later);
    MixMono(c.from, c.target, e, f);
    assert Between(Along(c.from, c.target, e), Along(c.from, c.target, f), c.target);
  }

  /** Stopping the clock at the end changes no later sample. */
  lemma SettlingShowsNothing(c: Clock, now: int, later: int)
    requires now <= later
    ensures Sample(Settled(c, now), later) == Sample(c, later)
  {
    if c.duration > 0.0 && Progress(c, now) >= 1.0 { ProgressMono(c, now, later); }
  }

  /** A request is continuous exactly when it is given time or has nowhere to go. */
  lemma NoJumpIff(c: Clock, scale: real, duration: real, now: int)
    requires Sound(c) && Accepts(scale, duration)
    ensures Sample(Magnify(c, scale, duration, now), now) == Sample(c, now)
            <==> duration > 0.0 || Sample(c, now) == scale
  {
    var m := Magnify(c, scale, duration, now);
    if m.duration > 0.0 {
      assert 0.0 / (m.duration * MICROS) == 0.0;
      assert Progress(m, now) == 0.0;
      assert Ease(0.0) == 0.0;
    }
  }

  lemma Halved(t: real, h: real)
    requires t == 2.0 * h
    ensures 4.0 * h * h * h == t * t * t / 2.0
  {
    assert t * t == 4.0 * (h * h);
    assert t * t * t == 4.0 * (h * h) * (2.0 * h);
  }

  /** The curve is the cubic, mirrored at its middle. */
  lemma EaseIsCubic(t: real)
    requires 0.0 <= t <= 1.0
    ensures Ease(t / 2.0) == t * t * t / 2.0 && Ease(1.0 - t / 2.0) == 1.0 - t * t * t / 2.0
  {
    var h := t / 2.0;
    var u := -2.0 * (1.0 - h) + 2.0;
    assert u == t && u * u * u / 2.0 == t * t * t / 2.0;
    assert Ease(1.0 - h) == 1.0 - u * u * u / 2.0;
    if h < 0.5 {
      assert Ease(h) == 4.0 * h * h * h;
      Halved(t, h);
    }
  }

  lemma HalfOf(x: real, d: real)
    requires d > 0.0 && x == d * 0.5
    ensures x / d == 0.5
  {
  }

  /** When half of its time has passed a move is halfway, whatever it is between. */
  lemma HalfwayInTime(c: Clock, scale: real, duration: real, at: int, now: int)
    requires duration > 0.0 && (now - at) as real == duration * 500_000.0
    ensures Sample(Magnify(c, scale, duration, at), now) == (Sample(c, at) + scale) / 2.0
  {
    var m := Magnify(c, scale, duration, at);
    if m.duration > 0.0 {
      HalfOf((now - at) as real, duration * MICROS);
      EaseIsCubic(1.0);
      assert Progress(m, now) == 0.5 && Ease(0.5) == 0.5;
      assert Sample(m, now) == m.from + (m.target - m.from) * 0.5;
    }
  }

  // --- histories ---

  datatype Event = Ask(scale: real, duration: real, themed: bool, at: int) | Frame(at: int)

  function Take(c: Clock, e: Event): Clock {
    match e
    case Ask(scale, duration, themed, at) => Request(c, scale, duration, themed, at)
    case Frame(at) => Settled(c, at)
  }

  function Run(c: Clock, es: seq<Event>): Clock
    decreases |es|
  {
    if es == [] then c else Run(Take(c, es[0]), es[1..])
  }

  lemma StepSound(c: Clock, e: Event)
    requires Sound(c)
    ensures Sound(Take(c, e))
  {
    SampleBetween(c, e.at);
  }

  /** Whatever is asked for, and whenever frames sample it, the magnification stays in range. */
  lemma {:induction false} AlwaysInRange(c: Clock, es: seq<Event>, now: int)
    requires Sound(c)
    ensures Sound(Run(c, es)) && 1.0 <= Sample(Run(c, es), now) <= 16.0
    decreases |es|
  {
    if es == [] {
      SampleBetween(c, now);
    } else {
      StepSound(c, es[0]);
      AlwaysInRange(Take(c, es[0]), es[1..], now);
    }
  }

  predicate OnlyFrames(es: seq<Event>) { forall i | 0 <= i < |es| :: es[i].Frame? }

  /** Any number of frames after a request sample the curve it started, nothing else. */
  lemma {:induction false} FramesOnlySample(c: Clock, es: seq<Event>, now: int)
    requires OnlyFrames(es) && forall i | 0 <= i < |es| :: es[i].at <= now
    ensures Sample(Run(c, es), now) == Sample(c, now)
    decreases |es|
  {
    if es != [] {
      assert es[0].Frame?;
      SettlingShowsNothing(c, es[0].at, now);
      FramesOnlySample(Take(c, es[0]), es[1..], now);
    }
  }

  /** From one request to the next, over any frames between, every sample lies between the
      one before it and the target, starting at the magnification the request found when
      it was given time, and ending at the target once that time is over. */
  lemma {:induction false} AMoveIsMonotone(c: Clock, scale: real, duration: real, at: int, es: seq<Event>, now: int,
                                           later: int)
    requires Sound(c) && Accepts(scale, duration) && OnlyFrames(es) && at <= now <= later
    requires forall i | 0 <= i < |es| :: es[i].at <= now
    ensures var m := Magnify(c, scale, duration, at);
            && Between(Sample(Run(m, es), now), Sample(m, later), scale)
            && Between(Sample(m, at), Sample(Run(m, es), now), scale)
            && (duration > 0.0 ==> Sample(m, at) == Sample(c, at))
            && ((later - at) as real >= duration * MICROS ==> Sample(m, later) == scale)
  {
    var m := Magnify(c, scale, duration, at);
    FramesOnlySample(m, es, now);
    SamplesApproachTheTarget(m, now, later);
    SamplesApproachTheTarget(m, at, now);
    NoJumpIff(c, scale, duration, at);
    MoveEnds(m, later);
  }

  lemma MoveEnds(m: Clock, later: int)
    ensures (later - m.started) as real >= m.duration * MICROS ==> Sample(m, later) == m.target
  {
    if m.duration > 0.0 && (later - m.started) as real >= m.duration * MICROS {
      var d := m.duration * MICROS;
      DivMono(d, (later - m.started) as real, d);
      assert d / d == 1.0;
    }
  }

  lemma SampleIsUnseen(c: Clock, now: int)
    ensures Sound(c) ==> Between(c.from, Sample(c, now), c.target) && 1.0 <= Sample(c, now) <= 16.0
    ensures forall later | now <= later :: Sample(Settled(c, now), later) == Sample(c, later)
    ensures (now - c.started) as real >= c.duration * MICROS ==> Settled(c, now).duration <= 0.0
  {
    if Sound(c) { SampleBetween(c, now); }
    if c.duration > 0.0 && (now - c.started) as real >= c.duration * MICROS {
      DivMono(c.duration * MICROS, (now - c.started) as real, c.duration * MICROS);
    }
    forall later | now <= later ensures Sample(Settled(c, now), later) == Sample(c, later) {
      SettlingShowsNothing(c, now, later);
    }
  }

  /** The file's statics. */
  class Cursor {
    var from: real
    var target: real
    var duration: real
    var started: int

    function Model(): Clock
      reads this
    {
      Clock(from, target, duration, started)
    }

    constructor ()
      ensures Model() == Still && Sound(Model())
    {
      from, target, duration, started := 1.0, 1.0, 0.0, 0;
    }

    /** The sample lies between the move's ends, and taking it is not seen: every later
        sample is what it would have been. */
    method Magnification(now: int) returns (scale: real)
      modifies this`duration
      ensures scale == Sample(old(Model()), now) && Model() == Settled(old(Model()), now)
      ensures Sound(old(Model())) ==> Between(from, scale, target) && 1.0 <= scale <= 16.0
      ensures forall later | now <= later :: Sample(Model(), later) == Sample(old(Model()), later)
      ensures (now - started) as real >= old(duration) * MICROS ==> duration <= 0.0
    {
      ghost var c := Model();
      SampleIsUnseen(c, now);
      if duration <= 0.0 { return target; }
      var t := (now - started) as real / (duration * MICROS);
      if t >= 1.0 {
        duration := 0.0;
        return target;
      }
      if t < 0.0 { t := 0.0; }
      scale := from + (target - from) * Ease(t);
    }

    /** The new move starts where the old one has got to, unless it is given no time; it is
        at its target when its time is over. */
    method CursorMagnify(scale: real, seconds: real, now: int)
      requires Sound(Model()) && Accepts(scale, seconds)
      modifies this
      ensures Model() == Magnify(old(Model()), scale, seconds, now) && Sound(Model())
      ensures Sample(Model(), now) == Sample(old(Model()), now) <==> seconds > 0.0 || Sample(old(Model()), now) == scale
      ensures forall later | (later - now) as real >= seconds * MICROS :: Sample(Model(), later) == scale
    {
      ghost var c := Model();
      SampleBetween(c, now);
      NoJumpIff(c, scale, seconds, now);
      forall later | (later - now) as real >= seconds * MICROS
        ensures Sample(Magnify(c, scale, seconds, now), later) == scale
      {
        MoveEnds(Magnify(c, scale, seconds, now), later);
      }
      from := Magnification(now);
      target := scale;
      started := now;
      duration := if from == scale then 0.0 else seconds;
    }

    /** False for arguments the Lua call refuses. */
    method CursorMagnifyRequest(scale: real, seconds: real, themed: bool, now: int) returns (ok: bool)
      requires Sound(Model())
      modifies this
      ensures ok == Accepts(scale, seconds) && Model() == Request(old(Model()), scale, seconds, themed, now)
      ensures ok <==> 1.0 <= scale <= 16.0 && 0.0 <= seconds <= 60.0
      ensures if ok then target == (if themed then scale else 1.0) else Model() == old(Model())
      ensures Sound(Model())
    {
      SampleBetween(Model(), now);
      ok := 1.0 <= scale <= 16.0 && 0.0 <= seconds <= 60.0;
      if ok { CursorMagnify(if themed then scale else 1.0, seconds, now); }
    }
  }
}
