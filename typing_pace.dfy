/** The pauses `simulate_typing` (write.py) makes between the actions of a
    plan, and its fallback when no clipboard helper is available. */
module TypingPace {
  import opened TypingPlan

  /** The pacing arguments of `simulate_typing`, with the values that
      successive calls of `random.random()` return; `random.uniform(a, b)`
      is `a + (b - a) * random.random()`. */
  datatype Pacing = Pacing(minInterval: real, maxInterval: real, randomize: bool, draws: nat -> real)

  /** The interval bounds `simulate_typing` accepts; any others raise
      ValueError before anything is typed. */
  predicate ValidBounds(lo: real, hi: real) {
    !(lo < 0.0 || hi < 0.0 || lo > hi)
  }

  /** Accepted bounds, and random values in the unit interval. */
  ghost predicate Fair(p: Pacing) {
    ValidBounds(p.minInterval, p.maxInterval) && forall k :: 0.0 <= p.draws(k) <= 1.0
  }

  /** The interval chosen for the k-th typed or pasted chunk: a uniform draw
      between the bounds when randomizing over a non-empty range, otherwise
      the minimum. */
  function Interval(p: Pacing, k: nat): (iv: real)
    requires Fair(p)
    ensures p.minInterval <= iv <= p.maxInterval
    ensures !(p.randomize && p.maxInterval > p.minInterval) ==> iv == p.minInterval
  {
    if p.randomize && p.maxInterval > p.minInterval then
      UniformBetween(p.minInterval, p.maxInterval, p.draws(k));
      Uniform(p.minInterval, p.maxInterval, p.draws(k))
    else p.minInterval
  }

  /** `random.uniform(lo, hi)` given the value `u` of `random.random()`. */
  function Uniform(lo: real, hi: real, u: real): real {
    lo + (hi - lo) * u
  }

  lemma {:induction false} UniformBetween(lo: real, hi: real, u: real)
    requires lo <= hi && 0.0 <= u <= 1.0
    ensures lo <= Uniform(lo, hi, u) <= hi
  {
    var d := hi - lo;
    assert 0.0 <= d * u;
    assert 0.0 <= d * (1.0 - u);
    assert d * u == d - d * (1.0 - u);
  }

  /** `max(1, len)` as a real. */
  function AtLeastOne(len: nat): real {
    if len < 1 then 1.0 else len as real
  }

  /** The pause after typing `len` characters at once: the interval
      times `max(1, len)`. */
  function Scaled(iv: real, len: nat): real {
    iv * AtLeastOne(len)
  }

  /** One action of a plan with its pause: no pause after an Enter or a Tab;
      after a paste the chosen interval times the length of the word; after
      a single character the chosen interval. Without a clipboard helper a
      paste falls back to writing the word. */
  function Paced(u: Action, p: Pacing, clipboard: bool, k: nat): seq<Action>
    requires Fair(p)
  {
    match u
    case Enter => [Enter]
    case Tab => [Tab]
    case Paste(w) => [if clipboard then Paste(w) else Write(w), Sleep(Scaled(Interval(p, k), |w|))]
    case Write(t) => [Write(t), Sleep(Interval(p, k))]
    case Sleep(d) => [Sleep(d)]
  }

  /** The number of intervals chosen once `u` is done, `k` before it: one
      per paste or write. */
  function Draws(u: Action, k: nat): nat {
    if u.Paste? || u.Write? then k + 1 else k
  }

  /** The actions of a plan with their pauses; `k` counts the intervals
      chosen so far. */
  function Emit(units: seq<Action>, p: Pacing, clipboard: bool, k: nat): seq<Action>
    requires Fair(p)
    decreases |units|
  {
    if units == [] then []
    else Paced(units[0], p, clipboard, k) + Emit(units[1..], p, clipboard, Draws(units[0], k))
  }

  lemma {:induction false} EmitCons(u: Action, rest: seq<Action>, p: Pacing, clipboard: bool, k: nat)
    requires Fair(p)
    ensures Emit([u] + rest, p, clipboard, k) == Paced(u, p, clipboard, k) + Emit(rest, p, clipboard, Draws(u, k))
  {
    assert ([u] + rest)[0] == u && ([u] + rest)[1..] == rest;
  }

  /** A pause of `d` seconds after typing `len` characters at once lies
      between the bounds scaled by `max(1, len)`, and is the minimum so
      scaled unless randomizing over a non-empty range. */
  predicate PauseFits(p: Pacing, d: real, len: nat) {
    var m := AtLeastOne(len);
    p.minInterval * m <= d <= p.maxInterval * m
    && (!(p.randomize && p.maxInterval > p.minInterval) ==> d == p.minInterval * m)
  }

  /** The shape of what the typer does: key presses with no pause after them,
      and pastes or writes each followed by a pause that fits the bounds. */
  predicate WellPaced(out: seq<Action>, p: Pacing)
    decreases |out|
  {
    out == []
    || ((out[0].Enter? || out[0].Tab?) && WellPaced(out[1..], p))
    || ((out[0].Paste? || out[0].Write?) && |out| >= 2 && out[1].Sleep?
        && PauseFits(p, out[1].seconds, |Typed(out[0])|) && WellPaced(out[2..], p))
  }

  /** A plan's actions: no pauses, and every write is a single character. */
  predicate Keystrokes(units: seq<Action>) {
    forall i :: 0 <= i < |units| ==>
      !units[i].Sleep? && (units[i].Write? ==> |units[i].chars| == 1)
  }

  lemma {:induction false} PlanIsKeystrokes(s: string)
    ensures Keystrokes(Plan(s))
  {
    PlanHasNoSleep(s);
    forall i | 0 <= i < |Plan(s)| && Plan(s)[i].Write?
      ensures |Plan(s)[i].chars| == 1
    {
      WritesAreSingleCharacters(s, i);
    }
  }

  lemma PastePause(p: Pacing, k: nat, len: nat)
    requires Fair(p)
    ensures PauseFits(p, Scaled(Interval(p, k), len), len)
  {
    var m := AtLeastOne(len);
    var iv := Interval(p, k);
    assert p.minInterval * m <= iv * m <= p.maxInterval * m;
  }

  lemma WritePause(p: Pacing, k: nat)
    requires Fair(p)
    ensures PauseFits(p, Interval(p, k), 1)
  {
  }

  /** Pacing adds pauses and nothing else: the text read back is unchanged,
      and without a clipboard helper nothing is pasted. */
  lemma {:induction false} EmitText(units: seq<Action>, p: Pacing, clipboard: bool, k: nat)
    requires Fair(p)
    ensures Text(Emit(units, p, clipboard, k)) == Text(units)
    ensures !clipboard ==> NoPaste(Emit(units, p, clipboard, k))
    decreases |units|
  {
    if units != [] {
      var u, rest := units[0], units[1..];
      EmitText(rest, p, clipboard, Draws(u, k));
      PacedText(u, p, clipboard, k);
      TextAppend(Paced(u, p, clipboard, k), Emit(rest, p, clipboard, Draws(u, k)));
    }
  }

  /** No action of `acts` is a paste. */
  predicate NoPaste(acts: seq<Action>) {
    forall q :: 0 <= q < |acts| ==> !acts[q].Paste?
  }

  lemma {:induction false} PacedText(u: Action, p: Pacing, clipboard: bool, k: nat)
    requires Fair(p)
    ensures Text(Paced(u, p, clipboard, k)) == Typed(u)
    ensures !clipboard ==> NoPaste(Paced(u, p, clipboard, k))
  {
    match u
    case Paste(w) => DeliveryText(if clipboard then Paste(w) else Write(w), Scaled(Interval(p, k), |w|));
    case Write(t) => DeliveryText(Write(t), Interval(p, k));
    case _ =>
  }

  lemma {:induction false} DeliveryText(a: Action, d: real)
    ensures Text([a, Sleep(d)]) == Typed(a)
  {
    assert [a, Sleep(d)][1..] == [Sleep(d)] && [Sleep(d)][1..] == [];
    assert Text([Sleep(d)]) == [];
    assert Typed(a) + [] == Typed(a);
  }

  lemma {:induction false} PressThenPaced(a: Action, tail: seq<Action>, p: Pacing)
    requires (a.Enter? || a.Tab?) && WellPaced(tail, p)
    ensures WellPaced([a] + tail, p)
  {
    assert ([a] + tail)[1..] == tail;
  }

  lemma {:induction false} DeliveryThenPaced(a: Action, d: real, tail: seq<Action>, p: Pacing)
    requires (a.Paste? || a.Write?) && PauseFits(p, d, |Typed(a)|) && WellPaced(tail, p)
    ensures WellPaced([a, Sleep(d)] + tail, p)
  {
    assert ([a, Sleep(d)] + tail)[2..] == tail;
  }

  /** The paced actions of a plan have the typer's shape. */
  lemma {:induction false} EmitWellPaced(units: seq<Action>, p: Pacing, clipboard: bool, k: nat)
    requires Fair(p) && Keystrokes(units)
    ensures WellPaced(Emit(units, p, clipboard, k), p)
    decreases |units|
  {
    if units != [] {
      var rest := units[1..];
      assert Keystrokes(rest) by {
        forall i | 0 <= i < |rest| ensures rest[i] == units[i + 1] { }
      }
      match units[0]
      case Enter =>
        EmitWellPaced(rest, p, clipboard, k);
        PressThenPaced(Enter, Emit(rest, p, clipboard, k), p);
      case Tab =>
        EmitWellPaced(rest, p, clipboard, k);
        PressThenPaced(Tab, Emit(rest, p, clipboard, k), p);
      case Paste(w) =>
        EmitWellPaced(rest, p, clipboard, k + 1);
        PastePause(p, k, |w|);
        DeliveryThenPaced(if clipboard then Paste(w) else Write(w), Scaled(Interval(p, k), |w|),
          Emit(rest, p, clipboard, k + 1), p);
      case Write(t) =>
        assert |t| == 1 by { assert units[0] == Write(t); }
        EmitWellPaced(rest, p, clipboard, k + 1);
        WritePause(p, k);
        DeliveryThenPaced(Write(t), Interval(p, k), Emit(rest, p, clipboard, k + 1), p);
    }
  }
}
