/** The settings `WriterService.load_config` (write_service.py) reads from
    `service_config.txt`: the line syntax and the effect of a sequence of
    lines on the defaults. */
module ServiceConfig {
  import opened Wrappers
  import opened CharClass

  /** The configuration dictionary of `load_config`. */
  datatype Config = Config(
    delay: real,
    minInterval: real,
    maxInterval: real,
    randomize: bool,
    restartOnCompletion: bool,
    restartDelay: real)

  /** The values before any line is read. */
  const Defaults := Config(5.0, 0.02, 0.12, true, true, 10.0)

  /** What reading the file decides: the configuration and the service's
      text file path. */
  datatype Loaded = Loaded(config: Config, textFile: string)

  /** One assignment a line can make. */
  datatype Setting =
    | Delay(seconds: real)
    | MinInterval(low: real)
    | MaxInterval(high: real)
    | Randomize(on: bool)
    | RestartOnCompletion(again: bool)
    | RestartDelay(pause: real)
    | TextFile(path: string)

  /** The effect of one line: ignored, an assignment, or a value `float()`
      rejects, which raises and ends the reading. */
  datatype LineEffect = Skip | Assign(setting: Setting) | Abort

  /** The key a setting is written under. */
  function KeyOf(s: Setting): string {
    match s
    case Delay(_) => "delay"
    case MinInterval(_) => "min_interval"
    case MaxInterval(_) => "max_interval"
    case Randomize(_) => "randomize"
    case RestartOnCompletion(_) => "restart_on_completion"
    case RestartDelay(_) => "restart_delay"
    case TextFile(_) => "text_file"
  }

  /** The keys `load_config` acts on; every other key is ignored. */
  const KnownKeys: set<string> := {
    "delay", "min_interval", "max_interval", "randomize",
    "restart_on_completion", "restart_delay", "text_file"
  }

  /** The keys whose value goes through `float()`. */
  const NumberKeys: set<string> := {"delay", "min_interval", "max_interval", "restart_delay"}

  // ---------------------------------------------------------------------
  // Python's str.strip(), str.index and the boolean spelling

  /** `s` without its leading whitespace. */
  function TrimStart(s: string): string
    decreases |s|
  {
    if s != [] && IsSpace(s[0]) then TrimStart(s[1..]) else s
  }

  /** `s` without its trailing whitespace. */
  function TrimEnd(s: string): string
    decreases |s|
  {
    if s != [] && IsSpace(s[|s| - 1]) then TrimEnd(s[..|s| - 1]) else s
  }

  /** TrimStart removes a prefix made only of whitespace, and what remains
      does not start with whitespace. */
  lemma {:induction false} TrimStartShape(s: string)
    ensures var r := TrimStart(s);
      |r| <= |s| && r == s[|s| - |r|..]
      && (r == [] || !IsSpace(r[0]))
      && forall m :: 0 <= m < |s| - |r| ==> IsSpace(s[m])
    decreases |s|
  {
    if s != [] && IsSpace(s[0]) {
      TrimStartShape(s[1..]);
      var r := TrimStart(s[1..]);
      assert s[|s| - |r|..] == s[1..][|s| - 1 - |r|..];
      forall m | 0 <= m < |s| - |r|
        ensures IsSpace(s[m])
      {
        if m > 0 {
          assert s[m] == s[1..][m - 1];
        }
      }
    }
  }

  /** TrimEnd removes a suffix made only of whitespace, and what remains
      does not end with whitespace. */
  lemma {:induction false} TrimEndShape(s: string)
    ensures var r := TrimEnd(s);
      |r| <= |s| && r == s[..|r|]
      && (r == [] || !IsSpace(r[|r| - 1]))
      && forall m :: |r| <= m < |s| ==> IsSpace(s[m])
    decreases |s|
  {
    if s != [] && IsSpace(s[|s| - 1]) {
      var t := s[..|s| - 1];
      TrimEndShape(t);
      var r := TrimEnd(t);
      assert s[..|r|] == t[..|r|];
      forall m | |r| <= m < |s|
        ensures IsSpace(s[m])
      {
        if m < |s| - 1 {
          assert s[m] == t[m];
        }
      }
    }
  }

  /** `s.strip()`. */
  function Strip(s: string): string {
    TrimEnd(TrimStart(s))
  }

  /** A string `strip()` leaves alone: empty, or starting and ending with a
      non-space character. */
  predicate Stripped(s: string) {
    s == [] || (!IsSpace(s[0]) && !IsSpace(s[|s| - 1]))
  }

  /** `strip()` leaves a string unchanged exactly when it is Stripped, and
      what it returns is Stripped, so stripping twice is stripping once. */
  lemma {:induction false} StripFixedPoints(s: string)
    ensures Strip(s) == s <==> Stripped(s)
    ensures Stripped(Strip(s)) && Strip(Strip(s)) == Strip(s)
  {
    var t := TrimStart(s);
    var r := TrimEnd(t);
    TrimStartShape(s);
    TrimEndShape(t);
    if r != [] {
      assert r[0] == t[0];
    }
    StripOfStripped(r);
    if Stripped(s) {
      StripOfStripped(s);
    }
  }

  lemma {:induction false} StripOfStripped(s: string)
    requires Stripped(s)
    ensures Strip(s) == s
  {
  }

  /** `strip()` returns the slice of `s` that starts at its first
      non-space character and ends after its last one. */
  lemma {:induction false} StripShape(s: string)
    ensures var lo := |s| - |TrimStart(s)|;
      0 <= lo && lo + |Strip(s)| <= |s| && Strip(s) == s[lo..lo + |Strip(s)|]
      && (forall m :: 0 <= m < lo ==> IsSpace(s[m]))
      && (Strip(s) != [] ==> !IsSpace(s[lo]) && !IsSpace(s[lo + |Strip(s)| - 1]))
      && (forall m :: lo + |Strip(s)| <= m < |s| ==> IsSpace(s[m]))
  {
    var t := TrimStart(s);
    TrimStartShape(s);
    TrimEndShape(t);
    var lo := |s| - |t|;
    var r := TrimEnd(t);
    assert r == t[..|r|];
    assert s[lo..lo + |r|] == t[..|r|];
    if r != [] {
      assert r[0] == t[0] == s[lo];
      assert r[|r| - 1] == t[|r| - 1] == s[lo + |r| - 1];
    }
    forall m | lo + |r| <= m < |s|
      ensures IsSpace(s[m])
    {
      assert s[m] == t[m - lo];
    }
  }

  /** `s.index(c)`: the position of the first `c`. */
  function IndexOf(s: string, c: char): (r: nat)
    requires c in s
    ensures r < |s| && s[r] == c && c !in s[..r]
  {
    if s[0] == c then 0
    else
      var r := 1 + IndexOf(s[1..], c);
      assert s[..r] == [s[0]] + s[1..][..r - 1];
      r
  }

  /** The first `c` is the one at `i` when none comes before it. */
  lemma {:induction false} IndexOfAt(s: string, c: char, i: nat)
    requires i < |s| && s[i] == c && c !in s[..i]
    ensures IndexOf(s, c) == i
  {
    var r := IndexOf(s, c);
    assert forall m :: 0 <= m < i ==> s[..i][m] == s[m];
    assert forall m :: 0 <= m < r ==> s[..r][m] == s[m];
  }

  /** ASCII lower case. Only U+0130 and U+212A lower to ASCII letters under
      `str.lower()` ('i' plus a combining dot, and 'k'). Neither can spell a
      truthy value, so ASCII lowering gives the same truth test. */
  function LowerChar(c: char): char {
    if 'A' <= c <= 'Z' then (c as int + 32) as char else c
  }

  function Lower(s: string): string {
    seq(|s|, m requires 0 <= m < |s| => LowerChar(s[m]))
  }

  /** `value.lower() in ('true', '1', 'yes')`. */
  predicate IsTruthy(value: string) {
    Lower(value) in ["true", "1", "yes"]
  }

  /** The boolean spelling ignores case: values that differ only in the case
      of their letters are both true or both false; among them "TRUE", "Yes"
      and "1" are true, "false", "on" and "0" are not. */
  lemma {:induction false} TruthyIgnoresCase(u: string, v: string)
    requires |u| == |v| && forall m :: 0 <= m < |u| ==> LowerChar(u[m]) == LowerChar(v[m])
    ensures IsTruthy(u) <==> IsTruthy(v)
    ensures IsTruthy("TRUE") && IsTruthy("Yes") && IsTruthy("1")
    ensures !IsTruthy("false") && !IsTruthy("on") && !IsTruthy("0")
  {
    assert Lower(u) == Lower(v);
    assert Lower("TRUE") == "true";
    assert Lower("Yes") == "yes";
    assert Lower("1") == "1";
    assert Lower("false")[0] == 'f';
    assert Lower("on")[0] == 'o';
    assert Lower("0") == "0";
  }

  // ---------------------------------------------------------------------
  // One line

  /** The key dispatch of `load_config`, on a stripped key and value. */
  function Interpret(key: string, value: string, parseFloat: string -> Option<real>): LineEffect {
    if key == "delay" then
      (match parseFloat(value) case None => Abort case Some(x) => Assign(Delay(x)))
    else if key == "min_interval" then
      (match parseFloat(value) case None => Abort case Some(x) => Assign(MinInterval(x)))
    else if key == "max_interval" then
      (match parseFloat(value) case None => Abort case Some(x) => Assign(MaxInterval(x)))
    else if key == "randomize" then
      Assign(Randomize(IsTruthy(value)))
    else if key == "restart_on_completion" then
      Assign(RestartOnCompletion(IsTruthy(value)))
    else if key == "restart_delay" then
      (match parseFloat(value) case None => Abort case Some(x) => Assign(RestartDelay(x)))
    else if key == "text_file" then
      Assign(TextFile(value))
    else
      Skip
  }

  /** The key dispatch ignores exactly the unknown keys, aborts exactly on
      a numeric key whose value `float()` rejects, and otherwise assigns the
      key it was given: a numeric key the number `float()` returns, a
      boolean key the truth of the spelling, `text_file` the value as a
      path. */
  lemma {:induction false} InterpretMeaning(key: string, value: string, parseFloat: string -> Option<real>)
    ensures var r := Interpret(key, value, parseFloat);
      && (r.Skip? <==> key !in KnownKeys)
      && (r.Abort? <==> key in NumberKeys && parseFloat(value).None?)
      && (r.Assign? ==> KeyOf(r.setting) == key)
      && (r.Assign? && key in NumberKeys ==> parseFloat(value) == Some(Number(r.setting)))
      && (r.Assign? && key in {"randomize", "restart_on_completion"} ==> Flag(r.setting) == IsTruthy(value))
      && (r.Assign? && key == "text_file" ==> r.setting == TextFile(value))
  {
  }

  /** The flag a boolean setting carries (false for the others). */
  function Flag(s: Setting): bool {
    match s
    case Randomize(b) => b
    case RestartOnCompletion(b) => b
    case _ => false
  }

  /** The number a numeric setting carries (0.0 for the others). */
  function Number(s: Setting): real {
    match s
    case Delay(x) => x
    case MinInterval(x) => x
    case MaxInterval(x) => x
    case RestartDelay(x) => x
    case _ => 0.0
  }

  /** The effect of one line of the file: blank lines, comments and lines
      without '=' are ignored; otherwise the line is split at its first '='
      and the stripped halves go to the key dispatch. */
  function Classify(raw: string, parseFloat: string -> Option<real>): LineEffect {
    var line := Strip(raw);
    if line == [] || line[0] == '#' || '=' !in line then Skip
    else
      var eq := IndexOf(line, '=');
      Interpret(Strip(line[..eq]), Strip(line[eq + 1..]), parseFloat)
  }

  /** A line is ignored when it holds no '=', when it is blank, or when its
      first non-space character is '#'. */
  lemma {:induction false} IgnoredLines(raw: string, parseFloat: string -> Option<real>, a: nat)
    requires '=' !in raw
      || (forall m :: 0 <= m < |raw| ==> IsSpace(raw[m]))
      || (a < |raw| && raw[a] == '#' && forall m :: 0 <= m < a ==> IsSpace(raw[m]))
    ensures Classify(raw, parseFloat) == Skip
  {
    if '=' !in raw {
      NoEqualsIgnored(raw, parseFloat);
    } else if forall m :: 0 <= m < |raw| ==> IsSpace(raw[m]) {
      BlankIgnored(raw, parseFloat);
    } else {
      CommentIgnored(raw, parseFloat, a);
    }
  }

  lemma {:induction false} NoEqualsIgnored(raw: string, parseFloat: string -> Option<real>)
    requires '=' !in raw
    ensures Classify(raw, parseFloat) == Skip
  {
    var line := Strip(raw);
    StripShape(raw);
    var lo := |raw| - |TrimStart(raw)|;
    assert '=' !in line by {
      forall m | 0 <= m < |line|
        ensures line[m] != '='
      {
        assert line[m] == raw[lo + m];
      }
    }
  }

  lemma {:induction false} BlankIgnored(raw: string, parseFloat: string -> Option<real>)
    requires forall m :: 0 <= m < |raw| ==> IsSpace(raw[m])
    ensures Classify(raw, parseFloat) == Skip
  {
    StripShape(raw);
  }

  lemma {:induction false} CommentIgnored(raw: string, parseFloat: string -> Option<real>, a: nat)
    requires a < |raw| && raw[a] == '#' && forall m :: 0 <= m < a ==> IsSpace(raw[m])
    ensures Classify(raw, parseFloat) == Skip
  {
    SpaceBasics();
    StripShape(raw);
    var lo := |raw| - |TrimStart(raw)|;
    if Strip(raw) != [] {
      assert Strip(raw)[0] == raw[lo];
    }
  }

  /** Reading back a line written as `key=value`: a stripped key that is not
      empty, holds no '=' and does not start with '#', and a stripped value,
      are recovered exactly, so the line has the effect the key dispatch
      gives them. A comment or blank line has no effect. */
  lemma {:induction false} ConfigLineRoundTrip(key: string, value: string, parseFloat: string -> Option<real>)
    requires key != [] && Stripped(key) && key[0] != '#' && '=' !in key && Stripped(value)
    ensures Classify(key + "=" + value, parseFloat) == Interpret(key, value, parseFloat)
    ensures Classify("#" + key + "=" + value, parseFloat) == Skip
    ensures Classify("", parseFloat) == Skip
  {
    var line := key + "=" + value;
    SpaceBasics();
    assert line[0] == key[0];
    assert line[|line| - 1] == if value == [] then '=' else value[|value| - 1];
    StripOfStripped(line);
    assert line[|key|] == '=';
    var eq := IndexOf(line, '=');
    assert line[..eq] == key;
    assert line[eq + 1..] == value;
    StripOfStripped(key);
    StripOfStripped(value);
    var comment := "#" + line;
    assert comment[0] == '#' && comment[|comment| - 1] == line[|line| - 1];
    StripOfStripped(comment);
  }

  /** Reading back any line with an '=' in it: the key before the first
      '=' and the value after it are each stripped, however much whitespace
      surrounds them and the whole line, so the line has the effect the key
      dispatch gives the stripped halves, unless its key starts with '#'. */
  lemma {:induction false} SplitTrims(k: string, v: string, parseFloat: string -> Option<real>)
    requires '=' !in k && (Strip(k) == [] || Strip(k)[0] != '#')
    ensures Classify(k + "=" + v, parseFloat) == Interpret(Strip(k), Strip(v), parseFloat)
  {
    var t := TrimStart(k);
    TrimStartShape(k);
    PaddedLine(k, v);
    var line := Strip(k + "=" + v);
    SplitAtFirst(t, TrimEnd(v), line);
    var eq := IndexOf(line, '=');
    assert Strip(t) == Strip(k);
    StripTrimEnd(v);
    // the first character of the line
    if t == [] {
      assert line[0] == '=';
    } else {
      TrimEndShape(t);
      assert line[0] == t[0] == Strip(k)[0];
    }
  }

  /** A line `k=v` with no '=' in `k`, stripped as a whole, is the key with
      its front stripped, the '=', and the value with its end stripped. */
  lemma {:induction false} PaddedLine(k: string, v: string)
    requires '=' !in k
    ensures Strip(k + "=" + v) == TrimStart(k) + "=" + TrimEnd(v)
    ensures '=' !in TrimStart(k)
  {
    var t := TrimStart(k);
    TrimStartShape(k);
    TrimStartAppend(k, "=" + v);
    assert k + "=" + v == k + ("=" + v);
    assert t + ("=" + v) == (t + "=") + v;
    TrimEndAfter(t + "=", v);
    assert '=' !in t by {
      forall m | 0 <= m < |t| ensures t[m] != '=' {
        assert t[m] == k[|k| - |t| + m];
      }
    }
  }

  /** Splitting `t + "=" + r` at its first '=' gives back `t` and `r` when
      `t` holds no '='. */
  lemma {:induction false} SplitAtFirst(t: string, r: string, line: string)
    requires '=' !in t && line == t + "=" + r
    ensures '=' in line && IndexOf(line, '=') == |t|
    ensures line[..IndexOf(line, '=')] == t && line[IndexOf(line, '=') + 1..] == r
  {
    assert line[|t|] == '=';
    assert line[..|t|] == t;
    IndexOfAt(line, '=', |t|);
    assert line[|t| + 1..] == r;
  }

  /** Stripping the front of `k + r`, where `r` starts with a non-space
      character, strips only `k`. */
  lemma {:induction false} TrimStartAppend(k: string, r: string)
    requires r != [] && !IsSpace(r[0])
    ensures TrimStart(k + r) == TrimStart(k) + r
    decreases |k|
  {
    if k == [] {
      assert k + r == r;
    } else {
      assert (k + r)[0] == k[0] && (k + r)[1..] == k[1..] + r;
      if IsSpace(k[0]) {
        TrimStartAppend(k[1..], r);
      }
    }
  }

  /** Stripping the end of `l + r`, where `l` ends with a non-space
      character, strips only `r`. */
  lemma {:induction false} TrimEndAfter(l: string, r: string)
    requires l != [] && !IsSpace(l[|l| - 1])
    ensures TrimEnd(l + r) == l + TrimEnd(r)
    decreases |r|
  {
    if r == [] {
      assert l + r == l;
    } else {
      var lr := l + r;
      assert lr[|lr| - 1] == r[|r| - 1];
      if IsSpace(r[|r| - 1]) {
        assert lr[..|lr| - 1] == l + r[..|r| - 1];
        TrimEndAfter(l, r[..|r| - 1]);
      }
    }
  }

  /** Stripping the front and stripping the end commute. */
  lemma {:induction false} TrimCommute(s: string)
    ensures TrimEnd(TrimStart(s)) == TrimStart(TrimEnd(s))
    decreases |s|
  {
    if s != [] {
      var last := s[|s| - 1];
      var init := s[..|s| - 1];
      TrimStartShape(s);
      if IsSpace(last) {
        TrimCommute(init);
        TrimStartShape(init);
        if TrimStart(init) == [] {
          assert forall m :: 0 <= m < |init| ==> IsSpace(init[m]);
          AllSpaceTrimStart(s);
        } else {
          assert s == init + [last];
          TrimStartAppendBack(init, last);
        }
      } else {
        var t := TrimStart(s);
        assert t != [] && t[|t| - 1] == last;
      }
    }
  }

  lemma {:induction false} AllSpaceTrimStart(s: string)
    requires s != [] && forall m :: 0 <= m < |s| - 1 ==> IsSpace(s[m])
    requires IsSpace(s[|s| - 1])
    ensures TrimStart(s) == []
  {
    TrimStartShape(s);
  }

  /** Appending a character after a string that is not all whitespace
      appends it after the stripped front. */
  lemma {:induction false} TrimStartAppendBack(s: string, c: char)
    requires TrimStart(s) != []
    ensures TrimStart(s + [c]) == TrimStart(s) + [c]
    decreases |s|
  {
    assert s != [];
    assert (s + [c])[0] == s[0] && (s + [c])[1..] == s[1..] + [c];
    if IsSpace(s[0]) {
      TrimStartAppendBack(s[1..], c);
    }
  }

  /** Stripping what was already stripped at the end is stripping. */
  lemma {:induction false} StripTrimEnd(v: string)
    ensures Strip(TrimEnd(v)) == Strip(v)
  {
    TrimCommute(TrimEnd(v));
    TrimCommute(v);
    TrimEndShape(v);
    var e := TrimEnd(v);
    TrimEndShape(e);
    if e != [] {
      assert TrimEnd(e) == e;
    }
  }

  // ---------------------------------------------------------------------
  // A sequence of lines

  /** The state after one assignment. */
  function ApplySetting(st: Loaded, s: Setting): Loaded {
    match s
    case Delay(x) => st.(config := st.config.(delay := x))
    case MinInterval(x) => st.(config := st.config.(minInterval := x))
    case MaxInterval(x) => st.(config := st.config.(maxInterval := x))
    case Randomize(b) => st.(config := st.config.(randomize := b))
    case RestartOnCompletion(b) => st.(config := st.config.(restartOnCompletion := b))
    case RestartDelay(x) => st.(config := st.config.(restartDelay := x))
    case TextFile(path) => st.(textFile := path)
  }

  /** The state has the value `s` gives its key. */
  predicate Holds(st: Loaded, s: Setting) {
    match s
    case Delay(x) => st.config.delay == x
    case MinInterval(x) => st.config.minInterval == x
    case MaxInterval(x) => st.config.maxInterval == x
    case Randomize(b) => st.config.randomize == b
    case RestartOnCompletion(b) => st.config.restartOnCompletion == b
    case RestartDelay(x) => st.config.restartDelay == x
    case TextFile(path) => st.textFile == path
  }

  /** After an assignment the state has the assigned value, and every
      other key keeps its value. */
  lemma {:induction false} ApplySettingFrame(st: Loaded, s: Setting, t: Setting)
    ensures Holds(ApplySetting(st, s), s)
    ensures KeyOf(t) != KeyOf(s) && Holds(st, t) ==> Holds(ApplySetting(st, s), t)
  {
  }

  /** The effects of the lines, in order. */
  function Effects(lines: seq<string>, parseFloat: string -> Option<real>): seq<LineEffect> {
    seq(|lines|, m requires 0 <= m < |lines| => Classify(lines[m], parseFloat))
  }

  /** The effects in order, up to the first Abort. */
  function Run(st: Loaded, es: seq<LineEffect>): Loaded
    decreases |es|
  {
    if es == [] then st
    else
      match es[0]
      case Skip => Run(st, es[1..])
      case Assign(s) => Run(ApplySetting(st, s), es[1..])
      case Abort => st
  }

  /** `load_config` with the file's lines, or None when the file is absent
      or cannot be opened. */
  function Load(file: Option<seq<string>>, parseFloat: string -> Option<real>, textFile: string): Loaded {
    var start := Loaded(Defaults, textFile);
    match file
    case None => start
    case Some(lines) => Run(start, Effects(lines, parseFloat))
  }

  /** The effect assigns the key `key`. */
  predicate Sets(e: LineEffect, key: string) {
    e.Assign? && KeyOf(e.setting) == key
  }

  lemma {:induction false} RunStep(st: Loaded, es: seq<LineEffect>, i: nat)
    requires i < |es|
    ensures Run(st, es[i..]) ==
      match es[i]
      case Skip => Run(st, es[i + 1..])
      case Assign(s) => Run(ApplySetting(st, s), es[i + 1..])
      case Abort => st
  {
    assert es[i..][0] == es[i] && es[i..][1..] == es[i + 1..];
  }

  /** Reading `es` from `st` ends in `goal` once the first `i` effects are
      applied. */
  predicate ReadsTo(goal: Loaded, st: Loaded, es: seq<LineEffect>, i: nat) {
    i <= |es| && Run(st, es[i..]) == goal
  }

  lemma {:induction false} SkipLine(goal: Loaded, st: Loaded, es: seq<LineEffect>, i: nat)
    requires ReadsTo(goal, st, es, i) && i < |es| && es[i] == Skip
    ensures ReadsTo(goal, st, es, i + 1)
  {
    RunStep(st, es, i);
  }

  lemma {:induction false} AssignLine(goal: Loaded, st: Loaded, es: seq<LineEffect>, i: nat, s: Setting)
    requires ReadsTo(goal, st, es, i) && i < |es| && es[i] == Assign(s)
    ensures ReadsTo(goal, ApplySetting(st, s), es, i + 1)
  {
    RunStep(st, es, i);
  }

  lemma {:induction false} AbortLine(goal: Loaded, st: Loaded, es: seq<LineEffect>, i: nat)
    requires ReadsTo(goal, st, es, i) && i < |es| && es[i] == Abort
    ensures st == goal
  {
    RunStep(st, es, i);
  }

  lemma {:induction false} EndOfLines(goal: Loaded, st: Loaded, es: seq<LineEffect>)
    requires ReadsTo(goal, st, es, |es|)
    ensures st == goal
  {
    assert es[|es|..] == [];
  }

  /** A line that aborts ends the reading: the lines after it have no
      effect, and what the lines before it set is kept. */
  lemma {:induction false} AbortKeepsPrefix(st: Loaded, es: seq<LineEffect>, a: nat)
    requires a < |es| && es[a].Abort?
    ensures Run(st, es) == Run(st, es[..a])
    decreases a
  {
    if a > 0 {
      assert es[..a][0] == es[0] && es[..a][1..] == es[1..][..a - 1];
      match es[0]
      case Skip => AbortKeepsPrefix(st, es[1..], a - 1);
      case Assign(s) => AbortKeepsPrefix(ApplySetting(st, s), es[1..], a - 1);
      case Abort =>
    }
  }

  /** Without an aborting line, reading `xs` and then `ys` is reading them
      one after the other. */
  lemma {:induction false} RunAppend(st: Loaded, xs: seq<LineEffect>, ys: seq<LineEffect>)
    requires forall m :: 0 <= m < |xs| ==> !xs[m].Abort?
    ensures Run(st, xs + ys) == Run(Run(st, xs), ys)
    decreases |xs|
  {
    if xs == [] {
      assert xs + ys == ys;
    } else {
      assert (xs + ys)[0] == xs[0] && (xs + ys)[1..] == xs[1..] + ys;
      assert !xs[0].Abort?;
      match xs[0]
      case Skip => RunAppend(st, xs[1..], ys);
      case Assign(s) => RunAppend(ApplySetting(st, s), xs[1..], ys);
      case Abort => assert false;
    }
  }

  /** The file is read line after line, in order: when no line of `xs` has
      a value `float()` rejects, reading `xs + ys` is reading `ys` from where
      reading `xs` left off. */
  lemma {:induction false} LoadAppend(xs: seq<string>, ys: seq<string>, parseFloat: string -> Option<real>, textFile: string)
    requires forall m :: 0 <= m < |xs| ==> !Classify(xs[m], parseFloat).Abort?
    ensures Load(Some(xs + ys), parseFloat, textFile)
      == Run(Load(Some(xs), parseFloat, textFile), Effects(ys, parseFloat))
  {
    var ex, ey := Effects(xs, parseFloat), Effects(ys, parseFloat);
    EffectsAppend(xs, ys, parseFloat);
    assert forall m :: 0 <= m < |ex| ==> !ex[m].Abort?;
    RunAppend(Loaded(Defaults, textFile), ex, ey);
  }

  /** The effects of two runs of lines are the effects of each, in order. */
  lemma {:induction false} EffectsAppend(xs: seq<string>, ys: seq<string>, parseFloat: string -> Option<real>)
    ensures Effects(xs + ys, parseFloat) == Effects(xs, parseFloat) + Effects(ys, parseFloat)
  {
    assert forall m :: 0 <= m < |xs| ==> (xs + ys)[m] == xs[m];
    assert forall m :: |xs| <= m < |xs| + |ys| ==> (xs + ys)[m] == ys[m - |xs|];
  }

  /** A key no line assigns keeps the value it had. */
  lemma {:induction false} KeptUnlessSet(st: Loaded, es: seq<LineEffect>, s: Setting)
    requires Holds(st, s)
    requires forall m :: 0 <= m < |es| ==> !Sets(es[m], KeyOf(s))
    ensures Holds(Run(st, es), s)
    decreases |es|
  {
    if es != [] {
      assert !Sets(es[0], KeyOf(s));
      match es[0]
      case Skip => KeptUnlessSet(st, es[1..], s);
      case Assign(t) =>
        ApplySettingFrame(st, t, s);
        KeptUnlessSet(ApplySetting(st, t), es[1..], s);
      case Abort =>
    }
  }

  /** The last line assigning a key decides its value, when no line before
      it aborts; lines after it may abort or assign other keys. */
  lemma {:induction false} LastWins(st: Loaded, pre: seq<LineEffect>, s: Setting, post: seq<LineEffect>)
    requires forall m :: 0 <= m < |pre| ==> !pre[m].Abort?
    requires forall m :: 0 <= m < |post| ==> !Sets(post[m], KeyOf(s))
    ensures Holds(Run(st, pre + [Assign(s)] + post), s)
  {
    RunAppend(st, pre, [Assign(s)] + post);
    assert pre + [Assign(s)] + post == pre + ([Assign(s)] + post);
    var mid := Run(st, pre);
    assert ([Assign(s)] + post)[0] == Assign(s) && ([Assign(s)] + post)[1..] == post;
    ApplySettingFrame(mid, s, s);
    KeptUnlessSet(ApplySetting(mid, s), post, s);
  }

  /** Effects that assign nothing leave the state as it is. */
  lemma {:induction false} RunOfSkips(st: Loaded, es: seq<LineEffect>)
    requires forall m :: 0 <= m < |es| ==> es[m].Skip?
    ensures Run(st, es) == st
    decreases |es|
  {
    if es != [] {
      assert es[0].Skip?;
      RunOfSkips(st, es[1..]);
    }
  }

  /** Without a file, or with one whose every line is ignored, the result is
      the defaults: delay 5.0, min_interval 0.02, max_interval 0.12,
      randomize and restart_on_completion true, restart_delay 10.0; the text
      file path is unchanged. */
  lemma {:induction false} DefaultsWithoutSettings(file: Option<seq<string>>, parseFloat: string -> Option<real>, textFile: string)
    requires file.Some? ==> forall m :: 0 <= m < |file.value| ==> Classify(file.value[m], parseFloat).Skip?
    ensures Load(file, parseFloat, textFile) == Loaded(Config(5.0, 0.02, 0.12, true, true, 10.0), textFile)
  {
    if file.Some? {
      RunOfSkips(Loaded(Defaults, textFile), Effects(file.value, parseFloat));
    }
  }

  /** A key the file does not assign keeps its default, and the text file
      path stays as it was unless the file names one; with no file,
      everything keeps its default. */
  lemma {:induction false} DefaultsUnlessSet(file: Option<seq<string>>, parseFloat: string -> Option<real>, textFile: string, s: Setting)
    requires Holds(Loaded(Defaults, textFile), s)
    requires file.Some? ==> forall m :: 0 <= m < |file.value| ==> !Sets(Classify(file.value[m], parseFloat), KeyOf(s))
    ensures Holds(Load(file, parseFloat, textFile), s)
  {
    if file.Some? {
      KeptUnlessSet(Loaded(Defaults, textFile), Effects(file.value, parseFloat), s);
    }
  }
}
