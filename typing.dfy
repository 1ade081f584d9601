/** `simulate_typing` (write.py): the typing loop itself, proved to perform
    the paced plan of its text. */
module Typing {
  import opened Wrappers
  import opened CharClass
  import opened TypingPlan
  import opened TypingPace

  /** The text typed when none is given. */
  const DefaultText: string :=
    "Hello, World!\nThis is a test of the typing script.\nHere are some Swedish letters: "
    + "\U{E5}\U{E4}\U{F6} \U{C5}\U{C4}\U{D6}\n"

  /** The defaults of `simulate_typing`'s timing parameters. */
  const DefaultInitialDelay: real := 5.0
  const DefaultMinInterval: real := 0.01
  const DefaultMaxInterval: real := 0.10

  /** The Swedish words of the default text, one in lower and one in upper
      case, are each pasted whole, where they stand in the text. */
  lemma {:induction false} DefaultTextPastesSwedishWords() returns (k1: nat, k2: nat)
    ensures k1 < |Plan(DefaultText)| && Plan(DefaultText)[k1] == Paste("\U{E5}\U{E4}\U{F6}")
    ensures k2 < |Plan(DefaultText)| && Plan(DefaultText)[k2] == Paste("\U{C5}\U{C4}\U{D6}")
    ensures Offset(Plan(DefaultText), k1) == 82 && Offset(Plan(DefaultText), k2) == 86
  {
    SwedishWordsAreWhole();
    k1 := NonAsciiWordsPasted(DefaultText, 82, 85);
    k2 := NonAsciiWordsPasted(DefaultText, 86, 89);
  }

  lemma SwedishWordsAreWhole()
    ensures WholeWord(DefaultText, 82, 85) && DefaultText[82..85] == "\U{E5}\U{E4}\U{F6}"
    ensures WholeWord(DefaultText, 86, 89) && DefaultText[86..89] == "\U{C5}\U{C4}\U{D6}"
    ensures HasNonAscii(DefaultText[82..85]) && HasNonAscii(DefaultText[86..89])
  {
    var t := DefaultText;
    assert |t| == 90;
    assert t[81] == ' ' && t[85] == ' ' && t[89] == '\n';
    assert IsNonAscii(t[82..85][0]) && IsNonAscii(t[86..89][0]);
  }

  /** The two ways `simulate_typing` fails before typing anything. */
  datatype TypingError =
    | InvalidInterval   // ValueError("Invalid interval values")
    | NegativeDelay     // ValueError from time.sleep, given a negative initial delay

  lemma {:induction false} PressStep(text: string, i: nat, p: Pacing, clipboard: bool, k: nat)
    requires Fair(p) && i < |text| && (text[i] == '\n' || text[i] == '\t')
    ensures Emit(Plan(text[i..]), p, clipboard, k)
      == [if text[i] == '\n' then Enter else Tab] + Emit(Plan(text[i + 1..]), p, clipboard, k)
  {
    SpaceBasics();
    PlanOfSpace(text[i..]);
    assert text[i..][1..] == text[i + 1..];
    EmitCons(if text[i] == '\n' then Enter else Tab, Plan(text[i + 1..]), p, clipboard, k);
  }

  lemma {:induction false} SpaceStep(text: string, i: nat, p: Pacing, clipboard: bool, k: nat)
    requires Fair(p) && i < |text| && text[i] != '\n' && text[i] != '\t' && IsSpace(text[i])
    ensures Emit(Plan(text[i..]), p, clipboard, k)
      == [Write([text[i]]), Sleep(Interval(p, k))] + Emit(Plan(text[i + 1..]), p, clipboard, k + 1)
  {
    PlanOfSpace(text[i..]);
    assert text[i..][1..] == text[i + 1..];
    EmitCons(Write([text[i]]), Plan(text[i + 1..]), p, clipboard, k);
  }

  /** The word `text[i..j]` starts at `i` (it is the rest of a word when `i`
      is inside one). */
  predicate WordFrom(text: string, i: nat, j: nat) {
    i < j <= |text| && NoSpace(text[i..j]) && (j == |text| || IsSpace(text[j]))
  }

  lemma {:induction false} WordFromLen(text: string, i: nat, j: nat)
    requires WordFrom(text, i, j)
    ensures WordLen(text[i..]) == j - i && text[i..][..j - i] == text[i..j]
  {
    assert text[i..][..j - i] == text[i..j];
    WordLenUnique(text[i..], j - i);
  }

  lemma {:induction false} ScanStep(text: string, i: nat, j: nat)
    requires i <= j < |text|
    ensures NoSpace(text[i..j + 1]) <==> NoSpace(text[i..j]) && !IsSpace(text[j])
    ensures HasNonAscii(text[i..j + 1]) <==> HasNonAscii(text[i..j]) || IsNonAscii(text[j])
  {
    assert text[i..j + 1] == text[i..j] + [text[j]];
    SnocScan(text[i..j], text[j]);
  }

  lemma {:induction false} AsciiStep(text: string, i: nat, j: nat, p: Pacing, clipboard: bool, k: nat)
    requires Fair(p) && WordFrom(text, i, j) && !HasNonAscii(text[i..j])
    ensures Emit(Plan(text[i..]), p, clipboard, k)
      == [Write([text[i]]), Sleep(Interval(p, k))] + Emit(Plan(text[i + 1..]), p, clipboard, k + 1)
  {
    WordFromLen(text, i, j);
    AsciiWordStep(text[i..]);
    assert text[i..][1..] == text[i + 1..];
    EmitCons(Write([text[i]]), Plan(text[i + 1..]), p, clipboard, k);
  }

  lemma {:induction false} PastePlan(text: string, i: nat, j: nat)
    requires WordFrom(text, i, j) && HasNonAscii(text[i..j])
    ensures Plan(text[i..]) == [Paste(text[i..j])] + Plan(text[j..])
  {
    WordFromLen(text, i, j);
    PlanOfWord(text[i..]);
    assert text[i..][j - i..] == text[j..];
  }

  lemma {:induction false} PasteStep(text: string, i: nat, j: nat, p: Pacing, clipboard: bool, k: nat)
    requires Fair(p) && WordFrom(text, i, j) && HasNonAscii(text[i..j])
    ensures var w := text[i..j];
      Emit(Plan(text[i..]), p, clipboard, k)
      == [if clipboard then Paste(w) else Write(w), Sleep(Scaled(Interval(p, k), |w|))]
         + Emit(Plan(text[j..]), p, clipboard, k + 1)
  {
    PastePlan(text, i, j);
    EmitCons(Paste(text[i..j]), Plan(text[j..]), p, clipboard, k);
  }

  /** What remains to be done once the first `i` characters of `text` are
      typed with `k` intervals drawn: `out` followed by it is the whole run. */
  ghost predicate OnTrack(full: seq<Action>, out: seq<Action>, text: string, i: nat, p: Pacing, clipboard: bool, k: nat)
    requires Fair(p) && i <= |text|
  {
    full == out + Emit(Plan(text[i..]), p, clipboard, k)
  }

  lemma {:induction false} PressAdvance(full: seq<Action>, out: seq<Action>, text: string, i: nat, p: Pacing, clipboard: bool, k: nat)
    requires Fair(p) && i < |text| && (text[i] == '\n' || text[i] == '\t')
    requires OnTrack(full, out, text, i, p, clipboard, k)
    ensures OnTrack(full, out + [if text[i] == '\n' then Enter else Tab], text, i + 1, p, clipboard, k)
  {
    PressStep(text, i, p, clipboard, k);
  }

  lemma {:induction false} WriteAdvance(full: seq<Action>, out: seq<Action>, text: string, i: nat, j: nat, p: Pacing, clipboard: bool, k: nat)
    requires Fair(p) && i < |text| && text[i] != '\n' && text[i] != '\t'
    requires IsSpace(text[i]) || (WordFrom(text, i, j) && !HasNonAscii(text[i..j]))
    requires OnTrack(full, out, text, i, p, clipboard, k)
    ensures OnTrack(full, out + [Write([text[i]]), Sleep(Interval(p, k))], text, i + 1, p, clipboard, k + 1)
  {
    if IsSpace(text[i]) {
      SpaceStep(text, i, p, clipboard, k);
    } else {
      AsciiStep(text, i, j, p, clipboard, k);
    }
  }

  lemma {:induction false} PasteAdvance(full: seq<Action>, out: seq<Action>, text: string, i: nat, j: nat, p: Pacing, clipboard: bool, k: nat)
    requires Fair(p) && WordFrom(text, i, j) && HasNonAscii(text[i..j])
    requires OnTrack(full, out, text, i, p, clipboard, k)
    ensures var w := text[i..j];
      OnTrack(full, out + [if clipboard then Paste(w) else Write(w)] + [Sleep(Scaled(Interval(p, k), |w|))],
              text, j, p, clipboard, k + 1)
  {
    PasteStep(text, i, j, p, clipboard, k);
  }

  /** The word scan of `simulate_typing`: from a non-space character at `i`,
      the end `j` of its word, and whether the word holds a character
      outside ASCII. */
  method ScanWord(text: string, i: nat) returns (j: nat, hasNonAscii: bool)
    requires i < |text| && !IsSpace(text[i])
    ensures WordFrom(text, i, j) && hasNonAscii == HasNonAscii(text[i..j])
  {
    var n := |text|;
    j := i;
    hasNonAscii := false;
    while j < n && !IsSpace(text[j])
      invariant i <= j <= n
      invariant NoSpace(text[i..j])
      invariant hasNonAscii == HasNonAscii(text[i..j])
    {
      if text[j] as int > 127 {
        hasNonAscii := true;
      }
      ScanStep(text, i, j);
      j := j + 1;
    }
  }

  /** A run that waits and then performs the paced plan of `text` reads back
      as exactly `text`, pausing as the bounds allow. */
  lemma {:induction false} RunDelivers(text: string, initialDelay: real, p: Pacing, clipboard: bool)
    requires Fair(p)
    ensures var run := [Sleep(initialDelay)] + Emit(Plan(text), p, clipboard, 0);
      Text(run) == text && WellPaced(run[1..], p)
  {
    var emitted := Emit(Plan(text), p, clipboard, 0);
    PlanReadsBack(text);
    EmitText(Plan(text), p, clipboard, 0);
    TextAppend([Sleep(initialDelay)], emitted);
    PlanIsKeystrokes(text);
    EmitWellPaced(Plan(text), p, clipboard, 0);
    assert ([Sleep(initialDelay)] + emitted)[1..] == emitted;
  }

  /** Types `text` into the focused window: fails with InvalidInterval
      exactly when an interval bound is negative or the bounds are reversed,
      and then with NegativeDelay exactly when the initial delay is negative;
      otherwise waits the initial delay and performs the paced plan of the
      text, which reads back as the text exactly. `draws` are the successive
      values of `random.random()`; `clipboard` says whether a clipboard
      helper could be loaded. The timing parameters default as in
      `simulate_typing`. */
  method SimulateTyping(draws: nat -> real, clipboard: bool, text: string,
                        initialDelay: real := DefaultInitialDelay,
                        minInterval: real := DefaultMinInterval,
                        maxInterval: real := DefaultMaxInterval,
                        randomize: bool := true)
    returns (r: Result<seq<Action>, TypingError>)
    requires forall k :: 0.0 <= draws(k) <= 1.0
    ensures r == Failure(InvalidInterval) <==> !ValidBounds(minInterval, maxInterval)
    ensures r == Failure(NegativeDelay) <==> ValidBounds(minInterval, maxInterval) && initialDelay < 0.0
    ensures r.Success? ==>
      r.value == [Sleep(initialDelay)] + Emit(Plan(text), Pacing(minInterval, maxInterval, randomize, draws), clipboard, 0)
    ensures r.Success? ==>
      Text(r.value) == text && WellPaced(r.value[1..], Pacing(minInterval, maxInterval, randomize, draws))
  {
    if minInterval < 0.0 || maxInterval < 0.0 || minInterval > maxInterval {
      return Failure(InvalidInterval);
    }
    if initialDelay < 0.0 {
      return Failure(NegativeDelay);
    }
    var p := Pacing(minInterval, maxInterval, randomize, draws);
    ghost var full := [Sleep(initialDelay)] + Emit(Plan(text), p, clipboard, 0);
    var out := [Sleep(initialDelay)];
    var drawn := 0;  // chunks typed or pasted so far: the index of the next draw
    var i := 0;
    var n := |text|;
    while i < n
      invariant 0 <= i <= n
      invariant OnTrack(full, out, text, i, p, clipboard, drawn)
    {
      var ch := text[i];
      if ch == '\n' {
        PressAdvance(full, out, text, i, p, clipboard, drawn);
        out := out + [Enter];
        i := i + 1;
        continue;
      }
      if ch == '\t' {
        PressAdvance(full, out, text, i, p, clipboard, drawn);
        out := out + [Tab];
        i := i + 1;
        continue;
      }

      var interval;
      if randomize && maxInterval > minInterval {
        interval := Uniform(minInterval, maxInterval, draws(drawn));
      } else {
        interval := minInterval;
      }
      assert interval == Interval(p, drawn);

      var j := i;
      if !IsSpace(ch) {
        var hasNonAscii;
        j, hasNonAscii := ScanWord(text, i);
        if hasNonAscii {
          var word := text[i..j];
          PasteAdvance(full, out, text, i, j, p, clipboard, drawn);
          if clipboard {
            out := out + [Paste(word)];
          } else {
            out := out + [Write(word)];
          }
          out := out + [Sleep(Scaled(interval, |word|))];
          drawn := drawn + 1;
          i := j;
          continue;
        }
      }
      WriteAdvance(full, out, text, i, j, p, clipboard, drawn);
      out := out + [Write([ch]), Sleep(interval)];
      drawn := drawn + 1;
      i := i + 1;
    }
    assert text[n..] == [];
    RunDelivers(text, initialDelay, p, clipboard);
    r := Success(out);
  }
}
