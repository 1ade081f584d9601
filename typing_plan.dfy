/** The decisions `simulate_typing` (write.py) takes about a text: which
    characters become key presses, which are written one at a time and which
    words are pasted whole. This module is the word-level reference the
    typing loop in module Typing is proved against; timing is in TypingPace. */
module TypingPlan {
  import opened CharClass
  import opened SeqFacts

  /** One input action the typer performs on the focused window. */
  datatype Action =
    | Enter                 // pyautogui.press("enter")
    | Tab                   // pyautogui.press("tab")
    | Paste(word: string)   // clipboard copy of the word, then ctrl+v
    | Write(chars: string)  // pyautogui.write
    | Sleep(seconds: real)  // time.sleep

  /** The text an action stands for when a run is read back: what the
      action asks the window to receive. */
  function Typed(a: Action): string {
    match a
    case Enter => "\n"
    case Tab => "\t"
    case Paste(w) => w
    case Write(t) => t
    case Sleep(_) => ""
  }

  /** A sequence of actions read back as text, in order. */
  function Text(acts: seq<Action>): string
    decreases |acts|
  {
    if acts == [] then "" else Typed(acts[0]) + Text(acts[1..])
  }

  lemma {:induction false} TextAppend(x: seq<Action>, y: seq<Action>)
    ensures Text(x + y) == Text(x) + Text(y)
    decreases |x|
  {
    if x == [] {
      assert x + y == y;
    } else {
      assert (x + y)[1..] == x[1..] + y;
      TextAppend(x[1..], y);
    }
  }

  /** A word typed one character at a time. */
  function Spell(w: string): (r: seq<Action>)
    ensures |r| == |w|
    ensures forall k :: 0 <= k < |w| ==> r[k] == Write([w[k]])
    ensures Text(r) == w
  {
    if w == [] then [] else [Write([w[0]])] + Spell(w[1..])
  }

  lemma {:induction false} SpellPrefix(w: string, k: nat)
    requires k <= |w|
    ensures Spell(w)[..k] == Spell(w[..k])
    ensures Text(Spell(w)[..k]) == w[..k]
  {
    var a, b := Spell(w)[..k], Spell(w[..k]);
    forall i | 0 <= i < k
      ensures a[i] == b[i]
    {
      assert w[..k][i] == w[i];
    }
    assert a == b;
  }

  /** What the typer does with the front of the text, and how many
      characters that consumes. */
  datatype Chunk = Chunk(actions: seq<Action>, len: nat)

  /** The decision at the front of a non-empty text: a newline is an Enter,
      a tab a Tab, any other whitespace character is written as it is; a
      word (the longest run of non-whitespace) is pasted whole when some
      character of it lies outside ASCII, and written one character at a
      time otherwise. */
  function NextChunk(s: string): (c: Chunk)
    requires s != []
    ensures 1 <= c.len <= |s|
    ensures Text(c.actions) == s[..c.len]
  {
    if s[0] == '\n' then Chunk([Enter], 1)
    else if s[0] == '\t' then Chunk([Tab], 1)
    else if IsSpace(s[0]) then Chunk([Write([s[0]])], 1)
    else
      var w := s[..WordLen(s)];
      if HasNonAscii(w) then Chunk([Paste(w)], |w|) else Chunk(Spell(w), |w|)
  }

  /** All the input actions for a text, chunk after chunk. */
  function Plan(s: string): seq<Action>
    decreases |s|
  {
    if s == [] then [] else
      var c := NextChunk(s);
      c.actions + Plan(s[c.len..])
  }

  /** Where the k-th action of a plan starts in the text. */
  function Offset(acts: seq<Action>, k: nat): nat
    requires k <= |acts|
  {
    |Text(acts[..k])|
  }

  /** The actions of a plan, read back as text, rebuild the text exactly. */
  lemma {:induction false} PlanReadsBack(s: string)
    ensures Text(Plan(s)) == s
    decreases |s|
  {
    if s != [] {
      var c := NextChunk(s);
      PlanReadsBack(s[c.len..]);
      TextAppend(c.actions, Plan(s[c.len..]));
      Rejoin(s, c.len);
    }
  }

  /** Splitting a plan at the end of its first chunk: the actions after it
      are those of the rest of the text, shifted by the chunk's length. */
  lemma {:induction false} PlanAfterChunk(s: string, k: nat)
    requires s != [] && |NextChunk(s).actions| <= k <= |Plan(s)|
    ensures var c := NextChunk(s);
      var k' := k - |c.actions|;
      k' <= |Plan(s[c.len..])| &&
      (k < |Plan(s)| ==> Plan(s)[k] == Plan(s[c.len..])[k']) &&
      Offset(Plan(s), k) == c.len + Offset(Plan(s[c.len..]), k')
  {
    var c := NextChunk(s);
    var k' := k - |c.actions|;
    TakeOfAppend(c.actions, Plan(s[c.len..]), k);
    TextAppend(c.actions, Plan(s[c.len..])[..k']);
  }

  lemma {:induction false} PlanInChunk(s: string, k: nat)
    requires s != [] && k < |NextChunk(s).actions|
    ensures var c := NextChunk(s);
      k < |Plan(s)| && Plan(s)[k] == c.actions[k] && Offset(Plan(s), k) == Offset(c.actions, k)
  {
    TakeOfAppend(NextChunk(s).actions, Plan(s[NextChunk(s).len..]), k);
  }

  /** `s[a..b]` is a whole word of `s`: it holds no whitespace, and it starts
      at the start of `s` or after whitespace and ends at the end of `s` or
      before whitespace. */
  predicate WholeWord(s: string, a: nat, b: nat) {
    a <= b <= |s| && NoSpace(s[a..b])
    && (a == 0 || IsSpace(s[a - 1])) && (b == |s| || IsSpace(s[b]))
  }

  /** `w` is what a paste at offset `a` of `s` must read back as: the whole,
      non-empty word of `s` found there, holding a character outside ASCII. */
  predicate PastedWord(s: string, a: nat, w: string) {
    a + |w| <= |s| && s[a..a + |w|] == w && w != [] && HasNonAscii(w) && WholeWord(s, a, a + |w|)
  }

  /** A chunk ends on a word boundary: its last character is whitespace, or
      it runs to the end of the text or up to whitespace. */
  predicate ChunkBoundary(s: string, n: nat) {
    0 < n <= |s| && (IsSpace(s[n - 1]) || n == |s| || IsSpace(s[n]))
  }

  lemma {:induction false} ChunkEndsOnBoundary(s: string)
    requires s != []
    ensures ChunkBoundary(s, NextChunk(s).len)
  {
  }

  /** The only chunk holding a paste is a whole word pasted at once. */
  lemma {:induction false} ChunkPaste(s: string, k: nat)
    requires s != [] && k < |NextChunk(s).actions| && NextChunk(s).actions[k].Paste?
    ensures k == 0 && |NextChunk(s).actions| == 1 && PastedWord(s, 0, NextChunk(s).actions[0].word)
  {
    var c := NextChunk(s);
    if IsSpace(s[0]) {
      assert false;
    }
    var w := s[..WordLen(s)];
    if !HasNonAscii(w) {
      assert false;
    }
    assert c.actions == [Paste(w)];
  }

  /** A non-empty whole word of what follows the first chunk of `s` is a
      whole word of `s` as well. */
  lemma {:induction false} WholeWordAfterChunk(s: string, n: nat, lo: nat, hi: nat)
    requires ChunkBoundary(s, n) && WholeWord(s[n..], lo, hi) && lo < hi
    ensures WholeWord(s, n + lo, n + hi) && s[n + lo..n + hi] == s[n..][lo..hi]
  {
    assert s[n + lo..n + hi] == s[n..][lo..hi];
    assert n + hi == |s| || s[n + hi] == s[n..][hi];
    if lo == 0 {
      if !IsSpace(s[n - 1]) {
        assert false;
      }
    } else {
      assert s[n + lo - 1] == s[n..][lo - 1];
    }
  }

  /** A paste found at `a` in what follows the first chunk of `s` is found
      at `a' == n + a` in `s`. The primed copies let callers pass the terms
      they already hold, so the solver need not rewrite `n + a` inside slices. */
  lemma {:induction false} PastedWordAfterChunk(s: string, n: nat, a: nat, w: string, a': nat, w': string)
    requires ChunkBoundary(s, n) && PastedWord(s[n..], a, w) && a' == n + a && w' == w
    ensures PastedWord(s, a', w')
  {
    WholeWordAfterChunk(s, n, a, a + |w|);
  }

  /** Every pasted chunk is the text at the place the paste happens, and it is
      a whole non-empty word holding a character outside ASCII: a word is never
      split between a paste and single characters. */
  lemma {:induction false} PastesAreWholeWords(s: string, k: nat)
    requires k < |Plan(s)| && Plan(s)[k].Paste?
    ensures PastedWord(s, Offset(Plan(s), k), Plan(s)[k].word)
    decreases |s|
  {
    var c := NextChunk(s);
    if k < |c.actions| {
      PlanInChunk(s, k);
      ChunkPaste(s, k);
    } else {
      var rest := s[c.len..];
      var k' := k - |c.actions|;
      PlanAfterChunk(s, k);
      PastesAreWholeWords(rest, k');
      ChunkEndsOnBoundary(s);
      PastedWordAfterChunk(s, c.len, Offset(Plan(rest), k'), Plan(rest)[k'].word,
        Offset(Plan(s), k), Plan(s)[k].word);
    }
  }

  /** Conversely, every whole word of the text holding a character outside
      ASCII is pasted, at once and at its place: the typer never breaks such
      a word into characters. */
  lemma {:induction false} NonAsciiWordsPasted(s: string, a: nat, b: nat) returns (k: nat)
    requires a < b && WholeWord(s, a, b) && HasNonAscii(s[a..b])
    ensures k < |Plan(s)| && Plan(s)[k] == Paste(s[a..b]) && Offset(Plan(s), k) == a
    decreases |s|
  {
    if a == 0 {
      FrontWordPasted(s, b);
      k := 0;
    } else {
      var c := NextChunk(s);
      FirstChunkBefore(s, a, b);
      var rest := s[c.len..];
      var a', b' := a - c.len, b - c.len;
      WholeWordInRest(s, c.len, a, b, rest, a', b');
      var k' := NonAsciiWordsPasted(rest, a', b');
      k := |c.actions| + k';
      assert |Plan(s)| == |c.actions| + |Plan(rest)|;
      PlanAfterChunk(s, k);
      PasteMoved(Plan(s), k, Plan(rest), k', rest[a'..b'], s[a..b]);
    }
  }

  /** Carries a paste from the plan of the rest to the plan of `s`; `u` and
      `w` are passed separately for the same reason as in PastedWordAfterChunk. */
  lemma {:induction false} PasteMoved(p: seq<Action>, k: nat, q: seq<Action>, k': nat, u: string, w: string)
    requires k < |p| && k' < |q| && p[k] == q[k'] && q[k'] == Paste(u) && u == w
    ensures p[k] == Paste(w)
  {
  }

  lemma {:induction false} FrontWordPasted(s: string, b: nat)
    requires 0 < b && WholeWord(s, 0, b) && HasNonAscii(s[0..b])
    ensures 0 < |Plan(s)| && Plan(s)[0] == Paste(s[0..b]) && Offset(Plan(s), 0) == 0
  {
    assert s[0..b] == s[..b];
    assert !IsSpace(s[0]) by { assert s[..b][0] == s[0]; }
    WordLenUnique(s, b);
    PlanOfWord(s);
  }

  /** The first chunk of a text ends at or before a whole word that does
      not start the text. */
  lemma {:induction false} FirstChunkBefore(s: string, a: nat, b: nat)
    requires 0 < a < b && WholeWord(s, a, b)
    ensures NextChunk(s).len <= a
  {
    if !IsSpace(s[0]) {
      var n := WordLen(s);
      assert forall m :: 0 <= m < n ==> s[..n][m] == s[m];
      assert IsSpace(s[a - 1]);
    }
  }

  /** A whole word found after the first `n` characters is a whole word of
      what follows them, `n` places earlier. The shifted bounds `a'`, `b'` are
      parameters so that callers name them once, as in PastedWordAfterChunk. */
  lemma {:induction false} WholeWordInRest(s: string, n: nat, a: nat, b: nat, rest: string, a': nat, b': nat)
    requires n <= a < b && WholeWord(s, a, b) && HasNonAscii(s[a..b])
    requires rest == s[n..] && a' == a - n && b' == b - n
    ensures a' < b' && WholeWord(rest, a', b') && rest[a'..b'] == s[a..b] && HasNonAscii(rest[a'..b'])
  {
    assert rest[a'..b'] == s[a..b];
    assert a' > 0 ==> rest[a' - 1] == s[a - 1];
    assert b < |s| ==> rest[b'] == s[b];
  }

  /** Character `a` of `s` lies in a whole word of `s` made only of ASCII. */
  ghost predicate InAsciiWord(s: string, a: nat) {
    exists lo: nat, hi: nat :: lo <= a < hi && WholeWord(s, lo, hi) && !HasNonAscii(s[lo..hi])
  }

  /** `t`, written at offset `a` of `s`, is the one character found there; it
      is neither a newline nor a tab, and unless it is whitespace the word it
      belongs to is made only of ASCII. */
  ghost predicate WrittenAlone(s: string, a: nat, t: string) {
    |t| == 1 && a < |s| && s[a] == t[0] && t[0] != '\n' && t[0] != '\t'
    && (!IsSpace(t[0]) ==> InAsciiWord(s, a))
  }

  lemma {:induction false} ChunkWrite(s: string, k: nat)
    requires s != [] && k < |NextChunk(s).actions| && NextChunk(s).actions[k].Write?
    ensures WrittenAlone(s, Offset(NextChunk(s).actions, k), NextChunk(s).actions[k].chars)
  {
    var c := NextChunk(s);
    if !IsSpace(s[0]) {
      var w := s[..WordLen(s)];
      if HasNonAscii(w) {
        assert false;
      }
      assert c.actions == Spell(w);
      SpellPrefix(w, k);
      assert Offset(c.actions, k) == k;
      assert s[0..|w|] == w;
      assert WholeWord(s, 0, |w|);
    }
  }

  /** A single character written at `a` in what follows the first chunk of
      `s` is written at `a' == n + a` in `s`. */
  lemma {:induction false} WrittenAloneAfterChunk(s: string, n: nat, a: nat, t: string, a': nat, t': string)
    requires ChunkBoundary(s, n) && WrittenAlone(s[n..], a, t) && a' == n + a && t' == t
    ensures WrittenAlone(s, a', t')
  {
    if !IsSpace(t[0]) {
      var lo: nat, hi: nat :| lo <= a < hi && WholeWord(s[n..], lo, hi) && !HasNonAscii(s[n..][lo..hi]);
      WholeWordAfterChunk(s, n, lo, hi);
      assert n + lo <= n + a < n + hi && WholeWord(s, n + lo, n + hi) && !HasNonAscii(s[n + lo..n + hi]);
    }
  }

  /** Every `Write` action of a plan types a single character of the text at
      the place it occurs, never a newline or a tab; a non-whitespace character
      is typed alone only when its whole word is ASCII. */
  lemma {:induction false} WritesAreSingleCharacters(s: string, k: nat)
    requires k < |Plan(s)| && Plan(s)[k].Write?
    ensures WrittenAlone(s, Offset(Plan(s), k), Plan(s)[k].chars)
    decreases |s|
  {
    var c := NextChunk(s);
    if k < |c.actions| {
      PlanInChunk(s, k);
      ChunkWrite(s, k);
    } else {
      var rest := s[c.len..];
      var k' := k - |c.actions|;
      PlanAfterChunk(s, k);
      WritesAreSingleCharacters(rest, k');
      ChunkEndsOnBoundary(s);
      WrittenAloneAfterChunk(s, c.len, Offset(Plan(rest), k'), Plan(rest)[k'].chars,
        Offset(Plan(s), k), Plan(s)[k].chars);
    }
  }

  /** Conversely, every character that is whitespace other than a newline or
      a tab, and every character of a whole word made only of ASCII, is
      written on its own, at its place. */
  lemma {:induction false} AsciiCharsWritten(s: string, a: nat) returns (k: nat)
    requires a < |s| && s[a] != '\n' && s[a] != '\t'
    requires IsSpace(s[a]) || InAsciiWord(s, a)
    ensures k < |Plan(s)| && Plan(s)[k] == Write([s[a]]) && Offset(Plan(s), k) == a
    decreases |s|
  {
    var c := NextChunk(s);
    if a < c.len {
      k := AsciiCharInChunk(s, a);
      PlanInChunk(s, k);
    } else {
      var rest := s[c.len..];
      var a' := a - c.len;
      assert rest[a'] == s[a];
      ChunkEndsOnBoundary(s);
      if !IsSpace(s[a]) {
        AsciiWordInRest(s, c.len, a, rest, a');
      }
      var k' := AsciiCharsWritten(rest, a');
      k := |c.actions| + k';
      assert |Plan(s)| == |c.actions| + |Plan(rest)|;
      PlanAfterChunk(s, k);
    }
  }

  /** The case of AsciiCharsWritten where the character lies in the first
      chunk. */
  lemma {:induction false} AsciiCharInChunk(s: string, a: nat) returns (k: nat)
    requires s != [] && a < NextChunk(s).len && s[a] != '\n' && s[a] != '\t'
    requires IsSpace(s[a]) || InAsciiWord(s, a)
    ensures var c := NextChunk(s);
      k < |c.actions| && c.actions[k] == Write([s[a]]) && Offset(c.actions, k) == a
  {
    var c := NextChunk(s);
    if IsSpace(s[0]) {
      k := 0;
      assert c.actions[..0] == [];
    } else {
      var n := WordLen(s);
      var w := s[..n];
      assert w[a] == s[a];
      assert !IsSpace(s[a]);
      var lo: nat, hi: nat :| lo <= a < hi && WholeWord(s, lo, hi) && !HasNonAscii(s[lo..hi]);
      WordAtFront(s, a, lo, hi);
      assert s[lo..hi] == w;
      assert c.actions == Spell(w);
      k := a;
      SpellPrefix(w, a);
      assert |w[..a]| == a;
    }
  }

  /** A whole word holding a character of the word at the front of `s` is
      that front word. */
  lemma {:induction false} WordAtFront(s: string, a: nat, lo: nat, hi: nat)
    requires lo <= a < hi && a < WordLen(s) && WholeWord(s, lo, hi)
    ensures lo == 0 && hi == WordLen(s)
  {
    if lo > 0 {
      assert false;
    }
    assert s[..hi] == s[lo..hi];
    WordLenUnique(s, hi);
  }

  /** A character past the first chunk that lies in a whole ASCII word of
      `s` lies in a whole ASCII word of what follows the chunk. */
  lemma {:induction false} AsciiWordInRest(s: string, n: nat, a: nat, rest: string, a': nat)
    requires ChunkBoundary(s, n) && n <= a < |s| && InAsciiWord(s, a)
    requires rest == s[n..] && a' == a - n
    ensures InAsciiWord(rest, a')
  {
    var lo: nat, hi: nat :| lo <= a < hi && WholeWord(s, lo, hi) && !HasNonAscii(s[lo..hi]);
    if lo < n {
      assert false;
    }
    var lo', hi' := lo - n, hi - n;
    assert rest[lo'..hi'] == s[lo..hi] by {
      forall m | 0 <= m < hi' - lo'
        ensures rest[lo'..hi'][m] == s[lo..hi][m]
      {
        assert rest[lo'..hi'][m] == s[n + lo' + m];
      }
    }
    assert lo' > 0 ==> rest[lo' - 1] == s[lo - 1];
    assert hi < |s| ==> rest[hi'] == s[hi];
    assert lo' <= a' < hi' && WholeWord(rest, lo', hi') && !HasNonAscii(rest[lo'..hi']);
  }

  /** A plan holds key presses, pastes and writes, never a sleep: the pauses
      are added by the pacing (module TypingPace). */
  lemma {:induction false} PlanHasNoSleep(s: string)
    ensures forall k :: 0 <= k < |Plan(s)| ==> !Plan(s)[k].Sleep?
    decreases |s|
  {
    if s != [] {
      var c := NextChunk(s);
      PlanHasNoSleep(s[c.len..]);
      assert forall k :: 0 <= k < |c.actions| ==> !c.actions[k].Sleep?;
    }
  }

  lemma {:induction false} ChunkKeys(s: string)
    requires s != []
    ensures var c := NextChunk(s);
      multiset(c.actions)[Enter] == multiset(s[..c.len])['\n'] &&
      multiset(c.actions)[Tab] == multiset(s[..c.len])['\t']
  {
    if IsSpace(s[0]) {
      SpaceKeys(s);
    } else {
      WordKeys(s);
    }
  }

  lemma {:induction false} SpaceKeys(s: string)
    requires s != [] && IsSpace(s[0])
    ensures var c := NextChunk(s);
      multiset(c.actions)[Enter] == multiset(s[..c.len])['\n'] &&
      multiset(c.actions)[Tab] == multiset(s[..c.len])['\t']
  {
    assert s[..1] == [s[0]];
  }

  lemma {:induction false} WordKeys(s: string)
    requires s != [] && !IsSpace(s[0])
    ensures var c := NextChunk(s);
      multiset(c.actions)[Enter] == multiset(s[..c.len])['\n'] &&
      multiset(c.actions)[Tab] == multiset(s[..c.len])['\t']
  {
    var w := s[..WordLen(s)];
    WordChunk(s);
    NoKeysInWord(w);
    SpellHasNoKeys(w);
  }

  /** The chunk at the front of a text that starts with a word. */
  lemma {:induction false} WordChunk(s: string)
    requires s != [] && !IsSpace(s[0])
    ensures var w := s[..WordLen(s)];
      NextChunk(s).len == |w| && s[..NextChunk(s).len] == w &&
      NextChunk(s).actions == if HasNonAscii(w) then [Paste(w)] else Spell(w)
  {
  }

  lemma {:induction false} SpellHasNoKeys(w: string)
    ensures multiset(Spell(w))[Enter] == 0 && multiset(Spell(w))[Tab] == 0
    decreases |w|
  {
    if w != [] {
      SpellHasNoKeys(w[1..]);
      assert multiset(Spell(w)) == multiset{Write([w[0]])} + multiset(Spell(w[1..]));
    }
  }

  lemma {:induction false} NoKeysInWord(w: string)
    requires NoSpace(w)
    ensures multiset(w)['\n'] == 0 && multiset(w)['\t'] == 0
  {
    SpaceBasics();
    assert '\n' !in w && '\t' !in w;
  }

  /** Each newline of the text becomes exactly one Enter and each tab exactly
      one Tab. */
  lemma {:induction false} KeysMatchText(s: string)
    ensures multiset(Plan(s))[Enter] == multiset(s)['\n']
    ensures multiset(Plan(s))[Tab] == multiset(s)['\t']
    decreases |s|
  {
    if s != [] {
      var c := NextChunk(s);
      var rest := s[c.len..];
      KeysMatchText(rest);
      ChunkKeys(s);
      assert Plan(s) == c.actions + Plan(rest);
      assert multiset(Plan(s)) == multiset(c.actions) + multiset(Plan(rest));
      Rejoin(s, c.len);
      assert multiset(s) == multiset(s[..c.len]) + multiset(rest);
    }
  }

  /** A character of an ASCII-only word is typed on its own, and the plan
      goes on with the rest of the text: this is how the typer, which
      re-scans the word from every position, arrives at the same plan. */
  lemma {:induction false} AsciiWordStep(s: string)
    requires s != [] && !IsSpace(s[0]) && !HasNonAscii(s[..WordLen(s)])
    ensures Plan(s) == [Write([s[0]])] + Plan(s[1..])
  {
    if WordLen(s) > 1 {
      AsciiWordTail(s);
    } else {
      PlanOfWord(s);
      assert Spell(s[..1]) == [Write([s[0]])];
    }
  }

  lemma {:induction false} PlanOfSpace(s: string)
    requires s != [] && IsSpace(s[0])
    ensures Plan(s) == [if s[0] == '\n' then Enter else if s[0] == '\t' then Tab else Write([s[0]])] + Plan(s[1..])
  {
  }

  lemma {:induction false} PlanOfWord(s: string)
    requires s != [] && !IsSpace(s[0])
    ensures var w := s[..WordLen(s)];
      Plan(s) == (if HasNonAscii(w) then [Paste(w)] else Spell(w)) + Plan(s[WordLen(s)..])
  {
  }

  lemma {:induction false} AsciiWordTail(s: string)
    requires s != [] && !IsSpace(s[0]) && WordLen(s) > 1 && !HasNonAscii(s[..WordLen(s)])
    ensures Plan(s) == [Write([s[0]])] + Plan(s[1..])
  {
    var n := WordLen(s);
    PlanOfWord(s);
    PlanAfterFirstLetter(s);
    assert Spell(s[..n]) == [Write([s[0]])] + Spell(s[1..n]);
    Regroup(Plan(s), Plan(s[1..]), [Write([s[0]])], Spell(s[1..n]), Plan(s[n..]));
  }

  lemma {:induction false} PlanAfterFirstLetter(s: string)
    requires s != [] && !IsSpace(s[0]) && WordLen(s) > 1 && !HasNonAscii(s[..WordLen(s)])
    ensures Plan(s[1..]) == Spell(s[1..WordLen(s)]) + Plan(s[WordLen(s)..])
  {
    var n := WordLen(s);
    var s1 := s[1..];
    assert WordLen(s1) == n - 1;
    assert s1[..n - 1] == s[1..n];
    assert !HasNonAscii(s[1..n]) by {
      forall m | 0 <= m < n - 1 ensures !IsNonAscii(s[1..n][m]) {
        assert s[1..n][m] == s[..n][m + 1];
      }
    }
    PlanOfWord(s1);
    assert s1[n - 1..] == s[n..];
  }
}
