/** String helpers shared by both renderers: ASCII case mapping, quoting,
    repetition, comma separation, JavaScript's string order, and the three
    regular-expression rewrites used by the name formatters. */
module Text {

  // ---------------------------------------------------------------------------
  // ASCII case mapping (JavaScript's toLowerCase/toUpperCase restricted to ASCII)
  // ---------------------------------------------------------------------------

  predicate IsUpper(c: char) { 'A' <= c <= 'Z' }

  predicate IsLower(c: char) { 'a' <= c <= 'z' }

  function Lower(c: char): (d: char)
    ensures !IsUpper(d)
    ensures !IsUpper(c) ==> d == c
    ensures IsUpper(c) ==> IsLower(d)
  {
    if IsUpper(c) then (c as int + 32) as char else c
  }

  function Upper(c: char): (d: char)
    ensures !IsLower(d)
    ensures !IsLower(c) ==> d == c
    ensures IsLower(c) ==> IsUpper(d)
  {
    if IsLower(c) then (c as int - 32) as char else c
  }

  /** `s.toLowerCase()` on ASCII text. */
  function LowerAll(s: string): (r: string)
    ensures |r| == |s|
    ensures forall i :: 0 <= i < |s| ==> r[i] == Lower(s[i])
  {
    if s == [] then [] else [Lower(s[0])] + LowerAll(s[1..])
  }

  /** `str.replace(str[0], str[0].toUpperCase())`: the first occurrence of the
      first character is the first character itself, so only it changes. */
  function UpperFirst(s: string): (r: string)
    requires |s| > 0
    ensures |r| == |s| && r[0] == Upper(s[0]) && r[1..] == s[1..]
  {
    [Upper(s[0])] + s[1..]
  }

  // ---------------------------------------------------------------------------
  // Literals
  // ---------------------------------------------------------------------------

  function Quote(s: string): string { "\"" + s + "\"" }

  /** A prefix one longer is the shorter prefix and one more element. */
  lemma TakeSnoc<T>(s: seq<T>, k: nat)
    requires 0 < k <= |s|
    ensures s[..k] == s[..k - 1] + [s[k - 1]]
  {
  }

  /** Regrouping a concatenation of four sequences. */
  lemma Associative<T>(a: seq<T>, b: seq<T>, c: seq<T>, d: seq<T>)
    ensures a + b + c + d == a + (b + c + d)
  {
  }

  /** `s.repeat(n)`. */
  function Repeat(s: string, n: nat): string {
    if n == 0 then "" else s + Repeat(s, n - 1)
  }

  /** Repetition grows at either end. */
  lemma {:induction false} RepeatSnoc(s: string, n: nat)
    ensures Repeat(s, n) + s == Repeat(s, n + 1)
  {
    if n > 0 {
      RepeatSnoc(s, n - 1);
      assert s + Repeat(s, n - 1) + s == s + (Repeat(s, n - 1) + s);
    }
  }

  /** No brackets. */
  lemma Unbracketed(e: string)
    ensures Repeat("[", 0) + e + Repeat("]", 0) == e
  {
    assert Repeat("[", 0) == [] && Repeat("]", 0) == [];
  }

  /** One more pair of brackets around `n` pairs. */
  lemma Bracketed(n: nat, e: string)
    ensures "[" + (Repeat("[", n) + e + Repeat("]", n)) + "]" == Repeat("[", n + 1) + e + Repeat("]", n + 1)
  {
    RepeatSnoc("]", n);
    Associative("[", Repeat("[", n) + e, Repeat("]", n), "]");
    assert "[" + (Repeat("[", n) + e + Repeat("]", n)) + "]" == ("[" + Repeat("[", n)) + e + (Repeat("]", n) + "]");
  }

  /** The `for (i = 0; i < level; i++) result += '  '` indentation. */
  function Indent(level: nat): string { Repeat("  ", level) }

  // ---------------------------------------------------------------------------
  // Separated lists: `if (index < length - 1) printer(',')`
  // ---------------------------------------------------------------------------

  /** The lines `xs` with the line `sep` between consecutive ones and nowhere else. */
  function Interleave(xs: seq<string>, sep: string): (r: seq<string>)
    ensures |r| == if xs == [] then 0 else 2 * |xs| - 1
    ensures forall i :: 0 <= i < |r| ==> r[i] == if i % 2 == 0 then xs[i / 2] else sep
  {
    if |xs| <= 1 then xs else [xs[0], sep] + Interleave(xs[1..], sep)
  }

  /** Blocks of lines with the lines `sep` between consecutive blocks. */
  function Joined<T>(blocks: seq<seq<T>>, sep: seq<T>): seq<T> {
    if |blocks| == 0 then []
    else if |blocks| == 1 then blocks[0]
    else blocks[0] + sep + Joined(blocks[1..], sep)
  }

  /** Appending a block adds one separator exactly when something came before:
      the step a loop that prints a separator after all but the last item takes. */
  lemma {:induction false} JoinedSnoc<T>(blocks: seq<seq<T>>, b: seq<T>, sep: seq<T>)
    ensures Joined(blocks + [b], sep) == Joined(blocks, sep) + (if |blocks| > 0 then sep else []) + b
  {
    if |blocks| > 1 {
      assert (blocks + [b])[1..] == blocks[1..] + [b];
      JoinedSnoc(blocks[1..], b, sep);
    }
  }

  /** Single lines joined by a one-line separator interleave those lines. */
  lemma {:induction false} JoinedSingletons(xs: seq<string>, sep: string)
    ensures Joined(seq(|xs|, i requires 0 <= i < |xs| => [xs[i]]), [sep]) == Interleave(xs, sep)
  {
    var bs := seq(|xs|, i requires 0 <= i < |xs| => [xs[i]]);
    if |xs| > 1 {
      assert bs[1..] == seq(|xs[1..]|, i requires 0 <= i < |xs[1..]| => [xs[1..][i]]);
      JoinedSingletons(xs[1..], sep);
    }
  }

  /** Appending a line adds one separator exactly when something came before. */
  lemma InterleaveSnoc(xs: seq<string>, x: string, sep: string)
    ensures Interleave(xs + [x], sep) == Interleave(xs, sep) + (if |xs| > 0 then [sep] else []) + [x]
  {
    var l := Interleave(xs + [x], sep);
    var r := Interleave(xs, sep) + (if |xs| > 0 then [sep] else []) + [x];
    assert |l| == |r|;
    forall i | 0 <= i < |l| ensures l[i] == r[i] {
      if i < |Interleave(xs, sep)| {
        assert (xs + [x])[i / 2] == xs[i / 2];
      }
    }
  }

  /** The first `k` of `blocks`, each followed by the line `sep` unless it is
      the last of all: what a loop printing `sep` when `index < length - 1`
      has printed after `k` rounds. */
  function SeparatedUpTo(blocks: seq<seq<string>>, sep: string, k: nat): seq<string>
    requires k <= |blocks|
  {
    if k == 0 then [] else SeparatedUpTo(blocks, sep, k - 1) + blocks[k - 1] + (if k < |blocks| then [sep] else [])
  }

  /** What such a loop prints over all the blocks. */
  function Separated(blocks: seq<seq<string>>, sep: string): seq<string> {
    SeparatedUpTo(blocks, sep, |blocks|)
  }

  /** After `k` rounds the loop has printed the first `k` blocks joined, and
      one more separator when further blocks follow. */
  lemma {:induction false} SeparatedUpToJoined(blocks: seq<seq<string>>, sep: string, k: nat)
    requires k <= |blocks|
    ensures SeparatedUpTo(blocks, sep, k) == Joined(blocks[..k], [sep]) + (if 0 < k < |blocks| then [sep] else [])
  {
    if k > 0 {
      SeparatedUpToJoined(blocks, sep, k - 1);
      assert blocks[..k] == blocks[..k - 1] + [blocks[k - 1]];
      JoinedSnoc(blocks[..k - 1], blocks[k - 1], [sep]);
    }
  }

  /** The loop prints the blocks with the separator between consecutive ones
      and nowhere else. */
  lemma SeparatedIsJoined(blocks: seq<seq<string>>, sep: string)
    ensures Separated(blocks, sep) == Joined(blocks, [sep])
  {
    SeparatedUpToJoined(blocks, sep, |blocks|);
    assert blocks[..|blocks|] == blocks;
  }

  /** The output starts with the first block's first line. */
  lemma SeparatedFirst(blocks: seq<seq<string>>, sep: string)
    requires |blocks| > 0 && |blocks[0]| > 0
    ensures |Separated(blocks, sep)| > 0 && Separated(blocks, sep)[0] == blocks[0][0]
  {
    SeparatedIsJoined(blocks, sep);
  }

  /** Separating one-line blocks interleaves their lines. */
  lemma SeparatedSingletons(xs: seq<string>, sep: string)
    ensures Separated(seq(|xs|, i requires 0 <= i < |xs| => [xs[i]]), sep) == Interleave(xs, sep)
  {
    SeparatedIsJoined(seq(|xs|, i requires 0 <= i < |xs| => [xs[i]]), sep);
    JoinedSingletons(xs, sep);
  }

  /** Strings concatenated with `sep` between consecutive ones. */
  function JoinStrings(xs: seq<string>, sep: string): string {
    if |xs| == 0 then ""
    else if |xs| == 1 then xs[0]
    else xs[0] + sep + JoinStrings(xs[1..], sep)
  }

  lemma {:induction false} JoinStringsSnoc(xs: seq<string>, x: string, sep: string)
    ensures JoinStrings(xs + [x], sep) == JoinStrings(xs, sep) + (if |xs| > 0 then sep else "") + x
  {
    if |xs| > 1 {
      assert (xs + [x])[1..] == xs[1..] + [x];
      JoinStringsSnoc(xs[1..], x, sep);
    }
  }

  /** Each string with `sep` appended, except the last: the lines a loop
      prints when it adds `if (i < length - 1) s += sep` to each. */
  function Terminated(xs: seq<string>, sep: string): (r: seq<string>)
    ensures |r| == |xs|
  {
    seq(|xs|, i requires 0 <= i < |xs| => xs[i] + (if i < |xs| - 1 then sep else ""))
  }

  /** Lines ending in the separator, joined by `nl`, are the strings joined by
      the separator followed by `nl`: only consecutive strings are separated. */
  lemma {:induction false} TerminatedJoin(xs: seq<string>, sep: string, nl: string)
    ensures JoinStrings(Terminated(xs, sep), nl) == JoinStrings(xs, sep + nl)
  {
    if |xs| == 1 {
      assert Terminated(xs, sep)[0] == xs[0] + "";
      assert xs[0] + "" == xs[0];
    } else if |xs| > 1 {
      var t := Terminated(xs, sep);
      assert t[1..] == Terminated(xs[1..], sep);
      TerminatedJoin(xs[1..], sep, nl);
      calc {
        JoinStrings(t, nl);
        t[0] + nl + JoinStrings(t[1..], nl);
        (xs[0] + sep) + nl + JoinStrings(xs[1..], sep + nl);
        { Associative(xs[0], sep, nl, JoinStrings(xs[1..], sep + nl)); }
        xs[0] + (sep + nl) + JoinStrings(xs[1..], sep + nl);
      }
    }
  }

  // ---------------------------------------------------------------------------
  // JavaScript string order (`a > b` on strings): code-unit lexicographic order
  // ---------------------------------------------------------------------------

  predicate Lt(a: string, b: string)
    decreases |a|
  {
    if |a| == 0 then |b| > 0
    else if |b| == 0 then false
    else a[0] < b[0] || (a[0] == b[0] && Lt(a[1..], b[1..]))
  }

  /** Not greater: the comparator of `sortBy` returns a non-positive value. */
  predicate Le(a: string, b: string) { !Lt(b, a) }

  lemma {:induction false} LtIrreflexive(a: string)
    ensures !Lt(a, a)
  {
    if |a| > 0 { LtIrreflexive(a[1..]); }
  }

  lemma {:induction false} LtAsymmetric(a: string, b: string)
    requires Lt(a, b)
    ensures !Lt(b, a)
  {
    if |a| > 0 && |b| > 0 && a[0] == b[0] { LtAsymmetric(a[1..], b[1..]); }
  }

  lemma {:induction false} LtTransitive(a: string, b: string, c: string)
    requires Lt(a, b) && Lt(b, c)
    ensures Lt(a, c)
  {
    if |a| > 0 && a[0] == b[0] && b[0] == c[0] { LtTransitive(a[1..], b[1..], c[1..]); }
  }

  lemma {:induction false} LtTotal(a: string, b: string)
    requires a != b
    ensures Lt(a, b) || Lt(b, a)
  {
    if |a| > 0 && |b| > 0 && a[0] == b[0] {
      assert a == [a[0]] + a[1..] && b == [b[0]] + b[1..];
      LtTotal(a[1..], b[1..]);
    }
  }

  lemma LeTransitive(a: string, b: string, c: string)
    requires Le(a, b) && Le(b, c)
    ensures Le(a, c)
  {
    if Lt(c, a) {
      if a == b {
      } else {
        LtTotal(a, b);
        LtTransitive(c, a, b);
      }
    }
  }

  // ---------------------------------------------------------------------------
  // Regular-expression rewrites of the name formatters
  // ---------------------------------------------------------------------------

  /** `name.replace(/(([A-Z])+)/g, ' $1')`: one space before every maximal run of
      capitals. `afterUpper` says whether the character before `s` was a capital
      (then a leading capital continues that run). */
  function SpaceRuns(s: string, afterUpper: bool): (r: string)
    ensures |r| >= |s|
    ensures |r| > 0 && IsUpper(r[0]) ==> afterUpper
    ensures forall i :: 0 < i < |r| && IsUpper(r[i]) && !IsUpper(r[i - 1]) ==> r[i - 1] == ' '
  {
    if s == [] then []
    else if IsUpper(s[0]) && !afterUpper then " " + [s[0]] + SpaceRuns(s[1..], true)
    else [s[0]] + SpaceRuns(s[1..], IsUpper(s[0]))
  }

  /** `name.replace(/([A-Z])/g, ' $1')`: one space before every capital. */
  function SpaceCaps(s: string): (r: string)
    ensures |r| >= |s|
    ensures |r| > 0 ==> !IsUpper(r[0])
    ensures forall i :: 0 < i < |r| && IsUpper(r[i]) ==> r[i - 1] == ' '
  {
    if s == [] then []
    else if IsUpper(s[0]) then " " + [s[0]] + SpaceCaps(s[1..])
    else [s[0]] + SpaceCaps(s[1..])
  }

  /** Drops every space that stands directly before a capital. */
  function Unspace(s: string): string {
    if s == [] then []
    else if s[0] == ' ' && |s| > 1 && IsUpper(s[1]) then Unspace(s[1..])
    else [s[0]] + Unspace(s[1..])
  }

  /** The spaces `SpaceRuns` inserts are exactly the ones `Unspace` removes. */
  lemma {:induction false} UnspaceSpaceRuns(s: string, afterUpper: bool)
    ensures Unspace(SpaceRuns(s, afterUpper)) == s
  {
    if s != [] {
      var rest := SpaceRuns(s[1..], if IsUpper(s[0]) && !afterUpper then true else IsUpper(s[0]));
      UnspaceSpaceRuns(s[1..], if IsUpper(s[0]) && !afterUpper then true else IsUpper(s[0]));
      if IsUpper(s[0]) && !afterUpper {
        assert SpaceRuns(s, afterUpper) == [' '] + ([s[0]] + rest);
        assert ([s[0]] + rest)[1..] == rest;
      } else {
        assert SpaceRuns(s, afterUpper) == [s[0]] + rest;
        assert ([s[0]] + rest)[1..] == rest;
      }
      assert s == [s[0]] + s[1..];
    }
  }

  /** The number of capital runs that start in `s`; a leading capital starts
      one unless `afterUpper`. */
  function Runs(s: string, afterUpper: bool): nat {
    if s == [] then 0 else (if IsUpper(s[0]) && !afterUpper then 1 else 0) + Runs(s[1..], IsUpper(s[0]))
  }

  /** `s[i]` is the first capital of a run. */
  predicate RunStart(s: string, afterUpper: bool, i: nat)
    requires i < |s|
  {
    IsUpper(s[i]) && (if i == 0 then !afterUpper else !IsUpper(s[i - 1]))
  }

  /** Where `s[i]` lands once a space precedes every run: after the `i`
      characters before it and one space per run started up to it. */
  function RunsPlace(s: string, afterUpper: bool, i: nat): nat
    requires i < |s|
  {
    i + Runs(s[..i + 1], afterUpper)
  }

  /** The places and run starts of `s[i]`, for `i > 0`, seen from `s[1..]`. */
  lemma RunsShift(s: string, afterUpper: bool, i: nat)
    requires 0 < i < |s|
    ensures RunsPlace(s, afterUpper, i) == 1 + (if IsUpper(s[0]) && !afterUpper then 1 else 0) + RunsPlace(s[1..], IsUpper(s[0]), i - 1)
    ensures RunStart(s, afterUpper, i) == RunStart(s[1..], IsUpper(s[0]), i - 1)
  {
    assert s[..i + 1][1..] == s[1..][..i];
  }

  /** `SpaceRuns(s, afterUpper)` has `s[i]` at its place. */
  ghost predicate RunsKept(s: string, afterUpper: bool) {
    && |SpaceRuns(s, afterUpper)| == |s| + Runs(s, afterUpper)
    && forall i :: 0 <= i < |s| ==>
         RunsPlace(s, afterUpper, i) < |SpaceRuns(s, afterUpper)| && SpaceRuns(s, afterUpper)[RunsPlace(s, afterUpper, i)] == s[i]
  }

  /** `SpaceRuns(s, afterUpper)` has a space right before every run start. */
  ghost predicate RunsSpaced(s: string, afterUpper: bool)
    requires RunsKept(s, afterUpper)
  {
    forall i :: 0 <= i < |s| && RunStart(s, afterUpper, i) ==>
      0 < RunsPlace(s, afterUpper, i) && SpaceRuns(s, afterUpper)[RunsPlace(s, afterUpper, i) - 1] == ' '
  }

  /** `SpaceRuns` of a non-empty string: the optional space, the first
      character, and the rest spaced. */
  lemma SpaceRunsHead(s: string, afterUpper: bool)
    requires s != []
    ensures var sp := if IsUpper(s[0]) && !afterUpper then 1 else 0;
      && Runs(s[..1], afterUpper) == sp
      && SpaceRuns(s, afterUpper) == (if sp == 1 then " " + [s[0]] else [s[0]]) + SpaceRuns(s[1..], IsUpper(s[0]))
  {
    assert s[..1] == [s[0]];
  }

  lemma RunsKeptStep(s: string, afterUpper: bool)
    requires s != [] && RunsKept(s[1..], IsUpper(s[0]))
    ensures RunsKept(s, afterUpper)
  {
    var c, t := s[0], s[1..];
    var sp := if IsUpper(c) && !afterUpper then 1 else 0;
    SpaceRunsHead(s, afterUpper);
    var head := if sp == 1 then " " + [c] else [c];
    var r := SpaceRuns(s, afterUpper);
    assert |head| == 1 + sp;
    forall i | 0 <= i < |s|
      ensures RunsPlace(s, afterUpper, i) < |r| && r[RunsPlace(s, afterUpper, i)] == s[i]
    {
      if i > 0 {
        RunsShift(s, afterUpper, i);
        var k := RunsPlace(t, IsUpper(c), i - 1);
        assert r[|head| + k] == SpaceRuns(t, IsUpper(c))[k];
      }
    }
  }

  lemma RunsSpacedStep(s: string, afterUpper: bool)
    requires s != [] && RunsKept(s[1..], IsUpper(s[0])) && RunsSpaced(s[1..], IsUpper(s[0]))
    requires RunsKept(s, afterUpper)
    ensures RunsSpaced(s, afterUpper)
  {
    var c, t := s[0], s[1..];
    var sp := if IsUpper(c) && !afterUpper then 1 else 0;
    SpaceRunsHead(s, afterUpper);
    var head := if sp == 1 then " " + [c] else [c];
    var r := SpaceRuns(s, afterUpper);
    assert |head| == 1 + sp;
    forall i | 0 <= i < |s| && RunStart(s, afterUpper, i)
      ensures 0 < RunsPlace(s, afterUpper, i) && r[RunsPlace(s, afterUpper, i) - 1] == ' '
    {
      if i > 0 {
        RunsShift(s, afterUpper, i);
        var k := RunsPlace(t, IsUpper(c), i - 1);
        assert 0 < k && r[|head| + (k - 1)] == SpaceRuns(t, IsUpper(c))[k - 1];
      }
    }
  }

  /** `SpaceRuns` keeps every character, in order, and puts one space right
      before the first capital of every run, and nothing else. */
  lemma {:induction false} SpaceRunsPlaces(s: string, afterUpper: bool)
    ensures |SpaceRuns(s, afterUpper)| == |s| + Runs(s, afterUpper)
    ensures forall i :: 0 <= i < |s| ==>
      RunsPlace(s, afterUpper, i) < |SpaceRuns(s, afterUpper)| && SpaceRuns(s, afterUpper)[RunsPlace(s, afterUpper, i)] == s[i]
    ensures forall i :: 0 <= i < |s| && RunStart(s, afterUpper, i) ==>
      0 < RunsPlace(s, afterUpper, i) && SpaceRuns(s, afterUpper)[RunsPlace(s, afterUpper, i) - 1] == ' '
  {
    if s != [] {
      SpaceRunsPlaces(s[1..], IsUpper(s[0]));
      RunsKeptStep(s, afterUpper);
      RunsSpacedStep(s, afterUpper);
    }
  }

  /** The number of capitals in `s`. */
  function Caps(s: string): nat {
    if s == [] then 0 else (if IsUpper(s[0]) then 1 else 0) + Caps(s[1..])
  }

  /** Where `s[i]` lands once a space precedes every capital. */
  function CapsPlace(s: string, i: nat): nat
    requires i < |s|
  {
    i + Caps(s[..i + 1])
  }

  /** `SpaceCaps(s)` has `s[i]` at its place. */
  ghost predicate CapsKept(s: string) {
    && |SpaceCaps(s)| == |s| + Caps(s)
    && forall i :: 0 <= i < |s| ==> CapsPlace(s, i) < |SpaceCaps(s)| && SpaceCaps(s)[CapsPlace(s, i)] == s[i]
  }

  /** `SpaceCaps(s)` has a space right before every capital. */
  ghost predicate CapsSpaced(s: string)
    requires CapsKept(s)
  {
    forall i :: 0 <= i < |s| && IsUpper(s[i]) ==> 0 < CapsPlace(s, i) && SpaceCaps(s)[CapsPlace(s, i) - 1] == ' '
  }

  /** The place of `s[i]`, for `i > 0`, seen from `s[1..]`. */
  lemma CapsShift(s: string, i: nat)
    requires 0 < i < |s|
    ensures CapsPlace(s, i) == 1 + (if IsUpper(s[0]) then 1 else 0) + CapsPlace(s[1..], i - 1)
  {
    assert s[..i + 1][1..] == s[1..][..i];
  }

  /** `SpaceCaps` of a non-empty string: the optional space, the first
      character, and the rest spaced. */
  lemma SpaceCapsHead(s: string)
    requires s != []
    ensures var sp := if IsUpper(s[0]) then 1 else 0;
      && Caps(s[..1]) == sp
      && SpaceCaps(s) == (if sp == 1 then " " + [s[0]] else [s[0]]) + SpaceCaps(s[1..])
  {
    assert s[..1] == [s[0]];
  }

  lemma CapsKeptStep(s: string)
    requires s != [] && CapsKept(s[1..])
    ensures CapsKept(s)
  {
    var sp := if IsUpper(s[0]) then 1 else 0;
    SpaceCapsHead(s);
    var head := if sp == 1 then " " + [s[0]] else [s[0]];
    assert |head| == 1 + sp;
    forall i | 0 <= i < |s| ensures CapsPlace(s, i) < |SpaceCaps(s)| && SpaceCaps(s)[CapsPlace(s, i)] == s[i] {
      if i > 0 {
        CapsShift(s, i);
        var k := CapsPlace(s[1..], i - 1);
        assert SpaceCaps(s)[|head| + k] == SpaceCaps(s[1..])[k];
      }
    }
  }

  lemma CapsSpacedStep(s: string)
    requires s != [] && CapsKept(s[1..]) && CapsSpaced(s[1..]) && CapsKept(s)
    ensures CapsSpaced(s)
  {
    var sp := if IsUpper(s[0]) then 1 else 0;
    SpaceCapsHead(s);
    var head := if sp == 1 then " " + [s[0]] else [s[0]];
    assert |head| == 1 + sp;
    forall i | 0 <= i < |s| && IsUpper(s[i]) ensures 0 < CapsPlace(s, i) && SpaceCaps(s)[CapsPlace(s, i) - 1] == ' ' {
      if i > 0 {
        CapsShift(s, i);
        var k := CapsPlace(s[1..], i - 1);
        assert 0 < k && SpaceCaps(s)[|head| + (k - 1)] == SpaceCaps(s[1..])[k - 1];
      }
    }
  }

  /** `SpaceCaps` keeps every character, in order, and puts one space right
      before every capital, and nothing else. */
  lemma {:induction false} SpaceCapsPlaces(s: string)
    ensures |SpaceCaps(s)| == |s| + Caps(s)
    ensures forall i :: 0 <= i < |s| ==> CapsPlace(s, i) < |SpaceCaps(s)| && SpaceCaps(s)[CapsPlace(s, i)] == s[i]
    ensures forall i :: 0 <= i < |s| && IsUpper(s[i]) ==> 0 < CapsPlace(s, i) && SpaceCaps(s)[CapsPlace(s, i) - 1] == ' '
  {
    if s != [] {
      SpaceCapsPlaces(s[1..]);
      CapsKeptStep(s);
      CapsSpacedStep(s);
    }
  }

  /** `name.replace(/(_)/g, ' ')`. */
  function UnderscoresToSpaces(s: string): (r: string)
    ensures |r| == |s|
    ensures forall i :: 0 <= i < |s| ==> r[i] == if s[i] == '_' then ' ' else s[i]
  {
    if s == [] then [] else [if s[0] == '_' then ' ' else s[0]] + UnderscoresToSpaces(s[1..])
  }

  /** `s.startsWith(p)`. */
  predicate StartsWith(s: string, p: string) {
    |p| <= |s| && s[..|p|] == p
  }
}
