/** Ingredient names: normalising, cleaning and storing them, and the edit form's
    round trip through a text area. Models app/routes/library.py; case folding
    is a parameter known only by its laws. */
module Ingredients {
  import opened Prelude

  // ------------------------------------------------------------ characters

  /** What `\s` and `strip` take for white space. */
  predicate IsSpace(c: char) {
    var n := c as int;
    || 9 <= n <= 13 || 28 <= n <= 32 || n == 0x85 || n == 0xA0 || n == 0x1680 || 0x2000 <= n <= 0x200A
    || n == 0x2028 || n == 0x2029 || n == 0x202F || n == 0x205F || n == 0x3000
  }

  /** What `splitlines` takes for a line boundary. */
  predicate IsBreak(c: char) {
    var n := c as int;
    10 <= n <= 13 || 28 <= n <= 30 || n == 0x85 || n == 0x2028 || n == 0x2029
  }

  type Folding = char -> string

  /** Case folding works character by character, is settled after one pass,
      never empties a character, and neither adds nor touches white space. */
  ghost predicate FoldingLaws(fold: Folding) {
    forall c ::
      && fold(c) != []
      && (IsSpace(c) ==> fold(c) == [c])
      && (!IsSpace(c) ==> Solid(fold(c)))
      && forall k | 0 <= k < |fold(c)| :: fold(fold(c)[k]) == [fold(c)[k]]
  }

  /** Without white space. */
  predicate Solid(s: string) {
    forall k | 0 <= k < |s| :: !IsSpace(s[k])
  }

  function Fold(fold: Folding, s: string): string {
    if s == [] then [] else fold(s[0]) + Fold(fold, s[1..])
  }

  // ------------------------------------------------------------ normalising

  /** Every run of white space becomes one blank. */
  function Collapse(s: string): string {
    if s == [] then []
    else if !IsSpace(s[0]) then [s[0]] + Collapse(s[1..])
    else if |s| > 1 && IsSpace(s[1]) then Collapse(s[1..])
    else [' '] + Collapse(s[1..])
  }

  function TrimLeft(s: string): (r: string)
    ensures |r| <= |s| && (r == [] || !IsSpace(r[0]))
  {
    if s == [] || !IsSpace(s[0]) then s else TrimLeft(s[1..])
  }

  function TrimRight(s: string): string {
    if s == [] || !IsSpace(s[|s| - 1]) then s else TrimRight(s[..|s| - 1])
  }

  function Normalize(fold: Folding, name: string): string {
    TrimRight(TrimLeft(Collapse(Fold(fold, name))))
  }

  // ------------------------------------------------------------ words

  function WordLength(s: string): (n: nat)
    ensures n <= |s| && Solid(s[..n]) && (n == |s| || IsSpace(s[n]))
  {
    if s == [] || IsSpace(s[0]) then 0
    else
      var n := WordLength(s[1..]);
      assert s[..n + 1] == [s[0]] + s[1..][..n];
      n + 1
  }

  function Words(s: string): seq<string>
    decreases |s|
  {
    var t := TrimLeft(s);
    if t == [] then [] else [t[..WordLength(t)]] + Words(t[WordLength(t)..])
  }

  /** The words with single blanks in between. */
  function Spaced(words: seq<string>): string {
    if words == [] then []
    else if |words| == 1 then words[0]
    else words[0] + [' '] + Spaced(words[1..])
  }

  ghost predicate AreWords(words: seq<string>) {
    forall k | 0 <= k < |words| :: words[k] != [] && Solid(words[k])
  }

  lemma {:induction false} WordsAreWords(s: string)
    ensures AreWords(Words(s))
    decreases |s|
  {
    var t := TrimLeft(s);
    if t != [] {
      WordsAreWords(t[WordLength(t)..]);
    }
  }

  lemma {:induction false} CollapseSolid(w: string, t: string)
    requires Solid(w)
    ensures Collapse(w + t) == w + Collapse(t)
  {
    if w == [] {
      assert w + t == t;
    } else {
      assert (w + t)[1..] == w[1..] + t;
      CollapseSolid(w[1..], t);
    }
  }

  lemma {:induction false} CollapseBlank(s: string)
    requires s != [] && IsSpace(s[0])
    ensures Collapse(s) == [' '] + Collapse(TrimLeft(s))
  {
    if |s| > 1 && IsSpace(s[1]) {
      CollapseBlank(s[1..]);
    } else {
      assert TrimLeft(s) == s[1..];
    }
  }

  lemma {:induction false} TrimRightSolid(s: string)
    requires Solid(s)
    ensures TrimRight(s) == s
  {
  }

  lemma {:induction false} TrimRightConcat(a: string, b: string)
    requires TrimRight(b) != []
    ensures TrimRight(a + b) == a + TrimRight(b)
  {
    if IsSpace(b[|b| - 1]) {
      assert (a + b)[..|a + b| - 1] == a + b[..|b| - 1];
      TrimRightConcat(a, b[..|b| - 1]);
    }
  }

  lemma TrimWord(w: string)
    requires Solid(w)
    ensures TrimRight(w + [' ']) == w
  {
    assert (w + [' '])[..|w|] == w;
    TrimRightSolid(w);
  }

  /** One word, then the rest. */
  lemma SplitWord(s: string) returns (w: string, u: string)
    requires s != [] && !IsSpace(s[0])
    ensures w != [] && Solid(w) && |u| < |s| && (u == [] || !IsSpace(u[0]))
    ensures Words(s) == [w] + Words(u)
    ensures Collapse(s) == w || Collapse(s) == w + [' '] + Collapse(u)
    ensures Collapse(s) == w ==> u == []
  {
    var n := WordLength(s);
    var t := s[n..];
    w, u := s[..n], TrimLeft(t);
    assert n > 0 && s == w + t && TrimLeft(s) == s;
    WordsTrimmed(t);
    CollapseSolid(w, t);
    if t == [] {
      assert w + [] == w;
    } else {
      CollapseBlank(t);
      assert w + ([' '] + Collapse(u)) == w + [' '] + Collapse(u);
    }
  }

  /** Collapsing and trimming leaves the words with single blanks between them. */
  lemma {:induction false} TrimmedIsSpaced(s: string)
    requires s == [] || !IsSpace(s[0])
    ensures TrimRight(Collapse(s)) == Spaced(Words(s))
    decreases |s|
  {
    if s != [] {
      var w, u := SplitWord(s);
      if u == [] {
        TrimRightSolid(w);
        TrimWord(w);
        assert w + [' '] + Collapse([]) == w + [' '];
        assert Words([]) == [];
        hide Words, Collapse, TrimRight;
      } else {
        hide Collapse, TrimRight, Solid;
        TrimmedIsSpaced(u);
        SpacedMore(w, u);
        TrimRightConcat(w + [' '], Collapse(u));
      }
    }
  }

  lemma SpacedMore(w: string, u: string)
    requires u != [] && !IsSpace(u[0])
    ensures Spaced([w] + Words(u)) == w + [' '] + Spaced(Words(u))
    ensures Spaced(Words(u)) != []
  {
    assert TrimLeft(u) == u;
    WordsAreWords(u);
    assert ([w] + Words(u))[1..] == Words(u);
  }

  lemma WordsTrimmed(s: string)
    ensures Words(TrimLeft(s)) == Words(s)
  {
    assert TrimLeft(TrimLeft(s)) == TrimLeft(s);
  }

  lemma CollapseStart(s: string)
    requires s != [] && !IsSpace(s[0])
    ensures Collapse(s) != [] && Collapse(s)[0] == s[0]
  {
  }

  /** The canonical name is the folded words, one blank apart. */
  lemma NormalizeIsWords(fold: Folding, name: string)
    ensures Normalize(fold, name) == Spaced(Words(Fold(fold, name)))
  {
    var s := Fold(fold, name);
    var t := TrimLeft(s);
    if s != [] && IsSpace(s[0]) {
      CollapseBlank(s);
      assert ([' '] + Collapse(t))[1..] == Collapse(t);
      if t != [] {
        CollapseStart(t);
      }
      assert TrimLeft([' '] + Collapse(t)) == TrimLeft(Collapse(t));
    } else if s != [] {
      CollapseStart(s);
    }
    TrimmedIsSpaced(t);
    WordsTrimmed(s);
    if t != [] {
      CollapseStart(t);
    }
  }

  lemma {:induction false} WordsOfSpaced(words: seq<string>)
    requires AreWords(words)
    ensures Words(Spaced(words)) == words
  {
    if words != [] {
      var s, w := Spaced(words), words[0];
      assert s[0] == w[0];
      assert TrimLeft(s) == s;
      if |words| == 1 {
        WordStops(w, []);
        assert w + [] == w;
        assert s[|w|..] == [] && Words([]) == [];
      } else {
        var rest := [' '] + Spaced(words[1..]);
        assert s == w + rest;
        WordStops(w, rest);
        assert s[..|w|] == w && s[|w|..] == rest;
        WordsOfSpaced(words[1..]);
        assert rest[1..] == Spaced(words[1..]);
        assert TrimLeft(rest) == TrimLeft(Spaced(words[1..]));
      }
    }
  }

  lemma {:induction false} WordStops(w: string, rest: string)
    requires Solid(w) && (rest == [] || IsSpace(rest[0]))
    ensures WordLength(w + rest) == |w|
  {
    if w == [] {
      assert w + rest == rest;
    } else {
      assert (w + rest)[1..] == w[1..] + rest;
      WordStops(w[1..], rest);
    }
  }

  /** Two spellings are one ingredient exactly when their folded words agree. */
  lemma SameIngredientMeans(fold: Folding, a: string, b: string)
    ensures Normalize(fold, a) == Normalize(fold, b) <==> Words(Fold(fold, a)) == Words(Fold(fold, b))
  {
    NormalizeIsWords(fold, a);
    NormalizeIsWords(fold, b);
    WordsAreWords(Fold(fold, a));
    WordsAreWords(Fold(fold, b));
    WordsOfSpaced(Words(Fold(fold, a)));
    WordsOfSpaced(Words(Fold(fold, b)));
  }

  // ------------------------------------------------------------ normalising twice

  ghost predicate Settled(fold: Folding, s: string) {
    forall k | 0 <= k < |s| :: fold(s[k]) == [s[k]]
  }

  lemma {:induction false} FoldSettles(fold: Folding, s: string)
    requires FoldingLaws(fold)
    ensures Settled(fold, Fold(fold, s))
  {
    if s != [] {
      FoldSettles(fold, s[1..]);
    }
  }

  lemma {:induction false} FoldSettled(fold: Folding, s: string)
    requires Settled(fold, s)
    ensures Fold(fold, s) == s
  {
    if s != [] {
      FoldSettled(fold, s[1..]);
    }
  }

  lemma {:induction false} CollapseSettled(fold: Folding, s: string)
    requires FoldingLaws(fold) && Settled(fold, s)
    ensures Settled(fold, Collapse(s))
  {
    if s != [] {
      CollapseSettled(fold, s[1..]);
      assert IsSpace(' ');
    }
  }

  lemma {:induction false} TrimLeftSettled(fold: Folding, s: string)
    requires Settled(fold, s)
    ensures Settled(fold, TrimLeft(s))
  {
    if s != [] {
      TrimLeftSettled(fold, s[1..]);
    }
  }

  lemma {:induction false} TrimRightSettled(fold: Folding, s: string)
    requires Settled(fold, s)
    ensures Settled(fold, TrimRight(s))
  {
    if s != [] {
      TrimRightSettled(fold, s[..|s| - 1]);
    }
  }

  /** A canonical name: nothing left to fold, and single blanks between words. */
  ghost predicate Canonical(fold: Folding, s: string) {
    Settled(fold, s) && s == Spaced(Words(s))
  }

  lemma NormalizeCanonical(fold: Folding, name: string)
    requires FoldingLaws(fold)
    ensures Canonical(fold, Normalize(fold, name))
  {
    var s := Fold(fold, name);
    FoldSettles(fold, name);
    CollapseSettled(fold, s);
    TrimLeftSettled(fold, Collapse(s));
    TrimRightSettled(fold, TrimLeft(Collapse(s)));
    NormalizeIsWords(fold, name);
    WordsAreWords(s);
    WordsOfSpaced(Words(s));
  }

  /** Normalising leaves exactly the canonical names alone. */
  lemma NormalizeFixes(fold: Folding, s: string)
    requires FoldingLaws(fold)
    ensures Normalize(fold, s) == s <==> Canonical(fold, s)
  {
    NormalizeCanonical(fold, s);
    if Canonical(fold, s) {
      FoldSettled(fold, s);
      NormalizeIsWords(fold, s);
    }
  }

  // ------------------------------------------------------------ cleaning

  /** Normalised, without blanks and repeats, in first-seen order. */
  function Cleaned(fold: Folding, raw: seq<string>): seq<string> {
    if raw == [] then []
    else
      var names, name := Cleaned(fold, raw[..|raw| - 1]), Normalize(fold, raw[|raw| - 1]);
      if name != [] && name !in names then names + [name] else names
  }

  /** The source's loop with its local list and its set of names seen. */
  method CleanIngredientNames(fold: Folding, raw: seq<string>) returns (names: seq<string>)
    ensures names == Cleaned(fold, raw)
  {
    names := [];
    var seen: set<string> := {};
    for k := 0 to |raw|
      invariant names == Cleaned(fold, raw[..k])
      invariant forall n :: n in seen <==> n in names
    {
      assert raw[..k + 1][..k] == raw[..k];
      var name := Normalize(fold, raw[k]);
      if name != [] && name !in seen {
        seen := seen + {name};
        names := names + [name];
      }
    }
    assert raw[..|raw|] == raw;
  }

  predicate SeenFirstAt(fold: Folding, raw: seq<string>, name: string, n: nat) {
    n < |raw| && Normalize(fold, raw[n]) == name && forall m | 0 <= m < n :: Normalize(fold, raw[m]) != name
  }

  lemma {:induction false} CleanedHas(fold: Folding, raw: seq<string>)
    ensures NoRepeats(Cleaned(fold, raw))
    ensures forall name :: name in Cleaned(fold, raw) <==> name != [] && exists n ::
              0 <= n < |raw| && Normalize(fold, raw[n]) == name
  {
    if raw != [] {
      hide Normalize;
      var init, last := raw[..|raw| - 1], |raw| - 1;
      CleanedHas(fold, init);
      var names := Cleaned(fold, raw);
      assert forall n | 0 <= n < last :: init[n] == raw[n];
      forall name
        ensures name in names <==> name != [] && exists n :: 0 <= n < |raw| && Normalize(fold, raw[n]) == name
      {
        if name in Cleaned(fold, init) {
          var n :| 0 <= n < |init| && Normalize(fold, init[n]) == name;
          assert Normalize(fold, raw[n]) == name;
        }
      }
    }
  }

  lemma SeenEarlier(fold: Folding, raw: seq<string>, name: string, n: nat)
    requires raw != [] && name != [] && SeenFirstAt(fold, raw, name, n)
    ensures var init := raw[..|raw| - 1];
            if name in Cleaned(fold, init) then SeenFirstAt(fold, init, name, n) else n == |init|
  {
    hide Normalize;
    var init := raw[..|raw| - 1];
    assert forall m | 0 <= m < |init| :: init[m] == raw[m];
    CleanedHas(fold, init);
    if n < |init| {
      assert Normalize(fold, init[n]) == name;
    }
  }

  lemma {:induction false} CleanedInOrder(fold: Folding, raw: seq<string>, j: nat, k: nat, m: nat, n: nat)
    requires j < k < |Cleaned(fold, raw)|
    requires SeenFirstAt(fold, raw, Cleaned(fold, raw)[j], m) && SeenFirstAt(fold, raw, Cleaned(fold, raw)[k], n)
    ensures m < n
    decreases |raw|
  {
    hide Normalize;
    var names, init := Cleaned(fold, raw), raw[..|raw| - 1];
    CleanedHas(fold, raw);
    assert names[j] in names && names[k] in names;
    SeenEarlier(fold, raw, names[j], m);
    SeenEarlier(fold, raw, names[k], n);
    var before := Cleaned(fold, init);
    assert names[j] == before[j];
    if k < |before| {
      CleanedInOrder(fold, init, j, k, m, n);
    }
  }

  /** What cleaning keeps: every nonblank canonical name of the input, each once,
      in the order of first appearance. */
  lemma CleanedMeans(fold: Folding, raw: seq<string>)
    ensures var names := Cleaned(fold, raw);
            && NoRepeats(names)
            && (forall name :: name in names <==> name != [] && exists n ::
                0 <= n < |raw| && Normalize(fold, raw[n]) == name)
            && (forall j, k, m, n | 0 <= j < k < |names| && SeenFirstAt(fold, raw, names[j], m)
                                    && SeenFirstAt(fold, raw, names[k], n) :: m < n)
  {
    CleanedHas(fold, raw);
    hide Cleaned, SeenFirstAt;
    forall j, k, m, n | 0 <= j < k < |Cleaned(fold, raw)| && SeenFirstAt(fold, raw, Cleaned(fold, raw)[j], m)
                        && SeenFirstAt(fold, raw, Cleaned(fold, raw)[k], n)
      ensures m < n
    {
      CleanedInOrder(fold, raw, j, k, m, n);
    }
  }

  ghost predicate Clean(fold: Folding, names: seq<string>) {
    NoRepeats(names) && forall k | 0 <= k < |names| :: names[k] != [] && Canonical(fold, names[k])
  }

  lemma CleanedIsClean(fold: Folding, raw: seq<string>)
    requires FoldingLaws(fold)
    ensures Clean(fold, Cleaned(fold, raw))
  {
    CleanedMeans(fold, raw);
    var names := Cleaned(fold, raw);
    forall k | 0 <= k < |names| ensures names[k] != [] && Canonical(fold, names[k]) {
      assert names[k] in names;
      var n :| 0 <= n < |raw| && Normalize(fold, raw[n]) == names[k];
      NormalizeCanonical(fold, raw[n]);
    }
  }

  lemma ShorterClean(fold: Folding, names: seq<string>)
    requires Clean(fold, names) && names != []
    ensures var init, last := names[..|names| - 1], names[|names| - 1];
            Clean(fold, init) && last != [] && last !in init && Canonical(fold, last)
  {
    hide Canonical;
  }

  lemma CleanedNothing(fold: Folding)
    ensures Cleaned(fold, []) == []
  {
  }

  lemma CleanedGrows(fold: Folding, raw: seq<string>, name: string)
    requires name != [] && Normalize(fold, name) == name && name !in Cleaned(fold, raw)
    ensures Cleaned(fold, raw + [name]) == Cleaned(fold, raw) + [name]
  {
    hide Normalize;
    assert (raw + [name])[..|raw|] == raw;
  }

  /** Cleaning leaves clean lists alone, so cleaning twice is cleaning once. */
  lemma {:induction false} CleanedFixes(fold: Folding, names: seq<string>)
    requires FoldingLaws(fold) && Clean(fold, names)
    ensures Cleaned(fold, names) == names
  {
    hide *;
    CleanedNothing(fold);
    if names != [] {
      var init, last := names[..|names| - 1], names[|names| - 1];
      ShorterClean(fold, names);
      CleanedFixes(fold, init);
      NormalizeFixes(fold, last);
      CleanedGrows(fold, init, last);
      assert names == init + [last];
    }
  }

  lemma CleanedTwice(fold: Folding, raw: seq<string>)
    requires FoldingLaws(fold)
    ensures Cleaned(fold, Cleaned(fold, raw)) == Cleaned(fold, raw)
  {
    CleanedIsClean(fold, raw);
    CleanedFixes(fold, Cleaned(fold, raw));
  }

  // ------------------------------------------------------------ the text area

  function LineLength(s: string): (n: nat)
    ensures n <= |s| && (n == |s| || IsBreak(s[n])) && forall k | 0 <= k < n :: !IsBreak(s[k])
  {
    if s == [] || IsBreak(s[0]) then 0 else 1 + LineLength(s[1..])
  }

  /** Lines without their ends; a final line end opens no further line. */
  function SplitLines(s: string): seq<string> {
    if s == [] then []
    else
      var n := LineLength(s);
      if n == |s| then [s]
      else if s[n] == '\r' && n + 1 < |s| && s[n + 1] == '\n' then [s[..n]] + SplitLines(s[n + 2..])
      else [s[..n]] + SplitLines(s[n + 1..])
  }

  function JoinLines(lines: seq<string>, end: string): string {
    if lines == [] then []
    else if |lines| == 1 then lines[0]
    else lines[0] + end + JoinLines(lines[1..], end)
  }

  /** `rstrip("\r\n")`. */
  function TrimLineEnds(s: string): string {
    if s == [] || !(s[|s| - 1] == '\r' || s[|s| - 1] == '\n') then s else TrimLineEnds(s[..|s| - 1])
  }

  predicate OneLine(s: string) {
    s != [] && forall k | 0 <= k < |s| :: !IsBreak(s[k])
  }

  lemma {:induction false} LineStops(line: string, rest: string)
    requires (forall k | 0 <= k < |line| :: !IsBreak(line[k])) && (rest == [] || IsBreak(rest[0]))
    ensures LineLength(line + rest) == |line|
  {
    if line == [] {
      assert line + rest == rest;
    } else {
      assert (line + rest)[1..] == line[1..] + rest;
      LineStops(line[1..], rest);
    }
  }

  lemma {:induction false} JoinedEndsPlain(lines: seq<string>, end: string)
    requires lines != [] && forall k | 0 <= k < |lines| :: OneLine(lines[k])
    ensures var s := JoinLines(lines, end); s != [] && !IsBreak(s[|s| - 1])
  {
    if |lines| > 1 {
      JoinedEndsPlain(lines[1..], end);
    }
  }

  /** Whichever way the browser ends lines, they come back as they were. */
  lemma {:induction false} SplitJoined(lines: seq<string>, end: string)
    requires end == "\n" || end == "\r\n"
    requires forall k | 0 <= k < |lines| :: OneLine(lines[k])
    ensures SplitLines(TrimLineEnds(JoinLines(lines, end))) == lines
  {
    if lines != [] {
      JoinedEndsPlain(lines, end);
      SplitJoinedPlain(lines, end);
    }
  }

  lemma {:induction false} SplitJoinedPlain(lines: seq<string>, end: string)
    requires end == "\n" || end == "\r\n"
    requires forall k | 0 <= k < |lines| :: OneLine(lines[k])
    ensures SplitLines(JoinLines(lines, end)) == lines
  {
    if |lines| == 1 {
      LineStops(lines[0], []);
      assert lines[0] + [] == lines[0];
    } else if |lines| > 1 {
      var rest := JoinLines(lines[1..], end);
      var s := JoinLines(lines, end);
      assert s == lines[0] + (end + rest);
      LineStops(lines[0], end + rest);
      SplitJoinedPlain(lines[1..], end);
      JoinedStartsPlain(lines[1..], end);
      assert s[..|lines[0]|] == lines[0];
      assert s[|lines[0]| + |end|..] == rest;
      assert s[|lines[0]|] == end[0];
    }
  }

  /** The text without its line boundaries. */
  function Unbroken(s: string): string {
    if s == [] then [] else (if IsBreak(s[0]) then [] else [s[0]]) + Unbroken(s[1..])
  }

  /** The lines one after the other. */
  function Flat(lines: seq<string>): string {
    if lines == [] then [] else lines[0] + Flat(lines[1..])
  }

  lemma {:induction false} UnbrokenFrom(s: string, n: nat)
    requires n <= |s| && forall k | 0 <= k < n :: !IsBreak(s[k])
    ensures Unbroken(s) == s[..n] + Unbroken(s[n..])
  {
    if n > 0 {
      UnbrokenFrom(s[1..], n - 1);
      assert s[..n] == [s[0]] + s[1..][..n - 1];
      assert s[1..][n - 1..] == s[n..];
    } else {
      assert s[0..] == s;
    }
  }

  /** Whatever text is posted, its lines hold all of it but the line boundaries,
      in order, and no boundary is left inside a line. */
  lemma {:induction false} SplitLinesKeepsText(s: string)
    ensures Flat(SplitLines(s)) == Unbroken(s)
    ensures forall j, k | 0 <= j < |SplitLines(s)| && 0 <= k < |SplitLines(s)[j]| :: !IsBreak(SplitLines(s)[j][k])
    decreases |s|
  {
    if s != [] {
      var n := LineLength(s);
      UnbrokenFrom(s, n);
      if n == |s| {
        assert s[..n] == s && Flat([s]) == s + Flat([]);
      } else {
        var m := if s[n] == '\r' && n + 1 < |s| && s[n + 1] == '\n' then n + 2 else n + 1;
        var lines := SplitLines(s[m..]);
        SplitLinesKeepsText(s[m..]);
        assert Unbroken(s[n..]) == Unbroken(s[m..]) by { SkipsEnd(s[n..], m - n); }
        assert s[n..][m - n..] == s[m..];
        assert SplitLines(s) == [s[..n]] + lines;
      }
    }
  }

  lemma SkipsEnd(s: string, n: nat)
    requires 1 <= n <= 2 && n <= |s| && IsBreak(s[0]) && (n == 2 ==> IsBreak(s[1]))
    ensures Unbroken(s) == Unbroken(s[n..])
  {
    if n == 2 {
      assert s[1..][1..] == s[2..];
    }
  }

  /** The characters that end a line, one by one; each is white space too. */
  lemma LineBoundaries(c: char)
    ensures IsBreak(c) <==> c in {'\n', '\r', '\U{000B}', '\U{000C}', '\U{001C}', '\U{001D}', '\U{001E}',
                                  '\U{0085}', '\U{2028}', '\U{2029}'}
    ensures IsSpace(c) <==> IsBreak(c) || '\U{2000}' <= c <= '\U{200A}'
                            || c in {'\t', ' ', '\U{001F}', '\U{00A0}', '\U{1680}', '\U{202F}', '\U{205F}',
                                     '\U{3000}'}
  {
  }

  lemma JoinedStartsPlain(lines: seq<string>, end: string)
    requires lines != [] && OneLine(lines[0])
    ensures JoinLines(lines, end) != [] && !IsBreak(JoinLines(lines, end)[0])
  {
  }

  lemma {:induction false} SpacedBlanks(words: seq<string>)
    requires AreWords(words)
    ensures forall k | 0 <= k < |Spaced(words)| :: IsSpace(Spaced(words)[k]) ==> Spaced(words)[k] == ' '
  {
    if |words| > 1 {
      SpacedBlanks(words[1..]);
    }
  }

  lemma CanonicalIsOneLine(fold: Folding, s: string)
    requires Canonical(fold, s) && s != []
    ensures OneLine(s)
  {
    WordsAreWords(s);
    SpacedBlanks(Words(s));
    assert forall c: char :: IsBreak(c) ==> IsSpace(c) && c != ' ';
  }

  /** Saving the form as it was rendered yields the same names. */
  lemma FormRoundTrip(fold: Folding, names: seq<string>, end: string)
    requires FoldingLaws(fold) && Clean(fold, names) && (end == "\n" || end == "\r\n")
    ensures Cleaned(fold, SplitLines(TrimLineEnds(JoinLines(names, end)))) == names
  {
    forall k | 0 <= k < |names| ensures OneLine(names[k]) {
      CanonicalIsOneLine(fold, names[k]);
    }
    SplitJoined(names, end);
    CleanedFixes(fold, names);
  }
}
