/** The Hebrew text normaliser: four passes over a string, applied in order.
    Strings are sequences of Unicode scalar values. */
module Hebrew {

  // ---------------------------------------------------------------------------
  // Character classes
  // ---------------------------------------------------------------------------

  /** U+0591..U+05C7: vowel points and cantillation marks, deleted by the first pass. */
  predicate IsMark(c: char) {
    0x591 <= c as int <= 0x5C7
  }

  /** U+0590..U+05FF: the Unicode Hebrew block, the only characters the second pass keeps. */
  predicate InHebrewBlock(c: char) {
    0x590 <= c as int <= 0x5FF
  }

  /** The characters JavaScript's `\s` class and `String.prototype.trim` treat as white space:
      the ECMAScript WhiteSpace and LineTerminator code points. */
  predicate IsSpace(c: char) {
    var n := c as int;
    n == 0x09 || n == 0x0A || n == 0x0B || n == 0x0C || n == 0x0D || n == 0x20 ||
    n == 0xA0 || n == 0x1680 || (0x2000 <= n <= 0x200A) || n == 0x2028 || n == 0x2029 ||
    n == 0x202F || n == 0x205F || n == 0x3000 || n == 0xFEFF
  }

  /** The five final letter forms: kaf, mem, nun, pe and tsadi sofit. */
  predicate IsFinalForm(c: char) {
    c == '\U{05DA}' || c == '\U{05DD}' || c == '\U{05DF}' || c == '\U{05E3}' || c == '\U{05E5}'
  }

  /** How the classes sit in the code space: the marks and the final forms lie in the Hebrew
      block, a final form is a letter and not a mark, and no white space lies in the block. */
  lemma CharClasses(c: char)
    ensures IsMark(c) ==> InHebrewBlock(c)
    ensures IsFinalForm(c) ==> InHebrewBlock(c) && !IsMark(c)
    ensures IsSpace(c) ==> !InHebrewBlock(c)
  {
  }

  /** The final-to-standard table; every other character maps to itself. */
  function FinalToStandard(c: char): (d: char)
    ensures !IsFinalForm(d)
    ensures IsFinalForm(c) ==> d as int == c as int + 1 && InHebrewBlock(d) && !IsMark(d)
    ensures !IsFinalForm(c) ==> d == c
  {
    if c == '\U{05DA}' then '\U{05DB}'
    else if c == '\U{05DD}' then '\U{05DE}'
    else if c == '\U{05DF}' then '\U{05E0}'
    else if c == '\U{05E3}' then '\U{05E4}'
    else if c == '\U{05E5}' then '\U{05E6}'
    else c
  }

  // ---------------------------------------------------------------------------
  // Properties of strings
  // ---------------------------------------------------------------------------

  predicate NoMarks(s: string) {
    forall i :: 0 <= i < |s| ==> !IsMark(s[i])
  }

  /** Every character is a plain space or lies in the Hebrew block. */
  predicate HebrewOrSpace(s: string) {
    forall i :: 0 <= i < |s| ==> s[i] == ' ' || InHebrewBlock(s[i])
  }

  predicate NoFinalForms(s: string) {
    forall i :: 0 <= i < |s| ==> !IsFinalForm(s[i])
  }

  /** No white space other than ' ', and never two spaces in a row. */
  predicate SingleSpaced(s: string) {
    (forall i :: 0 <= i < |s| && IsSpace(s[i]) ==> s[i] == ' ') &&
    (forall i, j :: 0 <= i < |s| && j == i + 1 && j < |s| ==> s[i] != ' ' || s[j] != ' ')
  }

  /** Neither starts nor ends with white space. */
  predicate Trimmed(s: string) {
    s != [] ==> !IsSpace(s[0]) && !IsSpace(s[|s| - 1])
  }

  /** The shape of every output of Normalize. */
  predicate NormalForm(s: string) {
    NoMarks(s) && HebrewOrSpace(s) && NoFinalForms(s) && SingleSpaced(s) && Trimmed(s)
  }

  // ---------------------------------------------------------------------------
  // The four passes
  // ---------------------------------------------------------------------------

  /** Pass 1: delete every point and cantillation mark. */
  function StripMarks(s: string): (r: string)
    ensures |r| <= |s|
    ensures NoMarks(r)
    ensures forall i :: 0 <= i < |r| ==> r[i] in s
  {
    if s == [] then []
    else if IsMark(s[0]) then StripMarks(s[1..])
    else [s[0]] + StripMarks(s[1..])
  }

  /** The replacement pass 2 makes for one character. */
  function BlankForeignChar(c: char): (d: char)
    ensures InHebrewBlock(d) || IsSpace(d)
    ensures InHebrewBlock(c) || IsSpace(c) ==> d == c
    ensures !InHebrewBlock(c) && !IsSpace(c) ==> d == ' '
  {
    if InHebrewBlock(c) || IsSpace(c) then c else ' '
  }

  /** Pass 2: every character that is neither white space nor in the Hebrew block becomes a space. */
  function BlankForeign(s: string): (r: string)
    ensures |r| == |s|
    ensures forall i :: 0 <= i < |r| ==> r[i] == BlankForeignChar(s[i])
    ensures forall i :: 0 <= i < |r| ==> InHebrewBlock(r[i]) || IsSpace(r[i])
  {
    seq(|s|, i requires 0 <= i < |s| => BlankForeignChar(s[i]))
  }

  /** Pass 3: split into characters, map each through the final-to-standard table, join. */
  function MapFinals(s: string): (r: string)
    ensures |r| == |s|
    ensures forall i :: 0 <= i < |r| ==> r[i] == FinalToStandard(s[i])
    ensures NoFinalForms(r)
  {
    seq(|s|, i requires 0 <= i < |s| => FinalToStandard(s[i]))
  }

  /** Pass 1 works character by character: it deletes each mark and keeps every other character,
      in order. */
  lemma {:induction false} StripMarksConcat(a: string, b: string)
    ensures StripMarks(a + b) == StripMarks(a) + StripMarks(b)
  {
    if a != [] {
      assert (a + b)[1..] == a[1..] + b;
      StripMarksConcat(a[1..], b);
    } else {
      assert a + b == b;
    }
  }

  /** Pass 1 on one character. */
  lemma StripMarksChar(c: char)
    ensures StripMarks([c]) == if IsMark(c) then [] else [c]
  {
    assert [c][1..] == [];
  }

  /** Drops leading white space. */
  function TrimStart(s: string): (r: string)
    ensures |r| <= |s| && r == s[|s| - |r|..]
    ensures forall i :: 0 <= i < |s| - |r| ==> IsSpace(s[i])
    ensures r != [] ==> !IsSpace(r[0])
  {
    if s != [] && IsSpace(s[0]) then TrimStart(s[1..]) else s
  }

  /** Drops trailing white space. */
  function TrimEnd(s: string): (r: string)
    ensures |r| <= |s| && r == s[..|r|]
    ensures forall i :: |r| <= i < |s| ==> IsSpace(s[i])
    ensures r != [] ==> !IsSpace(r[|r| - 1])
  {
    if s != [] && IsSpace(s[|s| - 1]) then TrimEnd(s[..|s| - 1]) else s
  }

  /** `String.prototype.trim`: the result is the input with leading and trailing white space cut off. */
  function Trim(s: string): (r: string)
    ensures |r| <= |s|
    ensures Trimmed(r)
    ensures NoMarks(s) ==> NoMarks(r)
    ensures HebrewOrSpace(s) ==> HebrewOrSpace(r)
    ensures NoFinalForms(s) ==> NoFinalForms(r)
    ensures SingleSpaced(s) ==> SingleSpaced(r)
  {
    TrimShape(s);
    TrimEnd(TrimStart(s))
  }

  /** Cutting white space off both ends leaves a contiguous piece of the input that neither starts
      nor ends with white space. */
  lemma TrimShape(s: string)
    ensures var r := TrimEnd(TrimStart(s));
      |r| <= |s| && Trimmed(r) &&
      (NoMarks(s) ==> NoMarks(r)) && (HebrewOrSpace(s) ==> HebrewOrSpace(r)) &&
      (NoFinalForms(s) ==> NoFinalForms(r)) && (SingleSpaced(s) ==> SingleSpaced(r))
  {
    var t := TrimStart(s);
    var r := TrimEnd(t);
    var k := |s| - |t|;
    assert r == s[k..k + |r|];
    if r != [] {
      assert r[0] == t[0];
    }
    SliceKeeps(s, k, r);
  }

  /** Trimming leaves nothing exactly when the string is all white space. */
  lemma TrimEmpty(s: string)
    ensures Trim(s) == [] <==> forall i :: 0 <= i < |s| ==> IsSpace(s[i])
  {
    var t := TrimStart(s);
    assert Trim(s) == TrimEnd(t);
    if t != [] {
      assert t[0] == s[|s| - |t|];
    }
  }

  /** Trimming cuts only white space, and only at the two ends: the result is the piece of the
      input that starts after the leading white space. */
  lemma TrimCuts(s: string)
    ensures Trim(s) == TrimEnd(TrimStart(s))
    ensures var k := |s| - |TrimStart(s)|; var r := TrimEnd(TrimStart(s));
      k + |r| <= |s| && r == s[k..k + |r|] &&
      (forall i :: 0 <= i < k ==> IsSpace(s[i])) &&
      (forall i :: k + |r| <= i < |s| ==> IsSpace(s[i]))
  {
    TrimPiece(s);
    TrimTail(s);
  }

  /** The piece left by trimming lies right after the leading white space. */
  lemma TrimPiece(s: string)
    ensures var k := |s| - |TrimStart(s)|; var r := TrimEnd(TrimStart(s));
      k + |r| <= |s| && r == s[k..k + |r|]
  {
  }

  /** What trimming the end cuts off lies past the piece. */
  lemma TrimTail(s: string)
    ensures var k := |s| - |TrimStart(s)|; var r := TrimEnd(TrimStart(s));
      forall i :: k + |r| <= i < |s| ==> IsSpace(s[i])
  {
    var t := TrimStart(s);
    var r := TrimEnd(t);
    var k := |s| - |t|;
    forall i | k + |r| <= i < |s|
      ensures IsSpace(s[i])
    {
      assert s[i] == t[i - k];
    }
  }

  /** A contiguous piece of a string keeps the per-character shapes of the whole. */
  lemma SliceKeeps(s: string, k: nat, r: string)
    requires k + |r| <= |s| && r == s[k..k + |r|]
    ensures NoMarks(s) ==> NoMarks(r)
    ensures HebrewOrSpace(s) ==> HebrewOrSpace(r)
    ensures NoFinalForms(s) ==> NoFinalForms(r)
    ensures SingleSpaced(s) ==> SingleSpaced(r)
  {
    assert forall i :: 0 <= i < |r| ==> r[i] == s[k + i];
  }

  /** `replace(/\s+/g, ' ')`: every maximal run of white space becomes one space. */
  function Collapse(s: string): (r: string)
    ensures |r| <= |s|
    ensures r != [] ==> (r[0] == ' ' <==> IsSpace(s[0]))
    decreases |s|
  {
    if s == [] then []
    else if IsSpace(s[0]) then [' '] + Collapse(TrimStart(s[1..]))
    else [s[0]] + Collapse(s[1..])
  }

  /** Collapse leaves no white space but single plain spaces. */
  lemma {:induction false} CollapseSingleSpaced(s: string)
    ensures SingleSpaced(Collapse(s))
    decreases |s|
  {
    if s != [] {
      if IsSpace(s[0]) {
        var rest := TrimStart(s[1..]);
        CollapseSingleSpaced(rest);
        ConsSingleSpaced(' ', Collapse(rest));
      } else {
        CollapseSingleSpaced(s[1..]);
        ConsSingleSpaced(s[0], Collapse(s[1..]));
      }
    }
  }

  /** Putting a character in front keeps a string single-spaced, unless it doubles a space. */
  lemma ConsSingleSpaced(c: char, t: string)
    requires SingleSpaced(t)
    requires IsSpace(c) ==> c == ' '
    requires c == ' ' && t != [] ==> t[0] != ' '
    ensures SingleSpaced([c] + t)
  {
    var r := [c] + t;
    assert forall i :: 0 < i < |r| ==> r[i] == t[i - 1];
  }

  /** Collapse introduces no character other than ' ': a property of every input character
      that ' ' also has holds of every output character. */
  lemma {:induction false} CollapseKeeps(s: string, p: char -> bool)
    requires p(' ')
    requires forall i :: 0 <= i < |s| ==> p(s[i])
    ensures forall i :: 0 <= i < |Collapse(s)| ==> p(Collapse(s)[i])
    decreases |s|
  {
    if s == [] {
    } else if IsSpace(s[0]) {
      var rest := TrimStart(s[1..]);
      assert forall i :: 0 <= i < |rest| ==> p(rest[i]) by {
        assert forall i :: 0 <= i < |rest| ==> rest[i] == s[|s| - |rest| + i];
      }
      CollapseKeeps(rest, p);
      var t := Collapse(rest);
      assert Collapse(s) == [' '] + t;
      assert forall i :: 0 < i < |Collapse(s)| ==> Collapse(s)[i] == t[i - 1];
    } else {
      CollapseKeeps(s[1..], p);
      var t := Collapse(s[1..]);
      assert Collapse(s) == [s[0]] + t;
      assert forall i :: 0 < i < |Collapse(s)| ==> Collapse(s)[i] == t[i - 1];
    }
  }

  /** normalizeHebrewText: the four passes in order, then trim. */
  function Normalize(s: string): (r: string)
    ensures |r| <= |s|
  {
    Trim(Collapse(Passes(s)))
  }

  /** Every output of Normalize is in normal form. */
  lemma NormalizeNormalForm(s: string)
    ensures NormalForm(Normalize(s))
  {
    var t := Passes(s);
    var u := Collapse(t);
    assert SingleSpaced(u) by { CollapseSingleSpaced(t); }
    assert forall i :: 0 <= i < |u| ==> !IsMark(u[i]) && !IsFinalForm(u[i]) && (InHebrewBlock(u[i]) || IsSpace(u[i])) by {
      CollapseKeeps(t, c => !IsMark(c) && !IsFinalForm(c) && (InHebrewBlock(c) || IsSpace(c)));
    }
  }

  // ---------------------------------------------------------------------------
  // Reference definitions
  // ---------------------------------------------------------------------------

  /** The string with its white space deleted. */
  function NonSpace(s: string): string {
    if s == [] then []
    else (if IsSpace(s[0]) then [] else [s[0]]) + NonSpace(s[1..])
  }

  /** The letters the normaliser keeps, in input order: the characters of the Hebrew block
      that are not marks, with final forms replaced by standard forms. */
  function Letters(s: string): string {
    if s == [] then []
    else (if InHebrewBlock(s[0]) && !IsMark(s[0]) then [FinalToStandard(s[0])] else []) + Letters(s[1..])
  }

  // ---------------------------------------------------------------------------
  // What survives normalisation
  // ---------------------------------------------------------------------------

  lemma {:induction false} NonSpaceConcat(a: string, b: string)
    ensures NonSpace(a + b) == NonSpace(a) + NonSpace(b)
  {
    if a == [] {
      assert a + b == b;
    } else {
      assert (a + b)[1..] == a[1..] + b;
      NonSpaceConcat(a[1..], b);
    }
  }

  /** Deleting white space loses nothing that trimming keeps. */
  lemma {:induction false} NonSpaceTrim(s: string)
    ensures NonSpace(TrimStart(s)) == NonSpace(s)
    ensures NonSpace(TrimEnd(s)) == NonSpace(s)
    ensures NonSpace(Trim(s)) == NonSpace(s)
  {
    TrimStartNonSpace(s);
    TrimEndNonSpace(s);
    TrimEndNonSpace(TrimStart(s));
  }

  lemma {:induction false} TrimStartNonSpace(s: string)
    ensures NonSpace(TrimStart(s)) == NonSpace(s)
  {
    if s != [] && IsSpace(s[0]) {
      TrimStartNonSpace(s[1..]);
    }
  }

  lemma {:induction false} TrimEndNonSpace(s: string)
    ensures NonSpace(TrimEnd(s)) == NonSpace(s)
    decreases |s|
  {
    if s != [] && IsSpace(s[|s| - 1]) {
      var init := s[..|s| - 1];
      TrimEndNonSpace(init);
      assert s == init + [s[|s| - 1]];
      NonSpaceConcat(init, [s[|s| - 1]]);
      assert NonSpace([s[|s| - 1]]) == [];
    }
  }

  /** Collapsing white space keeps every other character, in order. */
  lemma {:induction false} NonSpaceCollapse(s: string)
    ensures NonSpace(Collapse(s)) == NonSpace(s)
    decreases |s|
  {
    if s == [] {
    } else if IsSpace(s[0]) {
      var rest := TrimStart(s[1..]);
      NonSpaceCollapse(rest);
      TrimStartNonSpace(s[1..]);
      assert ([' '] + Collapse(rest))[1..] == Collapse(rest);
    } else {
      NonSpaceCollapse(s[1..]);
      assert ([s[0]] + Collapse(s[1..]))[1..] == Collapse(s[1..]);
    }
  }

  /** The character-level passes 1 to 3, applied to a whole string. */
  function Passes(s: string): string {
    MapFinals(BlankForeign(StripMarks(s)))
  }

  lemma PassesConcat(a: string, b: string)
    ensures MapFinals(BlankForeign(a + b)) == MapFinals(BlankForeign(a)) + MapFinals(BlankForeign(b))
  {
  }

  /** After passes 1 to 3, the non-space characters are exactly the kept letters. */
  lemma {:induction false} NonSpacePasses(s: string)
    ensures NonSpace(Passes(s)) == Letters(s)
  {
    if s != [] {
      PassesCons(s);
      NonSpaceConcat(Passes([s[0]]), Passes(s[1..]));
      NonSpacePasses(s[1..]);
      NonSpacePassesChar(s[0]);
    }
  }

  lemma PassesCons(s: string)
    requires s != []
    ensures Passes(s) == Passes([s[0]]) + Passes(s[1..])
  {
    assert s == [s[0]] + s[1..];
    StripMarksConcat([s[0]], s[1..]);
    PassesConcat(StripMarks([s[0]]), StripMarks(s[1..]));
  }

  lemma NonSpacePassesChar(c: char)
    ensures NonSpace(Passes([c])) == if InHebrewBlock(c) && !IsMark(c) then [FinalToStandard(c)] else []
  {
    StripMarksChar(c);
    if !IsMark(c) {
      var h := MapFinals(BlankForeign([c]));
      assert h == [FinalToStandard(BlankForeignChar(c))];
      assert NonSpace(h) == (if IsSpace(h[0]) then [] else [h[0]]) + NonSpace([]);
    }
  }

  /** Deleting the spaces from the output gives exactly the kept letters of the input, in order. */
  lemma NormalizeKeepsLetters(s: string)
    ensures NonSpace(Normalize(s)) == Letters(s)
  {
    var t := Passes(s);
    NonSpacePasses(s);
    NonSpaceCollapse(t);
    NonSpaceTrim(Collapse(t));
  }

  lemma {:induction false} NoLettersEmpty(s: string)
    requires forall i :: 0 <= i < |s| ==> IsMark(s[i]) || !InHebrewBlock(s[i])
    ensures Letters(s) == []
  {
    if s != [] {
      NoLettersEmpty(s[1..]);
    }
  }

  /** Input made only of marks, white space and characters outside the Hebrew block
      normalises to the empty string. */
  lemma NormalizeNoLetters(s: string)
    requires forall i :: 0 <= i < |s| ==> IsMark(s[i]) || !InHebrewBlock(s[i])
    ensures Normalize(s) == []
  {
    NoLettersEmpty(s);
    NormalizeKeepsLetters(s);
  }

  // ---------------------------------------------------------------------------
  // Where the spaces fall: words joined by single spaces
  // ---------------------------------------------------------------------------

  /** A non-empty run of characters none of which is white space. */
  predicate IsWord(w: string) {
    w != [] && forall i :: 0 <= i < |w| ==> !IsSpace(w[i])
  }

  /** The longest prefix that holds no white space. */
  function FirstWord(s: string): (w: string)
    ensures |w| <= |s| && w == s[..|w|]
    ensures forall i :: 0 <= i < |w| ==> !IsSpace(w[i])
    ensures |w| < |s| ==> IsSpace(s[|w|])
  {
    if s == [] || IsSpace(s[0]) then [] else [s[0]] + FirstWord(s[1..])
  }

  /** The maximal runs of characters other than white space, in order. */
  function Words(s: string): (ws: seq<string>)
    ensures forall k :: 0 <= k < |ws| ==> IsWord(ws[k])
    decreases |s|
  {
    var t := TrimStart(s);
    if t == [] then []
    else
      var w := FirstWord(t);
      [w] + Words(t[|w|..])
  }

  /** The words joined by single spaces. */
  function Unwords(ws: seq<string>): string {
    if ws == [] then [] else if |ws| == 1 then ws[0] else ws[0] + [' '] + Unwords(ws[1..])
  }

  lemma {:induction false} UnwordsTrimmed(ws: seq<string>)
    requires forall k :: 0 <= k < |ws| ==> IsWord(ws[k])
    ensures ws != [] ==> Unwords(ws) != []
    ensures Trimmed(Unwords(ws))
  {
    if |ws| > 1 {
      UnwordsTrimmed(ws[1..]);
      var rest := Unwords(ws[1..]);
      assert Unwords(ws) == ws[0] + ([' '] + rest);
    }
  }

  /** Leading white space goes, up to the first other character. */
  lemma {:induction false} TrimStartSpaces(a: string, b: string)
    requires forall i :: 0 <= i < |a| ==> IsSpace(a[i])
    requires b == [] || !IsSpace(b[0])
    ensures TrimStart(a + b) == b
  {
    if a == [] {
      assert a + b == b;
    } else {
      assert (a + b)[1..] == a[1..] + b;
      TrimStartSpaces(a[1..], b);
    }
  }

  /** Trailing white space goes, back to the last other character. */
  lemma {:induction false} TrimEndSpaces(a: string, b: string)
    requires forall i :: 0 <= i < |b| ==> IsSpace(b[i])
    requires a == [] || !IsSpace(a[|a| - 1])
    ensures TrimEnd(a + b) == a
    decreases |b|
  {
    if b == [] {
      assert a + b == a;
    } else {
      var init := b[..|b| - 1];
      assert (a + b)[..|a + b| - 1] == a + init;
      TrimEndSpaces(a, init);
    }
  }

  /** Collapsing passes a word through unchanged. */
  lemma {:induction false} CollapseWord(w: string, rest: string)
    requires forall i :: 0 <= i < |w| ==> !IsSpace(w[i])
    ensures Collapse(w + rest) == w + Collapse(rest)
  {
    if w == [] {
      assert w + rest == rest;
    } else {
      assert (w + rest)[1..] == w[1..] + rest;
      CollapseWord(w[1..], rest);
      assert [w[0]] + (w[1..] + Collapse(rest)) == w + Collapse(rest);
    }
  }

  /** A string that starts with a word: its words are that word and the words after it. */
  lemma WordsLed(u: string)
    requires u != [] && !IsSpace(u[0])
    ensures Words(u) == [FirstWord(u)] + Words(u[|FirstWord(u)|..])
  {
  }

  /** A string that starts with white space: Collapse makes it one space, and the words are
      those after it. */
  lemma SpacedRun(r: string)
    requires r != [] && IsSpace(r[0])
    ensures Collapse(r) == [' '] + Collapse(TrimStart(r[1..]))
    ensures Words(r) == Words(TrimStart(r[1..]))
  {
    var v := TrimStart(r[1..]);
    assert TrimStart(r) == v;
    assert TrimStart(v) == v;
  }

  /** One space when the string ends with white space, else nothing. */
  function TrailingSpace(u: string): (r: string)
    ensures r == [] || r == [' ']
  {
    if u != [] && IsSpace(u[|u| - 1]) then [' '] else []
  }

  /** One space when the string starts with white space, else nothing. */
  function LeadingSpace(t: string): (r: string)
    ensures r == [] || r == [' ']
  {
    if t != [] && IsSpace(t[0]) then [' '] else []
  }

  /** Where a string ends once a word and a run of white space are split off its front. */
  lemma SplitEnd(u: string, n: nat)
    requires n < |u| && IsSpace(u[n])
    ensures var v := TrimStart(u[n..][1..]);
      TrailingSpace(u) == if v == [] then [' '] else TrailingSpace(v)
  {
    var rest := u[n..];
    var v := TrimStart(rest[1..]);
    assert u[|u| - 1] == rest[|rest| - 1];
    if v != [] {
      assert v[|v| - 1] == rest[1..][|rest[1..]| - 1];
    } else {
      assert IsSpace(rest[|rest| - 1]);
    }
  }

  lemma ConcatRegroup(a: string, b: string, c: string, d: string)
    ensures a + (b + (c + d)) == (a + b + c) + d
  {
  }

  /** The words after a first word, joined, come after it and one space. */
  lemma UnwordsCons(w: string, ws: seq<string>)
    ensures Unwords([w] + ws) == if ws == [] then w else w + [' '] + Unwords(ws)
  {
    if ws != [] {
      assert ([w] + ws)[1..] == ws;
    }
  }

  /** Collapse on a string that starts with a word: the word, then one space for the white space
      after it, then the rest collapsed. */
  lemma CollapseStep(u: string)
    requires u != [] && !IsSpace(u[0])
    ensures var w := FirstWord(u); var rest := u[|w|..];
      (rest == [] ==> Collapse(u) == w) &&
      (rest != [] ==> IsSpace(rest[0]) && Collapse(u) == w + ([' '] + Collapse(TrimStart(rest[1..]))))
  {
    var w := FirstWord(u);
    var rest := u[|w|..];
    assert u == w + rest;
    CollapseWord(w, rest);
    if rest == [] {
      assert w + rest == w;
    } else {
      SpacedRun(rest);
    }
  }

  /** The words of a string that starts with a word: that word, then the words after the white
      space that follows it. */
  lemma WordsStep(u: string)
    requires u != [] && !IsSpace(u[0])
    ensures var w := FirstWord(u); var rest := u[|w|..];
      (rest == [] ==> Words(u) == [w]) &&
      (rest != [] ==> Words(u) == [w] + Words(TrimStart(rest[1..])))
  {
    var w := FirstWord(u);
    var rest := u[|w|..];
    WordsLed(u);
    if rest == [] {
      assert Words(rest) == [];
    } else {
      SpacedRun(rest);
    }
  }

  /** On a string that does not start with white space, Collapse gives its words joined by single
      spaces, plus one space when the string ends with white space. */
  lemma {:induction false} CollapseLed(u: string)
    requires u == [] || !IsSpace(u[0])
    ensures Collapse(u) == Unwords(Words(u)) + TrailingSpace(u)
    decreases |u|
  {
    if u != [] {
      var w := FirstWord(u);
      var rest := u[|w|..];
      if rest == [] {
        CollapseOneWord(u);
      } else {
        var v := TrimStart(rest[1..]);
        CollapseLed(v);
        if v == [] {
          CollapseLastWord(u);
        } else {
          CollapseMoreWords(u);
        }
      }
    }
  }

  lemma CollapseOneWord(u: string)
    requires u != [] && !IsSpace(u[0]) && u[|FirstWord(u)|..] == []
    ensures Collapse(u) == Unwords(Words(u)) + TrailingSpace(u)
  {
    var w := FirstWord(u);
    assert u == w by {
      assert |w| == |u|;
    }
    OneWord(w);
  }

  /** A single word is its own collapse and its own only word. */
  lemma OneWord(w: string)
    requires IsWord(w)
    ensures Collapse(w) == w && Words(w) == [w] && Unwords([w]) + TrailingSpace(w) == w
  {
    assert Collapse(w) == w by {
      CollapseWord(w, []);
      assert w + [] == w;
    }
    assert TrailingSpace(w) == [];
    assert Words(w) == [w] by {
      assert TrimStart(w) == w;
      var f := FirstWord(w);
      assert |f| == |w|;
      assert w[|f|..] == [];
    }
    assert w + [] == w;
  }

  lemma CollapseLastWord(u: string)
    requires u != [] && !IsSpace(u[0])
    requires var rest := u[|FirstWord(u)|..]; rest != [] && TrimStart(rest[1..]) == []
    ensures Collapse(u) == Unwords(Words(u)) + TrailingSpace(u)
  {
    var w := FirstWord(u);
    var v := TrimStart(u[|w|..][1..]);
    CollapseStep(u);
    WordsStep(u);
    SplitEnd(u, |w|);
    assert Collapse(v) == [] && Words(v) == [];
    assert [' '] + Collapse(v) == [' '];
    UnwordsCons(w, []);
  }

  lemma CollapseMoreWords(u: string)
    requires u != [] && !IsSpace(u[0])
    requires var rest := u[|FirstWord(u)|..]; rest != [] && TrimStart(rest[1..]) != []
    requires var v := TrimStart(u[|FirstWord(u)|..][1..]);
      Collapse(v) == Unwords(Words(v)) + TrailingSpace(v)
    ensures Collapse(u) == Unwords(Words(u)) + TrailingSpace(u)
  {
    var w := FirstWord(u);
    var v := TrimStart(u[|w|..][1..]);
    CollapseNext(u);
    UnwordsNext(u);
    SplitEnd(u, |w|);
    ConcatRegroup(w, [' '], Unwords(Words(v)), TrailingSpace(v));
  }

  lemma CollapseNext(u: string)
    requires u != [] && !IsSpace(u[0]) && u[|FirstWord(u)|..] != []
    ensures var w := FirstWord(u);
      IsSpace(u[|w|]) && Collapse(u) == w + ([' '] + Collapse(TrimStart(u[|w|..][1..])))
  {
    CollapseStep(u);
  }

  lemma UnwordsNext(u: string)
    requires u != [] && !IsSpace(u[0])
    requires var rest := u[|FirstWord(u)|..]; rest != [] && TrimStart(rest[1..]) != []
    ensures var w := FirstWord(u); var v := TrimStart(u[|w|..][1..]);
      Unwords(Words(u)) == w + [' '] + Unwords(Words(v))
  {
    var w := FirstWord(u);
    var v := TrimStart(u[|w|..][1..]);
    WordsStep(u);
    WordsLed(v);
    UnwordsCons(w, Words(v));
  }

  /** Collapsing and trimming leave exactly the words, joined by single spaces. */
  lemma TrimCollapse(t: string)
    ensures Trim(Collapse(t)) == Unwords(Words(t))
  {
    TrimCollapseEnds(t);
    TrimCuts(Collapse(t));
  }

  lemma TrimCollapseEnds(t: string)
    ensures TrimEnd(TrimStart(Collapse(t))) == Unwords(Words(t))
  {
    CollapseLead(t);
    TrimCollapseLed(TrimStart(t), LeadingSpace(t));
  }

  /** The same, for a string that starts with a word, behind at most one space. */
  lemma TrimCollapseLed(u: string, lead: string)
    requires u == [] || !IsSpace(u[0])
    requires lead == [] || lead == [' ']
    ensures TrimEnd(TrimStart(lead + Collapse(u))) == Unwords(Words(u))
  {
    var x, tail := Unwords(Words(u)), TrailingSpace(u);
    assert Collapse(u) == x + tail by { CollapseLed(u); }
    assert Trimmed(x) by { UnwordsTrimmed(Words(u)); }
    TrimPadded(lead + Collapse(u), lead, x, tail);
  }

  /** Leading white space collapses to one space in front of the rest. */
  lemma CollapseLead(t: string)
    ensures Collapse(t) == LeadingSpace(t) + Collapse(TrimStart(t))
    ensures Words(t) == Words(TrimStart(t))
  {
    if t != [] && IsSpace(t[0]) {
      SpacedRun(t);
    } else {
      assert TrimStart(t) == t;
      assert [] + Collapse(t) == Collapse(t);
    }
  }

  /** Trimming a piece without white space at its ends, padded with white space on both sides,
      gives back the piece. */
  lemma TrimPadded(c: string, lead: string, x: string, tail: string)
    requires c == lead + (x + tail)
    requires lead == [] || lead == [' ']
    requires tail == [] || tail == [' ']
    requires Trimmed(x)
    ensures TrimEnd(TrimStart(c)) == x
  {
    if x == [] {
      TrimAllSpace(lead, tail);
    } else {
      TrimStartSpaces(lead, x + tail);
      TrimEndSpaces(x, tail);
    }
  }

  lemma TrimAllSpace(lead: string, tail: string)
    requires lead == [] || lead == [' ']
    requires tail == [] || tail == [' ']
    ensures TrimStart(lead + ([] + tail)) == []
  {
    var a := lead + ([] + tail);
    forall i | 0 <= i < |a|
      ensures IsSpace(a[i])
    {
      if i < |lead| {
        assert a[i] == lead[i];
      } else {
        assert a[i] == tail[i - |lead|];
      }
    }
  }

  /** The output is the words left after passes 1 to 3, joined by single spaces: every run of
      white space and blanked characters between two words becomes exactly one space. */
  lemma NormalizeWords(s: string)
    ensures Normalize(s) == Unwords(Words(Passes(s)))
  {
    TrimCollapse(Passes(s));
  }

  // ---------------------------------------------------------------------------
  // Idempotence
  // ---------------------------------------------------------------------------

  lemma {:induction false} StripMarksFixes(s: string)
    requires NoMarks(s)
    ensures StripMarks(s) == s
  {
    if s != [] {
      StripMarksFixes(s[1..]);
    }
  }

  lemma {:induction false} CollapseFixes(s: string)
    requires SingleSpaced(s)
    ensures Collapse(s) == s
  {
    if s != [] {
      assert SingleSpaced(s[1..]) by {
        assert forall i :: 0 <= i < |s| - 1 ==> s[1..][i] == s[i + 1];
      }
      CollapseFixes(s[1..]);
      if IsSpace(s[0]) {
        assert s[1..] == [] || !IsSpace(s[1]);
      }
    }
  }

  /** A string already in normal form is left unchanged. */
  lemma NormalizeFixes(s: string)
    requires NormalForm(s)
    ensures Normalize(s) == s
  {
    StripMarksFixes(s);
    assert BlankForeign(s) == s;
    assert MapFinals(s) == s;
    CollapseFixes(s);
  }

  /** normalize(normalize(x)) == normalize(x). */
  lemma NormalizeIdempotent(s: string)
    ensures Normalize(Normalize(s)) == Normalize(s)
  {
    NormalizeNormalForm(s);
    NormalizeFixes(Normalize(s));
  }
}
