/**
 * String operations the scripts borrow from Python's `str` type and from
 * simple regular expressions: whitespace classes, strip, split, join,
 * substring search and replace-all. Strings are `seq<char>`.
 */
module Text {

  datatype Option<+T> = None | Some(value: T)

  /**
   * The characters Python's `str.isspace()` accepts, which is also what `\s`
   * matches in a `str` pattern: tab to carriage return, the four separators
   * U+001C to U+001F, space, U+0085, U+00A0, U+1680, U+2000 to U+200A,
   * U+2028, U+2029, U+202F, U+205F and U+3000.
   */
  predicate IsSpace(c: char) {
    || '\t' <= c <= '\r'
    || '\U{1C}' <= c <= ' '
    || c == '\U{85}' || c == '\U{A0}' || c == '\U{1680}'
    || '\U{2000}' <= c <= '\U{200A}'
    || c == '\U{2028}' || c == '\U{2029}' || c == '\U{202F}' || c == '\U{205F}' || c == '\U{3000}'
  }

  predicate IsDigit(c: char) { '0' <= c <= '9' }

  predicate IsAlnum(c: char) { IsDigit(c) || 'a' <= c <= 'z' || 'A' <= c <= 'Z' }

  predicate AllSpace(s: string) { forall i :: 0 <= i < |s| ==> IsSpace(s[i]) }

  /** `s.lstrip()` */
  function LStrip(s: string): (r: string)
    ensures |r| <= |s| && r == s[|s| - |r|..]
    ensures AllSpace(s[..|s| - |r|])
    ensures r == [] || !IsSpace(r[0])
  {
    if s == [] || !IsSpace(s[0]) then s
    else
      var t := s[1..];
      var r := LStrip(t);
      assert s[|s| - |r|..] == t[|t| - |r|..];
      SpaceThenSpaces(s, |s| - |r|);
      r
  }

  /** A space followed by spaces is a run of spaces. */
  lemma SpaceThenSpaces(s: string, k: nat)
    requires 0 < k <= |s| && IsSpace(s[0]) && AllSpace(s[1..][..k - 1])
    ensures AllSpace(s[..k])
  {
    forall i | 0 <= i < k ensures IsSpace(s[..k][i]) {
      if i > 0 {
        assert s[..k][i] == s[1..][..k - 1][i - 1];
      }
    }
  }

  /** `s.rstrip()` */
  function RStrip(s: string): (r: string)
    ensures |r| <= |s| && r == s[..|r|]
    ensures AllSpace(s[|r|..])
    ensures r == [] || !IsSpace(r[|r| - 1])
  {
    if s == [] || !IsSpace(s[|s| - 1]) then s
    else
      var t := s[..|s| - 1];
      var r := RStrip(t);
      assert s[..|r|] == t[..|r|];
      assert s[|r|..] == t[|r|..] + [s[|s| - 1]];
      r
  }

  /** `s.strip()`: the input with its leading and trailing whitespace removed. */
  function Strip(s: string): (r: string)
    ensures |r| <= |s|
    ensures r == [] || (!IsSpace(r[0]) && !IsSpace(r[|r| - 1]))
  {
    var l := LStrip(s);
    var r := RStrip(l);
    assert r != [] ==> r[0] == l[0];
    r
  }

  /** A string of whitespace strips to the empty string, and only such a string does. */
  lemma {:induction false} StripEmptyIffAllSpace(s: string)
    ensures Strip(s) == [] <==> AllSpace(s)
  {
    if Strip(s) == [] {
      var l := LStrip(s);
      assert s == s[..|s| - |l|] + l;
      assert RStrip(l) == [];
      assert l == l[|RStrip(l)|..];
    } else {
      var r := Strip(s);
      assert !IsSpace(r[0]);
    }
  }

  /** `s.startswith(p)` */
  predicate StartsWith(s: string, p: string) {
    |p| <= |s| && s[..|p|] == p
  }

  /** A text starts with its own prefix, and what follows the prefix is the rest. */
  lemma PrefixAndRest(p: string, t: string)
    ensures StartsWith(p + t, p) && (p + t)[|p|..] == t
  {
    assert (p + t)[..|p|] == p;
  }

  /** Python's `p in s` on two strings: `p` occurs as a contiguous substring. */
  predicate Contains(s: string, p: string)
    decreases |s|
  {
    StartsWith(s, p) || (s != [] && Contains(s[1..], p))
  }

  /** `p` occurs in `s` starting at index `i`. */
  predicate OccursAt(s: string, p: string, i: int) {
    0 <= i <= |s| - |p| && s[i..i + |p|] == p
  }

  /** Substring search agrees with "some slice of `s` equals `p`". */
  lemma {:induction false} ContainsAt(s: string, p: string)
    ensures Contains(s, p) <==> exists i :: OccursAt(s, p, i)
    decreases |s|
  {
    if StartsWith(s, p) {
      assert OccursAt(s, p, 0);
    } else if s == [] {
    } else {
      ContainsAt(s[1..], p);
      if exists i :: OccursAt(s, p, i) {
        var i :| OccursAt(s, p, i);
        assert i != 0;
        assert s[1..][i - 1..i - 1 + |p|] == p;
        assert OccursAt(s[1..], p, i - 1);
      }
      if Contains(s[1..], p) {
        var j :| OccursAt(s[1..], p, j);
        assert s[j + 1..j + 1 + |p|] == p;
        assert OccursAt(s, p, j + 1);
      }
    }
  }

  /** The first position where `p` occurs in `s`. */
  function IndexOf(s: string, p: string): (r: Option<nat>)
    ensures r.Some? ==> r.value + |p| <= |s|
    decreases |s|
  {
    if |s| < |p| then None
    else if s[..|p|] == p then Some(0)
    else match IndexOf(s[1..], p)
      case None => None
      case Some(i) => Some(i + 1)
  }

  /** `IndexOf` finds the leftmost occurrence, and finds nothing only when there is none. */
  lemma {:induction false} IndexOfSpec(s: string, p: string)
    ensures var r := IndexOf(s, p);
      && (r.Some? ==> OccursAt(s, p, r.value) && forall j :: 0 <= j < r.value ==> !OccursAt(s, p, j))
      && (r.None? ==> forall j :: !OccursAt(s, p, j))
    decreases |s|
  {
    if |s| >= |p| && s[..|p|] != p {
      IndexOfSpec(s[1..], p);
      forall j | 0 < j ensures OccursAt(s, p, j) <==> OccursAt(s[1..], p, j - 1) {
        if 0 < j <= |s| - |p| {
          assert s[1..][j - 1..j - 1 + |p|] == s[j..j + |p|];
        }
      }
    }
  }

  /** A pattern holding a character the text lacks does not occur in it. */
  lemma {:induction false} MissingCharNotContained(s: string, p: string, c: char)
    requires c in p && c !in s
    ensures !Contains(s, p)
    decreases |s|
  {
    if s != [] {
      MissingCharNotContained(s[1..], p, c);
    }
  }

  /** `s.replace(p, q)`: every non-overlapping occurrence of `p`, scanning from the left, becomes `q`. */
  function ReplaceAll(s: string, p: string, q: string): (r: string)
    requires |p| > 0
    decreases |s|
  {
    if |s| < |p| then s
    else if s[..|p|] == p then q + ReplaceAll(s[|p|..], p, q)
    else [s[0]] + ReplaceAll(s[1..], p, q)
  }

  /** A string without an occurrence of `p` is left unchanged by the replacement. */
  lemma {:induction false} ReplaceAllAbsent(s: string, p: string, q: string)
    requires |p| > 0 && !Contains(s, p)
    ensures ReplaceAll(s, p, q) == s
    decreases |s|
  {
    if |s| >= |p| {
      assert !StartsWith(s, p);
      assert s == [s[0]] + s[1..];
      ReplaceAllAbsent(s[1..], p, q);
    }
  }

  /** `sep.join(parts)` */
  function Join(parts: seq<string>, sep: string): (r: string)
    ensures |parts| == 1 ==> r == parts[0]
    ensures parts == [] ==> r == ""
  {
    if |parts| == 0 then ""
    else if |parts| == 1 then parts[0]
    else parts[0] + sep + Join(parts[1..], sep)
  }

  /** `s.split(c)` for a one-character separator. */
  function Split(s: string, c: char): (r: seq<string>)
    ensures |r| >= 1
    ensures forall i :: 0 <= i < |r| ==> c !in r[i]
    ensures Join(r, [c]) == s
  {
    if s == [] then [""]
    else
      var rest := Split(s[1..], c);
      if s[0] == c then
        assert Join([""] + rest, [c]) == "" + [c] + Join(rest, [c]);
        [""] + rest
      else
        var r := [[s[0]] + rest[0]] + rest[1..];
        assert |rest| > 1 ==> rest == [rest[0]] + rest[1..];
        assert |rest| > 1 ==> Join(rest, [c]) == rest[0] + [c] + Join(rest[1..], [c]);
        r
  }

  /** Text without `c` before the rest of a split joins the first part. */
  lemma {:induction false} SplitAfterPlain(w: string, s: string, c: char)
    requires c !in w
    ensures Split(w + s, c) == [w + Split(s, c)[0]] + Split(s, c)[1..]
    decreases |w|
  {
    if w != [] {
      assert (w + s)[1..] == w[1..] + s;
      SplitAfterPlain(w[1..], s, c);
      assert [w[0]] + (w[1..] + Split(s, c)[0]) == w + Split(s, c)[0];
    } else {
      assert w + s == s;
      assert [Split(s, c)[0]] + Split(s, c)[1..] == Split(s, c);
      assert w + Split(s, c)[0] == Split(s, c)[0];
    }
  }

  /** Splitting undoes joining: parts free of `c`, joined with `c`, split back into themselves. */
  lemma {:induction false} SplitJoin(parts: seq<string>, c: char)
    requires |parts| >= 1
    requires forall i :: 0 <= i < |parts| ==> c !in parts[i]
    ensures Split(Join(parts, [c]), c) == parts
    decreases |parts|
  {
    if |parts| == 1 {
      SplitAfterPlain(parts[0], "", c);
      assert parts[0] + "" == parts[0];
    } else {
      var tail := Join(parts[1..], [c]);
      SplitJoin(parts[1..], c);
      assert Join(parts, [c]) == parts[0] + ([c] + tail);
      SplitAfterPlain(parts[0], [c] + tail, c);
      assert ([c] + tail)[1..] == tail;
      assert Split([c] + tail, c) == [""] + parts[1..];
      assert parts[0] + "" == parts[0];
    }
  }

  /**
   * `s.split(c)[-1]`: the text after the last `c`, or all of `s` if there
   * is none. It is the longest suffix of `s` without `c`.
   */
  function AfterLast(s: string, c: char): (r: string)
    ensures c !in r
    ensures |r| <= |s| && r == s[|s| - |r|..]
    ensures |r| < |s| ==> s[|s| - |r| - 1] == c
  {
    var parts := Split(s, c);
    AfterLastSplit(s, c);
    parts[|parts| - 1]
  }

  lemma AfterLastSplit(s: string, c: char)
    ensures var parts := Split(s, c); var r := parts[|parts| - 1];
            |r| <= |s| && r == s[|s| - |r|..] && (|r| < |s| ==> s[|s| - |r| - 1] == c)
  {
    JoinLast(Split(s, c), c);
  }

  /** The last part of a join is a suffix of it, preceded by the separator when there are several parts. */
  lemma {:induction false} JoinLast(parts: seq<string>, c: char)
    requires |parts| >= 1
    ensures var s := Join(parts, [c]); var r := parts[|parts| - 1];
            |r| <= |s| && r == s[|s| - |r|..] && (|parts| > 1 ==> |r| < |s| && s[|s| - |r| - 1] == c)
  {
    if |parts| > 1 {
      var j := Join(parts[1..], [c]);
      var s := parts[0] + [c] + j;
      var r := parts[|parts| - 1];
      JoinLast(parts[1..], c);
      assert parts[1..][|parts| - 2] == r;
      assert s[|s| - |j|..] == j;
      assert s[|s| - |r|..] == j[|j| - |r|..];
      assert s[|s| - |r| - 1] == (if |parts| == 2 then c else j[|j| - |r| - 1]);
    }
  }

  /** The text after the last `c` of a text ending in `c` and then text without `c`. */
  lemma AfterLastOf(p: string, c: char, tail: string)
    requires c !in tail
    ensures AfterLast(p + [c] + tail, c) == tail
  {
    var s := p + [c] + tail;
    var r := AfterLast(s, c);
    assert s[|p|] == c;
    assert s[|s| - |tail|..] == tail;
  }

  /** Every occurrence of the character `c` removed: `s.replace(c, "")`. */
  function RemoveChar(s: string, c: char): (r: string)
    ensures c !in r
    ensures multiset(r) == multiset(s)[c := 0]
    ensures c !in s ==> r == s
  {
    if s == [] then []
    else
      var r := (if s[0] == c then [] else [s[0]]) + RemoveChar(s[1..], c);
      assert s == [s[0]] + s[1..];
      r
  }

  /** The removal works piece by piece, so the characters it keeps stay in their order. */
  lemma {:induction false} RemoveCharAppend(a: string, b: string, c: char)
    ensures RemoveChar(a + b, c) == RemoveChar(a, c) + RemoveChar(b, c)
  {
    if a == [] {
      assert a + b == b;
    } else {
      assert (a + b)[1..] == a[1..] + b;
      RemoveCharCons(a + b, c);
      RemoveCharCons(a, c);
      RemoveCharAppend(a[1..], b, c);
      GlueKept(if a[0] == c then [] else [a[0]], RemoveChar(a[1..], c), RemoveChar(b, c),
               RemoveChar(a + b, c), RemoveChar(a[1..] + b, c), RemoveChar(a, c));
    }
  }

  /** Regrouping the kept head, the kept rest of the first text and the kept second text. */
  lemma GlueKept(head: string, x: string, y: string, whole: string, rest: string, first: string)
    requires whole == head + rest && rest == x + y && first == head + x
    ensures whole == first + y
  {
  }


  /** One step of the removal: the first character, unless it is `c`, then the rest. */
  lemma RemoveCharCons(s: string, c: char)
    requires s != []
    ensures RemoveChar(s, c) == (if s[0] == c then [] else [s[0]]) + RemoveChar(s[1..], c)
  {
  }


  /** Whitespace at both positions i and i + 1. */
  predicate DoubleSpaceAt(r: string, i: int)
    requires 0 <= i < |r| - 1
  {
    IsSpace(r[i]) && IsSpace(r[i + 1])
  }

  /** The character at i is not whitespace, or it is the plain space ' '. */
  predicate BlankAt(r: string, i: int)
    requires 0 <= i < |r|
  {
    IsSpace(r[i]) ==> r[i] == ' '
  }

  /** Whitespace appears only as single ' ' characters. */
  predicate SingleSpaced(r: string) {
    && (forall i :: 0 <= i < |r| ==> BlankAt(r, i))
    && (forall i :: 0 <= i < |r| - 1 ==> !DoubleSpaceAt(r, i))
  }

  lemma SingleSpacedSlice(c: string, i: nat, j: nat)
    requires i <= j <= |c| && SingleSpaced(c)
    ensures SingleSpaced(c[i..j])
  {
    assert forall k :: 0 <= k < j - i ==> c[i..j][k] == c[i + k];
    forall k | 0 <= k < j - i ensures BlankAt(c[i..j], k) {
      assert BlankAt(c, i + k);
    }
    forall k | 0 <= k < j - i - 1 ensures !DoubleSpaceAt(c[i..j], k) {
      assert !DoubleSpaceAt(c, i + k);
    }
  }

  /** `s` with every whitespace character dropped. */
  function NonSpace(s: string): (r: string)
    ensures forall i :: 0 <= i < |r| ==> !IsSpace(r[i])
  {
    if s == [] then [] else (if IsSpace(s[0]) then [] else [s[0]]) + NonSpace(s[1..])
  }

  /** Leading whitespace holds nothing `NonSpace` keeps. */
  lemma {:induction false} NonSpaceLStrip(s: string)
    ensures NonSpace(LStrip(s)) == NonSpace(s)
    decreases |s|
  {
    if s != [] && IsSpace(s[0]) {
      NonSpaceLStrip(s[1..]);
    }
  }

  /** `re.sub(r'\s+', ' ', s)`: every maximal run of whitespace becomes one space. */
  function CollapseSpace(s: string): (r: string)
    ensures r == [] <==> s == []
    ensures s != [] ==> (IsSpace(r[0]) <==> IsSpace(s[0]))
    decreases |s|
  {
    if s == [] then []
    else [if IsSpace(s[0]) then ' ' else s[0]] + (if IsSpace(s[0]) then CollapseSpace(LStrip(s)) else CollapseSpace(s[1..]))
  }

  /** After the substitution, whitespace appears only as single spaces. */
  lemma {:induction false} CollapseSpaceSingle(s: string)
    ensures SingleSpaced(CollapseSpace(s))
    decreases |s|
  {
    if s != [] {
      var t := if IsSpace(s[0]) then LStrip(s) else s[1..];
      CollapseSpaceSingle(t);
      SingleSpacedCons(if IsSpace(s[0]) then ' ' else s[0], CollapseSpace(t));
    }
  }

  /** A space before text that does not start with whitespace, or any other character before single-spaced text, stays single-spaced. */
  lemma SingleSpacedCons(ch: char, rest: string)
    requires SingleSpaced(rest) && (IsSpace(ch) ==> ch == ' ' && (rest == [] || !IsSpace(rest[0])))
    ensures SingleSpaced([ch] + rest)
  {
    var r := [ch] + rest;
    assert forall i :: 1 <= i < |r| - 1 ==> (DoubleSpaceAt(r, i) <==> DoubleSpaceAt(rest, i - 1));
    assert forall i :: 1 <= i < |r| ==> (BlankAt(r, i) <==> BlankAt(rest, i - 1));
  }

  /** Collapsing keeps every character that is not whitespace, in order. */
  lemma {:induction false} CollapseSpaceKeeps(s: string)
    ensures NonSpace(CollapseSpace(s)) == NonSpace(s)
    decreases |s|
  {
    if s != [] {
      var r := CollapseSpace(s);
      if IsSpace(s[0]) {
        CollapseSpaceKeeps(LStrip(s));
        NonSpaceLStrip(s);
        assert r[1..] == CollapseSpace(LStrip(s));
      } else {
        CollapseSpaceKeeps(s[1..]);
        assert r[1..] == CollapseSpace(s[1..]);
      }
    }
  }

  /** The longest prefix of `s` without whitespace: what a greedy `\S+` takes. */
  function NonSpaceRun(s: string): (r: string)
    ensures |r| <= |s| && r == s[..|r|]
    ensures forall i :: 0 <= i < |r| ==> !IsSpace(r[i])
    ensures |r| == |s| || IsSpace(s[|r|])
  {
    if s == [] || IsSpace(s[0]) then [] else [s[0]] + NonSpaceRun(s[1..])
  }

  /** A word of `s.split()`: non-empty and free of whitespace. */
  predicate IsWord(w: string) {
    w != [] && forall j :: 0 <= j < |w| ==> !IsSpace(w[j])
  }

  /** The run at the head of a text that starts with a non-space is a word, and a proper part of the text. */
  lemma RunIsWord(t: string)
    requires t != [] && !IsSpace(t[0])
    ensures IsWord(NonSpaceRun(t)) && 0 < |NonSpaceRun(t)| <= |t|
  {
  }

  /** A word in front of words gives words. */
  lemma ConsWords(w: string, ws: seq<string>)
    requires IsWord(w) && forall i :: 0 <= i < |ws| ==> IsWord(ws[i])
    ensures forall i :: 0 <= i < |ws| + 1 ==> IsWord(([w] + ws)[i])
  {
    assert forall i :: 0 < i < |ws| + 1 ==> ([w] + ws)[i] == ws[i - 1];
  }

  /** `s.split()` with no separator: the maximal runs of non-whitespace, left to right. */
  function Words(s: string): seq<string>
    decreases |s|
  {
    var t := LStrip(s);
    if t == [] then []
    else
      var w := NonSpaceRun(t);
      [w] + Words(t[|w|..])
  }

  /** Every element of `s.split()` is a word: non-empty and free of whitespace. */
  lemma {:induction false} WordsAreWords(s: string)
    ensures forall i :: 0 <= i < |Words(s)| ==> IsWord(Words(s)[i])
    decreases |s|
  {
    var t := LStrip(s);
    if t != [] {
      var w := NonSpaceRun(t);
      RunIsWord(t);
      WordsAreWords(t[|w|..]);
      ConsWords(w, Words(t[|w|..]));
    }
  }

  /** Collapsing a word followed by more text keeps the word and collapses the rest. */
  lemma {:induction false} CollapseWord(w: string, s: string)
    requires forall j :: 0 <= j < |w| ==> !IsSpace(w[j])
    ensures CollapseSpace(w + s) == w + CollapseSpace(s)
    decreases |w|
  {
    if w == [] {
      assert w + s == s;
    } else {
      var c := CollapseSpace(s);
      assert (w + s)[1..] == w[1..] + s;
      CollapseWord(w[1..], s);
      CollapseHead(w + s);
      Concat3([w[0]], w[1..], c);
      assert [w[0]] + w[1..] == w;
    }
  }

  /** A text starting with a character that is not whitespace collapses to that character and the collapsed rest. */
  lemma CollapseHead(s: string)
    requires s != [] && !IsSpace(s[0])
    ensures CollapseSpace(s) == [s[0]] + CollapseSpace(s[1..])
  {
  }

  /** A text starting with whitespace collapses to one space and the collapse of what `lstrip` leaves. */
  lemma CollapseLead(s: string)
    requires s != [] && IsSpace(s[0])
    ensures CollapseSpace(s) == " " + CollapseSpace(LStrip(s))
  {
  }

  /** The words of a text that starts with a word: that word, then the words of the rest. */
  lemma WordsOfWord(s: string)
    requires s != [] && !IsSpace(s[0])
    ensures Words(s) == [NonSpaceRun(s)] + Words(s[|NonSpaceRun(s)|..])
  {
  }

  /** One space when `b` holds, none otherwise. */
  function SpaceIf(b: bool): string {
    if b then " " else ""
  }

  /**
   * The words of `s` joined by single spaces, with one space in front when
   * `s` starts with whitespace and one behind when it ends with whitespace
   * after a word.
   */
  function Spaced(s: string): string {
    Pad(s != [] && IsSpace(s[0]), Join(Words(s), " "), Words(s) != [] && IsSpace(s[|s| - 1]))
  }

  /** `j` with a space in front when `lead` and one behind when `trail`. */
  function Pad(lead: bool, j: string, trail: bool): string {
    SpaceIf(lead) + j + SpaceIf(trail)
  }

  /** Collapsing whitespace gives the text's words joined by single spaces, padded as `Spaced` says. */
  lemma {:induction false} CollapseWords(s: string)
    ensures CollapseSpace(s) == Spaced(s)
    decreases |s|
  {
    if s == [] {
    } else if IsSpace(s[0]) {
      var t := LStrip(s);
      CollapseWords(t);
      CollapseLead(s);
      SpacedLead(s);
      GluePrefix(" ", CollapseSpace(t), Spaced(t), CollapseSpace(s), Spaced(s));
    } else {
      var w := NonSpaceRun(s);
      var u := s[|w|..];
      CollapseWords(u);
      WordStep(s);
      SpacedWord(s);
      GluePrefix(w, CollapseSpace(u), Spaced(u), CollapseSpace(s), Spaced(s));
    }
  }

  /** Equal texts behind the same prefix. */
  lemma GluePrefix(p: string, a: string, b: string, x: string, y: string)
    requires a == b && x == p + a && y == p + b
    ensures x == y
  {
  }

  /** Concatenation regrouped. */
  lemma Concat3(a: string, b: string, c: string)
    ensures a + (b + c) == a + b + c
  {
  }

  /** Leading whitespace: one space, then the padded words of what `lstrip` leaves. */
  lemma SpacedLead(s: string)
    requires s != [] && IsSpace(s[0])
    ensures Spaced(s) == " " + Spaced(LStrip(s))
  {
    var t := LStrip(s);
    var j := Join(Words(t), " ");
    var trail := Words(t) != [] && IsSpace(t[|t| - 1]);
    assert Spaced(t) == Pad(false, j, trail) by {
      WordsLead(s);
    }
    assert Spaced(s) == Pad(true, j, trail) by {
      WordsLead(s);
      LStripLast(s);
      assert Words(t) != [] ==> t != [];
    }
    PadLead(j, trail);
  }

  /** A space in front. */
  lemma PadLead(j: string, trail: bool)
    ensures Pad(true, j, trail) == " " + Pad(false, j, trail)
  {
    Concat3(" ", j, SpaceIf(trail));
  }

  /** A text that starts with a word: its collapse and its words are the word's followed by the rest's. */
  lemma WordStep(s: string)
    requires s != [] && !IsSpace(s[0])
    ensures var w := NonSpaceRun(s); var u := s[|w|..];
      && CollapseSpace(s) == w + CollapseSpace(u)
      && Words(s) == [w] + Words(u)
      && (u == [] || IsSpace(u[0]))
      && (Words(u) != [] ==> u != [] && s[|s| - 1] == u[|u| - 1])
      && (Words(u) == [] ==> (IsSpace(s[|s| - 1]) <==> u != []))
  {
    var w := NonSpaceRun(s);
    var u := s[|w|..];
    SplitAtRun(s);
    CollapseWord(w, u);
    WordsOfWord(s);
    WordsEmpty(u);
  }

  /** A leading word: the word, then the padded words of the rest. */
  lemma SpacedWord(s: string)
    requires s != [] && !IsSpace(s[0])
    ensures Spaced(s) == NonSpaceRun(s) + Spaced(s[|NonSpaceRun(s)|..])
  {
    if Words(s[|NonSpaceRun(s)|..]) == [] {
      SpacedWordAlone(s);
    } else {
      SpacedWordMore(s);
    }
  }

  /** The only word: what follows it is whitespace, kept as one trailing space. */
  lemma SpacedWordAlone(s: string)
    requires s != [] && !IsSpace(s[0]) && Words(s[|NonSpaceRun(s)|..]) == []
    ensures Spaced(s) == NonSpaceRun(s) + Spaced(s[|NonSpaceRun(s)|..])
  {
    var w := NonSpaceRun(s);
    var u := s[|w|..];
    RestAlonePadded(s);
    WholeAlonePadded(s);
    PadWordAlone(w, u != []);
  }

  lemma RestAlonePadded(s: string)
    requires s != [] && !IsSpace(s[0]) && Words(s[|NonSpaceRun(s)|..]) == []
    ensures var u := s[|NonSpaceRun(s)|..]; Spaced(u) == Pad(u != [], "", false)
  {
    WordStep(s);
  }

  lemma WholeAlonePadded(s: string)
    requires s != [] && !IsSpace(s[0]) && Words(s[|NonSpaceRun(s)|..]) == []
    ensures var u := s[|NonSpaceRun(s)|..]; Spaced(s) == Pad(false, NonSpaceRun(s), u != [])
  {
    JoinWordsAlone(s);
    WordStep(s);
  }

  /** More words follow: the word, one space, then the rest's words and trailing space. */
  lemma SpacedWordMore(s: string)
    requires s != [] && !IsSpace(s[0]) && Words(s[|NonSpaceRun(s)|..]) != []
    ensures Spaced(s) == NonSpaceRun(s) + Spaced(s[|NonSpaceRun(s)|..])
  {
    var w := NonSpaceRun(s);
    var u := s[|w|..];
    RestMorePadded(s);
    WholeMorePadded(s);
    PadWordMore(w, Join(Words(u), " "), IsSpace(u[|u| - 1]));
  }

  lemma RestMorePadded(s: string)
    requires s != [] && !IsSpace(s[0]) && Words(s[|NonSpaceRun(s)|..]) != []
    ensures var u := s[|NonSpaceRun(s)|..];
      u != [] && Spaced(u) == Pad(true, Join(Words(u), " "), IsSpace(u[|u| - 1]))
  {
    WordStep(s);
  }

  lemma WholeMorePadded(s: string)
    requires s != [] && !IsSpace(s[0]) && Words(s[|NonSpaceRun(s)|..]) != []
    ensures var u := s[|NonSpaceRun(s)|..];
      u != [] && Spaced(s) == Pad(false, NonSpaceRun(s) + " " + Join(Words(u), " "), IsSpace(u[|u| - 1]))
  {
    JoinWordsMore(s);
    TrailMore(s);
  }

  /** With more words after the first, the whole text ends with whitespace after a word exactly when the rest does. */
  lemma TrailMore(s: string)
    requires s != [] && !IsSpace(s[0]) && Words(s[|NonSpaceRun(s)|..]) != []
    ensures var u := s[|NonSpaceRun(s)|..];
      u != [] && (Words(s) != [] && IsSpace(s[|s| - 1])) == IsSpace(u[|u| - 1])
  {
    WordStep(s);
  }

  /** A text with one word: the words joined are that word. */
  lemma JoinWordsAlone(s: string)
    requires s != [] && !IsSpace(s[0]) && Words(s[|NonSpaceRun(s)|..]) == []
    ensures Join(Words(s), " ") == NonSpaceRun(s)
  {
    WordsOfWord(s);
  }

  /** A text with more words after the first: that word, one space, then the rest's words joined. */
  lemma JoinWordsMore(s: string)
    requires s != [] && !IsSpace(s[0]) && Words(s[|NonSpaceRun(s)|..]) != []
    ensures Join(Words(s), " ") == NonSpaceRun(s) + " " + Join(Words(s[|NonSpaceRun(s)|..]), " ")
  {
    var wu := Words(s[|NonSpaceRun(s)|..]);
    WordsOfWord(s);
    assert ([NonSpaceRun(s)] + wu)[1..] == wu;
  }

  /** One word and nothing else: the trailing space of the whole is the leading space of the rest. */
  lemma PadWordAlone(w: string, b: bool)
    ensures Pad(false, w, b) == w + Pad(b, "", false)
  {
  }

  /** A word in front of more words: the word, then the rest with a leading space. */
  lemma PadWordMore(w: string, j: string, trail: bool)
    ensures Pad(false, w + " " + j, trail) == w + Pad(true, j, trail)
  {
    Concat3(w, " " + j, SpaceIf(trail));
    Concat3(w, " ", j);
    Concat3(" ", j, SpaceIf(trail));
  }

  /** Leading whitespace holds no word. */
  lemma WordsLead(s: string)
    requires s != [] && IsSpace(s[0])
    ensures Words(s) == Words(LStrip(s))
    ensures LStrip(s) == [] || !IsSpace(LStrip(s)[0])
  {
  }

  /** `lstrip` keeps the last character of a text it does not empty. */
  lemma LStripLast(s: string)
    ensures LStrip(s) != [] ==> LStrip(s)[|LStrip(s)| - 1] == s[|s| - 1]
  {
  }

  /** A text without words is all whitespace. */
  lemma WordsEmpty(s: string)
    ensures Words(s) == [] ==> AllSpace(s)
  {
    if Words(s) == [] {
      assert LStrip(s) == [];
      assert s[..|s| - |LStrip(s)|] == s;
    }
  }

  /** A text starting with a word is that word followed by text that is empty or starts with whitespace. */
  lemma SplitAtRun(s: string)
    ensures var w := NonSpaceRun(s); var u := s[|w|..];
      && s == w + u && (u == [] || IsSpace(u[0]))
      && (u != [] ==> s[|s| - 1] == u[|u| - 1])
  {
  }

  /** Words joined by one space start and end with a character that is not whitespace. */
  lemma {:induction false} JoinWordsEdges(ws: seq<string>)
    requires ws != []
    requires forall i :: 0 <= i < |ws| ==> ws[i] != [] && forall j :: 0 <= j < |ws[i]| ==> !IsSpace(ws[i][j])
    ensures var r := Join(ws, " "); r != [] && !IsSpace(r[0]) && !IsSpace(r[|r| - 1])
  {
    if |ws| > 1 {
      JoinWordsEdges(ws[1..]);
      var r := Join(ws, " ");
      assert r == ws[0] + " " + Join(ws[1..], " ");
      assert r[0] == ws[0][0];
    }
  }

  /** Whitespace in front of text that starts with a non-space is what `lstrip` removes. */
  lemma {:induction false} LStripSpaces(a: string, x: string)
    requires AllSpace(a) && (x == [] || !IsSpace(x[0]))
    ensures LStrip(a + x) == x
    decreases |a|
  {
    if a == [] {
      assert a + x == x;
    } else {
      assert (a + x)[1..] == a[1..] + x;
      LStripSpaces(a[1..], x);
    }
  }

  /** Whitespace behind text that ends with a non-space is what `rstrip` removes. */
  lemma {:induction false} RStripSpaces(x: string, b: string)
    requires AllSpace(b) && (x == [] || !IsSpace(x[|x| - 1]))
    ensures RStrip(x + b) == x
    decreases |b|
  {
    if b == [] {
      assert x + b == x;
    } else {
      assert (x + b)[..|x + b| - 1] == x + b[..|b| - 1];
      RStripSpaces(x, b[..|b| - 1]);
    }
  }

  /** Stripping keeps a string single-spaced. */
  lemma StripSingleSpaced(c: string)
    requires SingleSpaced(c)
    ensures SingleSpaced(Strip(c))
  {
    var l := LStrip(c);
    var r := RStrip(l);
    assert c[|c| - |l|..|c|] == l;
    SingleSpacedSlice(c, |c| - |l|, |c|);
    assert l[0..|r|] == r;
    SingleSpacedSlice(l, 0, |r|);
    assert Strip(c) == r;
  }

  /** `re.sub(r'\s+', ' ', s).strip()`, the whitespace normalisation of the news cleaners. */
  function NormaliseSpace(s: string): (r: string)
    ensures SingleSpaced(r)
    ensures r == [] || (!IsSpace(r[0]) && !IsSpace(r[|r| - 1]))
  {
    CollapseSpaceSingle(s);
    StripSingleSpaced(CollapseSpace(s));
    Strip(CollapseSpace(s))
  }

  /**
   * The normalisation is `" ".join(s.split())`: the words of the text, in
   * order, separated by single spaces, and nothing else.
   */
  lemma NormaliseSpaceWords(s: string)
    ensures NormaliseSpace(s) == Join(Words(s), " ")
  {
    var ws := Words(s);
    CollapseWords(s);
    if ws != [] {
      WordsAreWords(s);
      JoinWordsEdges(ws);
    }
    StripPadded(s != [] && IsSpace(s[0]), Join(ws, " "), ws != [] && IsSpace(s[|s| - 1]));
  }

  /** Stripping text with at most one space on either side of a trimmed middle leaves the middle. */
  lemma StripPadded(a: bool, j: string, b: bool)
    requires j == [] ==> !b
    requires j == [] || (!IsSpace(j[0]) && !IsSpace(j[|j| - 1]))
    ensures Strip(SpaceIf(a) + j + SpaceIf(b)) == j
  {
    var x := SpaceIf(a) + j + SpaceIf(b);
    if j == [] {
      assert x == SpaceIf(a);
      StripEmptyIffAllSpace(x);
    } else {
      Concat3(SpaceIf(a), j, SpaceIf(b));
      LStripSpaces(SpaceIf(a), j + SpaceIf(b));
      RStripSpaces(j, SpaceIf(b));
    }
  }

  /** The normalisation keeps every character that is not whitespace, in order. */
  lemma NormaliseSpaceKeeps(s: string)
    ensures NonSpace(NormaliseSpace(s)) == NonSpace(s)
  {
    var c := CollapseSpace(s);
    var l := LStrip(c);
    CollapseSpaceKeeps(s);
    NonSpaceLStrip(c);
    NonSpaceRStrip(l);
  }

  /** Trailing whitespace holds nothing `NonSpace` keeps. */
  lemma {:induction false} NonSpaceRStrip(s: string)
    ensures NonSpace(RStrip(s)) == NonSpace(s)
    decreases |s|
  {
    if s != [] && IsSpace(s[|s| - 1]) {
      var i := s[..|s| - 1];
      NonSpaceRStrip(i);
      NonSpaceAppend(i, [s[|s| - 1]]);
      assert s == i + [s[|s| - 1]];
    }
  }

  lemma {:induction false} NonSpaceAppend(a: string, b: string)
    ensures NonSpace(a + b) == NonSpace(a) + NonSpace(b)
  {
    if a == [] {
      assert a + b == b;
    } else {
      assert (a + b)[1..] == a[1..] + b;
      NonSpaceAppend(a[1..], b);
    }
  }

  /**
   * Where a tag that `re.sub(r'<.*?>', ...)` removes ends, for a string
   * starting with '<': the first '>' after it, provided no newline comes
   * first ('.' does not match a newline).
   */
  function TagEnd(s: string, j: nat): (r: Option<nat>)
    requires 1 <= j <= |s|
    ensures r.Some? ==> j <= r.value < |s| && s[r.value] == '>'
    ensures r.Some? ==> forall k :: j <= k < r.value ==> s[k] != '>' && s[k] != '\n'
    decreases |s| - j
  {
    if j == |s| || s[j] == '\n' then None
    else if s[j] == '>' then Some(j)
    else TagEnd(s, j + 1)
  }

  /** No `>` comes before the end of the first line of `s`. */
  predicate OpenLine(s: string)
    decreases |s|
  {
    s == [] || s[0] == '\n' || (s[0] != '>' && OpenLine(s[1..]))
  }

  /** No `<` has a `>` after it on the same line: nothing in `s` matches `<.*?>`. */
  predicate TagFree(s: string)
    decreases |s|
  {
    s == [] || ((s[0] == '<' ==> OpenLine(s[1..])) && TagFree(s[1..]))
  }

  /** The search for a tag's end fails exactly when the line has no `>` left. */
  lemma {:induction false} TagEndNone(s: string, j: nat)
    requires 1 <= j <= |s|
    ensures TagEnd(s, j).None? <==> OpenLine(s[j..])
    decreases |s| - j
  {
    if j < |s| && s[j] != '\n' && s[j] != '>' {
      TagEndNone(s, j + 1);
      assert s[j..][1..] == s[j + 1..];
    }
  }

  /**
   * `re.sub(r'<.*?>', '', s)`: every shortest `<...>` span on one line
   * removed, scanning from the left. No such span is left behind, and a
   * line without `>` keeps that property.
   */
  function RemoveTags(s: string): (r: string)
    ensures |r| <= |s|
    ensures '<' !in s ==> r == s
    ensures TagFree(r)
    ensures OpenLine(s) ==> OpenLine(r)
    decreases |s|
  {
    if s == [] then []
    else if s[0] == '<' then
      TagEndNone(s, 1);
      match TagEnd(s, 1)
      case Some(e) => RemoveTags(s[e + 1..])
      case None => [s[0]] + RemoveTags(s[1..])
    else [s[0]] + RemoveTags(s[1..])
  }

  /** Text before the first `<` is kept as it is. */
  lemma {:induction false} RemoveTagsPlain(a: string, b: string)
    requires '<' !in a
    ensures RemoveTags(a + b) == a + RemoveTags(b)
    decreases |a|
  {
    if a == [] {
      assert a + b == b;
    } else {
      assert (a + b)[1..] == a[1..] + b;
      RemoveTagsPlain(a[1..], b);
      Concat3([a[0]], a[1..], RemoveTags(b));
      assert [a[0]] + a[1..] == a;
    }
  }

  /** A tag, `<` then text without `>` or a newline then `>`, disappears whole. */
  lemma RemoveTagsSpan(t: string, b: string)
    requires '>' !in t && '\n' !in t
    ensures RemoveTags("<" + t + ">" + b) == RemoveTags(b)
  {
    var s := "<" + t + ">" + b;
    assert s[1 + |t|] == '>';
    assert forall k :: 1 <= k < 1 + |t| ==> s[k] == t[k - 1];
    TagEndAt(s, 1, 1 + |t|);
    assert s[2 + |t|..] == b;
  }

  /** The tag's end is the first `>` when no newline or `>` comes before it. */
  lemma {:induction false} TagEndAt(s: string, j: nat, e: nat)
    requires 1 <= j <= e < |s| && s[e] == '>'
    requires forall k :: j <= k < e ==> s[k] != '>' && s[k] != '\n'
    ensures TagEnd(s, j) == Some(e)
    decreases e - j
  {
    if j < e {
      TagEndAt(s, j + 1, e);
    }
  }

  /** Text without a tag is left unchanged. */
  lemma {:induction false} RemoveTagsFixed(s: string)
    requires TagFree(s)
    ensures RemoveTags(s) == s
    decreases |s|
  {
    if s != [] {
      RemoveTagsFixed(s[1..]);
      if s[0] == '<' {
        TagEndNone(s, 1);
      }
      assert s == [s[0]] + s[1..];
    }
  }

  /** Removing tags twice removes nothing more. */
  lemma RemoveTagsIdempotent(s: string)
    ensures RemoveTags(RemoveTags(s)) == RemoveTags(s)
  {
    RemoveTagsFixed(RemoveTags(s));
  }

  /** `s.replace("\n", " ")` */
  function NewlinesToSpaces(s: string): (r: string)
    ensures |r| == |s| && '\n' !in r
    ensures forall i :: 0 <= i < |s| ==> r[i] == if s[i] == '\n' then ' ' else s[i]
  {
    seq(|s|, i requires 0 <= i < |s| => if s[i] == '\n' then ' ' else s[i])
  }
}
