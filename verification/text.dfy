/** The Python string primitives the extractor relies on: `isspace`,
    `lower`, `in`, `strip`, `split`, `join` and `replace(t, "")`. */
module Text {

  /** The characters for which Python's `str.isspace()` is true; they are
      also what `strip()`, `split()` and the regex class `\s` skip. `int()`
      skips fewer (`Numerals.IntSpace`). */
  const Whitespace: set<char> := {
    '\t', '\n', '\U{B}', '\U{C}', '\r', '\U{1C}', '\U{1D}', '\U{1E}', '\U{1F}', ' ',
    '\U{85}', '\U{A0}', '\U{1680}',
    '\U{2000}', '\U{2001}', '\U{2002}', '\U{2003}', '\U{2004}', '\U{2005}',
    '\U{2006}', '\U{2007}', '\U{2008}', '\U{2009}', '\U{200A}',
    '\U{2028}', '\U{2029}', '\U{202F}', '\U{205F}', '\U{3000}'
  }

  predicate IsDigit(c: char) { '0' <= c <= '9' }

  lemma SliceSplit(s: string, i: nat, j: nat, k: nat)
    requires i <= j <= k <= |s|
    ensures s[i..k] == s[i..j] + s[j..k]
  {
  }

  lemma DigitNotSpace(c: char)
    requires IsDigit(c)
    ensures c !in Whitespace
  {
  }

  predicate IsAsciiLetter(c: char) { 'a' <= c <= 'z' || 'A' <= c <= 'Z' }

  /** Characters on which the regex `\b` sees a word (ASCII part). */
  predicate IsWordChar(c: char) { IsDigit(c) || IsAsciiLetter(c) || c == '_' }

  predicate AllDigits(s: string) { forall k :: 0 <= k < |s| ==> IsDigit(s[k]) }

  /** No character of `s` belongs to `cs`. */
  predicate NoneIn(s: string, cs: set<char>) { forall k :: 0 <= k < |s| ==> s[k] !in cs }

  /** Every character of `s` belongs to `cs`. */
  predicate AllIn(s: string, cs: set<char>) { forall k :: 0 <= k < |s| ==> s[k] in cs }

  function LowerChar(c: char): char
  {
    if 'A' <= c <= 'Z' then (c as int + 32) as char else c
  }

  /** `str.lower()` on the ASCII range: each capital becomes its small
      letter, and every other character is kept where it was. */
  function Lower(s: string): (r: string)
    ensures |r| == |s|
    ensures forall k :: 0 <= k < |r| ==> !('A' <= r[k] <= 'Z')
    ensures forall k :: 0 <= k < |s| && 'A' <= s[k] <= 'Z' ==> r[k] as int == s[k] as int + ('a' as int - 'A' as int)
    ensures forall k :: 0 <= k < |s| && !('A' <= s[k] <= 'Z') ==> r[k] == s[k]
  {
    seq(|s|, k requires 0 <= k < |s| => LowerChar(s[k]))
  }

  /** Lowering is idempotent, so text that differs only in the case of its
      letters lowers to the same text. */
  lemma LowerIdempotent(s: string)
    ensures Lower(Lower(s)) == Lower(s)
  {
    var l := Lower(s);
    assert forall k :: 0 <= k < |l| ==> Lower(l)[k] == l[k];
  }

  /** `w` spells `n` with some of `n`'s small letters written as capitals;
      `n` itself holds no capital. */
  predicate CaseVariant(w: string, n: string)
  {
    && |w| == |n|
    && forall k :: 0 <= k < |n| ==>
         || (w[k] == n[k] && !('A' <= n[k] <= 'Z'))
         || ('a' <= n[k] <= 'z' && w[k] as int == n[k] as int - ('a' as int - 'A' as int))
  }

  /** Lowering `w` gives `n` exactly when `w` is a capitalisation of `n`. */
  lemma LowerIsCaseVariant(w: string, n: string)
    ensures Lower(w) == n <==> CaseVariant(w, n)
  {
  }

  /** Lowering works character by character, so it distributes over
      concatenation. */
  lemma LowerAppend(a: string, b: string)
    ensures Lower(a + b) == Lower(a) + Lower(b)
  {
    var l, r := Lower(a + b), Lower(a) + Lower(b);
    forall k | 0 <= k < |l|
      ensures l[k] == r[k]
    {
      if k < |a| {
        assert (a + b)[k] == a[k];
      } else {
        assert (a + b)[k] == b[k - |a|];
      }
    }
  }

  // ---------------------------------------------------------------------
  // Substring containment (`t in s`)

  predicate StartsWith(s: string, p: string) { |p| <= |s| && s[..|p|] == p }

  /** `t` occurs in `s` starting at index `i`. */
  predicate OccursAt(s: string, t: string, i: int)
  {
    0 <= i && i + |t| <= |s| && s[i..i + |t|] == t
  }

  /** `t` occurs where it is appended. */
  lemma OccursAtEnd(a: string, t: string)
    ensures OccursAt(a + t, t, |a|)
  {
    assert (a + t)[|a|..|a| + |t|] == t;
  }

  /** Python's `t in s`, scanning left to right. */
  predicate Contains(s: string, t: string)
    decreases |s|
  {
    StartsWith(s, t) || (|s| > 0 && Contains(s[1..], t))
  }

  /** The scan agrees with the positional definition of a substring. */
  lemma {:induction false} ContainsIffOccurs(s: string, t: string)
    ensures Contains(s, t) <==> exists i :: OccursAt(s, t, i)
    decreases |s|
  {
    if Contains(s, t) {
      if StartsWith(s, t) {
        assert OccursAt(s, t, 0);
      } else {
        ContainsIffOccurs(s[1..], t);
        var i :| OccursAt(s[1..], t, i);
        assert s[1..][i..i + |t|] == s[i + 1..i + 1 + |t|];
        assert OccursAt(s, t, i + 1);
      }
    }
    if exists i :: OccursAt(s, t, i) {
      var i :| OccursAt(s, t, i);
      if i == 0 {
        assert StartsWith(s, t);
      } else {
        assert s[1..][i - 1..i - 1 + |t|] == s[i..i + |t|];
        assert OccursAt(s[1..], t, i - 1);
        ContainsIffOccurs(s[1..], t);
      }
    }
  }

  // ---------------------------------------------------------------------
  // strip

  /** How many leading characters of `s` lie in `cs`. */
  function LeadingCount(s: string, cs: set<char>): (n: nat)
    ensures n <= |s|
    ensures forall k :: 0 <= k < n ==> s[k] in cs
    ensures n == |s| || s[n] !in cs
    decreases |s|
  {
    if |s| > 0 && s[0] in cs then 1 + LeadingCount(s[1..], cs) else 0
  }

  /** How many trailing characters of `s` lie in `cs`. */
  function TrailingCount(s: string, cs: set<char>): (n: nat)
    ensures n <= |s|
    ensures forall k :: |s| - n <= k < |s| ==> s[k] in cs
    ensures n == |s| || s[|s| - n - 1] !in cs
    decreases |s|
  {
    if |s| > 0 && s[|s| - 1] in cs then 1 + TrailingCount(s[..|s| - 1], cs) else 0
  }

  /** Python's `s.strip(chars)`: drop the leading, then the trailing,
      characters that belong to `cs`. */
  function Strip(s: string, cs: set<char>): (r: string)
    ensures |r| <= |s|
    ensures LeadingCount(s, cs) + |r| <= |s|
    ensures r == s[LeadingCount(s, cs)..LeadingCount(s, cs) + |r|]
    ensures forall k :: LeadingCount(s, cs) + |r| <= k < |s| ==> s[k] in cs
    ensures r == [] || (r[0] !in cs && r[|r| - 1] !in cs)
    ensures r == [] <==> AllIn(s, cs)
  {
    var t := s[LeadingCount(s, cs)..];
    t[..|t| - TrailingCount(t, cs)]
  }

  /** Padding drawn from `cs` around a core whose ends lie outside `cs` is
      exactly what `strip` removes. */
  lemma StripPadded(w1: string, x: string, w2: string, cs: set<char>)
    requires AllIn(w1, cs) && AllIn(w2, cs)
    requires |x| > 0 && x[0] !in cs && x[|x| - 1] !in cs
    ensures Strip(w1 + x + w2, cs) == x
  {
    var s := w1 + x + w2;
    assert s[|w1|] == x[0];
    var n := LeadingCount(s, cs);
    assert n == |w1|;
    var t := s[n..];
    assert t == x + w2;
    var m := TrailingCount(t, cs);
    assert t[|x| - 1] == x[|x| - 1];
    assert m == |w2|;
    assert t[..|t| - m] == x;
  }

  /** A string whose ends lie outside `cs` is left alone by `strip`. */
  lemma StripUnpadded(x: string, cs: set<char>)
    requires |x| > 0 && x[0] !in cs && x[|x| - 1] !in cs
    ensures Strip(x, cs) == x
  {
    StripPadded([], x, [], cs);
    assert [] + x + [] == x;
  }

  /** `strip` keeps a leading piece whose ends lie outside `cs`. */
  lemma StripKeepsHead(x: string, y: string, cs: set<char>)
    requires |x| > 0 && x[0] !in cs && x[|x| - 1] !in cs
    ensures |x| <= |Strip(x + y, cs)| && Strip(x + y, cs)[..|x|] == x
  {
    var s := x + y;
    var r := Strip(s, cs);
    assert s[0] == x[0];
    assert LeadingCount(s, cs) == 0;
    assert s[|x| - 1] == x[|x| - 1];
    assert |x| <= |r|;
  }

  // ---------------------------------------------------------------------
  // split and join

  /** Python's `s.split(sep)` and `re.split('[...]', s)` for a set of
      one-character separators: the maximal pieces between separators,
      empty pieces included. */
  function Split(s: string, seps: set<char>): (parts: seq<string>)
    ensures |parts| >= 1
    ensures forall i, k :: 0 <= i < |parts| && 0 <= k < |parts[i]| ==> parts[i][k] !in seps
    decreases |s|
  {
    if |s| == 0 then [""]
    else
      var rest := Split(s[1..], seps);
      if s[0] in seps then [""] + rest
      else [[s[0]] + rest[0]] + rest[1..]
  }

  /** A string without separators is one piece. */
  lemma {:induction false} SplitNoSeparator(s: string, seps: set<char>)
    requires NoneIn(s, seps)
    ensures Split(s, seps) == [s]
    decreases |s|
  {
    if |s| > 0 {
      SplitNoSeparator(s[1..], seps);
      assert [s[0]] + s[1..] == s;
    }
  }

  lemma NoneInConcat(a: string, b: string, cs: set<char>)
    requires NoneIn(a, cs) && NoneIn(b, cs)
    ensures NoneIn(a + b, cs)
  {
    forall k | 0 <= k < |a + b|
      ensures (a + b)[k] !in cs
    {
      if k >= |a| {
        assert (a + b)[k] == b[k - |a|];
      }
    }
  }

  /** Splitting at a separator that follows a separator-free piece. */
  lemma {:induction false} SplitAfterPiece(a: string, c: char, b: string, seps: set<char>)
    requires NoneIn(a, seps) && c in seps
    ensures Split(a + [c] + b, seps) == [a] + Split(b, seps)
    decreases |a|
  {
    if |a| == 0 {
      assert a + [c] + b == [c] + b;
      assert ([c] + b)[1..] == b;
    } else {
      var s := a + [c] + b;
      assert s[1..] == a[1..] + [c] + b;
      SplitAfterPiece(a[1..], c, b, seps);
      assert [a[0]] + a[1..] == a;
    }
  }

  /** Python's `sep.join(parts)`: every piece, with one separator between
      each two neighbours and none at the ends. */
  function JoinWith(parts: seq<string>, sep: string): (r: string)
    decreases |parts|
  {
    if |parts| == 0 then ""
    else if |parts| == 1 then parts[0]
    else parts[0] + sep + JoinWith(parts[1..], sep)
  }

  lemma JoinTwo(a: string, b: string, sep: string)
    ensures JoinWith([a, b], sep) == a + sep + b
  {
    assert [a, b][1..] == [b];
  }

  lemma JoinThree(a: string, b: string, c: string, sep: string)
    ensures JoinWith([a, b, c], sep) == a + sep + b + sep + c
  {
    assert [a, b, c][1..] == [b, c];
    JoinTwo(b, c, sep);
    assert a + sep + (b + sep + c) == a + sep + b + sep + c;
  }

  /** A join of non-empty pieces starts with the first piece and ends with
      the last. */
  lemma {:induction false} JoinWithEnds(parts: seq<string>, sep: string)
    requires |parts| >= 1
    requires forall i :: 0 <= i < |parts| ==> |parts[i]| > 0
    ensures var j := JoinWith(parts, sep);
      && |j| > 0
      && j[0] == parts[0][0]
      && j[|j| - 1] == parts[|parts| - 1][|parts[|parts| - 1]| - 1]
    decreases |parts|
  {
    if |parts| > 1 {
      JoinWithEnds(parts[1..], sep);
    }
  }

  /** Joining separator-free pieces and splitting again gives them back. */
  lemma {:induction false} SplitJoin(parts: seq<string>, c: char, seps: set<char>)
    requires |parts| >= 1 && c in seps
    requires forall i :: 0 <= i < |parts| ==> NoneIn(parts[i], seps)
    ensures Split(JoinWith(parts, [c]), seps) == parts
    decreases |parts|
  {
    if |parts| == 1 {
      SplitNoSeparator(parts[0], seps);
    } else {
      SplitJoin(parts[1..], c, seps);
      SplitAfterPiece(parts[0], c, JoinWith(parts[1..], [c]), seps);
      assert [parts[0]] + parts[1..] == parts;
    }
  }

  /** Splitting at a one-character separator and joining again gives the
      string back. */
  lemma {:induction false} JoinSplit(s: string, c: char)
    ensures JoinWith(Split(s, {c}), [c]) == s
    decreases |s|
  {
    if |s| > 0 {
      var rest := Split(s[1..], {c});
      JoinSplit(s[1..], c);
      if s[0] == c {
        assert Split(s, {c}) == [""] + rest;
        assert ([""] + rest)[1..] == rest;
      } else {
        var parts := Split(s, {c});
        assert parts == [[s[0]] + rest[0]] + rest[1..];
        if |rest| == 1 {
          assert s == [s[0]] + s[1..];
        } else {
          assert parts[1..] == rest[1..];
          assert JoinWith(rest, [c]) == rest[0] + [c] + JoinWith(rest[1..], [c]);
          assert s == [s[0]] + s[1..];
        }
      }
    }
  }

  /** Drop the empty strings, keeping order. */
  function NonEmpty(parts: seq<string>): (r: seq<string>)
    ensures forall i :: 0 <= i < |r| ==> r[i] != ""
    ensures forall i :: 0 <= i < |r| ==> r[i] in parts
    decreases |parts|
  {
    if |parts| == 0 then []
    else if parts[|parts| - 1] == "" then NonEmpty(parts[..|parts| - 1])
    else NonEmpty(parts[..|parts| - 1]) + [parts[|parts| - 1]]
  }

  lemma {:induction false} NonEmptyKeepsNonEmpty(parts: seq<string>)
    requires forall i :: 0 <= i < |parts| ==> parts[i] != ""
    ensures NonEmpty(parts) == parts
    decreases |parts|
  {
    if |parts| > 0 {
      NonEmptyKeepsNonEmpty(parts[..|parts| - 1]);
    }
  }

  /** Dropping empty strings works piecewise over a concatenation. */
  lemma {:induction false} NonEmptyAppend(a: seq<string>, b: seq<string>)
    ensures NonEmpty(a + b) == NonEmpty(a) + NonEmpty(b)
    decreases |b|
  {
    if |b| == 0 {
      assert a + b == a;
    } else {
      var c := a + b;
      assert c[..|c| - 1] == a + b[..|b| - 1];
      assert c[|c| - 1] == b[|b| - 1];
      NonEmptyAppend(a, b[..|b| - 1]);
    }
  }

  /** A word: non-empty and free of whitespace. */
  predicate IsWord(w: string) { |w| > 0 && NoneIn(w, Whitespace) }

  /** A run of ASCII letters is a word. */
  lemma LettersWord(w: string)
    requires |w| > 0 && forall k :: 0 <= k < |w| ==> IsAsciiLetter(w[k])
    ensures IsWord(w)
  {
    forall k | 0 <= k < |w|
      ensures w[k] !in Whitespace
    {
      LetterNotSpace(w[k]);
    }
  }

  lemma LetterNotSpace(c: char)
    requires IsAsciiLetter(c)
    ensures c !in Whitespace
  {
  }

  /** Python's `s.split()`: the runs of non-whitespace characters. */
  function Words(s: string): (ws: seq<string>)
    ensures forall i :: 0 <= i < |ws| ==> IsWord(ws[i])
  {
    var ws := NonEmpty(Split(s, Whitespace));
    assert forall i :: 0 <= i < |ws| ==> ws[i] in Split(s, Whitespace);
    ws
  }

  /** Joining a piece in front of a non-empty list puts one separator
      after it. */
  lemma JoinCons(a: string, ps: seq<string>, sep: string)
    requires |ps| > 0
    ensures JoinWith([a] + ps, sep) == a + sep + JoinWith(ps, sep)
  {
    assert ([a] + ps)[1..] == ps;
  }

  /** An empty piece between two others shows as a doubled separator. */
  lemma JoinWithGap(w: string, rest: seq<string>)
    requires |rest| > 0
    ensures JoinWith([w, ""] + rest, " ") == w + "  " + JoinWith(rest, " ")
  {
    JoinCons("", rest, " ");
    JoinCons(w, [""] + rest, " ");
    ConsPair(w, "", rest);
    DoubleSpace(w, JoinWith(rest, " "));
  }

  lemma ConsPair<T>(a: T, b: T, rest: seq<T>)
    ensures [a] + ([b] + rest) == [a, b] + rest
  {
  }

  lemma DoubleSpace(w: string, j: string)
    ensures w + " " + ("" + " " + j) == w + "  " + j
  {
    assert "" + " " + j == " " + j;
    assert w + " " + (" " + j) == w + " " + " " + j;
    assert " " + " " == "  ";
  }

  /** A gap of two spaces between words still separates just two words:
      `split()` gives back the first word and then the joined ones. */
  lemma WordsOfDoubleSpace(w: string, rest: seq<string>)
    requires IsWord(w) && |rest| > 0
    requires forall i :: 0 <= i < |rest| ==> IsWord(rest[i])
    ensures Words(w + "  " + JoinWith(rest, " ")) == [w] + rest
  {
    var parts := [w, ""] + rest;
    SplitOfGap(w, rest);
    assert Words(w + "  " + JoinWith(rest, " ")) == NonEmpty(parts);
    NonEmptyAppend([w, ""], rest);
    NonEmptyOfGap(w);
    NonEmptyKeepsNonEmpty(rest);
  }

  lemma NonEmptyOfGap(w: string)
    requires w != ""
    ensures NonEmpty([w, ""]) == [w]
  {
    assert [w][..0] == [] && NonEmpty([w]) == [w];
    assert [w, ""][..1] == [w];
  }

  /** The pieces `split` cuts a doubled gap into: the first word, an empty
      piece, and the rest. */
  lemma SplitOfGap(w: string, rest: seq<string>)
    requires IsWord(w) && |rest| > 0
    requires forall i :: 0 <= i < |rest| ==> IsWord(rest[i])
    ensures Split(w + "  " + JoinWith(rest, " "), Whitespace) == [w, ""] + rest
  {
    var parts := [w, ""] + rest;
    forall i | 0 <= i < |parts|
      ensures NoneIn(parts[i], Whitespace)
    {
      if i >= 2 {
        assert parts[i] == rest[i - 2];
      } else if i == 1 {
        assert parts[i] == "";
      } else {
        assert parts[i] == w;
      }
    }
    JoinWithGap(w, rest);
    assert [' '] == " ";
    SplitJoin(parts, ' ', Whitespace);
  }

  /** Words joined by single spaces split back into the same words. */
  lemma WordsOfJoin(ws: seq<string>)
    requires forall i :: 0 <= i < |ws| ==> IsWord(ws[i])
    ensures Words(JoinWith(ws, " ")) == ws
  {
    if |ws| == 0 {
      assert Split("", Whitespace) == [""];
    } else {
      SplitJoin(ws, ' ', Whitespace);
      NonEmptyKeepsNonEmpty(ws);
    }
  }

  /** The only whitespace is the plain space, and no two spaces are adjacent. */
  predicate SingleSpaced(s: string)
  {
    && (forall k :: 0 <= k < |s| && s[k] in Whitespace ==> s[k] == ' ')
    && (forall k :: 0 <= k < |s| - 1 && s[k] == ' ' ==> s[k + 1] != ' ')
  }

  lemma SingleSpacedSlice(s: string, i: int, j: int)
    requires SingleSpaced(s) && 0 <= i <= j <= |s|
    ensures SingleSpaced(s[i..j])
  {
    var t := s[i..j];
    forall k | 0 <= k < |t| - 1 && t[k] == ' '
      ensures t[k + 1] != ' '
    {
      assert t[k] == s[i + k] && t[k + 1] == s[i + k + 1];
    }
  }

  /** Words joined by single spaces are single-spaced and start and end
      with a non-space character. */
  lemma {:induction false} JoinWordsSingleSpaced(ws: seq<string>)
    requires forall i :: 0 <= i < |ws| ==> IsWord(ws[i])
    ensures SingleSpaced(JoinWith(ws, " "))
    ensures |ws| > 0 ==> |JoinWith(ws, " ")| > 0
    ensures |ws| > 0 ==> JoinWith(ws, " ")[0] !in Whitespace
    ensures |ws| > 0 ==> JoinWith(ws, " ")[|JoinWith(ws, " ")| - 1] !in Whitespace
    decreases |ws|
  {
    if |ws| > 1 {
      JoinWordsSingleSpaced(ws[1..]);
      var w := ws[0];
      var rest := JoinWith(ws[1..], " ");
      var s := w + " " + rest;
      assert s == JoinWith(ws, " ");
      assert s[0] == w[0];
      assert s[|s| - 1] == rest[|rest| - 1];
      forall k | 0 <= k < |s| && s[k] in Whitespace
        ensures s[k] == ' '
      {
        if k > |w| {
          assert s[k] == rest[k - |w| - 1];
        }
      }
      forall k | 0 <= k < |s| - 1 && s[k] == ' '
        ensures s[k + 1] != ' '
      {
        if k == |w| {
          assert s[k + 1] == rest[0];
        } else {
          assert s[k] == rest[k - |w| - 1];
          assert s[k + 1] == rest[k - |w|];
        }
      }
    }
  }

  // ---------------------------------------------------------------------
  // replace(t, "")

  /** Python's `s.replace(t, "")`: every non-overlapping occurrence of `t`,
      found left to right, is cut out; an empty `t` leaves `s` alone. */
  function RemoveAll(s: string, t: string): (r: string)
    ensures |r| <= |s|
    ensures multiset(r) <= multiset(s)
    ensures !Contains(s, t) ==> r == s
    decreases |s|
  {
    if |t| == 0 || |s| == 0 then s
    else if StartsWith(s, t) then
      assert s == s[..|t|] + s[|t|..];
      RemoveAll(s[|t|..], t)
    else
      assert s == [s[0]] + s[1..];
      [s[0]] + RemoveAll(s[1..], t)
  }

  /** `t` does not occur in `s` at any index below `n`. */
  predicate NoneBefore(s: string, t: string, n: nat)
  {
    forall i :: 0 <= i < n ==> !OccursAt(s, t, i)
  }

  /** Dropping the first character moves every occurrence one place left. */
  lemma OccursShift(s: string, t: string, i: nat)
    requires |s| > 0
    ensures OccursAt(s[1..], t, i) <==> OccursAt(s, t, i + 1)
  {
    if i + |t| <= |s| - 1 {
      assert s[1..][i..i + |t|] == s[i + 1..i + 1 + |t|];
    }
  }

  /** No occurrence before `n` in `s` means none before `n - 1` once the
      first character is dropped. */
  lemma NoEarlierShift(s: string, t: string, n: nat)
    requires 0 < n <= |s| && NoneBefore(s, t, n)
    ensures NoneBefore(s[1..], t, n - 1)
  {
    forall i | 0 <= i < n - 1
      ensures !OccursAt(s[1..], t, i)
    {
      OccursShift(s, t, i);
    }
  }

  /** `replace` cuts the first occurrence of `t` and carries on after it:
      what comes before that occurrence is kept as it is. */
  lemma {:induction false} RemoveAllFirst(a: string, t: string, b: string)
    requires |t| > 0 && NoneBefore(a + t + b, t, |a|)
    ensures RemoveAll(a + t + b, t) == a + RemoveAll(b, t)
    decreases |a|
  {
    var s := a + t + b;
    if |a| == 0 {
      PrefixPieces(a, t, b);
    } else {
      FirstPieces(a, t, b);
      assert !StartsWith(s, t) by { assert !OccursAt(s, t, 0); }
      assert RemoveAll(s, t) == [a[0]] + RemoveAll(s[1..], t);
      NoEarlierShift(s, t, |a|);
      RemoveAllFirst(a[1..], t, b);
      ConsRest(a, RemoveAll(b, t));
    }
  }

  /** With nothing before it, `t` is the prefix and `b` what follows. */
  lemma PrefixPieces(a: string, t: string, b: string)
    requires |a| == 0
    ensures (a + t + b)[..|t|] == t && (a + t + b)[|t|..] == b
  {
    assert a + t + b == t + b;
  }

  /** The first character of `a + t + b` and the rest. */
  lemma FirstPieces(a: string, t: string, b: string)
    requires |a| > 0
    ensures (a + t + b)[0] == a[0] && (a + t + b)[1..] == a[1..] + t + b
  {
  }

  lemma ConsRest(a: string, r: string)
    requires |a| > 0
    ensures [a[0]] + (a[1..] + r) == a + r
  {
  }

}
