/**
 * The text cleaner of data_processor.py: `clean_text`, a fixed chain of four
 * regular-expression rewrites followed by `str.strip()`, and
 * `clean_content_batch`, which applies it to a list of fetched pages.
 *
 * Each rewrite is a function of its own, named after what it does:
 *   1. Collapse             re.sub(r"\s+", " ", text)
 *   2. ReplaceNonPrintable  re.sub(r"[^\x20-\x7E]", " ", text)
 *   3. DropShortWords       re.sub(r"\b\w{1,2}\b", " ", text)
 *   4. Collapse             re.sub(r"\s+", " ", text)
 *   5. Strip                text.strip()
 */
module TextCleaner {
  import opened Wrappers

  // ---------------------------------------------------------------------------
  // Character classes
  // ---------------------------------------------------------------------------

  /**
   * Python's `\s` on `str` patterns, which is also the set that `str.strip()`
   * removes: the characters for which `str.isspace()` holds.
   */
  predicate IsSpace(c: char) {
    var n := c as int;
    (0x09 <= n <= 0x0D) || (0x1C <= n <= 0x20) || n == 0x85 || n == 0xA0 || n == 0x1680
    || (0x2000 <= n <= 0x200A) || n == 0x2028 || n == 0x2029 || n == 0x202F || n == 0x205F
    || n == 0x3000
  }

  /** The class `[\x20-\x7E]`: printable ASCII. */
  predicate IsPrintable(c: char) {
    ' ' <= c <= '~'
  }

  /**
   * `\w` on ASCII text. Python's `\w` also matches non-ASCII letters and
   * digits, but step 3 only ever sees the output of step 2, which is ASCII.
   */
  predicate IsWordChar(c: char) {
    ('a' <= c <= 'z') || ('A' <= c <= 'Z') || ('0' <= c <= '9') || c == '_'
  }

  // ---------------------------------------------------------------------------
  // Shapes of cleaned text
  // ---------------------------------------------------------------------------

  predicate Printable(s: string) {
    forall i :: 0 <= i < |s| ==> IsPrintable(s[i])
  }

  /** Every whitespace character is a plain space, and no two whitespace characters are adjacent. */
  predicate SingleSpaced(s: string) {
    && (forall i :: 0 <= i < |s| && IsSpace(s[i]) ==> s[i] == ' ')
    && (forall i :: 0 < i < |s| ==> !IsSpace(s[i - 1]) || !IsSpace(s[i]))
  }

  /** No whitespace at either end. */
  predicate Trimmed(s: string) {
    s != [] ==> !IsSpace(s[0]) && !IsSpace(s[|s| - 1])
  }

  /**
   * Scanning `s` from the left, where `seen` word characters come just before
   * `s`: every maximal run of word characters has length 0 or at least 3 by
   * the time it ends.
   */
  predicate LongRuns(s: string, seen: nat)
    decreases |s|
  {
    if s == [] then seen == 0 || seen >= 3
    else if IsWordChar(s[0]) then LongRuns(s[1..], seen + 1)
    else (seen == 0 || seen >= 3) && LongRuns(s[1..], 0)
  }

  /** Every maximal run of word characters in `s` has at least three characters. */
  predicate NoShortWords(s: string) {
    LongRuns(s, 0)
  }

  // ---------------------------------------------------------------------------
  // The rewrites
  // ---------------------------------------------------------------------------

  /** The number of whitespace characters at the start of `s`. */
  function LeadingSpaces(s: string): (n: nat)
    ensures n <= |s|
    ensures forall i :: 0 <= i < n ==> IsSpace(s[i])
    ensures n < |s| ==> !IsSpace(s[n])
  {
    if s != [] && IsSpace(s[0]) then 1 + LeadingSpaces(s[1..]) else 0
  }

  /** `s` without its leading whitespace (`str.lstrip()`). */
  function DropLeadingSpaces(s: string): (r: string)
    ensures |r| <= |s|
    ensures r != [] ==> !IsSpace(r[0])
  {
    s[LeadingSpaces(s)..]
  }

  /**
   * `str.strip()`: `s` without the whitespace at either end. Only whitespace
   * is cut away, and text already trimmed is left as it is.
   */
  function Strip(s: string): (r: string)
    ensures Trimmed(r) && |r| <= |s|
    ensures Trimmed(s) ==> r == s
    decreases |s|
  {
    if s != [] && IsSpace(s[0]) then Strip(s[1..])
    else if s != [] && IsSpace(s[|s| - 1]) then Strip(s[..|s| - 1])
    else s
  }

  /**
   * `re.sub(r"\s+", " ", s)`: every maximal run of whitespace becomes a single
   * space; every other character is kept, in order.
   */
  function Collapse(s: string): (r: string)
    ensures |r| <= |s|
    ensures r == [] <==> s == []
    ensures r != [] ==> r[0] == (if IsSpace(s[0]) then ' ' else s[0])
    decreases |s|
  {
    if s == [] then []
    else if IsSpace(s[0]) then " " + Collapse(DropLeadingSpaces(s[1..]))
    else [s[0]] + Collapse(s[1..])
  }

  /** `re.sub(r"[^\x20-\x7E]", " ", s)`: printable characters stay, every other becomes a space. */
  function ReplaceNonPrintable(s: string): (r: string)
    ensures |r| == |s| && Printable(r)
    ensures forall i :: 0 <= i < |s| && IsPrintable(s[i]) ==> r[i] == s[i]
    ensures forall i :: 0 <= i < |s| && !IsPrintable(s[i]) ==> r[i] == ' '
  {
    if s == [] then []
    else [if IsPrintable(s[0]) then s[0] else ' '] + ReplaceNonPrintable(s[1..])
  }

  /** Length of the longest prefix of `s` made of word characters. */
  function WordPrefix(s: string): (n: nat)
    ensures n <= |s|
    ensures forall i :: 0 <= i < n ==> IsWordChar(s[i])
    ensures n < |s| ==> !IsWordChar(s[n])
  {
    if s != [] && IsWordChar(s[0]) then 1 + WordPrefix(s[1..]) else 0
  }

  /**
   * `re.sub(r"\b\w{1,2}\b", " ", s)`. A match starts where a word character
   * follows a non-word character (or the start), and must end where a
   * non-word character (or the end) follows, so it is exactly a maximal run
   * of one or two word characters; each becomes one space. The scan resumes
   * after each run, so longer runs are kept whole.
   */
  function DropShortWords(s: string): (r: string)
    ensures |r| <= |s|
    ensures s != [] && !IsWordChar(s[0]) ==> r != [] && r[0] == s[0]
    decreases |s|
  {
    if s == [] then []
    else if !IsWordChar(s[0]) then [s[0]] + DropShortWords(s[1..])
    else
      var n := WordPrefix(s);
      (if n <= 2 then " " else s[..n]) + DropShortWords(s[n..])
  }

  /**
   * `clean_text`: the empty string stays empty; otherwise the four rewrites
   * and a strip, which never make the text longer.
   */
  function CleanText(text: string): (r: string)
    ensures text == [] ==> r == []
    ensures |r| <= |text|
  {
    if text == [] then []
    else Strip(Collapse(DropShortWords(ReplaceNonPrintable(Collapse(text)))))
  }

  // ---------------------------------------------------------------------------
  // Lemmas about the rewrites
  // ---------------------------------------------------------------------------

  /** Collapsing leaves every whitespace character a single plain space. */
  lemma {:induction false} CollapseSingleSpaced(s: string)
    ensures SingleSpaced(Collapse(s))
    decreases |s|
  {
    if s != [] {
      var rest := if IsSpace(s[0]) then DropLeadingSpaces(s[1..]) else s[1..];
      CollapseSingleSpaced(rest);
      SingleSpacedCons(if IsSpace(s[0]) then ' ' else s[0], Collapse(rest));
    }
  }

  /** Putting a character before single-spaced text keeps it single-spaced, unless it makes two spaces meet. */
  lemma SingleSpacedCons(c: char, s: string)
    requires SingleSpaced(s)
    requires IsSpace(c) ==> c == ' ' && (s == [] || !IsSpace(s[0]))
    ensures SingleSpaced([c] + s)
  {
    var r := [c] + s;
    assert forall i :: 1 <= i < |r| ==> r[i] == s[i - 1];
  }

  /** Collapsing keeps every character or writes a space. */
  lemma {:induction false} CollapseChars(s: string)
    ensures forall c :: c in Collapse(s) ==> c == ' ' || c in s
    decreases |s|
  {
    if s != [] {
      var rest := if IsSpace(s[0]) then DropLeadingSpaces(s[1..]) else s[1..];
      CollapseChars(rest);
      assert forall c :: c in rest ==> c in s;
    }
  }

  /** Dropping short words keeps every character or writes a space. */
  lemma {:induction false} DropShortWordsChars(s: string)
    ensures forall c :: c in DropShortWords(s) ==> c == ' ' || c in s
    decreases |s|
  {
    if s != [] {
      var n := if IsWordChar(s[0]) then WordPrefix(s) else 1;
      DropShortWordsChars(s[n..]);
      assert forall c :: c in s[n..] ==> c in s;
      assert forall c :: c in s[..n] ==> c in s;
    }
  }

  /** A slice of printable, single-spaced text is printable and single-spaced. */
  lemma SliceKeepsShape(s: string, i: nat, j: nat)
    requires i <= j <= |s|
    ensures Printable(s) ==> Printable(s[i..j])
    ensures SingleSpaced(s) ==> SingleSpaced(s[i..j])
  {
    assert forall k :: 0 <= k < j - i ==> s[i..j][k] == s[i + k];
  }

  /** `str.strip()` keeps text printable and single-spaced. */
  lemma {:induction false} StripKeepsShape(s: string)
    ensures Printable(s) ==> Printable(Strip(s))
    ensures SingleSpaced(s) ==> SingleSpaced(Strip(s))
    decreases |s|
  {
    if s != [] && IsSpace(s[0]) {
      SliceKeepsShape(s, 1, |s|);
      StripKeepsShape(s[1..]);
    } else if s != [] && IsSpace(s[|s| - 1]) {
      SliceKeepsShape(s, 0, |s| - 1);
      StripKeepsShape(s[..|s| - 1]);
    }
  }

  /** A rewrite that only keeps characters or inserts spaces keeps text printable. */
  lemma PrintableKept(s: string, r: string)
    requires Printable(s)
    requires forall c :: c in r ==> c == ' ' || c in s
    ensures Printable(r)
  {
    forall i | 0 <= i < |r|
      ensures IsPrintable(r[i])
    {
      assert r[i] in r;
    }
  }

  /** A block of word characters followed by a non-word character (or nothing). */
  lemma {:induction false} LongRunsWordBlock(w: string, u: string, seen: nat)
    requires forall i :: 0 <= i < |w| ==> IsWordChar(w[i])
    requires u == [] || !IsWordChar(u[0])
    ensures LongRuns(w + u, seen) <==> (seen + |w| == 0 || seen + |w| >= 3) && LongRuns(u, 0)
    decreases |w|
  {
    if w == [] {
      assert w + u == u;
    } else {
      assert (w + u)[0] == w[0];
      assert (w + u)[1..] == w[1..] + u;
      LongRunsWordBlock(w[1..], u, seen + 1);
    }
  }

  /** Dropping leading non-word characters keeps every word run intact. */
  lemma {:induction false} DropNonWordPrefixKeepsLongRuns(s: string, n: nat)
    requires n <= |s| && forall i :: 0 <= i < n ==> !IsWordChar(s[i])
    requires LongRuns(s, 0)
    ensures LongRuns(s[n..], 0)
    decreases n
  {
    if n > 0 {
      assert s[1..][n - 1..] == s[n..];
      DropNonWordPrefixKeepsLongRuns(s[1..], n - 1);
    }
  }

  /** Removing a final non-word character keeps every word run long enough. */
  lemma {:induction false} LongRunsDropLast(s: string, c: char, seen: nat)
    requires !IsWordChar(c)
    requires LongRuns(s + [c], seen)
    ensures LongRuns(s, seen)
    decreases |s|
  {
    if s != [] {
      assert (s + [c])[0] == s[0];
      assert (s + [c])[1..] == s[1..] + [c];
      if IsWordChar(s[0]) {
        LongRunsDropLast(s[1..], c, seen + 1);
      } else {
        LongRunsDropLast(s[1..], c, 0);
      }
    }
  }

  /** `str.strip()` keeps a text free of short words. */
  lemma {:induction false} StripKeepsNoShortWords(s: string)
    requires NoShortWords(s)
    ensures NoShortWords(Strip(s))
    decreases |s|
  {
    if s != [] && IsSpace(s[0]) {
      StripKeepsNoShortWords(s[1..]);
    } else if s != [] && IsSpace(s[|s| - 1]) {
      assert s == s[..|s| - 1] + [s[|s| - 1]];
      LongRunsDropLast(s[..|s| - 1], s[|s| - 1], 0);
      StripKeepsNoShortWords(s[..|s| - 1]);
    }
  }

  /** Collapsing whitespace never joins or splits word runs. */
  lemma {:induction false} CollapseKeepsLongRuns(s: string, seen: nat)
    requires LongRuns(s, seen)
    ensures LongRuns(Collapse(s), seen)
    decreases |s|
  {
    if s != [] {
      if IsSpace(s[0]) {
        var rest := DropLeadingSpaces(s[1..]);
        DropNonWordPrefixKeepsLongRuns(s[1..], LeadingSpaces(s[1..]));
        CollapseKeepsLongRuns(rest, 0);
        assert (" " + Collapse(rest))[1..] == Collapse(rest);
      } else if IsWordChar(s[0]) {
        CollapseKeepsLongRuns(s[1..], seen + 1);
        assert ([s[0]] + Collapse(s[1..]))[1..] == Collapse(s[1..]);
      } else {
        CollapseKeepsLongRuns(s[1..], 0);
        assert ([s[0]] + Collapse(s[1..]))[1..] == Collapse(s[1..]);
      }
    }
  }

  /** Step 3 leaves no word run shorter than three characters. */
  lemma {:induction false} DropShortWordsHasNoShortWords(s: string)
    ensures NoShortWords(DropShortWords(s))
    decreases |s|
  {
    if s == [] {
    } else if !IsWordChar(s[0]) {
      DropShortWordsHasNoShortWords(s[1..]);
      assert ([s[0]] + DropShortWords(s[1..]))[1..] == DropShortWords(s[1..]);
    } else {
      var n := WordPrefix(s);
      var rest := DropShortWords(s[n..]);
      DropShortWordsHasNoShortWords(s[n..]);
      if n <= 2 {
        assert (" " + rest)[1..] == rest;
      } else {
        LongRunsWordBlock(s[..n], rest, 0);
      }
    }
  }

  /** Step 3 changes nothing in a text that has no short words. */
  lemma {:induction false} DropShortWordsFixes(s: string)
    requires NoShortWords(s)
    ensures DropShortWords(s) == s
    decreases |s|
  {
    if s == [] {
    } else if !IsWordChar(s[0]) {
      DropShortWordsFixes(s[1..]);
    } else {
      var n := WordPrefix(s);
      assert s == s[..n] + s[n..];
      LongRunsWordBlock(s[..n], s[n..], 0);
      DropShortWordsFixes(s[n..]);
    }
  }

  /** Collapsing changes nothing in a single-spaced text. */
  lemma {:induction false} CollapseFixes(s: string)
    requires SingleSpaced(s)
    ensures Collapse(s) == s
    decreases |s|
  {
    if s != [] {
      assert SingleSpaced(s[1..]);
      if IsSpace(s[0]) {
        assert s[1..] == [] || !IsSpace(s[1..][0]);
        assert DropLeadingSpaces(s[1..]) == s[1..];
      }
      CollapseFixes(s[1..]);
    }
  }

  /**
   * What `clean_text` returns is printable ASCII, single-spaced, trimmed, and
   * holds no word shorter than three characters.
   */
  lemma CleanTextShape(text: string)
    ensures var r := CleanText(text); Printable(r) && SingleSpaced(r) && Trimmed(r) && NoShortWords(r)
  {
    if text != [] {
      var ascii := ReplaceNonPrintable(Collapse(text));
      var pruned := DropShortWords(ascii);
      DropShortWordsChars(ascii);
      PrintableKept(ascii, pruned);
      CollapseChars(pruned);
      PrintableKept(pruned, Collapse(pruned));
      CollapseSingleSpaced(pruned);
      StripKeepsShape(Collapse(pruned));
      DropShortWordsHasNoShortWords(ascii);
      CollapseKeepsLongRuns(pruned, 0);
      StripKeepsNoShortWords(Collapse(pruned));
    }
  }

  /** Cleaning changes nothing in a text that already has the shape cleaning produces. */
  lemma CleanTextFixes(t: string)
    requires Printable(t) && SingleSpaced(t) && Trimmed(t) && NoShortWords(t)
    ensures CleanText(t) == t
  {
    if t != [] {
      CollapseFixes(t);
      assert ReplaceNonPrintable(t) == t;
      DropShortWordsFixes(t);
    }
  }

  /** `clean_text` is idempotent: cleaning cleaned text changes nothing. */
  lemma CleanTextIdempotent(text: string)
    ensures CleanText(CleanText(text)) == CleanText(text)
  {
    CleanTextShape(text);
    CleanTextFixes(CleanText(text));
  }

  /**
   * The word-run property read position by position: a word character that
   * starts a run of `s` is followed by at least two more word characters.
   */
  lemma {:induction false} NoShortWordsAt(s: string, i: nat)
    requires NoShortWords(s)
    requires i < |s| && IsWordChar(s[i])
    requires i == 0 || !IsWordChar(s[i - 1])
    ensures i + 2 < |s| && IsWordChar(s[i + 1]) && IsWordChar(s[i + 2])
    decreases i
  {
    if i == 0 {
      RunContinues(s[1..], 1);
    } else if IsWordChar(s[0]) {
      var n := WordPrefix(s);
      assert s == s[..n] + s[n..];
      LongRunsWordBlock(s[..n], s[n..], 0);
      assert n <= i;
      NoShortWordsAt(s[n..], i - n);
    } else {
      NoShortWordsAt(s[1..], i - 1);
    }
  }

  /** A run that has `seen` characters, fewer than three, goes on for at least `3 - seen` more. */
  lemma {:induction false} RunContinues(s: string, seen: nat)
    requires 1 <= seen < 3 && LongRuns(s, seen)
    ensures |s| >= 3 - seen
    ensures forall j :: 0 <= j < 3 - seen ==> IsWordChar(s[j])
    decreases |s|
  {
    if seen == 1 {
      RunContinues(s[1..], 2);
    }
  }

  // ---------------------------------------------------------------------------
  // What each rewrite keeps: concatenation laws and the long words
  // ---------------------------------------------------------------------------

  /** No whitespace run crosses the join of `a` and `b`. */
  predicate SpaceSeparated(a: string, b: string) {
    a == [] || b == [] || !IsSpace(a[|a| - 1]) || !IsSpace(b[0])
  }

  /** No word run crosses the join of `a` and `b`. */
  predicate WordSeparated(a: string, b: string) {
    a == [] || b == [] || !IsWordChar(a[|a| - 1]) || !IsWordChar(b[0])
  }

  /**
   * Every character of `s` is Python whitespace. The research page has its own
   * `AllSpaces` over JavaScript's `trim()` set, which is a different set.
   */
  predicate AllSpaces(s: string) {
    forall i :: 0 <= i < |s| ==> IsSpace(s[i])
  }

  /** Every character of `s` is a word character. */
  predicate AllWordChars(s: string) {
    forall i :: 0 <= i < |s| ==> IsWordChar(s[i])
  }

  /** Leading whitespace of `a + b` is that of `a`, unless `a` is all whitespace. */
  lemma {:induction false} LeadingSpacesConcat(a: string, b: string)
    ensures LeadingSpaces(a) < |a| ==> LeadingSpaces(a + b) == LeadingSpaces(a)
    ensures LeadingSpaces(a) == |a| && (b == [] || !IsSpace(b[0])) ==> LeadingSpaces(a + b) == |a|
    decreases |a|
  {
    if a == [] {
      assert a + b == b;
    } else {
      assert (a + b)[0] == a[0] && (a + b)[1..] == a[1..] + b;
      LeadingSpacesConcat(a[1..], b);
    }
  }

  /** The word prefix of `a + b` is that of `a`, unless `a` is all word characters. */
  lemma {:induction false} WordPrefixConcat(a: string, b: string)
    ensures WordPrefix(a) < |a| ==> WordPrefix(a + b) == WordPrefix(a)
    ensures WordPrefix(a) == |a| && (b == [] || !IsWordChar(b[0])) ==> WordPrefix(a + b) == |a|
    decreases |a|
  {
    if a == [] {
      assert a + b == b;
    } else {
      assert (a + b)[0] == a[0] && (a + b)[1..] == a[1..] + b;
      WordPrefixConcat(a[1..], b);
    }
  }

  /** Dropping the leading whitespace of `t + b` drops that of `t`, and all of `t` when `t` is whitespace. */
  lemma DropLeadingSpacesConcat(t: string, b: string)
    ensures LeadingSpaces(t) < |t| ==> DropLeadingSpaces(t + b) == DropLeadingSpaces(t) + b
    ensures LeadingSpaces(t) == |t| && (b == [] || !IsSpace(b[0])) ==> DropLeadingSpaces(t + b) == b
  {
    LeadingSpacesConcat(t, b);
    SliceConcat(t, b, LeadingSpaces(t));
  }

  /** Slicing `x + y` inside `x`. */
  lemma SliceConcat<T>(x: seq<T>, y: seq<T>, n: nat)
    requires n <= |x|
    ensures (x + y)[..n] == x[..n] && (x + y)[n..] == x[n..] + y
  {
  }

  /**
   * Collapsing works piece by piece: where no whitespace run crosses the
   * join, the collapse of `a + b` is the collapse of `a` followed by that of `b`.
   */
  lemma {:induction false} CollapseConcat(a: string, b: string)
    requires SpaceSeparated(a, b)
    ensures Collapse(a + b) == Collapse(a) + Collapse(b)
    decreases |a|, 1
  {
    if a == [] {
      assert a + b == b;
    } else if b == [] {
      assert a + b == a;
    } else if IsSpace(a[0]) {
      CollapseConcatSpace(a, b);
    } else {
      CollapseConcatWord(a, b);
    }
  }

  /** `CollapseConcat` when `a` starts with whitespace. */
  lemma {:induction false} CollapseConcatSpace(a: string, b: string)
    requires SpaceSeparated(a, b) && a != [] && b != [] && IsSpace(a[0])
    ensures Collapse(a + b) == Collapse(a) + Collapse(b)
    decreases |a|, 0
  {
    var t := a[1..];
    var d := DropLeadingSpaces(t);
    ConsConcat(a, b);
    CollapseSpaceHead(a);
    CollapseSpaceHead(a + b);
    DropLeadingSpacesConcat(t, b);
    DropLeadingSpacesSeparated(t, b);
    if LeadingSpaces(t) < |t| {
      CollapseConcat(d, b);
      SeqAssoc(" ", Collapse(d), Collapse(b));
    } else {
      AllSpacesLast(a);
      assert d == [];
    }
  }

  /** Whitespace at the head collapses with the run it starts. */
  lemma CollapseSpaceHead(s: string)
    requires s != [] && IsSpace(s[0])
    ensures Collapse(s) == " " + Collapse(DropLeadingSpaces(s[1..]))
  {
  }

  /** When everything after the first character is leading whitespace, so is the last character. */
  lemma AllSpacesLast(a: string)
    requires a != [] && IsSpace(a[0]) && LeadingSpaces(a[1..]) == |a[1..]|
    ensures IsSpace(a[|a| - 1])
  {
    if |a| > 1 {
      assert a[|a| - 1] == a[1..][|a| - 2];
    }
  }

  /** Dropping leading whitespace keeps the end of the text, so it keeps the separation. */
  lemma DropLeadingSpacesSeparated(t: string, b: string)
    requires SpaceSeparated(t, b)
    ensures SpaceSeparated(DropLeadingSpaces(t), b)
  {
    var d := DropLeadingSpaces(t);
    if d != [] {
      assert d[|d| - 1] == t[|t| - 1];
    }
  }

  /** A character that is not whitespace passes through the collapse. */
  lemma CollapseWordHead(c: char, s: string)
    requires !IsSpace(c)
    ensures Collapse([c] + s) == [c] + Collapse(s)
  {
    assert ([c] + s)[1..] == s;
  }

  /** Splitting off the first character of `a` in `a + b`. */
  lemma ConsConcat(a: string, b: string)
    requires a != []
    ensures a == [a[0]] + a[1..] && a + b == [a[0]] + (a[1..] + b)
    ensures (a + b)[0] == a[0] && (a + b)[1..] == a[1..] + b
    ensures SpaceSeparated(a, b) ==> SpaceSeparated(a[1..], b)
    ensures WordSeparated(a, b) ==> WordSeparated(a[1..], b)
  {
    if |a| > 1 {
      assert a[1..][|a| - 2] == a[|a| - 1];
    }
  }

  /** `CollapseConcat` when `a` starts with a character that is not whitespace. */
  lemma {:induction false} CollapseConcatWord(a: string, b: string)
    requires SpaceSeparated(a, b) && a != [] && !IsSpace(a[0])
    ensures Collapse(a + b) == Collapse(a) + Collapse(b)
    decreases |a|, 0
  {
    var c, t := a[0], a[1..];
    ConsConcat(a, b);
    CollapseConcat(t, b);
    CollapseWordHead(c, t + b);
    CollapseWordHead(c, t);
    SeqAssoc([c], Collapse(t), Collapse(b));
  }

  /** Concatenation is associative. */
  lemma SeqAssoc<T>(x: seq<T>, y: seq<T>, z: seq<T>)
    ensures x + (y + z) == (x + y) + z
  {
  }

  /** A run of whitespace collapses to one space. */
  lemma CollapseSpaceRun(ws: string)
    requires ws != [] && AllSpaces(ws)
    ensures Collapse(ws) == " "
  {
    var t := ws[1..];
    assert AllSpaces(t) by {
      assert forall i :: 0 <= i < |t| ==> t[i] == ws[i + 1];
    }
    assert LeadingSpaces(t) == |t|;
    assert DropLeadingSpaces(t) == [];
  }

  /**
   * Short-word removal works piece by piece: where no word run crosses the
   * join, the result for `a + b` is the result for `a` followed by that for `b`.
   */
  lemma {:induction false} DropShortWordsConcat(a: string, b: string)
    requires WordSeparated(a, b)
    ensures DropShortWords(a + b) == DropShortWords(a) + DropShortWords(b)
    decreases |a|, 1
  {
    if a == [] {
      assert a + b == b;
    } else if b == [] {
      assert a + b == a;
    } else if !IsWordChar(a[0]) {
      var t := a[1..];
      ConsConcat(a, b);
      DropShortWordsNonWordHead(a);
      DropShortWordsNonWordHead(a + b);
      DropShortWordsConcat(t, b);
      SeqAssoc([a[0]], DropShortWords(t), DropShortWords(b));
    } else {
      DropShortWordsConcatWord(a, b);
    }
  }

  /** `DropShortWordsConcat` when `a` starts with a word run. */
  lemma {:induction false} DropShortWordsConcatWord(a: string, b: string)
    requires WordSeparated(a, b) && a != [] && IsWordChar(a[0])
    ensures DropShortWords(a + b) == DropShortWords(a) + DropShortWords(b)
    decreases |a|, 0
  {
    var n := WordPrefix(a);
    WordRunSplit(a, b);
    DropShortWordsWordHead(a);
    DropShortWordsWordHead(a + b);
    DropShortWordsConcat(a[n..], b);
    SeqAssoc(if n <= 2 then " " else a[..n], DropShortWords(a[n..]), DropShortWords(b));
  }

  /** A character that is not a word character passes through short-word removal. */
  lemma DropShortWordsNonWordHead(s: string)
    requires s != [] && !IsWordChar(s[0])
    ensures DropShortWords(s) == [s[0]] + DropShortWords(s[1..])
  {
  }

  /** A leading word run is replaced by one space when short, and kept otherwise. */
  lemma DropShortWordsWordHead(s: string)
    requires s != [] && IsWordChar(s[0])
    ensures DropShortWords(s) == (if WordPrefix(s) <= 2 then " " else s[..WordPrefix(s)]) + DropShortWords(s[WordPrefix(s)..])
  {
  }

  /** The leading word run of `a + b` is that of `a` when no word run crosses the join. */
  lemma WordRunSplit(a: string, b: string)
    requires WordSeparated(a, b) && a != [] && IsWordChar(a[0])
    ensures 0 < WordPrefix(a) && WordPrefix(a + b) == WordPrefix(a)
    ensures (a + b)[0] == a[0]
    ensures (a + b)[..WordPrefix(a)] == a[..WordPrefix(a)]
    ensures (a + b)[WordPrefix(a)..] == a[WordPrefix(a)..] + b
    ensures WordSeparated(a[WordPrefix(a)..], b)
  {
    var n := WordPrefix(a);
    WordPrefixConcat(a, b);
    SliceConcat(a, b, n);
    if n < |a| {
      assert a[n..][|a| - n - 1] == a[|a| - 1];
    }
  }

  /** A maximal word run becomes one space when it is shorter than three characters, and stays otherwise. */
  lemma DropShortWordsRun(w: string)
    requires w != [] && AllWordChars(w)
    ensures DropShortWords(w) == if |w| <= 2 then " " else w
  {
    assert WordPrefix(w) == |w|;
    assert w[..|w|] == w && w[|w|..] == [];
  }

  /** What `str.strip()` removes is whitespace: `s` is whitespace, `Strip(s)`, whitespace. */
  ghost predicate AmidSpaces(s: string, r: string) {
    exists a, b :: AllSpaces(a) && AllSpaces(b) && s == a + r + b
  }

  /** Whitespace followed by whitespace is whitespace. */
  lemma AllSpacesConcat(a: string, b: string)
    requires AllSpaces(a) && AllSpaces(b)
    ensures AllSpaces(a + b)
  {
    assert forall j :: |a| <= j < |a + b| ==> (a + b)[j] == b[j - |a|];
  }

  /** One more whitespace character in front keeps `r` amid whitespace. */
  lemma AmidSpacesFront(s: string, r: string)
    requires s != [] && IsSpace(s[0]) && AmidSpaces(s[1..], r)
    ensures AmidSpaces(s, r)
  {
    var a, b :| AllSpaces(a) && AllSpaces(b) && s[1..] == a + r + b;
    AllSpacesConcat([s[0]], a);
    assert s == ([s[0]] + a) + r + b;
  }

  /** One more whitespace character at the end keeps `r` amid whitespace. */
  lemma AmidSpacesBack(s: string, r: string)
    requires s != [] && IsSpace(s[|s| - 1]) && AmidSpaces(s[..|s| - 1], r)
    ensures AmidSpaces(s, r)
  {
    var a, b :| AllSpaces(a) && AllSpaces(b) && s[..|s| - 1] == a + r + b;
    AllSpacesConcat(b, [s[|s| - 1]]);
    assert s == a + r + (b + [s[|s| - 1]]);
  }

  /** `str.strip()` cuts away only whitespace, and only at the two ends. */
  lemma {:induction false} StripCutsSpaces(s: string)
    ensures AmidSpaces(s, Strip(s))
    decreases |s|
  {
    if s != [] && IsSpace(s[0]) {
      StripCutsSpaces(s[1..]);
      AmidSpacesFront(s, Strip(s));
    } else if s != [] && IsSpace(s[|s| - 1]) {
      StripCutsSpaces(s[..|s| - 1]);
      AmidSpacesBack(s, Strip(s));
    } else {
      var empty: string := [];
      assert AllSpaces(empty) && s == empty + s + empty;
    }
  }

  /** The maximal word runs of at least three characters in `s`, in order. */
  function LongWords(s: string): seq<string>
    decreases |s|
  {
    if s == [] then []
    else if !IsWordChar(s[0]) then LongWords(s[1..])
    else
      var n := WordPrefix(s);
      (if n <= 2 then [] else [s[..n]]) + LongWords(s[n..])
  }

  /** Where no word run crosses the join, the long words of `a + b` are those of `a`, then those of `b`. */
  lemma {:induction false} LongWordsConcat(a: string, b: string)
    requires WordSeparated(a, b)
    ensures LongWords(a + b) == LongWords(a) + LongWords(b)
    decreases |a|
  {
    if a == [] {
      assert a + b == b;
    } else if b == [] {
      assert a + b == a;
    } else if !IsWordChar(a[0]) {
      ConsConcat(a, b);
      LongWordsConcat(a[1..], b);
    } else {
      var n := WordPrefix(a);
      WordRunSplit(a, b);
      LongWordsWordHead(a);
      LongWordsWordHead(a + b);
      LongWordsConcat(a[n..], b);
      SeqAssoc(if n <= 2 then [] else [a[..n]], LongWords(a[n..]), LongWords(b));
    }
  }

  /** A leading word run is listed when it has three characters or more. */
  lemma LongWordsWordHead(s: string)
    requires s != [] && IsWordChar(s[0])
    ensures LongWords(s) == (if WordPrefix(s) <= 2 then [] else [s[..WordPrefix(s)]]) + LongWords(s[WordPrefix(s)..])
  {
  }

  /** A maximal word run is one long word when it has at least three characters, and none otherwise. */
  lemma LongWordsRun(w: string)
    requires w != [] && AllWordChars(w)
    ensures LongWords(w) == if |w| <= 2 then [] else [w]
  {
    assert WordPrefix(w) == |w|;
    assert w[..|w|] == w && w[|w|..] == [];
  }

  /** Non-word characters in front of `s` add no long word. */
  lemma {:induction false} LongWordsAfterNonWords(p: string, s: string)
    requires forall i :: 0 <= i < |p| ==> !IsWordChar(p[i])
    ensures LongWords(p + s) == LongWords(s)
    decreases |p|
  {
    if p != [] {
      assert (p + s)[0] == p[0] && (p + s)[1..] == p[1..] + s;
      LongWordsAfterNonWords(p[1..], s);
    } else {
      assert p + s == s;
    }
  }

  /** Collapsing whitespace keeps the long words, in order. */
  lemma {:induction false} CollapseKeepsLongWords(s: string)
    ensures LongWords(Collapse(s)) == LongWords(s)
    decreases |s|, 1
  {
    if s == [] {
    } else if IsSpace(s[0]) {
      CollapseKeepsLongWordsSpace(s);
    } else if !IsWordChar(s[0]) {
      CollapseWordHead(s[0], s[1..]);
      ConsConcat(s, []);
      CollapseKeepsLongWords(s[1..]);
      LongWordsAfterNonWords([s[0]], Collapse(s[1..]));
      LongWordsAfterNonWords([s[0]], s[1..]);
    } else {
      CollapseKeepsLongWordsWord(s);
    }
  }

  /** `CollapseKeepsLongWords` when `s` starts with whitespace. */
  lemma {:induction false} CollapseKeepsLongWordsSpace(s: string)
    requires s != [] && IsSpace(s[0])
    ensures LongWords(Collapse(s)) == LongWords(s)
    decreases |s|, 0
  {
    var d := DropLeadingSpaces(s[1..]);
    CollapseSpaceHead(s);
    CollapseKeepsLongWords(d);
    LongWordsAfterNonWords(" ", Collapse(d));
    LongWordsSkipSpaces(s);
  }

  /** A leading whitespace run holds no long word. */
  lemma LongWordsSkipSpaces(s: string)
    requires s != [] && IsSpace(s[0])
    ensures LongWords(s) == LongWords(DropLeadingSpaces(s[1..]))
  {
    var t := s[1..];
    var n := LeadingSpaces(t);
    assert t[n..] == s[n + 1..];
    forall i | 0 <= i < n + 1
      ensures IsSpace(s[i])
    {
      if i > 0 {
        assert s[i] == t[i - 1];
      }
    }
    LongWordsDropNonWords(s, n + 1);
  }

  /** Characters that are not word characters at the front hold no long word. */
  lemma {:induction false} LongWordsDropNonWords(s: string, k: nat)
    requires k <= |s|
    requires forall i :: 0 <= i < k ==> !IsWordChar(s[i])
    ensures LongWords(s) == LongWords(s[k..])
    decreases k
  {
    if k == 0 {
      assert s[k..] == s;
    } else {
      assert s[1..][k - 1..] == s[k..];
      LongWordsDropNonWords(s[1..], k - 1);
    }
  }

  /** `CollapseKeepsLongWords` when `s` starts with a word run. */
  lemma {:induction false} CollapseKeepsLongWordsWord(s: string)
    requires s != [] && IsWordChar(s[0])
    ensures LongWords(Collapse(s)) == LongWords(s)
    decreases |s|, 0
  {
    var n := WordPrefix(s);
    var w, rest := s[..n], s[n..];
    assert s == w + rest;
    assert SingleSpaced(w);
    CollapseFixes(w);
    CollapseConcat(w, rest);
    CollapseKeepsLongWords(rest);
    LongWordsConcat(w, rest);
    LongWordsConcat(w, Collapse(rest));
  }

  /** Replacing non-printable characters keeps the long words, in order. */
  lemma {:induction false} ReplaceNonPrintableKeepsLongWords(s: string)
    ensures LongWords(ReplaceNonPrintable(s)) == LongWords(s)
    decreases |s|, 1
  {
    if s == [] {
    } else if !IsWordChar(s[0]) {
      var r := ReplaceNonPrintable(s);
      assert r == [r[0]] + ReplaceNonPrintable(s[1..]);
      ReplaceNonPrintableKeepsLongWords(s[1..]);
      LongWordsAfterNonWords([r[0]], ReplaceNonPrintable(s[1..]));
      LongWordsDropNonWords(s, 1);
    } else {
      ReplaceNonPrintableKeepsLongWordsWord(s);
    }
  }

  /** `ReplaceNonPrintableKeepsLongWords` when `s` starts with a word run. */
  lemma {:induction false} ReplaceNonPrintableKeepsLongWordsWord(s: string)
    requires s != [] && IsWordChar(s[0])
    ensures LongWords(ReplaceNonPrintable(s)) == LongWords(s)
    decreases |s|, 0
  {
    var n := WordPrefix(s);
    var w, rest := s[..n], s[n..];
    assert s == w + rest;
    ReplaceNonPrintableConcat(w, rest);
    assert ReplaceNonPrintable(w) == w;
    ReplaceNonPrintableKeepsLongWords(rest);
    LongWordsConcat(w, rest);
    LongWordsConcat(w, ReplaceNonPrintable(rest));
  }

  /** The replacement works character by character, so it distributes over concatenation. */
  lemma {:induction false} ReplaceNonPrintableConcat(a: string, b: string)
    ensures ReplaceNonPrintable(a + b) == ReplaceNonPrintable(a) + ReplaceNonPrintable(b)
    decreases |a|
  {
    if a == [] {
      assert a + b == b;
    } else {
      var h := [if IsPrintable(a[0]) then a[0] else ' '];
      ConsConcat(a, b);
      ReplaceNonPrintableConcat(a[1..], b);
      SeqAssoc(h, ReplaceNonPrintable(a[1..]), ReplaceNonPrintable(b));
    }
  }

  /** Removing short words keeps the long words, in order. */
  lemma {:induction false} DropShortWordsKeepsLongWords(s: string)
    ensures LongWords(DropShortWords(s)) == LongWords(s)
    decreases |s|
  {
    if s == [] {
    } else if !IsWordChar(s[0]) {
      DropShortWordsKeepsLongWords(s[1..]);
      LongWordsAfterNonWords([s[0]], DropShortWords(s[1..]));
    } else {
      var n := WordPrefix(s);
      var rest := DropShortWords(s[n..]);
      DropShortWordsKeepsLongWords(s[n..]);
      if n <= 2 {
        LongWordsAfterNonWords(" ", rest);
      } else {
        LongWordsRun(s[..n]);
        LongWordsConcat(s[..n], rest);
      }
    }
  }

  /** Stripping keeps the long words, in order. */
  lemma {:induction false} StripKeepsLongWords(s: string)
    ensures LongWords(Strip(s)) == LongWords(s)
    decreases |s|
  {
    if s != [] && IsSpace(s[0]) {
      StripKeepsLongWords(s[1..]);
    } else if s != [] && IsSpace(s[|s| - 1]) {
      var t := s[..|s| - 1];
      StripKeepsLongWords(t);
      assert s == t + [s[|s| - 1]];
      LongWordsConcat(t, [s[|s| - 1]]);
    }
  }

  /**
   * `clean_text` keeps every word of three or more characters, in order, and
   * (by `CleanTextShape`) nothing else that is a word.
   */
  lemma CleanTextKeepsLongWords(text: string)
    ensures LongWords(CleanText(text)) == LongWords(text)
  {
    if text != [] {
      var spaced := Collapse(text);
      var ascii := ReplaceNonPrintable(spaced);
      var pruned := DropShortWords(ascii);
      CollapseKeepsLongWords(text);
      ReplaceNonPrintableKeepsLongWords(spaced);
      DropShortWordsKeepsLongWords(ascii);
      CollapseKeepsLongWords(pruned);
      StripKeepsLongWords(Collapse(pruned));
    }
  }

  // ---------------------------------------------------------------------------
  // The batch driver
  // ---------------------------------------------------------------------------

  /** One fetched page: the `"url"` and `"raw_text"` keys, either of which may be missing. */
  datatype RawItem = RawItem(url: Option<string>, rawText: Option<string>)

  /** One cleaned page: `{"url": ..., "clean_text": ...}`. */
  datatype CleanItem = CleanItem(url: string, cleanText: string)

  /** The `KeyError` raised by `item["url"]`, with the position of the offending item. */
  datatype BatchError = MissingUrl(index: nat)

  /** Every item has a url. */
  predicate AllHaveUrl(items: seq<RawItem>) {
    forall i :: 0 <= i < |items| ==> items[i].url.Some?
  }

  /**
   * The records built for items that all have a url, in their order: each
   * item's url beside `clean` of its raw text, a missing or `None` raw text
   * counting as "" (for which `clean_text` returns "" as well). The batch
   * passes `CleanText`; keeping the cleaner a parameter states the shape of
   * the list apart from what cleaning does to each text.
   */
  function Records(items: seq<RawItem>, clean: string -> string): (r: seq<CleanItem>)
    requires AllHaveUrl(items)
    ensures |r| == |items|
  {
    if items == [] then []
    else
      var last := items[|items| - 1];
      Records(items[..|items| - 1], clean) + [CleanItem(last.url.value, clean(last.rawText.GetOr("")))]
  }

  /** A prefix of items that all have a url. */
  lemma AllHaveUrlPrefix(items: seq<RawItem>, k: nat)
    requires AllHaveUrl(items) && k <= |items|
    ensures AllHaveUrl(items[..k])
  {
    assert forall i :: 0 <= i < k ==> items[..k][i] == items[i];
  }

  /** Appending an item with a url appends its record. */
  lemma {:induction false} RecordsSnoc(items: seq<RawItem>, clean: string -> string, k: nat)
    requires k < |items| && AllHaveUrl(items[..k]) && items[k].url.Some?
    ensures AllHaveUrl(items[..k + 1])
    ensures Records(items[..k + 1], clean) ==
      Records(items[..k], clean) + [CleanItem(items[k].url.value, clean(items[k].rawText.GetOr("")))]
  {
    assert forall i :: 0 <= i < k ==> items[..k + 1][i] == items[..k][i];
    assert items[..k + 1][..k] == items[..k];
  }

  /**
   * One record per item, in order: the `i`-th has the url of the `i`-th item
   * and `clean` of its raw text.
   */
  lemma {:induction false} RecordsAt(items: seq<RawItem>, clean: string -> string, i: nat)
    requires AllHaveUrl(items) && i < |items|
    ensures |Records(items, clean)| == |items|
    ensures Records(items, clean)[i] == CleanItem(items[i].url.value, clean(items[i].rawText.GetOr("")))
    decreases |items|
  {
    var n := |items| - 1;
    AllHaveUrlPrefix(items, n);
    if n > 0 {
      RecordsAt(items[..n], clean, if i < n then i else 0);
    }
    if i < n {
      assert items[..n][i] == items[i];
    }
  }

  /**
   * `clean_content_batch`: when every item has a url, the cleaned records of
   * all items; otherwise the `KeyError` of `item["url"]` for the first item
   * without one, which ends the loop.
   */
  method CleanContentBatch(contents: seq<RawItem>) returns (result: Result<seq<CleanItem>, BatchError>)
    ensures result.Success? <==> AllHaveUrl(contents)
    ensures result.Success? ==> result.value == Records(contents, CleanText)
    ensures result.Failure? ==>
      && result.error.index < |contents|
      && contents[result.error.index].url.None?
      && AllHaveUrl(contents[..result.error.index])
  {
    var cleaned: seq<CleanItem> := [];
    for k := 0 to |contents|
      invariant AllHaveUrl(contents[..k])
      invariant cleaned == Records(contents[..k], CleanText)
    {
      var item := contents[k];
      var cleanedText := CleanText(item.rawText.GetOr(""));
      if item.url.None? {
        return Failure(MissingUrl(k));
      }
      RecordsSnoc(contents, CleanText, k);
      cleaned := cleaned + [CleanItem(item.url.value, cleanedText)];
    }
    assert contents[..|contents|] == contents;
    return Success(cleaned);
  }
}
