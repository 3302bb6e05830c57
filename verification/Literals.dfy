/** Which characters of a line a quote stands for. */
module Literals {
  import opened Template

  predicate IsGap(c: char) {
    c == ' ' || c == '\t'
  }

  predicate EndsLiteral(c: char) {
    c == '#' || c == '\r'
  }

  /** Nothing, or blanks and tabs up to the end of the line, a comment or a carriage return. */
  predicate Tailing(s: string) {
    s == "" || EndsLiteral(s[0]) || (IsGap(s[0]) && Tailing(s[1..]))
  }

  /** The line begins with the word, and only what a quote leaves out follows. */
  predicate Spells(line: string, word: string) {
    word <= line && Tailing(line[|word|..])
  }

  predicate Unended(s: string) {
    forall i :: 0 <= i < |s| ==> !EndsLiteral(s[i])
  }

  /** The longest beginning without comment and carriage return, less the blanks and tabs at its end; the first
      character of a line stays even if it is a blank. */
  predicate IsLiteral(line: string, word: string) {
    && Spells(line, word) && Unended(word) && (|word| > 1 ==> !IsGap(word[|word| - 1]))
    && (word == "" && line != "" ==> EndsLiteral(line[0]))
  }

  lemma {:induction false} CutIs(s: string)
    ensures CutLine(s) <= s && Unended(CutLine(s))
    ensures |CutLine(s)| < |s| ==> EndsLiteral(s[|CutLine(s)|])
  {
    if s != "" && !EndsLiteral(s[0]) {
      CutIs(s[1..]);
      assert s == [s[0]] + s[1..];
    }
  }

  lemma {:induction false} TrimIs(s: string)
    ensures var w := TrimEnd(s);
      && w <= s && (forall i :: |w| <= i < |s| ==> IsGap(s[i]))
      && (|w| > 1 ==> !IsGap(w[|w| - 1])) && (w == "" ==> s == "")
    decreases |s|
  {
    if |s| > 1 && IsGap(s[|s| - 1]) {
      TrimIs(s[..|s| - 1]);
    }
  }

  lemma {:induction false} GapThenEnd(gap: string, rest: string)
    requires (forall i :: 0 <= i < |gap| ==> IsGap(gap[i])) && (rest == "" || EndsLiteral(rest[0]))
    ensures Tailing(gap + rest)
    decreases |gap|
  {
    if gap == "" {
      assert gap + rest == rest;
    } else {
      GapThenEnd(gap[1..], rest);
      assert (gap + rest)[1..] == gap[1..] + rest;
    }
  }

  lemma LiteralIs(line: string)
    ensures IsLiteral(line, Literal(line))
  {
    hide CutLine, TrimEnd, Tailing;
    var cut, word := CutLine(line), Literal(line);
    CutIs(line);
    TrimIs(cut);
    CutTails(line, cut, word);
    assert forall i :: 0 <= i < |word| ==> word[i] == cut[i];
  }

  lemma CutTails(line: string, cut: string, word: string)
    requires cut <= line && (|cut| < |line| ==> EndsLiteral(line[|cut|]))
    requires word <= cut && forall i :: |word| <= i < |cut| ==> IsGap(cut[i])
    ensures Tailing(line[|word|..]) && word <= line
  {
    hide Tailing;
    GapThenEnd(cut[|word|..], line[|cut|..]);
    assert line[|word|..] == cut[|word|..] + line[|cut|..];
  }

  /** Behind a word come blanks before a comment or a carriage return. */
  lemma {:induction false} TailingBlanks(s: string, n: nat)
    requires Tailing(s) && n <= |s| && forall i :: 0 <= i < n ==> !EndsLiteral(s[i])
    ensures forall i :: 0 <= i < n ==> IsGap(s[i])
    decreases n
  {
    if n > 0 {
      var t := s[1..];
      TailingBlanks(t, n - 1);
      assert forall i :: 0 < i < n ==> s[i] == t[i - 1];
    }
  }

  lemma NoLongerLiteral(line: string, short: string, long: string)
    requires IsLiteral(line, short) && IsLiteral(line, long)
    ensures |long| <= |short|
  {
    if |short| < |long| {
      var t := line[|short|..];
      assert forall i :: 0 <= i < |long| - |short| ==> t[i] == long[|short| + i];
      TailingBlanks(t, |long| - |short|);
      assert false;
    }
  }

  /** What is written for a quote is the one word the line spells in this way. */
  lemma LiteralIsUnique(line: string, word: string)
    ensures Literal(line) == word <==> IsLiteral(line, word)
  {
    LiteralIs(line);
    if IsLiteral(line, word) {
      NoLongerLiteral(line, word, Literal(line));
      NoLongerLiteral(line, Literal(line), word);
    }
  }

  /** A word, blanks and tabs, and nothing or a comment or a carriage return: the word is written. */
  lemma WordIsWritten(word: string, gap: string, rest: string)
    requires word != "" && !IsGap(word[|word| - 1]) && forall i :: 0 <= i < |word| ==> word[i] != '#' && word[i] != '\r'
    requires forall i :: 0 <= i < |gap| ==> gap[i] == ' ' || gap[i] == '\t'
    requires rest == "" || rest[0] == '#' || rest[0] == '\r'
    ensures Literal(word + gap + rest) == word
  {
    var line := word + gap + rest;
    GapThenEnd(gap, rest);
    assert line[|word|..] == gap + rest;
    LiteralIsUnique(line, word);
  }

  /** Cutting and trimming a literal again changes nothing. */
  lemma LiteralTwice(line: string)
    ensures Literal(Literal(line)) == Literal(line)
  {
    LiteralIs(line);
    LiteralIsUnique(Literal(line), Literal(line));
  }
}
