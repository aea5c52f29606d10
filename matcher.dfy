/**
 * The command pattern the bot looks for in the text of an issue comment:
 * the mention `@algorithms-keeper` (letters in any case), one or more
 * whitespace characters, then a run of word characters that is captured,
 * as written, as the command keyword.  The pattern may start anywhere in
 * the comment and the leftmost match wins, as with a regular-expression
 * search for `@algorithms-keeper\s+(\w+)` compiled case-insensitively.
 */
module CommandMatcher {
  import opened Wrappers

  /** The bot's handle, in lower case. */
  const Handle: string := "algorithms-keeper"

  /** Length of the mention `@` + handle. */
  const MentionLength: nat := 18

  /** The length above is that of `@` followed by the handle. */
  lemma MentionLengthFitsHandle()
    ensures MentionLength == |"@" + Handle|
  {
  }

  /** Whitespace in the ASCII range: tab, line feed, vertical tab, form feed,
      carriage return, the four information separators and space. */
  predicate IsWhitespace(c: char) {
    ('\t' <= c <= '\r') || ('\U{1C}' <= c <= ' ')
  }

  /** Word characters in the ASCII range: letters, digits and underscore. */
  predicate IsWordChar(c: char) {
    ('a' <= c <= 'z') || ('A' <= c <= 'Z') || ('0' <= c <= '9') || c == '_'
  }

  function LowerAscii(c: char): char {
    if 'A' <= c <= 'Z' then (c as int - 'A' as int + 'a' as int) as char else c
  }

  /** `s` spells the lower-case word `lower`, letters compared without regard to case. */
  predicate EqualsIgnoringCase(s: string, lower: string) {
    |s| == |lower| && forall k :: 0 <= k < |s| ==> LowerAscii(s[k]) == lower[k]
  }

  predicate IsMention(s: string) {
    |s| == MentionLength && s[0] == '@' && EqualsIgnoringCase(s[1..], Handle)
  }

  /** The mention appears in `text` starting at index `i`. */
  predicate MentionAt(text: string, i: nat) {
    i + MentionLength <= |text| && IsMention(text[i..i + MentionLength])
  }

  predicate AllOf(s: string, p: char -> bool) {
    forall k :: 0 <= k < |s| ==> p(s[k])
  }

  /** Length of the longest run of characters satisfying `p` that starts at index `j`. */
  function Span(text: string, j: nat, p: char -> bool): (n: nat)
    requires j <= |text|
    ensures j + n <= |text|
    ensures forall m :: j <= m < j + n ==> p(text[m])
    ensures j + n == |text| || !p(text[j + n])
    decreases |text| - j
  {
    if j < |text| && p(text[j]) then 1 + Span(text, j + 1, p) else 0
  }

  /** The keyword captured by a match of the pattern that starts at index `i`, if there is one. */
  function MatchAt(text: string, i: nat): Option<string> {
    if MentionAt(text, i) then
      var j := i + MentionLength;
      var w := Span(text, j, IsWhitespace);
      var n := Span(text, j + w, IsWordChar);
      if w == 0 || n == 0 then None else Some(text[j + w .. j + w + n])
    else
      None
  }

  /** Leftmost match at an index `i` or later. */
  function SearchFrom(text: string, i: nat): (r: Option<string>)
    requires i <= |text|
    ensures r.None? <==> forall p :: i <= p < |text| ==> MatchAt(text, p).None?
    ensures r.Some? ==>
      exists p :: i <= p < |text| && MatchAt(text, p) == r &&
        forall q :: i <= q < p ==> MatchAt(text, q).None?
    decreases |text| - i
  {
    if i == |text| then None
    else if MatchAt(text, i).Some? then MatchAt(text, i)
    else SearchFrom(text, i + 1)
  }

  /** The command keyword of a comment: the capture of the leftmost match, if any. */
  function Match(text: string): Option<string> {
    SearchFrom(text, 0)
  }

  // ---------------------------------------------------------------------------
  // Reference definition of a match, stated by positions in the text

  /** `kw` is a non-empty run of word characters at index `k` of the text
      that is not followed by a further word character. */
  ghost predicate WordRunAt(text: string, k: nat, kw: string) {
    && k + |kw| <= |text|
    && 1 <= |kw| && AllOf(kw, IsWordChar)
    && text[k..k + |kw|] == kw
    && (k + |kw| == |text| || !IsWordChar(text[k + |kw|]))
  }

  /** A match starts at index `i`: the mention, then `w` >= 1 whitespace
      characters, then the keyword `kw` as a whole run of word characters. */
  ghost predicate Occurrence(text: string, i: nat, w: nat, kw: string) {
    var j := i + MentionLength;
    && MentionAt(text, i)
    && 1 <= w && j + w <= |text| && (forall m :: j <= m < j + w ==> IsWhitespace(text[m]))
    && WordRunAt(text, j + w, kw)
  }

  /** `kw` is captured by a match, and no match starts further left. */
  ghost predicate FirstCommand(text: string, kw: string) {
    exists i: nat, w: nat :: Occurrence(text, i, w, kw) &&
      forall i': nat, w': nat, kw': string :: i' < i ==> !Occurrence(text, i', w', kw')
  }

  lemma SpanIsRun(text: string, j: nat, p: char -> bool, n: nat)
    requires j + n <= |text|
    requires forall m :: j <= m < j + n ==> p(text[m])
    requires j + n == |text| || !p(text[j + n])
    ensures Span(text, j, p) == n
  {
  }

  /** A match found by the scanner at index `i` is an occurrence there. */
  lemma MatchAtSound(text: string, i: nat, kw: string)
    requires MatchAt(text, i) == Some(kw)
    ensures Occurrence(text, i, Span(text, i + MentionLength, IsWhitespace), kw)
  {
    var j := i + MentionLength;
    var w := Span(text, j, IsWhitespace);
    var n := Span(text, j + w, IsWordChar);
    assert kw == text[j + w .. j + w + n];
  }

  /** An occurrence at index `i` is what the scanner finds there. */
  lemma MatchAtComplete(text: string, i: nat, w: nat, kw: string)
    requires Occurrence(text, i, w, kw)
    ensures MatchAt(text, i) == Some(kw)
  {
    var j := i + MentionLength;
    var k := j + w;
    assert text[k] == kw[0];
    SpanIsRun(text, j, IsWhitespace, w);
    forall m | k <= m < k + |kw| ensures IsWordChar(text[m]) {
      assert text[m] == kw[m - k];
    }
    SpanIsRun(text, k, IsWordChar, |kw|);
  }

  /** The scanner at one index agrees with the reference definition. */
  lemma MatchAtIsOccurrence(text: string, i: nat, kw: string)
    ensures MatchAt(text, i) == Some(kw) <==> exists w: nat :: Occurrence(text, i, w, kw)
  {
    if MatchAt(text, i) == Some(kw) {
      MatchAtSound(text, i, kw);
    }
    if w: nat :| Occurrence(text, i, w, kw) {
      MatchAtComplete(text, i, w, kw);
    }
  }

  /** No match at all exactly when the reference definition finds no occurrence. */
  lemma {:induction false} NoMatchIffNoOccurrence(text: string)
    ensures Match(text) == None <==> forall i: nat, w: nat, kw: string :: !Occurrence(text, i, w, kw)
  {
    if Match(text) == None {
      forall i: nat, w: nat, kw: string ensures !Occurrence(text, i, w, kw) {
        MatchAtIsOccurrence(text, i, kw);
        if i < |text| {
          assert MatchAt(text, i).None?;
        }
      }
    } else {
      var p :| 0 <= p < |text| && MatchAt(text, p) == Match(text);
      MatchAtIsOccurrence(text, p, Match(text).value);
    }
  }

  /** A match found by the matcher is the leftmost occurrence. */
  lemma {:induction false} MatchIsFirst(text: string, kw: string)
    requires Match(text) == Some(kw)
    ensures FirstCommand(text, kw)
  {
    var p :| 0 <= p < |text| && MatchAt(text, p) == Some(kw) &&
      forall q :: 0 <= q < p ==> MatchAt(text, q).None?;
    MatchAtIsOccurrence(text, p, kw);
    forall i': nat, w': nat, kw': string | i' < p ensures !Occurrence(text, i', w', kw') {
      MatchAtIsOccurrence(text, i', kw');
    }
  }

  /** The leftmost occurrence is what the matcher finds. */
  lemma {:induction false} FirstIsMatch(text: string, kw: string)
    requires FirstCommand(text, kw)
    ensures Match(text) == Some(kw)
  {
    var i: nat, w: nat :| Occurrence(text, i, w, kw) &&
      forall i': nat, w': nat, kw': string :: i' < i ==> !Occurrence(text, i', w', kw');
    MatchAtIsOccurrence(text, i, kw);
    forall q | 0 <= q < i ensures MatchAt(text, q).None? {
      if MatchAt(text, q).Some? {
        MatchAtIsOccurrence(text, q, MatchAt(text, q).value);
      }
    }
    assert MatchAt(text, i) == Some(kw);
    var r := Match(text);
    var p :| 0 <= p < |text| && MatchAt(text, p) == r &&
      forall q :: 0 <= q < p ==> MatchAt(text, q).None?;
    assert p == i;
  }

  /** The matcher returns `kw` exactly when `kw` is the keyword of the leftmost occurrence. */
  lemma MatchIsFirstCommand(text: string, kw: string)
    ensures Match(text) == Some(kw) <==> FirstCommand(text, kw)
  {
    if Match(text) == Some(kw) {
      MatchIsFirst(text, kw);
    }
    if FirstCommand(text, kw) {
      FirstIsMatch(text, kw);
    }
  }

  /** The keyword a match returns is copied from the text, made of word
      characters, preceded by whitespace and never cut short. */
  lemma KeywordShape(text: string, kw: string)
    requires Match(text) == Some(kw)
    ensures exists k: nat :: WordRunAt(text, k, kw) && MentionLength < k && IsWhitespace(text[k - 1])
  {
    var p :| 0 <= p < |text| && MatchAt(text, p) == Some(kw);
    var w := Span(text, p + MentionLength, IsWhitespace);
    MatchAtSound(text, p, kw);
    var k := p + MentionLength + w;
    assert IsWhitespace(text[k - 1]);
  }

  /** A comment of the form noise, mention, whitespace, keyword, rest yields
      the keyword exactly as written, whatever the case of the mention, as
      long as the noise holds no `@` and the rest does not continue the
      keyword.  Later mentions in the rest do not matter. */
  lemma MatchOfMention(pre: string, mention: string, ws: string, kw: string, post: string)
    requires '@' !in pre
    requires IsMention(mention)
    requires 1 <= |ws| && AllOf(ws, IsWhitespace)
    requires 1 <= |kw| && AllOf(kw, IsWordChar)
    requires post == [] || !IsWordChar(post[0])
    ensures Match(pre + mention + ws + kw + post) == Some(kw)
  {
    var text := pre + mention + ws + kw + post;
    var i := |pre|;
    var j := i + MentionLength;
    var k := j + |ws|;
    assert text[i..j] == mention;
    forall m | j <= m < k ensures IsWhitespace(text[m]) {
      assert text[m] == ws[m - j];
    }
    assert text[k..k + |kw|] == kw;
    if post != [] {
      assert text[k + |kw|] == post[0];
    }
    assert Occurrence(text, i, |ws|, kw);
    forall i': nat, w': nat, kw': string | i' < i ensures !Occurrence(text, i', w', kw') {
      assert text[i'] == pre[i'] != '@';
    }
    FirstIsMatch(text, kw);
  }

  /** Without a mention directly followed by whitespace there is no match:
      a misspelt handle, a wrong separator inside the handle, or a keyword
      glued to the handle all leave the comment without a command. */
  lemma MatchNeedsSeparatedMention(text: string)
    requires forall i: nat :: MentionAt(text, i) ==>
      i + MentionLength == |text| || !IsWhitespace(text[i + MentionLength])
    ensures Match(text) == None
  {
    forall i: nat, w: nat, kw: string ensures !Occurrence(text, i, w, kw) {
      if MentionAt(text, i) && 1 <= w && i + MentionLength + w <= |text| {
        assert !IsWhitespace(text[i + MentionLength]);
      }
    }
    NoMatchIffNoOccurrence(text);
  }

  /** Every mention begins with `@`. */
  lemma NoMentionWithoutAt(text: string, i: nat)
    requires i < |text| && text[i] != '@'
    ensures !MentionAt(text, i)
  {
    if i + MentionLength <= |text| {
      assert text[i..i + MentionLength][0] == text[i];
    }
  }

  /** A comment without any `@` holds no command, even if it names the handle. */
  lemma NoMatchWithoutAt(text: string)
    requires '@' !in text
    ensures Match(text) == None
  {
    forall i: nat | i < |text| ensures !MentionAt(text, i) {
      NoMentionWithoutAt(text, i);
    }
    MatchNeedsSeparatedMention(text);
  }
}
