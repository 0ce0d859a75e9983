/**
  The text metrics of the eCFR service: word counting, the HTML-to-text
  normaliser, the content checksum and the complexity score.

  Each regular expression of the service is modelled by the scan a
  JavaScript engine performs for it: `split` on runs of separator
  characters, and global `match` that resumes after the end of each match.
 */
module TextMetrics {
  import opened JsValue

  // ---------------------------------------------------------------------
  // Character classes
  // ---------------------------------------------------------------------

  /** `\s`: the JavaScript white space and line terminators (also what `trim` strips). */
  predicate IsSpace(c: char) {
    || c == ' ' || c == '\t' || c == '\n' || c == '\U{B}' || c == '\U{C}' || c == '\r'
    || c == '\U{A0}' || c == '\U{1680}' || ('\U{2000}' <= c <= '\U{200A}')
    || c == '\U{2028}' || c == '\U{2029}' || c == '\U{202F}' || c == '\U{205F}'
    || c == '\U{3000}' || c == '\U{FEFF}'
  }

  predicate IsNonSpace(c: char) {
    !IsSpace(c)
  }

  /** `\d` */
  predicate IsDigit(c: char) {
    '0' <= c <= '9'
  }

  /** `\w`, the characters that decide where `\b` holds. */
  predicate IsWordChar(c: char) {
    ('a' <= c <= 'z') || ('A' <= c <= 'Z') || IsDigit(c) || c == '_'
  }

  /** `[.!?]`, the sentence terminators. */
  predicate IsSentenceEnd(c: char) {
    c == '.' || c == '!' || c == '?'
  }

  /** The case folding of a case-insensitive regular expression without the `u` flag, on ASCII letters. */
  function LowerAscii(c: char): (r: char)
    ensures ('a' <= r <= 'z') ==> ('a' <= c <= 'z') || ('A' <= c <= 'Z')
  {
    if 'A' <= c <= 'Z' then (c as int + 32) as char else c
  }

  // ---------------------------------------------------------------------
  // Runs of characters and `split`
  // ---------------------------------------------------------------------

  /** What is left of `s` once its leading `p`-characters are removed. */
  function DropWhile(s: string, p: char -> bool): (r: string)
    ensures |r| <= |s| && r == s[|s| - |r|..]
    ensures r == [] || !p(r[0])
    ensures forall i :: 0 <= i < |s| - |r| ==> p(s[i])
  {
    if s != [] && p(s[0]) then DropWhile(s[1..], p) else s
  }

  /**
    The number of maximal runs of `p`-characters that START in `s`; `inRun`
    says that the character just before `s` was a `p`-character, so a run
    at the front of `s` continues it and is not counted again.
   */
  function Runs(s: string, p: char -> bool, inRun: bool): nat
  {
    if s == [] then 0
    else (if p(s[0]) && !inRun then 1 else 0) + Runs(s[1..], p, p(s[0]))
  }

  /** The number of maximal runs of `p`-characters in `s`. */
  function RunCount(s: string, p: char -> bool): nat {
    Runs(s, p, false)
  }

  /** `s.split(/[p]+/)`: the pieces between maximal runs of `p`-characters. */
  function SplitOnRuns(s: string, p: char -> bool): (pieces: seq<string>)
    ensures |pieces| > 0
    ensures pieces[0] == [] <==> (s == [] || p(s[0]))
    decreases |s|
  {
    if s == [] then [[]]
    else if p(s[0]) then [[]] + SplitOnRuns(DropWhile(s[1..], p), p)
    else
      var rest := SplitOnRuns(s[1..], p);
      [[s[0]] + rest[0]] + rest[1..]
  }

  /** `.filter((word) => word.length > 0).length` */
  function NonEmptyCount(pieces: seq<string>): nat
  {
    if pieces == [] then 0
    else (if pieces[0] != [] then 1 else 0) + NonEmptyCount(pieces[1..])
  }

  lemma {:induction false} RunsInRun(s: string, p: char -> bool)
    ensures Runs(s, p, true) == Runs(s, p, false) - (if s != [] && p(s[0]) then 1 else 0)
  {
  }

  /** Leading `p`-characters continue the current run and add none. */
  lemma {:induction false} RunsInRunDrop(s: string, p: char -> bool)
    ensures Runs(s, p, true) == Runs(DropWhile(s, p), p, false)
    decreases |s|
  {
    if s != [] && p(s[0]) {
      RunsInRunDrop(s[1..], p);
    }
  }

  /** Leading characters that are not `q`-characters start no `q`-run. */
  lemma {:induction false} RunsOutsideDrop(s: string, p: char -> bool, q: char -> bool)
    requires forall c :: q(c) == !p(c)
    ensures Runs(s, q, false) == Runs(DropWhile(s, p), q, false)
    decreases |s|
  {
    if s != [] && p(s[0]) {
      RunsOutsideDrop(s[1..], p, q);
    }
  }

  /** `split` returns one more piece than there are separator runs. */
  lemma {:induction false} SplitLength(s: string, p: char -> bool)
    ensures |SplitOnRuns(s, p)| == RunCount(s, p) + 1
    decreases |s|
  {
    if s == [] {
    } else if p(s[0]) {
      var d := DropWhile(s[1..], p);
      SplitLength(d, p);
      RunsInRunDrop(s[1..], p);
    } else {
      SplitLength(s[1..], p);
    }
  }

  lemma NonEmptyCountTail(pieces: seq<string>)
    requires pieces != []
    ensures NonEmptyCount(pieces[1..]) == NonEmptyCount(pieces) - (if pieces[0] != [] then 1 else 0)
  {
  }

  /** The non-empty pieces of a split are exactly the maximal runs of the other characters. */
  lemma {:induction false} SplitNonEmptyPieces(s: string, p: char -> bool, q: char -> bool)
    requires forall c :: q(c) == !p(c)
    ensures NonEmptyCount(SplitOnRuns(s, p)) == RunCount(s, q)
    decreases |s|
  {
    if s == [] {
    } else if p(s[0]) {
      var d := DropWhile(s[1..], p);
      SplitNonEmptyPieces(d, p, q);
      RunsOutsideDrop(s[1..], p, q);
      assert SplitOnRuns(s, p)[1..] == SplitOnRuns(d, p);
    } else {
      var rest := SplitOnRuns(s[1..], p);
      SplitNonEmptyPieces(s[1..], p, q);
      var pieces := SplitOnRuns(s, p);
      assert pieces[1..] == rest[1..];
      NonEmptyCountTail(rest);
      RunsInRun(s[1..], q);
    }
  }

  /** A run count is zero exactly when no character belongs to the class. */
  lemma {:induction false} RunCountZero(s: string, p: char -> bool, inRun: bool)
    ensures Runs(s, p, inRun) == 0 <==> forall i :: 0 <= i < |s| ==> !p(s[i]) || (inRun && forall j :: 0 <= j <= i ==> p(s[j]))
    decreases |s|
  {
    if s != [] {
      RunCountZero(s[1..], p, p(s[0]));
      if Runs(s, p, inRun) == 0 {
        forall i | 0 <= i < |s| && p(s[i])
          ensures inRun && forall j :: 0 <= j <= i ==> p(s[j])
        {
          if i > 0 {
            assert s[1..][i - 1] == s[i];
          }
        }
      } else if p(s[0]) && !inRun {
      } else {
        var k :| 0 <= k < |s[1..]| && !(!p(s[1..][k]) || (p(s[0]) && forall j :: 0 <= j <= k ==> p(s[1..][j])));
        assert s[k + 1] == s[1..][k];
        if p(s[0]) {
          var j :| 0 <= j <= k && !p(s[1..][j]);
          assert s[j + 1] == s[1..][j];
        }
        assert !(!p(s[k + 1]) || (inRun && forall j :: 0 <= j <= k + 1 ==> p(s[j])));
      }
    }
  }

  lemma NoRunsWithoutMembers(s: string, p: char -> bool)
    ensures RunCount(s, p) == 0 <==> forall i :: 0 <= i < |s| ==> !p(s[i])
  {
    RunCountZero(s, p, false);
  }

  // ---------------------------------------------------------------------
  // countWords
  // ---------------------------------------------------------------------

  /** `countWords`: the non-empty pieces of `text.split(/\s+/)`; empty text has none. */
  function CountWords(text: string): (n: nat)
    ensures n == RunCount(text, IsNonSpace)
  {
    if text == [] then 0
    else
      SplitNonEmptyPieces(text, IsSpace, IsNonSpace);
      NonEmptyCount(SplitOnRuns(text, IsSpace))
  }

  /** Text has no words exactly when every character of it is white space. */
  lemma NoWordsIffAllSpace(text: string)
    ensures CountWords(text) == 0 <==> forall i :: 0 <= i < |text| ==> IsSpace(text[i])
  {
    NoRunsWithoutMembers(text, IsNonSpace);
  }

  /** Inside a run, a word adds no run: the count resumes after it. */
  lemma {:induction false} WordInRun(x: string, rest: string)
    requires forall i :: 0 <= i < |x| ==> !IsSpace(x[i])
    ensures Runs(x + rest, IsNonSpace, true) == Runs(rest, IsNonSpace, true)
    decreases |x|
  {
    if x != [] {
      var s := x + rest;
      assert s[0] == x[0] && IsNonSpace(s[0]);
      assert s[1..] == x[1..] + rest;
      WordInRun(x[1..], rest);
    } else {
      assert x + rest == rest;
    }
  }

  /** A word followed by a space adds exactly one run. */
  lemma WordThenSpaceRuns(w: string, rest: string)
    requires w != [] && forall i :: 0 <= i < |w| ==> !IsSpace(w[i])
    ensures Runs(w + (" " + rest), IsNonSpace, false) == 1 + Runs(rest, IsNonSpace, false)
  {
    var t := " " + rest;
    var s := w + t;
    assert s[0] == w[0] && IsNonSpace(s[0]);
    assert s[1..] == w[1..] + t;
    WordInRun(w[1..], t);
    assert t[0] == ' ' && !IsNonSpace(t[0]);
    assert t[1..] == rest;
  }

  /** A word on its own is one run. */
  lemma OneWordRun(w: string)
    requires w != [] && forall i :: 0 <= i < |w| ==> !IsSpace(w[i])
    ensures Runs(w, IsNonSpace, false) == 1
  {
    assert IsNonSpace(w[0]);
    WordInRun(w[1..], []);
    assert w[1..] + [] == w[1..];
  }

  /** The last four words of the sample sentence. */
  lemma SampleSentenceLastFour()
    ensures Runs("60" + (" " + ("for" + (" " + ("seven" + (" " + "years."))))), IsNonSpace, false) == 4
  {
    OneWordRun("years.");
    WordThenSpaceRuns("seven", "years.");
    WordThenSpaceRuns("for", "seven" + (" " + "years."));
    WordThenSpaceRuns("60", "for" + (" " + ("seven" + (" " + "years."))));
  }

  /** The last eight words of the sample sentence. */
  lemma SampleSentenceLastEight()
    ensures Runs("pursuant" + (" " + ("to" + (" " + ("40" + (" " + ("CFR" + (" " + ("60" + (" " + ("for" + (" " + ("seven" + (" " + "years."))))))))))))), IsNonSpace, false) == 8
  {
    SampleSentenceLastFour();
    WordThenSpaceRuns("CFR", "60" + (" " + ("for" + (" " + ("seven" + (" " + "years."))))));
    WordThenSpaceRuns("40", "CFR" + (" " + ("60" + (" " + ("for" + (" " + ("seven" + (" " + "years."))))))));
    WordThenSpaceRuns("to", "40" + (" " + ("CFR" + (" " + ("60" + (" " + ("for" + (" " + ("seven" + (" " + "years."))))))))));
    WordThenSpaceRuns("pursuant", "to" + (" " + ("40" + (" " + ("CFR" + (" " + ("60" + (" " + ("for" + (" " + ("seven" + (" " + "years."))))))))))));
  }

  /**
    The sentence "Entities shall maintain records pursuant to 40 CFR 60 for
    seven years." has 12 space-separated pieces, so `countWords` gives 12.
    The sentence is written as its words joined by spaces.
   */
  lemma SampleSentenceWordCount()
    ensures CountWords("Entities" + (" " + ("shall" + (" " + ("maintain" + (" " + ("records" + (" " + ("pursuant" + (" " + ("to" + (" " + ("40" + (" " + ("CFR" + (" " + ("60" + (" " + ("for" + (" " + ("seven" + (" " + "years.")))))))))))))))))))))) == 12
  {
    SampleSentenceLastEight();
    WordThenSpaceRuns("records", "pursuant" + (" " + ("to" + (" " + ("40" + (" " + ("CFR" + (" " + ("60" + (" " + ("for" + (" " + ("seven" + (" " + "years."))))))))))))));
    WordThenSpaceRuns("maintain", "records" + (" " + ("pursuant" + (" " + ("to" + (" " + ("40" + (" " + ("CFR" + (" " + ("60" + (" " + ("for" + (" " + ("seven" + (" " + "years."))))))))))))))));
    WordThenSpaceRuns("shall", "maintain" + (" " + ("records" + (" " + ("pursuant" + (" " + ("to" + (" " + ("40" + (" " + ("CFR" + (" " + ("60" + (" " + ("for" + (" " + ("seven" + (" " + "years."))))))))))))))))));
    WordThenSpaceRuns("Entities", "shall" + (" " + ("maintain" + (" " + ("records" + (" " + ("pursuant" + (" " + ("to" + (" " + ("40" + (" " + ("CFR" + (" " + ("60" + (" " + ("for" + (" " + ("seven" + (" " + "years."))))))))))))))))))));
  }

  // ---------------------------------------------------------------------
  // extractTextContent
  // ---------------------------------------------------------------------

  function IndexOf(s: string, c: char): (k: nat)
    requires c in s
    ensures k < |s| && s[k] == c && c !in s[..k]
  {
    if s[0] == c then 0 else assert s == [s[0]] + s[1..]; 1 + IndexOf(s[1..], c)
  }

  /** `.replace(/<[^>]*>/g, " ")`: each '<' that has a later '>' starts a tag ending at the first such '>'. */
  function StripTags(s: string): (r: string)
    decreases |s|
  {
    if s == [] then []
    else if s[0] == '<' && '>' in s[1..] then " " + StripTags(s[1..][IndexOf(s[1..], '>') + 1..])
    else [s[0]] + StripTags(s[1..])
  }

  /** No tag is left after StripTags: no '<' is followed, anywhere later, by a '>'. */
  predicate TagFree(s: string) {
    forall i, j :: 0 <= i < j < |s| && s[i] == '<' ==> s[j] != '>'
  }

  lemma {:induction false} StripTagsKeepsNoCloser(s: string)
    requires '>' !in s
    ensures StripTags(s) == s
    decreases |s|
  {
    if s != [] {
      StripTagsKeepsNoCloser(s[1..]);
    }
  }

  lemma {:induction false} StripTagsRemovesTags(s: string)
    ensures TagFree(StripTags(s))
    decreases |s|
  {
    if s == [] {
    } else if s[0] == '<' && '>' in s[1..] {
      StripTagsRemovesTags(s[1..][IndexOf(s[1..], '>') + 1..]);
    } else {
      StripTagsRemovesTags(s[1..]);
      if s[0] == '<' {
        StripTagsKeepsNoCloser(s[1..]);
      }
    }
  }

  /** `.replace(/pat/g, rep)` for a literal pattern: leftmost, non-overlapping occurrences. */
  function ReplaceAll(s: string, pat: string, rep: string): string
    requires |pat| > 0
    decreases |s|
  {
    if |s| < |pat| then s
    else if s[..|pat|] == pat then rep + ReplaceAll(s[|pat|..], pat, rep)
    else [s[0]] + ReplaceAll(s[1..], pat, rep)
  }

  /** Decoding the four entities, in the order the service applies them. */
  function DecodeEntities(s: string): string {
    var noNbsp := ReplaceAll(s, "&nbsp;", " ");
    var noLt := ReplaceAll(noNbsp, "&lt;", "<");
    var noGt := ReplaceAll(noLt, "&gt;", ">");
    ReplaceAll(noGt, "&amp;", "&")
  }

  /** `.replace(/\s+/g, " ")` */
  function CollapseSpaces(s: string): string
    decreases |s|
  {
    if s == [] then []
    else if IsSpace(s[0]) then " " + CollapseSpaces(DropWhile(s[1..], IsSpace))
    else [s[0]] + CollapseSpaces(s[1..])
  }

  /** `.trim()` */
  /** `r` is `s[a..b]`, and everything of `s` outside that slice is white space. */
  predicate SpaceAround(s: string, r: string, a: nat, b: nat) {
    && a <= b <= |s| && r == s[a..b]
    && (forall i :: 0 <= i < a ==> IsSpace(s[i]))
    && (forall i :: b <= i < |s| ==> IsSpace(s[i]))
  }

  function Trim(s: string): (r: string)
    ensures exists a, b :: SpaceAround(s, r, a, b)
    ensures r == [] || (!IsSpace(r[0]) && !IsSpace(r[|r| - 1]))
  {
    var front := DropWhile(s, IsSpace);
    var r := TrimEnd(front);
    PrefixEnds(front, r);
    SpaceAroundSlice(s, front, r);
    r
  }

  /** A prefix of a text that starts with no white space, ending with no white space, has none at either end. */
  lemma PrefixEnds(front: string, r: string)
    requires front == [] || !IsSpace(front[0])
    requires |r| <= |front| && r == front[..|r|]
    requires r == [] || !IsSpace(r[|r| - 1])
    ensures r == [] || (!IsSpace(r[0]) && !IsSpace(r[|r| - 1]))
  {
    if r != [] {
      assert r[0] == front[0];
    }
  }

  /**
    Cutting white space off the front of `s`, giving `front`, and then off the
    back of `front`, giving `r`, leaves a slice of `s` with only white space around it.
   */
  lemma SpaceAroundSlice(s: string, front: string, r: string)
    requires |front| <= |s| && front == s[|s| - |front|..]
    requires forall i :: 0 <= i < |s| - |front| ==> IsSpace(s[i])
    requires |r| <= |front| && r == front[..|r|]
    requires forall i :: |r| <= i < |front| ==> IsSpace(front[i])
    ensures SpaceAround(s, r, |s| - |front|, |s| - |front| + |r|)
  {
    var a := |s| - |front|;
    assert r == s[a..a + |r|];
    forall i | a + |r| <= i < |s|
      ensures IsSpace(s[i])
    {
      assert s[i] == front[i - a];
    }
  }

  /** `trimEnd`: `s` without its trailing white space. */
  function TrimEnd(s: string): (r: string)
    ensures |r| <= |s| && r == s[..|r|]
    ensures forall i :: |r| <= i < |s| ==> IsSpace(s[i])
    ensures r == [] || !IsSpace(r[|r| - 1])
    ensures s == [] || !IsSpace(s[0]) ==> (r == [] <==> s == [])
  {
    if s != [] && IsSpace(s[|s| - 1]) then TrimEnd(s[..|s| - 1]) else s
  }

  /** Every white space is a plain ' ' and no two white spaces are adjacent. */
  predicate SingleSpaced(s: string) {
    && (forall i :: 0 <= i < |s| && IsSpace(s[i]) ==> s[i] == ' ')
    && (forall i :: 0 <= i < |s| - 1 ==> !(IsSpace(s[i]) && IsSpace(s[i + 1])))
  }

  /** The shape of what extractTextContent returns. */
  predicate IsNormalized(t: string) {
    && (t == [] || (!IsSpace(t[0]) && !IsSpace(t[|t| - 1])))
    && SingleSpaced(t)
  }

  lemma {:induction false} CollapseSpacesFront(s: string)
    requires s != [] && !IsSpace(s[0])
    ensures CollapseSpaces(s) != [] && CollapseSpaces(s)[0] == s[0]
  {
  }

  /** Putting `c` in front keeps a text single-spaced when `c` is a plain ' ' before a non-space, or not a space. */
  lemma ConsSingleSpaced(c: char, t: string)
    requires SingleSpaced(t)
    requires IsSpace(c) ==> c == ' ' && (t == [] || !IsSpace(t[0]))
    ensures SingleSpaced([c] + t)
  {
    var r := [c] + t;
    forall i | 0 <= i < |r| && IsSpace(r[i])
      ensures r[i] == ' '
    {
      if i > 0 {
        assert r[i] == t[i - 1];
      }
    }
    forall i | 0 <= i < |r| - 1
      ensures !(IsSpace(r[i]) && IsSpace(r[i + 1]))
    {
      if i > 0 {
        assert r[i] == t[i - 1] && r[i + 1] == t[i];
      }
    }
  }

  lemma {:induction false} CollapseSpacesSingleSpaced(s: string)
    ensures SingleSpaced(CollapseSpaces(s))
    decreases |s|
  {
    if s == [] {
    } else if IsSpace(s[0]) {
      var d := DropWhile(s[1..], IsSpace);
      CollapseSpacesSingleSpaced(d);
      if d != [] {
        CollapseSpacesFront(d);
      }
      ConsSingleSpaced(' ', CollapseSpaces(d));
    } else {
      CollapseSpacesSingleSpaced(s[1..]);
      ConsSingleSpaced(s[0], CollapseSpaces(s[1..]));
    }
  }

  lemma SingleSpacedSlice(s: string, a: nat, b: nat)
    requires a <= b <= |s| && SingleSpaced(s)
    ensures SingleSpaced(s[a..b])
  {
    var t := s[a..b];
    forall i | 0 <= i < |t| - 1
      ensures !(IsSpace(t[i]) && IsSpace(t[i + 1]))
    {
      assert t[i] == s[a + i] && t[i + 1] == s[a + i + 1];
    }
  }

  /**
    `extractTextContent`: tags become a space, then the entities `&nbsp;`,
    `&lt;`, `&gt;` and `&amp;` are decoded in that order, then white space
    is collapsed and trimmed. Null, undefined and "" give "".
   */
  function ExtractText(html: Option<string>): (t: string)
    ensures !Truthy(html) ==> t == []
    ensures IsNormalized(t)
  {
    if !Truthy(html) then []
    else
      var collapsed := CollapseSpaces(DecodeEntities(StripTags(html.value)));
      CollapseSpacesSingleSpaced(DecodeEntities(StripTags(html.value)));
      var t := Trim(collapsed);
      var a, b :| SpaceAround(collapsed, t, a, b);
      SingleSpacedSlice(collapsed, a, b);
      t
  }

  /** Collapsing white space keeps the runs of other characters, so it keeps the words. */
  lemma {:induction false} CollapseSpacesKeepsWords(s: string, inRun: bool)
    ensures Runs(CollapseSpaces(s), IsNonSpace, inRun) == Runs(s, IsNonSpace, inRun)
    decreases |s|
  {
    if s == [] {
    } else if IsSpace(s[0]) {
      var d := DropWhile(s[1..], IsSpace);
      CollapseSpacesKeepsWords(d, false);
      RunsOutsideDrop(s[1..], IsSpace, IsNonSpace);
      assert CollapseSpaces(s)[1..] == CollapseSpaces(d);
    } else {
      CollapseSpacesKeepsWords(s[1..], true);
      assert CollapseSpaces(s)[1..] == CollapseSpaces(s[1..]);
    }
  }

  /** A white space at the end starts no run of other characters. */
  lemma {:induction false} TrailingSpaceKeepsWords(s: string, c: char, inRun: bool)
    requires IsSpace(c)
    ensures Runs(s + [c], IsNonSpace, inRun) == Runs(s, IsNonSpace, inRun)
    decreases |s|
  {
    if s != [] {
      TrailingSpaceKeepsWords(s[1..], c, IsNonSpace(s[0]));
      assert (s + [c])[1..] == s[1..] + [c];
    }
  }

  /** Removing trailing white space keeps the words. */
  lemma {:induction false} TrimEndKeepsWords(s: string)
    ensures Runs(TrimEnd(s), IsNonSpace, false) == Runs(s, IsNonSpace, false)
    decreases |s|
  {
    if s != [] && IsSpace(s[|s| - 1]) {
      var init := s[..|s| - 1];
      TrimEndKeepsWords(init);
      TrailingSpaceKeepsWords(init, s[|s| - 1], false);
      assert s == init + [s[|s| - 1]];
    }
  }

  /** `trim()` keeps the words. */
  lemma TrimKeepsWords(s: string)
    ensures CountWords(Trim(s)) == CountWords(s)
  {
    RunsOutsideDrop(s, IsSpace, IsNonSpace);
    TrimEndKeepsWords(DropWhile(s, IsSpace));
  }

  /**
    Normalising white space loses no word: the extracted text has as many
    words as the text left once the tags are replaced and the entities decoded.
   */
  lemma ExtractTextKeepsWords(html: Option<string>)
    requires Truthy(html)
    ensures CountWords(ExtractText(html)) == CountWords(DecodeEntities(StripTags(html.value)))
  {
    var decoded := DecodeEntities(StripTags(html.value));
    CollapseSpacesKeepsWords(decoded, false);
    TrimKeepsWords(CollapseSpaces(decoded));
  }

  /** Normalised text has words exactly when it is non-empty. */
  lemma NormalizedHasWords(t: string)
    requires IsNormalized(t)
    ensures CountWords(t) > 0 <==> t != []
  {
    NoWordsIffAllSpace(t);
  }

  // ---------------------------------------------------------------------
  // generateChecksum
  // ---------------------------------------------------------------------

  /**
    `generateChecksum`: the hex MD5 digest of `content || ""`. The digest
    itself is a library the model cannot see, so it is the parameter `digest`.
   */
  function GenerateChecksum(digest: string -> string, content: Option<string>): (sum: string)
    ensures !Truthy(content) ==> sum == digest([])
    ensures Truthy(content) ==> sum == digest(content.value)
  {
    digest(OrEmpty(content))
  }

  /**
    The checksum depends on the text alone: contents with the same `content || ""`
    get the same checksum, so null, undefined and "" all share the checksum of "".
   */
  lemma ChecksumDependsOnlyOnText(digest: string -> string, a: Option<string>, b: Option<string>)
    ensures OrEmpty(a) == OrEmpty(b) ==> GenerateChecksum(digest, a) == GenerateChecksum(digest, b)
    ensures !Truthy(a) ==> GenerateChecksum(digest, a) == GenerateChecksum(digest, Some([]))
  {
  }

  // ---------------------------------------------------------------------
  // calculateComplexityScore
  // ---------------------------------------------------------------------

  /** `text.split(/[.!?]+/).length - 1`: the number of maximal runs of terminators. */
  function SentenceCount(text: string): (n: nat)
    ensures n == RunCount(text, IsSentenceEnd)
  {
    SplitLength(text, IsSentenceEnd);
    |SplitOnRuns(text, IsSentenceEnd)| - 1
  }

  /** `(text.match(/\d+/g) || []).length`: each match is one maximal run of digits. */
  function NumberCount(text: string): nat {
    RunCount(text, IsDigit)
  }

  /** The alternatives of the signal-word pattern, in the order it tries them. */
  const SignalTerms: seq<string> := ["shall", "must", "required", "pursuant", "thereof", "compliance", "standards"]

  lemma SignalTermsAreWords()
    ensures forall t :: 0 <= t < |SignalTerms| ==> IsLowerWord(SignalTerms[t])
  {
    forall t | 0 <= t < |SignalTerms|
      ensures IsLowerWord(SignalTerms[t])
    {
      var w := SignalTerms[t];
      assert forall k :: 0 <= k < |w| ==> 'a' <= w[k] <= 'z';
    }
  }

  /** `\b` at position `i`: exactly one side of `i` is a word character. */
  predicate WordBoundary(s: string, i: nat)
    requires i <= |s|
  {
    (i > 0 && IsWordChar(s[i - 1])) != (i < |s| && IsWordChar(s[i]))
  }

  /** `s[i..i + |w|]` equals the lower-case word `w` when ASCII letters are compared without case. */
  predicate MatchesIgnoringCase(s: string, i: nat, w: string) {
    i + |w| <= |s| && forall k :: 0 <= k < |w| ==> LowerAscii(s[i + k]) == w[k]
  }

  predicate IsLowerWord(w: string) {
    |w| > 0 && forall k :: 0 <= k < |w| ==> 'a' <= w[k] <= 'z'
  }

  /** The length of the first alternative among `terms` that matches at `i` between two word boundaries. */
  function FirstTermAt(s: string, i: nat, terms: seq<string>): (r: Option<nat>)
    requires i <= |s|
    requires forall t :: 0 <= t < |terms| ==> IsLowerWord(terms[t])
    ensures r.Some? ==> 0 < r.value && i + r.value <= |s|
  {
    if terms == [] then None
    else
      var w := terms[0];
      assert IsLowerWord(w);
      if WordBoundary(s, i) && MatchesIgnoringCase(s, i, w) && WordBoundary(s, i + |w|) then Some(|w|)
      else FirstTermAt(s, i, terms[1..])
  }

  /** A match is one of the alternatives, compared without ASCII case. */
  lemma {:induction false} FirstTermAtMatches(s: string, i: nat, terms: seq<string>)
    requires i <= |s|
    requires forall t :: 0 <= t < |terms| ==> IsLowerWord(terms[t])
    requires FirstTermAt(s, i, terms).Some?
    ensures exists t :: 0 <= t < |terms| && |terms[t]| == FirstTermAt(s, i, terms).value && MatchesIgnoringCase(s, i, terms[t])
    decreases |terms|
  {
    var w := terms[0];
    if !(WordBoundary(s, i) && MatchesIgnoringCase(s, i, w) && WordBoundary(s, i + |w|)) {
      FirstTermAtMatches(s, i, terms[1..]);
      var t :| 0 <= t < |terms[1..]| && |terms[1..][t]| == FirstTermAt(s, i, terms[1..]).value && MatchesIgnoringCase(s, i, terms[1..][t]);
      assert terms[1..][t] == terms[t + 1];
    }
  }

  /** Every alternative is a non-empty lower-case word. */
  predicate LowerWords(terms: seq<string>) {
    forall t :: 0 <= t < |terms| ==> IsLowerWord(terms[t])
  }

  /** The match of `/\b(shall|must|...|standards)\b/i` that starts at `i`, as its length. */
  function TermAt(s: string, i: nat): (r: Option<nat>)
    requires i <= |s|
    ensures r.Some? ==> 0 < r.value && i + r.value <= |s|
    ensures r.Some? ==> exists t :: 0 <= t < |SignalTerms| && |SignalTerms[t]| == r.value && MatchesIgnoringCase(s, i, SignalTerms[t])
  {
    SignalTermsAreWords();
    var r := FirstTermAt(s, i, SignalTerms);
    if r.Some? then FirstTermAtMatches(s, i, SignalTerms); r else r
  }

  /** Global matching of the alternatives `terms` from `i`: after a match the scan resumes at its end. */
  function TermsFrom(s: string, i: nat, terms: seq<string>): nat
    requires i <= |s| && LowerWords(terms)
    decreases |s| - i
  {
    if i == |s| then 0
    else match FirstTermAt(s, i, terms)
      case Some(len) => 1 + TermsFrom(s, i + len, terms)
      case None => TermsFrom(s, i + 1, terms)
  }

  /** The number of signal-word matches in `text`. */
  function TermCount(text: string): nat {
    SignalTermsAreWords();
    TermsFrom(text, 0, SignalTerms)
  }

  /** The number of positions at or after `i` where one of `terms` starts as a whole word. */
  function TermPositionsFrom(s: string, i: nat, terms: seq<string>): nat
    requires i <= |s| && LowerWords(terms)
    decreases |s| - i
  {
    if i == |s| then 0 else (if FirstTermAt(s, i, terms).Some? then 1 else 0) + TermPositionsFrom(s, i + 1, terms)
  }

  /** No alternative starts strictly inside a matched one: there is no word boundary there. */
  lemma NoTermInsideMatch(s: string, i: nat, j: nat, terms: seq<string>)
    requires i <= |s| && LowerWords(terms)
    requires FirstTermAt(s, i, terms).Some? && i < j < i + FirstTermAt(s, i, terms).value
    ensures FirstTermAt(s, j, terms) == None
  {
    FirstTermAtMatches(s, i, terms);
    var t :| 0 <= t < |terms| && |terms[t]| == FirstTermAt(s, i, terms).value && MatchesIgnoringCase(s, i, terms[t]);
    var w := terms[t];
    assert IsLowerWord(w);
    assert LowerAscii(s[i + (j - i - 1)]) == w[j - i - 1];
    assert LowerAscii(s[i + (j - i)]) == w[j - i];
    assert IsWordChar(s[j - 1]) && IsWordChar(s[j]);
    assert !WordBoundary(s, j);
    FirstTermAtNeedsBoundary(s, j, terms);
  }

  lemma {:induction false} FirstTermAtNeedsBoundary(s: string, i: nat, terms: seq<string>)
    requires i <= |s|
    requires forall t :: 0 <= t < |terms| ==> IsLowerWord(terms[t])
    requires !WordBoundary(s, i)
    ensures FirstTermAt(s, i, terms) == None
    decreases |terms|
  {
    if terms != [] {
      FirstTermAtNeedsBoundary(s, i, terms[1..]);
    }
  }

  lemma {:induction false} PositionsSkipInside(s: string, i: nat, k: nat, terms: seq<string>)
    requires i <= |s| && LowerWords(terms)
    requires FirstTermAt(s, i, terms).Some? && i < k <= i + FirstTermAt(s, i, terms).value
    ensures TermPositionsFrom(s, i + 1, terms) == TermPositionsFrom(s, k, terms)
    decreases k - i
  {
    if k > i + 1 {
      PositionsSkipInside(s, i, k - 1, terms);
      NoTermInsideMatch(s, i, k - 1, terms);
      assert TermPositionsFrom(s, k - 1, terms) == TermPositionsFrom(s, k, terms);
    }
  }

  /** Global matching counts every position where one of `terms` occurs as a whole word. */
  lemma {:induction false} TermsFromCountsPositions(s: string, i: nat, terms: seq<string>)
    requires i <= |s| && LowerWords(terms)
    ensures TermsFrom(s, i, terms) == TermPositionsFrom(s, i, terms)
    decreases |s| - i
  {
    if i < |s| {
      match FirstTermAt(s, i, terms)
      case Some(len) =>
        TermsFromCountsPositions(s, i + len, terms);
        PositionsSkipInside(s, i, i + len, terms);
      case None =>
        TermsFromCountsPositions(s, i + 1, terms);
    }
  }

  /** The signal-word count is the number of positions where a signal word starts as a whole word. */
  lemma TermCountCountsPositions(text: string)
    ensures LowerWords(SignalTerms) && TermCount(text) == TermPositionsFrom(text, 0, SignalTerms)
  {
    SignalTermsAreWords();
    TermsFromCountsPositions(text, 0, SignalTerms);
  }

  /** The end of the run of `p`-characters that starts at `i`. */
  function RunEnd(s: string, i: nat, p: char -> bool): (e: nat)
    requires i <= |s|
    ensures i <= e <= |s|
    ensures forall k :: i <= k < e ==> p(s[k])
    ensures e == |s| || !p(s[e])
    decreases |s| - i
  {
    if i < |s| && p(s[i]) then RunEnd(s, i + 1, p) else i
  }

  /** The end of the match of `/\b\d+\s*CFR\s*\d+/i` that starts at `i`, if one does. */
  function ReferenceAt(s: string, i: nat): (r: Option<nat>)
    requires i <= |s|
    ensures r.Some? ==> i < r.value <= |s|
  {
    if i < |s| && IsDigit(s[i]) && WordBoundary(s, i) then
      var k := RunEnd(s, RunEnd(s, i, IsDigit), IsSpace);
      if MatchesIgnoringCase(s, k, "cfr") then
        var m := RunEnd(s, k + 3, IsSpace);
        if m < |s| && IsDigit(s[m]) then Some(RunEnd(s, m, IsDigit)) else None
      else None
    else None
  }

  function ReferencesFrom(s: string, i: nat): nat
    requires i <= |s|
    decreases |s| - i
  {
    if i == |s| then 0
    else match ReferenceAt(s, i)
      case Some(e) => 1 + ReferencesFrom(s, e)
      case None => ReferencesFrom(s, i + 1)
  }

  /** The number of `<number> CFR <number>` cross-references in `text`. */
  function ReferenceCount(text: string): nat {
    ReferencesFrom(text, 0)
  }

  function Min(a: real, b: real): real {
    if a <= b then a else b
  }

  /**
    The weighted score of `calculateComplexityScore` once the counts are
    known: words per sentence (0 without a sentence) weighted 0.3, signal
    words per 100 words weighted 0.4, numbers per 100 words weighted 0.2,
    five points per reference weighted 0.1, capped at 100 and rounded to
    one decimal.
   */
  function ScoreFromCounts(words: nat, sentences: nat, terms: nat, numbers: nat, refs: nat): (r: real)
    requires words > 0
    ensures 0.0 <= r <= 100.0
  {
    var perSentence := if sentences > 0 then words as real / sentences as real else 0.0;
    var termShare := terms as real / words as real;
    var numberShare := numbers as real / words as real;
    var raw := perSentence * 0.3 + termShare * 100.0 * 0.4 + numberShare * 100.0 * 0.2 + refs as real * 5.0 * 0.1;
    assert perSentence >= 0.0 && termShare >= 0.0 && numberShare >= 0.0;
    Round1Within(Min(100.0, raw), 0, 1000);
    Round1(Min(100.0, raw))
  }

  /**
    `calculateComplexityScore`: 0 for empty text; NaN for non-empty text
    without a word (the source divides by a zero word count there);
    otherwise the weighted score of the text's counts.
   */
  function ComplexityScore(text: string): (r: Num)
    ensures r.NaN? <==> text != [] && CountWords(text) == 0
    ensures r.Finite? ==> 0.0 <= r.value <= 100.0
    ensures text == [] ==> r == Finite(0.0)
  {
    if text == [] then Finite(0.0)
    else
      var words := CountWords(text);
      if words == 0 then NaN
      else Finite(ScoreFromCounts(words, SentenceCount(text), TermCount(text), NumberCount(text), ReferenceCount(text)))
  }

  /** With the other counts fixed, more signal words never lower the score. */
  lemma ScoreMonotoneInTerms(words: nat, sentences: nat, terms: nat, moreTerms: nat, numbers: nat, refs: nat)
    requires words > 0 && terms <= moreTerms
    ensures ScoreFromCounts(words, sentences, terms, numbers, refs) <= ScoreFromCounts(words, sentences, moreTerms, numbers, refs)
  {
    var perSentence := if sentences > 0 then words as real / sentences as real else 0.0;
    var rest := perSentence * 0.3 + (numbers as real / words as real) * 100.0 * 0.2 + refs as real * 5.0 * 0.1;
    assert terms as real / words as real <= moreTerms as real / words as real;
    var low := rest + (terms as real / words as real) * 100.0 * 0.4;
    var high := rest + (moreTerms as real / words as real) * 100.0 * 0.4;
    Round1Monotone(Min(100.0, low), Min(100.0, high));
  }

  /** The score of any extracted text is a number, never NaN. */
  lemma ExtractedTextHasScore(html: Option<string>)
    ensures ComplexityScore(ExtractText(html)).Finite?
  {
    NormalizedHasWords(ExtractText(html));
  }

  // ---------------------------------------------------------------------
  // Worked examples of the decoding order
  // ---------------------------------------------------------------------

  lemma {:induction false} ReplaceAllAbsent(s: string, pat: string, rep: string, k: nat)
    requires k < |pat| && pat[k] !in s
    ensures ReplaceAll(s, pat, rep) == s
    decreases |s|
  {
    if |s| >= |pat| {
      assert s[..|pat|][k] == s[k];
      ReplaceAllAbsent(s[1..], pat, rep, k);
    }
  }

  /** No character of `s` is white space. */
  predicate NoSpace(s: string) {
    forall i :: 0 <= i < |s| ==> !IsSpace(s[i])
  }

  lemma {:induction false} CollapseWithoutSpaces(s: string)
    requires NoSpace(s)
    ensures CollapseSpaces(s) == s
    decreases |s|
  {
    if s != [] {
      CollapseWithoutSpaces(s[1..]);
    }
  }

  /** Text without tags or white space at all is only entity-decoded. */
  lemma ExtractPlainText(html: string)
    requires html != [] && '>' !in html
    requires NoSpace(DecodeEntities(html))
    ensures ExtractText(Some(html)) == DecodeEntities(html)
  {
    StripTagsKeepsNoCloser(html);
    CollapseWithoutSpaces(DecodeEntities(html));
  }

  lemma AmpLtNbspStep()
    ensures ReplaceAll("&amp;lt;", "&nbsp;", " ") == "&amp;lt;"
  {
    assert 'n' !in "&amp;lt;";
    ReplaceAllAbsent("&amp;lt;", "&nbsp;", " ", 1);
  }

  /** Past its leading '&', `&amp;lt;` holds neither `&lt;` nor `&gt;`. */
  lemma AmpLtTail(rep: string)
    ensures ReplaceAll("amp;lt;", "&lt;", rep) == "amp;lt;"
    ensures ReplaceAll("amp;lt;", "&gt;", rep) == "amp;lt;"
  {
    assert '&' !in "amp;lt;";
    ReplaceAllAbsent("amp;lt;", "&lt;", rep, 0);
    ReplaceAllAbsent("amp;lt;", "&gt;", rep, 0);
  }

  lemma AmpLtSteps()
    ensures ReplaceAll("&amp;lt;", "&nbsp;", " ") == "&amp;lt;"
    ensures ReplaceAll("&amp;lt;", "&lt;", "<") == "&amp;lt;"
    ensures ReplaceAll("&amp;lt;", "&gt;", ">") == "&amp;lt;"
  {
    AmpLtNbspStep();
    var s := "&amp;lt;";
    assert s[1..] == "amp;lt;" && s[..4] != "&lt;" && s[..4] != "&gt;";
    AmpLtTail("<");
    AmpLtTail(">");
  }

  lemma AmpLtLastStep()
    ensures ReplaceAll("&amp;lt;", "&amp;", "&") == "&lt;"
  {
    var s := "&amp;lt;";
    assert s[..5] == "&amp;" && s[5..] == "lt;";
  }

  lemma DecodeAmpLt()
    ensures DecodeEntities("&amp;lt;") == "&lt;"
  {
    AmpLtSteps();
    AmpLtLastStep();
  }

  lemma AmpLtPlain()
    ensures '>' !in "&amp;lt;" && NoSpace("&lt;")
  {
    var t := "&lt;";
    assert t[0] == '&' && t[1] == 'l' && t[2] == 't' && t[3] == ';';
  }

  /** `&amp;lt;` decodes once, to `&lt;`: `&amp;` is decoded last, so its output is not decoded again. */
  lemma AmpersandDecodedLast()
    ensures ExtractText(Some("&amp;lt;")) == "&lt;"
  {
    DecodeAmpLt();
    AmpLtPlain();
    ExtractPlainText("&amp;lt;");
  }

  lemma EncodedTagFirstSteps()
    ensures ReplaceAll("&lt;b&gt;", "&nbsp;", " ") == "&lt;b&gt;"
  {
    assert 'n' !in "&lt;b&gt;";
    ReplaceAllAbsent("&lt;b&gt;", "&nbsp;", " ", 1);
  }

  lemma EncodedTagSecondStep()
    ensures ReplaceAll("&lt;b&gt;", "&lt;", "<") == "<b&gt;"
  {
    var s := "&lt;b&gt;";
    assert 'l' !in "b&gt;";
    ReplaceAllAbsent("b&gt;", "&lt;", "<", 1);
    assert s[..4] == "&lt;" && s[4..] == "b&gt;";
  }

  lemma EncodedTagLastSteps()
    ensures ReplaceAll("<b&gt;", "&gt;", ">") == "<b>"
    ensures ReplaceAll("<b>", "&amp;", "&") == "<b>"
  {
    var t := "<b&gt;";
    assert t[2..] == "&gt;" && t[..4] != "&gt;" && t[1..][..4] != "&gt;";
    assert ReplaceAll(t[2..], "&gt;", ">") == ">";
    assert ReplaceAll(t[1..], "&gt;", ">") == [t[1]] + ReplaceAll(t[2..], "&gt;", ">");
  }

  lemma DecodeEncodedTag()
    ensures DecodeEntities("&lt;b&gt;") == "<b>"
  {
    EncodedTagFirstSteps();
    EncodedTagSecondStep();
    EncodedTagLastSteps();
  }

  /** Entities are decoded after tags are removed, so an encoded tag survives as text. */
  lemma EncodedTagSurvives()
    ensures ExtractText(Some("&lt;b&gt;")) == "<b>"
  {
    DecodeEncodedTag();
    assert NoSpace("<b>");
    ExtractPlainText("&lt;b&gt;");
  }
}
