/** `normalize_lens_name`: the key under which spelling variants of one lens are
    grouped — lower-cased, every whitespace run collapsed to one space, trimmed. */
module LensName {
  import opened Strings

  /** The characters of `s` other than whitespace, in order. */
  function NonSpace(s: string): string {
    if s == [] then [] else (if IsSpace(s[0]) then [] else [s[0]]) + NonSpace(s[1..])
  }

  /** `re.sub(r'\s+', ' ', s)`: each maximal run of whitespace becomes one space. */
  function CollapseSpaces(s: string): (r: string)
    ensures |r| <= |s|
    ensures (r == []) == (s == [])
    ensures r != [] ==> (IsSpace(r[0]) <==> IsSpace(s[0]))
    decreases |s|
  {
    if s == [] then []
    else if IsSpace(s[0]) then
      [' '] + CollapseSpaces(s[RunEnd(s, 0, Space)..])
    else
      [s[0]] + CollapseSpaces(s[1..])
  }

  /** After collapsing, every character is a space or a non-whitespace character of
      `s`, and no two whitespace characters stand side by side. */
  lemma {:induction false} CollapseSpacesSpec(s: string)
    ensures var r := CollapseSpaces(s);
            && (forall k :: 0 <= k < |r| ==> r[k] == ' ' || (r[k] in s && !IsSpace(r[k])))
            && (forall k :: 0 <= k < |r| - 1 ==> !(IsSpace(r[k]) && IsSpace(r[k + 1])))
    decreases |s|
  {
    if s != [] && IsSpace(s[0]) {
      var rest := s[RunEnd(s, 0, Space)..];
      CollapseSpacesSpec(rest);
      assert forall c :: c in rest ==> c in s;
      var r := CollapseSpaces(s);
      assert r == [' '] + CollapseSpaces(rest);
      assert forall k :: 1 <= k < |r| ==> r[k] == CollapseSpaces(rest)[k - 1];
    } else if s != [] {
      CollapseSpacesSpec(s[1..]);
      assert forall c :: c in s[1..] ==> c in s;
      var r := CollapseSpaces(s);
      assert r == [s[0]] + CollapseSpaces(s[1..]);
      assert forall k :: 1 <= k < |r| ==> r[k] == CollapseSpaces(s[1..])[k - 1];
    }
  }

  /** Collapsing changes whitespace only: the other characters are kept, in order. */
  lemma {:induction false} CollapseKeepsText(s: string)
    ensures NonSpace(CollapseSpaces(s)) == NonSpace(s)
    decreases |s|
  {
    if s != [] {
      if IsSpace(s[0]) {
        var j := RunEnd(s, 0, Space);
        SpacePrefixDropped(s, j);
        CollapseKeepsText(s[j..]);
      } else {
        CollapseKeepsText(s[1..]);
      }
    }
  }

  lemma {:induction false} SpacePrefixDropped(s: string, j: nat)
    requires j <= |s|
    requires forall k :: 0 <= k < j ==> IsSpace(s[k])
    ensures NonSpace(s) == NonSpace(s[j..])
    decreases j
  {
    if j > 0 {
      SpacePrefixDropped(s[1..], j - 1);
      assert s[1..][j - 1..] == s[j..];
    }
  }

  /** A text whose only whitespace is single spaces is left as it is. */
  lemma {:induction false} CollapseFixesCollapsed(s: string)
    requires forall k :: 0 <= k < |s| && IsSpace(s[k]) ==> s[k] == ' '
    requires forall k :: 0 <= k < |s| - 1 ==> !(IsSpace(s[k]) && IsSpace(s[k + 1]))
    ensures CollapseSpaces(s) == s
    decreases |s|
  {
    if s != [] {
      CollapseFixesCollapsed(s[1..]);
      if IsSpace(s[0]) {
        assert RunEnd(s, 0, Space) == 1;
      }
    }
  }

  /** A whitespace run between two stretches of text that do not touch it with
      whitespace of their own becomes exactly one space, however long it is. */
  lemma {:induction false} CollapseRun(a: string, w: string, b: string)
    requires a != [] ==> !IsSpace(a[|a| - 1])
    requires IsGap(w)
    requires b != [] ==> !IsSpace(b[0])
    ensures CollapseSpaces(a + w + b) == CollapseSpaces(a) + [' '] + CollapseSpaces(b)
    decreases |a|, 1
  {
    if a == [] {
      CollapseRunAlone(w, b);
    } else if IsSpace(a[0]) {
      CollapseRunAfterSpace(a, w, b);
    } else {
      CollapseRunAfterWord(a, w, b);
    }
  }

  lemma CollapseRunAlone(w: string, b: string)
    requires IsGap(w)
    requires b != [] ==> !IsSpace(b[0])
    ensures CollapseSpaces([] + w + b) == CollapseSpaces([]) + [' '] + CollapseSpaces(b)
  {
    var s := [] + w + b;
    assert RunEnd(s, 0, Space) == |w| by {
      assert forall k :: 0 <= k < |w| ==> s[k] == w[k];
      RunEndIs(s, 0, |w|, Space);
    }
    assert s[|w|..] == b;
  }

  lemma {:induction false} CollapseRunAfterSpace(a: string, w: string, b: string)
    requires a != [] && IsSpace(a[0])
    requires a != [] ==> !IsSpace(a[|a| - 1])
    requires IsGap(w)
    requires b != [] ==> !IsSpace(b[0])
    ensures CollapseSpaces(a + w + b) == CollapseSpaces(a) + [' '] + CollapseSpaces(b)
    decreases |a|, 0
  {
    var j := RunEnd(a, 0, Space);
    var ca, cb := CollapseSpaces(a[j..]), CollapseSpaces(b);
    LeadingRunOfConcat(a, w, b);
    assert CollapseSpaces(a[j..] + w + b) == ca + [' '] + cb by {
      CollapseRun(a[j..], w, b);
    }
    Regroup([' '], ca, [' '], cb);
  }

  lemma Regroup<T>(x: seq<T>, y: seq<T>, z: seq<T>, u: seq<T>)
    ensures x + (y + z + u) == x + y + z + u
  {
  }

  /** A leading whitespace run that ends inside `a` collapses the same way with or
      without the text after `a`. */
  lemma LeadingRunOfConcat(a: string, w: string, b: string)
    requires a != [] && IsSpace(a[0]) && !IsSpace(a[|a| - 1])
    ensures var j := RunEnd(a, 0, Space);
            && 0 < j < |a|
            && CollapseSpaces(a) == [' '] + CollapseSpaces(a[j..])
            && CollapseSpaces(a + w + b) == [' '] + CollapseSpaces(a[j..] + w + b)
  {
    var s := a + w + b;
    var j := RunEnd(a, 0, Space);
    assert RunEnd(s, 0, Space) == j by {
      assert forall k :: 0 <= k <= j ==> s[k] == a[k];
      RunEndIs(s, 0, j, Space);
    }
    assert s[j..] == a[j..] + w + b;
  }

  lemma {:induction false} CollapseRunAfterWord(a: string, w: string, b: string)
    requires a != [] && !IsSpace(a[0])
    requires a != [] ==> !IsSpace(a[|a| - 1])
    requires IsGap(w)
    requires b != [] ==> !IsSpace(b[0])
    ensures CollapseSpaces(a + w + b) == CollapseSpaces(a) + [' '] + CollapseSpaces(b)
    decreases |a|, 0
  {
    var s := a + w + b;
    var ca, cb := CollapseSpaces(a[1..]), CollapseSpaces(b);
    assert s[0] == a[0] && s[1..] == a[1..] + w + b;
    assert CollapseSpaces(s) == [a[0]] + CollapseSpaces(a[1..] + w + b);
    assert CollapseSpaces(a[1..] + w + b) == ca + [' '] + cb by {
      CollapseRun(a[1..], w, b);
    }
    assert CollapseSpaces(a) == [a[0]] + ca;
    Regroup([a[0]], ca, [' '], cb);
  }

  /** A word: non-empty text without whitespace. */
  predicate IsWord(w: string) {
    w != [] && forall k :: 0 <= k < |w| ==> !IsSpace(w[k])
  }

  /** A gap: a non-empty run of whitespace. */
  predicate IsGap(g: string) {
    g != [] && forall k :: 0 <= k < |g| ==> IsSpace(g[k])
  }

  /** Text made of whitespace only, possibly none. */
  predicate IsBlank(s: string) {
    forall k :: 0 <= k < |s| ==> IsSpace(s[k])
  }

  /** `normalize_lens_name(name)`. */
  function NormalizeLensName(name: string): string {
    if name == [] then [] else Strip(CollapseSpaces(Lower(name)))
  }

  /** A key has no upper-case letter, its only whitespace is single spaces between
      words, and it is empty exactly when the name is blank. */
  lemma NormalizeKeyShape(name: string)
    ensures var key := NormalizeLensName(name);
            && CollapsedLower(key)
            && (key != [] ==> !IsSpace(key[0]) && !IsSpace(key[|key| - 1]))
            && (key == [] <==> forall k :: 0 <= k < |name| ==> IsSpace(name[k]))
  {
    if name != [] {
      BlankSurvivesLowerAndCollapse(name);
      StripKeepsShape(CollapseSpaces(Lower(name)));
      StripSpec(CollapseSpaces(Lower(name)));
    }
  }

  /** The shape `normalize_lens_name` promises: no upper-case letter, and spaces only
      as single separators. */
  predicate CollapsedLower(s: string) {
    && (forall k :: 0 <= k < |s| ==> !IsUpper(s[k]))
    && (forall k :: 0 <= k < |s| && IsSpace(s[k]) ==> s[k] == ' ')
    && (forall k :: 0 <= k < |s| - 1 ==> !(IsSpace(s[k]) && IsSpace(s[k + 1])))
  }

  lemma StripKeepsShape(s: string)
    requires CollapsedLower(s)
    ensures CollapsedLower(Strip(s))
  {
    var r := Strip(s);
    StripSpec(s);
    var o := RunEnd(s, 0, Space);
    assert forall k :: 0 <= k < |r| ==> r[k] == s[o + k];
  }

  lemma CollapseKeepsLower(s: string)
    requires forall k :: 0 <= k < |s| ==> !IsUpper(s[k])
    ensures forall k :: 0 <= k < |CollapseSpaces(s)| ==> !IsUpper(CollapseSpaces(s)[k])
  {
    CollapseSpacesSpec(s);
    forall k | 0 <= k < |CollapseSpaces(s)| ensures !IsUpper(CollapseSpaces(s)[k]) {
      if CollapseSpaces(s)[k] != ' ' {
        assert CollapseSpaces(s)[k] in s;
      }
    }
  }

  lemma BlankSurvivesLowerAndCollapse(name: string)
    ensures CollapsedLower(CollapseSpaces(Lower(name)))
    ensures (forall k :: 0 <= k < |CollapseSpaces(Lower(name))| ==> IsSpace(CollapseSpaces(Lower(name))[k]))
       <==> (forall k :: 0 <= k < |name| ==> IsSpace(name[k]))
  {
    var lowered := Lower(name);
    var collapsed := CollapseSpaces(lowered);
    CollapseSpacesSpec(lowered);
    CollapseKeepsLower(lowered);
    CollapseKeepsText(lowered);
    AllSpaceIffNoText(collapsed);
    AllSpaceIffNoText(lowered);
    AllSpaceIffNoText(name);
    assert (forall k :: 0 <= k < |lowered| ==> IsSpace(lowered[k]))
       <==> (forall k :: 0 <= k < |name| ==> IsSpace(name[k]));
  }

  lemma {:induction false} AllSpaceIffNoText(s: string)
    ensures NonSpace(s) == [] <==> forall k :: 0 <= k < |s| ==> IsSpace(s[k])
    decreases |s|
  {
    if s != [] {
      AllSpaceIffNoText(s[1..]);
      assert forall k :: 1 <= k < |s| ==> s[k] == s[1..][k - 1];
    }
  }

  /** A text already in key shape is its own key. */
  lemma NormalizeFixesKey(key: string)
    requires CollapsedLower(key)
    requires key != [] ==> !IsSpace(key[0]) && !IsSpace(key[|key| - 1])
    ensures NormalizeLensName(key) == key
  {
    if key != [] {
      assert Lower(key) == key by {
        assert forall k :: 0 <= k < |key| ==> Lower(key)[k] == key[k];
      }
      assert CollapseSpaces(key) == key by {
        CollapseFixesCollapsed(key);
      }
      assert Strip(key) == key by {
        StripRemovesPadding([], key, []);
        assert [] + key + [] == key;
      }
    }
  }

  /** Normalising a key again changes nothing. */
  lemma NormalizeIdempotent(name: string)
    ensures NormalizeLensName(NormalizeLensName(name)) == NormalizeLensName(name)
  {
    NormalizeKeyShape(name);
    NormalizeFixesKey(NormalizeLensName(name));
  }

  // ---- Spelling variants ----

  /** `words[0] + gaps[0] + words[1] + ... + words[n]`: a name laid out as words
      separated by whitespace runs. */
  function Interleave(words: seq<string>, gaps: seq<string>): string
    requires |words| == |gaps| + 1
    decreases |gaps|
  {
    if gaps == [] then words[0] else words[0] + gaps[0] + Interleave(words[1..], gaps[1..])
  }

  /** Each of the texts in lower case. */
  function LowerAll(texts: seq<string>): (r: seq<string>)
    ensures |r| == |texts| && forall i :: 0 <= i < |texts| ==> r[i] == Lower(texts[i])
  {
    seq(|texts|, i requires 0 <= i < |texts| => Lower(texts[i]))
  }

  lemma {:induction false} InterleaveEnds(words: seq<string>, gaps: seq<string>)
    requires |words| == |gaps| + 1
    requires forall i :: 0 <= i < |words| ==> IsWord(words[i])
    ensures var s := Interleave(words, gaps);
            s != [] && !IsSpace(s[0]) && !IsSpace(s[|s| - 1])
    decreases |gaps|
  {
    assert IsWord(words[0]);
    if gaps != [] {
      InterleaveEnds(words[1..], gaps[1..]);
    }
  }

  lemma {:induction false} JoinEnds(words: seq<string>)
    requires words != [] && forall i :: 0 <= i < |words| ==> IsWord(words[i])
    ensures var s := Join(words, ' ');
            s != [] && !IsSpace(s[0]) && !IsSpace(s[|s| - 1])
    decreases |words|
  {
    assert IsWord(words[0]);
    if |words| > 1 {
      JoinEnds(words[1..]);
    }
  }

  /** Collapsing words laid out with gaps of any length leaves them one space apart. */
  lemma {:induction false} CollapseInterleave(words: seq<string>, gaps: seq<string>)
    requires |words| == |gaps| + 1
    requires forall i :: 0 <= i < |words| ==> IsWord(words[i])
    requires forall i :: 0 <= i < |gaps| ==> IsGap(gaps[i])
    ensures CollapseSpaces(Interleave(words, gaps)) == Join(words, ' ')
    decreases |gaps|
  {
    assert IsWord(words[0]);
    CollapseFixesCollapsed(words[0]);
    if gaps != [] {
      InterleaveEnds(words[1..], gaps[1..]);
      CollapseRun(words[0], gaps[0], Interleave(words[1..], gaps[1..]));
      CollapseInterleave(words[1..], gaps[1..]);
    }
  }

  lemma LowerAppend(a: string, b: string)
    ensures Lower(a + b) == Lower(a) + Lower(b)
  {
    assert forall k :: 0 <= k < |a + b| ==> Lower(a + b)[k] == (Lower(a) + Lower(b))[k];
  }

  lemma {:induction false} LowerInterleave(words: seq<string>, gaps: seq<string>)
    requires |words| == |gaps| + 1
    ensures Lower(Interleave(words, gaps)) == Interleave(LowerAll(words), LowerAll(gaps))
    decreases |gaps|
  {
    if gaps != [] {
      LowerAppend(words[0] + gaps[0], Interleave(words[1..], gaps[1..]));
      LowerAppend(words[0], gaps[0]);
      LowerInterleave(words[1..], gaps[1..]);
      assert LowerAll(words)[1..] == LowerAll(words[1..]);
      assert LowerAll(gaps)[1..] == LowerAll(gaps[1..]);
    }
  }

  /** The single space a non-empty run of padding collapses to. */
  function Pad(s: string): string {
    if s == [] then [] else [' ']
  }

  lemma CollapseLeading(pre: string, t: string)
    requires IsBlank(pre)
    requires t != [] && !IsSpace(t[0])
    ensures CollapseSpaces(pre + t) == Pad(pre) + CollapseSpaces(t)
  {
    if pre == [] {
      assert pre + t == t;
    } else {
      assert pre + t == [] + pre + t;
      CollapseRun([], pre, t);
    }
  }

  lemma CollapseTrailing(m: string, suf: string)
    requires IsBlank(suf)
    requires m != [] && !IsSpace(m[|m| - 1])
    ensures CollapseSpaces(m + suf) == CollapseSpaces(m) + Pad(suf)
  {
    if suf == [] {
      assert m + suf == m;
    } else {
      assert m + suf == m + suf + [];
      CollapseRun(m, suf, []);
    }
  }

  /** Whitespace around a collapsed text that starts and ends with a word character
      is stripped away again. */
  lemma StripCollapsedPadding(pre: string, m: string, suf: string)
    requires IsBlank(pre) && IsBlank(suf)
    requires m != [] && !IsSpace(m[0]) && !IsSpace(m[|m| - 1])
    requires var c := CollapseSpaces(m); !IsSpace(c[|c| - 1])
    ensures Strip(CollapseSpaces(pre + m + suf)) == CollapseSpaces(m)
  {
    var c := CollapseSpaces(m);
    CollapsePadded(pre, m, suf);
    StripRemovesPadding(Pad(pre), c, Pad(suf));
  }

  lemma CollapsePadded(pre: string, m: string, suf: string)
    requires IsBlank(pre) && IsBlank(suf)
    requires m != [] && !IsSpace(m[0]) && !IsSpace(m[|m| - 1])
    ensures CollapseSpaces(pre + m + suf) == Pad(pre) + CollapseSpaces(m) + Pad(suf)
  {
    assert pre + m + suf == pre + (m + suf);
    assert (m + suf)[0] == m[0];
    CollapseLeading(pre, m + suf);
    CollapseTrailing(m, suf);
  }

  /** The key of a name laid out as words separated by whitespace runs of any
      length, with any whitespace around it, is its words in lower case joined by
      single spaces. */
  lemma NormalizeWords(pre: string, words: seq<string>, gaps: seq<string>, suf: string)
    requires |words| == |gaps| + 1
    requires forall i :: 0 <= i < |words| ==> IsWord(words[i])
    requires forall i :: 0 <= i < |gaps| ==> IsGap(gaps[i])
    requires IsBlank(pre) && IsBlank(suf)
    ensures NormalizeLensName(pre + Interleave(words, gaps) + suf) == Join(LowerAll(words), ' ')
  {
    var m := Interleave(words, gaps);
    var lw, lg := LowerAll(words), LowerAll(gaps);
    assert forall i :: 0 <= i < |lw| ==> IsWord(lw[i]);
    assert forall i :: 0 <= i < |lg| ==> IsGap(lg[i]);
    InterleaveEnds(words, gaps);
    assert Lower(pre + m + suf) == Lower(pre) + Interleave(lw, lg) + Lower(suf) by {
      LowerAppend(pre + m, suf);
      LowerAppend(pre, m);
      LowerInterleave(words, gaps);
    }
    InterleaveEnds(lw, lg);
    CollapseInterleave(lw, lg);
    JoinEnds(lw);
    StripCollapsedPadding(Lower(pre), Interleave(lw, lg), Lower(suf));
  }

  /** `a` and `b` differ at most in the case of ASCII letters. */
  predicate SameIgnoringCase(a: string, b: string) {
    && |a| == |b|
    && forall k :: 0 <= k < |a| ==>
         || a[k] == b[k]
         || (IsUpper(a[k]) && b[k] as int == a[k] as int + 32)
         || (IsUpper(b[k]) && a[k] as int == b[k] as int + 32)
  }

  /** Texts that differ only in case are equal once lower-cased. */
  lemma SameIgnoringCaseLower(a: string, b: string)
    requires SameIgnoringCase(a, b)
    ensures Lower(a) == Lower(b)
  {
    assert forall k :: 0 <= k < |a| ==> Lower(a)[k] == Lower(b)[k];
  }

  /** Spelling variants of one lens share a key: two names with the same words up to
      the case of ASCII letters, separated and surrounded by whitespace runs of any
      lengths, normalise alike. */
  lemma VariantsShareKey(pre: string, words: seq<string>, gaps: seq<string>, suf: string,
                         pre': string, words': seq<string>, gaps': seq<string>, suf': string)
    requires |words| == |gaps| + 1 && |words'| == |gaps'| + 1 && |words| == |words'|
    requires forall i :: 0 <= i < |words| ==> IsWord(words[i]) && IsWord(words'[i])
    requires forall i :: 0 <= i < |gaps| ==> IsGap(gaps[i]) && IsGap(gaps'[i])
    requires IsBlank(pre) && IsBlank(suf) && IsBlank(pre') && IsBlank(suf')
    requires forall i :: 0 <= i < |words| ==> SameIgnoringCase(words[i], words'[i])
    ensures NormalizeLensName(pre + Interleave(words, gaps) + suf)
         == NormalizeLensName(pre' + Interleave(words', gaps') + suf')
  {
    assert LowerAll(words) == LowerAll(words') by {
      forall i | 0 <= i < |words| ensures Lower(words[i]) == Lower(words'[i]) {
        SameIgnoringCaseLower(words[i], words'[i]);
      }
    }
    var name, name' := pre + Interleave(words, gaps) + suf, pre' + Interleave(words', gaps') + suf';
    assert NormalizeLensName(name) == Join(LowerAll(words), ' ') by {
      NormalizeWords(pre, words, gaps, suf);
    }
    assert NormalizeLensName(name') == Join(LowerAll(words'), ' ') by {
      NormalizeWords(pre', words', gaps', suf');
    }
  }
}
