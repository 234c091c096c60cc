/** The few Python `str` and `re` builtins the analyzer relies on, over ASCII text:
    whitespace, `strip()`, `split()`, `in`, `lower()` and the leftmost-match search of
    a one-class regex such as `(\d+)` or `([\d.]+)`. */
module Strings {

  datatype Option<T> = None | Some(value: T)

  /** The ASCII characters for which `str.isspace()` holds: the space, `\t` `\n`
      `\v` `\f` `\r`, and the separators `\x1c` to `\x1f`; `str.strip()` and the
      regex class `\s` both use this set. */
  predicate IsSpace(c: char) {
    c == ' ' || ('\t' <= c <= '\r') || ('\U{1C}' <= c <= '\U{1F}')
  }

  /** The regex class `\d`, restricted to ASCII. */
  predicate IsDigit(c: char) {
    '0' <= c <= '9'
  }

  /** The regex class `[\d.]`. */
  predicate IsDecimalChar(c: char) {
    IsDigit(c) || c == '.'
  }

  datatype CharClass = Space | Digit | DecimalChar

  predicate InClass(c: char, cls: CharClass) {
    match cls
    case Space => IsSpace(c)
    case Digit => IsDigit(c)
    case DecimalChar => IsDecimalChar(c)
  }

  /** The end of the run of `cls` characters that starts at `i`. */
  function RunEnd(s: string, i: nat, cls: CharClass): (j: nat)
    requires i <= |s|
    ensures i <= j <= |s|
    ensures forall k :: i <= k < j ==> InClass(s[k], cls)
    ensures j == |s| || !InClass(s[j], cls)
    decreases |s| - i
  {
    if i == |s| || !InClass(s[i], cls) then i else RunEnd(s, i + 1, cls)
  }

  /** The start of the run of `cls` characters that ends at `j`. */
  function RunStart(s: string, j: nat, cls: CharClass): (i: nat)
    requires j <= |s|
    ensures i <= j
    ensures forall k :: i <= k < j ==> InClass(s[k], cls)
    ensures i == 0 || !InClass(s[i - 1], cls)
  {
    if j == 0 || !InClass(s[j - 1], cls) then j else RunStart(s, j - 1, cls)
  }

  /** `s.strip()`: `s` without its leading and trailing whitespace. */
  function Strip(s: string): string {
    var i := RunEnd(s, 0, Space);
    var j := RunStart(s, |s|, Space);
    if i < j then s[i..j] else []
  }

  /** What `strip()` keeps: the text between the leading and the trailing whitespace,
      which is empty exactly when `s` is all whitespace, and otherwise starts and ends
      with a character that is not whitespace. */
  lemma StripSpec(s: string)
    ensures var r := Strip(s);
            && RunEnd(s, 0, Space) + |r| <= |s|
            && (forall k :: 0 <= k < |r| ==> r[k] == s[RunEnd(s, 0, Space) + k])
            && (forall k :: RunEnd(s, 0, Space) + |r| <= k < |s| ==> IsSpace(s[k]))
            && (r == [] <==> forall k :: 0 <= k < |s| ==> IsSpace(s[k]))
            && (r != [] ==> !IsSpace(r[0]) && !IsSpace(r[|r| - 1]))
  {
    var i := RunEnd(s, 0, Space);
    var j := RunStart(s, |s|, Space);
    assert forall k :: 0 <= k < i ==> IsSpace(s[k]);
    assert forall k :: j <= k < |s| ==> IsSpace(s[k]);
    if i < j {
      assert Strip(s) == s[i..j];
      assert !IsSpace(s[i]) && !IsSpace(s[j - 1]);
    } else {
      assert Strip(s) == [];
      assert forall k :: 0 <= k < |s| ==> IsSpace(s[k]) by {
        forall k | 0 <= k < |s| ensures IsSpace(s[k]) {
          assert k < i || j <= k;
        }
      }
    }
  }

  /** Surrounding whitespace is all that `strip()` removes: a text with no whitespace
      at either end comes back unchanged from any padding. */
  lemma {:induction false} StripRemovesPadding(pre: string, mid: string, suf: string)
    requires forall k :: 0 <= k < |pre| ==> IsSpace(pre[k])
    requires forall k :: 0 <= k < |suf| ==> IsSpace(suf[k])
    requires mid != [] ==> !IsSpace(mid[0]) && !IsSpace(mid[|mid| - 1])
    ensures Strip(pre + mid + suf) == mid
  {
    var s := pre + mid + suf;
    var i, j := |pre|, |pre| + |mid|;
    assert forall k :: 0 <= k < i ==> IsSpace(s[k]) by {
      assert forall k :: 0 <= k < i ==> s[k] == pre[k];
    }
    assert forall k :: j <= k < |s| ==> IsSpace(s[k]) by {
      assert forall k :: j <= k < |s| ==> s[k] == suf[k - j];
    }
    if mid == [] {
      StripBlank(s);
    } else {
      assert s[i] == mid[0] && s[j - 1] == mid[|mid| - 1];
      StripPadded(s, i, j);
      assert s[i..j] == mid;
    }
  }

  lemma StripBlank(s: string)
    requires forall k :: 0 <= k < |s| ==> IsSpace(s[k])
    ensures Strip(s) == []
  {
    RunEndIs(s, 0, |s|, Space);
  }

  lemma StripPadded(s: string, i: nat, j: nat)
    requires i < j <= |s|
    requires forall k :: 0 <= k < i ==> IsSpace(s[k])
    requires forall k :: j <= k < |s| ==> IsSpace(s[k])
    requires !IsSpace(s[i]) && !IsSpace(s[j - 1])
    ensures Strip(s) == s[i..j]
  {
    RunEndIs(s, 0, i, Space);
    RunStartIs(s, j, |s|, Space);
  }

  /** The index of the first `c` in `s`, as `s.index(c)` would give it. */
  function IndexOf(s: string, c: char): (r: Option<nat>)
    ensures r.None? <==> c !in s
    ensures r.Some? ==> r.value < |s| && s[r.value] == c && c !in s[..r.value]
  {
    if s == [] then None
    else if s[0] == c then Some(0)
    else match IndexOf(s[1..], c)
      case None => None
      case Some(k) => assert s[1..][..k] == s[1..k + 1]; Some(k + 1)
  }

  /** `sep.join(parts)` for a one-character separator. */
  function Join(parts: seq<string>, sep: char): string
    requires parts != []
  {
    if |parts| == 1 then parts[0] else parts[0] + [sep] + Join(parts[1..], sep)
  }

  /** `s.split(sep)`: the pieces between the separators, empty pieces included. */
  function Split(s: string, sep: char): (parts: seq<string>)
    ensures parts != []
    decreases |s|
  {
    match IndexOf(s, sep)
    case None => [s]
    case Some(k) => [s[..k]] + Split(s[k + 1..], sep)
  }

  /** The pieces hold no separator, and joining them back with it gives `s`. */
  lemma {:induction false} SplitJoin(s: string, sep: char)
    ensures forall i :: 0 <= i < |Split(s, sep)| ==> sep !in Split(s, sep)[i]
    ensures Join(Split(s, sep), sep) == s
    decreases |s|
  {
    match IndexOf(s, sep)
    case None =>
    case Some(k) =>
      SplitJoin(s[k + 1..], sep);
      assert s == s[..k] + [sep] + s[k + 1..];
  }

  /** There is one more piece than there are separators. */
  lemma {:induction false} SplitCount(s: string, sep: char)
    ensures |Split(s, sep)| == multiset(s)[sep] + 1
    decreases |s|
  {
    match IndexOf(s, sep)
    case None =>
      assert sep !in multiset(s);
    case Some(k) =>
      var a, b := s[..k], s[k + 1..];
      assert |Split(s, sep)| == 1 + |Split(b, sep)|;
      assert multiset(s)[sep] == multiset(b)[sep] + 1 by {
        assert s == a + [sep] + b;
        SeparatorCount(a, sep, b);
      }
      SplitCount(b, sep);
  }

  lemma SeparatorCount(a: string, sep: char, b: string)
    requires sep !in a
    ensures multiset(a + [sep] + b)[sep] == multiset(b)[sep] + 1
  {
    assert multiset(a + [sep] + b) == multiset(a) + multiset{sep} + multiset(b);
  }

  /** Text with exactly one separator splits into the text on either side of it. */
  lemma SplitTwo(a: string, b: string, sep: char)
    requires sep !in a && sep !in b
    ensures sep in a + [sep] + b
    ensures Split(a + [sep] + b, sep) == [a, b]
  {
    var s := a + [sep] + b;
    assert s[|a|] == sep;
    assert IndexOf(s, sep) == Some(|a|) by {
      assert s[..|a|] == a;
    }
    assert s[|a| + 1..] == b;
    assert s[..|a|] == a;
    assert Split(b, sep) == [b];
  }

  /** `p` occurs in `s` starting at index 0. */
  predicate StartsWith(s: string, p: string) {
    |p| <= |s| && s[..|p|] == p
  }

  /** Python's substring test `sub in s`. */
  predicate Contains(s: string, sub: string)
    decreases |s|
  {
    StartsWith(s, sub) || (s != [] && Contains(s[1..], sub))
  }

  function LowerChar(c: char): char {
    if 'A' <= c <= 'Z' then (c as int + 32) as char else c
  }

  predicate IsUpper(c: char) {
    'A' <= c <= 'Z'
  }

  /** `s.lower()` on ASCII letters. */
  function Lower(s: string): (r: string)
    ensures |r| == |s|
    ensures forall k :: 0 <= k < |s| ==> !IsUpper(r[k])
    ensures forall k :: 0 <= k < |s| && IsUpper(s[k]) ==> r[k] as int == s[k] as int + 32
    ensures forall k :: 0 <= k < |s| && !IsUpper(s[k]) ==> r[k] == s[k]
    ensures forall k :: 0 <= k < |s| ==> (IsSpace(r[k]) <==> IsSpace(s[k]))
  {
    seq(|s|, k requires 0 <= k < |s| => LowerChar(s[k]))
  }

  /** The index of the first `cls` character at or after `i`. */
  function FindClass(s: string, i: nat, cls: CharClass): (r: Option<nat>)
    requires i <= |s|
    ensures r.None? <==> forall k :: i <= k < |s| ==> !InClass(s[k], cls)
    ensures r.Some? ==> i <= r.value < |s| && InClass(s[r.value], cls)
                        && forall k :: i <= k < r.value ==> !InClass(s[k], cls)
    decreases |s| - i
  {
    if i == |s| then None
    else if InClass(s[i], cls) then Some(i)
    else FindClass(s, i + 1, cls)
  }

  lemma FindClassIs(s: string, i: nat, j: nat, cls: CharClass)
    requires i <= j < |s| && InClass(s[j], cls)
    requires forall k :: i <= k < j ==> !InClass(s[k], cls)
    ensures FindClass(s, i, cls) == Some(j)
  {
  }

  lemma RunEndIs(s: string, i: nat, j: nat, cls: CharClass)
    requires i <= j <= |s|
    requires forall k :: i <= k < j ==> InClass(s[k], cls)
    requires j == |s| || !InClass(s[j], cls)
    ensures RunEnd(s, i, cls) == j
  {
  }

  lemma RunStartIs(s: string, i: nat, j: nat, cls: CharClass)
    requires i <= j <= |s|
    requires forall k :: i <= k < j ==> InClass(s[k], cls)
    requires i == 0 || !InClass(s[i - 1], cls)
    ensures RunStart(s, j, cls) == i
  {
  }

  /** `re.search(r'(C+)', s).group(1)` for a one-class pattern `C`: the leftmost match
      starts at the first `cls` character and the greedy `+` runs to the end of its run;
      `None` stands for no match. */
  function FirstRun(s: string, cls: CharClass): (r: Option<string>)
    ensures r.None? <==> forall k :: 0 <= k < |s| ==> !InClass(s[k], cls)
    ensures r.Some? ==> exists i :: 0 <= i < |s| && InClass(s[i], cls)
                          && (forall k :: 0 <= k < i ==> !InClass(s[k], cls))
                          && r.value == s[i..RunEnd(s, i, cls)]
    ensures r.Some? ==> r.value != [] && forall k :: 0 <= k < |r.value| ==> InClass(r.value[k], cls)
  {
    match FindClass(s, 0, cls)
    case None => None
    case Some(i) => Some(s[i..RunEnd(s, i, cls)])
  }
}
