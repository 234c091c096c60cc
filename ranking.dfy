/** The ranking rules of `display_statistics`: every table is sorted by count,
    most frequent first, then by a field-specific numeric key, with Python's stable
    `sorted`, and cut to its first ten rows. */
module Ranking {
  import opened Strings
  import opened Numbers
  import opened Counting

  /** A secondary sort key: a float, or `float('inf')`. */
  datatype SortKey = Finite(x: real) | Infinity

  predicate KeyLess(a: SortKey, b: SortKey) {
    match a
    case Finite(u) => (match b case Finite(v) => u < v case Infinity => true)
    case Infinity => false
  }

  /** One row of a table: the counted item, its count and its secondary key. */
  datatype Entry<K> = Entry(item: K, count: nat, key: SortKey)

  /** `a` sorts strictly before `b` under the key `(-count, key)`. */
  predicate Before<K>(a: Entry<K>, b: Entry<K>) {
    a.count > b.count || (a.count == b.count && KeyLess(a.key, b.key))
  }

  /** Neither sorts before the other: the tuple keys are equal. */
  predicate SameRank<K>(a: Entry<K>, b: Entry<K>) {
    a.count == b.count && a.key == b.key
  }

  predicate Sorted<K>(s: seq<Entry<K>>) {
    forall i, j :: 0 <= i < j < |s| ==> !Before(s[j], s[i])
  }

  /** `x` placed after every row that does not sort after it. */
  function Insert<K>(x: Entry<K>, s: seq<Entry<K>>): seq<Entry<K>>
    decreases |s|
  {
    if s == [] then [x]
    else if Before(x, s[0]) then [x] + s
    else [s[0]] + Insert(x, s[1..])
  }

  /** `sorted(rows, key=...)`: rows are inserted in their original order, each
      after the rows already placed that it does not sort before. */
  function Sort<K>(xs: seq<Entry<K>>): seq<Entry<K>>
    decreases |xs|
  {
    if xs == [] then [] else Insert(xs[|xs| - 1], Sort(xs[..|xs| - 1]))
  }

  /** Where `Insert` puts `x`: before the first row that `x` sorts before. */
  function InsertPos<K>(x: Entry<K>, s: seq<Entry<K>>): (k: nat)
    ensures k <= |s|
    decreases |s|
  {
    if s == [] || Before(x, s[0]) then 0 else InsertPos(x, s[1..]) + 1
  }

  lemma {:induction false} InsertPosSpec<K>(x: Entry<K>, s: seq<Entry<K>>)
    ensures forall m :: 0 <= m < InsertPos(x, s) ==> !Before(x, s[m])
    ensures InsertPos(x, s) < |s| ==> Before(x, s[InsertPos(x, s)])
    decreases |s|
  {
    if s != [] && !Before(x, s[0]) {
      InsertPosSpec(x, s[1..]);
      assert forall m :: 1 <= m < |s| ==> s[m] == s[1..][m - 1];
    }
  }

  lemma {:induction false} InsertAt<K>(x: Entry<K>, s: seq<Entry<K>>)
    ensures Insert(x, s) == s[..InsertPos(x, s)] + [x] + s[InsertPos(x, s)..]
    decreases |s|
  {
    if s != [] && !Before(x, s[0]) {
      InsertAt(x, s[1..]);
      var k := InsertPos(x, s[1..]);
      assert s[1..][..k] == s[1..k + 1];
      assert s[1..][k..] == s[k + 1..];
      assert s[..k + 1] == [s[0]] + s[1..k + 1];
    }
  }

  /** In a sorted table, `x` sorts before every row from its insertion point on. */
  lemma InsertPosAfter<K>(x: Entry<K>, s: seq<Entry<K>>)
    requires Sorted(s)
    ensures forall m :: InsertPos(x, s) <= m < |s| ==> Before(x, s[m])
  {
    var k := InsertPos(x, s);
    InsertPosSpec(x, s);
    forall m | k <= m < |s| ensures Before(x, s[m]) {
      if m > k {
        assert !Before(s[m], s[k]);
      }
    }
  }

  /** The row at each position after inserting `x` at `k`. */
  lemma InsertIndex<K>(x: Entry<K>, s: seq<Entry<K>>)
    ensures |Insert(x, s)| == |s| + 1
    ensures forall m :: 0 <= m < InsertPos(x, s) ==> Insert(x, s)[m] == s[m]
    ensures Insert(x, s)[InsertPos(x, s)] == x
    ensures forall m :: InsertPos(x, s) < m <= |s| ==> Insert(x, s)[m] == s[m - 1]
  {
    InsertAt(x, s);
  }

  lemma InsertPerm<K>(x: Entry<K>, s: seq<Entry<K>>)
    ensures multiset(Insert(x, s)) == multiset(s) + multiset{x}
  {
    var k := InsertPos(x, s);
    InsertAt(x, s);
    assert s == s[..k] + s[k..];
  }

  lemma InsertSorted<K>(x: Entry<K>, s: seq<Entry<K>>)
    requires Sorted(s)
    ensures Sorted(Insert(x, s))
  {
    var k := InsertPos(x, s);
    InsertIndex(x, s);
    InsertPosSpec(x, s);
    InsertPosAfter(x, s);
    var r := Insert(x, s);
    forall i, j | 0 <= i < j < |r| ensures !Before(r[j], r[i]) {
      if j < k {
        assert r[i] == s[i] && r[j] == s[j];
      } else if j == k {
        assert r[i] == s[i] && r[j] == x;
      } else if i == k {
        assert r[j] == s[j - 1];
      } else if i < k {
        assert r[i] == s[i] && r[j] == s[j - 1];
      } else {
        assert r[i] == s[i - 1] && r[j] == s[j - 1];
      }
    }
  }

  /** The sorted table holds the same rows, in order of `(-count, key)`. */
  lemma {:induction false} SortSorted<K>(xs: seq<Entry<K>>)
    ensures Sorted(Sort(xs))
    ensures multiset(Sort(xs)) == multiset(xs)
    decreases |xs|
  {
    if xs != [] {
      var p := xs[..|xs| - 1];
      SortSorted(p);
      InsertSorted(xs[|xs| - 1], Sort(p));
      InsertPerm(xs[|xs| - 1], Sort(p));
      assert xs == p + [xs[|xs| - 1]];
    }
  }

  /** The rows of `s` that tie with `y` under the sort key, in their order. */
  function Ties<K>(s: seq<Entry<K>>, y: Entry<K>): seq<Entry<K>>
    decreases |s|
  {
    if s == [] then []
    else Ties(s[..|s| - 1], y) + (if SameRank(s[|s| - 1], y) then [s[|s| - 1]] else [])
  }

  lemma {:induction false} TiesAppend<K>(a: seq<Entry<K>>, b: seq<Entry<K>>, y: Entry<K>)
    ensures Ties(a + b, y) == Ties(a, y) + Ties(b, y)
    decreases |b|
  {
    if b != [] {
      var c := b[..|b| - 1];
      var last := b[|b| - 1];
      TiesAppend(a, c, y);
      assert (a + b)[..|a + b| - 1] == a + c;
      assert (a + b)[|a + b| - 1] == last;
      assert Ties(a + b, y) == Ties(a + c, y) + (if SameRank(last, y) then [last] else []);
    } else {
      assert a + b == a;
    }
  }

  lemma {:induction false} NoTies<K>(s: seq<Entry<K>>, y: Entry<K>)
    requires forall m :: 0 <= m < |s| ==> !SameRank(s[m], y)
    ensures Ties(s, y) == []
    decreases |s|
  {
    if s != [] {
      NoTies(s[..|s| - 1], y);
    }
  }

  lemma TiesSingle<K>(x: Entry<K>, y: Entry<K>)
    ensures Ties([x], y) == if SameRank(x, y) then [x] else []
  {
    assert [x][..0] == [];
  }

  lemma SwapEmpty<T>(a: seq<T>, b: seq<T>, c: seq<T>)
    requires b == [] || c == []
    ensures a + b + c == (a + c) + b
  {
    if b == [] {
      assert a + b == a;
      assert (a + c) + b == a + c;
    } else {
      assert a + c == a;
      assert a + b + c == a + b;
    }
  }

  /** Inserting into a sorted table puts `x` after every row it ties with. */
  lemma InsertTies<K>(x: Entry<K>, s: seq<Entry<K>>, y: Entry<K>)
    requires forall m :: InsertPos(x, s) <= m < |s| ==> Before(x, s[m])
    ensures Ties(Insert(x, s), y) == Ties(s, y) + (if SameRank(x, y) then [x] else [])
  {
    var k := InsertPos(x, s);
    var left, right := s[..k], s[k..];
    var tl, tr := Ties(left, y), Ties(right, y);
    var tx := if SameRank(x, y) then [x] else [];
    assert Ties(Insert(x, s), y) == tl + tx + tr by {
      InsertAt(x, s);
      TiesAppend(left + [x], right, y);
      TiesAppend(left, [x], y);
      TiesSingle(x, y);
    }
    assert Ties(s, y) == tl + tr by {
      TiesAppend(left, right, y);
      assert left + right == s;
    }
    assert tx == [] || tr == [] by {
      if SameRank(x, y) {
        NoTies(right, y);
      }
    }
    SwapEmpty(tl, tx, tr);
  }

  /** Python's sort is stable: the rows that tie under the key come out in the
      order they went in. */
  lemma {:induction false} SortStable<K>(xs: seq<Entry<K>>, y: Entry<K>)
    ensures Ties(Sort(xs), y) == Ties(xs, y)
    decreases |xs|
  {
    if xs != [] {
      var p := xs[..|xs| - 1];
      var x := xs[|xs| - 1];
      SortStable(p, y);
      SortSorted(p);
      InsertPosAfter(x, Sort(p));
      InsertTies(x, Sort(p), y);
      assert Ties(xs, y) == Ties(p, y) + (if SameRank(x, y) then [x] else []);
    }
  }

  /** `[:n]`. */
  function Take<T>(s: seq<T>, n: nat): (r: seq<T>)
    ensures |r| == if |s| < n then |s| else n
  {
    if |s| < n then s else s[..n]
  }

  /** The rows of a counter, each with its secondary key. */
  function Entries<K>(c: Counter<K>, key: K -> SortKey): (es: seq<Entry<K>>)
    ensures |es| == |c|
    ensures forall i :: 0 <= i < |c| ==> es[i] == Entry(c[i].0, c[i].1, key(c[i].0))
  {
    seq(|c|, i requires 0 <= i < |c| => Entry(c[i].0, c[i].1, key(c[i].0)))
  }

  function Items<K>(es: seq<Entry<K>>): (r: seq<(K, nat)>)
    ensures |r| == |es|
    ensures forall i :: 0 <= i < |es| ==> r[i] == (es[i].item, es[i].count)
  {
    seq(|es|, i requires 0 <= i < |es| => (es[i].item, es[i].count))
  }

  /** `sorted(counter.items(), key=lambda x: (-x[1], key(x[0])))[:n]`. */
  function RankTable<K>(c: Counter<K>, key: K -> SortKey, n: nat): seq<(K, nat)> {
    Items(Take(Sort(Entries(c, key)), n))
  }

  /** A ranked table: at most `n` rows, each a row of the counter, ordered by count
      and then key, and no row left out ranks ahead of a row kept. */
  lemma RankTableSpec<K>(c: Counter<K>, key: K -> SortKey, n: nat)
    ensures var r := RankTable(c, key, n);
            var all := Sort(Entries(c, key));
            && |r| == (if |c| < n then |c| else n)
            && (forall i :: 0 <= i < |r| ==> r[i] in c)
            && (forall i, j :: 0 <= i < j < |r| ==>
                  r[i].1 > r[j].1 || (r[i].1 == r[j].1 && !KeyLess(key(r[j].0), key(r[i].0))))
            && (forall i, j :: 0 <= i < |r| <= j < |all| ==> !Before(all[j], all[i]))
  {
    var es := Entries(c, key);
    var all := Sort(es);
    SortSorted(es);
    var r := RankTable(c, key, n);
    forall i | 0 <= i < |r| ensures r[i] in c {
      assert all[i] in multiset(es);
      var m :| 0 <= m < |es| && es[m] == all[i];
      assert c[m] == (all[i].item, all[i].count);
    }
    forall i, j | 0 <= i < j < |r|
      ensures r[i].1 > r[j].1 || (r[i].1 == r[j].1 && !KeyLess(key(r[j].0), key(r[i].0)))
    {
      assert all[i] in multiset(es) && all[j] in multiset(es);
      var a :| 0 <= a < |es| && es[a] == all[i];
      var b :| 0 <= b < |es| && es[b] == all[j];
      assert !Before(all[j], all[i]);
    }
  }

  /** `counter.most_common(n)`: by count only, equal counts in the order first
      counted. */
  function MostCommon<K>(c: Counter<K>, n: nat): seq<(K, nat)> {
    RankTable(c, _ => Finite(0.0), n)
  }

  /** With one key for every row, only the counts order the rows, and rows with
      equal counts stay in the order the counter first counted them. */
  lemma MostCommonOrder<K>(c: Counter<K>, n: nat, y: Entry<K>)
    ensures var es := Entries(c, _ => Finite(0.0));
            var all := Sort(es);
            && (forall i, j :: 0 <= i < j < |all| ==> all[i].count >= all[j].count)
            && (y.key == Finite(0.0) ==> Ties(all, y) == Ties(es, y))
  {
    var es := Entries(c, _ => Finite(0.0));
    SortSorted(es);
    SortStable(es, y);
    var all := Sort(es);
    forall i, j | 0 <= i < j < |all| ensures all[i].count >= all[j].count {
      assert all[i] in multiset(es) && all[j] in multiset(es);
      assert !Before(all[j], all[i]);
    }
  }

  // ---- The secondary keys ----

  /** The ISO table sorts by the ISO number itself. */
  function IsoKey(iso: nat): SortKey {
    Finite(iso as real)
  }

  /** The aperture lambda and `sort_focal`: the first `[\d.]+` run as a float, 0
      when there is none; `None` where `float()` raises on the run. */
  function LabelKey(s: string): (r: Option<SortKey>)
    ensures r.None? ==> FirstRun(s, DecimalChar).Some? && !IsFloatLiteral(FirstRun(s, DecimalChar).value)
  {
    match FirstRun(s, DecimalChar)
    case None => Some(Finite(0.0))
    case Some(run) => if IsFloatLiteral(run) then Some(Finite(DecimalValue(run))) else None
  }

  /** `sort_speed`: `num / den` for a text with a slash, else the number itself;
      `inf` whenever splitting or `float()` fails or the denominator is zero. */
  function SpeedKey(s: string): SortKey {
    if '/' in s then
      var parts := Split(s, '/');
      if |parts| != 2 then Infinity
      else
        match (ParseFloat(parts[0]), ParseFloat(parts[1]))
        case (Some(num), Some(den)) => if den == 0.0 then Infinity else Finite(num / den)
        case _ => Infinity
    else
      match ParseFloat(s)
      case Some(v) => Finite(v)
      case None => Infinity
  }

  /** The ISO and shutter speed tables. */
  function RankIso(c: Counter<nat>): seq<(nat, nat)> {
    RankTable(c, IsoKey, 10)
  }

  function RankSpeeds(c: Counter<string>): seq<(string, nat)> {
    RankTable(c, SpeedKey, 10)
  }

  function LabelKeyOrZero(s: string): SortKey {
    match LabelKey(s)
    case Some(k) => k
    case None => Finite(0.0)
  }

  /** The aperture and focal-length tables: `None` stands for the `ValueError` the
      key function raises on a label whose number `float()` rejects. */
  function RankLabels(c: Counter<string>): (r: Option<seq<(string, nat)>>)
    ensures r.None? <==> exists i :: 0 <= i < |c| && LabelKey(c[i].0).None?
  {
    if forall i :: 0 <= i < |c| ==> LabelKey(c[i].0).Some? then Some(RankTable(c, LabelKeyOrZero, 10))
    else None
  }

  // ---- What the keys are ----

  /** The leftmost `[\d.]+` match in `pre + run + suf`, when `pre` has no `[\d.]`
      character and `suf` does not continue the run, is `run`. */
  lemma FirstRunIs(pre: string, run: string, suf: string)
    requires forall k :: 0 <= k < |pre| ==> !IsDecimalChar(pre[k])
    requires run != [] && forall k :: 0 <= k < |run| ==> IsDecimalChar(run[k])
    requires suf == [] || !IsDecimalChar(suf[0])
    ensures FirstRun(pre + run + suf, DecimalChar) == Some(run)
  {
    var s := pre + run + suf;
    var n := |pre| + |run|;
    assert FindClass(s, 0, DecimalChar) == Some(|pre|) by {
      assert forall k :: 0 <= k < |pre| ==> s[k] == pre[k];
      assert s[|pre|] == run[0];
      FindClassIs(s, 0, |pre|, DecimalChar);
    }
    assert RunEnd(s, |pre|, DecimalChar) == n by {
      assert forall k :: |pre| <= k < n ==> s[k] == run[k - |pre|];
      assert n < |s| ==> s[n] == suf[0];
      RunEndIs(s, |pre|, n, DecimalChar);
    }
    assert s[|pre|..n] == run;
  }

  /** An aperture label `f/<run>` sorts by the value of the run, and only a run that
      `float()` rejects, such as `.` or `1.2.3`, makes the key raise. */
  lemma ApertureLabelKey(run: string)
    requires run != [] && forall k :: 0 <= k < |run| ==> IsDecimalChar(run[k])
    ensures LabelKey("f/" + run) == if IsFloatLiteral(run) then Some(Finite(DecimalValue(run))) else None
  {
    FirstRunIs("f/", run, []);
    assert "f/" + run + [] == "f/" + run;
  }

  /** A focal-length label as the parser writes it sorts by its number and never
      makes the key raise. */
  lemma FocalLabelKey(s: string)
    requires IsFloatLiteral(s)
    ensures LabelKey(FocalLabel(s)) == Some(Finite(DecimalValue(FocalNumber(s))))
  {
    var num := FocalNumber(s);
    FloatLiteralChars(num);
    FirstRunIs([], num, "mm");
    assert [] + num + "mm" == FocalLabel(s);
  }

  /** A label without any digit or point sorts as 0. */
  lemma LabelWithoutNumber(s: string)
    requires forall k :: 0 <= k < |s| ==> !IsDecimalChar(s[k])
    ensures LabelKey(s) == Some(Finite(0.0))
  {
  }

  lemma PlainLiteral(a: string)
    requires IsFloatLiteral(a)
    ensures '/' !in a
    ensures ParseFloat(a) == Some(DecimalValue(a))
  {
    FloatLiteralChars(a);
    assert Strip(a) == a by {
      assert !IsSpace(a[0]) && !IsSpace(a[|a| - 1]);
      StripRemovesPadding([], a, []);
      assert [] + a + [] == a;
    }
    ParseFloatLiteral(a);
  }

  /** `a/b` splits at its one slash into `a` and `b`. */
  lemma FractionParts(a: string, b: string)
    requires IsFloatLiteral(a) && IsFloatLiteral(b)
    ensures '/' in a + "/" + b
    ensures Split(a + "/" + b, '/') == [a, b]
    ensures ParseFloat(a) == Some(DecimalValue(a)) && ParseFloat(b) == Some(DecimalValue(b))
  {
    PlainLiteral(a);
    PlainLiteral(b);
    SplitTwo(a, b, '/');
  }

  /** A fraction `a/b` of two decimal numbers sorts by its value `a / b`. */
  lemma SpeedFraction(a: string, b: string)
    requires IsFloatLiteral(a) && IsFloatLiteral(b) && DecimalValue(b) != 0.0
    ensures SpeedKey(a + "/" + b) == Finite(DecimalValue(a) / DecimalValue(b))
  {
    FractionParts(a, b);
  }

  /** A zero denominator, which would raise `ZeroDivisionError`, sorts last. */
  lemma SpeedZeroDenominator(a: string, b: string)
    requires IsFloatLiteral(a) && IsFloatLiteral(b) && DecimalValue(b) == 0.0
    ensures SpeedKey(a + "/" + b) == Infinity
  {
    FractionParts(a, b);
  }

  /** More than one slash makes the two-name unpacking fail: the speed sorts last. */
  lemma SpeedManySlashes(s: string)
    requires multiset(s)['/'] >= 2
    ensures SpeedKey(s) == Infinity
  {
    SplitCount(s, '/');
  }

  /** A plain number such as `30` or `0.5` sorts by its value. */
  lemma SpeedWhole(a: string)
    requires IsFloatLiteral(a)
    ensures SpeedKey(a) == Finite(DecimalValue(a))
  {
    PlainLiteral(a);
  }
}
