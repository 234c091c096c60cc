/** `generate_statistics`: counters over the parsed records, with the spelling
    variants of one lens merged under one canonical name chosen by majority.

    The grouping of lens names is stated for any key function `norm`; the analyzer
    groups by `normalize_lens_name`, and `BuildCanonicalMap`, `GenerateStatistics`
    and `Statistics` instantiate `norm` with `NormalizeLensName`. */
module Statistics {
  import opened Strings
  import opened Counting
  import opened LensName
  import opened ExifParser

  datatype Stats = Stats(
    totalPhotos: nat,
    cameras: Counter<string>,
    lenses: Counter<string>,
    isoValues: Counter<nat>,
    shutterSpeeds: Counter<string>,
    aperturesByLens: map<string, Counter<string>>,
    apertures: Counter<string>,
    focalLengthsByLens: map<string, Counter<string>>,
    focalLengths: Counter<string>)

  function CameraOf(r: Record): Option<string> { r.camera }
  function LensOf(r: Record): Option<string> { r.lens }
  function IsoOf(r: Record): Option<nat> { r.iso }
  function SpeedOf(r: Record): Option<string> { r.speed }
  function ApertureOf(r: Record): Option<string> { r.aperture }
  function FocalOf(r: Record): Option<string> { r.focalLength }

  /** The truthy values of one field, record by record. */
  function Present<T(==)>(rs: seq<Record>, get: Record -> Option<T>, zero: T): seq<T>
    decreases |rs|
  {
    if rs == [] then []
    else
      var r := rs[|rs| - 1];
      Present(rs[..|rs| - 1], get, zero) + (if IsSet(get(r), zero) then [get(r).value] else [])
  }

  /** A value is present exactly when some record has it, truthy, in the field. */
  lemma {:induction false} PresentMembers<T>(rs: seq<Record>, get: Record -> Option<T>, zero: T, v: T)
    ensures |Present(rs, get, zero)| <= |rs|
    ensures v in Present(rs, get, zero) <==> v != zero && exists i :: 0 <= i < |rs| && get(rs[i]) == Some(v)
    decreases |rs|
  {
    if rs != [] {
      var p := rs[..|rs| - 1];
      PresentMembers(p, get, zero, v);
      assert forall i :: 0 <= i < |p| ==> rs[i] == p[i];
    }
  }

  /** One more record adds its truthy value, if any, to the field's counter. */
  lemma TallyPresentStep<T>(rs: seq<Record>, i: nat, get: Record -> Option<T>, zero: T)
    requires i < |rs|
    ensures Tally(Present(rs[..i + 1], get, zero))
            == if IsSet(get(rs[i]), zero) then Inc(Tally(Present(rs[..i], get, zero)), get(rs[i]).value)
               else Tally(Present(rs[..i], get, zero))
  {
    assert rs[..i + 1][..i] == rs[..i];
    var before := Present(rs[..i], get, zero);
    if IsSet(get(rs[i]), zero) {
      assert Present(rs[..i + 1], get, zero) == before + [get(rs[i]).value];
      TallyAppend(before, get(rs[i]).value);
    } else {
      assert Present(rs[..i + 1], get, zero) == before;
    }
  }

  function LensValues(rs: seq<Record>): seq<string> {
    Present(rs, LensOf, "")
  }

  lemma LensValuesStep(results: seq<Record>, i: nat)
    requires i < |results|
    ensures LensValues(results[..i + 1])
            == LensValues(results[..i]) + (if IsSet(results[i].lens, "") then [results[i].lens.value] else [])
  {
    assert results[..i + 1][..i] == results[..i];
  }

  // ---- First pass: the canonical name of each lens ----

  /** The keys of the lenses seen. */
  function NormKeys(lenses: seq<string>, norm: string -> string): set<string> {
    set l | l in lenses :: norm(l)
  }

  /** The spellings whose key is `key`, in order. */
  function Group(lenses: seq<string>, key: string, norm: string -> string): seq<string>
    decreases |lenses|
  {
    if lenses == [] then []
    else
      var l := lenses[|lenses| - 1];
      Group(lenses[..|lenses| - 1], key, norm) + (if norm(l) == key then [l] else [])
  }

  lemma {:induction false} GroupMembers(lenses: seq<string>, key: string, norm: string -> string, v: string)
    ensures v in Group(lenses, key, norm) <==> v in lenses && norm(v) == key
    decreases |lenses|
  {
    if lenses != [] {
      var p := lenses[..|lenses| - 1];
      var l := lenses[|lenses| - 1];
      GroupMembers(p, key, norm, v);
      assert lenses == p + [l];
      assert v in lenses <==> v in p || v == l;
    }
  }

  lemma {:induction false} GroupEmpty(lenses: seq<string>, key: string, norm: string -> string)
    requires key !in NormKeys(lenses, norm)
    ensures Group(lenses, key, norm) == []
    decreases |lenses|
  {
    if lenses != [] {
      var p := lenses[..|lenses| - 1];
      assert NormKeys(p, norm) <= NormKeys(lenses, norm);
      GroupEmpty(p, key, norm);
    }
  }

  lemma GroupAppend(lenses: seq<string>, x: string, key: string, norm: string -> string)
    ensures Group(lenses + [x], key, norm) == Group(lenses, key, norm) + (if norm(x) == key then [x] else [])
  {
    assert (lenses + [x])[..|lenses|] == lenses;
  }

  /** `lens_variations`: for each key, how often each spelling occurred. */
  function Variations(lenses: seq<string>, norm: string -> string): map<string, Counter<string>> {
    map key | key in NormKeys(lenses, norm) :: Tally(Group(lenses, key, norm))
  }

  lemma GroupNonEmpty(lenses: seq<string>, key: string, norm: string -> string)
    requires key in NormKeys(lenses, norm)
    ensures Tally(Group(lenses, key, norm)) != []
  {
    var l :| l in lenses && norm(l) == key;
    GroupMembers(lenses, key, norm, l);
    TallyKeySet(Group(lenses, key, norm));
    assert l in Keys(Tally(Group(lenses, key, norm)));
  }

  /** `max(variations.items(), key=lambda x: x[1])[0]`. */
  function MostCommonVariant(c: Counter<string>): string
    requires c != []
  {
    c[FirstMaxIndex(c)].0
  }

  /** `lens_canonical_map`. */
  function CanonicalMap(lenses: seq<string>, norm: string -> string): map<string, string> {
    var variations := Variations(lenses, norm);
    map key | key in variations :: (GroupNonEmpty(lenses, key, norm); MostCommonVariant(variations[key]))
  }

  function Lookup<V>(m: map<string, seq<V>>, k: string): seq<V> {
    if k in m then m[k] else []
  }

  /** The spellings under one key after one more lens. */
  lemma VariationAt(lenses: seq<string>, x: string, k: string, norm: string -> string)
    requires k in NormKeys(lenses + [x], norm)
    ensures Variations(lenses + [x], norm)[k]
            == if k == norm(x) then Inc(Lookup(Variations(lenses, norm), k), x) else Variations(lenses, norm)[k]
  {
    var g := Group(lenses, k, norm);
    assert Variations(lenses + [x], norm)[k] == Tally(Group(lenses + [x], k, norm));
    GroupAppend(lenses, x, k, norm);
    if k == norm(x) {
      TallyAppend(g, x);
      if k in NormKeys(lenses, norm) {
        assert Lookup(Variations(lenses, norm), k) == Tally(g);
      } else {
        GroupEmpty(lenses, k, norm);
        assert Lookup(Variations(lenses, norm), k) == Tally(g);
      }
    } else {
      assert k in NormKeys(lenses, norm) by {
        var l :| l in lenses + [x] && norm(l) == k;
        assert l in lenses;
      }
      assert Group(lenses + [x], k, norm) == g;
    }
  }

  lemma NormKeysAppend(lenses: seq<string>, x: string, norm: string -> string)
    ensures NormKeys(lenses + [x], norm) == NormKeys(lenses, norm) + {norm(x)}
  {
    var ys := lenses + [x];
    forall l | l in ys ensures l in lenses || l == x {
      var i :| 0 <= i < |ys| && ys[i] == l;
      if i < |lenses| { assert ys[i] == lenses[i]; }
    }
  }

  lemma MapUpdated<V>(after: map<string, V>, before: map<string, V>, n: string, v: V)
    requires after.Keys == before.Keys + {n}
    requires forall k :: k in after ==> after[k] == if k == n then v else before[k]
    ensures after == before[n := v]
  {
  }

  /** One more lens spelling updates `lens_variations` at its key only. */
  lemma VariationsStep(lenses: seq<string>, x: string, norm: string -> string)
    ensures Variations(lenses + [x], norm)
            == Variations(lenses, norm)[norm(x) := Inc(Lookup(Variations(lenses, norm), norm(x)), x)]
  {
    var n := norm(x);
    var before := Variations(lenses, norm);
    var after := Variations(lenses + [x], norm);
    var v := Inc(Lookup(before, n), x);
    assert after.Keys == before.Keys + {n} by {
      NormKeysAppend(lenses, x, norm);
    }
    assert forall k :: k in after ==> after[k] == if k == n then v else before[k] by {
      forall k | k in after ensures after[k] == if k == n then v else before[k] {
        VariationAt(lenses, x, k, norm);
      }
    }
    MapUpdated(after, before, n, v);
  }

  /** One record of the first pass. */
  lemma FirstPassStep(results: seq<Record>, i: nat, norm: string -> string)
    requires i < |results|
    ensures var before := Variations(LensValues(results[..i]), norm);
            var r := results[i];
            Variations(LensValues(results[..i + 1]), norm)
            == if IsSet(r.lens, "") then
                 var n := norm(r.lens.value);
                 before[n := Inc(Lookup(before, n), r.lens.value)]
               else before
  {
    LensValuesStep(results, i);
    if IsSet(results[i].lens, "") {
      VariationsStep(LensValues(results[..i]), results[i].lens.value, norm);
    } else {
      assert LensValues(results[..i + 1]) == LensValues(results[..i]);
    }
  }

  /** The first pass of `generate_statistics`: count the spellings under each
      key, then keep the most common one. */
  method BuildCanonicalMap(results: seq<Record>, norm: string -> string) returns (canonical: map<string, string>)
    ensures canonical == CanonicalMap(LensValues(results), norm)
  {
    var variations: map<string, Counter<string>> := map[];
    var i := 0;
    assert LensValues(results[..0]) == [];
    assert Variations([], norm) == map[] by {
      assert NormKeys([], norm) == {};
    }
    while i < |results|
      invariant 0 <= i <= |results|
      invariant variations == Variations(LensValues(results[..i]), norm)
    {
      var data := results[i];
      FirstPassStep(results, i, norm);
      if IsSet(data.lens, "") {
        var normalized := norm(data.lens.value);
        var counts := if normalized in variations then variations[normalized] else [];
        variations := variations[normalized := Inc(counts, data.lens.value)];
      }
      i := i + 1;
    }
    assert results[..i] == results;
    ghost var lenses := LensValues(results);
    forall key | key in variations ensures variations[key] != [] {
      GroupNonEmpty(lenses, key, norm);
    }
    canonical := map key | key in variations :: MostCommonVariant(variations[key]);
    forall key | key in canonical ensures canonical[key] == CanonicalMap(lenses, norm)[key] {
    }
  }

  /** The canonical name of a key is one of its spellings, the most frequent one,
      and among equally frequent spellings the one seen first. */
  lemma CanonicalIsMostCommonVariant(lenses: seq<string>, key: string, norm: string -> string)
    requires key in NormKeys(lenses, norm)
    ensures var c := CanonicalMap(lenses, norm)[key];
            var g := Group(lenses, key, norm);
            && c in g
            && norm(c) == key
            && (forall v :: v in g ==> multiset(g)[v] <= multiset(g)[c])
            && (forall v :: v in g && multiset(g)[v] == multiset(g)[c] ==> FirstIndex(g, c) <= FirstIndex(g, v))
  {
    var g := Group(lenses, key, norm);
    var t := Tally(g);
    GroupNonEmpty(lenses, key, norm);
    var m := FirstMaxIndex(t);
    var c := t[m].0;
    assert CanonicalMap(lenses, norm)[key] == c;
    TallyKeyOrder(g);
    TallyKeySet(g);
    TallyValid(g);
    assert c == Keys(t)[m];
    GroupMembers(lenses, key, norm, c);
    GetAt(t, m);
    TallyCounts(g, c);
    forall v | v in g
      ensures multiset(g)[v] <= multiset(g)[c]
      ensures multiset(g)[v] == multiset(g)[c] ==> FirstIndex(g, c) <= FirstIndex(g, v)
    {
      assert v in Keys(t);
      var j :| 0 <= j < |t| && Keys(t)[j] == v;
      GetAt(t, j);
      TallyCounts(g, v);
      if j < m {
        assert t[j].1 < t[m].1;
      } else if m < j {
        assert FirstIndex(g, Keys(t)[m]) < FirstIndex(g, Keys(t)[j]);
      }
    }
  }

  /** Each canonical name is a spelling of its own key, so two keys never share a
      canonical name. */
  predicate OwnKeys(canon: map<string, string>, norm: string -> string) {
    forall k :: k in canon ==> norm(canon[k]) == k
  }

  lemma CanonicalOwnKeys(lenses: seq<string>, norm: string -> string)
    ensures OwnKeys(CanonicalMap(lenses, norm), norm)
  {
    forall k | k in CanonicalMap(lenses, norm) ensures norm(CanonicalMap(lenses, norm)[k]) == k {
      CanonicalIsMostCommonVariant(lenses, k, norm);
    }
  }

  /** Every truthy lens has its key in the canonical map: the lookup in the second
      pass cannot fail. */
  predicate Covers(canon: map<string, string>, rs: seq<Record>, norm: string -> string) {
    forall i :: 0 <= i < |rs| && IsSet(rs[i].lens, "") ==> norm(rs[i].lens.value) in canon
  }

  lemma CanonicalCovers(results: seq<Record>, norm: string -> string)
    ensures Covers(CanonicalMap(LensValues(results), norm), results, norm)
  {
    forall i | 0 <= i < |results| && IsSet(results[i].lens, "")
      ensures norm(results[i].lens.value) in CanonicalMap(LensValues(results), norm)
    {
      assert LensOf(results[i]) == Some(results[i].lens.value);
      PresentMembers(results, LensOf, "", results[i].lens.value);
    }
  }

  lemma CoversPrefix(canon: map<string, string>, rs: seq<Record>, n: nat, norm: string -> string)
    requires n <= |rs| && Covers(canon, rs, norm)
    ensures Covers(canon, rs[..n], norm)
  {
    assert forall i :: 0 <= i < n ==> rs[..n][i] == rs[i];
  }

  // ---- Second pass: the counters ----

  /** The canonical lens names of the records with a lens, in order. */
  function CanonicalLenses(canon: map<string, string>, rs: seq<Record>, norm: string -> string): seq<string>
    requires Covers(canon, rs, norm)
    decreases |rs|
  {
    if rs == [] then []
    else
      var r := rs[|rs| - 1];
      CoversPrefix(canon, rs, |rs| - 1, norm);
      CanonicalLenses(canon, rs[..|rs| - 1], norm)
      + (if IsSet(r.lens, "") then [canon[norm(r.lens.value)]] else [])
  }

  /** The truthy values of a field among the records whose canonical lens is `name`. */
  function PerLens(canon: map<string, string>, rs: seq<Record>, name: string,
                   get: Record -> Option<string>, norm: string -> string): seq<string>
    requires Covers(canon, rs, norm)
    decreases |rs|
  {
    if rs == [] then []
    else
      var r := rs[|rs| - 1];
      CoversPrefix(canon, rs, |rs| - 1, norm);
      PerLens(canon, rs[..|rs| - 1], name, get, norm)
      + (if IsSet(r.lens, "") && IsSet(get(r), "") && canon[norm(r.lens.value)] == name
         then [get(r).value] else [])
  }

  /** `apertures_by_lens` / `focal_lengths_by_lens` after the given records: the
      `defaultdict(Counter)` gains an entry for a canonical name the first time a
      record with that lens has a value of the field. */
  function ByLens(canon: map<string, string>, rs: seq<Record>, get: Record -> Option<string>,
                  norm: string -> string): map<string, Counter<string>>
    requires Covers(canon, rs, norm)
    decreases |rs|
  {
    if rs == [] then map[]
    else
      var r := rs[|rs| - 1];
      CoversPrefix(canon, rs, |rs| - 1, norm);
      var m := ByLens(canon, rs[..|rs| - 1], get, norm);
      if IsSet(r.lens, "") && IsSet(get(r), "") then
        var name := canon[norm(r.lens.value)];
        m[name := Inc(Lookup(m, name), get(r).value)]
      else m
  }

  /** Each per-lens counter counts the field's values among that lens's photos, and
      a lens has a counter exactly when it has at least one such value. */
  lemma {:induction false} ByLensCounts(canon: map<string, string>, rs: seq<Record>, name: string,
                                        get: Record -> Option<string>, norm: string -> string)
    requires Covers(canon, rs, norm)
    ensures Lookup(ByLens(canon, rs, get, norm), name) == Tally(PerLens(canon, rs, name, get, norm))
    ensures name in ByLens(canon, rs, get, norm) <==> PerLens(canon, rs, name, get, norm) != []
    decreases |rs|
  {
    if rs != [] {
      var p := rs[..|rs| - 1];
      var r := rs[|rs| - 1];
      CoversPrefix(canon, rs, |rs| - 1, norm);
      ByLensCounts(canon, p, name, get, norm);
      var before := PerLens(canon, p, name, get, norm);
      var m := ByLens(canon, p, get, norm);
      if IsSet(r.lens, "") && IsSet(get(r), "") {
        var n := canon[norm(r.lens.value)];
        assert ByLens(canon, rs, get, norm) == m[n := Inc(Lookup(m, n), get(r).value)];
        if n == name {
          assert PerLens(canon, rs, name, get, norm) == before + [get(r).value];
          TallyAppend(before, get(r).value);
        } else {
          assert PerLens(canon, rs, name, get, norm) == before;
        }
      } else {
        assert ByLens(canon, rs, get, norm) == m;
        assert PerLens(canon, rs, name, get, norm) == before;
      }
    }
  }

  /** The counters after the given records, with `total_photos` set to `total`. */
  function Counts(canon: map<string, string>, rs: seq<Record>, norm: string -> string, total: nat): Stats
    requires Covers(canon, rs, norm)
  {
    Stats(
      total,
      Tally(Present(rs, CameraOf, "")),
      Tally(CanonicalLenses(canon, rs, norm)),
      Tally(Present(rs, IsoOf, 0)),
      Tally(Present(rs, SpeedOf, "")),
      ByLens(canon, rs, ApertureOf, norm),
      Tally(Present(rs, ApertureOf, "")),
      ByLens(canon, rs, FocalOf, norm),
      Tally(Present(rs, FocalOf, "")))
  }

  /** What `generate_statistics(results)` returns. */
  function Statistics(results: seq<Record>): Stats {
    CanonicalCovers(results, NormalizeLensName);
    Counts(CanonicalMap(LensValues(results), NormalizeLensName), results, NormalizeLensName, |results|)
  }

  lemma CanonicalLensesStep(canon: map<string, string>, rs: seq<Record>, i: nat, norm: string -> string)
    requires i < |rs| && Covers(canon, rs, norm)
    ensures Covers(canon, rs[..i], norm) && Covers(canon, rs[..i + 1], norm)
    ensures Tally(CanonicalLenses(canon, rs[..i + 1], norm))
            == if IsSet(rs[i].lens, "") then Inc(Tally(CanonicalLenses(canon, rs[..i], norm)), canon[norm(rs[i].lens.value)])
               else Tally(CanonicalLenses(canon, rs[..i], norm))
  {
    CoversPrefix(canon, rs, i, norm);
    CoversPrefix(canon, rs, i + 1, norm);
    assert rs[..i + 1][..i] == rs[..i];
    var before := CanonicalLenses(canon, rs[..i], norm);
    if IsSet(rs[i].lens, "") {
      assert CanonicalLenses(canon, rs[..i + 1], norm) == before + [canon[norm(rs[i].lens.value)]];
      TallyAppend(before, canon[norm(rs[i].lens.value)]);
    } else {
      assert CanonicalLenses(canon, rs[..i + 1], norm) == before;
    }
  }

  lemma ByLensStep(canon: map<string, string>, rs: seq<Record>, i: nat, get: Record -> Option<string>,
                   norm: string -> string)
    requires i < |rs| && Covers(canon, rs, norm)
    ensures Covers(canon, rs[..i], norm) && Covers(canon, rs[..i + 1], norm)
    ensures ByLens(canon, rs[..i + 1], get, norm)
            == var m := ByLens(canon, rs[..i], get, norm);
               if IsSet(rs[i].lens, "") && IsSet(get(rs[i]), "") then
                 var name := canon[norm(rs[i].lens.value)];
                 m[name := Inc(Lookup(m, name), get(rs[i]).value)]
               else m
  {
    CoversPrefix(canon, rs, i, norm);
    CoversPrefix(canon, rs, i + 1, norm);
    assert rs[..i + 1][..i] == rs[..i];
  }

  /** One iteration of the second pass: the record `results[i]` added to every
      counter it belongs to. */
  method CountRecord(stats: Stats, results: seq<Record>, i: nat, canonical: map<string, string>,
                     norm: string -> string)
    returns (next: Stats)
    requires i < |results| && Covers(canonical, results, norm)
    requires Covers(canonical, results[..i], norm)
    requires stats == Counts(canonical, results[..i], norm, stats.totalPhotos)
    ensures Covers(canonical, results[..i + 1], norm)
    ensures next == Counts(canonical, results[..i + 1], norm, stats.totalPhotos)
  {
    var data := results[i];
    CoversPrefix(canonical, results, i + 1, norm);
    var cameras, lenses, isoValues, shutterSpeeds := stats.cameras, stats.lenses, stats.isoValues, stats.shutterSpeeds;
    var aperturesByLens, apertures := stats.aperturesByLens, stats.apertures;
    var focalLengthsByLens, focalLengths := stats.focalLengthsByLens, stats.focalLengths;
    if IsSet(data.camera, "") {
      cameras := Inc(cameras, data.camera.value);
    }
    assert cameras == Tally(Present(results[..i + 1], CameraOf, "")) by {
      TallyPresentStep(results, i, CameraOf, "");
    }
    if IsSet(data.lens, "") {
      lenses := Inc(lenses, canonical[norm(data.lens.value)]);
    }
    assert lenses == Tally(CanonicalLenses(canonical, results[..i + 1], norm)) by {
      CanonicalLensesStep(canonical, results, i, norm);
    }
    if IsSet(data.iso, 0) {
      isoValues := Inc(isoValues, data.iso.value);
    }
    assert isoValues == Tally(Present(results[..i + 1], IsoOf, 0)) by {
      TallyPresentStep(results, i, IsoOf, 0);
    }
    if IsSet(data.speed, "") {
      shutterSpeeds := Inc(shutterSpeeds, data.speed.value);
    }
    assert shutterSpeeds == Tally(Present(results[..i + 1], SpeedOf, "")) by {
      TallyPresentStep(results, i, SpeedOf, "");
    }
    if IsSet(data.aperture, "") {
      apertures := Inc(apertures, data.aperture.value);
    }
    assert apertures == Tally(Present(results[..i + 1], ApertureOf, "")) by {
      TallyPresentStep(results, i, ApertureOf, "");
    }
    if IsSet(data.lens, "") && IsSet(data.aperture, "") {
      var name := canonical[norm(data.lens.value)];
      aperturesByLens := aperturesByLens[name := Inc(Lookup(aperturesByLens, name), data.aperture.value)];
    }
    assert aperturesByLens == ByLens(canonical, results[..i + 1], ApertureOf, norm) by {
      ByLensStep(canonical, results, i, ApertureOf, norm);
    }
    if IsSet(data.focalLength, "") {
      focalLengths := Inc(focalLengths, data.focalLength.value);
    }
    assert focalLengths == Tally(Present(results[..i + 1], FocalOf, "")) by {
      TallyPresentStep(results, i, FocalOf, "");
    }
    if IsSet(data.lens, "") && IsSet(data.focalLength, "") {
      var name := canonical[norm(data.lens.value)];
      focalLengthsByLens := focalLengthsByLens[name := Inc(Lookup(focalLengthsByLens, name), data.focalLength.value)];
    }
    assert focalLengthsByLens == ByLens(canonical, results[..i + 1], FocalOf, norm) by {
      ByLensStep(canonical, results, i, FocalOf, norm);
    }
    next := Stats(stats.totalPhotos, cameras, lenses, isoValues, shutterSpeeds,
                  aperturesByLens, apertures, focalLengthsByLens, focalLengths);
  }

  /** The second pass of `generate_statistics`: one counter per field, and the
      per-lens counters under the canonical names. */
  method CountAll(results: seq<Record>, canonical: map<string, string>, norm: string -> string)
    returns (stats: Stats)
    requires Covers(canonical, results, norm)
    ensures stats == Counts(canonical, results, norm, |results|)
  {
    stats := Stats(|results|, [], [], [], [], map[], [], map[], []);
    var i := 0;
    assert results[..0] == [];
    while i < |results|
      invariant 0 <= i <= |results|
      invariant Covers(canonical, results[..i], norm)
      invariant stats == Counts(canonical, results[..i], norm, |results|)
    {
      stats := CountRecord(stats, results, i, canonical, norm);
      i := i + 1;
    }
    assert results[..i] == results;
  }

  /** `generate_statistics`: both passes, grouping lenses by `normalize_lens_name`. */
  method GenerateStatistics(results: seq<Record>) returns (stats: Stats)
    ensures stats == Statistics(results)
  {
    var canonical := BuildCanonicalMap(results, NormalizeLensName);
    CanonicalCovers(results, NormalizeLensName);
    stats := CountAll(results, canonical, NormalizeLensName);
  }

  // ---- What the counters mean ----

  /** Each photo with a lens is counted once, under the canonical name of its key:
      the count of a canonical name is the number of photos whose lens has that key,
      whatever its spelling. */
  lemma {:induction false} CanonicalLensesCount(canon: map<string, string>, rs: seq<Record>,
                                                norm: string -> string, key: string)
    requires Covers(canon, rs, norm) && OwnKeys(canon, norm) && key in canon
    ensures multiset(CanonicalLenses(canon, rs, norm))[canon[key]] == |Group(LensValues(rs), key, norm)|
    decreases |rs|
  {
    if rs != [] {
      var i := |rs| - 1;
      var r := rs[i];
      CoversPrefix(canon, rs, i, norm);
      CanonicalLensesCount(canon, rs[..i], norm, key);
      LensValuesStep(rs, i);
      assert rs[..i + 1] == rs;
      var before := CanonicalLenses(canon, rs[..i], norm);
      if IsSet(r.lens, "") {
        var l := r.lens.value;
        GroupAppend(LensValues(rs[..i]), l, key, norm);
        assert CanonicalLenses(canon, rs, norm) == before + [canon[norm(l)]];
        assert canon[norm(l)] == canon[key] <==> norm(l) == key by {
          assert norm(canon[norm(l)]) == norm(l);
          assert norm(canon[key]) == key;
        }
      } else {
        assert CanonicalLenses(canon, rs, norm) == before;
        assert LensValues(rs) == LensValues(rs[..i]);
      }
    }
  }

  /** A lens's photos with a value of the field are among that lens's photos. */
  lemma {:induction false} PerLensWithinLens(canon: map<string, string>, rs: seq<Record>, name: string,
                                             get: Record -> Option<string>, norm: string -> string)
    requires Covers(canon, rs, norm)
    ensures |PerLens(canon, rs, name, get, norm)| <= multiset(CanonicalLenses(canon, rs, norm))[name]
    decreases |rs|
  {
    if rs != [] {
      CoversPrefix(canon, rs, |rs| - 1, norm);
      PerLensWithinLens(canon, rs[..|rs| - 1], name, get, norm);
    }
  }

  /** Each field's counter counts at most one value per photo, so every
      `count / total_photos * 100` lies between 0 and 100. */
  lemma {:induction false} FieldCountBounded<T>(rs: seq<Record>, get: Record -> Option<T>, zero: T, v: T)
    ensures Get(Tally(Present(rs, get, zero)), v) <= Total(Tally(Present(rs, get, zero))) <= |rs|
  {
    PresentMembers(rs, get, zero, v);
    TallyTotal(Present(rs, get, zero));
    GetAtMostTotal(Tally(Present(rs, get, zero)), v);
  }

  lemma StatisticsBounded(results: seq<Record>, v: string, iso: nat)
    ensures var s := Statistics(results);
            && s.totalPhotos == |results|
            && Get(s.cameras, v) <= s.totalPhotos
            && Get(s.lenses, v) <= Total(s.lenses) <= s.totalPhotos
            && Get(s.isoValues, iso) <= s.totalPhotos
            && Get(s.shutterSpeeds, v) <= s.totalPhotos
            && Get(s.apertures, v) <= s.totalPhotos
            && Get(s.focalLengths, v) <= s.totalPhotos
  {
    var s := Statistics(results);
    var canon := CanonicalMap(LensValues(results), NormalizeLensName);
    CanonicalCovers(results, NormalizeLensName);
    FieldCountBounded(results, CameraOf, "", v);
    FieldCountBounded(results, IsoOf, 0, iso);
    FieldCountBounded(results, SpeedOf, "", v);
    FieldCountBounded(results, ApertureOf, "", v);
    FieldCountBounded(results, FocalOf, "", v);
    var cl := CanonicalLenses(canon, results, NormalizeLensName);
    CanonicalLensesLength(canon, results, NormalizeLensName);
    PresentMembers(results, LensOf, "", v);
    TallyTotal(cl);
    GetAtMostTotal(Tally(cl), v);
  }

  lemma {:induction false} CanonicalLensesLength(canon: map<string, string>, rs: seq<Record>, norm: string -> string)
    requires Covers(canon, rs, norm)
    ensures |CanonicalLenses(canon, rs, norm)| == |LensValues(rs)|
    decreases |rs|
  {
    if rs != [] {
      var i := |rs| - 1;
      CoversPrefix(canon, rs, i, norm);
      CanonicalLensesLength(canon, rs[..i], norm);
      LensValuesStep(rs, i);
      assert rs[..i + 1] == rs;
    }
  }

  /** `stats['lenses']`: the spellings of one lens are merged, so the count under
      a canonical name is the number of photos whose lens normalises to its key,
      and all lens counts add up to the number of photos with a lens. */
  lemma LensesMerged(results: seq<Record>, key: string)
    requires key in CanonicalMap(LensValues(results), NormalizeLensName)
    ensures var s := Statistics(results);
            var canon := CanonicalMap(LensValues(results), NormalizeLensName);
            && Get(s.lenses, canon[key]) == |Group(LensValues(results), key, NormalizeLensName)|
            && Total(s.lenses) == |LensValues(results)|
  {
    var canon := CanonicalMap(LensValues(results), NormalizeLensName);
    CanonicalCovers(results, NormalizeLensName);
    CanonicalOwnKeys(LensValues(results), NormalizeLensName);
    CanonicalLensesCount(canon, results, NormalizeLensName, key);
    CanonicalLensesLength(canon, results, NormalizeLensName);
    var cl := CanonicalLenses(canon, results, NormalizeLensName);
    TallyCounts(cl, canon[key]);
    TallyTotal(cl);
  }

  /** The per-lens tables count at least one photo and at most the lens's own
      count, which makes `count / stats['lenses'][lens] * 100` a percentage
      between 0 and 100. */
  lemma PerLensTables(results: seq<Record>, name: string, v: string)
    ensures var s := Statistics(results);
            && (name in s.aperturesByLens ==>
                  && Get(s.aperturesByLens[name], v) <= Total(s.aperturesByLens[name])
                  && 1 <= Total(s.aperturesByLens[name]) <= Get(s.lenses, name))
            && (name in s.focalLengthsByLens ==>
                  && Get(s.focalLengthsByLens[name], v) <= Total(s.focalLengthsByLens[name])
                  && 1 <= Total(s.focalLengthsByLens[name]) <= Get(s.lenses, name))
  {
    var canon := CanonicalMap(LensValues(results), NormalizeLensName);
    CanonicalCovers(results, NormalizeLensName);
    PerLensTable(canon, results, name, ApertureOf, NormalizeLensName, v);
    PerLensTable(canon, results, name, FocalOf, NormalizeLensName, v);
  }

  /** A lens has a table for a field exactly when one of its photos has a value of
      the field; the table counts those photos. */
  lemma PerLensTable(canon: map<string, string>, rs: seq<Record>, name: string,
                     get: Record -> Option<string>, norm: string -> string, v: string)
    requires Covers(canon, rs, norm)
    ensures var m := ByLens(canon, rs, get, norm);
            && (name in m <==> PerLens(canon, rs, name, get, norm) != [])
            && (name in m ==>
                  && Get(m[name], v) <= Total(m[name])
                  && 1 <= Total(m[name]) <= Get(Tally(CanonicalLenses(canon, rs, norm)), name))
  {
    ByLensCounts(canon, rs, name, get, norm);
    var pl := PerLens(canon, rs, name, get, norm);
    PerLensWithinLens(canon, rs, name, get, norm);
    TallyTotal(pl);
    GetAtMostTotal(Tally(pl), v);
    TallyCounts(CanonicalLenses(canon, rs, norm), name);
  }
}

/** The majority rule on a batch of four photos of one lens. */
module CanonicalExamples {
  import opened Strings
  import opened Counting
  import opened LensName
  import opened ExifParser
  import opened Statistics

  /** Three words between blank padding, separated by whitespace runs, normalise
      to their lower-case forms joined by single spaces. */
  lemma ThreeWordsKey(pre: string, w0: string, g0: string, w1: string, g1: string, w2: string, suf: string)
    requires IsBlank(pre) && IsBlank(suf) && IsGap(g0) && IsGap(g1)
    requires IsWord(w0) && IsWord(w1) && IsWord(w2)
    ensures NormalizeLensName(pre + w0 + g0 + w1 + g1 + w2 + suf)
            == Lower(w0) + " " + Lower(w1) + " " + Lower(w2)
  {
    InterleaveThree(pre, w0, g0, w1, g1, w2, suf);
    JoinThree(w0, w1, w2);
    NormalizeWords(pre, [w0, w1, w2], [g0, g1], suf);
  }

  lemma InterleaveThree(pre: string, w0: string, g0: string, w1: string, g1: string, w2: string, suf: string)
    ensures pre + Interleave([w0, w1, w2], [g0, g1]) + suf == pre + w0 + g0 + w1 + g1 + w2 + suf
  {
    var words, gaps := [w0, w1, w2], [g0, g1];
    assert Interleave(words[2..], gaps[2..]) == w2;
    assert Interleave(words[1..], gaps[1..]) == w1 + g1 + w2;
  }

  lemma JoinThree(w0: string, w1: string, w2: string)
    ensures Join(LowerAll([w0, w1, w2]), ' ') == Lower(w0) + " " + Lower(w1) + " " + Lower(w2)
  {
    var lw := LowerAll([w0, w1, w2]);
    assert lw[1..][1..] == [Lower(w2)];
    assert Join(lw[1..], ' ') == Lower(w1) + " " + Lower(w2);
  }

  /** The words of the lens name in lower case. */
  lemma LensWordsLower()
    ensures Lower("Canon") == "canon" && Lower("RF") == "rf" && Lower("50mm") == "50mm"
    ensures Lower("canon") == "canon" && Lower("rf") == "rf"
  {
    assert Lower("Canon") == "canon";
    assert Lower("RF") == "rf";
  }

  /** The key of "Canon RF 50mm" is "canon rf 50mm". */
  lemma CapitalisedKey()
    ensures NormalizeLensName("Canon RF 50mm") == "canon rf 50mm"
  {
    assert "Canon RF 50mm" == [] + "Canon" + " " + "RF" + " " + "50mm" + [];
    assert "canon" + " " + "rf" + " " + "50mm" == "canon rf 50mm";
    LensWordsLower();
    ThreeWordsKey([], "Canon", " ", "RF", " ", "50mm", []);
  }

  /** "canon rf 50mm" is its own key. */
  lemma LowerCaseKey()
    ensures NormalizeLensName("canon rf 50mm") == "canon rf 50mm"
  {
    assert "canon rf 50mm" == [] + "canon" + " " + "rf" + " " + "50mm" + [];
    assert "canon" + " " + "rf" + " " + "50mm" == "canon rf 50mm";
    LensWordsLower();
    ThreeWordsKey([], "canon", " ", "rf", " ", "50mm", []);
  }

  /** A tab, a doubled space, padding and capitals do not change the key. */
  lemma TabAndCaseVariant()
    ensures NormalizeLensName(" Canon\tRF  50mm\n") == "canon rf 50mm"
  {
    assert " Canon\tRF  50mm\n" == " " + "Canon" + "\t" + "RF" + "  " + "50mm" + "\n";
    assert "canon" + " " + "rf" + " " + "50mm" == "canon rf 50mm";
    LensWordsLower();
    ThreeWordsKey(" ", "Canon", "\t", "RF", "  ", "50mm", "\n");
  }

  function Photo(name: string, lens: string): Record {
    Record(name, None, Some(lens), None, None, None, None)
  }

  lemma {:induction false} GroupOfOneKey(lenses: seq<string>, key: string, norm: string -> string)
    requires forall i :: 0 <= i < |lenses| ==> norm(lenses[i]) == key
    ensures Group(lenses, key, norm) == lenses
    decreases |lenses|
  {
    if lenses != [] {
      GroupOfOneKey(lenses[..|lenses| - 1], key, norm);
      assert lenses[..|lenses| - 1] + [lenses[|lenses| - 1]] == lenses;
    }
  }

  lemma {:induction false} LensValuesAllSet(results: seq<Record>)
    requires forall i :: 0 <= i < |results| ==> results[i].lens.Some? && results[i].lens.value != ""
    ensures |LensValues(results)| == |results|
    ensures forall i :: 0 <= i < |results| ==> LensValues(results)[i] == results[i].lens.value
    decreases |results|
  {
    if results != [] {
      LensValuesAllSet(results[..|results| - 1]);
    }
  }

  /** Three photos with one spelling and one with another of the same key: the
      majority spelling names the key. */
  lemma MajorityRule(big: string, small: string, norm: string -> string)
    requires big != small && norm(big) == norm(small)
    ensures var lenses := [big, big, big, small];
            && NormKeys(lenses, norm) == {norm(small)}
            && CanonicalMap(lenses, norm) == map[norm(small) := big]
  {
    MajorityKeys(big, small, norm);
    MajorityLabel(big, small, norm);
    SingletonMap(CanonicalMap([big, big, big, small], norm), norm(small), big);
  }

  lemma SingletonMap(m: map<string, string>, k: string, v: string)
    requires m.Keys == {k} && m[k] == v
    ensures m == map[k := v]
  {
  }

  lemma MajorityKeys(big: string, small: string, norm: string -> string)
    requires norm(big) == norm(small)
    ensures NormKeys([big, big, big, small], norm) == {norm(small)}
    ensures CanonicalMap([big, big, big, small], norm).Keys == {norm(small)}
  {
    var lenses := [big, big, big, small];
    var key := norm(small);
    assert NormKeys(lenses, norm) == {key} by {
      assert small in lenses;
      forall l | l in lenses ensures norm(l) == key {
      }
    }
    assert Variations(lenses, norm).Keys == NormKeys(lenses, norm);
  }

  lemma MajorityLabel(big: string, small: string, norm: string -> string)
    requires big != small && norm(big) == norm(small)
    ensures norm(small) in CanonicalMap([big, big, big, small], norm)
    ensures CanonicalMap([big, big, big, small], norm)[norm(small)] == big
    ensures |Group([big, big, big, small], norm(small), norm)| == 4
  {
    var lenses := [big, big, big, small];
    var key := norm(small);
    MajorityGroup(big, small, norm);
    var c := CanonicalMap(lenses, norm)[key];
    assert c in lenses && multiset(lenses)[big] <= multiset(lenses)[c] by {
      assert big in lenses;
      CanonicalIsMostCommonVariant(lenses, key, norm);
    }
    MajorityCounts(big, small);
  }

  lemma MajorityGroup(big: string, small: string, norm: string -> string)
    requires norm(big) == norm(small)
    ensures norm(small) in NormKeys([big, big, big, small], norm)
    ensures Group([big, big, big, small], norm(small), norm) == [big, big, big, small]
  {
    var lenses := [big, big, big, small];
    assert lenses[3] == small;
    GroupOfOneKey(lenses, norm(small), norm);
  }

  lemma MajorityCounts(big: string, small: string)
    requires big != small
    ensures multiset([big, big, big, small])[big] == 3
    ensures multiset([big, big, big, small])[small] == 1
  {
    assert multiset([big, big, big, small]) == multiset{big, big, big, small};
  }

  /** Three photos spell the lens "Canon RF 50mm" and one "canon rf 50mm": the
      spellings share the key "canon rf 50mm", and the majority spelling becomes
      its canonical name. */
  lemma MajoritySpelling()
    ensures var lenses := ["Canon RF 50mm", "Canon RF 50mm", "Canon RF 50mm", "canon rf 50mm"];
            && NormKeys(lenses, NormalizeLensName) == {"canon rf 50mm"}
            && CanonicalMap(lenses, NormalizeLensName) == map["canon rf 50mm" := "Canon RF 50mm"]
  {
    CapitalisedKey();
    LowerCaseKey();
    MajorityRule("Canon RF 50mm", "canon rf 50mm", NormalizeLensName);
  }

  /** Four photos whose lenses are three of one spelling and one of another
      with the same key: the lens table counts all four under the majority one. */
  lemma MajorityTable(results: seq<Record>, big: string, small: string)
    requires LensValues(results) == [big, big, big, small]
    requires big != small && NormalizeLensName(big) == NormalizeLensName(small)
    ensures Get(Statistics.Statistics(results).lenses, big) == 4
  {
    var lenses := [big, big, big, small];
    var key := NormalizeLensName(small);
    MajorityLabel(big, small, NormalizeLensName);
    LensesMerged(results, key);
  }

  /** The same four photos as records: the lens table counts all four under the
      majority spelling. */
  lemma MajorityCounted()
    ensures var results := [Photo("a.CR3", "Canon RF 50mm"), Photo("b.CR3", "Canon RF 50mm"),
                            Photo("c.CR3", "Canon RF 50mm"), Photo("d.CR3", "canon rf 50mm")];
            Get(Statistics.Statistics(results).lenses, "Canon RF 50mm") == 4
  {
    var big, small := "Canon RF 50mm", "canon rf 50mm";
    var results := [Photo("a.CR3", big), Photo("b.CR3", big), Photo("c.CR3", big), Photo("d.CR3", small)];
    assert LensValues(results) == [big, big, big, small] by {
      LensValuesAllSet(results);
    }
    assert NormalizeLensName(big) == NormalizeLensName(small) by {
      CapitalisedKey();
      LowerCaseKey();
    }
    MajorityTable(results, big, small);
  }
}
