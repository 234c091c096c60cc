/** The tables `display_statistics` prints: which rows each table shows, in which
    order, and the share each row's count is of its denominator, or the exception
    the ranking or the division raises. The headings and the text layout are not
    modelled. */
module Display {
  import opened Strings
  import opened Numbers
  import opened Counting
  import opened Ranking
  import opened ExifParser
  import opened LensName
  import opened Statistics

  /** `(count / denom) * 100`; `None` stands for the `ZeroDivisionError` of a zero
      denominator. */
  function Percentage(count: nat, denom: nat): (r: Option<real>)
    ensures r.None? <==> denom == 0
    ensures r.Some? ==> r.value * denom as real == 100.0 * count as real
    ensures r.Some? ==> 0.0 <= r.value && (count <= denom ==> r.value <= 100.0)
  {
    if denom == 0 then None
    else
      var p := count as real / denom as real * 100.0;
      assert p * denom as real == 100.0 * count as real;
      Some(p)
  }

  /** One printed line of a table. */
  datatype Row<K> = Row(item: K, count: nat, percent: real)

  /** The lines of a ranked table over the denominator `denom`: the loop divides
      once per row, so only a non-empty table can raise. */
  function Rows<K>(ranked: seq<(K, nat)>, denom: nat): (r: Option<seq<Row<K>>>)
    ensures r.None? <==> ranked != [] && denom == 0
    ensures r.Some? ==> |r.value| == |ranked|
    ensures r.Some? ==> forall i :: 0 <= i < |ranked| ==>
              && r.value[i].item == ranked[i].0 && r.value[i].count == ranked[i].1
              && Percentage(ranked[i].1, denom) == Some(r.value[i].percent)
  {
    if ranked == [] then Some([])
    else if denom == 0 then None
    else Some(seq(|ranked|, i requires 0 <= i < |ranked| =>
                Row(ranked[i].0, ranked[i].1, Percentage(ranked[i].1, denom).value)))
  }

  /** Every printed percentage lies between 0 and 100. */
  ghost predicate Shares<K>(rows: seq<Row<K>>) {
    forall i :: 0 <= i < |rows| ==> 0.0 <= rows[i].percent <= 100.0
  }

  /** An aperture or focal-length table: ranked by the label's number, which
      raises `ValueError` on a label whose number `float()` rejects. */
  function LabelRows(c: Counter<string>, denom: nat): Option<seq<Row<string>>> {
    match RankLabels(c)
    case None => None
    case Some(ranked) => Rows(ranked, denom)
  }

  /** The per-lens tables, each over `stats['lenses'][lens]`, which is 0 for a
      name the lens counter lacks. */
  function PerLensRows(tables: map<string, Counter<string>>, lenses: Counter<string>)
    : Option<map<string, seq<Row<string>>>>
  {
    if forall lens | lens in tables :: LabelRows(tables[lens], Get(lenses, lens)).Some? then
      Some(map lens | lens in tables :: LabelRows(tables[lens], Get(lenses, lens)).value)
    else None
  }

  /** The printed tables. The per-lens sections are a map from canonical lens name
      to that lens's rows. */
  datatype Report = Report(
    totalPhotos: nat,
    cameras: seq<Row<string>>,
    lenses: seq<Row<string>>,
    aperturesByLens: map<string, seq<Row<string>>>,
    focalLengthsByLens: map<string, seq<Row<string>>>,
    iso: seq<Row<nat>>,
    shutterSpeeds: seq<Row<string>>,
    apertures: seq<Row<string>>,
    focalLengths: seq<Row<string>>)

  /** Every percentage of every printed table lies between 0 and 100. */
  ghost predicate AllShares(rep: Report) {
    && Shares(rep.cameras) && Shares(rep.lenses) && Shares(rep.iso)
    && Shares(rep.shutterSpeeds) && Shares(rep.apertures) && Shares(rep.focalLengths)
    && (forall lens | lens in rep.aperturesByLens :: Shares(rep.aperturesByLens[lens]))
    && (forall lens | lens in rep.focalLengthsByLens :: Shares(rep.focalLengthsByLens[lens]))
  }

  /** Either every table is printed, or a key function or a division raises. */
  datatype Outcome = Shown(report: Report) | Raises

  /** `display_statistics(stats)`: cameras and lenses by `most_common(10)`, then
      the per-lens aperture and focal-length tables, then ISO, shutter speed,
      aperture and focal length, each over `total_photos` except the per-lens
      tables. */
  function Show(s: Stats): Outcome {
    var cameras := Rows(MostCommon(s.cameras, 10), s.totalPhotos);
    var lenses := Rows(MostCommon(s.lenses, 10), s.totalPhotos);
    var aperturesByLens := PerLensRows(s.aperturesByLens, s.lenses);
    var focalLengthsByLens := PerLensRows(s.focalLengthsByLens, s.lenses);
    var iso := Rows(RankIso(s.isoValues), s.totalPhotos);
    var speeds := Rows(RankSpeeds(s.shutterSpeeds), s.totalPhotos);
    var apertures := LabelRows(s.apertures, s.totalPhotos);
    var focalLengths := LabelRows(s.focalLengths, s.totalPhotos);
    if && cameras.Some? && lenses.Some? && aperturesByLens.Some? && focalLengthsByLens.Some?
       && iso.Some? && speeds.Some? && apertures.Some? && focalLengths.Some?
    then
      Shown(Report(s.totalPhotos, cameras.value, lenses.value, aperturesByLens.value,
                   focalLengthsByLens.value, iso.value, speeds.value, apertures.value,
                   focalLengths.value))
    else Raises
  }

  /** Some label of the counter has a number `float()` rejects. */
  ghost predicate BadLabel(c: Counter<string>) {
    exists i :: 0 <= i < |c| && LabelKey(c[i].0).None?
  }

  /** Rows whose counts are at least 1 and at most the denominator never divide
      by zero and print shares between 0 and 100. */
  lemma RowsShare<K>(ranked: seq<(K, nat)>, denom: nat)
    requires forall i :: 0 <= i < |ranked| ==> 1 <= ranked[i].1 <= denom
    ensures Rows(ranked, denom).Some? && Shares(Rows(ranked, denom).value)
  {
    if ranked != [] {
      assert 1 <= ranked[0].1 <= denom;
    }
  }

  /** A ranked table keeps rows of the counter, so in a counter whose counts are
      positive and add up to no more than `denom` each row's count lies between 1
      and `denom`. */
  lemma RankedCounts<K>(c: Counter<K>, key: K -> SortKey, n: nat, denom: nat)
    requires Valid(c) && Total(c) <= denom
    ensures forall i :: 0 <= i < |RankTable(c, key, n)| ==> 1 <= RankTable(c, key, n)[i].1 <= denom
  {
    var r := RankTable(c, key, n);
    assert forall i :: 0 <= i < |r| ==> r[i] in c by {
      RankTableSpec(c, key, n);
    }
    forall i | 0 <= i < |r| ensures 1 <= r[i].1 <= denom {
      var m :| 0 <= m < |c| && c[m] == r[i];
      CountAtMostTotal(c, m);
    }
  }

  /** Every count of a counter is at least 1 and at most its total, so a ranked
      table over a denominator no smaller than the total never divides by zero
      and prints shares between 0 and 100. */
  lemma RankedRowsShare<K>(c: Counter<K>, key: K -> SortKey, n: nat, denom: nat)
    requires Valid(c) && Total(c) <= denom
    ensures var rows := Rows(RankTable(c, key, n), denom);
            rows.Some? && Shares(rows.value)
  {
    RankedCounts(c, key, n, denom);
    RowsShare(RankTable(c, key, n), denom);
  }

  /** A label table never raises `ZeroDivisionError` under the same conditions;
      it raises exactly when some label has a bad number. */
  lemma LabelRowsShare(c: Counter<string>, denom: nat)
    requires Valid(c) && Total(c) <= denom
    ensures LabelRows(c, denom).None? <==> BadLabel(c)
    ensures LabelRows(c, denom).Some? ==> Shares(LabelRows(c, denom).value)
  {
    if !BadLabel(c) {
      RankedRowsShare(c, LabelKeyOrZero, 10, denom);
    }
  }

  /** A counter of a sequence has a bad label exactly when the sequence holds one. */
  lemma BadLabelTally(xs: seq<string>)
    ensures BadLabel(Tally(xs)) <==> exists v :: v in xs && LabelKey(v).None?
  {
    TallyKeySet(xs);
    var c := Tally(xs);
    if exists v :: v in xs && LabelKey(v).None? {
      var v :| v in xs && LabelKey(v).None?;
      assert v in Keys(c);
      var i :| 0 <= i < |c| && Keys(c)[i] == v;
      assert LabelKey(c[i].0).None?;
    }
    if BadLabel(c) {
      var i :| 0 <= i < |c| && LabelKey(c[i].0).None?;
      assert Keys(c)[i] in Keys(c);
    }
  }

  /** The field values of one lens's photos are field values of the batch. */
  lemma {:induction false} PerLensInPresent(canon: map<string, string>, rs: seq<Record>, name: string,
                                            get: Record -> Option<string>, norm: string -> string, v: string)
    requires Covers(canon, rs, norm)
    requires v in PerLens(canon, rs, name, get, norm)
    ensures v in Present(rs, get, "")
    decreases |rs|
  {
    var p := rs[..|rs| - 1];
    var r := rs[|rs| - 1];
    CoversPrefix(canon, rs, |rs| - 1, norm);
    if v !in PerLens(canon, p, name, get, norm) {
      assert IsSet(get(r), "") && v == get(r).value;
    } else {
      PerLensInPresent(canon, p, name, get, norm, v);
    }
  }

  /** Each key once with a positive count, and the counts add up to no more than
      the denominator the display divides by. */
  ghost predicate Within<K>(c: Counter<K>, denom: nat) {
    Valid(c) && Total(c) <= denom
  }

  /** Every per-lens table counts at most its lens's photos, and its labels are
      labels of the overall table. */
  ghost predicate PerLensWithin(tables: map<string, Counter<string>>, lenses: Counter<string>,
                                overall: Counter<string>) {
    forall lens | lens in tables ::
      Within(tables[lens], Get(lenses, lens)) && (BadLabel(tables[lens]) ==> BadLabel(overall))
  }

  /** What `generate_statistics` guarantees `display_statistics`. */
  ghost predicate Consistent(s: Stats) {
    && Within(s.cameras, s.totalPhotos) && Within(s.lenses, s.totalPhotos)
    && Within(s.isoValues, s.totalPhotos) && Within(s.shutterSpeeds, s.totalPhotos)
    && Within(s.apertures, s.totalPhotos) && Within(s.focalLengths, s.totalPhotos)
    && PerLensWithin(s.aperturesByLens, s.lenses, s.apertures)
    && PerLensWithin(s.focalLengthsByLens, s.lenses, s.focalLengths)
  }

  /** The per-lens tables of one field raise only when the overall table of the
      field has a bad label, and otherwise print shares between 0 and 100. */
  lemma PerLensRowsShare(tables: map<string, Counter<string>>, lenses: Counter<string>,
                         overall: Counter<string>)
    requires PerLensWithin(tables, lenses, overall)
    ensures var rows := PerLensRows(tables, lenses);
            && (rows.None? ==> BadLabel(overall))
            && (rows.Some? ==> forall lens | lens in rows.value :: Shares(rows.value[lens]))
  {
    forall lens | lens in tables {
      LabelRowsShare(tables[lens], Get(lenses, lens));
    }
  }

  /** The display of consistent statistics never divides by zero, prints every
      percentage between 0 and 100, and raises exactly when an aperture or
      focal-length label has a number `float()` rejects. */
  lemma ShowConsistent(s: Stats)
    requires Consistent(s)
    ensures Show(s).Raises? <==> BadLabel(s.apertures) || BadLabel(s.focalLengths)
    ensures Show(s).Shown? ==>
              Show(s).report.totalPhotos == s.totalPhotos && AllShares(Show(s).report)
  {
    var n := s.totalPhotos;
    var cameras := Rows(MostCommon(s.cameras, 10), n);
    var lenses := Rows(MostCommon(s.lenses, 10), n);
    var iso := Rows(RankIso(s.isoValues), n);
    var speeds := Rows(RankSpeeds(s.shutterSpeeds), n);
    var apertures := LabelRows(s.apertures, n);
    var focalLengths := LabelRows(s.focalLengths, n);
    var aperturesByLens := PerLensRows(s.aperturesByLens, s.lenses);
    var focalLengthsByLens := PerLensRows(s.focalLengthsByLens, s.lenses);
    assert cameras.Some? && Shares(cameras.value) by {
      RankedRowsShare(s.cameras, _ => Finite(0.0), 10, n);
    }
    assert lenses.Some? && Shares(lenses.value) by {
      RankedRowsShare(s.lenses, _ => Finite(0.0), 10, n);
    }
    assert iso.Some? && Shares(iso.value) by {
      RankedRowsShare(s.isoValues, IsoKey, 10, n);
    }
    assert speeds.Some? && Shares(speeds.value) by {
      RankedRowsShare(s.shutterSpeeds, SpeedKey, 10, n);
    }
    assert (apertures.None? <==> BadLabel(s.apertures)) && (apertures.Some? ==> Shares(apertures.value)) by {
      LabelRowsShare(s.apertures, n);
    }
    assert (focalLengths.None? <==> BadLabel(s.focalLengths))
           && (focalLengths.Some? ==> Shares(focalLengths.value)) by {
      LabelRowsShare(s.focalLengths, n);
    }
    assert && (aperturesByLens.None? ==> BadLabel(s.apertures))
           && (aperturesByLens.Some? ==> forall lens | lens in aperturesByLens.value :: Shares(aperturesByLens.value[lens])) by {
      PerLensRowsShare(s.aperturesByLens, s.lenses, s.apertures);
    }
    assert && (focalLengthsByLens.None? ==> BadLabel(s.focalLengths))
           && (focalLengthsByLens.Some? ==> forall lens | lens in focalLengthsByLens.value :: Shares(focalLengthsByLens.value[lens])) by {
      PerLensRowsShare(s.focalLengthsByLens, s.lenses, s.focalLengths);
    }
  }

  /** A field's counter is within `total_photos`. */
  lemma FieldWithin<T>(results: seq<Record>, get: Record -> Option<T>, zero: T)
    ensures Within(Tally(Present(results, get, zero)), |results|)
  {
    FieldCountBounded(results, get, zero, zero);
    TallyValid(Present(results, get, zero));
  }

  /** The per-lens tables of one field are within their lenses' counts. */
  lemma PerLensTablesWithin(canon: map<string, string>, results: seq<Record>,
                            get: Record -> Option<string>, norm: string -> string)
    requires Covers(canon, results, norm)
    ensures PerLensWithin(ByLens(canon, results, get, norm), Tally(CanonicalLenses(canon, results, norm)),
                          Tally(Present(results, get, "")))
  {
    var tables := ByLens(canon, results, get, norm);
    var lenses := Tally(CanonicalLenses(canon, results, norm));
    forall lens | lens in tables
      ensures Within(tables[lens], Get(lenses, lens))
      ensures BadLabel(tables[lens]) ==> BadLabel(Tally(Present(results, get, "")))
    {
      var pl := PerLens(canon, results, lens, get, norm);
      ByLensCounts(canon, results, lens, get, norm);
      PerLensTable(canon, results, lens, get, norm, "");
      TallyValid(pl);
      if BadLabel(tables[lens]) {
        BadLabelTally(pl);
        var v :| v in pl && LabelKey(v).None?;
        PerLensInPresent(canon, results, lens, get, norm, v);
        BadLabelTally(Present(results, get, ""));
      }
    }
  }

  /** `generate_statistics` produces consistent statistics. */
  lemma StatisticsConsistent(results: seq<Record>)
    ensures Consistent(Statistics.Statistics(results))
  {
    var s := Statistics.Statistics(results);
    StatisticsBounded(results, "", 0);
    LensesValid(results);
    FieldWithin(results, CameraOf, "");
    FieldWithin(results, IsoOf, 0);
    FieldWithin(results, SpeedOf, "");
    FieldWithin(results, ApertureOf, "");
    FieldWithin(results, FocalOf, "");
    var canon := CanonicalMap(LensValues(results), NormalizeLensName);
    CanonicalCovers(results, NormalizeLensName);
    PerLensTablesWithin(canon, results, ApertureOf, NormalizeLensName);
    PerLensTablesWithin(canon, results, FocalOf, NormalizeLensName);
  }

  /** What the display of `generate_statistics(results)` does: it never divides by
      zero, every printed percentage lies between 0 and 100, and it raises
      exactly when an aperture or focal-length label has a number `float()`
      rejects. */
  lemma ShowStatistics(results: seq<Record>)
    ensures var s := Statistics.Statistics(results);
            && (Show(s).Raises? <==> BadLabel(s.apertures) || BadLabel(s.focalLengths))
            && (Show(s).Shown? ==>
                  Show(s).report.totalPhotos == |results| && AllShares(Show(s).report))
  {
    StatisticsConsistent(results);
    StatisticsBounded(results, "", 0);
    ShowConsistent(Statistics.Statistics(results));
  }

  /** The lens counter holds each canonical name once with a positive count. */
  lemma LensesValid(results: seq<Record>)
    ensures Valid(Statistics.Statistics(results).lenses)
  {
    var canon := CanonicalMap(LensValues(results), NormalizeLensName);
    CanonicalCovers(results, NormalizeLensName);
    TallyValid(CanonicalLenses(canon, results, NormalizeLensName));
  }

  /** Focal-length labels as the parser writes them never make the display raise. */
  lemma ParsedFocalLabelsRank(results: seq<Record>)
    requires forall i :: 0 <= i < |results| && results[i].focalLength.Some? ==>
               IsFocalLabel(results[i].focalLength.value)
    ensures !BadLabel(Statistics.Statistics(results).focalLengths)
  {
    var fs := Present(results, FocalOf, "");
    BadLabelTally(fs);
    forall v | v in fs ensures LabelKey(v).Some? {
      PresentMembers(results, FocalOf, "", v);
      var i :| 0 <= i < |results| && FocalOf(results[i]) == Some(v);
      var d :| IsFloatLiteral(d) && v == FocalLabel(d);
      FocalLabelKey(d);
    }
  }

  /** An `Aperture` line whose value's first `[\d.]` run is a lone point gives the
      label `f/.`, and any batch holding such a record makes the display raise. */
  lemma LonePointApertureRaises(results: seq<Record>, i: nat)
    requires i < |results| && results[i].aperture == Some("f/.")
    ensures Show(Statistics.Statistics(results)).Raises?
  {
    var aps := Present(results, ApertureOf, "");
    assert LabelKey("f/.").None? by {
      ApertureLabelKey(".");
      assert "f/" + "." == "f/.";
      assert !IsFloatLiteral(".");
    }
    assert "f/." in aps by {
      PresentMembers(results, ApertureOf, "", "f/.");
      assert ApertureOf(results[i]) == Some("f/.");
    }
    BadLabelTally(aps);
    assert Statistics.Statistics(results).apertures == Tally(aps);
    ShowStatistics(results);
  }
}
