/** What `parse_exif_output` stores in each field, stated over the whole document
    rather than line by line. */
module ParseFacts {
  import opened Strings
  import opened Numbers
  import opened ExifParser

  /** What one raw line offers a field: nothing for a blank or colon-less line. */
  function RawCandidate<T>(raw: string, f: Line -> Option<T>): Option<T> {
    match KeyValue(raw)
    case None => None
    case Some(l) => f(l)
  }

  /** The offers of every line, in document order. */
  function Candidates<T>(lines: seq<string>, f: Line -> Option<T>): (r: seq<Option<T>>)
    ensures |r| == |lines|
    ensures forall j :: 0 <= j < |lines| ==> r[j] == RawCandidate(lines[j], f)
    decreases |lines|
  {
    if lines == [] then []
    else Candidates(lines[..|lines| - 1], f) + [RawCandidate(lines[|lines| - 1], f)]
  }

  lemma CandidatesPrefix<T>(lines: seq<string>, f: Line -> Option<T>, n: nat)
    requires n <= |lines|
    ensures Candidates(lines, f)[..n] == Candidates(lines[..n], f)
  {
  }

  /** A field filled by `if not data[f]: data[f] = candidate` over a sequence of
      offers, starting from `None`. */
  function FillAll<T(==)>(cands: seq<Option<T>>, zero: T): Option<T>
    decreases |cands|
  {
    if cands == [] then None
    else Fill(FillAll(cands[..|cands| - 1], zero), cands[|cands| - 1], zero)
  }

  /** The field ends up truthy exactly when some offer is truthy. */
  lemma {:induction false} FillAllSet<T>(cands: seq<Option<T>>, zero: T)
    ensures IsSet(FillAll(cands, zero), zero) <==> exists k :: 0 <= k < |cands| && IsSet(cands[k], zero)
    decreases |cands|
  {
    if cands != [] {
      var p := cands[..|cands| - 1];
      FillAllSet(p, zero);
      assert forall k :: 0 <= k < |p| ==> p[k] == cands[k];
      if IsSet(FillAll(p, zero), zero) {
        var k :| 0 <= k < |p| && IsSet(p[k], zero);
        assert IsSet(cands[k], zero);
      }
    }
  }

  /** Whatever a field holds was offered by some line. */
  lemma {:induction false} FillAllOffered<T>(cands: seq<Option<T>>, zero: T)
    ensures FillAll(cands, zero).Some? ==> exists k :: 0 <= k < |cands| && cands[k] == FillAll(cands, zero)
    decreases |cands|
  {
    if cands != [] {
      var p := cands[..|cands| - 1];
      FillAllOffered(p, zero);
      if FillAll(cands, zero) == FillAll(p, zero) && FillAll(p, zero).Some? {
        var k :| 0 <= k < |p| && p[k] == FillAll(p, zero);
        assert cands[k] == p[k];
      }
    }
  }

  /** The first truthy offer wins, and nothing later replaces it. */
  lemma {:induction false} FillAllFirstWins<T>(cands: seq<Option<T>>, zero: T, j: nat)
    requires j < |cands| && IsSet(cands[j], zero)
    requires forall k :: 0 <= k < j ==> !IsSet(cands[k], zero)
    ensures FillAll(cands, zero) == cands[j]
    decreases |cands|
  {
    var p := cands[..|cands| - 1];
    if j == |cands| - 1 {
      FillAllSet(p, zero);
      assert forall k :: 0 <= k < |p| ==> p[k] == cands[k];
    } else {
      FillAllFirstWins(p, zero, j);
    }
  }

  /** A field that is truthy at some point keeps the value it has from then on. */
  lemma {:induction false} FillAllKeepsSet<T>(cands: seq<Option<T>>, zero: T, n: nat)
    requires n <= |cands| && IsSet(FillAll(cands[..n], zero), zero)
    ensures FillAll(cands, zero) == FillAll(cands[..n], zero)
    decreases |cands|
  {
    if n < |cands| {
      var p := cands[..|cands| - 1];
      assert p[..n] == cands[..n];
      FillAllKeepsSet(p, zero, n);
    } else {
      assert cands[..n] == cands;
    }
  }

  /** The lens after one raw line. */
  function RawLensAfter(lens: Option<string>, raw: string): Option<string> {
    match KeyValue(raw)
    case None => lens
    case Some(l) => LensAfter(lens, l)
  }

  /** One line, seen field by field. */
  lemma StepFields(rec: Record, raw: string)
    requires Step(rec, raw).Some?
    ensures Step(rec, raw).value.fileName == rec.fileName
    ensures Step(rec, raw).value.camera == Fill(rec.camera, RawCandidate(raw, CameraCandidate), "")
    ensures Step(rec, raw).value.lens == RawLensAfter(rec.lens, raw)
    ensures Step(rec, raw).value.iso == Fill(rec.iso, RawCandidate(raw, IsoCandidate), 0)
    ensures Step(rec, raw).value.speed == Fill(rec.speed, RawCandidate(raw, SpeedCandidate), "")
    ensures Step(rec, raw).value.aperture == Fill(rec.aperture, RawCandidate(raw, ApertureCandidate), "")
    ensures Step(rec, raw).value.focalLength == Fill(rec.focalLength, RawCandidate(raw, FocalLabelCandidate), "")
  {
  }

  /** The lens after a non-empty document, from the lens after all but its last line. */
  lemma LastLens(fileName: string, lines: seq<string>)
    requires lines != [] && ParseLines(fileName, lines).Parsed?
    ensures ParseLines(fileName, lines[..|lines| - 1]).Parsed?
    ensures ParseLines(fileName, lines).record.lens
            == RawLensAfter(ParseLines(fileName, lines[..|lines| - 1]).record.lens, lines[|lines| - 1])
  {
    LastStep(fileName, lines);
    StepFields(ParseLines(fileName, lines[..|lines| - 1]).record, lines[|lines| - 1]);
  }

  /** The outcome of a non-empty document, from the outcome of all but its last line. */
  lemma LastStep(fileName: string, lines: seq<string>)
    requires lines != [] && ParseLines(fileName, lines).Parsed?
    ensures ParseLines(fileName, lines[..|lines| - 1]).Parsed?
    ensures Step(ParseLines(fileName, lines[..|lines| - 1]).record, lines[|lines| - 1]).Some?
    ensures ParseLines(fileName, lines).record
            == Step(ParseLines(fileName, lines[..|lines| - 1]).record, lines[|lines| - 1]).value
  {
  }

  /** The record the lines parse to, field by field: each first-wins field is the
      fold of `Fill` over what the lines offer it, in document order. */
  lemma {:induction false} ParsedFields(fileName: string, lines: seq<string>)
    requires ParseLines(fileName, lines).Parsed?
    ensures ParseLines(fileName, lines).record.fileName == fileName
    ensures ParseLines(fileName, lines).record.camera == FillAll(Candidates(lines, CameraCandidate), "")
    ensures ParseLines(fileName, lines).record.iso == FillAll(Candidates(lines, IsoCandidate), 0)
    ensures ParseLines(fileName, lines).record.speed == FillAll(Candidates(lines, SpeedCandidate), "")
    ensures ParseLines(fileName, lines).record.aperture == FillAll(Candidates(lines, ApertureCandidate), "")
    ensures ParseLines(fileName, lines).record.focalLength
            == FillAll(Candidates(lines, FocalLabelCandidate), "")
    decreases |lines|
  {
    if lines != [] {
      var p := lines[..|lines| - 1];
      var last := lines[|lines| - 1];
      LastStep(fileName, lines);
      ParsedFields(fileName, p);
      StepFields(ParseLines(fileName, p).record, last);
      CandidatesPrefix(lines, CameraCandidate, |p|);
      CandidatesPrefix(lines, IsoCandidate, |p|);
      CandidatesPrefix(lines, SpeedCandidate, |p|);
      CandidatesPrefix(lines, ApertureCandidate, |p|);
      CandidatesPrefix(lines, FocalLabelCandidate, |p|);
    }
  }

  /** What a line offers the focal length is a label for a decimal number. */
  lemma FocalOfferIsLabel(l: Line)
    ensures FocalLabelCandidate(l).Some? ==> IsFocalLabel(FocalLabelCandidate(l).value)
  {
    if FocalCandidate(l).Focal? {
      var d := FocalMatch(l.value).value;
      assert FocalCandidate(l) == Focal(FocalLabel(d));
    }
  }

  /** A parsed focal length is always a label the parser wrote for a decimal number:
      `<int>mm` or `<x.1f>mm`. */
  lemma ParsedFocalIsLabel(fileName: string, lines: seq<string>)
    requires ParseLines(fileName, lines).Parsed?
    ensures var f := ParseLines(fileName, lines).record.focalLength;
            f.Some? ==> IsFocalLabel(f.value)
  {
    ParsedFields(fileName, lines);
    var cands := Candidates(lines, FocalLabelCandidate);
    FillAllOffered(cands, "");
    var f := ParseLines(fileName, lines).record.focalLength;
    if f.Some? {
      var k :| 0 <= k < |cands| && cands[k] == f;
      FocalOfferIsLabel(KeyValue(lines[k]).value);
    }
  }

  /** The camera is the first truthy `Camera Model Name` or `Camera Type 2` value in
      document order: neither key outranks the other. */
  lemma CameraFirstInDocument(fileName: string, lines: seq<string>, j: nat, l: Line)
    requires ParseLines(fileName, lines).Parsed?
    requires j < |lines| && KeyValue(lines[j]) == Some(l)
    requires (l.key == "Camera Model Name" || l.key == "Camera Type 2") && l.value != ""
    requires forall k :: 0 <= k < j ==> !IsSet(RawCandidate(lines[k], CameraCandidate), "")
    ensures ParseLines(fileName, lines).record.camera == Some(l.value)
  {
    ParsedFields(fileName, lines);
    FillAllFirstWins(Candidates(lines, CameraCandidate), "", j);
  }

  /** A field that no line offers a truthy value stays falsy. */
  lemma IsoUnsetWithoutDigits(fileName: string, lines: seq<string>)
    requires ParseLines(fileName, lines).Parsed?
    requires forall k :: 0 <= k < |lines| ==> !IsSet(RawCandidate(lines[k], IsoCandidate), 0)
    ensures !IsSet(ParseLines(fileName, lines).record.iso, 0)
  {
    ParsedFields(fileName, lines);
    FillAllSet(Candidates(lines, IsoCandidate), 0);
  }

  /** Once a prefix of the document has set the aperture, the rest cannot change it. */
  lemma ApertureSetStays(fileName: string, lines: seq<string>, n: nat)
    requires n <= |lines|
    requires ParseLines(fileName, lines).Parsed?
    requires ParseLines(fileName, lines[..n]).Parsed?
    requires IsSet(ParseLines(fileName, lines[..n]).record.aperture, "")
    ensures ParseLines(fileName, lines).record.aperture == ParseLines(fileName, lines[..n]).record.aperture
  {
    var cands := Candidates(lines, ApertureCandidate);
    ParsedFields(fileName, lines);
    ParsedFields(fileName, lines[..n]);
    CandidatesPrefix(lines, ApertureCandidate, n);
    FillAllKeepsSet(cands, "", n);
  }

  // ---- The lens ----

  /** The lens is what the last preferred line gave, when it gave a non-empty value:
      fallback lines never replace a truthy lens. */
  lemma {:induction false} LastPreferredLensWins(fileName: string, lines: seq<string>, j: nat, l: Line)
    requires ParseLines(fileName, lines).Parsed?
    requires j < |lines| && KeyValue(lines[j]) == Some(l)
    requires IsPreferredLensSource(l.key) && l.value != ""
    requires forall k, m :: j < k < |lines| && KeyValue(lines[k]) == Some(m) ==> !IsPreferredLensSource(m.key)
    ensures ParseLines(fileName, lines).record.lens == Some(l.value)
    decreases |lines|
  {
    var p := lines[..|lines| - 1];
    var last := lines[|lines| - 1];
    LastLens(fileName, lines);
    if j < |lines| - 1 {
      assert forall k, m :: j < k < |p| && KeyValue(p[k]) == Some(m) ==> !IsPreferredLensSource(m.key) by {
        assert forall k :: j < k < |p| ==> p[k] == lines[k];
      }
      LastPreferredLensWins(fileName, p, j, l);
      assert KeyValue(last).Some? ==> !IsPreferredLensSource(KeyValue(last).value.key) by {
        if KeyValue(last).Some? {
          var m := KeyValue(last).value;
          assert KeyValue(lines[|lines| - 1]) == Some(m);
        }
      }
      LensKept(Some(l.value), last);
    } else {
      PreferredLensSets(ParseLines(fileName, p).record.lens, last, l);
    }
  }

  /** A preferred lens line stores its value whatever the lens was. */
  lemma PreferredLensSets(lens: Option<string>, raw: string, l: Line)
    requires KeyValue(raw) == Some(l) && IsPreferredLensSource(l.key)
    ensures RawLensAfter(lens, raw) == Some(l.value)
  {
  }

  /** A truthy lens survives a line that is not a preferred lens line. */
  lemma LensKept(lens: Option<string>, raw: string)
    requires IsSet(lens, "")
    requires KeyValue(raw).Some? ==> !IsPreferredLensSource(KeyValue(raw).value.key)
    ensures RawLensAfter(lens, raw) == lens
  {
  }

  /** With no preferred line at all, the lens is the first truthy fallback value in
      document order. */
  lemma {:induction false} FallbackLensFirstWins(fileName: string, lines: seq<string>)
    requires ParseLines(fileName, lines).Parsed?
    requires forall k, m :: 0 <= k < |lines| && KeyValue(lines[k]) == Some(m) ==> !IsPreferredLensSource(m.key)
    ensures ParseLines(fileName, lines).record.lens == FillAll(Candidates(lines, FallbackLensCandidate), "")
    decreases |lines|
  {
    if lines != [] {
      var p := lines[..|lines| - 1];
      var last := lines[|lines| - 1];
      LastLens(fileName, lines);
      forall k, m | 0 <= k < |p| && KeyValue(p[k]) == Some(m) ensures !IsPreferredLensSource(m.key) {
        assert p[k] == lines[k];
      }
      FallbackLensFirstWins(fileName, p);
      CandidatesPrefix(lines, FallbackLensCandidate, |p|);
    }
  }

  // ---- The ValueError ----

  /** Parsing fails only on a `Focal Length` line whose number `float()` rejects, read
      while the focal length was still unset. */
  lemma {:induction false} ValueErrorFromFocal(fileName: string, lines: seq<string>)
    requires ParseLines(fileName, lines).ValueError?
    ensures exists j, l :: 0 <= j < |lines| && KeyValue(lines[j]) == Some(l)
                           && l.key == "Focal Length" && FocalCandidate(l).FloatError?
    decreases |lines|
  {
    var p := lines[..|lines| - 1];
    if ParseLines(fileName, p).ValueError? {
      ValueErrorFromFocal(fileName, p);
      var j, l :| 0 <= j < |p| && KeyValue(p[j]) == Some(l) && l.key == "Focal Length" && FocalCandidate(l).FloatError?;
      assert lines[j] == p[j];
    } else {
      LastLineRaises(fileName, lines);
      var l := KeyValue(lines[|lines| - 1]).value;
    }
  }

  /** When all but the last line parse, the last line is what raised. */
  lemma LastLineRaises(fileName: string, lines: seq<string>)
    requires lines != [] && ParseLines(fileName, lines).ValueError?
    requires ParseLines(fileName, lines[..|lines| - 1]).Parsed?
    ensures KeyValue(lines[|lines| - 1]).Some?
    ensures KeyValue(lines[|lines| - 1]).value.key == "Focal Length"
    ensures FocalCandidate(KeyValue(lines[|lines| - 1]).value).FloatError?
  {
  }

  /** A document with no `Focal Length` line whose number `float()` rejects always
      parses. */
  lemma NoFloatErrorParses(fileName: string, lines: seq<string>)
    requires forall j, l :: 0 <= j < |lines| && KeyValue(lines[j]) == Some(l) ==> !FocalCandidate(l).FloatError?
    ensures ParseLines(fileName, lines).Parsed?
  {
    if ParseLines(fileName, lines).ValueError? {
      ValueErrorFromFocal(fileName, lines);
    }
  }
}

module ParseExamples {
  import opened Strings
  import opened Numbers
  import opened ExifParser
  import opened ParseFacts

  /** The aperture keeps the first number of the value, verbatim. */
  lemma ApertureWithPercentage()
    ensures ApertureCandidate(Line("F Number", "2.8 (96%)")) == Some("f/2.8")
  {
    var v := "2.8 (96%)";
    assert FindClass(v, 0, DecimalChar) == Some(0);
    assert RunEnd(v, 0, DecimalChar) == 3;
    assert v[0..3] == "2.8";
    assert FirstRun(v, DecimalChar) == Some("2.8");
    assert IsApertureSource("F Number");
    assert "f/" + "2.8" == "f/2.8";
  }

  /** A whole focal length loses its decimals. */
  lemma WholeFocal()
    ensures FocalCandidate(Line("Focal Length", "19.00 mm")) == Focal("19mm")
  {
    var v := "19.00 mm";
    assert RunEnd(v, 0, DecimalChar) == 5;
    assert RunEnd(v, 5, Space) == 6;
    assert FocalMatchesAt(v, 0);
    assert FocalSearch(v, 0) == Some(0);
    assert v[0..5] == "19.00";
    assert FocalMatch(v) == Some("19.00");
    WholeNineteen();
  }

  lemma WholeNineteen()
    ensures IsFloatLiteral("19.00") && FocalLabel("19.00") == "19mm"
  {
    NineteenLiteral();
    NineteenDigits();
    assert FocalNumber("19.00") == "19";
  }

  lemma NineteenLiteral()
    ensures IsFloatLiteral("19.00") && IntPart("19.00") == "19" && FracPart("19.00") == "00"
    ensures IsWhole("19.00")
  {
    DecimalPoint("19", "00");
    assert "19" + "." + "00" == "19.00";
    assert FracPart("19.00")[0] == '0' && FracPart("19.00")[1] == '0';
  }

  lemma NineteenDigits()
    ensures AllDigits("19") && DigitsValue("19") == 19 && NatToString(19) == "19"
  {
    assert "19"[..1] == "1" && "1"[..0] == [];
    assert NatToString(1) == "1";
    assert NatToString(19) == NatToString(1) + [DigitChar(9)];
  }

  /** `ISO` reads the first digit run even after text. */
  lemma IsoAfterText()
    ensures IsoCandidate(Line("ISO", "AUTO 400")) == Some(400)
  {
    var v := "AUTO 400";
    assert FindClass(v, 0, Digit) == Some(5);
    assert RunEnd(v, 5, Digit) == 8;
    assert v[5..8] == "400";
    assert FirstRun(v, Digit) == Some("400");
    assert "400"[..2] == "40" && "40"[..1] == "4" && "4"[..0] == [];
    assert DigitsValue("400") == 400;
  }

  /** `Camera ISO` is ignored when its value mentions `Auto`. */
  lemma CameraIsoAuto()
    ensures IsoCandidate(Line("Camera ISO", "Auto 400")) == None
  {
    assert StartsWith("Auto 400", "Auto");
  }

  /** A focal number that `float()` rejects raises. */
  lemma FocalTwoPoints()
    ensures FocalCandidate(Line("Focal Length", "1.2.3 mm")) == FloatError
  {
    var v := "1.2.3 mm";
    assert RunEnd(v, 0, DecimalChar) == 5;
    assert RunEnd(v, 5, Space) == 6;
    assert FocalMatchesAt(v, 0);
    assert v[0..5] == "1.2.3";
    assert IndexOf("1.2.3", '.') == Some(1);
    assert !IsDigit("1.2.3"[2..][1]);
  }

  /** A focal length without decimals keeps its digits and loses the space. */
  lemma FocalWithSpace()
    ensures FocalCandidate(Line("Focal Length", "37 mm")) == Focal("37mm")
  {
    var v := "37 mm";
    assert RunEnd(v, 0, DecimalChar) == 2;
    assert RunEnd(v, 2, Space) == 3;
    assert FocalMatchesAt(v, 0);
    assert FocalSearch(v, 0) == Some(0);
    assert v[0..2] == "37";
    assert FocalMatch(v) == Some("37");
    ThirtySeven();
  }

  lemma ThirtySeven()
    ensures IsFloatLiteral("37") && FocalLabel("37") == "37mm"
  {
    assert IndexOf("37", '.') == None;
    assert IsFloatLiteral("37") && IntPart("37") == "37" && FracPart("37") == [];
    assert "37"[..1] == "3" && "3"[..0] == [];
    assert DigitsValue("37") == 37;
    assert NatToString(3) == "3";
    assert NatToString(37) == NatToString(3) + [DigitChar(7)];
    assert FocalNumber("37") == "37";
  }

  /** The dump line ExifTool prints for `key` and `value`. */
  function DumpLine(key: string, value: string): string {
    key + ": " + value
  }

  /** A dump line with a trimmed key and value splits back into them. */
  lemma KeyValueOf(key: string, value: string)
    requires ':' !in key
    requires key != [] && !IsSpace(key[0]) && !IsSpace(key[|key| - 1])
    requires value != [] && !IsSpace(value[0]) && !IsSpace(value[|value| - 1])
    ensures KeyValue(DumpLine(key, value)) == Some(Line(key, value))
  {
    assert DumpLine(key, value) == key + ":" + (" " + value);
    assert Strip(key) == key by {
      StripRemovesPadding([], key, []);
      assert [] + key + [] == key;
    }
    assert Strip(" " + value) == value by {
      StripRemovesPadding(" ", value, []);
      assert " " + value + [] == " " + value;
    }
    KeyValueAtFirstColon(key, " " + value);
  }

  /** A fallback line fills the lens, `RF Lens Type` overwrites it, a later `Lens ID`
      overwrites that in turn, and a fallback line after them changes nothing. */
  lemma LensIdAfterRfLensType()
    ensures var p := ParseLines("IMG_0001.CR3", [DumpLine("Lens Model", "A"), DumpLine("RF Lens Type", "B"),
                                                 DumpLine("Lens ID", "C"), DumpLine("Lens Type", "D")]);
            p.Parsed? && p.record.lens == Some("C")
  {
    var l0, l1, l2, l3 := Line("Lens Model", "A"), Line("RF Lens Type", "B"), Line("Lens ID", "C"), Line("Lens Type", "D");
    assert PlainField(l0) && PlainField(l1) && PlainField(l2) && PlainField(l3);
    PreferredThenFallback("IMG_0001.CR3", l0, l1, l2, l3);
  }

  /** A trimmed key and value with no colon in the key, where the key is not
      `Focal Length`. */
  predicate PlainField(l: Line) {
    && ':' !in l.key
    && l.key != [] && !IsSpace(l.key[0]) && !IsSpace(l.key[|l.key| - 1]) && l.key[0] != 'F'
    && l.value != [] && !IsSpace(l.value[0]) && !IsSpace(l.value[|l.value| - 1])
  }

  /** A line whose key does not start like `Focal Length` gives no focal length. */
  lemma NotFocalKey(l: Line)
    requires l.key != [] && l.key[0] != 'F'
    ensures FocalCandidate(l) == NoFocal
  {
    assert l.key[0] != "Focal Length"[0];
  }

  lemma PlainFieldParses(l: Line)
    requires PlainField(l)
    ensures KeyValue(DumpLine(l.key, l.value)) == Some(l)
    ensures FocalCandidate(l) == NoFocal
  {
    KeyValueOf(l.key, l.value);
    NotFocalKey(l);
  }

  /** Four plain lines, the third preferred and the fourth not: the third decides
      the lens. */
  lemma PreferredThenFallback(fileName: string, l0: Line, l1: Line, l2: Line, l3: Line)
    requires PlainField(l0) && PlainField(l1) && PlainField(l2) && PlainField(l3)
    requires IsPreferredLensSource(l2.key) && !IsPreferredLensSource(l3.key)
    ensures var p := ParseLines(fileName, [DumpLine(l0.key, l0.value), DumpLine(l1.key, l1.value),
                                           DumpLine(l2.key, l2.value), DumpLine(l3.key, l3.value)]);
            p.Parsed? && p.record.lens == Some(l2.value)
  {
    var ls := [l0, l1, l2, l3];
    var lines := [DumpLine(l0.key, l0.value), DumpLine(l1.key, l1.value),
                  DumpLine(l2.key, l2.value), DumpLine(l3.key, l3.value)];
    forall j | 0 <= j < 4
      ensures KeyValue(lines[j]) == Some(ls[j]) && FocalCandidate(ls[j]) == NoFocal
    {
      assert lines[j] == DumpLine(ls[j].key, ls[j].value);
      PlainFieldParses(ls[j]);
    }
    assert ParseLines(fileName, lines).Parsed? by {
      forall j, l | 0 <= j < |lines| && KeyValue(lines[j]) == Some(l)
        ensures !FocalCandidate(l).FloatError?
      {
        assert l == ls[j];
      }
      NoFloatErrorParses(fileName, lines);
    }
    forall k, m | 2 < k < |lines| && KeyValue(lines[k]) == Some(m)
      ensures !IsPreferredLensSource(m.key)
    {
      assert k == 3 && m == ls[3];
    }
    LastPreferredLensWins(fileName, lines, 2, l2);
  }
}
