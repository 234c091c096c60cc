/** `parse_exif_output`: one ExifTool text dump becomes one record. The dump is read line
    by line; each field has a fixed set of source keys, and every field but the lens
    keeps the first value that Python counts as true. */
module ExifParser {
  import opened Strings
  import opened Numbers

  /** The dict `parse_exif_output` builds. A field is `None` until a line stores into
      it, and what a line stores may still be false to Python (`""`, or ISO `0`). */
  datatype Record = Record(
    fileName: string,
    camera: Option<string>,
    lens: Option<string>,
    iso: Option<nat>,
    speed: Option<string>,
    aperture: Option<string>,
    focalLength: Option<string>)

  function EmptyRecord(fileName: string): Record {
    Record(fileName, None, None, None, None, None, None)
  }

  /** Python truthiness of a field: present and not the zero of its type. */
  predicate IsSet<T(==)>(o: Option<T>, zero: T) {
    o.Some? && o.value != zero
  }

  /** A `Key : Value` line, both sides trimmed. */
  datatype Line = Line(key: string, value: string)

  /** A raw line is used only when it is not blank and holds a colon; it is split at
      its first colon. */
  function KeyValue(raw: string): Option<Line> {
    if Strip(raw) == [] then None
    else match IndexOf(raw, ':')
      case None => None
      case Some(k) => Some(Line(Strip(raw[..k]), Strip(raw[k + 1..])))
  }

  /** A line is used exactly when it holds a colon: a line with a colon is never
      blank. */
  lemma KeyValueNeedsColon(raw: string)
    ensures KeyValue(raw).Some? <==> ':' in raw
  {
    if ':' in raw {
      var k := IndexOf(raw, ':').value;
      StripSpec(raw);
      assert !IsSpace(raw[k]);
    }
  }

  /** The key is what precedes the first colon and the value all that follows it. */
  lemma KeyValueAtFirstColon(before: string, after: string)
    requires ':' !in before
    ensures KeyValue(before + ":" + after) == Some(Line(Strip(before), Strip(after)))
  {
    var raw := before + ":" + after;
    assert IndexOf(raw, ':') == Some(|before|) by {
      assert raw[|before|] == ':' && raw[..|before|] == before;
    }
    assert Strip(raw) != [] by {
      StripSpec(raw);
      assert raw[|before|] == ':' && !IsSpace(':');
    }
    assert raw[..|before|] == before && raw[|before| + 1..] == after;
  }

  // ---- What one line would store into each field (if the field is still unset) ----

  function CameraCandidate(l: Line): (r: Option<string>)
    ensures r.Some? <==> l.key == "Camera Model Name" || l.key == "Camera Type 2"
    ensures r.Some? ==> r.value == l.value
  {
    if l.key == "Camera Model Name" then Some(l.value)
    else if l.key == "Camera Type 2" then Some(l.value)
    else None
  }

  /** `ISO` always, `Camera ISO` only when its value does not mention `Auto`. */
  predicate IsIsoSource(l: Line) {
    l.key == "ISO" || (l.key == "Camera ISO" && !Contains(l.value, "Auto"))
  }

  /** `int(re.search(r'(\d+)', value).group(1))`: the first digit run. */
  function IsoCandidate(l: Line): Option<nat> {
    if IsIsoSource(l) then
      match FirstRun(l.value, Digit)
      case None => None
      case Some(d) => Some(DigitsValue(d))
    else
      None
  }

  /** An ISO line offers a value exactly when its value holds a digit, and the value
      offered is the number written by the first run of digits. */
  lemma IsoCandidateSpec(l: Line)
    ensures var r := IsoCandidate(l);
            && (r.Some? <==> IsIsoSource(l) && exists k :: 0 <= k < |l.value| && IsDigit(l.value[k]))
            && (r.Some? ==> exists i :: 0 <= i < |l.value| && IsDigit(l.value[i])
                              && (forall k :: 0 <= k < i ==> !IsDigit(l.value[k]))
                              && AllDigits(l.value[i..RunEnd(l.value, i, Digit)])
                              && r.value == DigitsValue(l.value[i..RunEnd(l.value, i, Digit)]))
  {
  }

  function SpeedCandidate(l: Line): (r: Option<string>)
    ensures r.Some? <==> l.key == "Shutter Speed" || l.key == "Exposure Time" || l.key == "Shutter Speed Value"
    ensures r.Some? ==> r.value == l.value
  {
    if l.key == "Shutter Speed" || l.key == "Exposure Time" || l.key == "Shutter Speed Value" then
      Some(l.value)
    else
      None
  }

  predicate IsApertureSource(key: string) {
    key == "Aperture" || key == "F Number" || key == "Aperture Value"
  }

  /** `f"f/{re.search(r'([\d.]+)', value).group(1)}"`: `f/` and the first run of
      digits and points, verbatim. */
  function ApertureCandidate(l: Line): Option<string> {
    if IsApertureSource(l.key) then
      match FirstRun(l.value, DecimalChar)
      case None => None
      case Some(d) => Some("f/" + d)
    else
      None
  }

  /** An aperture line offers a value exactly when its value holds a digit or a point;
      the value offered is truthy and is `f/` and the first such run, verbatim. */
  lemma ApertureCandidateSpec(l: Line)
    ensures var r := ApertureCandidate(l);
            && (r.Some? <==> IsApertureSource(l.key) && exists k :: 0 <= k < |l.value| && IsDecimalChar(l.value[k]))
            && (r.Some? ==> IsSet(r, ""))
            && (r.Some? ==> exists i :: 0 <= i < |l.value| && IsDecimalChar(l.value[i])
                              && (forall k :: 0 <= k < i ==> !IsDecimalChar(l.value[k]))
                              && r.value == "f/" + l.value[i..RunEnd(l.value, i, DecimalChar)])
  {
  }

  /** `mm` in either case at `k`. */
  predicate MmAt(s: string, k: nat) {
    k + 2 <= |s| && LowerChar(s[k]) == 'm' && LowerChar(s[k + 1]) == 'm'
  }

  /** The regex `([\d.]+)\s*mm` (case-insensitive) matches at `i`. Greedy backtracking
      finds no other match here: a shorter number or fewer spaces leaves a digit, a
      point or a space where `m` is needed. */
  predicate FocalMatchesAt(s: string, i: nat) {
    i < |s| && IsDecimalChar(s[i]) && MmAt(s, RunEnd(s, RunEnd(s, i, DecimalChar), Space))
  }

  function FocalSearch(s: string, i: nat): (r: Option<nat>)
    requires i <= |s|
    ensures r.None? <==> forall k :: i <= k < |s| ==> !FocalMatchesAt(s, k)
    ensures r.Some? ==> i <= r.value < |s| && FocalMatchesAt(s, r.value)
                        && forall k :: i <= k < r.value ==> !FocalMatchesAt(s, k)
    decreases |s| - i
  {
    if i == |s| then None
    else if FocalMatchesAt(s, i) then Some(i)
    else FocalSearch(s, i + 1)
  }

  /** `re.search(r'([\d.]+)\s*mm', value, re.IGNORECASE).group(1)`: the number of the
      leftmost match. */
  function FocalMatch(s: string): Option<string> {
    var found := FocalSearch(s, 0);
    if found.None? then None
    else
      var i := found.value;
      Some(s[i..RunEnd(s, i, DecimalChar)])
  }

  /** The search fails exactly when the pattern matches nowhere; otherwise the number
      is the `[\d.]` run at the leftmost match. */
  lemma FocalMatchSpec(s: string)
    ensures var r := FocalMatch(s);
            && (r.None? <==> forall i :: 0 <= i < |s| ==> !FocalMatchesAt(s, i))
            && (r.Some? ==> exists i :: 0 <= i < |s| && FocalMatchesAt(s, i)
                              && (forall k :: 0 <= k < i ==> !FocalMatchesAt(s, k))
                              && r.value == s[i..RunEnd(s, i, DecimalChar)])
  {
    var found := FocalSearch(s, 0);
    if found.Some? {
      var i := found.value;
      assert 0 <= i < |s| && FocalMatchesAt(s, i) && forall k :: 0 <= k < i ==> !FocalMatchesAt(s, k);
    }
  }

  /** What a `Focal Length` line yields: nothing, a label, or the `ValueError` that
      `float()` raises on a number such as `.` or `1.2.3`. */
  datatype FocalOutcome = NoFocal | Focal(text: string) | FloatError

  function FocalCandidate(l: Line): FocalOutcome {
    if l.key == "Focal Length" then
      match FocalMatch(l.value)
      case None => NoFocal
      case Some(d) => if IsFloatLiteral(d) then Focal(FocalLabel(d)) else FloatError
    else
      NoFocal
  }

  /** Only a `Focal Length` line whose value matches `[\d.]+\s*mm` somewhere yields
      a label or an error. */
  lemma FocalCandidateSpec(l: Line)
    ensures FocalCandidate(l) != NoFocal
            <==> l.key == "Focal Length" && exists i :: 0 <= i < |l.value| && FocalMatchesAt(l.value, i)
  {
    FocalMatchSpec(l.value);
  }

  function FocalLabelCandidate(l: Line): Option<string> {
    match FocalCandidate(l)
    case Focal(text) => Some(text)
    case _ => None
  }

  /** Keys that always overwrite the lens. */
  predicate IsPreferredLensSource(key: string) {
    key == "RF Lens Type" || key == "Lens ID"
  }

  /** Keys that only fill an unset lens. */
  predicate IsFallbackLensSource(key: string) {
    key == "Lens Type" || key == "Lens Model" || key == "Lens Info"
  }

  function FallbackLensCandidate(l: Line): Option<string> {
    if IsFallbackLensSource(l.key) then Some(l.value) else None
  }

  /** The lens after one line. */
  function LensAfter(lens: Option<string>, l: Line): Option<string> {
    if IsPreferredLensSource(l.key) then Some(l.value)
    else if IsFallbackLensSource(l.key) && !IsSet(lens, "") then Some(l.value)
    else lens
  }

  /** `if not data[f]: data[f] = candidate`. */
  function Fill<T(==)>(current: Option<T>, candidate: Option<T>, zero: T): Option<T> {
    if !IsSet(current, zero) && candidate.Some? then candidate else current
  }

  /** The record after one `key: value` line, or `None` where the line raises. */
  function Apply(rec: Record, l: Line): Option<Record> {
    if !IsSet(rec.focalLength, "") && FocalCandidate(l).FloatError? then None
    else Some(rec.(
      camera := Fill(rec.camera, CameraCandidate(l), ""),
      lens := LensAfter(rec.lens, l),
      iso := Fill(rec.iso, IsoCandidate(l), 0),
      speed := Fill(rec.speed, SpeedCandidate(l), ""),
      aperture := Fill(rec.aperture, ApertureCandidate(l), ""),
      focalLength := Fill(rec.focalLength, FocalLabelCandidate(l), "")))
  }

  /** The record after one raw line: lines without a colon change nothing. */
  function Step(rec: Record, raw: string): Option<Record> {
    match KeyValue(raw)
    case None => Some(rec)
    case Some(l) => Apply(rec, l)
  }

  /** What parsing gives: the record, or the `ValueError` that reaches
      `process_single_file`, which then drops the file. */
  datatype ParseOutcome = Parsed(record: Record) | ValueError

  /** The outcome after the given lines, in order. */
  function ParseLines(fileName: string, lines: seq<string>): ParseOutcome
    decreases |lines|
  {
    if lines == [] then Parsed(EmptyRecord(fileName))
    else
      match ParseLines(fileName, lines[..|lines| - 1])
      case ValueError => ValueError
      case Parsed(rec) =>
        match Step(rec, lines[|lines| - 1])
        case None => ValueError
        case Some(next) => Parsed(next)
  }

  function Parse(exifOutput: string, fileName: string): ParseOutcome {
    ParseLines(fileName, Split(exifOutput, '\n'))
  }

  lemma {:induction false} ErrorPersists(fileName: string, lines: seq<string>, n: nat)
    requires n <= |lines|
    requires ParseLines(fileName, lines[..n]) == ValueError
    ensures ParseLines(fileName, lines) == ValueError
    decreases |lines| - n
  {
    if n < |lines| {
      assert lines[..n + 1][..n] == lines[..n];
      ErrorPersists(fileName, lines, n + 1);
    } else {
      assert lines[..n] == lines;
    }
  }

  /** One more line extends the outcome by one `Step`. */
  lemma StepExtends(fileName: string, lines: seq<string>, i: nat, rec: Record)
    requires 0 < i <= |lines|
    requires ParseLines(fileName, lines[..i - 1]) == Parsed(rec)
    ensures Step(rec, lines[i - 1]).None? ==> ParseLines(fileName, lines[..i]) == ValueError
    ensures Step(rec, lines[i - 1]).Some? ==> ParseLines(fileName, lines[..i]) == Parsed(Step(rec, lines[i - 1]).value)
  {
    assert lines[..i][..i - 1] == lines[..i - 1];
  }

  /** The camera branch of the loop body. */
  method CameraStep(camera: Option<string>, key: string, value: string) returns (next: Option<string>)
    ensures next == Fill(camera, CameraCandidate(Line(key, value)), "")
  {
    next := camera;
    if !IsSet(next, "") {
      if key == "Camera Model Name" {
        next := Some(value);
      } else if key == "Camera Type 2" && !IsSet(next, "") {
        next := Some(value);
      }
    }
  }

  /** The lens branch of the loop body. */
  method LensStep(lens: Option<string>, key: string, value: string) returns (next: Option<string>)
    ensures next == LensAfter(lens, Line(key, value))
  {
    next := lens;
    if key == "RF Lens Type" {
      next := Some(value);
    } else if key == "Lens ID" {
      next := Some(value);
    } else if key == "Lens Type" {
      if !IsSet(next, "") {
        next := Some(value);
      }
    } else if key == "Lens Model" {
      if !IsSet(next, "") {
        next := Some(value);
      }
    } else if key == "Lens Info" {
      if !IsSet(next, "") {
        next := Some(value);
      }
    }
  }

  /** The ISO branch of the loop body. */
  method IsoStep(iso: Option<nat>, key: string, value: string) returns (next: Option<nat>)
    ensures next == Fill(iso, IsoCandidate(Line(key, value)), 0)
  {
    next := iso;
    if !IsSet(next, 0) {
      if key == "ISO" {
        var isoMatch := FirstRun(value, Digit);
        if isoMatch.Some? {
          next := Some(DigitsValue(isoMatch.value));
        }
      } else if key == "Camera ISO" && !Contains(value, "Auto") {
        var isoMatch := FirstRun(value, Digit);
        if isoMatch.Some? {
          next := Some(DigitsValue(isoMatch.value));
        }
      }
    }
  }

  /** The shutter speed branch of the loop body. */
  method SpeedStep(speed: Option<string>, key: string, value: string) returns (next: Option<string>)
    ensures next == Fill(speed, SpeedCandidate(Line(key, value)), "")
  {
    next := speed;
    if !IsSet(next, "") {
      if key == "Shutter Speed" {
        next := Some(value);
      } else if key == "Exposure Time" {
        next := Some(value);
      } else if key == "Shutter Speed Value" {
        next := Some(value);
      }
    }
  }

  /** The aperture branch of the loop body. */
  method ApertureStep(aperture: Option<string>, key: string, value: string) returns (next: Option<string>)
    ensures next == Fill(aperture, ApertureCandidate(Line(key, value)), "")
  {
    next := aperture;
    if !IsSet(next, "") {
      if key == "Aperture" || key == "F Number" || key == "Aperture Value" {
        var apertureMatch := FirstRun(value, DecimalChar);
        if apertureMatch.Some? {
          next := Some("f/" + apertureMatch.value);
        }
      }
    }
  }

  /** The focal length branch of the loop body; `raised` where `float()` fails. */
  method FocalStep(focalLength: Option<string>, key: string, value: string)
    returns (next: Option<string>, raised: bool)
    ensures raised <==> !IsSet(focalLength, "") && FocalCandidate(Line(key, value)).FloatError?
    ensures !raised ==> next == Fill(focalLength, FocalLabelCandidate(Line(key, value)), "")
  {
    ghost var l := Line(key, value);
    next, raised := focalLength, false;
    if !IsSet(next, "") {
      if key == "Focal Length" {
        var focalMatch := FocalMatch(value);
        if focalMatch.Some? {
          if !IsFloatLiteral(focalMatch.value) {
            assert FocalCandidate(l) == FloatError;
            raised := true;
            return;
          }
          next := Some(FocalLabel(focalMatch.value));
          assert FocalCandidate(l) == Focal(FocalLabel(focalMatch.value));
        } else {
          assert FocalCandidate(l) == NoFocal;
        }
      } else {
        assert FocalCandidate(l) == NoFocal;
      }
    }
  }

  /** The body of the loop of `parse_exif_output` for one `key: value` line: the
      fields of the record are filled as the line dictates, or `None` when the focal
      length's number makes `float()` raise. */
  method ApplyLine(rec: Record, key: string, value: string) returns (next: Option<Record>)
    ensures next == Apply(rec, Line(key, value))
  {
    var camera := CameraStep(rec.camera, key, value);
    var lens := LensStep(rec.lens, key, value);
    var iso := IsoStep(rec.iso, key, value);
    var speed := SpeedStep(rec.speed, key, value);
    var aperture := ApertureStep(rec.aperture, key, value);
    var focalLength, raised := FocalStep(rec.focalLength, key, value);
    if raised {
      return None;
    }
    next := Some(Record(rec.fileName, camera, lens, iso, speed, aperture, focalLength));
  }

  /** `parse_exif_output(exif_output, file_name)`: the lines of the tool's output are
      read in order into one record. */
  method ParseExifOutput(exifOutput: string, fileName: string) returns (result: ParseOutcome)
    ensures result == Parse(exifOutput, fileName)
  {
    var lines := Split(exifOutput, '\n');
    var rec := EmptyRecord(fileName);
    var i := 0;
    while i < |lines|
      invariant 0 <= i <= |lines|
      invariant ParseLines(fileName, lines[..i]) == Parsed(rec)
    {
      var line := lines[i];
      i := i + 1;
      StepExtends(fileName, lines, i, rec);
      if Strip(line) == [] {
        assert Step(rec, line) == Some(rec);
        continue;
      }
      var colon := IndexOf(line, ':');
      if colon.None? {
        assert Step(rec, line) == Some(rec);
        continue;
      }
      var key := Strip(line[..colon.value]);
      var value := Strip(line[colon.value + 1..]);
      assert KeyValue(line) == Some(Line(key, value));
      var next := ApplyLine(rec, key, value);
      if next.None? {
        ErrorPersists(fileName, lines, i);
        return ValueError;
      }
      rec := next.value;
    }
    assert lines[..i] == lines;
    result := Parsed(rec);
  }
}
