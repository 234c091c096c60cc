# EXIF analyzer: a verified model of its parsing, counting and ranking

`exif_analyzer.py` reads the text ExifTool prints for each RAW photo. It pulls out
six fields per photo: camera, lens, ISO, shutter speed, aperture and focal length.
It then counts how often each value occurs across a batch, merging the different
spellings of one lens under a single canonical name. Finally it prints top-10
tables with percentages. This project models those steps in Dafny and proves what
they guarantee:

- `normalize_lens_name`: module `LensName` in `lens_name.dfy`.
- `parse_exif_output`: module `ExifParser` in `exif_parser.dfy`. Its properties are
  in `ParseFacts`, and worked lines from real ExifTool output are in `ParseExamples`,
  both in `parse_facts.dfy`.
- `generate_statistics`: module `Statistics` in `statistics.dfy`. It is built on the
  `collections.Counter` model in module `Counting` (`counting.dfy`).
- The ranking rules inside `display_statistics` are in module `Ranking`
  (`ranking.dfy`). These are the stable sort by `(-count, key)`, the secondary
  keys, the cut to 10 rows and `most_common`.
- The tables `display_statistics` prints, with their percentages, are in module
  `Display` (`display.dfy`).
- The string and number built-ins these need are in `Strings` (`strings.dfy`) and
  `Numbers` (`numbers.dfy`). They cover `str.strip`, `str.lower`, `str.split`, the
  first-match `re.search` patterns, `int()`, `float()` and the `f"{x:.1f}"` label.

How the model is built:

- Each imperative loop of the source is a Dafny `method` proved equal to a pure
  specification function. `ParseExifOutput` is proved against `Parse`, a fold of
  `Step` over the lines. `BuildCanonicalMap` is proved against `CanonicalMap`.
  `CountAll`/`GenerateStatistics` are proved against `Counts`/`Statistics`. The
  lemmas about each function then state what the source promises.
- Python truthiness is modelled exactly. A field is `Option<T>`, and it counts as
  set (`IsSet`) only when it is present and not `""` or `0`. So an ISO of 0 or an
  empty camera name can still be filled by a later line.
- A `Counter` is an insertion-ordered list of `(key, count)` pairs.
- A `ValueError` raised by `float()` is an explicit outcome, not an exception.
  - In the parser it is `ValueError`. The caller drops that file.
  - In the display it is `Raises`.

Two points where the code decides differently from the rule a reader would expect:

- **Camera.** The camera rule reads as "`Camera Model Name`, else `Camera Type 2`",
  which suggests the first is preferred. The code has no such preference. Both keys
  only fill an unset camera, so whichever of the two comes first in the dump with a
  non-empty value wins (exif_analyzer.py:143-147). The model follows the code: see
  `ParseFacts.CameraFirstInDocument`.
- **Lens.** The lens comment ranks `RF Lens Type` above `Lens ID`. In the code both
  overwrite, so the last such line wins, even a `Lens ID` after an
  `RF Lens Type`. The model follows the code: see
  `ParseFacts.LastPreferredLensWins`.

## Model

| member | source | states |
|---|---|---|
| LensName.NormalizeKeyShape | exif_analyzer.py:24-48 | The key `NormalizeLensName` computes is lower-case, every whitespace run in it is one space, it has no whitespace at either end, and it is empty exactly when the name is empty or all whitespace |
| LensName.NormalizeIdempotent | exif_analyzer.py:24-48 | Normalising a normalised name changes nothing |
| LensName.NormalizeFixesKey | exif_analyzer.py:24-48 | Every lower-case, collapsed, trimmed text is its own key |
| LensName.CollapseSpaces | exif_analyzer.py:43 | `re.sub(r'\s+', ' ', ...)`: never longer, empty only for empty input, and it starts with whitespace exactly when the input does |
| LensName.CollapseSpacesSpec | exif_analyzer.py:43 | Every character of the result is a space or a non-whitespace character of the input, and no two spaces are adjacent |
| LensName.CollapseRun | exif_analyzer.py:43 | A maximal whitespace run between two texts becomes exactly one space, and the texts on either side collapse on their own |
| LensName.NormalizeWords | exif_analyzer.py:24-48 | Words separated by whitespace runs of any length and kind, with any blank padding, normalise to their lower-case forms joined by single spaces |
| LensName.VariantsShareKey | exif_analyzer.py:24-48 | Two names whose words agree up to ASCII case, with any whitespace runs between them and any blank padding, have the same key |
| LensName.SameIgnoringCaseLower | exif_analyzer.py:39 | Texts equal up to ASCII case lower-case to the same text |
| LensName.CollapseKeepsText | exif_analyzer.py:43 | Collapsing whitespace keeps the non-whitespace characters, in order |
| LensName.CollapseFixesCollapsed | exif_analyzer.py:43 | Text whose whitespace is already single spaces is left unchanged |
| Strings.Lower | exif_analyzer.py:39 | `str.lower()` on ASCII: same length, each upper-case letter becomes the letter 32 code points above it, every other character is unchanged, and whitespace stays where it was |
| Strings.StripSpec | exif_analyzer.py:46 | `str.strip()` drops exactly the leading and the trailing whitespace runs; the result is empty exactly for blank text, and otherwise starts and ends with non-whitespace |
| Strings.StripRemovesPadding | exif_analyzer.py:139-140 | Stripping whitespace padding around a text that starts and ends with non-whitespace gives that text back |
| Strings.SplitJoin | exif_analyzer.py:124 | `split('\n')` gives pieces without the separator, and joining them with it gives the text back |
| Strings.SplitCount | exif_analyzer.py:124 | `split` gives one piece more than there are separators |
| ExifParser.ParseExifOutput | exif_analyzer.py:103-221 | The line loop returns exactly `Parse`: the fold of one `Step` per line of `split('\n')`, starting from the all-`None` record, or `ValueError` |
| ExifParser.ApplyLine | exif_analyzer.py:142-219 | One key/value line updates the six fields exactly as the per-field rules `Apply` says, or raises |
| ExifParser.KeyValueNeedsColon | exif_analyzer.py:126-137 | A line contributes a key and a value exactly when it contains a colon; blank lines and lines without a colon are skipped |
| ExifParser.KeyValueAtFirstColon | exif_analyzer.py:135-140 | A line is split at its first colon, and both halves are stripped |
| ExifParser.CameraCandidate | exif_analyzer.py:143-147 | Only `Camera Model Name` and `Camera Type 2` lines offer a camera, and they offer their value |
| ExifParser.CameraStep | exif_analyzer.py:143-147 | The camera is set from an offered value only while it is still unset |
| ExifParser.LensStep | exif_analyzer.py:149-169 | The lens after one line follows the two tiers `LensAfter` describes |
| ExifParser.IsoCandidateSpec | exif_analyzer.py:171-181 | An `ISO` line, or a `Camera ISO` line without `Auto`, offers an ISO exactly when its value has a digit; the ISO is the number of the first digit run |
| ExifParser.IsoStep | exif_analyzer.py:171-181 | The ISO is filled only while it is unset (None or 0) |
| ExifParser.SpeedCandidate | exif_analyzer.py:183-190 | Only `Shutter Speed`, `Exposure Time` and `Shutter Speed Value` offer a speed, namely their value |
| ExifParser.SpeedStep | exif_analyzer.py:183-190 | The speed is filled only while it is unset |
| ExifParser.ApertureCandidateSpec | exif_analyzer.py:192-206 | `Aperture`, `F Number` and `Aperture Value` lines offer an aperture exactly when the value has a `[\d.]` character; the label is `f/` and then the first maximal `[\d.]` run |
| ExifParser.ApertureStep | exif_analyzer.py:192-206 | The aperture is filled only while it is unset |
| ExifParser.FocalMatchSpec | exif_analyzer.py:212 | `re.search(r'([\d.]+)\s*mm', value, re.IGNORECASE)` fails exactly when no position matches; otherwise group 1 is the `[\d.]` run at the leftmost match |
| ExifParser.FocalCandidateSpec | exif_analyzer.py:209-213 | Only a `Focal Length` line whose value matches the pattern yields a label or an error |
| ExifParser.FocalStep | exif_analyzer.py:208-219 | The focal step raises exactly when the field is unset and `float()` rejects the matched number; otherwise it fills the field with the label while it is unset |
| ExifParser.StepExtends | exif_analyzer.py:126-221 | Parsing one more line either extends the parse by one step or turns it into `ValueError` |
| ExifParser.ErrorPersists | exif_analyzer.py:214 | Once `float()` has raised, the whole parse is `ValueError` |
| ParseFacts.ParsedFields | exif_analyzer.py:142-219 | Camera, ISO, speed, aperture and focal length of a parsed dump are each the first truthy value offered, in document order |
| ParseFacts.FillAllSet | exif_analyzer.py:143-206 | A first-wins field ends up set exactly when some line offers a truthy value |
| ParseFacts.FillAllOffered | exif_analyzer.py:143-206 | A field's final value was offered by some line |
| ParseFacts.FillAllFirstWins | exif_analyzer.py:143-206 | The first truthy offer wins |
| ParseFacts.FillAllKeepsSet | exif_analyzer.py:143-206 | Once set, later lines never change a first-wins field |
| ParseFacts.CameraFirstInDocument | exif_analyzer.py:143-147 | The camera is the value of the first non-empty `Camera Model Name` or `Camera Type 2` line, whichever comes first |
| ParseFacts.IsoUnsetWithoutDigits | exif_analyzer.py:171-181 | Without a truthy ISO offer the ISO stays unset |
| ParseFacts.ApertureSetStays | exif_analyzer.py:192-206 | An aperture set after some lines is the final aperture |
| ParseFacts.LastPreferredLensWins | exif_analyzer.py:152-157 | When the last `RF Lens Type` or `Lens ID` line has a non-empty value, that value is the lens, whatever follows it |
| ParseFacts.PreferredLensSets | exif_analyzer.py:152-157 | An `RF Lens Type` or `Lens ID` line always overwrites the lens |
| ParseFacts.LensKept | exif_analyzer.py:158-169 | A set lens survives every other line |
| ParseFacts.FallbackLensFirstWins | exif_analyzer.py:158-169 | Without `RF Lens Type` or `Lens ID`, the lens is the first truthy `Lens Type`, `Lens Model` or `Lens Info` value |
| ParseFacts.ValueErrorFromFocal | exif_analyzer.py:214 | A parse raises only because of a `Focal Length` line whose number `float()` rejects |
| ParseFacts.LastLineRaises | exif_analyzer.py:214 | The line that turns a parse into `ValueError` is such a `Focal Length` line |
| ParseFacts.NoFloatErrorParses | exif_analyzer.py:126-221 | Without such a line the parse always succeeds |
| ParseFacts.FocalOfferIsLabel | exif_analyzer.py:214-219 | A focal offer is the label of a decimal literal |
| ParseFacts.ParsedFocalIsLabel | exif_analyzer.py:208-219 | A parsed focal length is always such a label |
| ParseExamples.ApertureWithPercentage | exif_analyzer.py:199-201 | `F Number: 2.8 (96%)` gives `f/2.8` |
| ParseExamples.WholeFocal | exif_analyzer.py:210-217 | `Focal Length: 19.00 mm` gives `19mm` |
| ParseExamples.IsoAfterText | exif_analyzer.py:173-176 | `ISO: AUTO 400` gives 400 |
| ParseExamples.CameraIsoAuto | exif_analyzer.py:178 | `Camera ISO: Auto 400` gives nothing |
| ParseExamples.FocalTwoPoints | exif_analyzer.py:212-214 | `Focal Length: 1.2.3 mm` makes `float()` raise |
| ParseExamples.FocalWithSpace | exif_analyzer.py:209-217 | `Focal Length: 37 mm` gives `37mm` |
| ParseExamples.KeyValueOf | exif_analyzer.py:126-140 | A dump line `key: value` with a trimmed key without a colon and a trimmed value splits back into that key and value |
| ParseExamples.LensIdAfterRfLensType | exif_analyzer.py:149-169 | A `Lens Model` line, then `RF Lens Type`, then `Lens ID`, then `Lens Type`: the lens is the `Lens ID` value |
| ParseExamples.PreferredThenFallback | exif_analyzer.py:149-169 | In four plain lines whose third is `RF Lens Type` or `Lens ID` and whose fourth is not, the third line's value is the lens |
| Numbers.WholeFocalExact | exif_analyzer.py:216-217 | `FocalNumber`: a whole focal length is written as the digits of its integer value, and the written number equals the parsed one |
| Numbers.FractionalFocalWithinHalfTenth | exif_analyzer.py:218-219 | `FocalNumber`: a non-whole focal length is written with one decimal, within 0.05 of its value |
| Numbers.HalfUpError | exif_analyzer.py:219 | Rounding to tenths half-up is off by at most 0.05 |
| Numbers.NatToStringRoundTrip | exif_analyzer.py:217 | Reading back the decimal digits written for a number gives the number |
| Numbers.DigitsRoundTrip | exif_analyzer.py:176 | Writing the value of a digit string without leading zeros gives the string back |
| Numbers.ParseFloatLiteral | exif_analyzer.py:482-487 | `ParseFloat`, the model of `float()`, reads a padded decimal literal as its exact value and rejects blank text |
| Counting.IncCounts | exif_analyzer.py:341 | `counter[k] += 1` adds one to `k` and changes no other count |
| Counting.IncKeys | exif_analyzer.py:341 | A key already counted keeps its place; a new key goes last |
| Counting.IncTotal | exif_analyzer.py:341 | An increment adds one to the total |
| Counting.IncValid | exif_analyzer.py:341 | An increment keeps each key once with a positive count |
| Counting.TallyCounts | exif_analyzer.py:338-375 | A counter fed a sequence counts each value by its number of occurrences |
| Counting.TallyTotal | exif_analyzer.py:338-375 | Its counts add up to the length of the sequence |
| Counting.TallyKeySet | exif_analyzer.py:338-375 | Its keys are the values of the sequence |
| Counting.TallyKeyOrder | exif_analyzer.py:338-375 | Its keys come in the order of first appearance |
| Counting.FirstMaxIndex | exif_analyzer.py:334 | `max(items, key=count)` picks a maximal count, and the first maximal one in insertion order |
| Counting.GetAbsent | exif_analyzer.py:428 | Looking up a key a `Counter` lacks gives 0 |
| Statistics.BuildCanonicalMap | exif_analyzer.py:325-335 | The two loops of the first pass compute exactly `CanonicalMap` of the truthy lenses |
| Statistics.VariationsStep | exif_analyzer.py:326-329 | Each truthy lens adds one to its own spelling under its normalised key |
| Statistics.GroupMembers | exif_analyzer.py:326-329 | The spellings grouped under a key are the truthy lenses that normalise to it |
| Statistics.CanonicalIsMostCommonVariant | exif_analyzer.py:331-335 | The canonical name of a key is one of its spellings, with a maximal count, and the earliest seen among those with that count |
| Statistics.CanonicalOwnKeys | exif_analyzer.py:331-335 | A canonical name normalises to its own key |
| Statistics.CanonicalCovers | exif_analyzer.py:344-375 | Every truthy lens in the batch has its key in the map, so the lookups at lines 346, 364 and 374 never fail |
| Statistics.CountRecord | exif_analyzer.py:339-375 | One iteration of the second pass turns the counters for the first `i` records into those for `i + 1` |
| Statistics.CountAll | exif_analyzer.py:338-375 | The second pass computes `Counts` of all records |
| Statistics.GenerateStatistics | exif_analyzer.py:297-377 | The result is `Statistics(results)` |
| Statistics.PresentMembers | exif_analyzer.py:340-369 | A field's values are counted exactly for the records where the field is truthy |
| Statistics.ByLensCounts | exif_analyzer.py:361-375 | Each per-lens counter counts the field's values among that lens's photos; a lens has a counter exactly when one of them has a value |
| Statistics.FieldCountBounded | exif_analyzer.py:340-369 | A field's counts add up to at most the number of photos |
| Statistics.StatisticsBounded | exif_analyzer.py:314-369 | `total_photos` is `len(results)`, and no count of any table exceeds it |
| Statistics.LensesMerged | exif_analyzer.py:343-347 | A canonical name counts every photo whose lens normalises to its key, and all lens counts add up to the number of photos with a lens |
| Statistics.PerLensTables | exif_analyzer.py:361-375 | A per-lens table counts at least one photo and at most `lenses[L]` photos in all |
| CanonicalExamples.CapitalisedKey | exif_analyzer.py:24-48 | `Canon RF 50mm` has the key `canon rf 50mm` |
| CanonicalExamples.LowerCaseKey | exif_analyzer.py:24-48 | `canon rf 50mm` is its own key |
| CanonicalExamples.TabAndCaseVariant | exif_analyzer.py:24-48 | ` Canon<tab>RF  50mm<newline>` also has the key `canon rf 50mm` |
| CanonicalExamples.ThreeWordsKey | exif_analyzer.py:24-48 | Three words with any whitespace runs between them and blank padding have the key of their lower-case forms joined by single spaces |
| CanonicalExamples.MajorityRule | exif_analyzer.py:325-335 | Three lenses spelt one way and one spelt another way with the same key give one key, whose canonical name is the majority spelling |
| CanonicalExamples.MajoritySpelling | exif_analyzer.py:325-335 | Three `Canon RF 50mm` and one `canon rf 50mm` give the single key `canon rf 50mm`, named `Canon RF 50mm` |
| CanonicalExamples.MajorityTable | exif_analyzer.py:325-347 | For such a batch the lens table counts all four photos under the majority spelling |
| CanonicalExamples.MajorityCounted | exif_analyzer.py:325-347 | Four photos, three with `Canon RF 50mm` and one with `canon rf 50mm`: the lens table gives `Canon RF 50mm` a count of 4 |
| Ranking.SortSorted | exif_analyzer.py:462-465 | The sort orders rows by count descending and then by key ascending, and it is a permutation |
| Ranking.SortStable | exif_analyzer.py:462-465 | Rows with equal count and key keep their counter order |
| Ranking.RankTableSpec | exif_analyzer.py:491-494 | A ranked table has `min(n, rows)` rows, each a row of the counter, in `(-count, key)` order, and no row left out ranks ahead of a row kept |
| Ranking.MostCommonOrder | exif_analyzer.py:398 | `most_common` orders by count alone, and equal counts stay in insertion order |
| Ranking.LabelKey | exif_analyzer.py:442-445 | The aperture and focal key raises only on a first `[\d.]` run that `float()` rejects |
| Ranking.RankLabels | exif_analyzer.py:506-509 | An aperture or focal table raises exactly when one of its labels makes the key raise |
| Ranking.ApertureLabelKey | exif_analyzer.py:506-509 | `f/<run>` sorts by the value of the run, and raises when `float()` rejects the run |
| Ranking.FocalLabelKey | exif_analyzer.py:521-524 | A focal label written by the parser sorts by its number and never raises |
| Ranking.LabelWithoutNumber | exif_analyzer.py:521-524 | A label without `[\d.]` sorts as 0 |
| Ranking.SpeedFraction | exif_analyzer.py:479-482 | `SpeedKey`, the model of `sort_speed`: `a/b` sorts by `a / b` |
| Ranking.SpeedZeroDenominator | exif_analyzer.py:479-484 | A zero denominator sorts as infinity |
| Ranking.SpeedManySlashes | exif_analyzer.py:479-484 | Two or more slashes make the unpacking fail: the speed sorts as infinity |
| Ranking.SpeedWhole | exif_analyzer.py:485-487 | A plain number sorts by its value |
| Display.Percentage | exif_analyzer.py:399 | `(count / denom) * 100` fails exactly for a zero denominator; times the denominator it gives `100 * count`, and it lies in [0, 100] when `count <= denom` |
| Display.Rows | exif_analyzer.py:466-468 | A printed table has one row per ranked row, with that row's percentage; it raises exactly when it is non-empty over a zero denominator |
| Display.RankedRowsShare | exif_analyzer.py:398-399 | A table ranked from a counter whose counts are positive and total at most the denominator prints every share between 0 and 100 and never divides by zero |
| Display.LabelRowsShare | exif_analyzer.py:501-512 | Under the same conditions an aperture or focal table raises exactly on a bad label |
| Display.BadLabelTally | exif_analyzer.py:506-509 | A counter holds a label that makes the key raise exactly when the counted values do |
| Display.PerLensTablesWithin | exif_analyzer.py:414-453 | Every per-lens table totals at most `lenses[L]`, with positive counts, and holds a bad label only if the overall table does |
| Display.ShowConsistent | exif_analyzer.py:378-533 | `Show`, the model of `display_statistics`: displaying consistent statistics never divides by zero, prints every percentage in [0, 100], and raises exactly when the overall aperture or focal table holds a bad label |
| Display.StatisticsConsistent | exif_analyzer.py:338-375 | `generate_statistics` always returns consistent statistics |
| Display.ShowStatistics | exif_analyzer.py:378-533 | For any batch, the display never raises `ZeroDivisionError`, every percentage is in [0, 100], and it raises `ValueError` exactly when an aperture or focal label has a number `float()` rejects |
| Display.ParsedFocalLabelsRank | exif_analyzer.py:521-529 | Focal labels as the parser writes them never make the display raise |
| Display.LonePointApertureRaises | exif_analyzer.py:501-509 | A photo with aperture `f/.` makes the display raise |

## Left out

- `extract_exif_from_raw` runs ExifTool in a subprocess with a timeout. It is foreign I/O. `ParseExifOutput` takes its text as a parameter.
- `process_single_file`, `load_raw_files` and `display_results` are left out. They cover file globbing, the `multiprocessing.Pool` fan-out and the `try/except` that turns a failed file into `None`. The model only states when parsing raises (`ParseFacts.ValueErrorFromFocal`). Dropping such files is the caller's concern.
- `main`, `print_banner`, the `argparse` block and every `print` are console and command-line handling. `Display.Show` keeps the rows and percentages and leaves out the headings and the column formatting.
- Display.Show: the per-lens sections are a map from lens name to rows. The order `sorted()` prints them in is not modelled. It does not change which rows or percentages appear.
- Display.Show: an exception is modelled as `Raises`. The model does not say which table raises first, or how much was printed before it.
- IEEE floating point is modelled with exact rationals (`real`). This covers `float()`, the sort keys and the percentages.
  - Numbers.FractionalFocalWithinHalfTenth: only states that the `.1f` label is within 0.05 of the value. The model rounds the exact decimal half-up. Python rounds the nearest binary double, and an exact tie to even. So the labels differ on some ties: `0.25` is `0.2` in Python and `0.3` in the model; `12.25` is `12.2mm` against `12.3mm`; `0.15` (a double just below 0.15) is `0.1` against `0.2`.
- Numbers.ParseFloat: reads only an optional sign followed by a decimal literal. `float()` also accepts exponents, `inf`, `nan` and underscores. Such speeds sort as infinity in the model. The parser's `[\d.]` runs never contain them.
- `str.lower()`, `\s`, `\d` and `[\d.]` are modelled on ASCII only. Whitespace is the characters `str.isspace()` accepts below 128, and a digit is `0` to `9`. Unicode case mapping, non-ASCII whitespace and the non-ASCII digits that Python's `\d`, `int()` and `float()` accept are not modelled.
