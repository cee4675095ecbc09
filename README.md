# droid-camres output generator, modelled in Dafny

droid-camres lists the capture resolutions a device's cameras report and
turns them into two files. This project models the two generators that
build those files.

- `OutputGen::makeCamhw` builds the camera-hardware settings file:
  - for every camera with resolution groups, and for every group whose label
    starts with `viewfinder`, `image` or `video`, it splits each resolution
    token (`WxH`, `WxH@N/D`, `WxH@N/D-M/E`) on `x @ - /`;
  - it keeps viewfinder tokens that fit the screen in either orientation, and
    keeps 4:3 and 16:9 tokens (video: 16:9 with a frame rate);
  - it builds a placeholder key such as `@BACIMAGE169RES@` and keeps, per key,
    the candidate of largest area whose frame rate does not fall below the
    group's best so far;
  - it then replaces every key by its value in every line of a template.
- `OutputGen::makeJson` writes one object per camera with groups. It holds one
  array per non-viewfinder group and one record per distinct base resolution.

Files:

| file | module | contents |
|---|---|---|
| `wrappers.dfy` | `Wrappers` | `Option` |
| `text.dfy` | `Text` | the QString operations the generators use: `split` on the token delimiters, `split(..).first()`, `left`, `toUpper`/`toLower`, `toInt`, `QString::number`, `replaceInStrings` |
| `ordered_map.dfy` | `OrderedMap` | `QMap<QString, V>` as a list sorted by QString's `<`, so that iteration order is part of the model |
| `resolution.dfy` | `Resolution` | cameras, groups, the screen, group type dispatch, the screen-fit test, C++ integer division, the frame rate of a token, the placeholder keys, and `Admit` (what one token offers, if anything) |
| `camhw.dfy` | `Camhw` | the makeCamhw loops as methods, each proved equal to a fold function; the replacement rule; the template substitution; the lemmas about the selection |
| `json.dfy` | `Json` | makeJson as methods over the emitted document structure, the duplicate check, the separator placement as written and corrected |

The settings-file scan keeps one key-to-value map across all cameras and
groups. Area sizes and the top frame rate start afresh for every group.
The lemmas rely on this: a group overwrites a key that an earlier group or
camera set, when it has a candidate for that key. A token whose field
count or frame-rate fields would make the generator read past the split
list, divide by zero or overflow the division is a precondition of the
scan (`Resolution.TokenSafe`), stated only for tokens that reach those
operations. A token whose denominator is zero is not skipped: dividing by
zero is undefined behaviour in C++.

## Model

| member | source | states |
|---|---|---|
| Text.Split | src/outputgen.cpp:197 | splitting on `x`, `@`, `-`, `/` yields one field more than there are delimiters, and no field contains a delimiter |
| Text.SplitSingle | src/outputgen.cpp:197 | a string without delimiters splits into itself |
| Text.SplitField | src/outputgen.cpp:197 | the split of `a`, a delimiter, `b` is `a` followed by the split of `b` |
| Resolution.SplitGlue | src/outputgen.cpp:197 | splitting undoes joining delimiter-free fields with delimiters |
| Resolution.PlainToken | src/outputgen.cpp:197-198 | `WxH` with digit-only fields splits into exactly `[W, H]` |
| Resolution.SingleRateToken | src/outputgen.cpp:219-223 | `WxH@N/D` splits into four fields, and its frame rate is N divided by D |
| Resolution.RangeRateToken | src/outputgen.cpp:224-226 | `WxH@N/D-M/E` splits into six fields, and its frame rate is the top of the range, M divided by E, whatever N/D is |
| Text.ToInt | src/outputgen.cpp:198 | `toInt` gives a value in the 32-bit range |
| Text.ToIntValue | src/outputgen.cpp:198 | digits with an optional sign read as their value when it fits 32 bits and as 0 when it does not; any other text reads as 0 |
| Text.NaturalDigitsValue | src/outputgen.cpp:239 | the decimal digits written for a natural number read back as that number |
| Text.ToIntNumber | src/outputgen.cpp:239 | the frame-rate text written by `QString::number` parses back to the frame rate, for every 32-bit value |
| Text.ToIntNonNegative | src/outputgen.cpp:198 | a field cut out between delimiters reads as a non-negative number |
| Text.Number | src/outputgen.cpp:239 | the frame-rate text is never empty and has no delimiter when the rate is not negative |
| Text.NaturalDigits | src/outputgen.cpp:239 | the digits of a natural number are decimal digits with no delimiter |
| Text.BeforeFirst | src/outputgen.cpp:99 | `split(sep).first()` is a prefix of the text, holds no `sep`, and is followed by `sep` when it is shorter than the text |
| Text.StartsWith | src/outputgen.cpp:178-186 | `startsWith(p)` holds exactly when the text is at least as long as `p` and begins with it (also line 85) |
| Text.Left | src/outputgen.cpp:170 | `left(n)` is the prefix of length `min(n, length)` |
| Text.Upper | src/outputgen.cpp:170 | `toUpper` keeps the length and maps every character |
| Text.Lower | src/outputgen.cpp:81 | `toLower` keeps the length and maps every character |
| Text.Pieces | src/outputgen.cpp:256 | the text cut at the occurrences of a key has at least one piece |
| Text.PiecesJoin | src/outputgen.cpp:256 | joining the pieces with the key gives back the text |
| Text.PiecesFree | src/outputgen.cpp:256 | no piece contains the key, so every occurrence is replaced |
| Text.ReplaceAll | src/outputgen.cpp:256 | `replace(k, v)` scans left to right without overlap; replacing a key by itself changes nothing, and `Text.ReplaceAllIsJoin` and `Text.ReplaceAllAbsent` state what it does |
| Text.ReplaceAllIsJoin | src/outputgen.cpp:256 | replacing every occurrence of the key is joining the pieces with the value |
| Text.ReplaceAllAbsent | src/outputgen.cpp:256 | a line without the key is left unchanged |
| OrderedMap.Less | src/outputgen.cpp:248-250 | QString's `<`, the order the map loop visits keys in: a proper prefix sorts first and no key sorts before an equal one; `OrderedMap.LessIrreflexive`, `LessTransitive` and `LessTotal` make it a strict total order |
| OrderedMap.LessIrreflexive | src/outputgen.cpp:248-250 | no key comes before itself |
| OrderedMap.LessTransitive | src/outputgen.cpp:248-250 | the key order is transitive |
| OrderedMap.LessTotal | src/outputgen.cpp:248-250 | any two distinct keys are ordered |
| OrderedMap.Get | src/outputgen.cpp:233 | a lookup finds a value exactly when the key is in the map |
| OrderedMap.Value | src/outputgen.cpp:233 | `value(key)` is the stored value when the key is present and the default (empty text, area 0) otherwise |
| OrderedMap.Insert | src/outputgen.cpp:235-236 | after an insert the key maps to the new value, every other key is unchanged, the key set grows by the key, and the order is kept |
| OrderedMap.SortedGet | src/outputgen.cpp:248-252 | in an ordered map, the lookup of each entry's key finds that entry's value |
| Resolution.KindOf | src/outputgen.cpp:178-191 | a group is a viewfinder, image or video group exactly when its label starts with `viewfinder`, `image` or `video`, and unknown otherwise |
| Resolution.PrefixesExclusive | src/outputgen.cpp:178-191 | no label starts with two of the three group prefixes |
| Resolution.CamKey | src/outputgen.cpp:170 | the camera key is the upper-cased first three letters of the name (fewer for a shorter name) |
| Resolution.Tag | src/outputgen.cpp:180-189 | the tag is `VF`, `IMAGE` or `VIDEO` exactly for viewfinder, image or video groups |
| Resolution.Prefix | src/outputgen.cpp:180-189 | the key prefix is `@`, the camera key and `VF`, `IMAGE` or `VIDEO`; `VF` exactly for viewfinder groups and `VIDEO` exactly for video groups |
| Resolution.Suffix | src/outputgen.cpp:205-215 | the aspect part of the key is `43` exactly for 4:3; for any other aspect it is empty in a video group and `169` otherwise. `Resolution.Admit` reaches it only for 4:3 and 16:9, the other aspects being skipped on lines 206-215 |
| Resolution.FpsKey | src/outputgen.cpp:239 | the frame-rate key is `@`, the camera key and `VIDEOFPS@` |
| Resolution.FitsScreen | src/outputgen.cpp:199-203 | a viewfinder passes exactly when it fits the screen upright or turned by 90 degrees |
| Resolution.TruncDiv | src/outputgen.cpp:222 | C++ division truncates toward zero: the remainder is smaller than the divisor and has the dividend's sign |
| Resolution.TruncDivInRange | src/outputgen.cpp:222-225 | a division that neither divides by zero nor overflows gives a 32-bit value |
| Resolution.RateNonNegative | src/outputgen.cpp:219-226 | the frame rate of a token is never negative |
| Resolution.AreaNonNegative | src/outputgen.cpp:198 | the area of a token is never negative |
| Resolution.FrameRate | src/outputgen.cpp:219-230 | a frame rate exists exactly for 4 or 6 fields and is a 32-bit value |
| Resolution.ResKeyNotFpsKey | src/outputgen.cpp:232-239 | a resolution key is never the frame-rate key |
| Resolution.Admit | src/outputgen.cpp:197-232 | a token is a candidate exactly when it passes the screen fit (viewfinder), the aspect test (4:3 except video, or 16:9) and, for video, has a frame rate; the key, value, area and rate are the ones the generator computes, area and rate are never negative, and the key is never the frame-rate key |
| Camhw.Stored | src/outputgen.cpp:233 | the replacement test passes only for a rate at least the group's top; for an unset key exactly then, and for a key with a non-empty value exactly when the area is also at least the stored one |
| Camhw.StepToken | src/outputgen.cpp:196-243 | a token that is not admitted changes nothing; an admitted one changes no key but its own and, in a video group, the frame-rate key; the top frame rate never falls |
| Camhw.Offer | src/outputgen.cpp:233-241 | a candidate is stored exactly when the key is unset or its area is at least the stored one, and its frame rate is at least the group's top; storing sets value, area and, for video, the frame-rate text and top; nothing else changes |
| Camhw.ScanTokens | src/outputgen.cpp:195-244 | the token loop as a fold over the group state (map, areas, top rate); `Camhw.ScanGroupTokens` is proved equal to it, and `Camhw.ScanMonotone`, `Camhw.ScanFollowsBest` and `Camhw.VideoScan` state what it computes |
| Camhw.ScanGroup | src/outputgen.cpp:171-245 | one group: unknown types leave the map as it was, the others are scanned with fresh areas and top rate (lines 193-194); `Camhw.ImageGroupKeepsLastLargest` and `Camhw.VideoGroupPairs` state the result |
| Camhw.ScanGroups | src/outputgen.cpp:171-245 | the group loop as a fold; `Camhw.ScanCameraGroups` is proved equal to it and `Camhw.ScanGroupsWellFormed` states what it keeps |
| Camhw.ScanGroupsSkipped | src/outputgen.cpp:191 | groups of unknown type or without tokens leave the map as it was |
| Camhw.ScanCameras | src/outputgen.cpp:162-246 | the camera loop as a fold over the shared map; `Camhw.SelectResolutions` is proved equal to its run from an empty map, and `Camhw.ScanCamerasWellFormed` states what it keeps |
| Camhw.ScanCamerasSkipped | src/outputgen.cpp:164-168 | cameras without groups leave the map as it was |
| Camhw.Selection | src/outputgen.cpp:162-246 | the map the whole scan builds from an empty one; `Camhw.SelectionWellFormed` and `Camhw.SelectionKeyShapes` state its shape |
| Camhw.ScanGroupTokens | src/outputgen.cpp:193-244 | the token loop of one group computes the token fold over a fresh area map and top rate |
| Camhw.ScanToken | src/outputgen.cpp:196-243 | one pass of the token loop (the filters, then the replacement test) leaves the map, the areas and the top frame rate exactly as one step of the token fold |
| Camhw.OfferCandidate | src/outputgen.cpp:232-241 | the replacement test and the inserts of the loop body leave the map, the areas and the top frame rate exactly as one offer of the candidate does |
| Camhw.ScanCameraGroups | src/outputgen.cpp:171-245 | the group loop computes the group fold, skipping unknown group types |
| Camhw.SelectResolutions | src/outputgen.cpp:162-246 | the camera loop computes the selection, skipping cameras without groups |
| Camhw.ReplaceInStrings | src/outputgen.cpp:256 | `replaceInStrings` keeps the line count and replaces the key in every line |
| Camhw.SubstituteFrom | src/outputgen.cpp:248-257 | the map loop as a fold over the lines; it keeps the line count, and `Camhw.Substitute` is proved equal to it |
| Camhw.ReplaceEach | src/outputgen.cpp:248-257 | every entry replaced in turn in one line; entries whose value is their own key leave the line unchanged, and `Camhw.SubstituteLineWise` ties it to `Camhw.SubstituteFrom` |
| Camhw.Substitute | src/outputgen.cpp:248-257 | the map loop replaces every key, in ascending key order, skipping empty values |
| Camhw.SubstituteLineWise | src/outputgen.cpp:248-257 | with no empty value, every line gets every replacement, and the line count is kept |
| Camhw.ReplaceEachUntouched | src/outputgen.cpp:256 | a line holding none of the keys comes out unchanged |
| Camhw.MakeCamhw | src/outputgen.cpp:162-260 | the output has the template's lines; each is the template line with every selected key replaced; a line with no key is copied unchanged |
| Camhw.StepWellFormed | src/outputgen.cpp:232-241 | one token keeps the map sorted, keeps all values non-empty, and adds only keys that token was admitted for |
| Camhw.ScanTokensWellFormed | src/outputgen.cpp:195-244 | the same for a whole group |
| Camhw.ScanGroupsWellFormed | src/outputgen.cpp:171-245 | the same for all groups of a camera |
| Camhw.ScanCamerasWellFormed | src/outputgen.cpp:162-246 | the same for all cameras |
| Camhw.TokenKeysAdmitted | src/outputgen.cpp:162-246 | the keys of any token of any known group of any camera are among the keys the whole input admits |
| Camhw.SelectionWellFormed | src/outputgen.cpp:248-257 | the final map is sorted, every value is non-empty (so "Not found suitable resolution" is never reported), and every key was admitted for some token |
| Camhw.TokenKeysShape | src/outputgen.cpp:178-232 | a token's keys are among the six placeholder keys of its camera |
| Camhw.SelectionKeyShapes | src/outputgen.cpp:170-239 | every key of the final map is one of the six placeholder keys of a camera that has groups |
| Camhw.StepMonotone | src/outputgen.cpp:233-241 | one token never lowers a stored area or the top frame rate, and never removes a key |
| Camhw.ScanMonotone | src/outputgen.cpp:193-244 | within a group, stored areas and the top frame rate only grow |
| Camhw.Candidates | src/outputgen.cpp:195-232 | the candidates collected for a key all carry that key |
| Camhw.BestFromLastLargest | src/outputgen.cpp:233 | the reference scan ("a later one wins on equal or larger area") ends on the last candidate of largest area, or keeps what it held when that was larger |
| Camhw.ScanFollowsBest | src/outputgen.cpp:193-244 | in an image or viewfinder group the scan stores, for every key, what the reference scan picks |
| Camhw.ImageGroupKeepsLastLargest | src/outputgen.cpp:193-244 | in an image or viewfinder group a key ends with the last candidate of largest area, whatever it held before the group, and is untouched when there is no candidate |
| Camhw.VideoScan | src/outputgen.cpp:193-244 | in a video group, whatever is stored came from one token; once stored, the key stays stored; an admitted token ensures the key is stored |
| Camhw.VideoGroupPairs | src/outputgen.cpp:216-241 | after a video group the VIDEORES@ and VIDEOFPS@ values come from the same token, the FPS text parses back to its rate, and any admitted token guarantees an entry |
| Json.WordKey | src/outputgen.cpp:81 | a camera key (first word of the name) or group key (label text before the first `-`, line 95) is the lower-cased text before the first separator, contains no separator, and is followed by the separator when shorter than the text |
| Json.CameraKey | src/outputgen.cpp:81 | the camera key is the lower-cased name up to its first space |
| Json.GroupKey | src/outputgen.cpp:95 | the group key is the lower-cased label up to its first `-` |
| Json.Base | src/outputgen.cpp:99 | the base resolution is a prefix of the token without `@`, followed by `@` when shorter than the token: the text before the first `@` |
| Json.FirstWord | src/outputgen.cpp:81 | the first part of a split is the first word, whatever follows |
| Json.WordKeyFirstWord | src/outputgen.cpp:95 | a label that is a word, the separator and more has the lower-cased word as its key: `image-resolution-values` gives `image`, `Back camera` gives `back` |
| Json.Positions | src/outputgen.cpp:70-88 | every written camera or group is a kept one, in input order |
| Json.PositionsCover | src/outputgen.cpp:70-88 | every kept camera or group is written |
| Json.PositionsFront | src/outputgen.cpp:70-88 | at most one position per item, and a kept first item is written first |
| Json.Firsts | src/outputgen.cpp:96-106 | the written token positions are increasing |
| Json.FirstsDistinct | src/outputgen.cpp:100 | no base resolution is written twice |
| Json.FirstsCover | src/outputgen.cpp:97-105 | every token's base resolution is written |
| Json.FirstsFirst | src/outputgen.cpp:100 | a token is written only when no earlier token has its base resolution (first-occurrence order) |
| Json.EmitRecords | src/outputgen.cpp:96-106 | a group has at most one record per token, and a group with tokens starts with the record of its first token |
| Json.EmitRecordsEachBase | src/outputgen.cpp:96-106 | the records hold distinct resolutions, every token's base resolution has a record, and every record is the base of some token |
| Json.EmitGroups | src/outputgen.cpp:83-109 | a camera has at most one array per group, and a first group that is not a viewfinder group gives the first array, without a comma |
| Json.GroupsUpToAt | src/outputgen.cpp:83-109 | writing the groups one after the other gives the arrays of the kept groups in input order |
| Json.Document | src/outputgen.cpp:70-113 | the document has at most one object per camera, and a first camera with groups gives the first object, without a comma |
| Json.CamerasUpToAt | src/outputgen.cpp:70-113 | writing the cameras one after the other gives the objects of the cameras with groups in input order |
| Json.DocumentCameras | src/outputgen.cpp:70-81 | every camera with groups gets one object, and every object comes from such a camera |
| Json.GroupsSkipViewfinder | src/outputgen.cpp:83-95 | every group not starting with `viewfinder` gets one array, and every array comes from such a group |
| Json.CorrectedWellSeparated | src/outputgen.cpp:78-104 | with corrected comma placement every list in the document is well separated |
| Json.CorrectedGroupsSeparated | src/outputgen.cpp:90-104 | with corrected comma placement a camera's arrays and each array's records are well separated |
| Json.AsWrittenRecordsSeparated | src/outputgen.cpp:104 | as written, a group's records are well separated exactly when its last token is not a repeat |
| Json.LastCommaAsWritten | src/outputgen.cpp:104 | as written, records at increasing positions are well separated exactly when the last one is the group's last token |
| Json.AsWrittenGroupsLead | src/outputgen.cpp:90-91 | as written, a camera's arrays are separated correctly exactly when its first group is not a viewfinder group |
| Json.AsWrittenCamerasLead | src/outputgen.cpp:78-79 | as written, the camera objects are separated correctly exactly when the first camera has groups |
| Json.TrailingCommaAfterRepeat | src/outputgen.cpp:104 | `640x480@30/1`, `640x480@15/1` gives one record followed by a comma |
| Json.LeadingCommaAfterViewfinder | src/outputgen.cpp:90-91 | a viewfinder group listed first makes the next array start with a comma |
| Json.LeadingCommaAfterEmptyCamera | src/outputgen.cpp:78-79 | a first camera without groups makes the next object start with a comma |
| Json.JsonRecords | src/outputgen.cpp:96-106 | the token loop with its `repeatCheck` writes one record per distinct base resolution, each followed by a comma unless its token is the group's last (the records as written) |
| Json.JsonGroups | src/outputgen.cpp:83-109 | the group loop writes the arrays of non-viewfinder groups, each preceded by a comma when its group index is above 0 (the arrays as written) |
| Json.MakeJson | src/outputgen.cpp:70-113 | the camera loop writes the objects of the cameras with groups, each preceded by a comma when its camera index is above 0 (the document as written) |

## Left out

- File handling is not modelled:
  - opening the output and template files and their failure paths;
  - the fixed template path;
  - the `endl` writes and the JSON indentation.
  The template is a sequence of lines and the outputs are returned.
- `dump`, `qInfo`, `qWarning` and `qCritical` are not modelled. They only log.
- `Camres::aspectRatioForResolution` and `Camres::findBestViewFinderForResolution` are not part of this model. They are function parameters (`aspect`, `findViewfinder`).
- `Text.ToInt` does not trim surrounding whitespace as `QString::toInt` does, because tokens never carry any.
- `Resolution.Admit` computes the area `W*H` with unbounded integers, because the 32-bit product of two camera dimensions does not overflow.
- `Text.Upper` and `Text.Lower` map only ASCII letters, because camera names and group labels are ASCII.
- `OrderedMap.Less` compares characters by code point. QString compares UTF-16 units, which differ only beyond the Basic Multilingual Plane.
- `Camhw.SelectResolutions` requires one group list per camera and safe tokens (`Camhw.InputSafe`). An out-of-range `at()` and C++ division by zero or overflow are undefined behaviour, so those inputs are excluded rather than modelled.
- `Json.MakeJson` models the object, array and record structure with its comma flags. The JSON text is not produced character by character. The methods place commas as the code does; the corrected placement is `Json.Document(Corrected, ...)`, see Findings.
- Two cameras whose names share their first three letters share every placeholder key, so the later camera overwrites the earlier one's value for each key it has a candidate for. The model keeps this behaviour (`Camhw.ImageGroupKeepsLastLargest`) and does not flag it.
- Unknown group types are skipped by the settings-file scan. The JSON writer only skips viewfinder groups, so unknown groups appear in the JSON. The model follows the code.

## Findings

| source | as written | input that shows it | evidently intended | confidence | as-written member | corrected member |
|---|---|---|---|---|---|---|
| src/outputgen.cpp:104 | a record is followed by a comma unless its token is the group's last | tokens `640x480@30/1`, `640x480@15/1`: one record is written, followed by a comma and then `]` | a comma only between written records | not executed; high | Json.TrailingCommaAfterRepeat | Json.CorrectedWellSeparated |
| src/outputgen.cpp:90-91 | an array is preceded by a comma whenever its group index is above 0 | groups `viewfinder-…`, `image-…`: the image array is the first written and starts with a comma | a comma only before an array that follows another | not executed; high | Json.LeadingCommaAfterViewfinder | Json.CorrectedWellSeparated |
| src/outputgen.cpp:78-79 | a camera object is preceded by a comma whenever its camera index is above 0 | camera 0 without groups, camera 1 with groups: the first object written starts with a comma | a comma only before an object that follows another | not executed; high | Json.LeadingCommaAfterEmptyCamera | Json.CorrectedWellSeparated |
