# astrokat observation planning and control, modelled in Dafny

astrokat is the MeerKAT observation framework: an observation file (YAML) names
instrument settings, durations and one or more observation loops, each with an
LST range and a list of target strings such as
`name=J1939-6342, radec=19:39:25.03 -63:42:45.6, tags=bpcal, duration=300`.
The library reads and validates that file, turns target strings into target
records, decides which loop may run at the current local sidereal time (LST),
picks the next target (cadence targets first), checks that it is above the
horizon, dispatches it to a track or one of the scan types, drives the noise
diode, and repeats until the observation time is used up. A set of scripts
converts calibrator catalogues into observation files, lists targets and
calibrators, converts dates to LST, refits calibrator flux models, plots uv
coverage, and rewrites antenna positions in the array configuration.

This project models that core, one Dafny module per source file:

| module | file | models |
|---|---|---|
| `Common`, `Text`, `Numbers` | common.dfy, text.dfy, numbers.dfy | Result/Option, Python string operations (`split`, `strip`, `join`, `in`), digits and `"%.Nf"` formatting |
| `Package` | package.dfy | astrokat/__init__.py: lead time and the per-band noise-diode cycle limit |
| `Utility` | utility.dfy | astrokat/utility.py: `read_yaml`'s clean-up and validation of the plan, `get_lst` |
| `Targets` | targets.dfy | astrokat/targets.py: `unpack_target`, `get_radec_coords` routing, `katpoint_target`, `build_target`, `read` |
| `ObsDict`, `ObsYaml`, `TargetRoundTrip` | obs_dict.dfy, obs_yaml.dfy, target_round_trip.dfy | astrokat/obs_dict.py and astrokat/obs_yaml.py, and the round trip between writing and reading a target string |
| `ObserveMain` | observe_main.dfy | astrokat/observe_main.py: LST gate, `cadence_target`, `above_horizon`, `observe` dispatch, `subarray_setup`, the run loop and its termination, cycle quantisation |
| `Scans` | scans.dfy | astrokat/scans.py |
| `NoiseDiode` | noisediode.dfy | astrokat/noisediode.py as a request planner over an explicit clock |
| `Simulate` | simulate.dfy | astrokat/simulate.py: the simulated session and its clock |
| `Observatory` | observatory.dfy | astrokat/observatory.py |
| `LegacyObserve` | legacy_observe.dfy | scripts/astrokat-observe.py |
| `ObserveScript` | observe_script.dfy | scripts/observe.py |
| `Catalogue2ObsFile`, `LegacyCatalogue2ObsFile`, `Catalogue2Config` | catalogue2obsfile.dfy, catalogue2obsfile_legacy.dfy, catalogue2config.dfy | the three catalogue converters |
| `CalTargets`, `Cals` | cal_targets.dfy, cals.dfy | scripts/astrokat-targets.py and scripts/astrokat-cals.py |
| `LstScript` | lst_script.dfy | scripts/astrokat-lst.py |
| `FitFlux` | fitflux.dfy | scripts/astrokat-fitflux.py |
| `UvCoverage` | uvcoverage.dfy | scripts/astrokat-uvcoverage.py |
| `UpdateAntennas` | update_antennas.dfy | config/update_mkat_antennas.py |

Where the source changes state step by step, the model does too. The run
loops, the simulated session, the noise-diode container, the scan session,
the catalogue builders and the uv-coverage arrays are classes whose methods
update their fields or arrays. Each such method is proved against a function
of the old state, and the properties are proved about that function. Pure
helpers are functions with contracts and lemmas beside them.

Sky and hardware are parameters. These are the ephemeris (elevation, rise and
set times, sidereal time), the wall clock, katcp replies, and the contents of
files and directories. They are given as functions or datatypes of values, so
every property holds whatever the sky and the telescope answer.

Numbers are exact: `real` stands for Python floats and `int`/`nat` for Python
integers. Text is `seq<char>`, with ASCII whitespace and digits. A YAML document
is the `Utility.Yaml` datatype, with key order abstracted away. A dictionary
that is written out as text keeps its order as a sequence of pairs.

## Model

| member | source | states |
|---|---|---|
| Package.MaxCycleLen | astrokat/__init__.py:7-12 | the longest noise-diode cycle is 31 s exactly when the band, lower-cased, is "u", and 20 s (the L-band default) exactly otherwise |
| Package.UhfBands | astrokat/__init__.py:8 | the UHF buffer is chosen for "u" and "U" and for no other band name |
| Utility.FirstSpace | astrokat/utility.py:52-57 | the date part that `strptime` reads before the blank: no whitespace before the index, whitespace at it unless it is the end |
| Utility.ShortNumber | astrokat/utility.py:142 | an hour or minute field is read exactly when it is one or two digits whose value is within the field's bound |
| Utility.HourMinute | astrokat/utility.py:142 | a text `strptime(..., "%H:%M")` accepts yields an hour within 0-23 and a minute within 0-59 |
| Utility.StartTime | astrokat/utility.py:52-57 | a textual start time parsed as "%Y-%m-%d %H:%M" is a real calendar date (month 1-12, day within the month, leap years included) with a valid clock time and zero seconds |
| Utility.Rewrite | astrokat/utility.py:39-45 | rewriting one section keeps the plan's keys and every other section's value |
| Utility.Floats | astrokat/utility.py:80-84 | a converted float array has one value per comma-separated part |
| Utility.FloatsParse | astrokat/utility.py:80-84 | the conversion fails exactly when some part is not a decimal number; otherwise value i is part i's number |
| Utility.ReadYaml | astrokat/utility.py:21-86 | the method deleting keys, rewriting sections and checking the loop in place returns exactly the read plan (or exception) the stage-by-stage definition gives |
| Utility.DeleteNulls | astrokat/utility.py:33-36 | the deletion loop leaves exactly the top-level keys whose value is not None, with their values |
| Utility.CheckLoop | astrokat/utility.py:65-76 | the loop over the observation-loop entries raises exactly the first failing entry's exception (a string entry, a missing LST, a missing target list) |
| Utility.ReadYamlNotMapping | astrokat/utility.py:24-31 | a document that does not parse or is not a mapping reads as the empty plan |
| Utility.NullSectionsUnreachable | astrokat/utility.py:33-64 | because None-valued keys are deleted first, the "Durations primary key cannot be empty" and "Empty observation loop" exceptions can never be raised |
| Utility.NoNullAfter | astrokat/utility.py:39-45 | the instrument rewrite keeps every other section present, with its non-None value |
| Utility.NoNullAfterDurations | astrokat/utility.py:48-60 | the durations rewrite keeps every other section present, with its non-None value |
| Utility.MissingLoopRefused | astrokat/utility.py:61-64 | a plan without an observation loop, or with a None one, is always refused, and with "Nothing to observe, exiting" once the instrument and durations checks have passed |
| Utility.ReadYamlStages | astrokat/utility.py:39-86 | a successful read passes the instrument rewrite, then the durations checks, then the loop and scan checks, in that order |
| Utility.ReadYamlKeys | astrokat/utility.py:33-86 | a successful read keeps exactly the keys whose loaded value is not None, and every section other than instrument, durations and scan keeps its loaded value |
| Utility.ReadYamlLoopEntries | astrokat/utility.py:61-76 | a successful read has an observation loop, and each entry of a loop list is a mapping holding both "LST" and "target_list" |
| Utility.NoEntryError | astrokat/utility.py:65-76 | when the entry check raises nothing, no single entry fails |
| Utility.StringEntryFails | astrokat/utility.py:66-70 | a string entry anywhere in the loop list makes the check raise |
| Utility.ReadYamlDumpRate | astrokat/utility.py:42-45 | a successful read with a numeric integration time t has t non-zero, and the instrument section has "dump_rate" = 1/t in place of "integration_time", all else equal |
| Utility.GetLst | astrokat/utility.py:130-138 | a value that is not a number or a string, and a string with more than one '-', raise the LST format RuntimeError |
| Utility.ShortNumberOf | astrokat/utility.py:121-142 | a number below 100 and within the bound, printed in decimal, is read back as itself |
| Utility.ClockTextReads | astrokat/utility.py:121-142 | a clock reading printed as "h:m" holds ':' but no '-', is already stripped, and `strptime` reads it back as the same hour and minute |
| Utility.WrapDay | astrokat/utility.py:146 | for a start in [0, 24), `(start + 24) % 24` is the start itself |
| Utility.StartOnlyEndsAtMidnight | astrokat/utility.py:135-148 | a range without '-' that parses starts at an hour within [0, 24) and always ends at 24 |
| Utility.StartOnlyDay | astrokat/utility.py:141-148 | a start alone that parses is a clock reading within the day, and the range ends at 24 |
| Utility.GetLstRange | astrokat/utility.py:139-151 | "h1:m1-h2:m2" reads as the range from h1 + m1/60 to h2 + m2/60 |
| Utility.ClockEnd | astrokat/utility.py:149-151 | an end holding ':' is read by `strptime` as hours |
| Utility.GetLstDecimalEnd | astrokat/utility.py:139-153 | a clock start, '-' and an end without ':' read as the start's hours up to `float` of the end, failing exactly when `float` does |
| Utility.GetLstTwoParts | astrokat/utility.py:134-140 | a text splitting at '-' into two parts is read as the range between the stripped parts |
| Utility.DecimalEnd | astrokat/utility.py:152-153 | an end without ':' is read by `float` |
| Utility.SplitPair | astrokat/utility.py:134-140 | "a-x" with no '-' in either side splits into exactly those two sides |
| Utility.GetLstMinutes | astrokat/utility.py:120-123 | an integer n in [0, 1440) is read as n minutes past 0h, running to the end of the day |
| Utility.GetLstOnePart | astrokat/utility.py:134-136 | a text with no '-' is read as a range with only a start |
| Utility.ClockStartOnly | astrokat/utility.py:141-148 | "h:m" alone starts at h + m/60 and runs to 24 |
| Utility.GetLstHours | astrokat/utility.py:125-148 | a float f in [0, 24) always parses; its start is cut to whole minutes, never above f and less than a minute below it, and the range ends at 24 |
| Utility.TruncClock | astrokat/utility.py:125-128 | `int(f)` and `int(60 * (f - int(f)))` are a valid hour and minute whose clock time lies within a minute below f |
| Targets.GetRadecCoords | astrokat/targets.py:216-266 | radec and gal coordinates, and azel ones when converted for a scan, come back as "radec" with the converter's text (or its error); every other type is passed along as it stands; the type is "radec" exactly for those converted |
| Targets.FirstTypeItem | astrokat/targets.py:279 | the index found is that of the first item mentioning "type", and None exactly when no item does |
| Targets.WithCoord | astrokat/targets.py:289-295 | a coordinate key adds "coord" and nothing else; every other key keeps its value |
| Targets.Assign | astrokat/targets.py:296-303 | one item's plain assignments never touch "coord", and always set "flux_model": the value when the key mentions "model", the empty tuple otherwise |
| Targets.Step | astrokat/targets.py:287-303 | a pass succeeds only on an item that splits into one key and one value; afterwards "coord" is set exactly when it already was or the key is a coordinate type, and "flux_model" is decided by this item alone |
| Targets.UnpackTarget | astrokat/targets.py:271-307 | the method filling a fresh dictionary item by item returns exactly what the fold over the items gives, or the same exception |
| Targets.StepsUnpackable | astrokat/targets.py:288 | after a successful loop every item split into exactly one key and one value |
| Targets.StepsCoordPrefix | astrokat/targets.py:287-295 | after a successful loop over a prefix, "coord" is set exactly when it already was or some item of the prefix has a coordinate key |
| Targets.CoordWitness | astrokat/targets.py:287-295 | some item among the first n has a coordinate key exactly when one among the first n - 1 does or item n - 1 does |
| Targets.StepsCoord | astrokat/targets.py:287-295 | after a successful loop, "coord" is set exactly when it already was or some item has a coordinate key |
| Targets.UnpackTargetNeedsCoord | astrokat/targets.py:287-306 | a successful unpack has every item splitting into one key and one value, some key of a coordinate type, and "coord" set |
| Targets.NoCoordUnsupported | astrokat/targets.py:304-306 | a target string whose items all unpack but none has a coordinate key is refused with "Target '...' not currently supported by default" |
| Targets.NoCoordSteps | astrokat/targets.py:287-303 | items without a coordinate key never reach the converter, so the loop over them cannot fail |
| Targets.ConvertAzelFirstType | astrokat/targets.py:279-284 | azel coordinates are converted exactly when the value of the first item mentioning "type" mentions "scan" |
| Targets.ConvertAzelNoType | astrokat/targets.py:279-281 | with no item mentioning "type", azel coordinates are never converted |
| Targets.FluxModelLastItem | astrokat/targets.py:298-301 | in a successful unpack "flux_model" is decided by the last item alone: its value when its key mentions "model", the empty tuple otherwise |
| Targets.StepsLast | astrokat/targets.py:287-301 | a successful loop over at least one item leaves "flux_model" as the last item's pass sets it |
| Targets.Lookup | astrokat/targets.py:322-327 | a dictionary lookup succeeds exactly when the key is present, with its value, and raises KeyError otherwise |
| Targets.Word | astrokat/targets.py:324-325 | taking word i of a coordinate text succeeds exactly when the text has more than i words |
| Targets.KatpointTarget | astrokat/targets.py:310-337 | without a target string, a missing x or y raises "Ill defined target, require: x and y"; with both, the result is the name and "name, ctag tags, x, y, flux_model" |
| Targets.DescriptionFields | astrokat/targets.py:332-336 | the description splits back at its commas into the name, the coordinate tag with the tags, x, y and the flux model, when no field holds a comma |
| Targets.FirstStarred | astrokat/targets.py:355-356 | the index found is the first alias starting with '*', and None exactly when none does |
| Targets.Aliases | astrokat/targets.py:354 | a name always has at least one alias |
| Targets.PreferredNameIs | astrokat/targets.py:354-359 | the chosen name is the first starred alias without its '*' when there is one, and the first alias otherwise |
| Targets.BuildTarget | astrokat/targets.py:340-397 | a built record has a name, and that name is the preferred alias of it; a missing duration, cadence, observation type, noise diode, last-observed time and counter take their defaults (no duration, -1, "track", None, None, the default counter) |
| Targets.DurationCadence | astrokat/targets.py:362-369 | a missing duration is read as no duration and a missing cadence as -1; present ones are read as floats, raising as `float` does |
| Targets.RecordOf | astrokat/targets.py:370-397 | the record carries the chosen name, the duration and the cadence; a missing observation type defaults to "track", and a missing noise diode, last-observed time or counter to None |
| Targets.FillRows | astrokat/targets.py:409-415 | filling the rows in item order succeeds exactly when every item does, leaving row i as item i's value; otherwise it stops with the first item's error |
| Targets.ReadSpec | astrokat/targets.py:400-416 | a successful read has one record per item, record i being item i unpacked and built; it succeeds exactly when every item does |
| Targets.Read | astrokat/targets.py:400-416 | the method filling an array row by row succeeds exactly when the specification does, with the same records in order, or the same error |
| Targets.ReadFails | astrokat/targets.py:409-415 | the first item that fails stops the read with that item's error |
| ObsDict.GetInstrumentDict | astrokat/obs_dict.py:2-7 | the instrument template holds "product", "band" and "integration_period", in that order, all None |
| ObsDict.GetDurationsDict | astrokat/obs_dict.py:10-14 | the durations template holds "obs_duration" and "start_time", both None |
| ObsDict.GetTargetDict | astrokat/obs_dict.py:18-26 | the target template has exactly the keys name, coord, tags, duration, cadence and flux_model, with an empty name and None cadence and flux model |
| ObsDict.RemoveNoneInputs | astrokat/obs_dict.py:30-35 | the copying loop returns exactly the entries whose value is not None, in order |
| ObsDict.NonNoneMembers | astrokat/obs_dict.py:30-35 | an entry is in the cleaned dictionary exactly when it is in the input with a value other than None |
| ObsDict.NonNoneOrder | astrokat/obs_dict.py:32-34 | cleaning never reorders: the result is an order-preserving selection of the input's entries |
| ObsDict.Items | astrokat/obs_dict.py:44 | one item per comma-separated part of the target string, item i being part i stripped |
| ObsDict.AssignSteps | astrokat/obs_dict.py:47-54 | one pass assigns the coordinate, then the named field, then the flux model, in that order |
| ObsDict.ApplyItem | astrokat/obs_dict.py:46 | a pass raises exactly when the item does not split at '=' into one key and one value |
| ObsDict.UnpackTarget | astrokat/obs_dict.py:38-55 | the method returns exactly the template filled by the fold over the items, or the same exception |
| ObsDict.FillTarget | astrokat/obs_dict.py:45-54 | the loop updating the dictionary in place ends where the fold over the items ends, raising at the first item that does not unpack |
| ObsDict.UnpackStep | astrokat/obs_dict.py:45-54 | one more item that unpacks moves the loop one pass on with that item's key and value |
| ObsDict.FailStep | astrokat/obs_dict.py:46 | an item that does not unpack ends the loop with its ValueError |
| ObsDict.ErrSticks | astrokat/obs_dict.py:45-46 | once the loop has raised, later items change nothing |
| ObsDict.ApplyItemsFails | astrokat/obs_dict.py:45-46 | the loop raises exactly when some item does not split into one key and one value |
| ObsDict.ApplyItemsErrStep | astrokat/obs_dict.py:45-46 | the loop over items raises exactly when the loop over all but the last does or the last item does not unpack |
| ObsDict.SomeFails | astrokat/obs_dict.py:45-46 | some item fails exactly when one before the last or the last one does |
| ObsDict.UnpackTargetFails | astrokat/obs_dict.py:38-55 | `unpack_target` raises exactly when some item of the target string does not split into one key and one value |
| ObsDict.AssignField | astrokat/obs_dict.py:47-54 | one pass keeps the template's keys, and writes a field exactly when the key names it: a coordinate key writes the [key, value] pair into coord, a "model" key writes flux_model, a template key writes itself |
| ObsDict.LastTrue | astrokat/obs_dict.py:45-54 | the index found is the last true flag, and None exactly when no flag is true |
| ObsDict.SetsFlags | astrokat/obs_dict.py:45-54 | one flag per item, true exactly for the items that write the field |
| ObsDict.ApplyItemsField | astrokat/obs_dict.py:45-54 | when every item unpacks, the loop succeeds, keeps the keys, and each field holds what the last item writing it wrote, or its earlier value when none does |
| ObsDict.LastSettingSnoc | astrokat/obs_dict.py:45-54 | the last item writing a field is the new last item if it writes it, and otherwise the one found before it |
| ObsDict.UnpackTargetFields | astrokat/obs_dict.py:38-55 | a target string whose items all unpack yields exactly the template's keys; each field holds what the last item writing it wrote, and a field no item writes keeps its template value |
| ObsYaml.TargetDict.constructor | astrokat/obs_yaml.py:4 | a target dictionary object holds the given fields |
| ObsYaml.Fields | astrokat/obs_yaml.py:50-51 | one field map per dictionary object, in order |
| ObsYaml.NormalisedIdempotent | astrokat/obs_yaml.py:10-11 | the special-coordinate rewrite changes nothing the second time |
| ObsYaml.TargetTextNormalised | astrokat/obs_yaml.py:10-27 | the rewrite is invisible in the text: a dictionary `target_str` already rewrote serialises to the same text again, or raises the same exception |
| ObsYaml.TargetStr | astrokat/obs_yaml.py:4-33 | the method returns the target line (name, coordinate type and value, tags and duration, then cadence and model when not None) or the KeyError, IndexError or TypeError Python raises, and leaves the dictionary with its special coordinate rewritten |
| ObsYaml.LinesSnoc | astrokat/obs_yaml.py:41 | appending a line to the text appends it followed by a newline |
| ObsYaml.DictStr | astrokat/obs_yaml.py:36-42 | the loop writes the "name:" header, then one "  key: value" line per entry that is not None, in order |
| ObsYaml.EntryLinesNonNone | astrokat/obs_yaml.py:39-41 | None-valued entries leave no trace: the lines of a dictionary equal those of its cleaned copy |
| ObsYaml.DictTextNonNone | astrokat/obs_yaml.py:36-42 | a section equals the section of the cleaned dictionary (`remove_none_inputs_` before `dict_str` changes nothing) |
| ObsYaml.SplitLines | astrokat/obs_yaml.py:38-41 | newline-free lines, each ended by a newline, split back into the same lines plus the empty tail |
| ObsYaml.SplitAppend | astrokat/obs_yaml.py:41 | appending one newline-free line and a newline adds exactly that line before the empty tail |
| ObsYaml.DictTextLines | astrokat/obs_yaml.py:36-42 | a section read back line by line is its header line and one line per entry that is not None |
| ObsYaml.SectionLinesFree | astrokat/obs_yaml.py:38-41 | no line of a section holds a newline when no key or value does |
| ObsYaml.EntryLinesFree | astrokat/obs_yaml.py:39-41 | no entry line holds a newline when no key or value does |
| ObsYaml.Reached | astrokat/obs_yaml.py:50-51 | the loop calls `target_str` on at most all of the dictionaries |
| ObsYaml.ObsDictStr | astrokat/obs_yaml.py:45-53 | the method returns the loop header and one "      - <target>" line per dictionary in order, or the first exception; exactly the dictionaries reached are left rewritten, the rest untouched |
| ObsYaml.LoopStep | astrokat/obs_yaml.py:50-52 | a dictionary an earlier pass already rewrote serialises and rewrites as the original does |
| ObsYaml.SliceSnoc | astrokat/obs_yaml.py:50 | the prefix up to i + 1 is the prefix up to i followed by element i |
| ObsYaml.TextStep | astrokat/obs_yaml.py:50-52 | one pass either stops the loop with `target_str`'s exception, reaching one more dictionary, or appends its line and reaches one more |
| ObsYaml.ObsStr | astrokat/obs_yaml.py:56-76 | the method writes the instrument and durations sections only when not empty, then the horizon line and the observation loop, or raises the loop's exception, with the same rewrites of the dictionaries |
| TargetRoundTrip.ItemTexts | astrokat/obs_yaml.py:6-8 | one "key=value" item per pair, in order |
| TargetRoundTrip.ItemsOfJoin | astrokat/obs_dict.py:44 | non-empty stripped items without ',' joined by ", " are split and stripped back into the same items |
| TargetRoundTrip.SplitItem | astrokat/obs_dict.py:46 | "k=v" with no '=' in k or v splits at '=' into k and v |
| TargetRoundTrip.UnpackItem | astrokat/obs_dict.py:44-46 | one clean "key=value" item unpacks into that key and value, and is itself stripped, non-empty and free of ',' |
| TargetRoundTrip.LineItems | astrokat/obs_dict.py:44-46 | the items read back from a line of clean pairs are the pairs' "key=value" texts, each unpacking into its pair |
| TargetRoundTrip.PairsField | astrokat/obs_dict.py:38-55 | a field of the parsed line holds what the last pair whose key writes it wrote, and the parse keeps the template's keys |
| TargetRoundTrip.PairsFieldUnset | astrokat/obs_dict.py:38-55 | a field no pair's key writes keeps its template value |
| TargetRoundTrip.CoordWrites | astrokat/obs_dict.py:47-54 | a coordinate key not mentioning "model" writes the coordinate and no other field |
| TargetRoundTrip.PlainKeyWrites | astrokat/obs_dict.py:51-52 | the keys name, tags, duration and cadence each write the field of the same name and no other |
| TargetRoundTrip.ModelKeyWrites | astrokat/obs_dict.py:53-54 | the key "model" writes the flux model and no other field |
| TargetRoundTrip.LinePairs | astrokat/obs_yaml.py:4-33 | the line holds name, the coordinate pair, tags and duration in that order, then cadence exactly when it is not None and model last exactly when it is not None |
| TargetRoundTrip.SnocLine | astrokat/obs_yaml.py:19-24 | appending one pair appends ", key=value" to the line |
| TargetRoundTrip.BaseLine | astrokat/obs_yaml.py:6-18 | the four fixed pairs joined give "name=.., coord=.., tags=.., duration=.." as the format string writes it |
| TargetRoundTrip.TargetTextFields | astrokat/obs_yaml.py:4-33 | `target_str` succeeds on a dictionary with every target key and a coordinate pair, writing the fields of its rewritten form |
| TargetRoundTrip.PairsLine | astrokat/obs_yaml.py:4-33 | the line's pairs joined by ", " are exactly the text the format string produces |
| TargetRoundTrip.TargetTextPairs | astrokat/obs_yaml.py:4-33 | `target_str` writes the pairs of the rewritten dictionary, joined by ", " |
| TargetRoundTrip.NormalisedRereadable | astrokat/obs_yaml.py:10-11 | the special rewrite keeps every field but the coordinate value, keeps the coordinate type, and leaves a clean coordinate value |
| TargetRoundTrip.LineClean | astrokat/obs_yaml.py:4-33 | every pair of the line of a rereadable dictionary is clean |
| TargetRoundTrip.PairWrites | astrokat/obs_dict.py:47-54 | pair i of the line writes exactly the field the line names at i |
| TargetRoundTrip.LineWrites | astrokat/obs_dict.py:47-54 | every pair of the line writes exactly the field the line names for it |
| TargetRoundTrip.FieldAt | astrokat/obs_dict.py:38-55 | a field the line names at j and nowhere after reads back as the pair at j wrote it |
| TargetRoundTrip.FieldAbsent | astrokat/obs_dict.py:38-55 | a field the line does not name reads back as the template's value |
| TargetRoundTrip.LineFacts | astrokat/obs_yaml.py:4-33 | the rewritten form of a rereadable dictionary has every target key, a coordinate-only key, clean pairs and the original's other fields |
| TargetRoundTrip.LineFieldsOrder | astrokat/obs_yaml.py:13-24 | the line names name, coord, tags and duration once each in that order, then cadence and flux model exactly when they are not None |
| TargetRoundTrip.NameRead | astrokat/obs_dict.py:38-55 | the name written reads back as its text |
| TargetRoundTrip.CoordRead | astrokat/obs_dict.py:38-55 | the coordinate written reads back as the rewritten [type, value] pair |
| TargetRoundTrip.TagsRead | astrokat/obs_dict.py:38-55 | the tags written read back as their text |
| TargetRoundTrip.DurationRead | astrokat/obs_dict.py:38-55 | the duration written reads back as its text |
| TargetRoundTrip.CadenceRead | astrokat/obs_dict.py:38-55 | a cadence written reads back as its text, and an absent (None) one stays None |
| TargetRoundTrip.ModelRead | astrokat/obs_dict.py:38-55 | a flux model written reads back as its text, and an absent (None) one stays None |
| TargetRoundTrip.TargetStrUnpacks | astrokat/obs_yaml.py:4-33 | round trip: `unpack_target(target_str(d))` succeeds with the template's keys and gives back every field of d as the text it was written as, the coordinate as rewritten, and cadence and flux model None exactly when they were |
| ObserveMain.LstGateWindow | astrokat/observe_main.py:49-58 | for a range that does not wrap, observing is allowed exactly on [start, end); for a range that wraps past 24h it is refused exactly strictly between end and start |
| ObserveMain.LstGateBoundary | astrokat/observe_main.py:49-58 | the start LST is always inside the window, the end LST only for a wrapping range, and a range with equal ends never blocks |
| ObserveMain.FirstDue | astrokat/observe_main.py:215-231 | the target returned is in the list and due: never observed, or its cadence has elapsed since the last observation |
| ObserveMain.FirstDueIsFirst | astrokat/observe_main.py:224-231 | no target before the returned one is due, and None is returned exactly when no target is due |
| ObserveMain.CadenceTarget | astrokat/observe_main.py:215-231 | the loop over the target list returns the first due target; the same search is `cadence_target` of scripts/astrokat-observe.py:211-220 |
| ObserveMain.AboveHorizon | astrokat/observe_main.py:234-264 | a target counts as up only when its elevation now is above the horizon; with a duration it must also be above the horizon at the end of the track |
| ObserveMain.AboveLowerHorizon | astrokat/observe_main.py:234-264 | a target up for one horizon is up for every lower horizon |
| ObserveMain.DispatchKinds | astrokat/observe_main.py:139-201 | a track is chosen exactly when the type has no "scan"; "drift_scan" wins over every other scan name, then "forwardscan" |
| ObserveMain.ScanNamesAreScans | astrokat/observe_main.py:146-201 | every scan type name is dispatched to a scan, never to a track |
| ObserveMain.WithDuration | astrokat/observe_main.py:143-167 | the scan settings gain the target's duration and every other plan entry is unchanged; a non-dictionary entry is an error |
| ObserveMain.ScanSetup | astrokat/observe_main.py:143-167 | a raster scan whose settings lack num_scans raises RuntimeError "<Type> needs 'num_scans' parameter"; the other scans get the target duration in their scan settings; reference pointing gets it in its own settings |
| ObserveMain.NumpyDiv | astrokat/observe_main.py:153-154 | numpy's `duration / nscans` has a finite value exactly when the duration is one and the scan count is not zero, and that value times the scan count is the duration; otherwise it is inf or nan, held as None |
| ObserveMain.RasterDuration | astrokat/observe_main.py:147-154 | it raises exactly when the raster_scan entry is not a mapping with a num_scans that `float` reads; only the raster_scan entry changes; an existing scan_duration is kept; otherwise a scan_duration is always set, non-finite (None) for zero scans |
| ObserveMain.ZeroScansCarryOn | astrokat/observe_main.py:147-154 | a raster scan with zero scans and no scan_duration does not raise, whatever the duration: the setup succeeds with a non-finite scan duration |
| ObserveMain.RasterDurationSticks | astrokat/observe_main.py:147-154 | once a raster scan duration is set, later targets keep it |
| ObserveMain.NdDecision | astrokat/observe_main.py:101-126 | the diode is restored only after it was switched off and a pattern exists; a target "off" switches it off, any other target setting installs a trigger for that period; a pattern setup carries cycle_len |
| ObserveMain.NdRestoreOnlyAfterOff | astrokat/observe_main.py:204-210 | with a plan pattern, the restore at the end of the observation happens exactly when the target switched the diode off |
| ObserveMain.QuantiseCycle | astrokat/observe_main.py:568-600 | a cycle shorter than a dump is kept; a zero dump period raises ZeroDivisionError; otherwise the cycle is rounded down to a whole number of dumps |
| ObserveMain.QuantiseBounds | astrokat/observe_main.py:568-600 | the rounded cycle is a multiple of the dump period, at least one dump, at most the requested cycle and less than one dump below it |
| ObserveMain.QuantiseIdempotent | astrokat/observe_main.py:568-600 | rounding an already rounded cycle leaves it unchanged |
| ObserveMain.ObserveDecision | astrokat/observe_main.py:74-212 | slew-only targets only slew; otherwise the diode follows NdDecision, a type without "scan" tracks for the duration with the plan unchanged, "drift_scan" drifts, and scans follow the dispatch |
| ObserveMain.MissingResource | astrokat/observe_main.py:365-374 | the first pool resource not in the sensor reading is reported, every earlier one is present; None exactly when all are present |
| ObserveMain.KeyCheck | astrokat/observe_main.py:349-385 | a product contained in the sensor passes; pool "available" passes, other pools pass exactly when no resource is missing; the dump rate passes within the tolerance; other keys pass exactly when equal (lists as sets) and fail with the configuration error |
| ObserveMain.SubarraySetup | astrokat/observe_main.py:314-385 | no instrument or an approved schedule block skips the checks; otherwise the setup succeeds exactly when every instrument key passes, and a failure is the error of some key |
| ObserveMain.ObsDuration | astrokat/observe_main.py:395-398 | without durations the observation duration is -1, otherwise the obs_duration entry |
| ObserveMain.DefaultDurationSingleSweep | astrokat/observe_main.py:395-402 | the default duration is negative and not rejected as nonsensical |
| ObserveMain.LstHours | astrokat/observe_main.py:494-500 | a single LST range reads its start and end hours as get_lst gives them, with its errors |
| ObserveMain.LoopRange | astrokat/observe_main.py:480-500 | a single loop uses the plan's LST range; a loop that is not the last of several fails when no end LST is given |
| ObserveMain.NextRange | astrokat/observe_main.py:480-493 | the next loop's start and end are known exactly for a loop that has a successor |
| ObserveMain.LoopStepOf | astrokat/observe_main.py:435-600 | a loop without target_list is skipped; an observed loop outside a dry run has a visible target, all of them when all must be up, and knows the next loop's range exactly when one follows |
| ObserveMain.LoopStepGated | astrokat/observe_main.py:506-526 | a loop with targets and a readable LST range is observed exactly when the local LST passes the gate and enough targets are up |
| ObserveMain.RunObservation | astrokat/observe_main.py:388-600 | a bad duration stops before any loop; otherwise each observation loop is handled in order, as LoopStepOf says, stopping at the first error |
| ObserveMain.NextTargetAsWritten | astrokat/observe_main.py:772-797 | the look-ahead loop as written settles on the last cadence target after the current one, or the next target in turn when there is none; its result is `NextTargetSpec` |
| ObserveMain.NextTargetSpec | astrokat/observe_main.py:772-797 | the target the look-ahead loop settles on: the last later cadence target, else the next target in turn; this is what the sweeps use |
| ObserveMain.NextTarget | astrokat/observe_main.py:772-797 | the evidently intended look-ahead: the first cadence target after the current one, or the next target in turn |
| ObserveMain.NextTargetCounterexample | astrokat/observe_main.py:783-795 | three targets where the loop as written looks ahead to the third target (`NextTargetSpec` gives 2), not the second (`NextTarget` gives 1), and so ends the observation although the second fits the remaining time |
| ObserveMain.Recorded | astrokat/observe_main.py:700-703 | an observation adds one to the target's count and stamps the time; no other target changes |
| ObserveMain.CadenceLoopProgress | astrokat/observe_main.py:673-724 | the cadence round only advances counts and the clock, and it ends the observation only when an observation duration is set |
| ObserveMain.CadenceLoopSeen | astrokat/observe_main.py:673-724 | a visible sweep stays visible, and a round that makes it visible observed some target |
| ObserveMain.SweepFrom | astrokat/observe_main.py:636-812 | one pass over the targets, with the time check against the target the look-ahead loop as written picks: it only advances counts and the clock, ends the observation only with a duration set, and keeps the sweep visible once something was seen |
| ObserveMain.PlainTarget | astrokat/observe_main.py:726-751 | only a non-cadence target is observed here; it is counted when anything in the sweep so far was seen |
| ObserveMain.SweepsFrom | astrokat/observe_main.py:621-833 | sweeps repeat at most 100000 times and at least once, only advancing counts and the clock; a sweep that ends the observation is the last |
| ObserveMain.OneSweepWithoutDuration | astrokat/observe_main.py:814-816 | without an observation duration the target list is swept once |
| ObserveMain.NothingSeenStops | astrokat/observe_main.py:827-833 | a sweep in which nothing was visible is the last one |
| ObserveMain.NoDurationNoTimeout | astrokat/observe_main.py:753-797 | without an observation duration a sweep never ends for lack of time |
| ObserveMain.Run.constructor | astrokat/observe_main.py:418-430 | a run starts from the target list with the clock at the session start |
| ObserveMain.SlewedFirst | astrokat/observe_main.py:610-612 | the slew to the first target moves only the clock, by the slew time; an empty target list raises IndexError |
| ObserveMain.Run.SlewToFirst | astrokat/observe_main.py:610-612 | the slew before capture starts updates the run as SlewedFirst says, and reports its IndexError leaving the run alone |
| ObserveMain.Run.Observe | astrokat/observe_main.py:74-212 | observing a target advances the clock and reports whether the target was observed, leaving the targets alone |
| ObserveMain.Run.Record | astrokat/observe_main.py:700-703 | the target's count and last observation time are updated in place |
| ObserveMain.Run.Step | astrokat/observe_main.py:676-722 | one pass of the cadence loop updates the run as CadenceStep says |
| ObserveMain.Run.CadenceRound | astrokat/observe_main.py:673-724 | the cadence loop updates the run as the CadenceLoop specification says |
| ObserveMain.Run.Plain | astrokat/observe_main.py:726-751 | the non-cadence step updates the run as PlainTarget says |
| ObserveMain.Run.Pass | astrokat/observe_main.py:638-812 | one target of the sweep, with the look-ahead loop run as written, either ends the sweep as SweepFrom does or leaves the rest of the sweep to run from the new state |
| ObserveMain.Run.Sweep | astrokat/observe_main.py:636-812 | one pass over the target list, running the look-ahead loop itself, updates the run as SweepFrom says |
| ObserveMain.Run.Sweeps | astrokat/observe_main.py:621-833 | the outer loop updates the run as SweepsFrom says and returns the number of sweeps |
| ObserveMain.Observed | astrokat/observe_main.py:696-699 | observing a target leaves the target list alone and never moves the clock back |
| ObserveMain.CadenceStep | astrokat/observe_main.py:676-719 | one pass of the cadence loop keeps the target list length and the remaining cadence entries valid |
| ObserveMain.CadenceStepSeen | astrokat/observe_main.py:693-702 | after a pass of the cadence loop the sweep is visible exactly when it already was or the due target's count went up |
| ObserveMain.CadenceFrom | astrokat/observe_main.py:783-795 | the first target with a positive cadence at or after a position, None when there is none |
| ObserveMain.ContainsPiece | astrokat/observe_main.py:146-147 | a text holding a name holds every piece of it, so a type holding "raster_scan" holds "scan" |
| ObserveMain.AtLeastOnePeriod | astrokat/observe_main.py:584-586 | a cycle of at least one dump period counts at least one period |
| ObserveMain.Admitted | astrokat/observe_main.py:528-545 | a loop admitted past the visibility checks observes with the next range; outside a dry run some target is up, and with `all_up` every catalogue target is up |
| ObserveMain.Indices | astrokat/observe_main.py:674 | the cadence list starts as every target index, in order |
| ObserveMain.Pick | astrokat/observe_main.py:674-676 | the targets the cadence list still holds, one per entry, in its order |
| ObserveMain.DueEntry | astrokat/observe_main.py:676 | an entry found is one of the list's, and its target is due |
| ObserveMain.DueEntryPicked | astrokat/observe_main.py:215-231 | `cadence_target` on the targets the list holds picks exactly that entry |
| ObserveMain.Remove | astrokat/observe_main.py:710-719 | removing a target from the cadence list drops exactly its entry and keeps the others in order |
| ObserveMain.RoundMovesRefl | astrokat/observe_main.py:676-678 | a round that does nothing moves nothing |
| ObserveMain.RoundMovesTrans | astrokat/observe_main.py:675-722 | cadence rounds compose: the moves of two successive steps are a move of the loop |
| ObserveMain.CadenceStepMoves | astrokat/observe_main.py:699-719 | a step of the cadence loop changes the counters of the due target only, never turning the clock back |
| ObserveMain.CadenceLoopUnfold | astrokat/observe_main.py:675-722 | a step that neither stops the loop nor times out is followed by the loop from the state it leaves, with the counter one higher |
| ObserveMain.CadenceLoopStops | astrokat/observe_main.py:676-682 | with nothing due the loop ends at once; when the due target does not fit in the time remaining it ends at once and marks the observation done |
| ObserveMain.CadenceLoopLast | astrokat/observe_main.py:720-722 | after the step that takes the counter past the number of targets the loop ends, not done |
| ObserveMain.SomeCountedAfter | astrokat/observe_main.py:704-707 | a count made in either of two successive steps is a count made by the two together |
| ObserveMain.LoopFactsCompose | astrokat/observe_main.py:675-722 | a step that moves the state on and keeps visibility, followed by a loop that keeps the facts, keeps them |
| ObserveMain.CadenceStepFacts | astrokat/observe_main.py:699-719 | a step moves counters on, never forgets that something was seen, and sees its target exactly when it counts it |
| ObserveMain.CadenceLoopFacts | astrokat/observe_main.py:673-724 | every cadence loop moves the state on and sees something only when it counted an observation; it ends done only with an observation duration set |
| ObserveMain.CadenceLoopFactsStep | astrokat/observe_main.py:675-722 | one step keeps the loop's facts, given that the loop after it keeps them |
| ObserveMain.ProgressedTrans | astrokat/observe_main.py:706-707 | moving targets' counters on is transitive |
| ObserveMain.Run.RoundStep | astrokat/observe_main.py:676-722 | one pass of the `while True` body updates the run in place, and either ends the loop as the definition does or leaves the rest of the loop to run from the new state |
| Scans.ScanSession.Do | astrokat/scans.py:120 | each session call is logged with the session's answer, and the clock moves on by the time the call takes |
| Scans.Scan | astrokat/scans.py:100-121 | a scan is a noise-diode trigger with the given period and lead time followed by one session scan with the given arguments; its answer is the result |
| Scans.Forwardscan | astrokat/scans.py:144-164 | a forward scan leaves exactly the log and result a `scan` with the same arguments leaves |
| Scans.RasterScan | astrokat/scans.py:74-97 | a trigger, then the session's raster scan with every argument passed on; its answer is the result |
| Scans.ReferencePointingScan | astrokat/scans.py:124-141 | a trigger, then the session's reference pointing with every argument passed on; its answer is the result |
| Scans.DriftScan | astrokat/scans.py:25-71 | a trigger, then a track for the whole duration of the fixed az/el point the target passes half-way through it, counted from the observer date |
| Scans.Swapped | astrokat/scans.py:368-370 | the return pass has the same keys, start and end exchanged, and every other argument unchanged |
| Scans.SwappedTwice | astrokat/scans.py:368-370 | swapping start and end twice gives the original arguments back |
| Scans.ReturnScan | astrokat/scans.py:344-376 | a scan with the given arguments, then (when both start and end exist) a scan with them swapped, the result being both answers ANDed; KeyError on 'end', then on 'start', after the first pass otherwise |
| Scans.CornersUpTo | astrokat/scans.py:249-258 | the corners are exactly the `radec_p<i>` keys present, each with its value, in increasing index order |
| Scans.ScanOffsets | astrokat/scans.py:307-308 | the scan line starts at the mirror image of its end, and spans the azimuth range of the area |
| Scans.LinesAlternate | astrokat/scans.py:326-339 | flipping the direction gives the previous line's arguments with start and end swapped |
| Scans.LineAtNext | astrokat/scans.py:326-339 | line j+1 of a run is line j reversed |
| Scans.LinesSnoc | astrokat/scans.py:325-341 | appending a trigger and the next reversed line keeps the run of lines, and the run sees the target exactly when it did before or the new line does |
| Scans.ScanLines | astrokat/scans.py:324-343 | the scan loop logs a trigger and a line per pass, each line the previous one reversed starting from the chosen direction, counts a visible line exactly when some line saw the target, and stops only past the end time (or after `fuel` lines) |
| Scans.Reversescan | astrokat/scans.py:225-343 | a trigger always comes first; no scan without radec_p1 and radec_p2, below 15 degrees or when the slew to the start (a zero-length track) is not visible; otherwise alternating mirrored lines over one target; true exactly when some line saw the target |
| Scans.ScanSession.constructor | astrokat/scans.py:100-121 | a new session has an empty log of calls, the given clock, and answers and takes time as the given functions say |
| Scans.LineArgs | astrokat/scans.py:326-331 | every scan line's arguments carry both a start and an end offset |
| Scans.FirstLineMirrored | astrokat/scans.py:307-331 | offsets centred on the middle azimuth give lines whose start is the negated end, in either direction |
| Scans.SawTargetAppend | astrokat/scans.py:340-343 | once the earlier lines saw nothing, the scan saw the target exactly when a later line did |
| NoiseDiode.LeadTimesAgree | astrokat/noisediode.py:14 | the module's 5 s lead time equals the package default of astrokat/__init__.py:6 |
| NoiseDiode.Activation | astrokat/noisediode.py:68-72 | the default activation is a whole second, at least the lead time from now and less than a second later |
| NoiseDiode.SwitchTime | astrokat/noisediode.py:68-72 | a given timestamp is used as is; otherwise the default activation |
| NoiseDiode.GreatestName | astrokat/noisediode.py:45 | the name last in sorted order is one of the names and no name sorts after it |
| NoiseDiode.LastReply | astrokat/noisediode.py:44-50 | the returned time is the one reported by the antenna last in sorted order; with no replies the timestamp is never assigned |
| NoiseDiode.Kat.On | astrokat/noisediode.py:53-90 | one request to all antennas with on fraction 1 at the given or default time; returns that time in a dry run, else the sorted-last reply; the clock does not move |
| NoiseDiode.Kat.Off | astrokat/noisediode.py:94-133 | one request to all antennas with on fraction 0 at the given or default time; returns as `on` does |
| NoiseDiode.Kat.Trigger | astrokat/noisediode.py:137-171 | no duration: nothing is requested and True is returned; otherwise exactly an on and then an off request to all antennas, the off request and the clock at least the duration past the confirmed switch-on; a dry run with a non-negative duration always succeeds |
| NoiseDiode.CycleQuantised | astrokat/noisediode.py:203-208 | a live cycle becomes a whole number of dumps, not above the request and less than one dump below it |
| NoiseDiode.LBandLimit | astrokat/noisediode.py:199-208 | on a live L-band system a cycle is refused exactly when above the 20 s buffer, and an accepted cycle stays within it |
| NoiseDiode.StripAll | astrokat/noisediode.py:241 | each listed antenna name, stripped |
| NoiseDiode.Present | astrokat/noisediode.py:240-242 | the listed names kept are exactly those in the subarray |
| NoiseDiode.SelectedIff | astrokat/noisediode.py:238-242 | an antenna is addressed exactly when it is in the subarray and, unless the request names "cycle", in the list |
| NoiseDiode.Kat.PerAntenna | astrokat/noisediode.py:247-260 | one request per addressed antenna |
| NoiseDiode.Kat.RequestEach | astrokat/noisediode.py:247-260 | the loop appends the per-antenna requests, each at the timestamp the previous one left, and returns the last timestamp |
| NoiseDiode.Kat.PerAntennaTargets | astrokat/noisediode.py:247-249 | the i-th request goes to the i-th addressed antenna with the pattern's on fraction and cycle |
| NoiseDiode.Kat.CycleSteps | astrokat/noisediode.py:258-260 | in a dry "cycle" pattern the i-th antenna's request is i on-times after activation |
| NoiseDiode.Kat.ListedTogether | astrokat/noisediode.py:247-257 | in a dry run without "cycle" every antenna's request is at the activation time |
| NoiseDiode.Kat.Pattern | astrokat/noisediode.py:174-267 | a refused cycle issues nothing; "all" issues one array-wide request at the activation time, anything else one request per addressed antenna; then the clock sleeps until the last timestamp, raising if it is already past |
| NoiseDiode.Kat.Sleep | astrokat/noisediode.py:161-169 | the clock moves on by exactly the length slept; a negative length raises |
| NoiseDiode.Kat.constructor | astrokat/noisediode.py:53-80 | a fresh container starts with no requests, at the given time, with the given dry-run flag, sub-band, subarray, dump period and reported times |
| Simulate.SensorNameInjective | astrokat/simulate.py:115 | two keys with the same sensor name are the same key |
| Simulate.FakeSensors | astrokat/simulate.py:107-117 | no sensors without an instrument or with a None one; otherwise a "sub_<key>" sensor holding each instrument value and no other sensor |
| Simulate.SimKat.constructor | astrokat/simulate.py:76-83 | the telescope starts with no finished session, the four simulated antennas and the given LST and sensors |
| Simulate.VerifyAndConnect | astrokat/simulate.py:76-83 | the telescope starts at the LST of the first observation loop; a plan without loops raises |
| Simulate.SlewFor | astrokat/simulate.py:181-189 | no slew onto the current target, 45 s for the first slew, otherwise the ephemeris estimate; never negative |
| Simulate.ClockNeverDecreases | astrokat/simulate.py:146-154 | with no negative duration or scan count, the session clock never runs backwards |
| Simulate.TrackedIffTrack | astrokat/simulate.py:193 | a session has tracked exactly when one of its actions was a track |
| Simulate.TrackAgainNoSlew | astrokat/simulate.py:181-202 | tracking the same target twice slews only once |
| Simulate.SimSession.constructor | astrokat/simulate.py:128-139 | the clock starts at the plan's durations start_time when given, else at the observer's date, with no current target and no track |
| Simulate.SimSession.Track | astrokat/simulate.py:191-203 | the clock moves on by the slew and the duration, the session then points at the target and has tracked; returns True |
| Simulate.SimSession.Scan | astrokat/simulate.py:220-231 | the clock moves on by exactly the scan duration; returns True |
| Simulate.SimSession.RasterScan | astrokat/simulate.py:205-218 | the clock moves on by the scan duration times the number of scans; returns True |
| Simulate.SimSession.Exit | astrokat/simulate.py:173-179 | the session count goes up exactly when a track happened; while loops remain, the LST is that of the loop with that count |
| Observatory.Observer.constructor | astrokat/observatory.py:57-65 | the location is the given one or the MeerKAT reference position, the horizon is the given one, and the date is the given datetime or else the current time |
| Observatory.RiseStep | astrokat/observatory.py:73-87 | a target always up or without rise data gives one second past midnight and leaves the date alone; one that never rises raises NeverUpError; an LST query gives the sidereal time at the rise and moves the date there; every LST lies in [0, 24) |
| Observatory.SetStep | astrokat/observatory.py:89-105 | a caught AlwaysUpError or AttributeError from the rising or the setting gives one second before midnight; it raises exactly when the target never rises, or rises and never sets; every LST lies in [0, 24) |
| Observatory.Observer.RiseTime | astrokat/observatory.py:73-87 | returns the rise step's time and leaves the observer at the rise step's date, or raises its error leaving the date alone; location and horizon are unchanged |
| Observatory.Observer.SetTime | astrokat/observatory.py:89-105 | returns the set step's time and leaves the observer at the set step's date, or raises its error leaving the date alone; location and horizon are unchanged |
| Observatory.Observer.RiseAndSetTimes | astrokat/observatory.py:107-111 | the set query starts from the date the rise query left; a raising rise query stops before the set query |
| Observatory.RiseLsts | astrokat/observatory.py:231-234 | one rise LST per target, each in [0, 24), unless a query raised; the only error is NeverUpError |
| Observatory.SetLsts | astrokat/observatory.py:253-256 | one set LST per target, each in [0, 24), unless a query raised; the only error is NeverUpError |
| Observatory.ArgMin | astrokat/observatory.py:235 | the index of the first smallest value |
| Observatory.ArgMax | astrokat/observatory.py:257 | the index of the first largest value |
| Observatory.Observer.StartObs | astrokat/observatory.py:218-238 | the earliest rise LST over the targets, as text or as three-decimal hours; a target that never rises raises NeverUpError; an empty list raises numpy's argmin error |
| Observatory.Observer.EndObs | astrokat/observatory.py:240-260 | the latest set LST over the targets, as text or as three-decimal hours; a target that never rises or sets raises NeverUpError; an empty list raises numpy's argmax error |
| Observatory.StartIsEarliest | astrokat/observatory.py:231-235 | when no query raised, the start LST is one of the rise LSTs, lies in [0, 24) and no target rises earlier |
| Observatory.EndIsLatest | astrokat/observatory.py:253-257 | when no query raised, the end LST is one of the set LSTs, lies in [0, 24) and no target sets later |
| Observatory.AlwaysUpFallbacks | astrokat/observatory.py:74-100 | a target always up, or without rise data, starts at one second past midnight and ends at one second before midnight, leaving the date alone |
| Observatory.NeverUpRaises | astrokat/observatory.py:73-105 | a target that never rises stops both the rise and the set query with NeverUpError, before any LST |
| Observatory.NeverUpStopsList | astrokat/observatory.py:230-234 | a target that never rises stops the rise LSTs of a list at its place; later targets are not queried |
| Observatory.RiseErrSticks | astrokat/observatory.py:230-234 | once a rise query has raised, the targets after it change nothing |
| Observatory.SetErrSticks | astrokat/observatory.py:252-256 | once a set query has raised, the targets after it change nothing |
| Observatory.Microseconds | astrokat/observatory.py:210 | one to six digits read as a fraction of a second in microseconds |
| Observatory.MicrosecondsBound | astrokat/observatory.py:210 | the microseconds stay below one million |
| Observatory.ParseClock | astrokat/observatory.py:210 | "%H:%M:%S.%f" text parses to a valid time of day; anything else is the strptime ValueError |
| Observatory.ClockRoundTrip | astrokat/observatory.py:210 | the text of a valid time of day parses back to it |
| Observatory.HoursOfBounds | astrokat/observatory.py:211-215 | a valid time of day is in [0, 24) hours |
| Observatory.Lst2Hours | astrokat/observatory.py:201-216 | the conversion succeeds exactly when the LST text parses, giving its decimal hours to three places |
| Observatory.Lst2HoursReads | astrokat/observatory.py:201-216 | the three-decimal text reads back as the hours rounded, within half a thousandth of the LST, which lies in [0, 24) |
| Observatory.UnpackTarget | astrokat/observatory.py:186-199 | the loop's dictionary is the fold of the per-item update over the comma-separated items; an item without '=' raises IndexError |
| Observatory.UnpackOk | astrokat/observatory.py:196-198 | the items are read exactly when every item has an '=' |
| Observatory.UnpackPrefix | astrokat/observatory.py:196-198 | after each item, every key holds the value of the last item that gives it, and no other key is present |
| Observatory.UnpackTargetLast | astrokat/observatory.py:186-199 | the target is read exactly when every item has an '='; then each key maps to the value of its last item |
| Observatory.ClockField | astrokat/observatory.py:210 | a field of the "%H:%M:%S" text is read only when its value is within the field's bound |
| Observatory.PaddedDigits | astrokat/observatory.py:210 | a value written with zero padding to its width is all digits, of that width, free of ':' and '.', and reads back as the value |
| Observatory.ClockTextSplits | astrokat/observatory.py:210 | the text of a valid time of day splits on ':' into hour, padded minute and a seconds part that splits on '.' into padded seconds and six microsecond digits |
| Observatory.FieldsSplit | astrokat/observatory.py:210 | "h:m:s.f" splits on ':' and then on '.' back into its four fields when they hold neither separator |
| Observatory.ThreeDecimals | astrokat/observatory.py:211-216 | "%.3f" of the hours reads back as the hours rounded to three places, within half a thousandth of them |
| Observatory.LastValuesSnoc | astrokat/observatory.py:196-198 | writing one more item's key and value keeps every key at the value of its last item |
| Observatory.UnpackAll | astrokat/observatory.py:195-199 | a dictionary read from the items holds, for every key, the value of the last item giving it, and no other key |
| LegacyObserve.SettingIsLast | scripts/astrokat-observe.py:83-95 | an item with the prefix that no later item overrides gives the setting: later items win |
| LegacyObserve.SettingAbsent | scripts/astrokat-observe.py:79-95 | the default is kept exactly when no item starts with the prefix |
| LegacyObserve.ReadItem | scripts/astrokat-observe.py:65-99 | the item-by-item loop over one target item yields the preferred name, the description and the last setting of each kind |
| LegacyObserve.ReadTargets | scripts/astrokat-observe.py:60-109 | the three column loops build exactly the record list `read_targets` specifies, the first failing conversion raising |
| LegacyObserve.TargetFields | scripts/astrokat-observe.py:70-107 | one record per item: the preferred name, duration NaN and cadence -1 unless set (else their float values), type 'track' and no diode setting unless set, never observed, count 0 |
| LegacyObserve.VisitOf | scripts/astrokat-observe.py:120-187 | a visit that observes scans exactly when the type names a scan, and tracks for the duration argument otherwise |
| LegacyObserve.SlewsIff | scripts/astrokat-observe.py:126-131 | a visit only slews exactly when the duration keyword, or else the target's duration, is negative |
| LegacyObserve.FirstTargetSlews | scripts/astrokat-observe.py:393-395 | the first visit, with duration=-1, only slews to the target |
| LegacyObserve.VisitSwitchesOff | scripts/astrokat-observe.py:143-151 | a target whose diode setting contains "off" starts with the diode off and ends with the plan's pattern restored when the plan has a non-null one |
| LegacyObserve.VisitTriggers | scripts/astrokat-observe.py:152-154 | any other diode setting is a float period the diode is triggered at first, and nothing is restored |
| LegacyObserve.DriftScanIsScanned | scripts/astrokat-observe.py:158-177 | a drift-scan type always takes the scan branch, so the drift-scan track is unreachable |
| LegacyObserve.Visited | scripts/astrokat-observe.py:169-170 | after a visit that is not a slew the record is stamped with the session time whether or not it succeeded, and counted only on success; no other record changes |
| LegacyObserve.GateNoWrap | scripts/astrokat-observe.py:341-354 | a loop is observed exactly when start <= LST <= end, so a range across midnight is never observed |
| LegacyObserve.ObsDurationAsWritten | scripts/astrokat-observe.py:323-326 | the sweep duration stays -1 unless obs_duration is also a top-level key |
| LegacyObserve.NestedDurationIgnored | scripts/astrokat-observe.py:323-326 | a plan with obs_duration only under durations sweeps once in the script, where the newer loop reads 3600 |
| LegacyObserve.LoopPlanOf | scripts/astrokat-observe.py:330-368 | a loop without target_list is skipped; an observed loop has targets, and outside a dry run some target up, and with all_up every target up |
| LegacyObserve.LoopPlanGated | scripts/astrokat-observe.py:341-354 | an observed loop has a readable LST range whose gate the local LST passes, and its end LST bounds the sweeps |
| LegacyObserve.RunObservation | scripts/astrokat-observe.py:318-368 | the loops' plans in order, with the sweep duration as the script reads it (`ObsDurationAsWritten`), the first error raising |
| LegacyObserve.CadenceRoundMoves | scripts/astrokat-observe.py:409-418 | the cadence loop leaves records without a cadence untouched, never lowers a count and never runs the clock back |
| LegacyObserve.CadenceRoundVisible | scripts/astrokat-observe.py:414-415 | once the sweep is visible, the cadence loop keeps it visible |
| LegacyObserve.LateSweepEnds | scripts/astrokat-observe.py:429-435 | once the obs_duration has elapsed, the sweep ends after the next target |
| LegacyObserve.LastPlainDecides | scripts/astrokat-observe.py:420-426 | a visit of a target without a cadence overwrites the sweep's visibility: with the last target plain, the sweep is visible exactly when that visit succeeded |
| LegacyObserve.PassesFrom | scripts/astrokat-observe.py:399-449 | the sweeps make progress without changing any record's settings, and a sweep that meets an ending rule is the last |
| LegacyObserve.SingleSweep | scripts/astrokat-observe.py:437-439 | without an obs_duration exactly one sweep is made |
| LegacyObserve.LateSweepIsLast | scripts/astrokat-observe.py:429-435 | a loop that starts with the time already used up makes one sweep |
| LegacyObserve.PastEndStops | scripts/astrokat-observe.py:445-449 | a sweep after which the LST is past the end is the last |
| LegacyObserve.LoopRun.constructor | scripts/astrokat-observe.py:393-399 | the loop starts from the records read and the session's start time |
| LegacyObserve.LoopRun.SlewToFirst | scripts/astrokat-observe.py:393-395 | the `duration=-1` visit of the first record only slews: the run moves as SlewedFirst says, and an empty record list raises IndexError |
| LegacyObserve.LoopRun.Visit | scripts/astrokat-observe.py:113-190 | `observe` updates the record in place as `Visited` states |
| LegacyObserve.LoopRun.Round | scripts/astrokat-observe.py:409-418 | the `while True` cadence loop leaves the state and visibility of `CadenceRound` |
| LegacyObserve.LoopRun.Pass | scripts/astrokat-observe.py:408-435 | one target of the sweep: the cadence loop, the plain visit and the time check, as `PassFrom` unfolds |
| LegacyObserve.LoopRun.Sweep | scripts/astrokat-observe.py:403-435 | the `for` loop over the records ends in the state `PassFrom` gives |
| LegacyObserve.LoopRun.Sweeps | scripts/astrokat-observe.py:399-449 | the `while not done` loop makes the sweeps `PassesFrom` gives |
| LegacyObserve.StrippedItems | scripts/astrokat-observe.py:78 | one stripped item per comma-separated part of the target string |
| LegacyObserve.ReadSettings | scripts/astrokat-observe.py:79-95 | the loop over the items leaves duration, cadence and noise diode as the last item with that prefix sets them (None when none does), and the type as the last "type=" item or "track" |
| LegacyObserve.SettingSnoc | scripts/astrokat-observe.py:83-95 | one more item sets a value exactly when it starts with the prefix, and otherwise keeps what the items before it set |
| LegacyObserve.ReadRaws | scripts/astrokat-observe.py:65-99 | the loop over the target items returns one raw record per item in order, or the first item's error |
| LegacyObserve.ConvertColumn | scripts/astrokat-observe.py:100-107 | converting a column as the record array stores it gives every row converted in order, or the first row's error |
| LegacyObserve.RasterNamesScan | scripts/astrokat-observe.py:158-159 | a type mentioning "raster_scan" also mentions "scan", so the first half of the test never decides it |
| LegacyObserve.VisitNd | scripts/astrokat-observe.py:143-154 | a visit first makes the noise-diode calls of the target's setting, and afterwards restores the plan's pattern exactly when the target switched the diode off and the plan has one |
| LegacyObserve.CadenceRound | scripts/astrokat-observe.py:409-418 | the cadence loop keeps the number of targets |
| LegacyObserve.CadenceRoundStops | scripts/astrokat-observe.py:411-413 | with no target due the cadence loop stops at once, changing nothing |
| LegacyObserve.CadenceRoundStep | scripts/astrokat-observe.py:411-418 | a due target is visited, then the loop stops once it has run more times than there are targets and otherwise goes round again |
| LegacyObserve.VisitedDueMoves | scripts/astrokat-observe.py:411-416 | visiting a due target moves the run on: its clock does not go back and the target's record advances |
| LegacyObserve.StopMoves | scripts/astrokat-observe.py:412-413 | stopping the loop leaves the run where it was |
| LegacyObserve.DueThenMoves | scripts/astrokat-observe.py:409-418 | a round that visits a due target moves the run on when the rest of the round does |
| LegacyObserve.PassFrom | scripts/astrokat-observe.py:405-435 | the pass over the targets never loses progress or turns the clock back, and it ends early only when a positive observation duration is set |
| LegacyObserve.PassFromStep | scripts/astrokat-observe.py:405-435 | one step of the pass runs the cadence loop, observes the target when it has no cadence, then ends the sweep when time is up and moves to the next target otherwise |
| LegacyObserve.PassFromEnd | scripts/astrokat-observe.py:405 | a pass past the last target ends the sweep without declaring it done |
| ObserveScript.CycleAt | scripts/observe.py:43-53 | the 'cycle' request of the i-th antenna is timed i steps of cycle_length * on_fraction after the first |
| ObserveScript.CycleSnoc | scripts/observe.py:47-53 | one antenna more adds one request at the end, timed after all the others |
| ObserveScript.NdPattern | scripts/observe.py:33-62 | a pattern is refused with ValueError exactly when it is neither 'all', 'cycle' nor a subarray antenna; 'cycle' sends one request per antenna, any other accepted pattern one |
| ObserveScript.NdPatternRequests | scripts/observe.py:35-59 | 'all': one request to every antenna at now + 1; 'cycle': per antenna in order, at now + 2 + i * cycle_length * on_fraction; an antenna's name: one request to it, timed 'now' |
| ObserveScript.AllInputsContents | scripts/observe.py:72-85 | per input, a gain request exactly when gains are given and an FFT-shift request exactly when a shift is given, and no noise-diode request |
| ObserveScript.Fengines | scripts/observe.py:68-70 | `set_fengines` raises RuntimeError exactly when there are no correlator inputs |
| ObserveScript.Entered | scripts/observe.py:122-146 | without a noise source the first request switches every diode off at once; without F-engine settings entering succeeds exactly when the pattern is accepted |
| ObserveScript.UnknownPatternSendsNothing | scripts/observe.py:60-62 | an unknown pattern sends no request and stops the entry |
| ObserveScript.Kat.constructor | scripts/observe.py:124 | a connection starts with no request sent |
| ObserveScript.Kat.SetNdPattern | scripts/observe.py:33-62 | the requests sent, by the loop that moves the timestamp on after each antenna, are those of `NdPattern`; a refused pattern sends none |
| ObserveScript.Kat.SetFengines | scripts/observe.py:65-85 | the loop over the inputs sends the requests of `Fengines`; with no inputs nothing is sent |
| ObserveScript.Kat.Enter | scripts/observe.py:122-146 | entering sends the requests of `Entered` and ends as it does |
| ObserveScript.Kat.Exit | scripts/observe.py:149-155 | leaving always switches every diode off at once |
| ObserveScript.CycleFrom | scripts/observe.py:47-53 | the 'cycle' pattern sends exactly one request per subarray antenna |
| ObserveScript.CyclePrefixStep | scripts/observe.py:47-53 | one more pass of the antenna loop appends that antenna's request, timed i steps after the first |
| ObserveScript.AllInputsLength | scripts/observe.py:72-85 | every input contributes one request per setting given, so there are (number of inputs) * (settings given) requests |
| ObserveScript.Kat.SendCycle | scripts/observe.py:46-53 | the loop that moves the timestamp on by one step after each antenna appends exactly the 'cycle' requests to those already sent |
| Catalogue2ObsFile.TidyList | scripts/astrokat-catalogue2obsfile.py:131-138 | the tidied tags keep the given tags in order and are always marked as a target or a calibrator; 'target' is appended exactly when no tag mentions 'cal' and 'target' is absent |
| Catalogue2ObsFile.TidyTagsWords | scripts/astrokat-catalogue2obsfile.py:131-138 | the joined tags split back into the tidied list |
| Catalogue2ObsFile.TidyTagsIdempotent | scripts/astrokat-catalogue2obsfile.py:131-138 | tidying tidied tags changes nothing |
| Catalogue2ObsFile.Columns | scripts/astrokat-catalogue2obsfile.py:174 | one stripped column per comma field of the stripped line |
| Catalogue2ObsFile.Flux | scripts/astrokat-catalogue2obsfile.py:180-185 | a model is present exactly when there are more than four columns and their space-joined text has something between its first and last character |
| Catalogue2ObsFile.Prefix | scripts/astrokat-catalogue2obsfile.py:188-193 | the coordinate type is azel or gal only when the tags start with it, radec otherwise |
| Catalogue2ObsFile.TargetName | scripts/astrokat-catalogue2obsfile.py:194-195 | a given name is kept; an empty one becomes a "target<line>_<type>" name |
| Catalogue2ObsFile.TagsAfterPrefix | scripts/astrokat-catalogue2obsfile.py:200 | corrected: tags that do not start with the coordinate type are kept whole |
| Catalogue2ObsFile.TagsAfterPrefixCounterexample | scripts/astrokat-catalogue2obsfile.py:200 | as written, tags "target" with the default radec type become "t"; corrected they stay "target" |
| Catalogue2ObsFile.TagsAfterPrefixWords | scripts/astrokat-catalogue2obsfile.py:196-201 | tags whose first word is the coordinate type give exactly the remaining words, as written and corrected alike |
| Catalogue2ObsFile.Schedule | scripts/astrokat-catalogue2obsfile.py:206-214 | targets get the target duration, gain calibrators the gain duration, everything else the bandpass duration; only the last can carry a cadence |
| Catalogue2ObsFile.Target | scripts/astrokat-catalogue2obsfile.py:172-179 | a data line gives a target string exactly when it has at least four columns; otherwise the unpacking ValueError; the tags field is cut as written (`ColumnsTarget`) |
| Catalogue2ObsFile.ColumnsTarget | scripts/astrokat-catalogue2obsfile.py:186-219 | the target string names the target, gives its coordinates under the coordinate type, and its tags field is the tidied tags less their first len(prefix) characters, as written |
| Catalogue2ObsFile.ColumnsTargetTags | scripts/astrokat-catalogue2obsfile.py:186-201 | when the first tidied tag is the coordinate type, the tags field is exactly the remaining tags |
| Catalogue2ObsFile.TidyListWords | scripts/astrokat-catalogue2obsfile.py:131-138 | the tidied tags are non-empty words without whitespace |
| Catalogue2ObsFile.ReadCatalogue | scripts/astrokat-catalogue2obsfile.py:140-225 | the loop's header and target list are the fold of the per-line step over the numbered lines, stopping at the first error; scripts/catalogue2obsfile.py:130-200 holds the same code |
| Catalogue2ObsFile.ReadSpecOk | scripts/astrokat-catalogue2obsfile.py:164-179 | the catalogue is read exactly when no line is empty and every data line has four columns |
| Catalogue2ObsFile.ReadPrefix | scripts/astrokat-catalogue2obsfile.py:164-171 | reading a prefix of the file keeps its comment lines as the header and one target per data line |
| Catalogue2ObsFile.ReadSpecParts | scripts/astrokat-catalogue2obsfile.py:161-225 | a read file gives its comment lines, in order, as the header and one target per data line |
| Catalogue2ObsFile.DropSecondsOfTime | scripts/astrokat-catalogue2obsfile.py:263-267 | an "HH:MM:SS" time loses exactly its seconds |
| Catalogue2ObsFile.PlanSections | scripts/astrokat-catalogue2obsfile.py:256-262 | the instrument section is set exactly when the instrument has entries, the durations section exactly when an observation duration is given |
| Catalogue2ObsFile.BuildObservation.Configure | scripts/astrokat-catalogue2obsfile.py:243-273 | the stored configuration holds those sections, the given LST or the default range, and all targets; the target list is unchanged; scripts/catalogue2obsfile.py:211-239 differs only in its default range (LegacyCatalogue2ObsFile.DefaultLst) |
| Catalogue2ObsFile.ListingHolds | scripts/astrokat-catalogue2obsfile.py:304-306 | every target has a line of its own in the listing |
| Catalogue2ObsFile.ValuesHold | scripts/astrokat-catalogue2obsfile.py:295-298 | every value that is not None is written on a line of its own |
| Catalogue2ObsFile.YamlTextHolds | scripts/astrokat-catalogue2obsfile.py:287-311 | the observation file names the LST range and lists every target |
| Catalogue2ObsFile.AppendSections | scripts/astrokat-catalogue2obsfile.py:291-298 | every section but the observation loop is written as its key line and its present values, in order |
| Catalogue2ObsFile.AppendValues | scripts/astrokat-catalogue2obsfile.py:296-298 | the values of a section that are not None, one line each, in order |
| Catalogue2ObsFile.ListTargets | scripts/astrokat-catalogue2obsfile.py:304-306 | one "      - <target>" line per target, in order |
| Catalogue2ObsFile.BuildObservation.WriteYaml | scripts/astrokat-catalogue2obsfile.py:275-311 | with no configuration at all it raises RuntimeError; otherwise header, sections, loop and LST, and the target_list block only when there are targets; scripts/catalogue2obsfile.py:241-273 holds the same code |
| Catalogue2ObsFile.PrefixNotThere | scripts/astrokat-catalogue2obsfile.py:188-200 | tags that do not start with the coordinate type lose their first len(prefix) characters as written, and nothing when corrected |
| Catalogue2ObsFile.JoinWordsStripped | scripts/astrokat-catalogue2obsfile.py:131-138 | tags joined from words by single spaces have no whitespace at either end, and start and end with the first and last words' characters |
| Catalogue2ObsFile.StripAfterWord | scripts/astrokat-catalogue2obsfile.py:200 | corrected, a word, a space and stripped tags leave exactly those tags once the word is taken off |
| Catalogue2ObsFile.Enumerate | scripts/astrokat-catalogue2obsfile.py:164 | one numbered line per line, numbered from 0 in order |
| Catalogue2ObsFile.StepOk | scripts/astrokat-catalogue2obsfile.py:164-179 | one line is read exactly when it is not empty and, when it is a data line, has at least four columns |
| Catalogue2ObsFile.ListingEmpty | scripts/astrokat-catalogue2obsfile.py:304-306 | the target listing is empty exactly when there are no targets |
| Catalogue2ObsFile.BuildObservation.constructor | scripts/astrokat-catalogue2obsfile.py:239-241 | a new builder holds the target list and no configuration |
| LegacyCatalogue2ObsFile.DecimalLiteral | astrokat/observatory.py:201-216 | a "%.3f"-style literal reads back as its whole part plus its fraction |
| LegacyCatalogue2ObsFile.ClampedLst | scripts/catalogue2obsfile.py:223-232 | the default range never reaches 24 hours and never runs backwards; bounds already in order below 24 are kept as given |
| Catalogue2Config.RemoveFirst | scripts/catalogue2config.py:65 | `tags.remove('radec')` drops exactly one occurrence when present and changes nothing otherwise |
| Catalogue2Config.TidyListWords | scripts/catalogue2config.py:64-69 | every tidied tag is a non-empty word without blanks |
| Catalogue2Config.TidyTagsWords | scripts/catalogue2config.py:64-69 | the joined tags split back on whitespace into the tidied list |
| Catalogue2Config.TidyListShape | scripts/catalogue2config.py:64-69 | one 'radec' is removed, and 'target' is appended exactly when no remaining tag contains 'cal' |
| Catalogue2Config.TidyTagsTwice | scripts/catalogue2config.py:62-69 | tidy_tags is not idempotent: tags without 'radec' and without a 'cal' tag gain a second 'target' when tidied again |
| Catalogue2Config.DurationFor | scripts/catalogue2config.py:84-86 | the duration is the target duration exactly when the tidied tag text contains 'target', else the calibrator duration |
| Catalogue2Config.Fields | scripts/catalogue2config.py:82 | a line unpacks exactly when its stripped text has four comma fields; otherwise the unpacking ValueError |
| Catalogue2Config.EntryFields | scripts/catalogue2config.py:87-92 | the target string has five comma fields, the right ascension and declination being two of them |
| Catalogue2Config.ReadCatalogue | scripts/catalogue2config.py:72-95 | one target string per line in input order; the first malformed line raises |
| Catalogue2Config.ReadCatalogueOk | scripts/catalogue2config.py:81-82 | the catalogue is read exactly when every line has four comma fields |
| Catalogue2Config.KeepPartition | scripts/catalogue2config.py:118-127 | target_list and calibration_standards together hold every entry exactly as often as the input |
| Catalogue2Config.KeepMembers | scripts/catalogue2config.py:118-127 | an entry goes to calibration_standards exactly when it has no 'target' but 'flux', 'bp' or 'pol'; every other entry goes to target_list |
| Catalogue2Config.ListingLines | scripts/catalogue2config.py:121-127 | each entry contributes one line |
| Catalogue2Config.WriteYaml | scripts/catalogue2config.py:105-131 | the file is the instrument line, the loop header with LST 0-23, the target_list lines, then the calibration_standards lines, each list in input order |
| Catalogue2Config.ContainsFirst | scripts/catalogue2config.py:67 | a text containing a non-empty piece contains its first character |
| Catalogue2Config.TargetIsNotCal | scripts/catalogue2config.py:67-68 | the appended tag 'target' does not contain 'cal' |
| Catalogue2Config.TargetWord | scripts/catalogue2config.py:68-69 | the appended tag 'target' is a non-empty word without blanks |
| Catalogue2Config.NoCalSnoc | scripts/catalogue2config.py:67-68 | appending a tag without 'cal' to tags without 'cal' leaves no 'cal' tag |
| Catalogue2Config.SplitFive | scripts/catalogue2config.py:87-92 | five fields without commas, joined by commas, split back into the five fields |
| Catalogue2Config.Regroup | scripts/catalogue2config.py:87-92 | the target string is its five comma fields joined, with the radec field holding the inner comma |
| Catalogue2Config.ListingSnoc | scripts/catalogue2config.py:121-127 | listing one more entry appends exactly its line "      - entry" |
| Catalogue2Config.KeepSnoc | scripts/catalogue2config.py:118-127 | one more entry is kept in a list exactly when it belongs there, at its end |
| CalTargets.AllTagsMembers | scripts/astrokat-targets.py:191-193 | a tag is collected exactly when some target of the catalogue carries it |
| CalTargets.Distinct | scripts/astrokat-targets.py:194 | the de-duplicated tags hold no repeat and exactly the tags collected |
| CalTargets.CalTagsOf | scripts/astrokat-targets.py:204-207 | the calibrator tags kept are exactly the tags ending in "cal", without repeats when the input has none |
| CalTargets.Negated | scripts/astrokat-targets.py:198-211 | one filter per tag, each "~" followed by that tag |
| CalTargets.NegatedMembers | scripts/astrokat-targets.py:198-211 | "~t" is a filter exactly when t is one of the tags |
| CalTargets.CalTagsFound | scripts/astrokat-targets.py:204-210 | calibrator tags are found exactly when some target carries a tag ending in "cal" |
| CalTargets.FilterTagsMembers | scripts/astrokat-targets.py:190-213 | with `targets` the filters exclude exactly the calibrator tags in use; with `calibrators` they are exactly those tags; otherwise the calibrator filters are those tags (or the default calibrator tags when there are none) and the target filters exclude each of them |
| CalTargets.GetFilterTags | scripts/astrokat-targets.py:190-213 | the collecting loop returns exactly the filters built from the catalogue's distinct tags |
| CalTargets.IndexOf | scripts/astrokat-targets.py:868 | the place found is the first target with the name, and None exactly when no target has it |
| CalTargets.MergeTags | scripts/astrokat-targets.py:872 | the tags keep their order and gain exactly the new ones, without introducing repeats |
| CalTargets.Added | scripts/astrokat-targets.py:872 | adding keeps every target in place with at least its tags and adds at most one; a name already present changes nothing; afterwards the name is present, names stay distinct, and a new target carries every extra tag |
| CalTargets.WithTarget | scripts/astrokat-targets.py:853-873 | `add_target` keeps every target in place with at least its tags, adds at most one, keeps names distinct, and leaves the target present |
| CalTargets.WordsOfWord | scripts/astrokat-targets.py:872 | a one-word tag splits into itself |
| CalTargets.WithTargetTagged | scripts/astrokat-targets.py:868-872 | after `add_target` with a one-word tag the target is present and carries the tag |
| CalTargets.WithTargetIdempotent | scripts/astrokat-targets.py:853-873 | adding the same target with the same one-word tag twice is the same as once |
| CalTargets.EmptyTagAppended | scripts/astrokat-targets.py:853-870 | with the default empty tag, a target already present gets "" appended to its tags as a tag of its own |
| CalTargets.GrownHas | scripts/astrokat-targets.py:1034-1065 | later additions never lose a tag an earlier call put on a target |
| CalTargets.WithAllTagged | scripts/astrokat-targets.py:1041-1044 | after adding every calibrator with a one-word tag, each of them is present carrying the tag |
| CalTargets.WithAllDistinct | scripts/astrokat-targets.py:1041-1044 | adding every calibrator keeps target names distinct |
| CalTargets.Catalogue.constructor | scripts/astrokat-targets.py:958 | a new catalogue is empty |
| CalTargets.Catalogue.Add | scripts/astrokat-targets.py:872 | `Catalogue.add` updates the catalogue to the added list |
| CalTargets.Catalogue.AddTarget | scripts/astrokat-targets.py:853-873 | the in-place `add_target` updates the catalogue to what the value-level definition gives |
| CalTargets.Catalogue.AddAll | scripts/astrokat-targets.py:1041-1044 | the loop over all calibrators updates the catalogue to every calibrator added in turn |
| CalTargets.WriteHeader | scripts/astrokat-targets.py:664-678 | the header always starts with the user's header, and equals it exactly when there are no proposal details |
| CalTargets.ReadInfile | scripts/astrokat-targets.py:986-999 | the loop over the input lines ends exactly where the fold of the line step ends, raising at the first line that fails |
| CalTargets.ReadHeaderLines | scripts/astrokat-targets.py:989-991 | comment lines are gathered into the header as they are, in order |
| CalTargets.HeaderReadsBack | scripts/astrokat-targets.py:986-999 | a header written by `write_header` followed by target lines reads back as the same header, and every target line becomes one reference or one target |
| CalTargets.BodyLineStep | scripts/astrokat-targets.py:994-999 | a line that is not a comment keeps the header and adds one reference or one target |
| CalTargets.BodyLinesRead | scripts/astrokat-targets.py:988-999 | lines that are not comments keep the header and add one reference or target each |
| CalTargets.FoldAppend | scripts/astrokat-targets.py:988 | reading two runs of lines is reading the second from where the first left off |
| CalTargets.ConcatAppend | scripts/astrokat-targets.py:990 | the header of two runs of lines is the header of the first followed by that of the second |
| CalTargets.HeaderConcat | scripts/astrokat-targets.py:670-677 | the user's header line and the proposal lines, concatenated, are the header `write_header` builds |
| CalTargets.CalReferences | scripts/astrokat-targets.py:1002-1003 | with no reference line the first target is the reference; an input with neither raises IndexError; every reference is a reference line or a target |
| CalTargets.ChosenTarget | scripts/astrokat-targets.py:1119-1126 | `--target` wins, then `--solar-body` as a one-element list, then `--xephem`; no target exactly when none is given |
| CalTargets.StripAll | scripts/astrokat-targets.py:967-979 | each value is stripped, in order |
| CalTargets.CommandLineTarget | scripts/astrokat-targets.py:964-982 | a target of one value is the capitalised solar-system body "Name, special"; an empty target list raises IndexError, and every other length gives a description |
| CalTargets.Spaced | scripts/astrokat-targets.py:968-969 | each field with one space in front, in order |
| CalTargets.JoinCommaSpace | scripts/astrokat-targets.py:968-969 | joining with ", " is joining with "," fields that each start with a space |
| CalTargets.DescriptionFields | scripts/astrokat-targets.py:964-982 | a command-line description built from comma-free values splits at its commas back into the name, the tags and each of the values, stripped |
| CalTargets.SpacedStripped | scripts/astrokat-targets.py:967-969 | a stripped value behind a space strips back to the value's own stripped form |
| CalTargets.DescriptionSplit | scripts/astrokat-targets.py:968-969 | the description splits at its commas into the stripped name and the other fields behind a space |
| CalTargets.JoinedSplit | scripts/astrokat-targets.py:968-969 | comma-free fields joined by ", " split at the commas into the fields, all but the first behind a space |
| CalTargets.CataloguePath | scripts/astrokat-targets.py:944-955 | the `--cat-path` folder is used when it is set and is a folder, the default otherwise; it fails exactly when the default is no folder, no usable folder was given, and the node configuration is unavailable |
| CalTargets.CalCatalogueFile | scripts/astrokat-targets.py:1008-1011 | the calibrator file lies in the catalogue folder, and an unknown calibrator kind raises KeyError |
| CalTargets.SepNote | scripts/astrokat-targets.py:521-532 | no angle gives an empty note in the plain colour; the row turns red exactly inside the solar limit, yellow exactly beyond the calibrator limit and not inside the solar one; the note starts with the angle to two decimals |
| CalTargets.ColoursDiffer | scripts/astrokat-targets.py:454-468 | the warning, failure and reset colour codes are three different codes |
| CalTargets.SepNoteReads | scripts/astrokat-targets.py:524-532 | the note reads back as the angle rounded to two decimals, followed by one " ***" per limit crossed |
| CalTargets.TableLine | scripts/astrokat-targets.py:542-552 | a table row starts with the colour code and the target's name and ends with the reset code |
| CalTargets.ShieldedProperties | scripts/astrokat-targets.py:1109-1113 | shielding leaves no argument that looks like a negative-number option, is idempotent, and is undone by stripping |
| CalTargets.ShieldNegatives | scripts/astrokat-targets.py:1107-1113 | the loop replaces every argument in place by its shielded form, so that none looks like an option afterwards |
| Cals.WriteHeader | scripts/astrokat-cals.py:343-353 | the header is the user's header followed by the proposal lines, always, as the newer script writes it when details are given |
| Cals.SepNote | scripts/astrokat-cals.py:246-257 | with an angle the note is the newer script's; without one, a solar limit still turns the row red and appends the marker (a missing angle compares below every limit), and otherwise the note is empty |
| Cals.TableLine | scripts/astrokat-cals.py:259-267 | a table row starts with the colour code and the target's name and ends with the reset code |
| Cals.ReferenceTarget | scripts/astrokat-cals.py:409-430 | no target, or an empty one, stops with "No targets provided, exiting"; fewer than three values raise; otherwise the reference is the equatorial description of the newer script |
| Cals.CatalogueLocation | scripts/astrokat-cals.py:412-417 | the configured folder is used exactly when `--cat-path` is set and is a folder; otherwise the default folder |
| Cals.CalibratorFile | scripts/astrokat-cals.py:451-465 | an unknown calibrator kind raises KeyError; a configured folder must hold the file, else the assertion fails with AssertionError; without a folder the node configuration must serve it, else RuntimeError; the file found is the newer script's |
| Cals.CalibratorAdded | scripts/astrokat-cals.py:477-480 | the tagging step keeps every target in place with at least its tags, adds at most one, keeps names distinct and leaves the calibrator present |
| Cals.CalibratorTagged | scripts/astrokat-cals.py:478-480 | after the step the calibrator carries its one-word tag |
| Cals.TagRepeated | scripts/astrokat-cals.py:478-479 | a calibrator already carrying the tag gets it appended again, while `add_target` of the newer script leaves the catalogue as it is |
| Cals.PickedGrown | scripts/astrokat-cals.py:451-480 | the tagging steps over the calibrator kinds never remove a target or a tag and keep names distinct |
| Cals.GrownTrans | scripts/astrokat-cals.py:449-481 | keeping every target and tag is transitive over successive steps |
| Cals.TaggingComplete | scripts/astrokat-cals.py:449-481 | after tagging, every calibrator that was found carries the tag of its kind, and the reference target is in the catalogue |
| Cals.PickedTagged | scripts/astrokat-cals.py:451-480 | every calibrator found during the steps carries its kind's tag at their end |
| Cals.CalTagWord | scripts/astrokat-cals.py:480 | a one-word kind followed by "cal" is a one-word tag |
| Cals.TagCalibrators | scripts/astrokat-cals.py:449-481 | the loop over the kinds updates the catalogue in place to what the tagging definition gives |
| Cals.ShieldArg | scripts/astrokat-cals.py:537-538 | testing one argument raises IndexError exactly for an empty argument or a lone "-" |
| Cals.ShieldArgAgrees | scripts/astrokat-cals.py:537-538 | where the test does not raise, it shields the argument exactly as the newer script does |
| Cals.FirstUnindexable | scripts/astrokat-cals.py:536-537 | the place found is the first argument the test cannot index, and None exactly when there is none |
| Cals.ShieldNegatives | scripts/astrokat-cals.py:535-538 | the in-place loop raises IndexError exactly when some argument is empty or a lone "-", and shields every argument before the first such one, leaving the rest as they were |
| LstScript.MatchMonth | scripts/astrokat-lst.py:52 | the month group and the rest of the text, joined by a dash, give back the text |
| LstScript.MatchDay | scripts/astrokat-lst.py:53-54 | the text left after the day group and the separator is a suffix of the input |
| LstScript.MatchTime | scripts/astrokat-lst.py:55-57 | a match with seconds is exactly "HH:MM:SS", optionally followed by a final newline |
| LstScript.MatchValid | scripts/astrokat-lst.py:52-57 | every group a match yields is a valid year, month, day, hour and minute; group 4 is present exactly for a two-digit day and then equals it |
| LstScript.MatchSecondsEnd | scripts/astrokat-lst.py:57 | a text that matches with seconds ends in ":SS" or a newline |
| LstScript.MatchShort | scripts/astrokat-lst.py:52-57 | the text "Y-M-D H:m" built from valid groups matches without seconds and yields those groups |
| LstScript.MatchDate | scripts/astrokat-lst.py:52-54 | a valid date followed by a blank matches exactly as its time part does |
| LstScript.MatchLong | scripts/astrokat-lst.py:52-57 | "Y-M-D H:m:S" matches with seconds and yields all its groups |
| LstScript.LongformatDate | scripts/astrokat-lst.py:51-70 | as written: AttributeError exactly when neither the text nor its completion (" 00:00" for a date alone, ":00" otherwise) matches; a match without seconds is returned unchanged |
| LstScript.LongformatDateFixed | scripts/astrokat-lst.py:51-70 | the corrected function: same error and same unchanged result, and with seconds the day is the whole day group |
| LstScript.LongformatUnchanged | scripts/astrokat-lst.py:59-70 | a text already in the long form without seconds is returned as it is |
| LstScript.LongformatDateOnly | scripts/astrokat-lst.py:60-63 | a date without a blank is completed with " 00:00" |
| LstScript.LongformatShape | scripts/astrokat-lst.py:66-70 | as written, the result matches without seconds whenever the matched day has two digits |
| LstScript.LongformatIdempotent | scripts/astrokat-lst.py:51-70 | as written, applying the function twice gives the result of applying it once, for two-digit days |
| LstScript.LongformatFixedShape | scripts/astrokat-lst.py:66-70 | every result of the corrected function matches without seconds |
| LstScript.LongformatFixedIdempotent | scripts/astrokat-lst.py:51-70 | the corrected function is idempotent on every text it accepts |
| LstScript.NoneDayNoMatch | scripts/astrokat-lst.py:53 | a text whose day is "None" does not match the pattern |
| LstScript.LongformatNoneDay | scripts/astrokat-lst.py:67-69 | as written, a one-digit day with seconds comes back as "None", which no longer matches; the corrected function keeps the day |
| LstScript.StripAll | scripts/astrokat-lst.py:109 | each target text is stripped, in order |
| LstScript.Main | scripts/astrokat-lst.py:99-116 | a target gives the target range; otherwise a date without an LST gives the LST at that date; a date-for-LST report needs both; the current times only when neither is given; an LST without a date is a TypeError |
| LstScript.DateOf | scripts/astrokat-lst.py:103-106 | a date that does not match raises AttributeError; a date read is the strptime of `longformat_date` as written; a long form that is not a time raises ValueError |
| LstScript.DateOfNoneDay | scripts/astrokat-lst.py:67-69 | as written, a one-digit day given with seconds is refused with ValueError, because its long form has the day "None" |
| LstScript.NoneDayNoTime | scripts/astrokat-lst.py:106 | a date text whose day is "None" is not a strptime time |
| LstScript.DateOfRefused | scripts/astrokat-lst.py:103-106 | a date whose long form is not a strptime time raises ValueError |
| LstScript.FixArg | scripts/astrokat-lst.py:133-136 | an argument that looks like a negative number gets a blank in front, others are unchanged, and no result looks like an option |
| LstScript.FixArgIdempotent | scripts/astrokat-lst.py:133-136 | fixing twice is fixing once |
| LstScript.FixNegativeArgs | scripts/astrokat-lst.py:132-136 | every argument in the argument vector is replaced by its fixed form |
| LstScript.MatchShortTime | scripts/astrokat-lst.py:55-57 | "HH:MM" with a valid hour and minute matches the time part without seconds |
| LstScript.MatchShortDay | scripts/astrokat-lst.py:53-54 | a valid one- or two-digit day followed by a blank matches, the two-digit group being present only for two digits |
| LstScript.MatchShortMonth | scripts/astrokat-lst.py:52 | a valid one- or two-digit month followed by '-' matches and leaves the rest |
| LstScript.MatchLongTime | scripts/astrokat-lst.py:55-57 | "HH:MM:SS" with valid fields matches the time part with seconds |
| FitFlux.FluxCalsWellFormed | scripts/astrokat-fitflux.py:14-25 | every calibrator entry has its minimum frequency below its maximum and three or four model coefficients |
| FitFlux.ShiftToMhz | scripts/astrokat-fitflux.py:117-128 | the shift succeeds exactly for two or more coefficients (unpacking fails otherwise) and yields four coefficients whose leading one is D |
| FitFlux.PolyAsFour | scripts/astrokat-fitflux.py:117-123 | missing C and D count as 0: a model of two or three coefficients is the four-coefficient model with zeros |
| FitFlux.ShiftIdentity | scripts/astrokat-fitflux.py:124-127 | a+bx+cx²+dx³ equals A+B(x-3)+C(x-3)²+D(x-3)³ for every x |
| FitFlux.ShiftPreservesFlux | scripts/astrokat-fitflux.py:117-128 | the shifted model at log10 of a frequency in MHz gives the flux the GHz model gives at log10 of the same frequency in GHz |
| FitFlux.ScaledTableOk | scripts/astrokat-fitflux.py:106-128 | without --refit every calibrator of the table is shifted, each to four coefficients keeping D |
| FitFlux.NearestIndex | scripts/astrokat-fitflux.py:29-32 | the index is the first one minimising the distance to the value |
| FitFlux.FindNearest | scripts/astrokat-fitflux.py:29-32 | an error exactly for an empty array; otherwise the first nearest index and the value at it |
| FitFlux.Block | scripts/astrokat-fitflux.py:39 | one term per frequency, coeff · log10(f)^k |
| FitFlux.FluxBlocksLen | scripts/astrokat-fitflux.py:36-40 | as written, the list has one block of n values per coefficient |
| FitFlux.FluxBlocksEntry | scripts/astrokat-fitflux.py:36-40 | as written, entry i of block k is coeffs[k] · log10(f_i)^k |
| FitFlux.FluxBlocksLayout | scripts/astrokat-fitflux.py:36-40 | the whole layout of the list as written, block by block |
| FitFlux.FluxListLength | scripts/astrokat-fitflux.py:36-40 | as written, the list has n · len(coeffs) values, not n |
| FitFlux.ColumnSumIsPoly | scripts/astrokat-fitflux.py:36-40 | summing each frequency's entries over the blocks gives the model polynomial there |
| FitFlux.FluxListColumns | scripts/astrokat-fitflux.py:36-40 | the intended value at each frequency is its column sum in the list as written |
| FitFlux.FluxListCounterexample | scripts/astrokat-fitflux.py:37-39 | as written, a two-coefficient model at one frequency gives two values instead of one |
| FitFlux.CalcFluxDensity | scripts/astrokat-fitflux.py:36-40 | corrected: one value per frequency, the model polynomial at log10 f; an error exactly for an empty model |
| FitFlux.PolyOf4 | scripts/astrokat-fitflux.py:117-123 | the model with four coefficients is a + b·x + c·x² + d·x³ |
| FitFlux.PolyPadded | scripts/astrokat-fitflux.py:117-123 | a trailing zero coefficient does not change the model's value |
| FitFlux.AtBelow | scripts/astrokat-fitflux.py:36-40 | entry i of block k lies within block k, before every later block |
| FitFlux.AtOffset | scripts/astrokat-fitflux.py:36-40 | entry i of block k sits at k·n + i in the list as written |
| UvCoverage.ReturnValue | scripts/astrokat-uvcoverage.py:72-76 | a value is returned exactly when the item starts with the prefix: the stripped text after the last '=' |
| UvCoverage.ReturnValueClean | scripts/astrokat-uvcoverage.py:72-76 | a value returned from an item of a comma-separated line holds no ',' nor '=' and no outer blanks |
| UvCoverage.Truncated | scripts/astrokat-uvcoverage.py:38-39 | the 'S5' name column keeps at most five characters, a prefix of the name, and shorter names whole |
| UvCoverage.StoreValueEffect | scripts/astrokat-uvcoverage.py:104-106 | storing one prefix's value changes that column only, and fails exactly when a numeric column is given a non-number |
| UvCoverage.ApplyItemSteps | scripts/astrokat-uvcoverage.py:103-106 | the prefix loop for one item is the four stores name, east, north, up in that order |
| UvCoverage.ApplyItemEffect | scripts/astrokat-uvcoverage.py:102-106 | one item sets each column whose prefix it starts with and only those; it fails exactly when a numeric value is not a number |
| UvCoverage.FieldOfSnoc | scripts/astrokat-uvcoverage.py:102-106 | the last item starting with a prefix decides that prefix's value |
| UvCoverage.RowOfSnoc | scripts/astrokat-uvcoverage.py:102-106 | the items of a line are applied in order, the row carried from one to the next |
| UvCoverage.RowOfOk | scripts/astrokat-uvcoverage.py:100-106 | a row is built exactly when every item's numeric values read as floats |
| UvCoverage.RowOfName | scripts/astrokat-uvcoverage.py:100-106 | the name column is the last `name` value of the line, truncated to five characters, or empty when there is none |
| UvCoverage.RowOfNum | scripts/astrokat-uvcoverage.py:100-106 | each coordinate column is the last value given for it read as a float, or zero when none is given |
| UvCoverage.ApplyPrefixes | scripts/astrokat-uvcoverage.py:103-106 | the prefix loop for one item computes the item's step |
| UvCoverage.BuildRow | scripts/astrokat-uvcoverage.py:101-106 | the item loop of one antenna line computes that line's row |
| UvCoverage.BuildArray | scripts/astrokat-uvcoverage.py:99-106 | the table has one row per antenna line, in order, each the row of its line; the first failing line's error is raised otherwise |
| UvCoverage.KeepNamesMembers | scripts/astrokat-uvcoverage.py:115-120 | a row survives the sub-array extraction exactly when it is a row of the table whose name is in the sub-array |
| UvCoverage.KeepNamesIdempotent | scripts/astrokat-uvcoverage.py:115-120 | extracting the same sub-array twice keeps what extracting it once keeps |
| UvCoverage.KeepNamesAll | scripts/astrokat-uvcoverage.py:115-120 | a table whose names are all in the sub-array is kept whole and in order |
| UvCoverage.Interferometer.constructor | scripts/astrokat-uvcoverage.py:46-55 | the table is the given one, or its sub-array when one is given; the antenna count is its length and the baseline count n(n-1)/2 |
| UvCoverage.Interferometer.ExtractSubarray | scripts/astrokat-uvcoverage.py:115-120 | the collected row indices select exactly the rows whose name is in the sub-array, in table order |
| UvCoverage.NewInterferometer | scripts/astrokat-uvcoverage.py:42-55 | an interferometer is built exactly when every antenna line parses; its table is that of the lines, reduced to the sub-array when one is given |
| UvCoverage.RowPairs | scripts/astrokat-uvcoverage.py:135 | the inner loop for antenna i visits (i, j) for j from i+1 to n-1 in order |
| UvCoverage.PairsPrefixBounds | scripts/astrokat-uvcoverage.py:134-135 | every pair visited by the first k outer passes has i < j < n and i < k |
| UvCoverage.Pairs | scripts/astrokat-uvcoverage.py:134-135 | every visited pair has idx0 < idx1 < nr_antennas |
| UvCoverage.PairsPrefixCount | scripts/astrokat-uvcoverage.py:134-141 | the first k outer passes visit k(2n-k-1)/2 pairs |
| UvCoverage.PairsCount | scripts/astrokat-uvcoverage.py:55 | the loop visits exactly nr_baselines = n(n-1)//2 pairs |
| UvCoverage.PairAt | scripts/astrokat-uvcoverage.py:133-141 | pair (i, j) fills slot cnt = (pairs of the earlier passes) + (j - i - 1), which lies inside the arrays |
| UvCoverage.PairsMembers | scripts/astrokat-uvcoverage.py:134-135 | a pair is visited exactly when idx0 < idx1 < nr_antennas |
| UvCoverage.PairsPrefixOrdered | scripts/astrokat-uvcoverage.py:134-135 | the pairs of the first k passes come in strictly increasing lexicographic order |
| UvCoverage.PairsOrdered | scripts/astrokat-uvcoverage.py:134-135 | all pairs come in strictly increasing lexicographic order, so none is visited twice |
| UvCoverage.Interferometer.Baselines | scripts/astrokat-uvcoverage.py:122-143 | both arrays have nr_baselines slots; slot c holds the length and azimuth of the c-th pair in loop order, from positions divided by the 1420 MHz wavelength |
| UvCoverage.PyIndex | scripts/astrokat-uvcoverage.py:225-228 | a numpy index is valid exactly in [-n, n); a negative one counts from the end |
| UvCoverage.SampleCells | scripts/astrokat-uvcoverage.py:225-228 | the two cells one sample marks sum to (2 sctrl, 2 sctrl): each is the other's reflection |
| UvCoverage.Cells | scripts/astrokat-uvcoverage.py:224-228 | the first k samples write 2k cells |
| UvCoverage.MarkedTwo | scripts/astrokat-uvcoverage.py:225-228 | one sample marks exactly its own cell and its reflected cell |
| UvCoverage.SampleReflection | scripts/astrokat-uvcoverage.py:223-228 | when neither of a sample's cells wraps, the cells it marks are symmetric through (sctrl, sctrl) |
| UvCoverage.MaskReflection | scripts/astrokat-uvcoverage.py:223-228 | when no index wraps, the mask is symmetric under the point reflection through (sctrl, sctrl) with sctrl = maxsize//2 + 1 |
| UvCoverage.MarkCell | scripts/astrokat-uvcoverage.py:225-226 | one assignment writes 1 at the indexed cell and nothing else, or raises IndexError and writes nothing |
| UvCoverage.UvMask | scripts/astrokat-uvcoverage.py:211-229 | the grid is maxsize by maxsize; it is built exactly when every written index is valid, and holds 1 exactly at the cells the samples and their reflections hit, 0 elsewhere |
| UvCoverage.FillRows | scripts/astrokat-uvcoverage.py:99-106 | the loop over the antenna lines fills the resized table row by row with exactly the rows the line parser gives, or stops with the first line's error |
| UvCoverage.ParseLine | scripts/astrokat-uvcoverage.py:101-106 | parsing one antenna line in place gives exactly the row of the line parser |
| UvCoverage.EachStep | scripts/astrokat-uvcoverage.py:100-106 | one more line parsed appends its row to those already filled, or its error becomes the error of the whole table |
| UvCoverage.PairsPrefixLonger | scripts/astrokat-uvcoverage.py:134-135 | more outer passes visit at least as many pairs |
| UvCoverage.PairsPrefixKeeps | scripts/astrokat-uvcoverage.py:134-141 | a slot filled by fewer outer passes keeps its pair when there are more: later passes only append |
| UvCoverage.PairValues | scripts/astrokat-uvcoverage.py:131-141 | one value per visited pair: the arrays have exactly nr_baselines slots |
| UvCoverage.FillPairs | scripts/astrokat-uvcoverage.py:133-141 | the nested loop leaves both arrays holding exactly the per-slot lengths and azimuths of the rows laid out one after another |
| UvCoverage.FillRow | scripts/astrokat-uvcoverage.py:135-141 | one inner loop stores the pairs (i, j), j above i, in the n - 1 - i slots after the earlier rows, keeping those earlier slots |
| UvCoverage.AllRowsStored | scripts/astrokat-uvcoverage.py:133-141 | the rows of the nested loop are laid out back to back from slot 0, and every row's pairs fill its slots of the per-pair values |
| UvCoverage.RowSlots | scripts/astrokat-uvcoverage.py:134-141 | outer pass i takes n - 1 - i slots, starting where the passes before it stopped, and stores the values of its pairs there in order |
| UvCoverage.SlotValue | scripts/astrokat-uvcoverage.py:134-141 | the slot of pair (i, j) holds that pair's value |
| UvCoverage.MarkedAppend | scripts/astrokat-uvcoverage.py:224-228 | marking more cells marks what they hit, besides what was already marked |
| UvCoverage.CellsGrow | scripts/astrokat-uvcoverage.py:224-228 | the cells of the first k samples are a prefix of the cells of the first j, for k <= j |
| UvCoverage.NoWrapSplit | scripts/astrokat-uvcoverage.py:225-228 | when no index of a list of cells wraps around, none of its two parts wraps |
| UvCoverage.InGridAppend | scripts/astrokat-uvcoverage.py:225-228 | a list of cells lies inside the grid exactly when both its parts do |
| UvCoverage.InGridPrefix | scripts/astrokat-uvcoverage.py:225-228 | a prefix of a list inside the grid lies inside the grid |
| UpdateAntennas.LastStarting | config/update_mkat_antennas.py:85-88 | the index found is the last item that starts with the prefix: it starts with it and no later item does; None exactly when no item starts with it |
| UpdateAntennas.ScanPrefix | config/update_mkat_antennas.py:86-88 | the inner loop leaves the value of the last item starting with the prefix, None when there is none |
| UpdateAntennas.ScanKeys | config/update_mkat_antennas.py:85-88 | one value per key, each that of the last item starting with the key |
| UpdateAntennas.ExtractFields | config/update_mkat_antennas.py:80-88 | the extraction loop over the stripped comma items yields the four fields of the line |
| UpdateAntennas.ReadDelayFile | config/update_mkat_antennas.py:46-58 | RuntimeError without a matching file and with more than one; succeeds exactly when the single file's first line has six fields, returning the first three |
| UpdateAntennas.PathJoin | config/update_mkat_antennas.py:91-92 | an absolute file name replaces the directory; otherwise the path ends with the file name |
| UpdateAntennas.AntennaLineFields | config/update_mkat_antennas.py:61-67 | round trip: the extraction loop applied to `antenna_line_` gives back name, east, north and up when no value holds ',' or '=' or outer blanks |
| UpdateAntennas.NameClean | config/update_mkat_antennas.py:84-88 | a name read from a line holds neither ',' nor '=' nor outer blanks, so it is written back unchanged |
| UpdateAntennas.UpdateOneFields | config/update_mkat_antennas.py:78-97 | the rewritten line keeps the antenna's name and carries the first three delay-file fields as east, north and up |
| UpdateAntennas.UpdateAll | config/update_mkat_antennas.py:78-97 | every list entry is replaced in place by its rewritten line, in order, or the first error is raised |
| UpdateAntennas.UpdateKeepsPositions | config/update_mkat_antennas.py:78-97 | a successful update keeps the list length and rewrites entry i from entry i alone |
| UpdateAntennas.FieldsOf | config/update_mkat_antennas.py:85-88 | one value, or None, per key looked up |
| UpdateAntennas.KeyValue | config/update_mkat_antennas.py:61-88 | an item written as "key=value" has no comma, is already stripped, and gives back its value after the last '=' |
| UpdateAntennas.LineItems | config/update_mkat_antennas.py:61-84 | the line `antenna_line_` writes splits on ',' and strips back into its five items |
| UpdateAntennas.NameField | config/update_mkat_antennas.py:61-88 | the extraction loop reads back the name written into the line |
| UpdateAntennas.EastField | config/update_mkat_antennas.py:61-88 | the extraction loop reads back the east coordinate written into the line |
| UpdateAntennas.NorthField | config/update_mkat_antennas.py:61-88 | the extraction loop reads back the north coordinate written into the line |
| UpdateAntennas.UpField | config/update_mkat_antennas.py:61-88 | the extraction loop reads back the up coordinate written into the line |
| UpdateAntennas.LineFields | config/update_mkat_antennas.py:61-88 | a line built from clean fields gives back its name, east, north and up; the diameter is not read |
| UpdateAntennas.LastValueClean | config/update_mkat_antennas.py:88 | the value after the last '=' of an item without a comma is stripped and holds neither ',' nor '=' |
| UpdateAntennas.FieldClean | config/update_mkat_antennas.py:84-88 | every field read from a line is clean, so it can be written back unchanged |
| UpdateAntennas.PositionWords | config/update_mkat_antennas.py:46-58 | the east, north and up values read from a delay file are stripped words |
| UpdateAntennas.UpdateOneLine | config/update_mkat_antennas.py:78-97 | an entry whose delay file reads is rewritten as the line holding its old name and the file's east, north and up |

## Left out

- Ephemeris and coordinate maths (PyEphem, katpoint, astropy) are not modelled. This covers sidereal time, rise and set times, elevations, separations and coordinate transforms. These are parameters: `Observatory.Sky`, `ObserveMain.Sky`, `Targets.Converter`, the scan-area extents in `Scans`, and the slew times in `Simulate`. The same holds for `datetime2timestamp`, `timestamp2datetime` and `lst2utc` in astrokat/utility.py:158-204, and for the drift-scan transit point in astrokat/scans.py:25-43.
- katpoint `Target` and `Catalogue` parsing is not modelled. A target description is kept as its text. Catalogue files are given as their sequence of lines. `collect_targets`, `get_cal` and `best_cal_cover` are not modelled, and neither are `write_catalogue` and `smart_open`. `Catalogue.add` is modelled as skipping a target whose name is already present (`CalTargets.Added`). katpoint's matching of names and aliases is not.
- Session and hardware plumbing is not modelled beyond what it is asked. This covers katcorelib sessions, `capture_init`/`capture_start`, katcp replies and sensors. Every request becomes an entry of a log, and every reply or sensor value is a parameter. astrokat/correlator.py is not part of this model.
- Real time is an explicit clock field or parameter in place of `time.time` and `time.sleep`. The monkeypatching that installs the simulated clock (astrokat/simulate.py:143-154) is not modelled.
- File, YAML and glob I/O are not modelled. The loaded YAML document, the lines of a file and the answer of `glob` are inputs. Writing a file is modelled as the text written.
- Command-line parsing (`cli()` in every script, astrokat/cli.py, astrokat/__main__.py) is not modelled. Each script's entry point takes the parsed options as values.
- Logging text, the statistics printout at the end of a run (astrokat/observe_main.py:839-874), the printed tables of the listing scripts, and all matplotlib plotting are not modelled.
- Binary floating point is not modelled. Python floats are exact reals, `"%.Nf"` rounds half to even on the exact value, and NaN is modelled as an absent value (`Targets.BuildTarget` durations). Numerical routines are parameters: numpy's `sqrt` and `arctan2` (uv coverage), the FFT and Gaussian of the uv plots, `get_ha_range`, fitflux's `polyfit` refit branch, the scan speed through cos(el) (astrokat/scans.py:316-317) and slew-time estimates.
- `ObserveMain.NumpyDiv`: numpy's division of the target's float64 duration by a zero scan count gives inf, -inf or nan with a warning, and the raster scan goes on. The model goes on too, but holds all three as None, so the sign of an infinite scan duration is not kept.
- `Simulate.SimSession.Track`, `Simulate.SimSession.Scan`, `Simulate.SimSession.RasterScan`: the default arguments of astrokat/simulate.py:191, 205-206 and 220-221 are not modelled. These are a track of 0 s, a scan of 30 s, and 3 raster scans of 30 s. Every call in the model passes its durations and scan count explicitly.
- The imports and version checks of astrokat/__init__.py:15-45 are not modelled. The import at line 26 asks utility.py for a `katpoint_target` that it does not define.
- Calls that do not match the definitions they reach are not reconciled. For example, `trigger` and `pattern` are called with other signatures in astrokat/observe_main.py:192-194 and 597-600. Each function is modelled from its own definition.
- `Scans.Scan`, `Scans.RasterScan`, `Scans.ReferencePointingScan`, `Scans.DriftScan` and `Scans.Reversescan` model the intended flow. At astrokat/scans.py:68, 88, 114, 139 and 243 they call `trigger(session.kat, duration=..., lead_time=...)`, but the definition (astrokat/noisediode.py:137) is `trigger(kat, session, duration=None)`. As written, each of these calls would raise TypeError before the scan. The model instead triggers with the given period and lead time and then scans.
- Python 2 print statements in scripts/observe.py are not modelled.
- `set()` order in the listing scripts is modelled as first-occurrence order. Python leaves that order unspecified.
- Dictionary order in `Telescope.subarray_setup` is not modelled: the checks are stated for any order of the instrument keys.
- The key order of a loaded YAML mapping (`Utility.Yaml`) is abstracted away. Only dictionaries that are written out as text keep their order.
- `Targets.BuildTarget`: a NaN default duration is modelled as None and the default `obs_cntr` of 0 as None. The record otherwise carries the same fields.
- `ObsYaml.TargetStr`: the branch that turns an IndexError into a RuntimeError is not modelled. It cannot be reached and would refer to an undefined `line`.
- The `--infile` branch of `main` in scripts/astrokat-cals.py is not modelled. The check before it stops every run without `--target`, as `Cals.ReferenceTarget` states.
- `UvCoverage.LengthOf` and `UvCoverage.AzimuthOf` give 0 for a pair outside the antenna table. The loops never ask for one.
- `Scans.ScanLines`: the loop of `reversescan` runs while the clock is before the end of the scan area. It is bounded by a `fuel` count of lines, and the contract states that a run ending with fewer lines than the fuel has passed the end time.
- `LegacyObserve.LoopRun.Sweeps`: the `while not done` loop of scripts/astrokat-observe.py has no cap of its own. The model bounds it by a `fuel` count of sweeps. The newer loop's own cap of 100000 sweeps is modelled as written (`ObserveMain.SweepCap`).
- `Observatory.Observer.constructor`: overriding the date with a `datetime` is modelled as a given date value. The conversion to an ephem date is not modelled.
- Strings are ASCII for case mapping, whitespace and digits. Unicode whitespace, digits and case folding are not modelled.
- `ObserveMain.Run.Observe`: the answer of `observe` and the time it takes are oracles (`Oracles.observed`, `Oracles.takes`). They are not derived from `ObserveDecision`. An `observe` that raises, for example on an unknown observation type, therefore does not stop the modelled sweeps; `ObserveDecision` states those errors on its own.
- `LegacyObserve.LoopRun.Visit`: the answer of the visit and its time are oracles in the same way. They are not derived from `VisitOf`, so a visit whose `VisitOf` is an error does not stop the modelled sweeps.
- `Numbers.ToFloat`: only plain decimal literals are read (surrounding whitespace, a sign, digits and one point). Python's `float` also reads exponents ("1e3"), "inf", "nan" and digit underscores ("1_0"); the model treats those as ValueError. The same holds for `Numbers.ParseDecimal`, which it uses.
- `ObsYaml.Show`: a coordinate pair is printed with single quotes around both parts. Python's list repr switches to double quotes for a part that holds a single quote; such coordinates are not modelled.

## Findings

The operations that run these pieces of code (the sweeps, the catalogue reader, the
LST script's date and the legacy script's `run_observation`) model them as written.
The corrected member of each row states the evidently intended behaviour, with its
properties proved beside the as-written one.

| source | as written | input that shows it | evidently intended | confidence | as-written member | corrected member |
|---|---|---|---|---|---|---|
| scripts/astrokat-catalogue2obsfile.py:200 | `tags[len(prefix):]` drops as many characters as the coordinate type has, whether or not the tags start with it | tags "target" with the default type "radec" become "t" | drop the coordinate type only when the tags start with it | not executed | Catalogue2ObsFile.TagsAfterPrefixCounterexample | Catalogue2ObsFile.TagsAfterPrefix |
| scripts/astrokat-lst.py:67-69 | with seconds, the date is rebuilt from the two-digit-day group, which is None for a one-digit day | "2020-01-5 10:00:30" becomes "2020-01-None 10:00", which no longer matches, and `main` raises ValueError (`LstScript.DateOfNoneDay`) | rebuild from the day as given | not executed | LstScript.LongformatNoneDay | LstScript.LongformatDateFixed |
| scripts/astrokat-fitflux.py:36-40 | `log10S` is a Python list, so `+=` appends each term's block instead of adding it | coefficients [c0, c1] at one frequency x give [c0, c1·x] | one value per frequency, c0 + c1·x | not executed | FitFlux.FluxListCounterexample | FitFlux.CalcFluxDensity |
| astrokat/observe_main.py:783-795 | the look-ahead loop keeps going after a cadence target is found (`continue` where `break` was meant), so it settles on the last one | three targets, the second and third with a cadence: the look-ahead picks the third | pick the first cadence target after the current one | not executed | ObserveMain.NextTargetCounterexample | ObserveMain.NextTarget |
| scripts/astrokat-observe.py:323-326 | `obs_duration` is read from `durations` only when it is also a top-level key | a plan with `obs_duration: 3600` under `durations` alone sweeps once | read `obs_duration` when `durations` holds it | not executed | LegacyObserve.NestedDurationIgnored | ObserveMain.ObsDuration |
