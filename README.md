# gnsstools readers, calendar and SP3 interpolation in Dafny

This project models the core of gnsstools, a Python toolkit for GNSS data.
The core is the part that does not depend on floating-point arithmetic:

- the fixed-column readers of its data files:
  - RINEX 3 navigation (`nav.py` and the older `rinex3.py`);
  - RINEX 2 observation (`obs2.py` and the older `obs/obs2.py`);
  - RINEX 3 observation (`obs3.py`);
  - the SP3 precise orbit reader (`sp3.py`);
  - the RINEX header reader (`header.py`);
- the calendar arithmetic of `gnsstime`;
- the name conversion `camel2snake`;
- the window selection and Lagrange loop of `pos_sat_sp3`.

Each reader is a class in Python whose methods move `self._cursor` over the file's lines. The model keeps that form:

- `Rinex.RinexReader` is a class with the lines and a mutable cursor.
- Every reader operation is a `method` that `modifies` it.
- Every loop of the source is a loop of the model, `while` or `for` as fits, with its invariants.
- Each method is proved against a specification function:
  - a recursive reading of the lines;
  - a `Scan` over a table of per-line `Turn`s (`Pass`, `Yield`, `Halt` for an exception, `Stall` for a line the Python loop revisits forever).
- The `*Facts` modules prove what the readers promise about those functions.

Other modelling choices:

- Exceptions are `Err` or `Raised` values naming the Python exception.
- A loop that never ends in Python is the outcome `Diverges`.
- Decoded fields are `Fields.Field` values: `Absent`, `Int`, `Num` (a float, kept as the literal `float()` accepted) or `Str`.
- `pos_sat_sp3` is modelled over exact reals. It appears twice in the source, in `orbits/orbit_sp3.py:21-81` and `orbits/orbit.py:150-195`. The two copies are the same code, so `OrbitSp3` models both, and the table cites one or the other.

Where the comments beside the code and the code disagree, the model follows the code:

- The comment at `orbits/orbit_sp3.py:40-42` puts the requested date's index at the centre of the `ordre + 1` rows of the window. The code at lines 43-49 centres it only when the index equals `center`, and otherwise takes the first or the last window of the table. The comments at lines 55 and 67 name the Lagrange formula, but the sum at lines 63-73 runs over `N - 1` of the window's `N` rows. See the findings below.
- The comment at `nav.py:265` promises the satellite key `G02`. The code builds `G2` (`NavFacts.SatelliteUnpadded`).

## Model

| member | source | states |
|---|---|---|
| Rinex.RinexReader.constructor | gnsstools/rinex/rinex.py:16-19 | a reader holds the lines and starts with its cursor at 0 |
| Rinex.RinexReader.SkipHeader | gnsstools/rinex/rinex.py:58-60 | the cursor ends on the first line at or after it that strips to END OF HEADER, or at the end of the lines (HeaderEnd) |
| Rinex.RinexReader.SkipBlankLines | gnsstools/rinex/rinex.py:62-64 | the cursor ends on the first line at or after it that is not blank, or at the end of the lines (NextNonBlank) |
| Rinex.HeaderEnd | gnsstools/rinex/rinex.py:59 | the stop is a line that strips to END OF HEADER or the end of the lines, and no line before it strips to END OF HEADER |
| Rinex.NextNonBlank | gnsstools/rinex/rinex.py:63 | the stop is a non-blank line or the end of the lines, and every line skipped is blank |
| Rinex.ScanShape | gnsstools/rinex/nav.py:254-320 | a read loop that raises does so on a line whose step raises that exception; one that never ends has reached a line it cannot get past |
| Rinex.ScanAll | gnsstools/rinex/nav.py:254-320 | a property every record of every loop pass has holds of every record the whole read returns |
| Text.Slice | gnsstools/rinex/rinex.py:48 | Python's `s[a:b]` never raises: both bounds are clamped to the line, and the characters are those of the line from `a` on |
| Text.Strip | gnsstools/rinex/rinex.py:42 | `str.strip()` gives the empty text exactly for an all-whitespace text, otherwise a text that starts and ends with a non-space, never longer than the input |
| Text.ReplaceD | gnsstools/rinex/rinex.py:51 | `re.sub("[Dd]", "e", s)` keeps the length and replaces exactly the D and d characters by e |
| Text.FindFrom | gnsstools/rinex/rinex3.py:205 | the first occurrence of the separator at or after the start, or -1 when there is none |
| Text.CollapsedHasNoDoubleBlank | gnsstools/rinex/nav.py:296 | collapsing runs of two or more blanks into one leaves no two adjacent blanks |
| Text.SplitIntoWords | gnsstools/rinex/nav.py:296-297 | splitting a collapsed text that has no blank at either end on a blank gives only non-empty, blank-free words |
| Text.WordsAreWords | gnsstools/rinex/nav.py:296-297 | the words of a line that is not all whitespace are non-empty and contain no blank |
| Text.WordsOfBlank | gnsstools/rinex/nav.py:296-297 | an all-whitespace line splits into the single empty word |
| Text.LeadingZerosIgnored | gnsstools/rinex/rinex.py:47-48 | `int()` of digits ignores leading zeros |
| Text.NatToStringRoundTrip | gnsstools/rinex/sp3.py:112 | reading back the decimal digits `str(n)` writes gives n |
| Text.Lower | gnsstools/utils.py:17 | `str.lower()` keeps the length and lowers each ASCII capital |
| Fields.RenderRoundTrip | gnsstools/rinex/nav.py:268 | an int PRN prints as its digits inside the satellite key, and they decode back to the PRN |
| Fields.Eval | gnsstools/rinex/rinex.py:22-56 | `_eval`: None exactly for a blank field, an int exactly when the stripped field is all ASCII digits, otherwise the stripped text with D/d replaced by e, as a float when it is a float literal (the grammar of `float()` without underscores) |
| Fields.FloatOrText | gnsstools/rinex/rinex.py:50-56 | the float attempt returns a number exactly when the text is a float literal (ASCII digits, no underscores), and otherwise the text itself |
| Fields.EvalTextHasNoD | gnsstools/rinex/rinex.py:51 | a text or float result keeps the stripped length and has no D or d left |
| Fields.Eval3 | gnsstools/rinex/rinex3.py:107-133 | the rinex3 `_eval` never returns None: an int exactly when the stripped field is an optionally signed run of ASCII digits, a float of the substituted text, otherwise the substituted text without stripping |
| Fields.Eval3Blank | gnsstools/rinex/rinex3.py:123-133 | a blank field comes back as itself, never None |
| Fields.EvalBlank | gnsstools/rinex/rinex.py:38-45 | a blank field decodes to None |
| Fields.EvalPaddedDigits | gnsstools/rinex/rinex.py:34-35 | blank-padded digits with leading zeros decode to the integer, as `_eval("   00013  ") == 13` |
| Fields.EvalSigned | gnsstools/rinex/rinex.py:47-52 | a signed integer is not all digits and takes the float path |
| Fields.EvalFortranExponent | gnsstools/rinex/rinex.py:36-37 | a Fortran exponent marker D or d is read as e, as in `_eval("  00010.d+12  ")` |
| Fields.EvalText | gnsstools/rinex/rinex.py:31-33 | a field starting with a letter that cannot start a float comes back as its stripped text with D/d replaced |
| Fields.LetterIsNoFloat | gnsstools/rinex/rinex.py:50-54 | `float()` refuses a text starting with a letter other than i, n, e or d |
| Fields.EvalsAgreeOnDigits | gnsstools/rinex/rinex3.py:123-126 | the two decoders agree on every blank-padded all-digit field |
| Fields.Eval3Signed | gnsstools/rinex/rinex3.py:123-126 | the rinex3 decoder reads a signed integer as an int |
| Names.Camel2Snake | gnsstools/utils.py:13-19 | `camel2snake` raises IndexError exactly on "" and "d"; otherwise it returns a text |
| Names.UnderscoredLayout | gnsstools/utils.py:14-19 | the substitution only inserts: each character of the input keeps its order, with one underscore before each matched capital |
| Names.UnderscoredChars | gnsstools/utils.py:14-19 | every character the substitution adds is an underscore |
| Names.NoUpper | gnsstools/utils.py:17-19 | the result has no capital letter |
| Names.Camel2SnakeLayout | gnsstools/utils.py:18-19 | away from the `dX` case the result is the lowered input with an underscore before each matched capital, and nothing else |
| Names.Camel2SnakeLeadingD | gnsstools/utils.py:15-17 | in the `dX` case the leading d is kept and the rest is converted alone, so its first capital gets no underscore |
| Names.DX2 | gnsstools/utils.py:15 | "dX2" gives "dx2" |
| Header.SystemNameTable | gnsstools/rinex/header.py:25-34 | the eight letters of the system table name their systems, and no other letter names one |
| Header.ReadVersion | gnsstools/rinex/header.py:44-67 | `_read_version` with its two table loops gives the version data: IndexError when column 40 is missing, otherwise the version, the type and the system |
| Header.TypeRule | gnsstools/rinex/header.py:54-57 | the data-type loop adds the type entries for the last table type the columns contain |
| Header.SystemRule | gnsstools/rinex/header.py:62-65 | the system loop adds the entries of the one matching row of the table, or nothing |
| Header.SystemsPrefix | gnsstools/rinex/header.py:62-65 | after any number of table rows, the system loop has set the entries of the matching row among them, and nothing else |
| Header.VersionRule | gnsstools/rinex/header.py:44-67 | on a line reaching column 40, the result has the version; a System entry exactly when column 40 is a table letter; a Type entry exactly when columns 20-40 hold N or O, with O winning |
| Header.PgmData | gnsstools/rinex/header.py:69-74 | `_read_pgm` gives exactly the PGM, RunBy and Date entries, decoded from columns 0-20, 20-40 and 40-60 |
| Header.CategoryLength | gnsstools/rinex/header.py:83-85 | a line whose category is RINEX VERSION / TYPE reaches column 80, so `_read_version` never raises inside `read` |
| Header.ClassOf | gnsstools/rinex/header.py:83-89 | a line is a version, program or end line exactly when its category (columns 60 on, stripped) says so |
| Header.ReadLine | gnsstools/rinex/header.py:82-89 | one pass of the loop gives that line's data, and ends the loop exactly on END OF HEADER |
| Header.HeaderStop | gnsstools/rinex/header.py:81 | the loop stops just past the first END OF HEADER line, or at the end of the lines |
| Header.Read | gnsstools/rinex/header.py:76-92 | `read` leaves the cursor just past END OF HEADER and returns the lines' data merged in order |
| Header.LastWriteWins | gnsstools/rinex/header.py:86-89 | a key set by several header lines keeps the value of the last of them |
| Header.NeverWritten | gnsstools/rinex/header.py:86-89 | a key that no header line sets is not in the header |
| GnssTime.MonthLength | gnsstools/gnsstime.py:166 | a month has 28 to 31 days |
| GnssTime.Doy | gnsstools/gnsstime.py:157-167 | the loop of `doy` gives the day of the year, between 1 and the year's length |
| GnssTime.WeekOfYear | gnsstools/gnsstime.py:170-178 | `woy` is the whole number of weeks in the day of year, between 0 and 52 |
| GnssTime.SodRange | gnsstools/gnsstime.py:147-154 | `sod` lies in [0, 86400) and is the whole second of the day plus the microseconds as a fraction |
| GnssTime.SowRange | gnsstools/gnsstime.py:135-144 | `sow` is the day of year modulo 7 in seconds plus `sod`, and lies in [0, 604800) |
| GnssTime.OrdinalYearStep | gnsstools/gnsstime.py:108-110 | the day number used for time differences grows by the year's length from one New Year's day to the next |
| GnssTime.OrdinalMonthStep | gnsstools/gnsstime.py:108-110 | the day number grows by the month's length from one first of the month to the next |
| GnssTime.Day0Days | gnsstools/gnsstime.py:112-121 | `day0` is the number of days between the date and 1980-01-06 |
| GnssTime.Week0Days | gnsstools/gnsstime.py:123-132 | `week0` is `day0` in whole weeks |
| GnssTime.OriginCounts | gnsstools/gnsstime.py:112-132 | `day0` and `week0` are 0 at the GPS origin |
| GnssTime.MjdAffine | gnsstools/gnsstime.py:73-100 | the two constants of `mjd` agree: it is the days since 1970-01-01 plus 40587; `jd` is `mjd` plus 2400000.5 and `jd50` is `mjd` less 33282 |
| GnssTime.MjdAt1970 | gnsstools/gnsstime.py:73-82 | `mjd` of 1970-01-01 is 40587 |
| GnssTime.Session | gnsstools/gnsstime.py:69-71 | `session` is the hour's letter, from a at midnight to x at 23h |
| GnssTime.Make | gnsstools/gnsstime.py:66-67 | the constructor succeeds exactly on the instants `datetime` accepts, and then gives back the instant |
| GnssTime.FromDoy | gnsstools/gnsstime.py:180-214 | the loop and divisions of `fromdoy` compute the instant of the day-of-year search (FromDoySpec) |
| GnssTime.LocateInYear | gnsstools/gnsstime.py:195-199 | for a day within the year the month search ends on a month of the year and a day within that month |
| GnssTime.LocatePastYear | gnsstools/gnsstime.py:195-199 | for a day past the year's end the search runs off December to month 13 |
| GnssTime.FromDoyRoundTrip | gnsstools/gnsstime.py:180-214 | `fromdoy(year, doy, sod)` for a day within the year and a whole second within the day gives an instant with that day of year and second of day |
| GnssTime.DoyRoundTrip | gnsstools/gnsstime.py:157-214 | `fromdoy` of a valid instant's `doy` and whole `sod` gives back the instant, short of its microseconds |
| GnssTime.LocateFrom | gnsstools/gnsstime.py:195-199 | the search finds back the month and day a day of year was computed from |
| GnssTime.FromDoyOutOfYear | gnsstools/gnsstime.py:195-214 | a day of year below 1 or past the year's end makes the constructor raise ValueError |
| Tables.AppendRow | gnsstools/rinex/nav.py:312-318 | appending a record to the column dictionary keeps every column and adds the record's keys |
| Tables.ColumnsSnoc | gnsstools/rinex/nav.py:312-318 | appending one more record appends its row to the columns |
| Tables.ColumnsUniform | gnsstools/rinex/nav.py:312-321 | when every record has the same keys, the columns are exactly those keys, each as long as the number of records and holding the records' values in input order |
| Tables.RunLength | gnsstools/rinex/nav.py:301-305 | the session counter: the length of the run of equal satellites that a record ends, at least 1, and preceded by a different satellite or the start |
| Tables.RunLengthPrefix | gnsstools/rinex/nav.py:301-305 | the session of a record does not depend on the records after it |
| Tables.RunLengthSnoc | gnsstools/rinex/nav.py:301-305 | a new record counts on from the previous record's session when it has the same satellite, and restarts at 1 otherwise |
| Tables.NumberingAt | gnsstools/rinex/nav.py:301-306 | row i is record i with the session of the run it ends |
| Tables.FirstAppearance | gnsstools/rinex/sp3.py:129-131 | the keys of a dictionary of lists filled in input order: each key of the input once, and nothing else |
| Tables.Select | gnsstools/rinex/sp3.py:129-131 | the list filed under a key holds as many records as the key occurs |
| Tables.GroupedIsPermutation | gnsstools/rinex/sp3.py:129-137 | grouping the records by key loses and duplicates nothing |
| Tables.ConcatAddsOne | gnsstools/rinex/sp3.py:129-131 | filing one more record adds exactly it to the groups |
| Tables.ConcatWithout | gnsstools/rinex/sp3.py:129-131 | a record whose key is not listed does not show up in the groups |
| Tables.Positions | gnsstools/rinex/obs2.py:135-136 | the positions of a key: one per occurrence, each holding that key, in strictly increasing order |
| Tables.SelectAtPositions | gnsstools/rinex/obs2.py:135-136 | the group of a key is the records at its positions, in order |
| Tables.PositionOrdinals | gnsstools/rinex/obs2.py:135-136 | within each group the sessions number the records 1, 2, 3, ... |
| Groups.SizeIsOrdinal | gnsstools/rinex/obs2.py:135-136 | `len(d[key]) + 1` is the number of earlier records of the key plus one |
| Groups.FileStep | gnsstools/rinex/sp3.py:130-131 | filing a record adds its key to the order only when new, and appends the record to its key's list only |
| Groups.File | gnsstools/rinex/sp3.py:130-131 | `d[key].append(val)` keeps the dictionary equal to the grouping of all records filed so far |
| Groups.FlattenedIsConcat | gnsstools/rinex/sp3.py:133-135 | concatenating the lists of the dictionary is concatenating the groups |
| Groups.Flatten | gnsstools/rinex/sp3.py:133-135 | the final concatenation gives the records grouped by key, keys in order of first appearance |
| NavMaps.DictsFollowMaps | gnsstools/rinex/nav.py:47-211 | the GPS and GLONASS extractors read the slots of their field maps after the satellite id and epoch; the Galileo extractor does too, except that it files the health word under the GPS spelling `SVHealth` |
| NavMaps.ExtractLine | gnsstools/rinex/nav.py:227-231 | the keys after one line are the keys before plus those of the line's slots |
| NavMaps.ExtractLinesKeys | gnsstools/rinex/nav.py:226-232 | `extract_fields` fills exactly the keys of the rows zipped with a line |
| NavMaps.ExtractLineValue | gnsstools/rinex/nav.py:227-231 | a slot not overwritten later on its line gives its key the decoded columns |
| NavMaps.ExtractLineKeeps | gnsstools/rinex/nav.py:227-231 | a line whose slots avoid a key leaves that key's value alone |
| NavMaps.ExtractValue | gnsstools/rinex/nav.py:213-232 | in a layout without repeated keys, each slot of a line that was read holds `_eval` of its columns |
| NavMaps.DecodedSlot | gnsstools/rinex/nav.py:213-232 | reading a whole record and decoding afterwards gives each slot the decoded columns of its line |
| NavMaps.ExtractDecoded | gnsstools/rinex/nav.py:231 | decoding slot by slot while extracting is decoding the extracted texts afterwards |
| NavLayouts.UniqueByPosition | gnsstools/rinex/nav.py:104-211 | a layout whose every slot sits where a key-to-position table says has no key twice |
| NavLayouts.GDictUnique | gnsstools/rinex/nav.py:104-145 | no key occurs twice in the GPS extractor's dictionary |
| NavLayouts.EDictUnique | gnsstools/rinex/nav.py:172-211 | no key occurs twice in the Galileo extractor's dictionary |
| NavLayouts.RDictUnique | gnsstools/rinex/nav.py:147-170 | no key occurs twice in the GLONASS extractor's dictionary |
| Nav.SystemOf | gnsstools/rinex/nav.py:266-273 | an implicit line (blank or digit in column 0) takes the `system` argument or R; any other line takes column 0 |
| Nav.DictOf | gnsstools/rinex/nav.py:281-291 | only E, G and R have an extractor, of 8, 8 and 4 lines |
| Nav.RecordFields | gnsstools/rinex/nav.py:105-173 | reading a record raises IndexError exactly when its lines run past the end of the file |
| Nav.ExtractDict | gnsstools/rinex/nav.py:104-211 | an extractor moves the cursor past its lines and decodes its slots, raising IndexError on a record cut short |
| Nav.RecordsEmit | gnsstools/rinex/nav.py:310-318 | a record read is appended after those already read |
| Nav.NumberedSnoc | gnsstools/rinex/nav.py:301-306 | the rows already numbered stay as they are when one more record is read |
| Nav.SessionStep | gnsstools/rinex/nav.py:301-305 | the session counter restarts at 1 unless the record has the previous record's satellite, and then counts on |
| Nav.RecordsSkip | gnsstools/rinex/nav.py:259-291 | a skipped line contributes nothing |
| Nav.RecordsFail | gnsstools/rinex/nav.py:280-298 | a record that raises ends `read` with its exception |
| Nav.LineKindOf | gnsstools/rinex/nav.py:259-291 | the tests at the top of the loop body classify the line (Classify) |
| Nav.ReadKnown | gnsstools/rinex/nav.py:280-298 | reading a record: its lines through the extractor, then its six epoch words (ValueError otherwise), then the date gnsstime makes of them (TypeError when it refuses), ending after its lines |
| Nav.ReadRecord | gnsstools/rinex/nav.py:256-298 | one pass of the loop body skips the line by one or reads the record it starts, ending past it |
| Nav.Tally | gnsstools/rinex/nav.py:301-318 | the session bookkeeping and column appends keep the columns equal to the numbered rows of all records read |
| Nav.Advance | gnsstools/rinex/nav.py:254-318 | one loop pass moves forward and keeps the records read plus what the rest gives equal to the whole read, or raises the read's exception |
| NavFacts.StepsFailKnown | gnsstools/rinex/nav.py:256-298 | every step of the loop raises only IndexError, ValueError or TypeError |
| NavFacts.RecordsErrors | gnsstools/rinex/nav.py:254-318 | the loop raises only what one of its steps raises |
| Nav.ReadRecords | gnsstools/rinex/nav.py:254-318 | the loop of `read` gives the table of the records from the cursor on |
| Nav.Read | gnsstools/rinex/nav.py:234-321 | `read` skips the header and END OF HEADER line, then gives the table of the records |
| NavFacts.ClassifyRule | gnsstools/rinex/nav.py:259-291 | a line is skipped exactly when it is blank, has no PRN or names a constellation other than E, G and R |
| NavFacts.StepAtRule | gnsstools/rinex/nav.py:280-298 | a record raises IndexError exactly when its lines run past the end, ValueError when its epoch is not six words, TypeError exactly when gnsstime refuses the six words, and is read otherwise, reading going on after its lines |
| NavFacts.StepRule | gnsstools/rinex/nav.py:256-298 | what `read` does at each line: skip, raise IndexError (lines run out), ValueError (epoch not six words) or TypeError (date refused by gnsstime), or read a record of 8 (E, G) or 4 (R) lines |
| NavFacts.DictFacts | gnsstools/rinex/nav.py:104-211 | each extractor dictionary has no repeated key and fills data keys only |
| NavFacts.EmitRecord | gnsstools/rinex/nav.py:266-298 | a record read is of its line's constellation and holds its lines read through that constellation's dictionary |
| NavFacts.EmitFields | gnsstools/rinex/nav.py:104-211 | each field of a record read is `_eval` of its slot's columns on its slot's line |
| NavFacts.EmitKeys | gnsstools/rinex/nav.py:104-211 | a record's keys are exactly its dictionary's keys |
| NavFacts.StepsKeyed | gnsstools/rinex/nav.py:104-211 | every record the loop can read fills data keys only |
| NavFacts.NavRowKeys | gnsstools/rinex/nav.py:245-318 | each row fills every column of `df_fields` plus system and prn |
| NavFacts.NavRowAdded | gnsstools/rinex/nav.py:298-308 | the four cells `read` sets itself: time, session, system and prn |
| NavFacts.NavRowNone | gnsstools/rinex/nav.py:316-318 | a column the record lacks gets None |
| NavFacts.TableShape | gnsstools/rinex/nav.py:234-321 | `read` returns a table exactly when no record raises, and raises only IndexError, ValueError or TypeError; every column of a table has one value per record, in input order |
| NavFacts.TableCells | gnsstools/rinex/nav.py:298-308 | record i's time, session, constellation and PRN are in row i |
| NavFacts.TableData | gnsstools/rinex/nav.py:312-318 | every other column of record i holds its field or None; the satellite column is None throughout |
| NavFacts.PrnDigit | gnsstools/rinex/nav.py:272 | the PRN of a line "G 2..." is the digit |
| NavFacts.SatelliteUnpadded | gnsstools/rinex/nav.py:265-273 | the satellite of a line "G 2..." is "G2", not the "G02" the comment beside the code announces |
| Rinex3.FloatOf | gnsstools/rinex/rinex3.py:206-213 | `float()` accepts a float literal (ASCII digits, no underscores) once stripped, and raises ValueError otherwise; a zero value is told apart, since `not header.get(...)` treats 0.0 as unset |
| Rinex3.ReadVersionEntry | gnsstools/rinex/rinex3.py:205-207 | the version branch splits the stripped line on double blanks after collapsing runs, and takes the float of the first piece and the first letter of the second |
| Rinex3.ReadHeaderLine | gnsstools/rinex/rinex3.py:201-222 | the body of the header loop on one line (LineEffect) |
| Rinex3.HeaderScanAt | gnsstools/rinex/rinex3.py:199-222 | the scan at a line continues with the dictionary that line keeps, returns after END OF HEADER, or raises |
| Rinex3.ReadHeader | gnsstools/rinex/rinex3.py:196-222 | `_read_header` returns what the scan of all lines returns and leaves the cursor just past the last line it looked at |
| Rinex3.MapOf | gnsstools/rinex/rinex3.py:46-248 | `eval(f"{system}_FIELDS_MAP")`: 8 rows for E and G, 4 for R (the second R map), each starting with the satellite slot |
| Rinex3.ExtractLineInto | gnsstools/rinex/rinex3.py:189-193 | the slots of one line decoded onto the dictionary, in order |
| Rinex3.ExtractFields | gnsstools/rinex/rinex3.py:175-194 | `extract_fields` zips the lines with the map's rows and decodes each slot with `_eval`, a later slot overwriting an earlier one |
| Rinex3.RecordAt | gnsstools/rinex/rinex3.py:244-253 | a record holds its lines read through its system's map, and always a satellite |
| Rinex3.NumberedSnoc | gnsstools/rinex/rinex3.py:253-274 | the rows already numbered stay as they are when one more record is read |
| Rinex3.SessionStep | gnsstools/rinex/rinex3.py:254-260 | the session counter restarts at 1 unless the record has the previous record's satellite, and then counts on |
| Rinex3.Tally | gnsstools/rinex/rinex3.py:253-279 | the bookkeeping of a record whose time was built keeps the columns equal to the numbered rows of all records read, none of whose times raised |
| Rinex3.ReadRecord | gnsstools/rinex/rinex3.py:244-282 | reading a record moves the cursor past its map's rows |
| Rinex3.RecordsStart | gnsstools/rinex/rinex3.py:244-282 | a record start is read and reading goes on after its lines |
| Rinex3.RecordsOther | gnsstools/rinex/rinex3.py:284-285 | any other line is passed over |
| Rinex3.Advance | gnsstools/rinex/rinex3.py:242-285 | one loop pass moves forward; it raises the exception of the first record whose time raises, or keeps the records read plus the rest equal to the whole read and the columns tallied |
| Rinex3.TakeRecord | gnsstools/rinex/rinex3.py:244-282 | the pass on a record start moves forward; when gnsstime refuses the record's time it raises that exception, the first failure of the whole read, and otherwise it keeps the records read plus the rest equal to the whole read and the columns tallied with the new record |
| Rinex3.SkipLine | gnsstools/rinex/rinex3.py:284-285 | a line that starts no record moves the cursor one line on and leaves the records still to read unchanged |
| Rinex3.ReadRecords | gnsstools/rinex/rinex3.py:242-285 | the loop of `read` raises the exception of the first record whose time raises, or gives the columns of the numbered records from the cursor on |
| Rinex3.TimeFailureConcat | gnsstools/rinex/rinex3.py:242-282 | after records whose times were built, the first failure is the first failure of the records that follow |
| Rinex3.TimeFailureSnoc | gnsstools/rinex/rinex3.py:262-269 | a record whose time is built adds no failure |
| Rinex3.TimeFailureHere | gnsstools/rinex/rinex3.py:262-269 | a record whose time raises, read after records whose times were built, is the first failure of the read |
| Rinex3.Read | gnsstools/rinex/rinex3.py:224-290 | `read` scans the header, raising what it raises, then reads the records from where the scan left the cursor, raising the first record's time failure |
| Rinex3Facts.CollapsedParts | gnsstools/rinex/rinex3.py:205 | collapsing and splitting a word, a gap of two or more blanks and a rest gives the word first and the rest's first character second |
| Rinex3Facts.VersionEntryRule | gnsstools/rinex/rinex3.py:203-207 | on a line "3.03   N: ..." the version is the literal 3.03 and the type is N |
| Rinex3Facts.EffectShape | gnsstools/rinex/rinex3.py:201-222 | a line raises ValueError, IndexError or KeyError, KeyError only on a COMMENT line; only an END OF HEADER line ends the scan |
| Rinex3Facts.ScanShape | gnsstools/rinex/rinex3.py:199-222 | the scan returns a dictionary just past an END OF HEADER line, None only at the end of the lines, and raises only ValueError, IndexError or KeyError, KeyError on a COMMENT line |
| Rinex3Facts.HeaderShape | gnsstools/rinex/rinex3.py:196-222 | the same shape for the scan of a whole file |
| Rinex3Facts.SetOnce | gnsstools/rinex/rinex3.py:201-209 | a version that is set and not zero is never replaced, nor the type read with it; likewise the leap seconds |
| Rinex3Facts.ScanKeepsSet | gnsstools/rinex/rinex3.py:199-222 | over the whole scan the dictionary keeps a version, type and leap seconds already set |
| Rinex3Facts.TextRule | gnsstools/rinex/rinex3.py:201-221 | the tests of a header line are the searches for its four labels |
| Rinex3Facts.RecordsRule | gnsstools/rinex/rinex3.py:244-285 | a record start consumes 8 lines for G and E and 4 for R; any other line only itself |
| Rinex3Facts.RecordKeys | gnsstools/rinex/rinex3.py:244-253 | every record holds the satellite and the six epoch fields and no column `read` adds itself |
| Rinex3Facts.MapFirstRow | gnsstools/rinex/rinex3.py:46-88 | the first row of every map is the satellite and then the six epoch fields |
| Rinex3Facts.Row3Keys | gnsstools/rinex/rinex3.py:263-279 | the keys of a record's row are exactly `df_fields` |
| Rinex3Facts.Row3Cells | gnsstools/rinex/rinex3.py:260-279 | a row holds its session and the instant gnsstime built, no epoch field, its other fields unchanged, and None for every column it lacks |
| Rinex3.Stamped | gnsstools/rinex/rinex3.py:260-269 | the stamped row holds the record's fields except the six date fields, plus the session counter and the time built from the date |
| Tables.Completed | gnsstools/rinex/rinex3.py:276-279 | completing a row keeps its own keys and values and adds None for exactly the listed columns it lacks |
| Rinex3Facts.TimeRule | gnsstools/rinex/rinex3.py:263-269 | the time is built from the six epoch fields read, never from the defaults of `pop`: TypeError exactly when one is not an int, else the instant of the six when gnsstime accepts it and ValueError exactly when it refuses it |
| Rinex3Facts.TimeFailureNone | gnsstools/rinex/rinex3.py:242-282 | no failure is reported exactly when every record's time is built |
| Rinex3Facts.TimeFailureFirst | gnsstools/rinex/rinex3.py:242-282 | the failure reported is the exception of the first record whose time raises |
| Rinex3Facts.TableOfRaises | gnsstools/rinex/rinex3.py:242-282 | the loop never turns forever; it raises exactly when some record's time raises, with the first such record's exception |
| Rinex3Facts.TableOfColumns | gnsstools/rinex/rinex3.py:270-279 | a table of the records has one value per record in every column, and the columns are `df_fields` |
| Rinex3Facts.NumberedAt | gnsstools/rinex/rinex3.py:254-260 | row i carries the session of the run of its satellite that record i ends |
| Rinex3Facts.TableShape | gnsstools/rinex/rinex3.py:224-290 | `read` never turns forever; it raises exactly when the header scan raises or some record's time does, then with the first such record's exception; otherwise every column has one value per record, in input order, and the columns are `df_fields` |
| ObsText.IntOf | gnsstools/rinex/obs2.py:63 | `int()` of a column accepts an optionally signed run of ASCII digits once stripped and raises ValueError otherwise |
| ObsText.IntOfBlank | gnsstools/rinex/obs2.py:63 | a blank count column raises ValueError |
| ObsText.IntOfDigits | gnsstools/rinex/obs2.py:63 | blank-padded digits read as their decimal value |
| ObsText.CeilDiv | gnsstools/rinex/obs2.py:39 | `math.ceil(n / d)` is the least multiple count that covers n |
| ObsText.FillGapsNoMatch | gnsstools/rinex/obs2.py:105 | a text in which no three characters match the gap pattern is left alone |
| ObsText.FillGapsOnce | gnsstools/rinex/obs2.py:105 | matches do not overlap: in "1 1 1" only the first gap is filled |
| ObsText.PadIdGap | gnsstools/rinex/obs2.py:81-82 | "G 2" becomes "G02" |
| ObsText.PadIdKeeps | gnsstools/rinex/obs2.py:82 | an id without a gap is kept |
| ObsText.SlotId | gnsstools/rinex/obs2.py:79-83 | a blank slot gives no id; any other slot gives one non-empty id no longer than the slot |
| ObsText.SlotIdsShape | gnsstools/rinex/obs2.py:77-83 | every id of a line is non-empty and at most three characters long |
| ObsText.IdsFromShape | gnsstools/rinex/obs2.py:72-84 | the satellite loop stops on the first line at which the count is reached, with the ids of the lines up to it, and raises IndexError when the lines end first |
| ObsText.IdsFromStep | gnsstools/rinex/obs2.py:72-84 | one more line read while the count is not reached adds that line's ids |
| ObsText.ReadLineIds | gnsstools/rinex/obs2.py:73-83 | one pass of the satellite loop adds the ids of the line under the cursor to those gathered so far |
| ObsText.ReadSlotIds | gnsstools/rinex/obs2.py:77-83 | the loop over the slots of one line appends that line's ids |
| ObsText.ReadIds | gnsstools/rinex/obs2.py:72-84 | the satellite-list loop returns the ids of the search and leaves the cursor after the last line read, or raises its IndexError |
| Obs2.HeaderFrom | gnsstools/rinex/obs2.py:33-54 | a header that is read stops on a line of the file at or after where it started |
| Obs2.Header | gnsstools/rinex/obs2.py:27-56 | `_read_header` from the first line stops on a line of the file when it returns |
| Obs2.ReadTypes | gnsstools/rinex/obs2.py:42-50 | the types loop adds the words of each line it reads, moving one line each time, and fails exactly when the next line does not exist |
| Obs2.HeaderTypesStep | gnsstools/rinex/obs2.py:34-50 | a types line with count n takes the words of ceil(n / 9) lines and the scan goes on after them |
| Obs2.HeaderOtherStep | gnsstools/rinex/obs2.py:51-54 | any other line passes to the next |
| Obs2.Classify | gnsstools/rinex/obs2.py:33-36 | the tests the header loop makes on a line: its category and the count of a types line |
| Obs2.HeaderTurn | gnsstools/rinex/obs2.py:34-54 | one turn of the header loop goes down the file with the same outcome, or stops with the header's outcome |
| Obs2.TypesTurn | gnsstools/rinex/obs2.py:34-51 | on a types line the turn passes the block of ceil(n / 9) lines with their words added and the same outcome, or stops with the header's outcome, which is never a result |
| Obs2.OtherTurn | gnsstools/rinex/obs2.py:52-54 | any other line moves the cursor one line with the same outcome, or stops with the header's outcome, which is never a result |
| Obs2.ReadHeader | gnsstools/rinex/obs2.py:27-56 | `_read_header` returns the types and leaves the cursor on END OF HEADER, raises, or never ends |
| Obs2.EpochAt | gnsstools/rinex/obs2.py:58-87 | `_read_sat` returns short ids and the line after the last one read, and no ids exactly when it did not move |
| Obs2.ReadSat | gnsstools/rinex/obs2.py:58-87 | `_read_sat`: a refused date gives no satellite and leaves the cursor; otherwise ids are read until the count is reached |
| Obs2.ObsSlotsFrom | gnsstools/rinex/obs2.py:96-105 | field 5j + i of a block starting at line c is read from columns 16i to 16i + 16 of line c + j, with the number gaps filled |
| Obs2.ObsEnd | gnsstools/rinex/obs2.py:96-112 | `_read_obs` leaves the cursor ceil(n / 5) lines on, or at the end of the input |
| Obs2.FilledNext | gnsstools/rinex/obs2.py:100-106 | one more field read sets that field to its slot's decoded value |
| Obs2.CeilFive | gnsstools/rinex/obs2.py:91 | ceil(n / 5) rows of five hold the n fields and no row is empty |
| Obs2.ReadSlot | gnsstools/rinex/obs2.py:103-105 | the text of a slot is its columns with the number gaps filled |
| Obs2.ReadObsRow | gnsstools/rinex/obs2.py:98-106 | the field loop on one row sets the row's fields, up to the last field |
| Obs2.BlockRow | gnsstools/rinex/obs2.py:96-112 | one row of `_read_obs` extends the data by the fields of that row's five slots |
| Obs2.ReadBlock | gnsstools/rinex/obs2.py:92-114 | the rows of `_read_obs` fill every declared field from its slot, NaN where the input ends first |
| Obs2.ReadObs | gnsstools/rinex/obs2.py:89-114 | `_read_obs` raises IndexError past the last line, otherwise returns the block's fields and moves past it |
| Obs2.Record | gnsstools/rinex/obs2.py:130-134 | a satellite's record holds the observation fields plus Date, System and PRN, the date being the epoch's and the PRN its id's characters 1-3 decoded |
| Obs2.EpochObs | gnsstools/rinex/obs2.py:129-136 | the satellite loop reads one block per satellite, in order, and gives one record each |
| Obs2.StepAt | gnsstools/rinex/obs2.py:123-136 | a loop pass that reads an epoch ends further down the file |
| Obs2.EpochObsStep | gnsstools/rinex/obs2.py:129-136 | one satellite of an epoch is its block and then the rest |
| Obs2.SessionedSnoc | gnsstools/rinex/obs2.py:135 | the sessions of the records already read stay as they are |
| Obs2.FileObs | gnsstools/rinex/obs2.py:135-136 | setting the session to `len(satellites[satellite]) + 1` and appending keeps the dictionary equal to the grouping of the numbered records |
| Obs2.ReadSatObs | gnsstools/rinex/obs2.py:130-136 | one turn of the satellite loop reads the block, completes the record and files it, or raises |
| Obs2.ReadEpochObs | gnsstools/rinex/obs2.py:129-136 | the satellite loop files one record per satellite, or stops on the first exception |
| Obs2.Advance | gnsstools/rinex/obs2.py:123-136 | one pass of the loop passes a blank line or reads an epoch and files its records; an exception or an epoch with no satellite stops it |
| Obs2.ReadRecords | gnsstools/rinex/obs2.py:123-141 | the loop from the cursor, then the records grouped by satellite |
| Obs2.Read | gnsstools/rinex/obs2.py:116-141 | `read`: the header's types, then the records from the line after END OF HEADER |
| Obs2Facts.HeaderFromShape | gnsstools/rinex/obs2.py:33-54 | the header scan stops on END OF HEADER with the types found so far in front of the rest; it raises only ValueError or IndexError, and turns forever only on a types line whose count is zero or less |
| Obs2Facts.HeaderShape | gnsstools/rinex/obs2.py:27-56 | `_read_header` leaves the cursor on an END OF HEADER line, raises ValueError or IndexError, and never returns only when a types line it reaches has a count of zero or less |
| Obs2Facts.HeaderFromOthers | gnsstools/rinex/obs2.py:51-54 | lines that are neither END OF HEADER nor types lines are passed over |
| Obs2Facts.HeaderNoTypes | gnsstools/rinex/obs2.py:27-56 | a header without a types line declares no types |
| Obs2Facts.HeaderOneBlock | gnsstools/rinex/obs2.py:34-50 | one types line with one to nine types, followed by END OF HEADER, declares the words of its columns 6-60 |
| Obs2Facts.EpochRefused | gnsstools/rinex/obs2.py:63-69 | a count that is no int raises ValueError; a date gnsstime refuses gives no satellite and leaves the cursor |
| Obs2Facts.EpochRead | gnsstools/rinex/obs2.py:71-87 | with an accepted date, the ids and the next line are those of the satellite-list loop over the id slots, or IndexError when the lines end first |
| Obs2Facts.EpochNoIds | gnsstools/rinex/obs2.py:63-87 | no satellite comes back exactly when the date is refused or the count is zero or less |
| Obs2Facts.FilledKeys | gnsstools/rinex/obs2.py:92-106 | the dictionary has exactly the declared types as keys |
| Obs2Facts.FilledLast | gnsstools/rinex/obs2.py:100-106 | a type read and not declared again later holds its own slot's value |
| Obs2Facts.FilledUnread | gnsstools/rinex/obs2.py:92 | a type the loop does not reach keeps NaN |
| Obs2Facts.ObsAtKeys | gnsstools/rinex/obs2.py:89-114 | `_read_obs` raises IndexError exactly when the cursor is past the last line; otherwise its keys are the declared types |
| Obs2Facts.ObsAtField | gnsstools/rinex/obs2.py:96-106 | type 5j + i of a block at line c is slot i of line c + j, decoded (unless declared again later) |
| Obs2Facts.ObsAtCut | gnsstools/rinex/obs2.py:108-112 | a block cut short by the end of the file leaves the types it does not reach at NaN |
| Obs2Facts.SessionedAt | gnsstools/rinex/obs2.py:135 | each record's session is one more than the number of earlier records of its satellite |
| Obs2Facts.SessionsNumbered | gnsstools/rinex/obs2.py:135-136 | within one satellite's records, in input order, the sessions are 1, 2, 3, ... |
| Obs2Facts.TablePermutation | gnsstools/rinex/obs2.py:116-141 | the table holds every record once: it is a permutation of the records with their sessions |
| Obs2Facts.EpochObsError | gnsstools/rinex/obs2.py:129-136 | the blocks of an epoch raise only IndexError |
| Obs2Facts.StepRule | gnsstools/rinex/obs2.py:123-136 | a pass over a line skips it exactly when it is blank, stalls exactly on an epoch that yields no satellite, and raises only ValueError or IndexError |
| Obs2Facts.EpochsShape | gnsstools/rinex/obs2.py:123-136 | the loop of `read` raises only ValueError or IndexError and never ends only on a non-blank line whose epoch yields no satellite |
| Obs2Facts.RefusedEpochsDiverge | gnsstools/rinex/obs2.py:61-69 | with the column slices refused as gnsstime refuses them, the loop never ends once it reaches a non-blank line whose count columns hold an int |
| Obs2Facts.RefusedTableDiverges | gnsstools/rinex/obs2.py:116-136 | as written, `read` never returns on a file whose first non-blank line after the header has an int count |
| Obs2Facts.AcceptedEpochMoves | gnsstools/rinex/obs2.py:58-87 | with a date gnsstime accepts, an epoch line with a positive count is read: its records are yielded and the cursor moves past them, or IndexError is raised |
| Obs2Legacy.New | gnsstools/rinex/obs/obs2.py:23-25 | the constructor reads the undefined name `cursor`, so building a reader always raises NameError |
| Obs2Legacy.SlotTypes | gnsstools/rinex/obs/obs2.py:79-82 | the slots of a types line add at most one type each |
| Obs2Legacy.BlockRows | gnsstools/rinex/obs/obs2.py:74 | `math.ceil(n / 9)` lines of nine slots hold n types, and no fewer do |
| Obs2Legacy.HeaderFrom | gnsstools/rinex/obs/obs2.py:68-88 | the header scan stops only on an END OF HEADER line at or after where it started, and it never turns forever |
| Obs2Legacy.HeaderAt | gnsstools/rinex/obs/obs2.py:62-90 | `_read_header` from a line stops on a line of the file at or after it |
| Obs2Legacy.ReadTypeSlots | gnsstools/rinex/obs/obs2.py:79-82 | the slot loop keeps each six-column slot that is not all blank, stripped, in slot order |
| Obs2Legacy.ReadTypes | gnsstools/rinex/obs/obs2.py:77-85 | the types loop adds the slots of each line it reads, moving one line each time, and fails exactly when the next line does not exist |
| Obs2Legacy.HeaderTypesStep | gnsstools/rinex/obs/obs2.py:69-88 | a types block of ceil(n / 9) lines adds its types, and the scan goes on one line after the line that follows it |
| Obs2Legacy.HeaderOtherStep | gnsstools/rinex/obs/obs2.py:86-88 | any other line passes to the next |
| Obs2Legacy.HeaderTurn | gnsstools/rinex/obs/obs2.py:69-88 | one turn of the header loop goes down the file with the same outcome, or raises |
| Obs2Legacy.TypesTurn | gnsstools/rinex/obs/obs2.py:69-88 | on a types line with a count the turn passes the block and the line after it with the slots added and the same outcome, or stops with the header's outcome, an exception |
| Obs2Legacy.TypesRow | gnsstools/rinex/obs/obs2.py:78-82 | one pass of the block loop adds the kept slots of the line under the cursor to the types gathered so far |
| Obs2Legacy.ReadHeader | gnsstools/rinex/obs/obs2.py:62-90 | `_read_header` returns the types and leaves the cursor on END OF HEADER, or raises |
| Obs2Legacy.EpochEntries | gnsstools/rinex/obs/obs2.py:164-171 | the satellite loop reads one block per satellite and gives one entry each |
| Obs2Legacy.StepAt | gnsstools/rinex/obs/obs2.py:158-171 | a loop pass that reads an epoch ends further down the file |
| Obs2Legacy.NumberedSnoc | gnsstools/rinex/obs/obs2.py:168-169 | one more entry appends its record with the session its counter is raised to |
| Obs2Legacy.Tally | gnsstools/rinex/obs/obs2.py:168-171 | raising the counter and appending every key's value keeps the counters equal to the satellites' counts and the columns equal to the numbered records |
| Obs2Legacy.EpochEntriesStep | gnsstools/rinex/obs/obs2.py:164-171 | one satellite of an epoch is its block and then the rest |
| Obs2Legacy.ReadEntry | gnsstools/rinex/obs/obs2.py:165-171 | one turn of the satellite loop reads the block and appends its record, or raises |
| Obs2Legacy.ReadEpochEntries | gnsstools/rinex/obs/obs2.py:164-171 | the satellite loop appends one record per satellite, or stops on the first exception |
| Obs2Legacy.Advance | gnsstools/rinex/obs/obs2.py:158-171 | one pass of the loop passes a blank line or reads an epoch and appends its records; an exception or an epoch with no satellite stops it |
| Obs2Legacy.ReadRecords | gnsstools/rinex/obs/obs2.py:155-171 | the loop from the cursor gives the column dictionary of every record |
| Obs2Legacy.Read | gnsstools/rinex/obs/obs2.py:150-174 | `read`: the header's types, then the column dictionary of the records from the line after END OF HEADER |
| Obs2LegacyFacts.SlotTypesShort | gnsstools/rinex/obs/obs2.py:79-82 | a slot past the end of a short line is empty, not blank, so it adds the empty type "" |
| Obs2LegacyFacts.ShortLineTypes | gnsstools/rinex/obs/obs2.py:79-82 | a types line with k slots present gives their types and then 9 - k empty types |
| Obs2LegacyFacts.BlankSlotsDropped | gnsstools/rinex/obs/obs2.py:81 | slots that are all blank add nothing |
| Obs2LegacyFacts.KeptSlot | gnsstools/rinex/obs/obs2.py:81-82 | a slot with text adds that text stripped |
| Obs2LegacyFacts.SingleTypes | gnsstools/rinex/obs/obs2.py:79-82 | when every slot adds exactly one type, the line's types are those, in slot order |
| Obs2LegacyFacts.FilledSlotsKept | gnsstools/rinex/obs/obs2.py:79-82 | when every slot has text, type i is the stripped slot i |
| Obs2LegacyFacts.OneRow | gnsstools/rinex/obs/obs2.py:74 | a count of 1 to 9 takes one line |
| Obs2LegacyFacts.EndAfterBlockMissed | gnsstools/rinex/obs/obs2.py:77-88 | the line right after a types block is passed over unread, so an END OF HEADER there is missed and the scan goes on two lines down, or raises IndexError |
| Obs2LegacyFacts.EndAfterBlockSeen | gnsstools/rinex/obs2.py:42-54 | the newer reader stops on that END OF HEADER line with the block's types |
| Obs2LegacyFacts.EndAfterBlockFile | gnsstools/rinex/obs/obs2.py:62-90 | a header that is a one-line types block followed by END OF HEADER raises IndexError |
| Obs2LegacyFacts.HeaderFromShape | gnsstools/rinex/obs/obs2.py:68-88 | the header scan never turns forever; it raises only ValueError or IndexError, or stops on END OF HEADER with the types found so far in front |
| Obs2LegacyFacts.HeaderShape | gnsstools/rinex/obs/obs2.py:62-90 | `_read_header` never turns forever; it raises ValueError or IndexError, or returns with the cursor on END OF HEADER |
| Obs2LegacyFacts.NumberedAt | gnsstools/rinex/obs/obs2.py:168-169 | record i is entry i with its ordinal among the entries of its satellite as session |
| Obs2LegacyFacts.SessionsCount | gnsstools/rinex/obs/obs2.py:168-169 | the k-th record of a satellite, in input order, has session k |
| Obs2LegacyFacts.EpochEntriesKeys | gnsstools/rinex/obs/obs2.py:126-140 | every entry of an epoch holds exactly the declared types |
| Obs2LegacyFacts.EpochsKeys | gnsstools/rinex/obs/obs2.py:158-171 | every entry the loop returns holds exactly the declared types |
| Obs2LegacyFacts.NumberedKeys | gnsstools/rinex/obs/obs2.py:166-169 | each record has the entry's keys plus time, satellite and session |
| Obs2LegacyFacts.TableColumns | gnsstools/rinex/obs/obs2.py:150-174 | `read` builds one column per declared type and for time, satellite and session, each holding that key's value of every record in input order |
| Obs2LegacyFacts.TableFinish | gnsstools/rinex/obs/obs2.py:150-174 | when the header ends at line c with these types, `read` gives the column dictionary of the epochs from line c + 1 |
| Obs2LegacyFacts.EntriesAgree | gnsstools/rinex/obs/obs2.py:123-148 | the blocks of an epoch are read exactly as the newer reader reads them: the same exception, or the same satellites and observations |
| Obs2LegacyFacts.StepsAgree | gnsstools/rinex/obs/obs2.py:158-171 | each line does the same to both readers' loops: passed over, the same exception, a stall, or the same epoch read up to the same line |
| Obs2LegacyFacts.EpochsShape | gnsstools/rinex/obs/obs2.py:158-171 | the loop raises only ValueError or IndexError and never ends only on a non-blank line whose epoch yields no satellite |
| Obs3.CategoryLength | gnsstools/rinex/obs3.py:32-36 | a line whose columns from 60 on name a label is longer than 60 columns, so its first column (the system) exists |
| Obs3.ExtendDeclared | gnsstools/rinex/obs3.py:46 | `fields_dict[system].extend(...)` grows that system's types by the words and leaves every other system's as they were |
| Obs3.ExtendTwice | gnsstools/rinex/obs3.py:42-49 | two extensions of the same system are one extension by both lists |
| Obs3.HeaderFrom | gnsstools/rinex/obs3.py:32-53 | a header that is read stops on a line of the file at or after where it started |
| Obs3.Header | gnsstools/rinex/obs3.py:26-54 | `_read_header` from the first line stops on a line of the file |
| Obs3.ReadTypes | gnsstools/rinex/obs3.py:42-49 | the types loop adds the words of each line it reads to the system's types, moving one line each time, and fails exactly when the next line does not exist |
| Obs3.HeaderTypesStep | gnsstools/rinex/obs3.py:33-49 | a types line with count n adds the words of ceil(n / 13) lines to its system and the scan goes on after them |
| Obs3.HeaderStops | gnsstools/rinex/obs3.py:33-53 | the scan stops on a count that is no int (its exception), turns forever on a count of zero or less, and raises IndexError when a block or a line reaches the end of the file |
| Obs3.HeaderOtherStep | gnsstools/rinex/obs3.py:50-53 | any other line passes to the next |
| Obs3.Classify | gnsstools/rinex/obs3.py:32-36 | the tests the header loop makes on a line: its category, and the system and count of a types line |
| Obs3.HeaderTurn | gnsstools/rinex/obs3.py:33-53 | one turn of the header loop goes down the file with the same outcome, or stops with the header's outcome |
| Obs3.TypesTurn | gnsstools/rinex/obs3.py:34-49 | the turn on a types line reads the block of ceil(n / 13) lines for its system |
| Obs3.TypesRow | gnsstools/rinex/obs3.py:43-49 | one pass of the types loop adds the line's words to its system's types and moves one line on, failing exactly when there is no next line |
| Obs3.OtherTurn | gnsstools/rinex/obs3.py:50-53 | any other line moves the cursor one line with the same outcome, or stops with the header's outcome, which is never a result |
| Obs3.ReadHeader | gnsstools/rinex/obs3.py:26-54 | `_read_header` returns every system's types and leaves the cursor on END OF HEADER, raises, or never ends |
| Obs3.ReadSlots | gnsstools/rinex/obs3.py:59-62 | the field loop sets each declared type to its slot, columns 16i + 4 to 16i + 19, gaps filled and decoded |
| Obs3.ReadObs | gnsstools/rinex/obs3.py:56-63 | `_read_obs` reads the observations of the line under the cursor |
| Obs3.Block | gnsstools/rinex/obs3.py:83-85 | n lines read one after the other give n values, all within the file, or the first exception |
| Obs3.BlockSnoc | gnsstools/rinex/obs3.py:83-96 | a line that gives a value moves it to the records read, and the loop goes on at the next line |
| Obs3.BlockFail | gnsstools/rinex/obs3.py:84-87 | the exception of the next line, or IndexError past the end, ends the loop |
| Obs3.EpochSats | gnsstools/rinex/obs3.py:83-96 | the `range(sat_num)` loop gives one record per line for sat_num lines, all within the file |
| Obs3.StepAt | gnsstools/rinex/obs3.py:72-99 | every pass of the loop moves the cursor forward |
| Obs3.ReadSatObs | gnsstools/rinex/obs3.py:84-96 | one turn of the satellite loop moves one line on, reads that line's record (IndexError past the end or on an empty line) and files it |
| Obs3.SatTurn | gnsstools/rinex/obs3.py:83-96 | one turn of the satellite loop files the record and leaves what remains of the loop, or raises what the loop raises |
| Obs3.ReadEpochSats | gnsstools/rinex/obs3.py:83-96 | the satellite loop files one record for each of the sat_num lines and moves that many lines on, or stops on the first exception |
| Obs3.Advance | gnsstools/rinex/obs3.py:72-99 | one pass of the loop passes a blank or non-epoch line, or reads an epoch and files its records, then moves one line on; it never stays in place |
| Obs3.ReadRecords | gnsstools/rinex/obs3.py:70-104 | the loop from the cursor, then the records grouped by satellite |
| Obs3.Read | gnsstools/rinex/obs3.py:65-104 | `read`: every system's types, then the records from the line after END OF HEADER |
| Obs3Facts.TypesLineShape | gnsstools/rinex/obs3.py:32-36 | a line is a types line exactly when its label says so, and then names its system by column 0 and its count by columns 1-6 |
| Obs3Facts.GrownExtend | gnsstools/rinex/obs3.py:46 | extending one system keeps every system's earlier types in front |
| Obs3Facts.HeaderFromShape | gnsstools/rinex/obs3.py:32-53 | the scan stops on END OF HEADER with every system's earlier types in front; it raises only ValueError or IndexError, and turns forever only on a types line whose count is zero or less |
| Obs3Facts.HeaderShape | gnsstools/rinex/obs3.py:26-54 | `_read_header` leaves the cursor on END OF HEADER, raises ValueError or IndexError, and never returns only when a types line has a count of zero or less |
| Obs3Facts.HeaderFromOthers | gnsstools/rinex/obs3.py:50-53 | lines that are neither END OF HEADER nor types lines are passed over |
| Obs3Facts.HeaderNoTypes | gnsstools/rinex/obs3.py:26-54 | a header without a types line declares no types for any system |
| Obs3Facts.HeaderOneBlock | gnsstools/rinex/obs3.py:33-49 | one types line of one to thirteen types before END OF HEADER declares the words of its columns 7-60 for its system alone |
| Obs3Facts.ObservedKeys | gnsstools/rinex/obs3.py:57-62 | the keys of `_read_obs` are the types read |
| Obs3Facts.ObservedLast | gnsstools/rinex/obs3.py:59-62 | a type not declared again later holds its own slot decoded |
| Obs3Facts.SatObsKeys | gnsstools/rinex/obs3.py:87-93 | a satellite line's record holds its system's types plus Date, System and PRN and nothing else, filed under the system and the PRN printed one after the other |
| Obs3Facts.UndeclaredSystem | gnsstools/rinex/obs3.py:89-90 | a system the header declares no types for gives records without any observation |
| Obs3Facts.SatObsField | gnsstools/rinex/obs3.py:89-90 | a type its system declares once holds its slot of the line decoded |
| Obs3Facts.BlockAll | gnsstools/rinex/obs3.py:83-85 | n lines that all give a value give those values in order |
| Obs3Facts.BlockError | gnsstools/rinex/obs3.py:83-85 | the loop raises only what a line raises, or IndexError |
| Obs3Facts.EpochSatsAll | gnsstools/rinex/obs3.py:83-96 | n non-empty lines give one record each, in order |
| Obs3Facts.EpochLines | gnsstools/rinex/obs3.py:77-99 | exactly the sat_num lines after an epoch line are its satellites, and the loop goes on at the line after them |
| Obs3Facts.StepRule | gnsstools/rinex/obs3.py:72-99 | a blank line or one not starting with `>` is passed over; no line leaves the cursor in place; an epoch whose date gnsstime refuses raises TypeError, and an epoch raises only TypeError or IndexError |
| Obs3Facts.EpochsShape | gnsstools/rinex/obs3.py:72-99 | the loop of `read` always ends, raising only TypeError or IndexError |
| Obs3Facts.TableGrouped | gnsstools/rinex/obs3.py:101-104 | the table holds every record once, grouped by satellite in order of first appearance, with sessions 1, 2, 3, ... within a satellite |
| Sp3.Seek | gnsstools/rinex/sp3.py:79-87 | the seek loops stop on the first line at or after the cursor that starts with the mark, and raise IndexError exactly when no such line is left |
| Sp3.SeekLine | gnsstools/rinex/sp3.py:79-87 | a seek loop leaves the cursor on that first line |
| Sp3.ReadHeader | gnsstools/rinex/sp3.py:28-35 | `_read_header` decodes the epoch count, coordinate system, orbit type and agency from columns 32-39, 46-51, 52-55 and 56-60 of the line under the cursor |
| Sp3.ReadSat | gnsstools/rinex/sp3.py:37-58 | `_read_sat` returns the ids of the satellite-list lines from the cursor until the count is reached and leaves the cursor after them, or raises |
| Sp3.BodyStep | gnsstools/rinex/sp3.py:94-126 | a `P` or `V` line files its record with the current date, an accepted `*` line sets the date, and any other line is passed over; the loop goes on at the next line |
| Sp3.PointOf | gnsstools/rinex/sp3.py:60-72 | shapely's `Point(x, y, z)` is built exactly when all three coordinates are ints or floats; otherwise the first coordinate that is not decides, None raising TypeError and a text ValueError |
| Sp3.ReadValues | gnsstools/rinex/sp3.py:60-72 | `_read_position` and `_read_velocity` read the point and the clock of the line under the cursor, or raise what shapely's Point raises on a coordinate that is no number |
| Sp3.ReadLine | gnsstools/rinex/sp3.py:95-117 | the tests the data loop makes on a line, with the values of a `P` or `V` line |
| Sp3.Advance | gnsstools/rinex/sp3.py:94-126 | one pass of the data loop ends it at `EOF` or on an exception, or updates the date or files a record and moves one line on |
| Sp3.ReadData | gnsstools/rinex/sp3.py:91-131 | the data loop from the cursor with no date, then the records grouped by satellite |
| Sp3.Read | gnsstools/rinex/sp3.py:74-131 | `read`: reset the cursor to line 0, seek the `#` line and read it, seek the `+` line and read the list, then the data from the line after the list |
| Sp3Facts.HeaderEpochCount | gnsstools/rinex/sp3.py:31 | an epoch count written as blank-padded digits reads as its decimal value |
| Sp3Facts.SatSlotsShape | gnsstools/rinex/sp3.py:44-54 | no line gives more than 17 ids, and every id is one to three characters |
| Sp3Facts.SatListShape | gnsstools/rinex/sp3.py:37-58 | a count that is no int raises ValueError; otherwise reading stops at the first line that brings the ids to the count, or raises IndexError when the lines run out first |
| Sp3Facts.SatListNone | gnsstools/rinex/sp3.py:40-42 | a count of zero or less reads no line, so the data loop starts on the `+` line itself |
| Sp3Facts.DataOfShape | gnsstools/rinex/sp3.py:97-117 | a line that strips to `EOF` ends the data; `*` marks an epoch; an empty line, or `P` or `V` alone, cannot be indexed; `P` gives a position and `V` a velocity when all three coordinates decode to numbers, and raises TypeError or ValueError exactly when one does not; any other line is passed over |
| Sp3Facts.BlankPositionRefused | gnsstools/rinex/sp3.py:60-65 | the line "PG01", its coordinate columns missing, raises TypeError from shapely's Point |
| Sp3Facts.DataLinesRefusals | gnsstools/rinex/sp3.py:60-72 | a refused point raises only TypeError or ValueError |
| Sp3Facts.RecordShape | gnsstools/rinex/sp3.py:60-72 | a record whose point shapely accepts holds the point and the clock of its columns, unscaled, with Date, System and PRN and nothing else, filed under the system and the PRN printed one after the other |
| Sp3Facts.CarriedNoMark | gnsstools/rinex/sp3.py:92 | before the first epoch mark, records carry the date None |
| Sp3Facts.CarriedLastMark | gnsstools/rinex/sp3.py:102-105 | after an epoch mark, records carry its date until the next mark |
| Sp3Facts.BodyIsMotions | gnsstools/rinex/sp3.py:94-126 | with no line that raises before the end of the data, the loop returns exactly the records of the `P` and `V` lines up to there, in file order, each with the date of the last `*` line before it |
| Sp3Facts.BodyStopsAtEnd | gnsstools/rinex/sp3.py:97-98 | lines after the first `EOF` line are never read |
| Sp3Facts.BodyRaises | gnsstools/rinex/sp3.py:60-117 | the first line that raises decides the exception: IndexError for an unindexable line, shapely's exception for a refused point, TypeError for a date gnsstime refuses |
| Sp3Facts.BodyShape | gnsstools/rinex/sp3.py:94-126 | the data loop always ends, raising only IndexError, TypeError or ValueError |
| Sp3Facts.TableShape | gnsstools/rinex/sp3.py:74-131 | `read` raises IndexError when the file has no `#` line; it never turns forever and raises only IndexError, ValueError (a satellite count that is no int, or a text coordinate) or TypeError (a date gnsstime refuses, or a None coordinate) |
| Sp3Facts.TableGrouped | gnsstools/rinex/sp3.py:123-131 | the table holds every record once, grouped by satellite in order of first appearance, with sessions 1, 2, 3, ... counting `P` and `V` records together |
| OrbitSp3.Nearest | gnsstools/orbits/orbit_sp3.py:37 | `argmin` of the distances to mjd: a row no farther from mjd than any other, and strictly nearer than every row before it (the first of ties) |
| OrbitSp3.Bound | gnsstools/orbits/orbit_sp3.py:53 | a slice bound as Python adjusts it lies within the table |
| OrbitSp3.PySlice | gnsstools/orbits/orbit_sp3.py:53 | `orb[start:end]` is the rows between the adjusted bounds, or none when they cross |
| OrbitSp3.DistinctPySlice | gnsstools/orbits/orbit_sp3.py:53 | a slice of a table with distinct dates has distinct dates |
| OrbitSp3.DistinctWindow | gnsstools/orbits/orbit_sp3.py:36-53 | the window of a table with distinct dates has distinct dates |
| OrbitSp3.PartialNext | gnsstools/orbits/orbit_sp3.py:65-68 | one more turn of the inner loop multiplies by the factor of row k unless k is j |
| OrbitSp3.Product | gnsstools/orbits/orbit_sp3.py:63-68 | the inner loop makes `Lj[j]` the product of the factors (mjd - t_k) / (t_j - t_k) for k < degree other than j, leaving the other entries alone |
| OrbitSp3.Combine | gnsstools/orbits/orbit_sp3.py:58-73 | the nested loops sum `Lj[j]` times row j for j < degree, for each of X, Y, Z and the clock |
| OrbitSp3.PosSatSp3 | gnsstools/orbits/orbit_sp3.py:21-81 | `pos_sat_sp3` returns the scaled sums over the window, in metres and seconds, or ValueError on an empty table |
| OrbitSp3.SelectWindow | gnsstools/orbits/orbit_sp3.py:36-53 | the rows `pos_sat_sp3` slices out are the window of `Window`: ordre + 1 consecutive rows from the start that the nearest date's index selects (see WindowInside) |
| OrbitSp3.NearestAtNode | gnsstools/orbits/orbit_sp3.py:37 | a date of the table is its own nearest row |
| OrbitSp3.WindowInside | gnsstools/orbits/orbit.py:151-167 | on a table of at least ordre + 2 rows the window is ordre + 1 consecutive rows starting at row 0, row 1 or row nl - ordre - 1, and nowhere else |
| OrbitSp3.WindowMissesNearest | gnsstools/orbits/orbit_sp3.py:44-49 | on dates 0 to 5 with ordre = 1, the request for date 3 (nearest row 3) interpolates rows 4 and 5 |
| OrbitSp3.CenteredStartHolds | gnsstools/orbits/orbit_sp3.py:40-50 | the window the comment describes, centered on the anchor and moved only to stay in the table, holds the nearest row and ordre + 1 rows of the table |
| OrbitSp3.PartialAtOwn | gnsstools/orbits/orbit_sp3.py:64-68 | the product of row j's factors is 1 at the date of row j |
| OrbitSp3.PartialAtOther | gnsstools/orbits/orbit_sp3.py:64-68 | once row i's factor is in, row j's product is 0 at the date of row i |
| OrbitSp3.FactorZero | gnsstools/orbits/orbit_sp3.py:68 | a factor is 0 at the date of its row k, or when the product so far is 0 |
| OrbitSp3.BasisAtNode | gnsstools/orbits/orbit_sp3.py:63-68 | each Lagrange basis is 1 at its own row's date and 0 at the other rows it uses |
| OrbitSp3.WeightedAtNode | gnsstools/orbits/orbit_sp3.py:69-73 | at the date of row i, the first n terms of a sum add up to row i's value when i < n, and to 0 otherwise |
| OrbitSp3.InterpolatedAtNode | gnsstools/orbits/orbit.py:177-188 | the interpolation over the first m rows gives back each of them at its own date |
| OrbitSp3.ScaledAtNode | gnsstools/orbits/orbit_sp3.py:75-79 | over all of its rows, the scaled interpolation gives back each row at its own date, times 1000 for X, Y, Z and 1e-6 for the clock |
| OrbitSp3.ScaledInSlice | gnsstools/orbits/orbit_sp3.py:53-79 | the same over a slice of the table, for a row inside the slice |
| OrbitSp3.LastRowDropped | gnsstools/orbits/orbit_sp3.py:56-73 | `degree = N - 1` leaves the last row out: over rows dated 0 and 1 with X = 0 and 1, the sum at date 1 is 0, not 1 |
| OrbitSp3.PosSatMissesNode | gnsstools/orbits/orbit.py:150-195 | so the position at a tabulated date is not that row's: the two rows above, ordre = 1 and date 1 give X = 0 m, not 1000 m |
| OrbitSp3.CorrectedIs | gnsstools/orbits/orbit_sp3.py:36-79 | the corrected interpolation is the scaled sum over all rows of the centered window |
| OrbitSp3.CorrectedAtNode | gnsstools/orbits/orbit_sp3.py:36-81 | at a date of the table the corrected interpolation gives back that row's position and clock, in metres and seconds |

## Left out

- Floating point. Floats are kept as the literal `float()` accepted (`Fields.Num`), and the float grammar is a predicate, so no value is computed. `gnsstime` and `pos_sat_sp3` use exact reals, so rounding is not modelled.
- OrbitSp3.PosSatSp3: requires distinct dates in the table. With a repeated date, numpy divides by zero and gives inf or nan, which exact reals cannot express.
- OrbitSp3.WindowInside: states the window only for tables of at least ordre + 2 rows. For shorter tables, `Window` follows Python's slicing (shortened window, negative start counted from the end), but no lemma describes the result.
- Date construction in `obs2.py`, `obs/obs2.py`, `obs3.py`, `sp3.py` and `nav.py`. These readers pass six `str` column slices to `gnsstime`, which forwards them to `datetime`. `datetime` takes ints only, so it raises TypeError on every date these readers build. The model keeps the six columns as the date cell. A caller-supplied predicate `valid` says which dates construction accepts, and the source is the instance that accepts none (`Obs2Facts.RefuseAll`). A refused date has these effects:
  - `obs2.py` and `obs/obs2.py` catch the exception, and `read` never returns once it reaches an epoch line with an int count (see the findings below).
  - `obs3.py`, `sp3.py` and `nav.py` raise TypeError at the first epoch line, or at the first record for `nav.py`.
  The model does not say which dates a reader converting the columns with `int()` would accept. Such a reader would raise ValueError on an out-of-range date, and the model has no distinct outcome for it.
- `rinex3.py` passes the six decoded fields to `gnsstime` (`Rinex3.TimeOf`). A field that is not an int raises TypeError, and an out-of-range instant raises ValueError (`GnssTime.Make`).
- Fields.Render: prints a float field as the literal `float()` accepted, where Python prints the float's repr. For example, the sp3 line `PG-1...` gives the satellite "G-1" in the model but "G-1.0" in the source, and a PRN of `1.` gives "1." instead of "1.0". Float repr is not modelled, because floats are kept as literals. An int field prints as in Python (`Fields.RenderRoundTrip`).
- Obs3.StepAt: its own contract states only that a pass moves the cursor forward. `Obs3Facts.StepRule`, `Obs3Facts.EpochLines` and `Obs3Facts.EpochsShape` state what a pass reads and raises.
- Fields.Eval: the float grammar has no underscore digit groups and no non-ASCII digits, both of which Python's `float()` accepts (`float("1_0.5") == 10.5`); the model gives such a field back as text.
- Fields.FloatOrText: the same float grammar; `"1_0"` is text to the model and a float to Python.
- Fields.Eval3: the int grammar has no underscore digit groups and no non-ASCII digits, which Python's `int()` accepts (`int("1_2") == 12`); the model reads such a field as a float or text.
- Rinex3.FloatOf: the same float grammar; `float("1_0")` raises ValueError in the model.
- ObsText.IntOf: the same int grammar; `int("1_2")` raises ValueError in the model, where Python gives 12.
- Sp3.PointOf: follows shapely 2, which converts each coordinate with `float()`. shapely 1 raises TypeError for a text coordinate too, where the model raises ValueError. A text coordinate that `float()` would still accept (underscore digit groups, as above) is refused.
- Text.Lower: lowers ASCII capitals only. Likewise `str.isdigit` in `Fields.Eval` and `str.isupper` in `Names.Camel2Snake` are ASCII tests. Python's `lower`, `isdigit` and `isupper` also act on non-ASCII letters and digits.
- GnssTime.FromDoy: takes `doy` and `sod` as required ints. The source's defaults (`doy=1`, `sod=0`) are left to the caller, and a float `sod`, whose fraction becomes microseconds, is not modelled.
- Header.Read: returns a `map`, which has no key order. The source's `OrderedDict` keeps the order in which its keys were first set.
- `gnsstime.frommjd` and `fromjd`: they go through `fromtimestamp`, which depends on the local time zone.
- `get_sp3`, which loads the table for `pos_sat_sp3`, is not part of this model. The table and its row count `nl` are parameters.
- The `print` calls of `nav.py` and `pos_sat_sp3`.
- The pandas tail of every `read`: `DataFrame`, `set_index`, `reindex`, and the sorting of column names. Each model ends with the list of records, or the column dictionary, that is handed to pandas.
- The deprecated helpers `format_line` and `split_line` of `rinex3.py`.
- The Kepler propagation and everything else in `orbits/orbit.py` other than `pos_sat_sp3`.
- `obs3.py` inherits `_eval` from `reader.ABCReader`, and `reader.py` is not part of this model. It is taken to be the shared decoder of `rinex.py` (`Fields.Eval`).
- Whitespace means the ASCII whitespace characters that `str.strip` and `\s` remove. Unicode whitespace is not modelled.
- Obs2Legacy: the legacy constructor always raises NameError (`Obs2Legacy.New`). Its other methods are modelled on a reader built as `obs2.py` builds one.

## Findings

| source | as written | input that shows it | evidently intended | confidence | as-written member | corrected member |
|---|---|---|---|---|---|---|
| gnsstools/orbits/orbit_sp3.py:56-73 | `degree = N - 1` (likewise orbit.py:170-187): the loops run over the first N - 1 rows of the window, so the last row never enters the sums | rows (t=0, x=0) and (t=1, x=1), ordre = 1, nl = 2, mjd = 1.0: X is 0 m, not 1000 m | Lagrange interpolation over all N rows, which gives back each row at its own date | not executed | OrbitSp3.PosSatMissesNode | OrbitSp3.CorrectedAtNode |
| gnsstools/orbits/orbit_sp3.py:44-49 | (likewise orbit.py:158-163) any anchor past `center` jumps to the last ordre + 1 rows of the table | dates 0, 1, ..., 5, ordre = 1, mjd = 3.0: the nearest row is 3 but the window is rows 4 and 5 | a window of ordre + 1 rows around the anchor, moved only as far as needed to stay in the table | not executed | OrbitSp3.WindowMissesNearest | OrbitSp3.CenteredStartHolds |
| gnsstools/rinex/obs2.py:61-69 | the date is six `str` column slices; `gnsstime` (a `datetime`) raises TypeError on every one, the bare `except` returns no satellite, and the cursor is not moved (likewise obs/obs2.py) | a header, then the epoch line " 20  1  1  0  0  0.0000000  0  1G01": the loop of `read` turns on it forever | convert the six columns to numbers before calling gnsstime, so that a valid date is read and its satellites follow | not executed | Obs2Facts.RefusedTableDiverges | Obs2Facts.AcceptedEpochMoves |
| gnsstools/rinex/obs/obs2.py:77-88 | with no `else`, the line after a types block is skipped unread, so an END OF HEADER right after the block is missed | a header of one types line with a count of 1 to 9, then END OF HEADER: IndexError instead of the types | stop on that END OF HEADER, as the newer `obs2.py` does with its `else` branch | not executed | Obs2LegacyFacts.EndAfterBlockFile | Obs2LegacyFacts.EndAfterBlockSeen |
