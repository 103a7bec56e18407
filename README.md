# Watermark tool: a verified model

A model of the non-image logic of `watermark_tool.py`. This is a batch utility.
It reads the capture date of each photo in a directory from its EXIF tags. It
then writes a copy of the photo with that date drawn on it as a watermark. The
model covers four pieces:

- **Date extraction** (`WatermarkTool.get_exif_date`), module `Exif`. The tags
  are tried in a fixed priority order: `EXIF DateTimeOriginal`,
  `EXIF DateTimeDigitized`, `Image DateTime`. A tag is used only if it is
  present and its value contains `':'`. The first whitespace-separated word of
  the value must parse as `%Y:%m:%d`. The first tag that passes decides the
  date, and a tag that fails is skipped. The date is shown as `YYYY年MM月DD日`,
  and the result is `None` when no tag passes. The parse demands the whole
  token: four digits, a month of one or two digits, a day of one or two digits,
  and a real date in the Gregorian calendar (module `Calendar`).
- **Anchor geometry** (`WatermarkTool.get_watermark_position`), module
  `Placement`. The fixed margin is 10. The text box is estimated as
  `8*font_size` by `font_size`. There are five named placements, and any other
  placement string is handled like top-left.
- **Names** (module `Naming`). This covers pathlib's `suffix` and `stem` of a
  file name and the case-insensitive filter on `.jpg .jpeg .png .tiff .tif`.
  It also covers the output file name `stem + "_watermark" + suffix` and the
  output directory `<parent>/<name>_watermark`.
- **The directory loop** (`WatermarkTool.process_directory`), module `Batch`.
  Each regular file with a supported suffix gets one `add_watermark` call, in
  enumeration order. The call gets the file's watermark text (`拍摄于 <date>`,
  or `拍摄时间未知` when the file has no date) and its output name. Every such
  file is counted, whether or not the image work succeeds.

The EXIF reader's result is a `map<string, string>` from tag name to printed
value. It is `None` when the file or its tags cannot be read, which is where
the source's catch-all `except Exception` returns `None`. The directory listing
is a sequence of entries in enumeration order. Each entry records its name,
whether it is a regular file, its tags, and the width and height of the image
when the image library can open, draw on and save it. Whether the input
directory exists is a parameter. `GetExifDate` and `ProcessDirectory` keep the
loops of the source, with the work of one iteration in `TryField` and
`WatermarkFile`. Each loop is proved against a specification function:
`CaptureDateText` for the first, `Plan` of `Candidates` for the second.
Module `Scenarios` proves what the model yields for concrete inputs. These are the standard
timestamp `"2024:03:07 10:22:31"`, which gives `2024年03月07日`, a record whose
better tags fail, and a directory with one dated and one undated image.

A few behaviours of the code that the model keeps as written:
- an unknown placement gives `(10, 10)`, as top-left does (lines 64-65);
- the centre anchor uses Python's floor division `//` (line 63);
- only the colon layout `%Y:%m:%d` is parsed (line 37);
- a tag whose value fails to parse is skipped and the scan goes on with the
  next tag (line 40);
- the text box is estimated as `8*font_size` wide and `font_size` tall, and
  nothing is drawn behind the text (lines 51-52).

## Model

| member | source | states |
|---|---|---|
| `Strings.Pad` | watermark_tool.py:38 | a zero-padded numeral has exactly the requested width and consists of digits only |
| `Strings.ValueOfPad` | watermark_tool.py:38 | reading back a zero-padded numeral gives the number whenever it fits the width |
| `Strings.PadOfValue` | watermark_tool.py:37 | every digit string is the zero-padded numeral of its own value at its own width, and that value fits the width |
| `Strings.LeadingSpaces` | watermark_tool.py:37 | the result is the length of the leading run of `str.split()` whitespace: everything before it is whitespace and the next character is not |
| `Strings.WordLength` | watermark_tool.py:37 | the result is the length of the leading run of non-whitespace: none of it is whitespace and the next character is |
| `Strings.FirstWord` | watermark_tool.py:37 | `split()[0]`: the result is empty exactly when the value is all whitespace; it has no whitespace; only whitespace precedes it and whitespace or the end follows it |
| `Strings.FirstWordBeforeSpace` | watermark_tool.py:37 | the first word of `word + whitespace + anything` is `word`, so the time of day never matters |
| `Strings.LowerCase` | watermark_tool.py:123 | `str.lower()` on ASCII: the result has no capital letter, every character that is not a capital is kept, and lower-casing again changes nothing |
| `Calendar.DaysInMonth` | watermark_tool.py:37 | a month has 28 to 31 days; it has 29 exactly for February of a leap year and 28 exactly for February of a common year |
| `Calendar.IsValid` | watermark_tool.py:37 | `datetime` raises no ValueError only for a year from 1 to 9999, a month from 1 to 12 and a day from 1 to 31 that the month has |
| `Calendar.LeapDayValid` | watermark_tool.py:37 | 29 February is a valid date exactly in leap years of the Gregorian calendar |
| `Calendar.ThirtyFirstValid` | watermark_tool.py:37 | a 31st is a valid date exactly in January, March, May, July, August, October and December |
| `Exif.MonthLength` | watermark_tool.py:37 | the month field is one or two digits followed by `':'`, and 0 is returned exactly when neither form is present |
| `Exif.ParseDate` | watermark_tool.py:37 | whatever `%Y:%m:%d` parses is a real calendar date with year 1 to 9999 |
| `Exif.YearSplit` | watermark_tool.py:37 | a token made of four characters, `':'` and a rest splits back into exactly that year field and that rest |
| `Exif.MonthSplit` | watermark_tool.py:37 | a rest made of a one- or two-digit month, `':'` and a day field yields that month width, that month field and that day field |
| `Exif.ParseParts` | watermark_tool.py:37 | four digits, `':'`, one or two digits, `':'` and one or two digits parse to the date those digits denote when it is real, and to nothing when it is not |
| `Exif.ParseSpelling` | watermark_tool.py:37 | a 4-digit year, `':'`, a 1- or 2-digit month, `':'` and a 1- or 2-digit day parse to that date when it is real, and fail when it is not (29 February of a common year, month 13, day 0) |
| `Exif.ParsedParts` | watermark_tool.py:37 | a token that parses consists of its 4-digit year field, `':'`, a 1- or 2-digit month field, `':'` and a 1- or 2-digit day field, and the date is the numbers they denote |
| `Exif.SpellingOfParts` | watermark_tool.py:37 | digit groups are the zero-padded numerals of their own values, so they spell the date they denote |
| `Exif.ParsedIsSpelling` | watermark_tool.py:37 | any token that parses is exactly such a spelling of the date it parses to, with no leftover characters |
| `Exif.ParseDateIff` | watermark_tool.py:37 | a token parses to `d` if and only if `d` is a real date and the token is one of its accepted spellings |
| `Exif.BadDayRejected` | watermark_tool.py:37 | a day field longer than two characters or not made of digits makes the token fail |
| `Exif.TrailingDataRejected` | watermark_tool.py:37 | extra characters after a complete date make the token fail ("unconverted data remains"): anything after a two-digit day, any non-digit after a one-digit day |
| `Exif.FormatDate` | watermark_tool.py:38 | the display form `YYYY年MM月DD日` is always 11 characters long |
| `Exif.FormatRoundTrip` | watermark_tool.py:37-38 | the display form has `年`, `月` and `日` at fixed places, and its digit groups joined by `':'` parse back to the same date |
| `Exif.FieldDate` | watermark_tool.py:32-40 | a tag yields a date only when it is present and its value contains `':'`, and what it yields is a real date |
| `Exif.TimeOfDayIgnored` | watermark_tool.py:37 | a tag value made of a date, whitespace and any time yields exactly what the date alone parses to |
| `Exif.FieldDates` | watermark_tool.py:29-33 | one result per field, in priority order, each the result of that field |
| `Exif.FirstSome` | watermark_tool.py:31-40 | the chosen result is one of the per-field results |
| `Exif.FirstSomeIsFirst` | watermark_tool.py:31-42 | nothing is chosen exactly when every field fails; otherwise the chosen result is a success with only failures before it |
| `Exif.FirstSomeAt` | watermark_tool.py:31-40 | a success with only failures before it is the one chosen |
| `Exif.FirstDate` | watermark_tool.py:29-42 | the date chosen by the priority scan is a real date |
| `Exif.FirstDateAt` | watermark_tool.py:31-40 | the highest-priority tag that yields a date decides the date; lower tags are not consulted |
| `Exif.FirstDateNone` | watermark_tool.py:42 | when no tag yields a date there is no date |
| `Exif.CaptureDateText` | watermark_tool.py:22-46 | a returned display string has 11 characters |
| `Exif.CaptureDateTextAt` | watermark_tool.py:31-38 | the result is the formatted date of the first tag that yields one |
| `Exif.CaptureDateTextNone` | watermark_tool.py:42 | the result is `None` when no tag yields a date |
| `Exif.GetExifDate` | watermark_tool.py:22-46 | the loop returns `None` for unreadable tags or when every tag fails; otherwise it returns the formatted date of a tag that yields one, with every higher-priority tag failing; this equals `CaptureDateText` |
| `Placement.TextWidth` | watermark_tool.py:51 | the estimated text box is eight times as wide as it is tall |
| `Placement.TextHeight` | watermark_tool.py:52 | the estimated height of the text box is the font size itself |
| `Placement.Position` | watermark_tool.py:48-65 | on each axis the anchor is at the margin, one margin short of the far edge for the text box, or centred in the remaining room with rounding down |
| `Placement.TopLeftAnchor` | watermark_tool.py:54-55 | top-left is exactly `(10, 10)` |
| `Placement.TopRightAnchor` | watermark_tool.py:56-57 | top-right satisfies `x + 8*fs + 10 == width` and `y == 10` |
| `Placement.BottomLeftAnchor` | watermark_tool.py:58-59 | bottom-left satisfies `x == 10` and `y + fs + 10 == height` |
| `Placement.BottomRightAnchor` | watermark_tool.py:60-61 | bottom-right satisfies both edge equations |
| `Placement.CenterAnchor` | watermark_tool.py:62-63 | centre satisfies `0 <= (width - 8*fs) - 2*x <= 1`, the same for `y` with `fs`, and so it is floor division, also when the room is negative |
| `Placement.UnknownPlacementIsTopLeft` | watermark_tool.py:64-65 | any string outside the five placement names gives the top-left anchor |
| `Placement.Containment` | watermark_tool.py:50-65 | with `fs >= 0` and room for the box plus two margins on each axis, every placement keeps the text box inside the image |
| `Naming.LastDot` | watermark_tool.py:133 | `rfind('.')`: the index of a `'.'` with none after it, or -1 when the name has none |
| `Naming.StemAndSuffix` | watermark_tool.py:123-133 | pathlib's `stem` and `suffix`: stem followed by suffix is the name; the suffix is non-empty exactly when the last dot is neither the first nor the last character, and then it is `'.'` plus at least one non-dot character after a non-empty stem |
| `Naming.SupportedAreExtensions` | watermark_tool.py:20 | each supported format is a lower-case extension |
| `Naming.LastDotOfEnding` | watermark_tool.py:123 | when a name ends in an extension, its last dot starts that extension |
| `Naming.SupportedHasSuffix` | watermark_tool.py:123 | only a name with a non-empty suffix can pass the filter |
| `Naming.SupportedIff` | watermark_tool.py:123 | a name passes the filter exactly when it ends, ignoring ASCII case, in one of the five suffixes with at least one character before it |
| `Naming.OutputFileName` | watermark_tool.py:133 | the output file name is the input name lengthened by `_watermark` |
| `Naming.OutputFileNameParts` | watermark_tool.py:133 | the output name keeps the input's suffix and has the input's stem plus `_watermark` as its stem; it passes the filter exactly when the input does, and it never equals the input |
| `Naming.OutputDir` | watermark_tool.py:111 | the output directory has the input's anchor and is named after the input with `_watermark` appended |
| `Naming.OutputDirPlacement` | watermark_tool.py:111 | the output directory is never the input; it is named `<name>_watermark` and sits beside the input, or inside it when the input is a bare anchor such as `/` or `.` |
| `Batch.WatermarkText` | watermark_tool.py:127-130 | the text is the sentinel exactly when there is no (non-empty) date; otherwise it is the prefix `拍摄于 ` followed by the date, which can be read back |
| `Batch.DrawnAt` | watermark_tool.py:90-100 | an anchor is recorded exactly when the image could be opened, drawn on and saved |
| `Batch.CandidateIff` | watermark_tool.py:123 | an entry is processed exactly when it is a regular file whose name ends, ignoring ASCII case, in one of the five suffixes with at least one character before it |
| `Batch.Candidates` | watermark_tool.py:122-123 | there are no more processed entries than entries |
| `Batch.CandidatesExactly` | watermark_tool.py:122-123 | an entry is processed if and only if it is a regular file with a supported suffix |
| `Batch.CandidatesAppend` | watermark_tool.py:122-123 | entries are processed in enumeration order: appending an entry appends it to the processed ones exactly when it qualifies |
| `Batch.CandidatesOfPrefix` | watermark_tool.py:122-123 | looking at one more entry adds that entry to the processed ones exactly when it qualifies |
| `Batch.PlanJob` | watermark_tool.py:125-137 | the call for a processed entry reads that entry and writes a different file that passes the same filter; its text is the sentinel exactly when the entry has no date; it records an anchor exactly when the image work succeeds |
| `Batch.PlanAppend` | watermark_tool.py:122-138 | one more processed entry appends its own call to the plan |
| `Batch.PlanStep` | watermark_tool.py:122-138 | a loop step over one more entry appends that entry's call when it qualifies and leaves the calls unchanged when it does not |
| `Batch.ProcessDirectory` | watermark_tool.py:102-141 | a missing input directory gives no run; otherwise the output directory is `OutputDir(input)`, the count equals the number of processed entries and of `add_watermark` calls, and the calls are made one per processed entry, in enumeration order, the k-th being `PlanJob` of the k-th processed entry |
| `Batch.CountIgnoresOutcomes` | watermark_tool.py:135-138 | the count depends only on names and file kinds, never on tags or on whether the image work succeeds |
| `Batch.TextOfCaptureDate` | watermark_tool.py:125-130 | the text is `拍摄于 <date>` when the file has a date and `拍摄时间未知` otherwise |
| `Scenarios.NonLeapTokenRejected` | watermark_tool.py:37 | `2023:02:29` does not parse |
| `Scenarios.MonthThirteenRejected` | watermark_tool.py:37 | `2024:13:01` does not parse |
| `Scenarios.StandardTimestamp` | watermark_tool.py:31-38 | `DateTimeOriginal = "2024:03:07 10:22:31"` gives `2024年03月07日` |
| `Scenarios.FailedFieldsAreSkipped` | watermark_tool.py:31-40 | an impossible date in the first tag and a value without `':'` in the second are skipped, and the third tag supplies the date |
| `Scenarios.NoDateGivesSentinel` | watermark_tool.py:42-46 | unreadable tags and tags without a date field give no date, and so the sentinel text |
| `Scenarios.TwoFileDirectory` | watermark_tool.py:119-138 | in a directory of one dated and one undated image both are processed: the first call gets `拍摄于 2024年03月07日` and `a_watermark.jpg`, the second the sentinel and `b_watermark.PNG`, both at the bottom-right anchor `(598, 566)` of an 800×600 image at font size 24 |

## Left out

- Opening the file and `exifread.process_file` (lines 25-26) are left out as I/O. They become the optional tag map, and `None` stands for every exception that the catch-all at lines 44-46 turns into `None`.
- All image work in `add_watermark` (lines 72-96) is left out. This covers `Image.open`, the RGBA to RGB conversion, `ImageDraw.text` and `img.save`, which are library calls on a pixel buffer. The model keeps only which anchor it computes (line 90) and whether an output is written.
- The font fallback chain (lines 81-87) is left out because it only handles library load failures. The colour argument is left out because it only reaches the drawing call.
- `Path.exists`, `mkdir`, `iterdir` and `is_file` (lines 104-123) are left out as filesystem calls. Their results are parameters: a flag, the output directory value, and the entry sequence with its file-kind flag. The order of the entries is whatever the filesystem gives.
- The exceptions these calls raise are not modelled, and `process_directory` does not catch them. An input path that is a regular file passes `exists()` and gets its output directory created, and then `iterdir()` raises. `mkdir(exist_ok=True)` raises when the output name already exists as a regular file. `Batch.ProcessDirectory` returns a run whenever the input exists.
- All `print` output and the `argparse` command line in `main` (lines 144-163) are left out as I/O.
- `test_watermark.py` is left out. It only draws fixture images and creates directories.
- `Exif.ParseDate`: accepts only ASCII digits. Python's `strptime` pattern uses `\d` for the year and for the second digit of a day from 10 to 29, and `\d` also matches other Unicode decimal digits. The model rejects tokens that use those digits.
- `Exif.FormatDate`: always writes the year with four digits. For years below 1000, what `strftime('%Y')` writes depends on the platform and on the Python version.
- `Strings.Lower`: lower-cases ASCII only. For the filter this is the same as Python's `str.lower()`. The only non-ASCII characters that lower-case to ASCII letters are U+212A (to `k`) and U+0130 (to `i` plus a combining dot), and neither can produce one of the five suffixes.
- `Naming.Suffix` and `Naming.Stem` apply pathlib's rule to a single name component. A last dot starts the suffix unless it is the first or the last character. Name components with separators in them are not modelled.
