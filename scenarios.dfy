/**
 * Concrete inputs run through the model: the standard EXIF timestamp, a
 * record whose best field is not a real date, and a directory of one dated
 * and one undated image.
 */
module Scenarios {
  import opened Wrappers
  import opened Strings
  import opened Calendar
  import opened Exif
  import opened Naming
  import opened Batch

  lemma PadYears()
    ensures Pad(2024, 4) == "2024" && Pad(2023, 4) == "2023"
  {
    assert Pad(2, 1) == "2";
    assert Pad(20, 2) == "20";
    assert Pad(202, 3) == "202";
  }

  lemma PadDays()
    ensures Pad(1, 2) == "01" && Pad(2, 2) == "02" && Pad(3, 2) == "03" && Pad(7, 2) == "07"
    ensures Pad(13, 2) == "13" && Pad(29, 2) == "29"
  {
    assert Pad(0, 1) == "0" && Pad(1, 1) == "1" && Pad(2, 1) == "2";
  }

  lemma TimestampValue(value: string)
    requires value == "2024:03:07 10:22:31"
    ensures ':' in value && FirstWord(value) == "2024:03:07"
  {
    assert value[4] == ':';
    assert value == "2024:03:07" + [' '] + "10:22:31";
    FirstWordBeforeSpace("2024:03:07", ' ', "10:22:31");
  }

  lemma NonLeapValue(value: string)
    requires value == "2023:02:29 08:00:00"
    ensures ':' in value && FirstWord(value) == "2023:02:29"
  {
    assert value[4] == ':';
    assert value == "2023:02:29" + [' '] + "08:00:00";
    FirstWordBeforeSpace("2023:02:29", ' ', "08:00:00");
  }

  lemma YearValues()
    ensures Value("2024") == 2024 && Value("2023") == 2023
  {
    assert Value("2") == 2;
    assert "20"[..1] == "2" && Value("20") == 20;
    assert "202"[..2] == "20" && Value("202") == 202;
    assert "2024"[..3] == "202" && "2023"[..3] == "202";
  }

  lemma MonthDayValues()
    ensures Value("01") == 1 && Value("02") == 2 && Value("03") == 3 && Value("07") == 7
    ensures Value("13") == 13 && Value("29") == 29
  {
    assert Value("0") == 0 && Value("1") == 1 && Value("2") == 2;
    assert "01"[..1] == "0" && "02"[..1] == "0" && "03"[..1] == "0" && "07"[..1] == "0";
    assert "13"[..1] == "1" && "29"[..1] == "2";
  }

  lemma RealDateToken()
    ensures ParseDate("2024:03:07") == Some(Date(2024, 3, 7))
  {
    YearValues();
    MonthDayValues();
    ParseParts("2024", "03", "07");
    assert "2024" + ":" + "03" + ":" + "07" == "2024:03:07";
  }

  /** 29 February of a common year is no date. */
  lemma NonLeapTokenRejected()
    ensures ParseDate("2023:02:29") == None
  {
    YearValues();
    MonthDayValues();
    ParseParts("2023", "02", "29");
    assert "2023" + ":" + "02" + ":" + "29" == "2023:02:29";
  }

  /** Month 13 is no month. */
  lemma MonthThirteenRejected()
    ensures ParseDate("2024:13:01") == None
  {
    YearValues();
    MonthDayValues();
    ParseParts("2024", "13", "01");
    assert "2024" + ":" + "13" + ":" + "01" == "2024:13:01";
  }

  lemma ExampleDisplay()
    ensures FormatDate(Date(2024, 3, 7)) == "2024年03月07日"
  {
    PadYears();
    PadDays();
  }

  /** What one tag yields, from its value's ':' and first word. */
  lemma FieldDateOf(tags: map<string, string>, field: string, token: string)
    requires field in tags && ':' in tags[field] && FirstWord(tags[field]) == token
    ensures FieldDate(tags, field) == ParseDate(token)
  {
  }

  lemma NonLeapFieldSkipped(tags: map<string, string>, field: string)
    requires field in tags && tags[field] == "2023:02:29 08:00:00"
    ensures FieldDate(tags, field) == None
  {
    NonLeapValue(tags[field]);
    NonLeapTokenRejected();
    FieldDateOf(tags, field, "2023:02:29");
  }

  lemma NoColonFieldSkipped(tags: map<string, string>, field: string)
    requires field in tags && tags[field] == "unknown"
    ensures FieldDate(tags, field) == None
  {
    assert forall i :: 0 <= i < |tags[field]| ==> tags[field][i] != ':';
  }

  lemma TimestampFieldUsed(tags: map<string, string>, field: string)
    requires field in tags && tags[field] == "2024:03:07 10:22:31"
    ensures FieldDate(tags, field) == Some(Date(2024, 3, 7))
  {
    TimestampValue(tags[field]);
    RealDateToken();
    FieldDateOf(tags, field, "2024:03:07");
  }

  /** The standard layout "2024:03:07 10:22:31" is displayed as 2024年03月07日. */
  lemma StandardTimestamp(tags: map<string, string>)
    requires DATE_FIELDS[0] in tags && tags[DATE_FIELDS[0]] == "2024:03:07 10:22:31"
    ensures CaptureDateText(Some(tags)) == Some("2024年03月07日")
  {
    TimestampFieldUsed(tags, DATE_FIELDS[0]);
    FirstDateAt(tags, DATE_FIELDS, 0);
    ExampleDisplay();
  }

  /**
   * A non-existent date in the first field and a value without ':' in the
   * second are skipped, and the third field supplies the date.
   */
  lemma FailedFieldsAreSkipped(tags: map<string, string>)
    requires DATE_FIELDS[0] in tags && tags[DATE_FIELDS[0]] == "2023:02:29 08:00:00"
    requires DATE_FIELDS[1] in tags && tags[DATE_FIELDS[1]] == "unknown"
    requires DATE_FIELDS[2] in tags && tags[DATE_FIELDS[2]] == "2024:03:07 10:22:31"
    ensures CaptureDateText(Some(tags)) == Some("2024年03月07日")
  {
    forall j | 0 <= j < 2
      ensures FieldDate(tags, DATE_FIELDS[j]).None?
    {
      if j == 0 {
        NonLeapFieldSkipped(tags, DATE_FIELDS[0]);
      } else {
        NoColonFieldSkipped(tags, DATE_FIELDS[1]);
      }
    }
    TimestampFieldUsed(tags, DATE_FIELDS[2]);
    FirstDateAt(tags, DATE_FIELDS, 2);
    ExampleDisplay();
  }

  /** Unreadable tags and tags without any date field both give no date, hence the sentinel text. */
  lemma NoDateGivesSentinel()
    ensures CaptureDateText(None) == None && WatermarkText(CaptureDateText(None)) == UNKNOWN_TEXT
    ensures CaptureDateText(Some(map[])) == None && WatermarkText(CaptureDateText(Some(map[]))) == UNKNOWN_TEXT
  {
    FirstDateNone(map[], DATE_FIELDS);
  }

  /** A one-character stem followed by an extension splits after its first character. */
  lemma OneCharStem(name: string)
    requires |name| >= 3 && name[0] != '.' && IsExtension(name[1..])
    ensures Suffix(name) == name[1..] && Stem(name) == name[..1]
  {
    LastDotOfEnding(name, 1);
  }

  lemma JpegName()
    ensures IsSupported("a.jpg") && OutputFileName("a.jpg") == "a_watermark.jpg"
  {
    OneCharStem("a.jpg");
    assert "a.jpg"[1..] == ".jpg" && "a.jpg"[..1] == "a";
    SupportedAreExtensions();
  }

  /** The suffix keeps its case; only the filter ignores it. */
  lemma UpperCasePngParts()
    ensures Suffix("b.PNG") == ".PNG" && Stem("b.PNG") == "b"
  {
    assert "b.PNG"[1..] == ".PNG" && "b.PNG"[..1] == "b";
    OneCharStem("b.PNG");
  }

  lemma UpperCasePngName()
    ensures IsSupported("b.PNG") && OutputFileName("b.PNG") == "b_watermark.PNG"
  {
    UpperCasePngParts();
    SupportedAreExtensions();
    assert Lower(".PNG") == ".png";
  }

  lemma TwoCandidates(a: FileEntry, b: FileEntry)
    requires IsCandidate(a) && IsCandidate(b)
    ensures Candidates([a, b]) == [a, b]
  {
    assert [a, b][..1] == [a];
    assert [a][..0] == [];
  }

  lemma DatedJob(dated: map<string, string>)
    requires DATE_FIELDS[0] in dated && dated[DATE_FIELDS[0]] == "2024:03:07 10:22:31"
    ensures PlanJob(FileEntry("a.jpg", true, Some(dated), Some((800, 600))), 24, "bottom-right")
            == Job("a.jpg", "a_watermark.jpg", DATE_PREFIX + "2024年03月07日", Some((598, 566)))
  {
    StandardTimestamp(dated);
    JpegName();
  }

  lemma UndatedJob()
    ensures PlanJob(FileEntry("b.PNG", true, None, Some((800, 600))), 24, "bottom-right")
            == Job("b.PNG", "b_watermark.PNG", UNKNOWN_TEXT, Some((598, 566)))
  {
    UpperCasePngName();
  }

  /**
   * A directory of one dated and one undated image: both are processed, the
   * first with the formatted date and the second with the sentinel, for a
   * count of 2.
   */
  lemma TwoFileDirectory(dated: map<string, string>)
    requires DATE_FIELDS[0] in dated && dated[DATE_FIELDS[0]] == "2024:03:07 10:22:31"
    ensures var entries := [FileEntry("a.jpg", true, Some(dated), Some((800, 600))),
                            FileEntry("b.PNG", true, None, Some((800, 600)))];
            Candidates(entries) == entries && |Candidates(entries)| == 2
            && PlanJob(entries[0], 24, "bottom-right")
               == Job("a.jpg", "a_watermark.jpg", DATE_PREFIX + "2024年03月07日", Some((598, 566)))
            && PlanJob(entries[1], 24, "bottom-right")
               == Job("b.PNG", "b_watermark.PNG", UNKNOWN_TEXT, Some((598, 566)))
  {
    JpegName();
    UpperCasePngName();
    TwoCandidates(FileEntry("a.jpg", true, Some(dated), Some((800, 600))),
                  FileEntry("b.PNG", true, None, Some((800, 600))));
    DatedJob(dated);
    UndatedJob();
  }
}
