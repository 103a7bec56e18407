/**
 * `WatermarkTool.get_exif_date`: pick the capture date out of an image's EXIF
 * tags. The tags are the map from tag name to printed value that the EXIF
 * reader produces; `None` stands for a file whose tags could not be read.
 */
module Exif {
  import opened Wrappers
  import opened Strings
  import opened Calendar

  /** The tags tried, highest priority first. */
  const DATE_FIELDS: seq<string> := ["EXIF DateTimeOriginal", "EXIF DateTimeDigitized", "Image DateTime"]

  // ---------------------------------------------------------------------------
  // datetime.strptime(token, '%Y:%m:%d')

  /**
   * Length of the month field at the start of `rest`: one or two digits
   * followed by ':', or 0 when `rest` does not start that way.
   */
  function MonthLength(rest: string): (n: nat)
    ensures n <= 2
    ensures n > 0 ==> n < |rest| && AllDigits(rest[..n]) && rest[n] == ':'
    ensures n == 0 ==> !(|rest| >= 2 && IsDigit(rest[0]) && rest[1] == ':')
                       && !(|rest| >= 3 && IsDigit(rest[0]) && IsDigit(rest[1]) && rest[2] == ':')
  {
    if |rest| >= 2 && IsDigit(rest[0]) && rest[1] == ':' then 1
    else if |rest| >= 3 && IsDigit(rest[0]) && IsDigit(rest[1]) && rest[2] == ':' then 2
    else 0
  }

  /**
   * Parse a whole token as `%Y:%m:%d`: four digits, ':', a month of one or two
   * digits, ':', a day of one or two digits, and nothing else; the numbers must
   * form a real calendar date.
   */
  function ParseDate(token: string): (r: Option<Date>)
    ensures r.Some? ==> IsValid(r.value)
  {
    if |token| < 5 || !AllDigits(token[..4]) || token[4] != ':' then None
    else
      var rest := token[5..];
      var monthLength := MonthLength(rest);
      if monthLength == 0 then None
      else
        var dayText := rest[monthLength + 1..];
        if |dayText| < 1 || |dayText| > 2 || !AllDigits(dayText) then None
        else
          var d := Date(Value(token[..4]), Value(rest[..monthLength]), Value(dayText));
          if IsValid(d) then Some(d) else None
  }

  /** The year field, the first ':' and the rest of a token. */
  lemma YearSplit(yearText: string, monthText: string, dayText: string)
    requires |yearText| == 4
    ensures var token := yearText + ":" + monthText + ":" + dayText;
            |token| >= 5 && token[..4] == yearText && token[4] == ':' && token[5..] == monthText + ":" + dayText
  {
    assert yearText + ":" + monthText + ":" + dayText == (yearText + ":") + (monthText + ":" + dayText);
  }

  /** The month field, the second ':' and the day field of a token's rest. */
  lemma MonthSplit(monthText: string, dayText: string)
    requires AllDigits(monthText) && 1 <= |monthText| <= 2
    ensures var rest := monthText + ":" + dayText;
            MonthLength(rest) == |monthText| && rest[..|monthText|] == monthText
            && rest[|monthText| + 1..] == dayText
  {
    var rest := monthText + ":" + dayText;
    assert rest == (monthText + ":") + dayText;
    assert rest[|monthText|] == ':';
  }

  /**
   * Digit groups of the accepted widths parse to the date they denote when
   * that date is real, and to nothing otherwise.
   */
  lemma ParseParts(yearText: string, monthText: string, dayText: string)
    requires AllDigits(yearText) && AllDigits(monthText) && AllDigits(dayText)
    requires |yearText| == 4 && 1 <= |monthText| <= 2 && 1 <= |dayText| <= 2
    ensures var d := Date(Value(yearText), Value(monthText), Value(dayText));
            ParseDate(yearText + ":" + monthText + ":" + dayText) == if IsValid(d) then Some(d) else None
  {
    YearSplit(yearText, monthText, dayText);
    MonthSplit(monthText, dayText);
  }

  /**
   * The `%Y:%m:%d` text of a date with the month written in `monthWidth`
   * digits and the day in `dayWidth` digits.
   */
  function Spelling(year: nat, month: nat, day: nat, monthWidth: nat, dayWidth: nat): string {
    Pad(year, 4) + ":" + Pad(month, monthWidth) + ":" + Pad(day, dayWidth)
  }

  /** token spells d with the month in `monthWidth` digits and the day in `dayWidth` digits. */
  ghost predicate SpelledWith(token: string, d: Date, monthWidth: nat, dayWidth: nat) {
    1 <= monthWidth <= 2 && 1 <= dayWidth <= 2 && d.month < Pow10(monthWidth) && d.day < Pow10(dayWidth)
    && token == Spelling(d.year, d.month, d.day, monthWidth, dayWidth)
  }

  /** token is one of the spellings of d that `%Y:%m:%d` accepts. */
  ghost predicate Spells(token: string, d: Date) {
    exists monthWidth: nat, dayWidth: nat :: SpelledWith(token, d, monthWidth, dayWidth)
  }

  /** Every spelling parses, to its date when that date is real and to None otherwise. */
  lemma ParseSpelling(d: Date, monthWidth: nat, dayWidth: nat)
    requires d.year < 10000 && 1 <= monthWidth <= 2 && 1 <= dayWidth <= 2
    requires d.month < Pow10(monthWidth) && d.day < Pow10(dayWidth)
    ensures ParseDate(Spelling(d.year, d.month, d.day, monthWidth, dayWidth))
            == if IsValid(d) then Some(d) else None
  {
    var y, m, dd := Pad(d.year, 4), Pad(d.month, monthWidth), Pad(d.day, dayWidth);
    assert Pow10(4) == 10000;
    ValueOfPad(d.year, 4);
    ValueOfPad(d.month, monthWidth);
    ValueOfPad(d.day, dayWidth);
    ParseParts(y, m, dd);
    assert Date(Value(y), Value(m), Value(dd)) == d;
  }

  /** A token that parses is its year, month and day digits joined by ':'. */
  lemma ParsedParts(token: string)
    requires ParseDate(token).Some?
    ensures var rest := token[5..];
            var monthWidth := MonthLength(rest);
            1 <= monthWidth <= 2 && monthWidth + 2 <= |rest| <= monthWidth + 3
            && AllDigits(token[..4]) && AllDigits(rest[..monthWidth]) && AllDigits(rest[monthWidth + 1..])
            && token == token[..4] + ":" + rest[..monthWidth] + ":" + rest[monthWidth + 1..]
            && ParseDate(token).value
               == Date(Value(token[..4]), Value(rest[..monthWidth]), Value(rest[monthWidth + 1..]))
  {
    var rest := token[5..];
    SplitAt(token, 4);
    SplitAt(rest, MonthLength(rest));
  }

  /** Digit groups of the right widths are the spelling of the numbers they denote. */
  lemma SpellingOfParts(yearText: string, monthText: string, dayText: string)
    requires AllDigits(yearText) && AllDigits(monthText) && AllDigits(dayText) && |yearText| == 4
    ensures Value(monthText) < Pow10(|monthText|) && Value(dayText) < Pow10(|dayText|)
    ensures Spelling(Value(yearText), Value(monthText), Value(dayText), |monthText|, |dayText|)
            == yearText + ":" + monthText + ":" + dayText
  {
    PadOfValue(yearText);
    PadOfValue(monthText);
    PadOfValue(dayText);
  }

  /** Whatever parses is a spelling of the date it parses to. */
  lemma ParsedIsSpelling(token: string)
    requires ParseDate(token).Some?
    ensures Spells(token, ParseDate(token).value)
  {
    ParsedParts(token);
    var rest := token[5..];
    var monthWidth := MonthLength(rest);
    var yearText, monthText, dayText := token[..4], rest[..monthWidth], rest[monthWidth + 1..];
    SpellingOfParts(yearText, monthText, dayText);
    assert SpelledWith(token, ParseDate(token).value, monthWidth, |dayText|);
  }

  /** The parser accepts exactly the spellings of real dates. */
  lemma ParseDateIff(token: string, d: Date)
    ensures ParseDate(token) == Some(d) <==> IsValid(d) && Spells(token, d)
  {
    if ParseDate(token) == Some(d) {
      ParsedIsSpelling(token);
    }
    if IsValid(d) && Spells(token, d) {
      var monthWidth: nat, dayWidth: nat :| SpelledWith(token, d, monthWidth, dayWidth);
      ParseSpelling(d, monthWidth, dayWidth);
    }
  }

  /** A day field that is longer than two characters or not all digits rejects the token. */
  lemma BadDayRejected(token: string)
    requires |token| >= 5 && MonthLength(token[5..]) > 0
    requires var dayText := token[5..][MonthLength(token[5..]) + 1..];
             |dayText| > 2 || !AllDigits(dayText)
    ensures ParseDate(token) == None
  {
  }

  /**
   * Characters left over after a complete date make the whole token fail:
   * after a two-digit day anything extra, after a one-digit day anything that
   * is not a digit.
   */
  lemma TrailingDataRejected(yearText: string, monthText: string, dayText: string, extra: string)
    requires AllDigits(yearText) && AllDigits(monthText) && AllDigits(dayText)
    requires |yearText| == 4 && 1 <= |monthText| <= 2 && 1 <= |dayText| <= 2
    requires extra != [] && (|dayText| == 2 || !IsDigit(extra[0]))
    ensures ParseDate(yearText + ":" + monthText + ":" + dayText + extra) == None
  {
    var token := yearText + ":" + monthText + ":" + dayText + extra;
    var rest := monthText + ":" + dayText + extra;
    assert token[5..] == rest by {
      assert token == (yearText + ":") + rest;
    }
    assert MonthLength(rest) == |monthText|;
    assert rest[|monthText| + 1..] == dayText + extra by {
      assert rest == (monthText + ":") + (dayText + extra);
    }
    if |dayText| == 1 {
      assert (dayText + extra)[1] == extra[0];
    }
    BadDayRejected(token);
  }

  // ---------------------------------------------------------------------------
  // date_obj.strftime('%Y年%m月%d日')

  /** The display form: four-digit year, two-digit month and two-digit day, each followed by its unit. */
  function FormatDate(d: Date): (s: string)
    requires IsValid(d)
    ensures |s| == 11
  {
    Pad(d.year, 4) + "年" + Pad(d.month, 2) + "月" + Pad(d.day, 2) + "日"
  }

  /**
   * The display form carries the units at fixed places, and its digit groups,
   * put back together with ':', parse to the same date again.
   */
  lemma FormatRoundTrip(d: Date)
    requires IsValid(d)
    ensures var s := FormatDate(d);
            s[4] == '年' && s[7] == '月' && s[10] == '日'
            && ParseDate(s[..4] + ":" + s[5..7] + ":" + s[8..10]) == Some(d)
  {
    var s := FormatDate(d);
    assert s[..4] == Pad(d.year, 4);
    assert s[5..7] == Pad(d.month, 2);
    assert s[8..10] == Pad(d.day, 2);
    assert Pow10(2) == 100;
    ParseSpelling(d, 2, 2);
  }

  // ---------------------------------------------------------------------------
  // The priority scan

  /**
   * What one tag contributes: the date its value's first word parses to, if the
   * tag is present and its value contains ':'; a failed parse only skips the tag.
   */
  function FieldDate(tags: map<string, string>, field: string): (r: Option<Date>)
    ensures r.Some? ==> field in tags && ':' in tags[field] && IsValid(r.value)
  {
    if field in tags && ':' in tags[field] then
      var word := FirstWord(tags[field]);
      // a value holding ':' has a first word, so `split()[0]` cannot fail
      assert word != [];
      ParseDate(word)
    else None
  }

  /**
   * Only the first word of a value counts: a date followed by whitespace and
   * any time of day yields exactly what the date alone parses to.
   */
  lemma TimeOfDayIgnored(tags: map<string, string>, field: string, word: string, sep: char, time: string)
    requires word != [] && forall i :: 0 <= i < |word| ==> !IsSpace(word[i])
    requires IsSpace(sep)
    ensures FieldDate(tags[field := word + [sep] + time], field) == ParseDate(word)
  {
    FirstWordBeforeSpace(word, sep, time);
    var value := word + [sep] + time;
    if ParseDate(word).Some? {
      assert value[4] == word[4] == ':';
    }
  }

  /** What each of `fields` yields, in priority order. */
  function FieldDates(tags: map<string, string>, fields: seq<string>): (r: seq<Option<Date>>)
    ensures |r| == |fields|
    ensures forall i :: 0 <= i < |fields| ==> r[i] == FieldDate(tags, fields[i])
  {
    if fields == [] then [] else [FieldDate(tags, fields[0])] + FieldDates(tags, fields[1..])
  }

  /** The first present value in `results`: the loop's "first success wins" rule. */
  function FirstSome<T>(results: seq<Option<T>>): (r: Option<T>)
    ensures r.Some? ==> r in results
  {
    if results == [] then None
    else if results[0].Some? then results[0]
    else FirstSome(results[1..])
  }

  /**
   * The priority rule: nothing exactly when every result is absent, and
   * otherwise a present result every earlier one of which is absent.
   */
  lemma {:induction false} FirstSomeIsFirst<T>(results: seq<Option<T>>)
    ensures FirstSome(results).None? <==> forall i :: 0 <= i < |results| ==> results[i].None?
    ensures FirstSome(results).Some? ==>
              exists i :: 0 <= i < |results| && FirstSome(results) == results[i]
                          && forall j :: 0 <= j < i ==> results[j].None?
  {
    if results != [] && results[0].None? {
      var tail := results[1..];
      FirstSomeIsFirst(tail);
      assert forall i :: 0 < i < |results| ==> results[i] == tail[i - 1];
      if FirstSome(tail).Some? {
        var i :| 0 <= i < |tail| && FirstSome(tail) == tail[i] && forall j :: 0 <= j < i ==> tail[j].None?;
        assert results[i + 1] == tail[i];
      }
    }
  }

  /** A present result with only absent ones before it is the one chosen. */
  lemma {:induction false} FirstSomeAt<T>(results: seq<Option<T>>, i: nat)
    requires i < |results| && results[i].Some?
    requires forall j :: 0 <= j < i ==> results[j].None?
    ensures FirstSome(results) == results[i]
  {
    if i > 0 {
      var tail := results[1..];
      assert forall j :: 0 <= j < i - 1 ==> tail[j] == results[j + 1];
      FirstSomeAt(tail, i - 1);
    }
  }

  /** The date of the first of `fields` that yields one. */
  function FirstDate(tags: map<string, string>, fields: seq<string>): (r: Option<Date>)
    ensures r.Some? ==> IsValid(r.value)
  {
    FirstSome(FieldDates(tags, fields))
  }

  /** The first field that yields a date decides the result. */
  lemma FirstDateAt(tags: map<string, string>, fields: seq<string>, i: nat)
    requires i < |fields| && FieldDate(tags, fields[i]).Some?
    requires forall j :: 0 <= j < i ==> FieldDate(tags, fields[j]).None?
    ensures FirstDate(tags, fields) == FieldDate(tags, fields[i])
  {
    FirstSomeAt(FieldDates(tags, fields), i);
  }

  /** Without any field that yields a date there is no date. */
  lemma FirstDateNone(tags: map<string, string>, fields: seq<string>)
    requires forall j :: 0 <= j < |fields| ==> FieldDate(tags, fields[j]).None?
    ensures FirstDate(tags, fields).None?
  {
    FirstSomeIsFirst(FieldDates(tags, fields));
  }

  /** The display text `get_exif_date` returns, as a function of the tags. */
  function CaptureDateText(metadata: Option<map<string, string>>): (r: Option<string>)
    ensures r.Some? ==> |r.value| == 11
  {
    match metadata
    case None => None
    case Some(tags) =>
      match FirstDate(tags, DATE_FIELDS)
      case None => None
      case Some(d) => Some(FormatDate(d))
  }

  /** The highest-priority tag that yields a date supplies the text. */
  lemma CaptureDateTextAt(tags: map<string, string>, i: nat)
    requires i < |DATE_FIELDS| && FieldDate(tags, DATE_FIELDS[i]).Some?
    requires forall j :: 0 <= j < i ==> FieldDate(tags, DATE_FIELDS[j]).None?
    ensures CaptureDateText(Some(tags)) == Some(FormatDate(FieldDate(tags, DATE_FIELDS[i]).value))
  {
    FirstDateAt(tags, DATE_FIELDS, i);
  }

  /** No text when no tag yields a date. */
  lemma CaptureDateTextNone(tags: map<string, string>)
    requires forall j :: 0 <= j < |DATE_FIELDS| ==> FieldDate(tags, DATE_FIELDS[j]).None?
    ensures CaptureDateText(Some(tags)).None?
  {
    FirstDateNone(tags, DATE_FIELDS);
  }

  /**
   * One attempt of the scan: a present tag whose value holds ':' is parsed
   * from its first word; an absent tag, a value without ':' and a ValueError
   * from the parse all give nothing.
   */
  method TryField(tags: map<string, string>, field: string) returns (parsed: Option<Date>)
    ensures parsed == FieldDate(tags, field)
  {
    parsed := None;
    if field in tags {
      var dateText := tags[field];
      if ':' in dateText {
        parsed := ParseDate(FirstWord(dateText));
      }
    }
  }

  /**
   * The scan itself: try each tag in priority order, skip it when it is absent,
   * has no ':' or does not parse, and return the first date found, formatted.
   */
  method GetExifDate(metadata: Option<map<string, string>>) returns (r: Option<string>)
    ensures metadata.None? ==> r.None?
    ensures metadata.Some? ==>
              (r.None? <==> forall i :: 0 <= i < |DATE_FIELDS| ==> FieldDate(metadata.value, DATE_FIELDS[i]).None?)
    ensures metadata.Some? && r.Some? ==>
              exists i :: 0 <= i < |DATE_FIELDS| && FieldDate(metadata.value, DATE_FIELDS[i]).Some?
                          && r.value == FormatDate(FieldDate(metadata.value, DATE_FIELDS[i]).value)
                          && forall j :: 0 <= j < i ==> FieldDate(metadata.value, DATE_FIELDS[j]).None?
    ensures r == CaptureDateText(metadata)
  {
    if metadata.None? {
      return None;
    }
    var tags := metadata.value;
    var i := 0;
    while i < |DATE_FIELDS|
      invariant 0 <= i <= |DATE_FIELDS|
      invariant forall j :: 0 <= j < i ==> FieldDate(tags, DATE_FIELDS[j]).None?
    {
      var parsed := TryField(tags, DATE_FIELDS[i]);
      if parsed.Some? {
        CaptureDateTextAt(tags, i);
        return Some(FormatDate(parsed.value));
      }
      i := i + 1;
    }
    CaptureDateTextNone(tags);
    return None;
  }
}
