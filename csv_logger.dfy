/**
  The desktop data logger: one CSV file per session whose first line names
  41 columns and whose every further line is one event, with the event's
  dictionary projected onto those columns and each field escaped as
  section 2 of RFC 4180 (rules 6 and 7) describes.
 */
module CsvLogger {
  import opened Values
  import opened EventDict

  /** The name of column `i`, counting from 0 in file order. */
  function ColumnHeader(i: nat): string
    requires i < 41
  {
    match i
    case 0 => "event_type"
    case 1 => "participant"
    case 2 => "study_id"
    case 3 => "session_id"
    case 4 => "session"
    case 5 => "date"
    case 6 => "round"
    case 7 => "rep"
    case 8 => "t_global"
    case 9 => "t_curr_run"
    case 10 => "key_pressed"
    case 11 => "key_index"
    case 12 => "movement_complete"
    case 13 => "curr_loc_x"
    case 14 => "curr_loc_y"
    case 15 => "from_x"
    case 16 => "from_y"
    case 17 => "length_step"
    case 18 => "direction"
    case 19 => "curr_rew_x"
    case 20 => "curr_rew_y"
    case 21 => "type"
    case 22 => "state"
    case 23 => "found_reward"
    case 24 => "movement_index"
    case 25 => "reward_letter"
    case 26 => "reward_index"
    case 27 => "moves_to_find"
    case 28 => "cue_displayed"
    case 29 => "cue_time"
    case 30 => "trial_type"
    case 31 => "sequence"
    case 32 => "start_loc_x"
    case 33 => "start_loc_y"
    case 34 => "reward_onset_time"
    case 35 => "reward_offset_time"
    case 36 => "memorization_phase"
    case 37 => "repetition_number"
    case 38 => "ISI"
    case 39 => "TR_received"
    case 40 => "TR_time"
    case _ => ""
  }

  /** The columns of the CSV file, in file order (`columnHeaders`). */
  const ColumnHeaders: seq<string> :=
    seq(41, i requires 0 <= i < 41 => ColumnHeader(i))

  // ---------------------------------------------------------------------
  // Escaping one field

  /** A field must be quoted when it holds a comma, a double quote or a
      line feed. */
  predicate NeedsQuoting(value: string)
  {
    ',' in value || '"' in value || '\n' in value
  }

  /** `value.Replace("\"", "\"\"")`: every double quote doubled. */
  function DoubleQuotes(value: string): (r: string)
    ensures |r| == |value| + Count('"', value)
    decreases |value|
  {
    if value == [] then []
    else if value[0] == '"' then "\"\"" + DoubleQuotes(value[1..])
    else [value[0]] + DoubleQuotes(value[1..])
  }

  /** `EscapeCSV`: a field that needs quoting is wrapped in double quotes
      with its own double quotes doubled; any other field is written as it
      is. */
  function EscapeCsv(value: string): (r: string)
    ensures r == value <==> !NeedsQuoting(value)
    ensures NeedsQuoting(value) ==>
      && |r| == |value| + 2 + Count('"', value)
      && r[0] == '"' && r[|r| - 1] == '"'
  {
    if NeedsQuoting(value) then "\"" + DoubleQuotes(value) + "\"" else value
  }

  /** Undoes the doubling of double quotes. */
  function UndoubleQuotes(s: string): string
    decreases |s|
  {
    if s == [] then []
    else if |s| >= 2 && s[0] == '"' && s[1] == '"' then "\"" + UndoubleQuotes(s[2..])
    else [s[0]] + UndoubleQuotes(s[1..])
  }

  /** Reads one escaped field back: a quoted field loses its quotes and
      its doubled quotes are halved; any other field stands for itself. */
  function UnescapeCsv(field: string): string
  {
    if |field| >= 2 && field[0] == '"' && field[|field| - 1] == '"'
    then UndoubleQuotes(field[1..|field| - 1])
    else field
  }

  lemma {:induction false} UndoubleDouble(value: string)
    ensures UndoubleQuotes(DoubleQuotes(value)) == value
    decreases |value|
  {
    if value != [] {
      UndoubleDouble(value[1..]);
      var d := DoubleQuotes(value);
      if value[0] == '"' {
        assert d[2..] == DoubleQuotes(value[1..]);
      } else {
        assert d[1..] == DoubleQuotes(value[1..]);
        DoubledNeverStartsWithLoneQuote(value[1..]);
      }
    }
  }

  /** A doubled string that starts with a quote starts with two. */
  lemma DoubledNeverStartsWithLoneQuote(value: string)
    ensures var d := DoubleQuotes(value);
      |d| >= 1 && d[0] == '"' ==> |d| >= 2 && d[1] == '"'
  {
  }

  /** Escaping and then unescaping a field gives back the field. */
  lemma EscapeCsvRoundTrip(value: string)
    ensures UnescapeCsv(EscapeCsv(value)) == value
  {
    var e := EscapeCsv(value);
    if NeedsQuoting(value) {
      assert e[1..|e| - 1] == DoubleQuotes(value);
      UndoubleDouble(value);
    } else if value != [] {
      assert value[0] in value;
    }
  }

  /** Every field of a list, escaped. */
  function EscapeAll(values: seq<string>): (fields: seq<string>)
    ensures |fields| == |values|
    ensures forall i :: 0 <= i < |values| ==> fields[i] == EscapeCsv(values[i])
  {
    seq(|values|, i requires 0 <= i < |values| => EscapeCsv(values[i]))
  }

  // ---------------------------------------------------------------------
  // Reading a line back: the partner of escaping and joining

  /** An unquoted field runs up to the first comma. */
  function UnquotedField(s: string): (res: (string, string))
    ensures res.0 + res.1 == s
    ensures res.1 == [] || res.1[0] == ','
    decreases |s|
  {
    if s == [] || s[0] == ',' then ([], s)
    else
      var (f, rest) := UnquotedField(s[1..]);
      assert [s[0]] + f + rest == s;
      ([s[0]] + f, rest)
  }

  /** Puts `prefix` in front of a parsed field. */
  function Prepend(prefix: string, parsed: Option<(string, string)>): Option<(string, string)>
  {
    match parsed
    case None => None
    case Some((f, rest)) => Some((prefix + f, rest))
  }

  /** The inside of a quoted field, after its opening quote: a doubled
      quote stands for one quote, a lone quote closes the field and must
      be followed by a comma or the end of the line. */
  function QuotedField(t: string): (res: Option<(string, string)>)
    ensures res.Some? ==> |res.value.1| < |t|
    ensures res.Some? ==> res.value.1 == [] || res.value.1[0] == ','
    decreases |t|
  {
    if t == [] then None
    else if t[0] == '"' then
      if |t| >= 2 && t[1] == '"' then Prepend("\"", QuotedField(t[2..]))
      else if |t| == 1 || t[1] == ',' then Some(([], t[1..]))
      else None
    else Prepend([t[0]], QuotedField(t[1..]))
  }

  /** One field at the start of `s`, and what follows it. */
  function ParseField(s: string): (res: Option<(string, string)>)
    ensures res.Some? ==> |res.value.1| <= |s|
    ensures res.Some? ==> res.value.1 == [] || res.value.1[0] == ','
  {
    if |s| > 0 && s[0] == '"' then QuotedField(s[1..]) else Some(UnquotedField(s))
  }

  /** The fields of one CSV line, split at the commas outside quotes. */
  function ParseRow(s: string): (res: Option<seq<string>>)
    ensures res.Some? ==> |res.value| >= 1
    decreases |s|
  {
    match ParseField(s)
    case None => None
    case Some((f, rest)) =>
      if rest == [] then Some([f])
      else
        match ParseRow(rest[1..])
        case None => None
        case Some(fs) => Some([f] + fs)
  }

  lemma {:induction false} UnquotedFieldOfPlain(value: string, rest: string)
    requires ',' !in value
    requires rest == [] || rest[0] == ','
    ensures UnquotedField(value + rest) == (value, rest)
    decreases |value|
  {
    if value != [] {
      assert (value + rest)[1..] == value[1..] + rest;
      UnquotedFieldOfPlain(value[1..], rest);
      assert [value[0]] + value[1..] == value;
    } else {
      assert value + rest == rest;
    }
  }

  /** The inside of a quoted field, doubled quotes, closing quote and what
      follows, reads back as the original text and what follows. */
  lemma {:induction false} QuotedFieldOfDoubled(value: string, rest: string)
    requires rest == [] || rest[0] == ','
    ensures QuotedField(DoubleQuotes(value) + "\"" + rest) == Some((value, rest))
    decreases |value|, 1
  {
    if value == [] {
      var t := DoubleQuotes(value) + "\"" + rest;
      assert t == "\"" + rest;
      assert t[1..] == rest;
    } else if value[0] == '"' {
      QuotedFieldOfDoubledQuote(value, rest);
    } else {
      QuotedFieldOfDoubledChar(value, rest);
    }
  }

  lemma {:induction false} QuotedFieldOfDoubledQuote(value: string, rest: string)
    requires rest == [] || rest[0] == ','
    requires value != [] && value[0] == '"'
    ensures QuotedField(DoubleQuotes(value) + "\"" + rest) == Some((value, rest))
    decreases |value|, 0
  {
    var v := value[1..];
    var tail := DoubleQuotes(v) + "\"" + rest;
    assert DoubleQuotes(value) + "\"" + rest == "\"\"" + tail by {
      assert DoubleQuotes(value) == "\"\"" + DoubleQuotes(v);
    }
    QuotedFieldOfDoubled(v, rest);
    QuotedFieldAfterPair(tail);
    assert "\"" + v == value;
  }

  lemma {:induction false} QuotedFieldOfDoubledChar(value: string, rest: string)
    requires rest == [] || rest[0] == ','
    requires value != [] && value[0] != '"'
    ensures QuotedField(DoubleQuotes(value) + "\"" + rest) == Some((value, rest))
    decreases |value|, 0
  {
    var c, v := value[0], value[1..];
    var tail := DoubleQuotes(v) + "\"" + rest;
    assert DoubleQuotes(value) + "\"" + rest == [c] + tail by {
      assert DoubleQuotes(value) == [c] + DoubleQuotes(v);
    }
    QuotedFieldOfDoubled(v, rest);
    QuotedFieldAfterChar(c, tail);
    assert [c] + v == value;
  }

  /** A doubled quote inside a quoted field stands for one quote. */
  lemma QuotedFieldAfterPair(tail: string)
    ensures QuotedField("\"\"" + tail) == Prepend("\"", QuotedField(tail))
  {
    assert ("\"\"" + tail)[2..] == tail;
  }

  /** Any other character inside a quoted field stands for itself. */
  lemma QuotedFieldAfterChar(c: char, tail: string)
    requires c != '"'
    ensures QuotedField([c] + tail) == Prepend([c], QuotedField(tail))
  {
    assert ([c] + tail)[1..] == tail;
  }

  /** An escaped field followed by a comma or the end of the line reads
      back as the original field. */
  lemma ParseFieldOfEscaped(value: string, rest: string)
    requires rest == [] || rest[0] == ','
    ensures ParseField(EscapeCsv(value) + rest) == Some((value, rest))
  {
    if NeedsQuoting(value) {
      var inner := DoubleQuotes(value) + "\"" + rest;
      assert EscapeCsv(value) + rest == "\"" + inner;
      assert ("\"" + inner)[1..] == inner;
      QuotedFieldOfDoubled(value, rest);
    } else {
      assert ',' !in value;
      UnquotedFieldOfPlain(value, rest);
      assert value == [] || value[0] != '"' by {
        if value != [] {
          assert value[0] in value;
        }
      }
    }
  }

  /** Escaping every field and joining them with commas gives a line that
      reads back as exactly those fields: the field count is the list's
      length whatever the fields hold. */
  lemma {:induction false} ParseRowOfJoined(values: seq<string>)
    requires |values| >= 1
    ensures ParseRow(Join(",", EscapeAll(values))) == Some(values)
    decreases |values|
  {
    var es := EscapeAll(values);
    if |values| == 1 {
      ParseFieldOfEscaped(values[0], []);
      assert Join(",", es) == EscapeCsv(values[0]) + [];
      assert ParseRow(Join(",", es)) == Some([values[0]]);
      assert [values[0]] == values;
    } else {
      var tailLine := Join(",", EscapeAll(values[1..]));
      assert es[1..] == EscapeAll(values[1..]);
      assert Join(",", es) == EscapeCsv(values[0]) + ("," + tailLine);
      ParseFieldOfEscaped(values[0], "," + tailLine);
      assert ("," + tailLine)[1..] == tailLine;
      ParseRowOfJoined(values[1..]);
      assert [values[0]] + values[1..] == values;
    }
  }

  // ---------------------------------------------------------------------
  // The header line

  /** `string.Join(",", columnHeaders)`, the first line of the file. */
  function HeaderLine(headers: seq<string>): string
  {
    Join(",", headers)
  }

  /** Every column name is a plain identifier that needs no quoting; the
      names are checked two at a time by the lemmas below. */
  lemma ColumnHeaderIsPlain(i: nat)
    requires i < 41
    ensures !NeedsQuoting(ColumnHeader(i))
  {
    if i <= 1 { PlainColumns0To1(i); }
    else if i <= 3 { PlainColumns2To3(i); }
    else if i <= 5 { PlainColumns4To5(i); }
    else if i <= 7 { PlainColumns6To7(i); }
    else if i <= 9 { PlainColumns8To9(i); }
    else if i <= 11 { PlainColumns10To11(i); }
    else if i <= 13 { PlainColumns12To13(i); }
    else if i <= 15 { PlainColumns14To15(i); }
    else if i <= 17 { PlainColumns16To17(i); }
    else if i <= 19 { PlainColumns18To19(i); }
    else if i <= 21 { PlainColumns20To21(i); }
    else if i <= 23 { PlainColumns22To23(i); }
    else if i <= 25 { PlainColumns24To25(i); }
    else if i <= 27 { PlainColumns26To27(i); }
    else if i <= 29 { PlainColumns28To29(i); }
    else if i <= 31 { PlainColumns30To31(i); }
    else if i <= 33 { PlainColumns32To33(i); }
    else if i <= 35 { PlainColumns34To35(i); }
    else if i <= 37 { PlainColumns36To37(i); }
    else if i <= 39 { PlainColumns38To39(i); }
    else { PlainColumn40(i); }
  }

  lemma PlainColumns0To1(i: nat)
    requires 0 <= i <= 1
    ensures !NeedsQuoting(ColumnHeader(i))
  {
    if i == 0 { assert ColumnHeader(0) == "event_type"; }
    else { assert ColumnHeader(1) == "participant"; }
  }

  lemma PlainColumns2To3(i: nat)
    requires 2 <= i <= 3
    ensures !NeedsQuoting(ColumnHeader(i))
  {
    if i == 2 { assert ColumnHeader(2) == "study_id"; }
    else { assert ColumnHeader(3) == "session_id"; }
  }

  lemma PlainColumns4To5(i: nat)
    requires 4 <= i <= 5
    ensures !NeedsQuoting(ColumnHeader(i))
  {
    if i == 4 { assert ColumnHeader(4) == "session"; }
    else { assert ColumnHeader(5) == "date"; }
  }

  lemma PlainColumns6To7(i: nat)
    requires 6 <= i <= 7
    ensures !NeedsQuoting(ColumnHeader(i))
  {
    if i == 6 { assert ColumnHeader(6) == "round"; }
    else { assert ColumnHeader(7) == "rep"; }
  }

  lemma PlainColumns8To9(i: nat)
    requires 8 <= i <= 9
    ensures !NeedsQuoting(ColumnHeader(i))
  {
    if i == 8 { assert ColumnHeader(8) == "t_global"; }
    else { assert ColumnHeader(9) == "t_curr_run"; }
  }

  lemma PlainColumns10To11(i: nat)
    requires 10 <= i <= 11
    ensures !NeedsQuoting(ColumnHeader(i))
  {
    if i == 10 { assert ColumnHeader(10) == "key_pressed"; }
    else { assert ColumnHeader(11) == "key_index"; }
  }

  lemma PlainColumns12To13(i: nat)
    requires 12 <= i <= 13
    ensures !NeedsQuoting(ColumnHeader(i))
  {
    if i == 12 { assert ColumnHeader(12) == "movement_complete"; }
    else { assert ColumnHeader(13) == "curr_loc_x"; }
  }

  lemma PlainColumns14To15(i: nat)
    requires 14 <= i <= 15
    ensures !NeedsQuoting(ColumnHeader(i))
  {
    if i == 14 { assert ColumnHeader(14) == "curr_loc_y"; }
    else { assert ColumnHeader(15) == "from_x"; }
  }

  lemma PlainColumns16To17(i: nat)
    requires 16 <= i <= 17
    ensures !NeedsQuoting(ColumnHeader(i))
  {
    if i == 16 { assert ColumnHeader(16) == "from_y"; }
    else { assert ColumnHeader(17) == "length_step"; }
  }

  lemma PlainColumns18To19(i: nat)
    requires 18 <= i <= 19
    ensures !NeedsQuoting(ColumnHeader(i))
  {
    if i == 18 { assert ColumnHeader(18) == "direction"; }
    else { assert ColumnHeader(19) == "curr_rew_x"; }
  }

  lemma PlainColumns20To21(i: nat)
    requires 20 <= i <= 21
    ensures !NeedsQuoting(ColumnHeader(i))
  {
    if i == 20 { assert ColumnHeader(20) == "curr_rew_y"; }
    else { assert ColumnHeader(21) == "type"; }
  }

  lemma PlainColumns22To23(i: nat)
    requires 22 <= i <= 23
    ensures !NeedsQuoting(ColumnHeader(i))
  {
    if i == 22 { assert ColumnHeader(22) == "state"; }
    else { assert ColumnHeader(23) == "found_reward"; }
  }

  lemma PlainColumns24To25(i: nat)
    requires 24 <= i <= 25
    ensures !NeedsQuoting(ColumnHeader(i))
  {
    if i == 24 { assert ColumnHeader(24) == "movement_index"; }
    else { assert ColumnHeader(25) == "reward_letter"; }
  }

  lemma PlainColumns26To27(i: nat)
    requires 26 <= i <= 27
    ensures !NeedsQuoting(ColumnHeader(i))
  {
    if i == 26 { assert ColumnHeader(26) == "reward_index"; }
    else { assert ColumnHeader(27) == "moves_to_find"; }
  }

  lemma PlainColumns28To29(i: nat)
    requires 28 <= i <= 29
    ensures !NeedsQuoting(ColumnHeader(i))
  {
    if i == 28 { assert ColumnHeader(28) == "cue_displayed"; }
    else { assert ColumnHeader(29) == "cue_time"; }
  }

  lemma PlainColumns30To31(i: nat)
    requires 30 <= i <= 31
    ensures !NeedsQuoting(ColumnHeader(i))
  {
    if i == 30 { assert ColumnHeader(30) == "trial_type"; }
    else { assert ColumnHeader(31) == "sequence"; }
  }

  lemma PlainColumns32To33(i: nat)
    requires 32 <= i <= 33
    ensures !NeedsQuoting(ColumnHeader(i))
  {
    if i == 32 { assert ColumnHeader(32) == "start_loc_x"; }
    else { assert ColumnHeader(33) == "start_loc_y"; }
  }

  lemma PlainColumns34To35(i: nat)
    requires 34 <= i <= 35
    ensures !NeedsQuoting(ColumnHeader(i))
  {
    if i == 34 { assert ColumnHeader(34) == "reward_onset_time"; }
    else { assert ColumnHeader(35) == "reward_offset_time"; }
  }

  lemma PlainColumns36To37(i: nat)
    requires 36 <= i <= 37
    ensures !NeedsQuoting(ColumnHeader(i))
  {
    if i == 36 { assert ColumnHeader(36) == "memorization_phase"; }
    else { assert ColumnHeader(37) == "repetition_number"; }
  }

  lemma PlainColumns38To39(i: nat)
    requires 38 <= i <= 39
    ensures !NeedsQuoting(ColumnHeader(i))
  {
    if i == 38 { assert ColumnHeader(38) == "ISI"; }
    else { assert ColumnHeader(39) == "TR_received"; }
  }

  lemma PlainColumn40(i: nat)
    requires i == 40
    ensures !NeedsQuoting(ColumnHeader(i))
  {
    assert ColumnHeader(40) == "TR_time";
  }

  lemma HeadersArePlain()
    ensures forall i :: 0 <= i < |ColumnHeaders| ==> !NeedsQuoting(ColumnHeaders[i])
  {
    forall i | 0 <= i < |ColumnHeaders| ensures !NeedsQuoting(ColumnHeaders[i]) {
      ColumnHeaderIsPlain(i);
    }
  }

  /** A list of plain names, joined with commas, reads back as the same
      list. */
  lemma HeaderLineReadsBack(headers: seq<string>)
    requires |headers| >= 1
    requires forall i :: 0 <= i < |headers| ==> !NeedsQuoting(headers[i])
    ensures ParseRow(HeaderLine(headers)) == Some(headers)
  {
    assert EscapeAll(headers) == headers;
    ParseRowOfJoined(headers);
  }

  /** The header line of the file reads back as its 41 column names. */
  lemma ColumnHeaderLineReadsBack()
    ensures |ColumnHeaders| == 41
    ensures ParseRow(HeaderLine(ColumnHeaders)) == Some(ColumnHeaders)
  {
    HeadersArePlain();
    HeaderLineReadsBack(ColumnHeaders);
  }

  // ---------------------------------------------------------------------
  // Building a row

  /** The text of one column for this event: the value's `ToString()` when
      the key is present, the empty string when it is absent, and nothing
      when the value is null (its `ToString()` throws). */
  function CellText(r: Record, header: string, showReal: RealFormat): (t: Option<string>)
    ensures t.None? <==> header in r.vals && r.vals[header] == Null
    ensures header !in r.vals ==> t == Some("")
  {
    if header in r.vals then ToText(r.vals[header], showReal) else Some("")
  }

  /** The unescaped texts of a row, column by column in header order, or
      the first header whose value is null. */
  function RowTexts(r: Record, headers: seq<string>, showReal: RealFormat)
    : (res: Result<seq<string>, string>)
    ensures res.Success? ==> |res.value| == |headers|
    decreases |headers|
  {
    if headers == [] then Success([])
    else
      var last := headers[|headers| - 1];
      match RowTexts(r, headers[..|headers| - 1], showReal)
      case Failure(h) => Failure(h)
      case Success(ts) =>
        match CellText(r, last, showReal)
        case None => Failure(last)
        case Some(t) => Success(ts + [t])
  }

  /** A row is built exactly when no column's value is null; it then holds
      each column's text in header order, and otherwise the failure names
      the first column whose value is null. */
  lemma {:induction false} RowTextsSpec(r: Record, headers: seq<string>, showReal: RealFormat)
    ensures var res := RowTexts(r, headers, showReal);
      && (res.Success? <==>
            (forall i :: 0 <= i < |headers| ==> CellText(r, headers[i], showReal).Some?))
      && (res.Success? ==>
            (forall i :: 0 <= i < |headers| ==>
               res.value[i] == CellText(r, headers[i], showReal).value))
      && (res.Failure? ==> exists i ::
            && 0 <= i < |headers| && headers[i] == res.error
            && CellText(r, headers[i], showReal).None?
            && (forall j :: 0 <= j < i ==> CellText(r, headers[j], showReal).Some?))
    decreases |headers|
  {
    if headers != [] {
      var n := |headers| - 1;
      var init := headers[..n];
      RowTextsSpec(r, init, showReal);
      assert forall i :: 0 <= i < n ==> init[i] == headers[i];
      var res := RowTexts(r, headers, showReal);
      if RowTexts(r, init, showReal).Success? && CellText(r, headers[n], showReal).None? {
        assert headers[n] == res.error;
      }
    }
  }

  /** The line written for an event, or the header whose null value makes
      `ToString()` throw before anything is written. */
  function RowLine(r: Record, headers: seq<string>, showReal: RealFormat): Result<string, string>
  {
    match RowTexts(r, headers, showReal)
    case Failure(h) => Failure(h)
    case Success(ts) => Success(Join(",", EscapeAll(ts)))
  }

  /** A written row splits into exactly as many fields as the header line,
      one per column, and each reads back as the text of its column. */
  lemma RowReadsBack(r: Record, headers: seq<string>, showReal: RealFormat)
    requires |headers| >= 1
    requires forall i :: 0 <= i < |headers| ==> !NeedsQuoting(headers[i])
    requires RowTexts(r, headers, showReal).Success?
    ensures RowLine(r, headers, showReal).Success?
    ensures ParseRow(RowLine(r, headers, showReal).value)
              == Some(RowTexts(r, headers, showReal).value)
    ensures ParseRow(HeaderLine(headers)) == Some(headers)
  {
    HeaderLineReadsBack(headers);
    ParseRowOfJoined(RowTexts(r, headers, showReal).value);
  }

  /** Keys that are not column headers never reach the row: two events that
      agree on the header keys give the same row. */
  lemma {:induction false} RowIgnoresOtherKeys(r1: Record, r2: Record, headers: seq<string>, showReal: RealFormat)
    requires forall h :: h in headers ==> (h in r1.vals <==> h in r2.vals)
    requires forall h :: h in headers && h in r1.vals ==> r1.vals[h] == r2.vals[h]
    ensures RowTexts(r1, headers, showReal) == RowTexts(r2, headers, showReal)
    decreases |headers|
  {
    if headers != [] {
      var init := headers[..|headers| - 1];
      assert forall h :: h in init ==> h in headers;
      RowIgnoresOtherKeys(r1, r2, init, showReal);
      assert headers[|headers| - 1] in headers;
    }
  }

  // ---------------------------------------------------------------------
  // The logger

  /** What one `LogEvent` call does with its row. */
  datatype RowOutcome =
    | NotInitialized           // no file open: an error is reported, nothing written
    | NullValue(header: string) // a null value: `ToString()` throws
    | Written(line: string)     // the line appended to the file

  class DataLogger {
    /** The columns, in file order. */
    const columnHeaders: seq<string>
    var participantID: Option<string>
    var studyID: Option<string>
    var sessionID: Option<string>
    /** Whether a CSV file is open (`csvWriter != null`). */
    var initialized: bool
    /** The lines written to the open file so far. */
    var lines: seq<string>

    constructor ()
      ensures columnHeaders == ColumnHeaders
      ensures participantID == None && studyID == None && sessionID == None
      ensures !initialized && lines == []
    {
      columnHeaders := ColumnHeaders;
      participantID, studyID, sessionID := None, None, None;
      initialized, lines := false, [];
    }

    /** Records the identity and opens a new file whose first line is the
        header line. */
    method InitializeWithInfo(participant: string, study: string, session: string)
      modifies this
      ensures participantID == Some(participant)
      ensures studyID == Some(study) && sessionID == Some(session)
      ensures initialized && lines == [HeaderLine(columnHeaders)]
    {
      participantID := Some(participant);
      studyID := Some(study);
      sessionID := Some(session);
      initialized := true;
      lines := [HeaderLine(columnHeaders)];
    }

    function Identity(date: string, now: real): Defaults
      reads this
    {
      Defaults(OfNullable(participantID), OfNullable(studyID), OfNullable(sessionID),
               date, Float(now))
    }

    /** Fills the defaults into the caller's dictionary, then, if a file is
        open, builds the row and appends it. `date` and `now` are the
        clock's readings (`DateTime.Now` as yyyy-MM-dd and
        `Time.realtimeSinceStartup`). */
    method LogEvent(data: Dict, date: string, now: real, showReal: RealFormat)
      returns (outcome: RowOutcome)
      requires data.Valid()
      modifies data, this`lines
      ensures data.Valid()
      ensures data.Model() == WithDefaults(old(data.Model()), old(Identity(date, now)))
      ensures !initialized ==> outcome == NotInitialized && lines == old(lines)
      ensures initialized ==>
        match RowLine(data.Model(), columnHeaders, showReal)
        case Success(line) => outcome == Written(line) && lines == old(lines) + [line]
        case Failure(header) => outcome == NullValue(header) && lines == old(lines)
    {
      data.FillDefaults(Identity(date, now));
      outcome := WriteRow(data, showReal);
    }

    /** The guarded part of `LogEvent`: without an open file nothing is
        written; otherwise the row is built and, unless a null value made
        it throw, appended. */
    method WriteRow(data: Dict, showReal: RealFormat) returns (outcome: RowOutcome)
      modifies this`lines
      ensures !initialized ==> outcome == NotInitialized && lines == old(lines)
      ensures initialized ==>
        match RowLine(data.Model(), columnHeaders, showReal)
        case Success(line) => outcome == Written(line) && lines == old(lines) + [line]
        case Failure(header) => outcome == NullValue(header) && lines == old(lines)
    {
      if !initialized {
        return NotInitialized;
      }
      var row := BuildRow(data, showReal);
      match row
      case Failure(header) =>
        outcome := NullValue(header);
      case Success(line) =>
        lines := lines + [line];
        outcome := Written(line);
    }

    /** The row for the event, built column by column in header order: the
        escaped text of the value, or an empty field for a missing key. A
        null value stops the build (its `ToString()` throws). */
    method BuildRow(data: Dict, showReal: RealFormat) returns (row: Result<string, string>)
      ensures row == RowLine(data.Model(), columnHeaders, showReal)
    {
      var rowValues: seq<string> := [];
      ghost var texts: seq<string> := [];
      for i := 0 to |columnHeaders|
        invariant RowTexts(data.Model(), columnHeaders[..i], showReal) == Success(texts)
        invariant rowValues == EscapeAll(texts)
      {
        var header := columnHeaders[i];
        RowTextsStep(data.Model(), columnHeaders, i, showReal);
        if data.ContainsKey(header) {
          var v := data.vals[header];
          if v == Null {
            PrefixFailure(data.Model(), columnHeaders, i + 1, showReal);
            return Failure(header);
          }
          var t := ToText(v, showReal).value;
          rowValues := rowValues + [EscapeCsv(t)];
          texts := texts + [t];
        } else {
          rowValues := rowValues + [""];
          texts := texts + [""];
        }
      }
      assert columnHeaders[..|columnHeaders|] == columnHeaders;
      return Success(Join(",", rowValues));
    }
  }

  /** One more column: the row so far grows by that column's text, or
      fails with its header when its value is null. */
  lemma RowTextsStep(r: Record, headers: seq<string>, i: nat, showReal: RealFormat)
    requires i < |headers|
    requires RowTexts(r, headers[..i], showReal).Success?
    ensures RowTexts(r, headers[..i + 1], showReal) ==
      match CellText(r, headers[i], showReal)
      case None => Failure(headers[i])
      case Some(t) => Success(RowTexts(r, headers[..i], showReal).value + [t])
  {
    assert headers[..i + 1][..i] == headers[..i];
  }

  /** A null value in some column fails the whole row with that column's
      header, whatever the later columns hold. */
  lemma {:induction false} PrefixFailure(r: Record, headers: seq<string>, n: nat, showReal: RealFormat)
    requires n <= |headers|
    requires RowTexts(r, headers[..n], showReal).Failure?
    ensures RowTexts(r, headers, showReal) == RowTexts(r, headers[..n], showReal)
    decreases |headers| - n
  {
    if n < |headers| {
      var longer := headers[..n + 1];
      assert longer[..n] == headers[..n];
      PrefixFailure(r, headers, n + 1, showReal);
    } else {
      assert headers[..n] == headers;
    }
  }
}
