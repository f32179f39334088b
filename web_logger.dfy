/**
  The browser build's logger (`WebDataLogger`): it takes the participant's
  identity from a `PID|STUDY|SESSION` string sent by the page, and turns an
  event dictionary into a JSON-like object string, one `"key":value` entry
  per dictionary entry in enumeration order.
 */
module WebLogger {
  import opened Values
  import opened EventDict

  // ---------------------------------------------------------------------
  // `string.Split(char)`

  /** `s.Split(sep)`: the pieces between separators, with empty pieces
      kept; the empty string splits into one empty piece. */
  function Split(s: string, sep: char): (parts: seq<string>)
    ensures |parts| == Count(sep, s) + 1
    ensures forall i :: 0 <= i < |parts| ==> sep !in parts[i]
    decreases |s|
  {
    if s == [] then [""]
    else
      var rest := Split(s[1..], sep);
      if s[0] == sep then [""] + rest
      else [[s[0]] + rest[0]] + rest[1..]
  }

  /** Gluing the pieces back with the separator gives the original string. */
  lemma {:induction false} JoinSplit(s: string, sep: char)
    ensures Join([sep], Split(s, sep)) == s
    decreases |s|
  {
    if s != [] {
      var rest := Split(s[1..], sep);
      JoinSplit(s[1..], sep);
      if s[0] == sep {
        JoinCons([sep], "", rest);
      } else if |rest| == 1 {
        assert Split(s, sep) == [[s[0]] + rest[0]];
      } else {
        var parts := Split(s, sep);
        assert parts == [[s[0]] + rest[0]] + rest[1..];
        JoinCons([sep], [s[0]] + rest[0], rest[1..]);
        JoinCons([sep], rest[0], rest[1..]);
        assert [rest[0]] + rest[1..] == rest;
      }
    }
  }

  /** A string without the separator is one piece. */
  lemma {:induction false} SplitPlain(p: string, sep: char)
    requires sep !in p
    ensures Split(p, sep) == [p]
    decreases |p|
  {
    if p != [] {
      assert forall c :: c in p[1..] ==> c in p;
      SplitPlain(p[1..], sep);
      assert [p[0]] + p[1..] == p;
    }
  }

  /** A piece without the separator, then the separator, then anything:
      the piece comes first and the rest splits on its own. */
  lemma {:induction false} SplitAppend(p: string, sep: char, t: string)
    requires sep !in p
    ensures Split(p + [sep] + t, sep) == [p] + Split(t, sep)
    decreases |p|
  {
    if p == [] {
      assert (p + [sep] + t)[1..] == t;
    } else {
      assert forall c :: c in p[1..] ==> c in p;
      assert (p + [sep] + t)[1..] == p[1..] + [sep] + t;
      SplitAppend(p[1..], sep, t);
      assert [p[0]] + p[1..] == p;
    }
  }

  /** Splitting undoes joining when no piece holds the separator. */
  lemma {:induction false} SplitJoin(parts: seq<string>, sep: char)
    requires |parts| >= 1
    requires forall i :: 0 <= i < |parts| ==> sep !in parts[i]
    ensures Split(Join([sep], parts), sep) == parts
    decreases |parts|
  {
    if |parts| == 1 {
      SplitPlain(parts[0], sep);
    } else {
      SplitJoin(parts[1..], sep);
      SplitAppend(parts[0], sep, Join([sep], parts[1..]));
      assert [parts[0]] + parts[1..] == parts;
    }
  }

  // ---------------------------------------------------------------------
  // `SetParticipantInfo`

  /** The identity carried by a `PID|STUDY|SESSION` string: the first three
      pieces, or nothing when there are fewer than three. */
  function ParticipantFields(info: string): (f: Option<(string, string, string)>)
    ensures f.None? <==> Count('|', info) < 2
    ensures f.Some? ==> '|' !in f.value.0 && '|' !in f.value.1 && '|' !in f.value.2
  {
    var parts := Split(info, '|');
    if |parts| >= 3 then Some((parts[0], parts[1], parts[2])) else None
  }

  /** Two pieces without `|`, each followed by `|`, come first; the rest
      splits on its own. */
  lemma SplitTwo(p: string, s: string, t: string)
    requires '|' !in p && '|' !in s
    ensures Split(p + "|" + s + "|" + t, '|') == [p, s] + Split(t, '|')
  {
    var tail := s + "|" + t;
    SplitAppend(s, '|', t);
    SplitAppend(p, '|', tail);
    AppendAssoc(p + "|", s, "|");
    AppendAssoc(p + "|", s + "|", t);
    assert [p] + ([s] + Split(t, '|')) == [p, s] + Split(t, '|');
  }

  /** Three pieces without `|`, joined with `|`, read back exactly, empty
      pieces included. */
  lemma ParticipantFieldsRoundTrip(p: string, s: string, se: string)
    requires '|' !in p && '|' !in s && '|' !in se
    ensures ParticipantFields(p + "|" + s + "|" + se) == Some((p, s, se))
  {
    SplitTwo(p, s, se);
    SplitPlain(se, '|');
  }

  /** Pieces after the third are ignored. */
  lemma ParticipantFieldsIgnoresRest(p: string, s: string, se: string, rest: string)
    requires '|' !in p && '|' !in s && '|' !in se
    ensures ParticipantFields(p + "|" + s + "|" + se + "|" + rest) == Some((p, s, se))
  {
    var t := se + "|" + rest;
    SplitTwo(p, s, t);
    SplitAppend(se, '|', rest);
    assert t == se + ['|'] + rest;
    assert p + "|" + s + "|" + se + "|" + rest == p + "|" + s + "|" + t;
  }

  // ---------------------------------------------------------------------
  // Rendering values

  /** `value.Replace("\"", "\\\"")`: a backslash before every double quote. */
  function EscapeQuotes(s: string): (r: string)
    ensures |r| == |s| + Count('"', s)
    decreases |s|
  {
    if s == [] then []
    else (if s[0] == '"' then "\\\"" else [s[0]]) + EscapeQuotes(s[1..])
  }

  /** Reading an escaped string back: `\"` stands for `"`. */
  function UnescapeQuotes(s: string): string
    decreases |s|
  {
    if s == [] then []
    else if |s| >= 2 && s[0] == '\\' && s[1] == '"' then "\"" + UnescapeQuotes(s[2..])
    else [s[0]] + UnescapeQuotes(s[1..])
  }

  /** Every double quote in an escaped string sits right after a
      backslash, so an escaped string never starts with one. */
  lemma {:induction false} EscapedQuotesAreMarked(s: string)
    ensures forall i :: 0 <= i < |EscapeQuotes(s)| && EscapeQuotes(s)[i] == '"' ==>
      i > 0 && EscapeQuotes(s)[i - 1] == '\\'
    decreases |s|
  {
    if s != [] {
      EscapedQuotesAreMarked(s[1..]);
      var head := if s[0] == '"' then "\\\"" else [s[0]];
      var e := EscapeQuotes(s);
      var tail := EscapeQuotes(s[1..]);
      assert e == head + tail;
      forall i | 0 <= i < |e| && e[i] == '"' ensures i > 0 && e[i - 1] == '\\' {
        if i >= |head| {
          assert e[i] == tail[i - |head|];
          if i - |head| > 0 {
            assert e[i - 1] == tail[i - 1 - |head|];
          }
        }
      }
    }
  }

  /** Unescaping undoes escaping. */
  lemma {:induction false} UnescapeEscape(s: string)
    ensures UnescapeQuotes(EscapeQuotes(s)) == s
    decreases |s|
  {
    if s != [] {
      UnescapeEscape(s[1..]);
      var tail := EscapeQuotes(s[1..]);
      EscapedQuotesAreMarked(s[1..]);
      if s[0] == '"' {
        assert EscapeQuotes(s) == "\\\"" + tail;
        assert ("\\\"" + tail)[2..] == tail;
      } else {
        assert EscapeQuotes(s) == [s[0]] + tail;
        assert ([s[0]] + tail)[1..] == tail;
        if s[0] == '\\' && tail != [] {
          assert tail[0] != '"';
        }
      }
      assert [s[0]] + s[1..] == s;
    }
  }

  /** The text `ToString()` gives, or the empty string for null. */
  function TextOrEmpty(v: Value, showReal: RealFormat): (t: string)
    ensures v == Null ==> t == ""
    ensures v != Null ==> Some(t) == ToText(v, showReal)
  {
    match ToText(v, showReal)
    case Some(t) => t
    case None => ""
  }

  /** Values written without quotes: `int`, `float`, `double` and `bool`. */
  predicate IsBare(v: Value)
  {
    v.Int? || v.Float? || v.Double? || v.Bool?
  }

  /** The value half of an entry: numbers as their text, booleans as the
      literals `true`/`false`, anything else (null included) quoted with its
      double quotes escaped. */
  function RenderValue(v: Value, showReal: RealFormat): string
  {
    match v
    case Int(_) => TextOrEmpty(v, showReal)
    case Float(_) => TextOrEmpty(v, showReal)
    case Double(_) => TextOrEmpty(v, showReal)
    case Bool(b) => if b then "true" else "false"
    case _ => "\"" + EscapeQuotes(TextOrEmpty(v, showReal)) + "\""
  }

  /** Numbers are written as `ToString()` gives them, with no quotes; an
      `int` starts with a digit or a minus sign, never a quote; booleans
      are the lower-case literals, not C#'s `True`/`False`. */
  lemma RenderBare(v: Value, showReal: RealFormat)
    requires IsBare(v)
    ensures v.Int? ==> RenderValue(v, showReal) == IntText(v.i as int)
                       && RenderValue(v, showReal)[0] != '"'
    ensures v.Float? ==> RenderValue(v, showReal) == showReal(v.f)
    ensures v.Double? ==> RenderValue(v, showReal) == showReal(v.d)
    ensures v.Bool? ==> RenderValue(v, showReal) == (if v.b then "true" else "false")
    ensures v.Bool? ==> RenderValue(v, showReal) != ToText(v, showReal).value
  {
  }

  /** A quoted value is wrapped in double quotes, every quote inside is
      marked by a backslash, and unescaping the inside gives back the
      value's text (the empty string for null). */
  lemma RenderQuotedReadsBack(v: Value, showReal: RealFormat)
    requires !IsBare(v)
    ensures var r := RenderValue(v, showReal);
      && |r| >= 2 && r[0] == '"' && r[|r| - 1] == '"'
      && UnescapeQuotes(r[1..|r| - 1]) == TextOrEmpty(v, showReal)
      && (forall i :: 1 <= i < |r| - 1 && r[i] == '"' ==> i > 1 && r[i - 1] == '\\')
  {
    var t := TextOrEmpty(v, showReal);
    var e := EscapeQuotes(t);
    var r := RenderValue(v, showReal);
    assert r == "\"" + e + "\"";
    assert r[1..|r| - 1] == e;
    UnescapeEscape(t);
    EscapedQuotesAreMarked(t);
    forall i | 1 <= i < |r| - 1 && r[i] == '"' ensures i > 1 && r[i - 1] == '\\' {
      assert r[i] == e[i - 1];
      if i > 1 {
        assert r[i - 1] == e[i - 2];
      }
    }
  }

  // ---------------------------------------------------------------------
  // Building the object

  /** `"key":value` */
  function Entry(key: string, v: Value, showReal: RealFormat): (e: string)
  {
    EntryText(key, RenderValue(v, showReal))
  }

  function EntryText(key: string, value: string): string
  {
    "\"" + key + "\":" + value
  }

  /** One entry per key, in the given order. */
  function Entries(keys: seq<string>, vals: map<string, Value>, showReal: RealFormat)
    : (es: seq<string>)
    requires forall i :: 0 <= i < |keys| ==> keys[i] in vals
    ensures |es| == |keys|
    decreases |keys|
  {
    if keys == [] then []
    else
      var last := keys[|keys| - 1];
      Entries(keys[..|keys| - 1], vals, showReal) + [Entry(last, vals[last], showReal)]
  }

  /** Entry `i` is built from key `i` and its value. */
  lemma EntriesAt(keys: seq<string>, vals: map<string, Value>, showReal: RealFormat)
    requires forall i :: 0 <= i < |keys| ==> keys[i] in vals
    ensures forall i :: 0 <= i < |keys| ==>
      Entries(keys, vals, showReal)[i] == Entry(keys[i], vals[keys[i]], showReal)
  {
    forall i | 0 <= i < |keys|
      ensures Entries(keys, vals, showReal)[i] == Entry(keys[i], vals[keys[i]], showReal)
    {
      EntryAt(keys, vals, showReal, i);
    }
  }

  lemma {:induction false} EntryAt(keys: seq<string>, vals: map<string, Value>, showReal: RealFormat, i: nat)
    requires forall i :: 0 <= i < |keys| ==> keys[i] in vals
    requires i < |keys|
    ensures Entries(keys, vals, showReal)[i] == Entry(keys[i], vals[keys[i]], showReal)
    decreases |keys|
  {
    var init, last := keys[..|keys| - 1], keys[|keys| - 1];
    var ei := Entries(init, vals, showReal);
    var e := Entry(last, vals[last], showReal);
    EntriesSnoc(keys, vals, showReal);
    assert Entries(keys, vals, showReal) == ei + [e];
    if i < |init| {
      EntryAt(init, vals, showReal, i);
      assert init[i] == keys[i];
      assert (ei + [e])[i] == ei[i];
    } else {
      assert i == |ei| && keys[i] == last;
      assert (ei + [e])[i] == e;
    }
  }

  /** The object string written for a dictionary. */
  function ObjectText(r: Record, showReal: RealFormat): string
    requires WellFormed(r)
  {
    "{" + Join(",", Entries(r.keys, r.vals, showReal)) + "}"
  }

  /** The entries of two key lists one after the other are the entries of
      the first followed by those of the second. */
  lemma {:induction false} EntriesAppend(a: seq<string>, b: seq<string>, vals: map<string, Value>,
                                         showReal: RealFormat)
    requires forall i :: 0 <= i < |a| ==> a[i] in vals
    requires forall i :: 0 <= i < |b| ==> b[i] in vals
    ensures forall i :: 0 <= i < |a + b| ==> (a + b)[i] in vals
    ensures Entries(a + b, vals, showReal) == Entries(a, vals, showReal) + Entries(b, vals, showReal)
    decreases |b|
  {
    if b == [] {
      assert a + b == a;
    } else {
      var init, last := b[..|b| - 1], b[|b| - 1];
      EntriesAppend(a, init, vals, showReal);
      var ea, ei, e := Entries(a, vals, showReal), Entries(init, vals, showReal),
                       Entry(last, vals[last], showReal);
      assert (a + b)[..|a + b| - 1] == a + init;
      assert (a + b)[|a + b| - 1] == last;
      EntriesSnoc(a + b, vals, showReal);
      EntriesSnoc(b, vals, showReal);
      AppendAssoc(ea, ei, [e]);
    }
  }

  lemma EntriesSnoc(keys: seq<string>, vals: map<string, Value>, showReal: RealFormat)
    requires keys != []
    requires forall i :: 0 <= i < |keys| ==> keys[i] in vals
    ensures Entries(keys, vals, showReal)
      == Entries(keys[..|keys| - 1], vals, showReal)
         + [Entry(keys[|keys| - 1], vals[keys[|keys| - 1]], showReal)]
  {
  }

  lemma AppendAssoc<T>(x: seq<T>, y: seq<T>, z: seq<T>)
    ensures (x + y) + z == x + (y + z)
  {
  }

  /** Entries depend only on the values of their own keys. */
  lemma {:induction false} EntriesAgree(keys: seq<string>, vals1: map<string, Value>,
                                        vals2: map<string, Value>, showReal: RealFormat)
    requires forall i :: 0 <= i < |keys| ==>
      keys[i] in vals1 && keys[i] in vals2 && vals1[keys[i]] == vals2[keys[i]]
    ensures Entries(keys, vals1, showReal) == Entries(keys, vals2, showReal)
    decreases |keys|
  {
    if keys != [] {
      EntriesAgree(keys[..|keys| - 1], vals1, vals2, showReal);
    }
  }

  /** The object of `r'` lists the entries of `r` first, unchanged, then
      one entry per key in `added`. */
  ghost predicate ExtendsObject(r: Record, r': Record, added: seq<string>, showReal: RealFormat)
  {
    && WellFormed(r) && WellFormed(r')
    && (forall i :: 0 <= i < |added| ==> added[i] in r'.vals)
    && Entries(r'.keys, r'.vals, showReal)
         == Entries(r.keys, r.vals, showReal) + Entries(added, r'.vals, showReal)
  }

  /** The entries of a dictionary that was only added to. */
  lemma EntriesOfExtended(r: Record, r': Record, added: seq<string>, showReal: RealFormat)
    requires WellFormed(r) && WellFormed(r')
    requires r'.keys == r.keys + added
    requires forall k :: k in r.vals ==> k in r'.vals && r'.vals[k] == r.vals[k]
    ensures ExtendsObject(r, r', added, showReal)
  {
    forall i | 0 <= i < |added| ensures added[i] in r'.vals {
      assert r'.keys[|r.keys| + i] == added[i];
    }
    EntriesAppend(r.keys, added, r'.vals, showReal);
    EntriesAgree(r.keys, r.vals, r'.vals, showReal);
  }

  /** The object for an event after the defaults are filled: one entry per
      dictionary entry, at least six, the caller's entries first with their
      own values, then one entry for each default key it lacked. */
  lemma LogEventObject(r: Record, d: Defaults, showReal: RealFormat)
    requires WellFormed(r)
    ensures WellFormed(WithDefaults(r, d))
    ensures |WithDefaults(r, d).keys| >= 6
    ensures ExtendsObject(r, WithDefaults(r, d), Missing(r, DefaultKeys), showReal)
  {
    WithDefaultsSpec(r, d);
    WithDefaultsSize(r, d);
    EntriesOfExtended(r, WithDefaults(r, d), Missing(r, DefaultKeys), showReal);
  }

  /** When the caller gave no session, its entry reads `"session":"001"`. */
  lemma SessionEntry(r: Record, d: Defaults, showReal: RealFormat)
    requires "session" !in r.vals
    ensures "session" in WithDefaults(r, d).vals
    ensures Entry("session", WithDefaults(r, d).vals["session"], showReal)
              == "\"session\":\"001\""
  {
    var given := Str("001");
    assert TextOrEmpty(given, showReal) == "001";
    assert EscapeQuotes("001") == "001";
    assert RenderValue(given, showReal) == "\"001\"";
    assert EntryText("session", "\"001\"") == "\"session\":\"001\"";
    WithDefaultsValues(r, d);
  }

  class WebDataLogger {
    var participantId: Option<string>
    var studyId: Option<string>
    var sessionId: Option<string>
    /** `Time.realtimeSinceStartup` when the task started. */
    var taskStartTime: real

    constructor ()
      ensures participantId == None && studyId == None && sessionId == None
      ensures taskStartTime == 0.0
    {
      participantId, studyId, sessionId := None, None, None;
      taskStartTime := 0.0;
    }

    /** Records the identity and the task's start time. */
    method InitializeWithInfo(participant: string, study: string, session: string, now: real)
      modifies this
      ensures participantId == Some(participant)
      ensures studyId == Some(study) && sessionId == Some(session)
      ensures taskStartTime == now
    {
      participantId := Some(participant);
      studyId := Some(study);
      sessionId := Some(session);
      taskStartTime := now;
    }

    /** Takes the identity from a `PID|STUDY|SESSION` string; a string with
        fewer than three pieces changes nothing. */
    method SetParticipantInfo(info: string)
      modifies this`participantId, this`studyId, this`sessionId
      ensures ParticipantFields(info).None? ==>
        participantId == old(participantId) && studyId == old(studyId)
        && sessionId == old(sessionId)
      ensures ParticipantFields(info).Some? ==>
        var (p, s, se) := ParticipantFields(info).value;
        participantId == Some(p) && studyId == Some(s) && sessionId == Some(se)
    {
      var parts := Split(info, '|');
      if |parts| >= 3 {
        participantId := Some(parts[0]);
        studyId := Some(parts[1]);
        sessionId := Some(parts[2]);
      }
    }

    function Identity(date: string, unix: real): Defaults
      reads this
    {
      Defaults(OfNullable(participantId), OfNullable(studyId), OfNullable(sessionId),
               date, Double(unix))
    }

    /** Fills the defaults into the caller's dictionary and returns the
        object string sent to the page. `date` is `DateTime.UtcNow` as
        yyyy-MM-dd and `unix` the seconds since 1970-01-01. */
    method LogEvent(data: Dict, date: string, unix: real, showReal: RealFormat)
      returns (json: string)
      requires data.Valid()
      modifies data
      ensures data.Model() == WithDefaults(old(data.Model()), old(Identity(date, unix)))
      ensures data.Valid()
      ensures json == ObjectText(data.Model(), showReal)
    {
      ghost var r := data.Model();
      data.FillDefaults(Identity(date, unix));
      WithDefaultsSpec(r, Identity(date, unix));
      json := RenderObject(data, showReal);
    }

    /** The object string: one `"key":value` entry per dictionary entry,
        in enumeration order, joined with commas inside braces. */
    method RenderObject(data: Dict, showReal: RealFormat) returns (json: string)
      requires data.Valid()
      ensures json == ObjectText(data.Model(), showReal)
    {
      var keys, vals := data.keys, data.vals;
      assert forall i :: 0 <= i < |keys| ==> keys[i] in vals;
      var entries: seq<string> := [];
      for i := 0 to |keys|
        invariant entries == Entries(keys[..i], vals, showReal)
      {
        var done := keys[..i + 1];
        assert done[..i] == keys[..i] && done[i] == keys[i];
        EntriesSnoc(done, vals, showReal);
        entries := entries + [Entry(keys[i], vals[keys[i]], showReal)];
      }
      assert keys[..|keys|] == keys;
      json := "{" + Join(",", entries) + "}";
    }
  }
}
