/**
  The event dictionary that game scripts hand to `LogEvent` (a C#
  `Dictionary<string, object>`) and the six identity and time entries
  both loggers insert into it when the caller left them out.

  .NET leaves the enumeration order of a dictionary unspecified; the model
  assumes the insertion order it gives in practice when nothing has been
  removed, and keeps that order in `keys`.
 */
module EventDict {
  import opened Values

  /** The abstract content of a dictionary: the keys in enumeration order
      and the value of each key. */
  datatype Record = Record(keys: seq<string>, vals: map<string, Value>)

  /** No key occurs twice. */
  predicate Distinct(ks: seq<string>)
  {
    forall i, j :: 0 <= i < j < |ks| ==> ks[i] != ks[j]
  }

  /** Keys are distinct and are exactly the keys that have a value. */
  ghost predicate WellFormed(r: Record)
  {
    && Distinct(r.keys)
    && (forall k :: k in r.vals ==> k in r.keys)
    && (forall i :: 0 <= i < |r.keys| ==> r.keys[i] in r.vals)
  }

  /** `data[k] = v`: replaces the value of an existing key in place, or adds
      the key at the end of the enumeration order. */
  function Put(r: Record, k: string, v: Value): (r': Record)
    ensures WellFormed(r) ==> WellFormed(r')
    ensures r'.vals == r.vals[k := v]
    ensures k in r.vals ==> r'.keys == r.keys
    ensures k !in r.vals ==> r'.keys == r.keys + [k]
  {
    if k in r.vals then Record(r.keys, r.vals[k := v])
    else Record(r.keys + [k], r.vals[k := v])
  }

  /** `if (!data.ContainsKey(k)) data[k] = v;` */
  function PutIfAbsent(r: Record, k: string, v: Value): (r': Record)
    ensures WellFormed(r) ==> WellFormed(r')
    ensures k in r'.vals
    ensures k in r.vals ==> r' == r
    ensures k !in r.vals ==> r'.vals[k] == v && r'.keys == r.keys + [k]
    ensures forall k' :: k' in r.vals ==> k' in r'.vals && r'.vals[k'] == r.vals[k']
    ensures forall k' :: k' in r'.vals ==> k' in r.vals || k' == k
  {
    if k in r.vals then r else Put(r, k, v)
  }

  /** The keys both loggers fill in, in the order they fill them in. */
  const DefaultKeys: seq<string> :=
    ["participant", "study_id", "session_id", "session", "date", "t_global"]

  /** The session label both loggers use when the caller gives none. */
  const DefaultSession: string := "001"

  /** The values the loggers fill in: the logger's three identity fields,
      the fixed session label, today's date and the current time. */
  datatype Defaults = Defaults(participant: Value, study: Value, session: Value,
                               date: string, time: Value)

  function DefaultValues(d: Defaults): (vs: seq<Value>)
    ensures |vs| == |DefaultKeys|
  {
    [d.participant, d.study, d.session, Str(DefaultSession), Str(d.date), d.time]
  }

  /** The default keys the caller did not supply, in filling order. */
  function Missing(r: Record, ks: seq<string>): (m: seq<string>)
  {
    if ks == [] then []
    else (if ks[0] in r.vals then [] else [ks[0]]) + Missing(r, ks[1..])
  }

  /** Inserts, for each default key in turn, its default value unless the
      key is already present. */
  function FillFrom(r: Record, ks: seq<string>, vs: seq<Value>): (r': Record)
    requires |ks| == |vs|
    decreases |ks|
  {
    if ks == [] then r else FillFrom(PutIfAbsent(r, ks[0], vs[0]), ks[1..], vs[1..])
  }

  /** The dictionary after `LogEvent` has filled in its defaults. */
  function WithDefaults(r: Record, d: Defaults): Record
  {
    FillFrom(r, DefaultKeys, DefaultValues(d))
  }

  /** Filling the defaults is six insertions-if-absent, in order. */
  lemma WithDefaultsUnfold(r: Record, d: Defaults)
    ensures WithDefaults(r, d) ==
      var r1 := PutIfAbsent(r, "participant", d.participant);
      var r2 := PutIfAbsent(r1, "study_id", d.study);
      var r3 := PutIfAbsent(r2, "session_id", d.session);
      var r4 := PutIfAbsent(r3, "session", Str(DefaultSession));
      var r5 := PutIfAbsent(r4, "date", Str(d.date));
      PutIfAbsent(r5, "t_global", d.time)
  {
    var ks, vs := DefaultKeys, DefaultValues(d);
    assert ks[1..] == ["study_id", "session_id", "session", "date", "t_global"];
    assert ks[2..] == ["session_id", "session", "date", "t_global"];
    assert ks[3..] == ["session", "date", "t_global"];
    assert ks[4..] == ["date", "t_global"];
    assert ks[5..] == ["t_global"];
    assert ks[6..] == [];
    assert vs[1..] == [d.study, d.session, Str(DefaultSession), Str(d.date), d.time];
    assert vs[2..] == [d.session, Str(DefaultSession), Str(d.date), d.time];
    assert vs[3..] == [Str(DefaultSession), Str(d.date), d.time];
    assert vs[4..] == [Str(d.date), d.time];
    assert vs[5..] == [d.time];
  }

  /** Filling keeps the caller's keys first and appends the missing
      default keys in filling order. */
  lemma {:induction false} FillFromKeys(r: Record, ks: seq<string>, vs: seq<Value>)
    requires |ks| == |vs|
    requires Distinct(ks)
    ensures FillFrom(r, ks, vs).keys == r.keys + Missing(r, ks)
    decreases |ks|
  {
    if ks != [] {
      var r1 := PutIfAbsent(r, ks[0], vs[0]);
      var head := if ks[0] in r.vals then [] else [ks[0]];
      assert r1.keys == r.keys + head;
      forall k | k in ks[1..] ensures k in r.vals <==> k in r1.vals {
        var j :| 0 <= j < |ks[1..]| && ks[1..][j] == k;
        assert ks[j + 1] == k;
      }
      MissingAgrees(r, r1, ks[1..]);
      FillFromKeys(r1, ks[1..], vs[1..]);
      assert FillFrom(r, ks, vs) == FillFrom(r1, ks[1..], vs[1..]);
      assert Missing(r, ks) == head + Missing(r, ks[1..]);
      assert (r.keys + head) + Missing(r, ks[1..]) == r.keys + (head + Missing(r, ks[1..]));
    }
  }

  /** Filling never changes a value the caller supplied, and adds only
      keys that are being filled. */
  lemma {:induction false} FillFromKeeps(r: Record, ks: seq<string>, vs: seq<Value>)
    requires |ks| == |vs|
    ensures var r' := FillFrom(r, ks, vs);
      && (WellFormed(r) ==> WellFormed(r'))
      && (forall k :: k in r.vals ==> k in r'.vals && r'.vals[k] == r.vals[k])
      && (forall k :: k in r'.vals <==> k in r.vals || k in ks)
    decreases |ks|
  {
    if ks != [] {
      var r1 := PutIfAbsent(r, ks[0], vs[0]);
      FillFromKeeps(r1, ks[1..], vs[1..]);
      var r' := FillFrom(r1, ks[1..], vs[1..]);
      forall k | k in r'.vals ensures k in r.vals || k in ks {
        if k !in r1.vals {
          assert k in ks[1..];
        }
      }
    }
  }

  /** Each key that was missing ends up holding its own default value. */
  lemma {:induction false} FillFromSets(r: Record, ks: seq<string>, vs: seq<Value>, i: nat)
    requires |ks| == |vs|
    requires Distinct(ks)
    requires i < |ks| && ks[i] !in r.vals
    ensures ks[i] in FillFrom(r, ks, vs).vals && FillFrom(r, ks, vs).vals[ks[i]] == vs[i]
    decreases |ks|
  {
    var r1 := PutIfAbsent(r, ks[0], vs[0]);
    if i == 0 {
      FillFromKeeps(r1, ks[1..], vs[1..]);
    } else {
      assert ks[1..][i - 1] == ks[i];
      FillFromSets(r1, ks[1..], vs[1..], i - 1);
    }
  }

  /** Two dictionaries that agree on which of `ks` are present miss the
      same ones. */
  lemma {:induction false} MissingAgrees(r: Record, r1: Record, ks: seq<string>)
    requires forall k :: k in ks ==> (k in r.vals <==> k in r1.vals)
    ensures Missing(r, ks) == Missing(r1, ks)
    decreases |ks|
  {
    if ks != [] {
      MissingAgrees(r, r1, ks[1..]);
    }
  }

  lemma DefaultKeysDistinct()
    ensures Distinct(DefaultKeys)
  {
    var ks := DefaultKeys;
    assert |ks[0]| == 11 && |ks[1]| == 8 && |ks[2]| == 10;
    assert |ks[3]| == 7 && |ks[4]| == 4 && |ks[5]| == 8;
    assert ks[1][0] != ks[5][0];
  }

  /** After `LogEvent` the six identity and time keys are present, the
      caller's own values are unchanged, no other key is added, and
      enumeration lists the caller's keys first. */
  lemma WithDefaultsSpec(r: Record, d: Defaults)
    ensures var r' := WithDefaults(r, d);
      && (WellFormed(r) ==> WellFormed(r'))
      && r'.keys == r.keys + Missing(r, DefaultKeys)
      && (forall k :: k in DefaultKeys ==> k in r'.vals)
      && (forall k :: k in r.vals ==> k in r'.vals && r'.vals[k] == r.vals[k])
      && (forall k :: k in r'.vals ==> k in r.vals || k in DefaultKeys)
  {
    DefaultKeysDistinct();
    FillFromKeys(r, DefaultKeys, DefaultValues(d));
    FillFromKeeps(r, DefaultKeys, DefaultValues(d));
  }

  /** Each missing identity and time key holds its default: the logger's
      three identity fields, the session label "001", the date and the
      time. */
  lemma WithDefaultsValues(r: Record, d: Defaults)
    ensures var r' := WithDefaults(r, d);
      && "participant" in r'.vals && "study_id" in r'.vals && "session_id" in r'.vals
      && "session" in r'.vals && "date" in r'.vals && "t_global" in r'.vals
    ensures var r' := WithDefaults(r, d);
      && ("participant" !in r.vals ==> r'.vals["participant"] == d.participant)
      && ("study_id" !in r.vals ==> r'.vals["study_id"] == d.study)
      && ("session_id" !in r.vals ==> r'.vals["session_id"] == d.session)
      && ("session" !in r.vals ==> r'.vals["session"] == Str("001"))
      && ("date" !in r.vals ==> r'.vals["date"] == Str(d.date))
      && ("t_global" !in r.vals ==> r'.vals["t_global"] == d.time)
  {
    DefaultAt(r, d, 0);
    DefaultAt(r, d, 1);
    DefaultAt(r, d, 2);
    DefaultAt(r, d, 3);
    DefaultAt(r, d, 4);
    DefaultAt(r, d, 5);
  }

  /** Default key `i` is present after filling, and holds default value
      `i` when the caller did not supply it. */
  lemma DefaultAt(r: Record, d: Defaults, i: nat)
    requires i < |DefaultKeys|
    ensures DefaultKeys[i] in WithDefaults(r, d).vals
    ensures DefaultKeys[i] !in r.vals ==>
      WithDefaults(r, d).vals[DefaultKeys[i]] == DefaultValues(d)[i]
  {
    var ks, vs := DefaultKeys, DefaultValues(d);
    DefaultKeysDistinct();
    FillFromKeeps(r, ks, vs);
    assert ks[i] in ks;
    if ks[i] !in r.vals {
      FillFromSets(r, ks, vs, i);
    }
  }

  /** A dictionary that holds the default keys has at least six entries, so
      the logged object is never empty. */
  lemma WithDefaultsSize(r: Record, d: Defaults)
    requires WellFormed(r)
    ensures |WithDefaults(r, d).keys| >= |DefaultKeys|
  {
    DefaultKeysDistinct();
    FillFromKeeps(r, DefaultKeys, DefaultValues(d));
    var r' := WithDefaults(r, d);
    var ks := DefaultKeys;
    assert WellFormed(r');
    forall i | 0 <= i < |ks| ensures ks[i] in r'.keys {
      var k := ks[i];
      assert k in ks;
      assert k in r'.vals;
    }
    DistinctSubset(ks, r'.keys);
  }

  /** A sequence of distinct elements each of which occurs in `b` is no
      longer than `b`. */
  lemma {:induction false} DistinctSubset(a: seq<string>, b: seq<string>)
    requires Distinct(a)
    requires forall i :: 0 <= i < |a| ==> a[i] in b
    ensures |a| <= |b|
    decreases |a|
  {
    if a != [] {
      var j :| 0 <= j < |b| && b[j] == a[0];
      var b' := b[..j] + b[j + 1..];
      forall i | 0 <= i < |a[1..]| ensures a[1..][i] in b' {
        assert a[i + 1] != a[0];
        var m :| 0 <= m < |b| && b[m] == a[i + 1];
        if m < j { assert b'[m] == b[m]; } else { assert b'[m - 1] == b[m]; }
      }
      DistinctSubset(a[1..], b');
    }
  }

  /** The caller's dictionary, which `LogEvent` changes in place. */
  class Dict {
    var keys: seq<string>
    var vals: map<string, Value>

    function Model(): Record
      reads this
    {
      Record(keys, vals)
    }

    /** The keys are distinct and are exactly the dictionary's keys. */
    ghost predicate Valid()
      reads this
    {
      WellFormed(Model())
    }

    constructor ()
      ensures Valid()
      ensures Model() == Record([], map[])
    {
      keys, vals := [], map[];
    }

    predicate ContainsKey(k: string)
      reads this
    {
      k in vals
    }

    /** `data[k] = v` */
    method Set(k: string, v: Value)
      requires Valid()
      modifies this
      ensures Valid()
      ensures Model() == Put(old(Model()), k, v)
    {
      if k !in vals {
        keys := keys + [k];
      }
      vals := vals[k := v];
    }

    /** `if (!data.ContainsKey(k)) data[k] = v;` */
    method SetIfAbsent(k: string, v: Value)
      requires Valid()
      modifies this
      ensures Valid()
      ensures Model() == PutIfAbsent(old(Model()), k, v)
    {
      if !ContainsKey(k) {
        Set(k, v);
      }
    }

    /** The six default-filling lines at the start of both loggers'
        `LogEvent`. */
    method FillDefaults(d: Defaults)
      requires Valid()
      modifies this
      ensures Valid()
      ensures Model() == WithDefaults(old(Model()), d)
    {
      ghost var r := Model();
      SetIfAbsent("participant", d.participant);
      SetIfAbsent("study_id", d.study);
      SetIfAbsent("session_id", d.session);
      SetIfAbsent("session", Str(DefaultSession));
      SetIfAbsent("date", Str(d.date));
      SetIfAbsent("t_global", d.time);
      WithDefaultsUnfold(r, d);
    }
  }
}
