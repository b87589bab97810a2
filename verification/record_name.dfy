/** The file name a recording is written to: `timeName` in vision/camera.go,
    with the wall-clock fields passed in instead of read from the clock. */
module RecordName {
  import opened Wrappers
  import opened Decimal

  /** The calendar fields of one reading of the local clock (`time.Now()`). */
  datatype Stamp = Stamp(year: int64, month: int64, day: int64, hour: int64, minute: int64, second: int64)

  function Fields(t: Stamp): (xs: seq<int64>)
    ensures |xs| == 6
  {
    [t.year, t.month, t.day, t.hour, t.minute, t.second]
  }

  /** Joins `xs` with `sep` between neighbours. */
  function Join(xs: seq<string>, sep: char): string
    requires |xs| >= 1
  {
    if |xs| == 1 then xs[0] else xs[0] + [sep] + Join(xs[1..], sep)
  }

  /** Cuts `s` at every `sep`; always yields at least one (possibly empty) piece. */
  function Split(s: string, sep: char): (r: seq<string>)
    ensures |r| >= 1
    decreases |s|
  {
    if |s| == 0 then [""]
    else if s[0] == sep then [""] + Split(s[1..], sep)
    else
      var rest := Split(s[1..], sep);
      [[s[0]] + rest[0]] + rest[1..]
  }

  function ShowAll(xs: seq<int64>): (r: seq<string>)
    ensures |r| == |xs|
    ensures forall i :: 0 <= i < |xs| ==> r[i] == ShowInt(xs[i] as int)
  {
    if |xs| == 0 then [] else [ShowInt(xs[0] as int)] + ShowAll(xs[1..])
  }

  /** Parses every piece with `Atoi`, failing if any piece fails. */
  function ParseAll(ps: seq<string>): (r: Option<seq<int64>>)
    ensures r.Some? ==> |r.value| == |ps|
  {
    if |ps| == 0 then Some([])
    else
      var head := ParseInt(ps[0]);
      var tail := ParseAll(ps[1..]);
      if head.Some? && tail.Some? then Some([head.value] + tail.value) else None
  }

  const Prefix: string := "record_"
  const Suffix: string := ".mp4"

  /** `record_<Y>_<M>_<D>_<h>_<m>_<s>.mp4`, every field in plain `%d` (no zero
      fill, so `record_2024_3_7_9_5_1.mp4`), in the working directory. */
  function TimeName(t: Stamp): (name: string)
    ensures |name| > |Prefix| + |Suffix|
    ensures name[..|Prefix|] == Prefix
    ensures name[|name| - |Suffix|..] == Suffix
  {
    Prefix + Join(ShowAll(Fields(t)), '_') + Suffix
  }

  /** The inverse of TimeName: recovers the six clock fields from a name. */
  function ParseTimeName(name: string): Option<Stamp>
  {
    if |name| < |Prefix| + |Suffix| || name[..|Prefix|] != Prefix || name[|name| - |Suffix|..] != Suffix
    then None
    else
      var parts := Split(name[|Prefix|..|name| - |Suffix|], '_');
      if |parts| != 6 then None
      else match ParseAll(parts)
        case Some(v) => Some(Stamp(v[0], v[1], v[2], v[3], v[4], v[5]))
        case None => None
  }

  lemma {:induction false} SplitNoSep(a: string, sep: char)
    requires sep !in a
    ensures Split(a, sep) == [a]
    decreases |a|
  {
    if |a| > 0 {
      assert a[0] in a;
      assert sep !in a[1..] by {
        forall i | 0 <= i < |a[1..]| ensures a[1..][i] != sep {
          assert a[1..][i] == a[i + 1];
        }
      }
      SplitNoSep(a[1..], sep);
      assert [a[0]] + a[1..] == a;
    }
  }

  lemma {:induction false} SplitAtFirstSep(a: string, sep: char, t: string)
    requires sep !in a
    ensures Split(a + [sep] + t, sep) == [a] + Split(t, sep)
    decreases |a|
  {
    var s := a + [sep] + t;
    if |a| == 0 {
      assert s[0] == sep && s[1..] == t;
    } else {
      assert a[0] in a;
      assert s[0] == a[0] && s[1..] == a[1..] + [sep] + t;
      assert sep !in a[1..] by {
        forall i | 0 <= i < |a[1..]| ensures a[1..][i] != sep {
          assert a[1..][i] == a[i + 1];
        }
      }
      SplitAtFirstSep(a[1..], sep, t);
      assert [a[0]] + a[1..] == a;
    }
  }

  /** Split undoes Join whenever no piece contains the separator. */
  lemma {:induction false} SplitJoin(xs: seq<string>, sep: char)
    requires |xs| >= 1
    requires forall i :: 0 <= i < |xs| ==> sep !in xs[i]
    ensures Split(Join(xs, sep), sep) == xs
    decreases |xs|
  {
    if |xs| == 1 {
      SplitNoSep(xs[0], sep);
    } else {
      assert sep !in xs[0];
      SplitJoin(xs[1..], sep);
      SplitAtFirstSep(xs[0], sep, Join(xs[1..], sep));
      assert [xs[0]] + xs[1..] == xs;
    }
  }

  lemma ShowIntHasNoUnderscore(n: int)
    ensures '_' !in ShowInt(n)
  {
    var s := ShowInt(n);
    if n < 0 {
      var d := ShowNat(-n);
      assert s == "-" + d;
      forall i | 0 <= i < |s| ensures s[i] != '_' {
        if i > 0 { assert s[i] == d[i - 1]; }
      }
    }
  }

  lemma {:induction false} ParseAllShowAll(xs: seq<int64>)
    ensures ParseAll(ShowAll(xs)) == Some(xs)
    decreases |xs|
  {
    if |xs| > 0 {
      var ps := ShowAll(xs);
      assert ps[0] == ShowInt(xs[0] as int);
      assert ps[1..] == ShowAll(xs[1..]);
      ParseShowInt(xs[0]);
      ParseAllShowAll(xs[1..]);
      assert [xs[0]] + xs[1..] == xs;
    }
  }

  /** Every recording name determines the clock fields it was made from. */
  lemma TimeNameRoundTrip(t: Stamp)
    ensures ParseTimeName(TimeName(t)) == Some(t)
  {
    var parts := ShowAll(Fields(t));
    var joined := Join(parts, '_');
    var name := TimeName(t);
    assert name == Prefix + joined + Suffix;
    assert name[|Prefix|..|name| - |Suffix|] == joined;
    forall i | 0 <= i < |parts| ensures '_' !in parts[i] {
      ShowIntHasNoUnderscore(Fields(t)[i] as int);
    }
    SplitJoin(parts, '_');
    ParseAllShowAll(Fields(t));
  }

  /** For every clock reading, the text between `record_` and `.mp4` is the
      six fields in order, each printed by plain `%d` (no zero fill, no plus
      sign), separated by `_`. */
  lemma TimeNameFields(t: Stamp)
    ensures var name := TimeName(t);
      Split(name[|Prefix|..|name| - |Suffix|], '_') == ShowAll(Fields(t))
    ensures forall i :: 0 <= i < 6 ==> var p := ShowAll(Fields(t))[i];
      (p[0] == '0' ==> p == "0") && p[0] != '+'
  {
    var parts := ShowAll(Fields(t));
    var name := TimeName(t);
    assert name[|Prefix|..|name| - |Suffix|] == Join(parts, '_');
    forall i | 0 <= i < |parts| ensures '_' !in parts[i] {
      ShowIntHasNoUnderscore(Fields(t)[i] as int);
    }
    SplitJoin(parts, '_');
    forall i | 0 <= i < 6 ensures var p := parts[i]; (p[0] == '0' ==> p == "0") && p[0] != '+' {
      var n := Fields(t)[i] as int;
      if n >= 0 {
        if parts[i][0] == '0' {
          assert n == 0;
          assert parts[i] == [DigitChar(0)];
        }
      }
    }
  }

  /** Two clock readings give the same file name only if all six fields agree. */
  lemma TimeNameInjective(t: Stamp, u: Stamp)
    requires TimeName(t) == TimeName(u)
    ensures t == u
  {
    TimeNameRoundTrip(t);
    TimeNameRoundTrip(u);
  }

  lemma ShowYear2024()
    ensures ShowInt(2024) == "2024"
  {
    assert DigitChar(2) == '2' && DigitChar(0) == '0' && DigitChar(4) == '4';
    assert ShowNat(2) == "2";
    assert ShowNat(20) == ShowNat(2) + "0";
    assert ShowNat(202) == ShowNat(20) + "2";
    assert ShowNat(2024) == ShowNat(202) + "4";
  }

  lemma JoinSix(parts: seq<string>)
    requires parts == ["2024", "3", "7", "9", "5", "1"]
    ensures Join(parts, '_') == "2024_3_7_9_5_1"
  {
    assert Join(parts[5..], '_') == "1";
    assert Join(parts[4..], '_') == "5_1" by { assert parts[4..][1..] == parts[5..]; }
    assert Join(parts[3..], '_') == "9_5_1" by { assert parts[3..][1..] == parts[4..]; }
    assert Join(parts[2..], '_') == "7_9_5_1" by { assert parts[2..][1..] == parts[3..]; }
    assert Join(parts[1..], '_') == "3_7_9_5_1" by { assert parts[1..][1..] == parts[2..]; }
  }

  lemma ShowExampleFields(parts: seq<string>)
    requires parts == ShowAll(Fields(Stamp(2024, 3, 7, 9, 5, 1)))
    ensures parts == ["2024", "3", "7", "9", "5", "1"]
  {
    ShowYear2024();
    assert parts[0] == "2024";
    assert parts[1] == [DigitChar(3)] == "3";
    assert parts[2] == [DigitChar(7)] == "7";
    assert parts[3] == [DigitChar(9)] == "9";
    assert parts[4] == [DigitChar(5)] == "5";
    assert parts[5] == [DigitChar(1)] == "1";
  }

  /** Fields are printed without zero fill: 7 March 2024, 09:05:01 gives
      `record_2024_3_7_9_5_1.mp4`, not `..._03_07_09_05_01.mp4`. */
  lemma TimeNameUnpadded()
    ensures TimeName(Stamp(2024, 3, 7, 9, 5, 1)) == "record_2024_3_7_9_5_1.mp4"
  {
    var parts := ShowAll(Fields(Stamp(2024, 3, 7, 9, 5, 1)));
    ShowExampleFields(parts);
    JoinSix(parts);
    assert TimeName(Stamp(2024, 3, 7, 9, 5, 1)) == Prefix + "2024_3_7_9_5_1" + Suffix;
    WrapExample("2024_3_7_9_5_1");
  }

  lemma WrapExample(middle: string)
    requires middle == "2024_3_7_9_5_1"
    ensures Prefix + middle + Suffix == "record_2024_3_7_9_5_1.mp4"
  {
    assert Prefix + middle == "record_2024_3_7_9_5_1";
  }
}
