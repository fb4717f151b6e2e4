/** Clock strings such as "01:02:03" and "02:03", the output format of every
    time formatter in the system, and a reader for them. The reader is the
    independent partner against which the formatters are proved: reading a
    formatted time gives back the number of seconds. */
module Clock {
  import opened Base

  /** `s.split(sep)`. */
  function Split(s: string, sep: char): (r: seq<string>)
    ensures |r| >= 1
  {
    if s == [] then [""]
    else
      var rest := Split(s[1..], sep);
      if s[0] == sep then [""] + rest else [[s[0]] + rest[0]] + rest[1..]
  }

  lemma {:induction false} SplitWithoutSep(a: string, sep: char)
    requires sep !in a
    ensures Split(a, sep) == [a]
    decreases |a|
  {
    if a != [] {
      SplitWithoutSep(a[1..], sep);
      assert [a[0]] + a[1..] == a;
    }
  }

  lemma {:induction false} SplitAtSep(a: string, b: string, sep: char)
    requires sep !in a
    ensures Split(a + [sep] + b, sep) == [a] + Split(b, sep)
    decreases |a|
  {
    var s := a + [sep] + b;
    if a == [] {
      assert s[1..] == b;
    } else {
      assert s[1..] == a[1..] + [sep] + b;
      SplitAtSep(a[1..], b, sep);
      assert [a[0]] + a[1..] == a;
    }
  }

  /** A field of a clock string: two or more decimal digits. */
  predicate Field(f: string)
  {
    |f| >= 2 && AllDigits(f, 10)
  }

  /** The number of seconds a clock string "H:MM:SS" or "MM:SS" denotes, minutes and
      seconds below sixty; None for anything else. */
  function ClockValue(s: string): Option<int>
  {
    var f := Split(s, ':');
    if |f| == 3 && Field(f[0]) && Field(f[1]) && Field(f[2])
       && FromBase(f[1], 10) < 60 && FromBase(f[2], 10) < 60
    then Some(FromBase(f[0], 10) * 3600 + FromBase(f[1], 10) * 60 + FromBase(f[2], 10))
    else if |f| == 2 && Field(f[0]) && Field(f[1])
       && FromBase(f[0], 10) < 60 && FromBase(f[1], 10) < 60
    then Some(FromBase(f[0], 10) * 60 + FromBase(f[1], 10))
    else None
  }

  /** A clock string as the formatters write it: minutes and seconds exactly two
      digits each, and hours, when shown, two digits or without a leading zero. */
  predicate Padded(s: string)
  {
    var f := Split(s, ':');
    |f| >= 2 && |f[|f| - 1]| == 2 && |f[|f| - 2]| == 2
    && (|f| == 3 ==> |f[0]| == 2 || (f[0] != [] && f[0][0] != '0'))
  }

  /** The number of fields of a clock string: 3 when it shows hours. */
  function FieldCount(s: string): nat
  {
    |Split(s, ':')|
  }

  /** `String(n).padStart(2, '0')`. */
  function Pad(n: nat): string
  {
    PadStart2(ToBase(n, 10))
  }

  lemma PadField(n: nat)
    ensures Field(Pad(n)) && FromBase(Pad(n), 10) == n && ':' !in Pad(n)
    ensures n < 100 ==> |Pad(n)| == 2
    ensures n >= 100 ==> Pad(n)[0] != '0'
  {
    Padded2Value(n);
    if n >= 100 {
      LeadingDigit(n);
    }
  }

  /** Hours, minutes and seconds joined by colons, each padded to two digits. */
  function HoursMinutesSeconds(h: nat, m: nat, s: nat): string
  {
    Pad(h) + ":" + Pad(m) + ":" + Pad(s)
  }

  /** Minutes and seconds joined by a colon, each padded to two digits. */
  function MinutesSeconds(m: nat, s: nat): string
  {
    Pad(m) + ":" + Pad(s)
  }

  /** Three colon-free fields joined by colons split back into those fields. */
  lemma SplitThree(a: string, b: string, c: string)
    requires ':' !in a && ':' !in b && ':' !in c
    ensures Split(a + ":" + b + ":" + c, ':') == [a, b, c]
  {
    assert a + ":" + b + ":" + c == a + [':'] + (b + [':'] + c);
    SplitAtSep(a, b + [':'] + c, ':');
    SplitTwo(b, c);
  }

  /** Two colon-free fields joined by a colon split back into those fields. */
  lemma SplitTwo(a: string, b: string)
    requires ':' !in a && ':' !in b
    ensures Split(a + ":" + b, ':') == [a, b]
  {
    assert a + ":" + b == a + [':'] + b;
    SplitAtSep(a, b, ':');
    SplitWithoutSep(b, ':');
  }

  lemma HoursMinutesSecondsValue(h: nat, m: nat, s: nat, t: nat)
    requires m < 60 && s < 60 && t == h * 3600 + m * 60 + s
    ensures ClockValue(HoursMinutesSeconds(h, m, s)) == Some(t)
    ensures FieldCount(HoursMinutesSeconds(h, m, s)) == 3
    ensures Padded(HoursMinutesSeconds(h, m, s))
  {
    PadField(h);
    PadField(m);
    PadField(s);
    SplitThree(Pad(h), Pad(m), Pad(s));
  }

  lemma MinutesSecondsValue(m: nat, s: nat, t: nat)
    requires m < 60 && s < 60 && t == m * 60 + s
    ensures ClockValue(MinutesSeconds(m, s)) == Some(t)
    ensures FieldCount(MinutesSeconds(m, s)) == 2
    ensures Padded(MinutesSeconds(m, s))
  {
    PadField(m);
    PadField(s);
    SplitTwo(Pad(m), Pad(s));
  }

  /** The remainder modulo sixty is determined by any quotient and remainder below sixty. */
  lemma Mod60(t: int, q: int, r: int)
    requires 0 <= r < 60 && t == q * 60 + r
    ensures t % 60 == r
  {
  }

  /** Splitting a number of seconds into hours, minutes below sixty and seconds below sixty. */
  lemma Decompose(t: nat)
    ensures (t % 3600) / 60 < 60 && t % 60 < 60
    ensures t == (t / 3600) * 3600 + ((t % 3600) / 60) * 60 + t % 60
    ensures t / 3600 > 0 <==> t >= 3600
  {
    var h, r := t / 3600, t % 3600;
    var m, s := r / 60, r % 60;
    assert r == m * 60 + s;
    assert m < 60;
    Mod60(t, h * 60 + m, s);
  }

  /** A number of seconds as "HH:MM:SS", the hours padded to at least two digits:
      it reads back as that number, shows three fields and starts with a digit. */
  function LongClock(t: nat): (r: string)
    ensures ClockValue(r) == Some(t) && FieldCount(r) == 3 && Padded(r)
    ensures |r| > 0 && r[0] != '-'
  {
    var h, m, s := t / 3600, (t % 3600) / 60, t % 60;
    Decompose(t);
    assert h * 3600 + m * 60 + s == t;
    HoursMinutesSecondsValue(h, m, s, t);
    PadField(h);
    var r := HoursMinutesSeconds(h, m, s);
    assert r[0] == Pad(h)[0];
    r
  }

  /** A number of seconds as "HH:MM:SS" when it reaches an hour and "MM:SS"
      otherwise: it reads back as that number and starts with a digit. */
  function ShortClock(t: nat): (r: string)
    ensures ClockValue(r) == Some(t) && Padded(r)
    ensures FieldCount(r) == if t >= 3600 then 3 else 2
    ensures |r| > 0 && r[0] != '-'
  {
    if t / 3600 > 0 then
      Decompose(t);
      LongClock(t)
    else
      var m, s := (t % 3600) / 60, t % 60;
      Decompose(t);
      assert m * 60 + s == t;
      MinutesSecondsValue(m, s, t);
      PadField(m);
      var r := MinutesSeconds(m, s);
      assert r[0] == Pad(m)[0];
      r
  }
}
