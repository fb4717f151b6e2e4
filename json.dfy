/** JSON values as the JavaScript components see them after `JSON.parse`, and the
    coercions the components apply to them: truthiness, `typeof`, strict equality,
    `Number(v) || 0` and `parseFloat(v)`. JSON numbers are integers here. */
module Json {
  import opened Base

  /** The colour settings of the current display configuration. */
  datatype ColourName =
    | FontColorEpisode | FontColorSeries | FontColorTime | FontColorProgress
    | ProgressBarFilledColor | ProgressBarBackgroundColor | ProgressDotColor
    | PillActiveBackgroundColor | PillActiveFontColor
    | PillInactiveBackgroundColor | PillInactiveFontColor

  /** A property name. Every name some component reads or writes is a constructor
      of its own (written as in the source, `currentPlatformIndex` as
      `CurrentPlatformIndex`); `Other(s)` is any other name. */
  datatype Key =
    // display configuration
    | Port | Platforms | CurrentPlatformIndex | BackgroundColor | ServerIPs
    | FontSizeEpisode | FontSizeSeries | FontSizeMain | FontSizeSub
    | Colour(colour: ColourName)
    // messages between the components
    | Type | Data | Config | Message
    // video snapshots
    | Series | Episode | CurrentSeconds | DurationSeconds | Source
    | Main | Sub | Current | Duration
    | Other(name: string)

  datatype JVal =
    | JNull
    | JBool(b: bool)
    | JNum(n: int)
    | JStr(s: string)
    | JArr(items: seq<JVal>)
    | JObj(fields: map<Key, JVal>)

  /** A JavaScript object used as a dictionary (a configuration, a message). */
  type Obj = map<Key, JVal>

  /** JavaScript `ToBoolean`: null, false, 0 and "" are falsy; arrays and objects are truthy. */
  predicate Truthy(v: JVal)
  {
    match v
    case JNull => false
    case JBool(b) => b
    case JNum(n) => n != 0
    case JStr(s) => s != ""
    case JArr(_) => true
    case JObj(_) => true
  }

  /** `o[k]` read as a possibly-undefined value. */
  function Get(o: Obj, k: Key): Option<JVal>
  {
    if k in o then Some(o[k]) else None
  }

  /** Two objects that agree on every property are equal. */
  lemma SameProperties(a: Obj, b: Obj)
    requires forall k :: Get(a, k) == Get(b, k)
    ensures a == b
  {
    forall k ensures k in a <==> k in b {
      assert Get(a, k) == Get(b, k);
    }
    forall k | k in a ensures a[k] == b[k] {
      assert Get(a, k) == Get(b, k);
    }
  }

  /** Storing a field's own value back changes nothing. */
  lemma UpdateSame(m: Obj, k: Key)
    requires k in m
    ensures m[k := m[k]] == m
  {
  }

  /** A present and truthy property (`o.k` in a boolean context); undefined is falsy. */
  predicate HasTruthy(o: Obj, k: Key)
  {
    k in o && Truthy(o[k])
  }

  /** `typeof o[k] === 'string'`. */
  predicate IsStr(o: Obj, k: Key) { k in o && o[k].JStr? }

  /** `typeof o[k] === 'number'`. */
  predicate IsNum(o: Obj, k: Key) { k in o && o[k].JNum? }

  /** `Array.isArray(o[k])`. */
  predicate IsArr(o: Obj, k: Key) { k in o && o[k].JArr? }

  /** `a === b`: values of the primitive types compare by value; two arrays or objects
      that came out of different `JSON.parse` calls are never identical. */
  predicate StrictEquals(a: JVal, b: JVal)
  {
    !a.JArr? && !a.JObj? && a == b
  }

  /** The key an array element or a string's character is spread under: "0", "1", … */
  function ElementKey(i: nat): Key
  {
    Other(ToBase(i, 10))
  }

  lemma ElementKeyInjective()
    ensures forall i: nat, j: nat {:trigger ElementKey(i), ElementKey(j)} :: ElementKey(i) == ElementKey(j) ==> i == j
  {
    forall i: nat, j: nat | ElementKey(i) == ElementKey(j) ensures i == j {
      FromToBase(i, 10);
      FromToBase(j, 10);
    }
  }

  /** The properties `{...v}` contributes to an object spread: an object's own fields,
      an array's elements and a string's characters under their index keys; null,
      booleans and numbers contribute none. */
  function SpreadOf(v: JVal): (r: Obj)
    ensures v.JObj? ==> r == v.fields
    ensures v.JNull? || v.JBool? || v.JNum? ==> r == map[]
  {
    match v
    case JObj(f) => f
    case JArr(items) =>
      ElementKeyInjective();
      map i: nat | i < |items| :: ElementKey(i) := items[i]
    case JStr(s) =>
      ElementKeyInjective();
      map i: nat | i < |s| :: ElementKey(i) := JStr([s[i]])
    case _ => map[]
  }

  /** `v.k` for a value read as a possibly-undefined property: only objects have
      named properties here. */
  function Prop(v: JVal, k: Key): Option<JVal>
  {
    if v.JObj? then Get(v.fields, k) else None
  }

  /** `v || d` for a possibly-undefined value. */
  function TruthyOr(v: Option<JVal>, d: JVal): (r: JVal)
    ensures v.Some? && Truthy(v.value) ==> r == v.value
    ensures v.None? || !Truthy(v.value) ==> r == d
  {
    if v.Some? && Truthy(v.value) then v.value else d
  }

  /** `parseFloat(o.k)` for an object read as a possibly-undefined property;
      undefined is NaN. */
  function TimeOf(o: JVal, k: Key): Option<int>
  {
    match Prop(o, k)
    case Some(v) => ParseFloat(v)
    case None => None
  }

  /** The value of an optionally signed string of decimal digits, None otherwise. */
  function SignedDecimal(t: string): Option<int>
  {
    if |t| >= 2 && (t[0] == '-' || t[0] == '+') && AllDigits(t[1..], 10) then
      var m: int := FromBase(t[1..], 10);
      Some(if t[0] == '-' then -m else m)
    else if |t| >= 1 && AllDigits(t, 10) then Some(FromBase(t, 10))
    else None
  }

  /** `Number(s)` for a string: the empty (or all-white-space) string is 0,
      a signed decimal integer is its value, anything else is NaN (None). */
  function StringToNumber(s: string): Option<int>
  {
    var t := Trim(s);
    if t == "" then Some(0) else SignedDecimal(t)
  }

  /** `Number(v)`, None standing for NaN; undefined is NaN. */
  function ToNumber(v: Option<JVal>): Option<int>
  {
    match v
    case None => None
    case Some(JNull) => Some(0)
    case Some(JBool(b)) => Some(if b then 1 else 0)
    case Some(JNum(n)) => Some(n)
    case Some(JStr(s)) => StringToNumber(s)
    case Some(JArr(items)) =>
      if |items| == 0 then Some(0)
      else if |items| == 1 then
        match items[0]
        case JNull => Some(0)
        case JNum(n) => Some(n)
        case JStr(s) => StringToNumber(s)
        case _ => None
      else None
    case Some(JObj(_)) => None
  }

  /** `Number(v) || 0`: NaN becomes 0, every other number is kept. */
  function NumberOrZero(v: Option<JVal>): (r: int)
    ensures ToNumber(v).Some? ==> r == ToNumber(v).value
    ensures ToNumber(v).None? ==> r == 0
  {
    match ToNumber(v)
    case None => 0
    case Some(n) => n
  }

  /** The longest prefix of `s` made of decimal digits. */
  function DecimalPrefix(s: string): (p: string)
    ensures |p| <= |s| && p == s[..|p|] && AllDigits(p, 10)
    ensures |p| < |s| ==> !IsDecimalDigit(s[|p|])
  {
    if s != [] && IsDecimalDigit(s[0]) then [s[0]] + DecimalPrefix(s[1..]) else []
  }

  /** A digit string followed by something that is not a digit is its own digit prefix. */
  lemma {:induction false} DecimalPrefixOf(d: string, rest: string)
    requires AllDigits(d, 10) && (rest == [] || !IsDecimalDigit(rest[0]))
    ensures DecimalPrefix(d + rest) == d
    decreases |d|
  {
    if d != [] {
      assert (d + rest)[1..] == d[1..] + rest;
      assert IsDecimalDigit(d[0]) by { assert IsDigitIn(d[0], 10); }
      DecimalPrefixOf(d[1..], rest);
      assert [d[0]] + d[1..] == d;
    } else {
      assert d + rest == rest;
    }
  }

  /** `parseFloat(v)` truncated to its integer part, None standing for NaN: leading
      white space and an optional sign, then a decimal digit, or a '.' and a digit. */
  function ParseFloat(v: JVal): Option<int>
  {
    match v
    case JNum(n) => Some(n)
    case JStr(s) => LeadingNumber(TrimStart(s))
    case _ => None
  }

  /** `parseInt(s, 10)`, None standing for NaN: leading white space and an optional
      sign, then at least one decimal digit. */
  function ParseInt(s: string): Option<int>
  {
    LeadingInteger(TrimStart(s))
  }

  /** The integer part of the number at the start of `t`: a number that begins
      with its '.' has integer part 0. */
  function LeadingNumber(t: string): Option<int>
  {
    if StartsFraction(t) then Some(0) else LeadingInteger(t)
  }

  /** A '.' and a decimal digit, alone or after a sign, at the start of `t`. */
  predicate StartsFraction(t: string)
  {
    (|t| >= 2 && t[0] == '.' && IsDecimalDigit(t[1]))
    || (|t| >= 3 && (t[0] == '-' || t[0] == '+') && t[1] == '.' && IsDecimalDigit(t[2]))
  }

  /** The integer an optional sign and a run of decimal digits at the start of `t`
      denote, None when no digit follows the sign. */
  function LeadingInteger(t: string): Option<int>
  {
    if t != [] && (t[0] == '-' || t[0] == '+') then
      var p := DecimalPrefix(t[1..]);
      var m: int := if p == [] then 0 else FromBase(p, 10);
      if p == [] then None else Some(if t[0] == '-' then -m else m)
    else
      var p := DecimalPrefix(t);
      if p == [] then None else Some(FromBase(p, 10))
  }

  /** The start of a string `parseFloat` and `parseInt` read a number from: a
      decimal digit, or a sign followed by one. */
  predicate StartsInteger(t: string)
  {
    (t != [] && IsDecimalDigit(t[0])) || (|t| >= 2 && (t[0] == '-' || t[0] == '+') && IsDecimalDigit(t[1]))
  }

  /** `parseFloat` of a string is NaN exactly when, after the leading white space,
      neither a digit nor a '.' and a digit starts it, alone or after a sign. */
  lemma ParseFloatNaN(s: string)
    ensures ParseFloat(JStr(s)).None? <==> !StartsInteger(TrimStart(s)) && !StartsFraction(TrimStart(s))
  {
    LeadingIntegerNone(TrimStart(s));
  }

  /** `parseInt` of a string is NaN exactly when, after the leading white space,
      no digit starts it, alone or after a sign. */
  lemma ParseIntNaN(s: string)
    ensures ParseInt(s).None? <==> !StartsInteger(TrimStart(s))
  {
    LeadingIntegerNone(TrimStart(s));
  }

  /** A number written from its '.', such as ".5" or "-.5", has integer part 0,
      where `parseInt` finds no digit. */
  lemma ParseFloatLeadingPoint(ws: string, t: string)
    requires forall i :: 0 <= i < |ws| ==> IsJsSpace(ws[i])
    requires StartsFraction(t)
    ensures ParseFloat(JStr(ws + t)) == Some(0)
    ensures ParseInt(ws + t).None?
  {
    assert !IsJsSpace(t[0]);
    TrimStartAfterSpaces(ws, t);
    LeadingIntegerNone(t);
  }

  /** `LeadingInteger` finds nothing exactly when no integer starts the string. */
  lemma LeadingIntegerNone(t: string)
    ensures LeadingInteger(t).None? <==> !StartsInteger(t)
  {
    if t != [] && (t[0] == '-' || t[0] == '+') {
      DecimalPrefixEmpty(t[1..]);
      assert LeadingInteger(t).None? <==> DecimalPrefix(t[1..]) == [];
      if |t| >= 2 {
        assert t[1..][0] == t[1];
      }
    } else {
      DecimalPrefixEmpty(t);
      assert LeadingInteger(t).None? <==> DecimalPrefix(t) == [];
    }
  }

  /** No digit prefix exactly when the string does not start with a digit. */
  lemma DecimalPrefixEmpty(x: string)
    ensures DecimalPrefix(x) == [] <==> !(x != [] && IsDecimalDigit(x[0]))
  {
  }

  lemma DigitIsNotSpace(c: char)
    requires IsDigitIn(c, 10)
    ensures IsDecimalDigit(c) && !IsJsSpace(c) && c != '-' && c != '+'
  {
  }

  /** `parseInt` skips the leading white space. */
  lemma ParseIntAfterSpaces(ws: string, t: string)
    requires forall i :: 0 <= i < |ws| ==> IsJsSpace(ws[i])
    requires t != [] && !IsJsSpace(t[0])
    ensures ParseInt(ws + t) == LeadingInteger(t)
  {
    TrimStartAfterSpaces(ws, t);
  }

  /** The two shapes `LeadingInteger` reads: digits, and a minus sign before digits. */
  lemma LeadingIntegerUnsigned(t: string)
    requires t != [] && !(t[0] == '-' || t[0] == '+') && DecimalPrefix(t) != []
    ensures LeadingInteger(t) == Some(FromBase(DecimalPrefix(t), 10))
  {
  }

  lemma LeadingIntegerNegative(t: string)
    requires t != [] && t[0] == '-' && DecimalPrefix(t[1..]) != []
    ensures LeadingInteger(t) == Some(-(FromBase(DecimalPrefix(t[1..]), 10) as int))
  {
  }

  /** A digit string and then something that is not a digit. */
  lemma LeadingIntegerOfDigits(d: string, rest: string)
    requires d != [] && AllDigits(d, 10)
    requires rest == [] || !IsDecimalDigit(rest[0])
    ensures LeadingInteger(d + rest) == Some(FromBase(d, 10))
  {
    var t := d + rest;
    DigitIsNotSpace(d[0]);
    DecimalPrefixOf(d, rest);
    assert t[0] == d[0];
    LeadingIntegerUnsigned(t);
  }

  /** A minus sign, a digit string and then something that is not a digit. */
  lemma LeadingIntegerOfNegative(d: string, rest: string)
    requires d != [] && AllDigits(d, 10)
    requires rest == [] || !IsDecimalDigit(rest[0])
    ensures LeadingInteger("-" + (d + rest)) == Some(-(FromBase(d, 10) as int))
  {
    DecimalPrefixOf(d, rest);
    AfterSign(d + rest);
    LeadingIntegerNegativeOf("-" + (d + rest), d);
  }

  lemma LeadingIntegerNegativeOf(u: string, d: string)
    requires d != [] && AllDigits(d, 10)
    requires |u| >= 1 && u[0] == '-' && DecimalPrefix(u[1..]) == d
    ensures LeadingInteger(u) == Some(-(FromBase(d, 10) as int))
  {
    LeadingIntegerNegative(u);
  }

  /** A minus sign put before a string is its first character, and dropping it gives the string back. */
  lemma AfterSign(t: string)
    ensures |"-" + t| >= 1 && ("-" + t)[0] == '-' && ("-" + t)[1..] == t
  {
  }

  /** `parseInt` reads back a digit string after any white space and before
      anything that is not a digit. */
  lemma ParseIntReadsDigits(ws: string, d: string, rest: string)
    requires forall i :: 0 <= i < |ws| ==> IsJsSpace(ws[i])
    requires d != [] && AllDigits(d, 10)
    requires rest == [] || !IsDecimalDigit(rest[0])
    ensures ParseInt(ws + d + rest) == Some(FromBase(d, 10))
  {
    LeadingIntegerOfDigits(d, rest);
    DigitIsNotSpace(d[0]);
    assert ws + d + rest == ws + (d + rest);
    ParseIntAfterSpaces(ws, d + rest);
  }

  /** The same for a minus sign before the digit string. */
  lemma ParseIntReadsNegative(ws: string, d: string, rest: string)
    requires forall i :: 0 <= i < |ws| ==> IsJsSpace(ws[i])
    requires d != [] && AllDigits(d, 10)
    requires rest == [] || !IsDecimalDigit(rest[0])
    ensures ParseInt(ws + ("-" + d) + rest) == Some(-(FromBase(d, 10) as int))
  {
    var t := "-" + (d + rest);
    SignRegrouped(ws, d, rest);
    LeadingIntegerOfNegative(d, rest);
    AfterSign(d + rest);
    ParseIntAfterSpaces(ws, t);
  }

  /** A signed digit string between two strings, regrouped. */
  lemma SignRegrouped(ws: string, d: string, rest: string)
    ensures ws + ("-" + d) + rest == ws + ("-" + (d + rest))
  {
  }

  /** `parseInt` reads back an integer written in decimal after any white space
      and before anything that is not a digit. */
  lemma ParseIntReadsInteger(ws: string, n: int, rest: string)
    requires forall i :: 0 <= i < |ws| ==> IsJsSpace(ws[i])
    requires rest == [] || !IsDecimalDigit(rest[0])
    ensures ParseInt(ws + IntToString(n) + rest) == Some(n)
  {
    var m: nat := if n < 0 then -n else n;
    FromToBase(m, 10);
    if n < 0 {
      ParseIntReadsNegative(ws, ToBase(m, 10), rest);
    } else {
      ParseIntReadsDigits(ws, ToBase(m, 10), rest);
    }
  }

  /** `parseFloat` reads back an integer written in decimal after any white space
      and before anything that is not a digit, as `parseInt` does. */
  lemma ParseFloatReadsInteger(ws: string, n: int, rest: string)
    requires forall i :: 0 <= i < |ws| ==> IsJsSpace(ws[i])
    requires rest == [] || !IsDecimalDigit(rest[0])
    ensures ParseFloat(JStr(ws + IntToString(n) + rest)) == Some(n)
  {
    var s := ws + IntToString(n) + rest;
    ParseIntReadsInteger(ws, n, rest);
    LeadingIntegerNone(TrimStart(s));
  }

  /** The two shapes `SignedDecimal` reads: digits, and a minus sign before digits. */
  lemma SignedDecimalUnsigned(t: string)
    requires t != [] && AllDigits(t, 10) && !(t[0] == '-' || t[0] == '+')
    ensures SignedDecimal(t) == Some(FromBase(t, 10))
  {
  }

  lemma SignedDecimalNegative(t: string)
    requires |t| >= 2 && t[0] == '-' && AllDigits(t[1..], 10)
    ensures SignedDecimal(t) == Some(-(FromBase(t[1..], 10) as int))
  {
  }

  /** A string that neither starts nor ends with white space is its own `trim`. */
  lemma TrimNoSpace(s: string)
    requires s != [] && !IsJsSpace(s[0]) && !IsJsSpace(s[|s| - 1])
    ensures Trim(s) == s
  {
    assert TrimStart(s) == s;
  }

  /** `Number` of a digit string is its value. */
  lemma StringToNumberOfDigits(d: string)
    requires d != [] && AllDigits(d, 10)
    ensures StringToNumber(d) == Some(FromBase(d, 10))
  {
    DigitIsNotSpace(d[0]);
    DigitIsNotSpace(d[|d| - 1]);
    TrimNoSpace(d);
    SignedDecimalUnsigned(d);
  }

  /** `Number` of a minus sign before a digit string is the negated value. */
  lemma StringToNumberOfNegative(d: string)
    requires d != [] && AllDigits(d, 10)
    ensures StringToNumber("-" + d) == Some(-(FromBase(d, 10) as int))
  {
    DigitIsNotSpace(d[|d| - 1]);
    var u := "-" + d;
    assert u[0] == '-' && u[1..] == d && u[|u| - 1] == d[|d| - 1];
    TrimNoSpace(u);
    SignedDecimalNegative(u);
  }

  /** `Number` reads back an integer written in decimal, and reads white space as 0. */
  lemma ToNumberReadsInteger(n: int, ws: string)
    requires forall i :: 0 <= i < |ws| ==> IsJsSpace(ws[i])
    ensures ToNumber(Some(JStr(IntToString(n)))) == Some(n)
    ensures ToNumber(Some(JNum(n))) == Some(n)
    ensures ToNumber(Some(JStr(ws))) == Some(0)
  {
    var m: nat := if n < 0 then -n else n;
    var d := ToBase(m, 10);
    FromToBase(m, 10);
    if n < 0 {
      StringToNumberOfNegative(d);
      assert IntToString(n) == "-" + d;
      assert StringToNumber(IntToString(n)) == Some(n);
    } else {
      StringToNumberOfDigits(d);
      assert IntToString(n) == d;
    }
    WhiteSpaceIsZero(ws);
  }

  /** `Number` of white space is 0. */
  lemma WhiteSpaceIsZero(ws: string)
    requires forall i :: 0 <= i < |ws| ==> IsJsSpace(ws[i])
    ensures StringToNumber(ws) == Some(0)
  {
    TrimStartAfterSpaces(ws, "");
    assert ws + "" == ws;
  }
}
