/** The configuration page (obs-timer-server/public/js/config-page.js): the
    platform-list editor over `currentPlatforms` and `currentPlatformIndex`, the
    object the form is turned into before it is posted, and the colour conversions
    between "#rrggbb" and "rgb(...)"/"rgba(...)" strings. */
module ConfigPage {
  import opened Base
  import opened Json
  import opened ConfigRules
  import CurrentServer
  import LegacyServer

  // ---------------------------------------------------------------- colours

  datatype Rgb = Rgb(r: int, g: int, b: int)

  /** The alpha of a colour: 1, or the text the pattern matched (its `parseFloat`
      value is not modelled). */
  datatype Alpha = One | AlphaText(text: string)

  datatype HexAlpha = HexAlpha(hex: string, alpha: Alpha)

  /** `componentToHex`: `c.toString(16)`, with a "0" in front when it is one digit. */
  function ComponentToHex(c: nat): (h: string)
    ensures AllDigits(h, 16) && FromBase(h, 16) == c
    ensures c < 256 ==> |h| == 2
  {
    var d := ToBase(c, 16);
    FromToBase(c, 16);
    ByteDigits(c);
    if |d| == 1 then
      FromBaseLeadingZero(d, 16);
      "0" + d
    else d
  }

  /** A byte has at most two hexadecimal digits. */
  lemma ByteDigits(c: nat)
    ensures c < 256 ==> |ToBase(c, 16)| <= 2
  {
    if 16 <= c < 256 {
      assert ToBase(c, 16) == ToBase(c / 16, 16) + [DigitChar(c % 16)];
    }
  }

  /** `rgbToHex`: "#" and the three components, two hexadecimal digits each when
      they are below 256. */
  function RgbToHex(r: nat, g: nat, b: nat): (s: string)
    ensures |s| >= 7 && s[0] == '#' && AllDigits(s[1..], 16)
    ensures r < 256 && g < 256 && b < 256 ==>
      |s| == 7 && FromBase(s[1..3], 16) == r && FromBase(s[3..5], 16) == g && FromBase(s[5..7], 16) == b
  {
    var hr, hg, hb := ComponentToHex(r), ComponentToHex(g), ComponentToHex(b);
    HashThenDigits(hr, hg, hb);
    "#" + hr + hg + hb
  }

  /** '#' and three digit strings: the digits follow the '#', and with two digits
      each, every string sits at its own pair of positions. */
  lemma HashThenDigits(x: string, y: string, z: string)
    requires AllDigits(x, 16) && AllDigits(y, 16) && AllDigits(z, 16)
    ensures var s := "#" + x + y + z;
      s[0] == '#' && s[1..] == x + y + z && AllDigits(s[1..], 16)
      && (|x| == 2 && |y| == 2 && |z| == 2 ==> s[1..3] == x && s[3..5] == y && s[5..7] == z)
  {
    var s := "#" + x + y + z;
    assert s[1..] == x + y + z;
    forall i | 0 <= i < |s| - 1
      ensures IsDigitIn(s[1..][i], 16)
    {
      if i < |x| {
        assert s[1..][i] == x[i];
      } else if i < |x| + |y| {
        assert s[1..][i] == y[i - |x|];
      } else {
        assert s[1..][i] == z[i - |x| - |y|];
      }
    }
  }

  /** The longest prefix of `s` made of hexadecimal digits. */
  function HexPrefix(s: string): (p: string)
    ensures |p| <= |s| && p == s[..|p|] && AllDigits(p, 16)
    ensures |p| < |s| ==> !IsDigitIn(s[|p|], 16)
  {
    if s != [] && IsDigitIn(s[0], 16) then [s[0]] + HexPrefix(s[1..]) else []
  }

  /** `parseInt(s, 16)`, None standing for NaN: leading white space, an optional
      sign, an optional "0x", then at least one hexadecimal digit. */
  function ParseHex(s: string): Option<int>
  {
    var t := TrimStart(s);
    var neg := t != [] && t[0] == '-';
    var u := if t != [] && (t[0] == '-' || t[0] == '+') then t[1..] else t;
    var w := if |u| >= 2 && u[0] == '0' && (u[1] == 'x' || u[1] == 'X') then u[2..] else u;
    var p := HexPrefix(w);
    if p == [] then None
    else
      var m: int := FromBase(p, 16);
      Some(if neg then -m else m)
  }

  /** The 32-bit two's-complement value the bitwise operators work on; NaN is 0. */
  function ToInt32(v: Option<int>): (w: int)
    ensures -0x8000_0000 <= w < 0x8000_0000
    ensures v.Some? ==> (w - v.value) % 0x1_0000_0000 == 0
    ensures v.None? ==> w == 0
    ensures v.Some? && 0 <= v.value < 0x8000_0000 ==> w == v.value
  {
    if v.None? then 0
    else
      var m := v.value % 0x1_0000_0000;
      if m >= 0x8000_0000 then m - 0x1_0000_0000 else m
  }

  /** `hexToRgb`: the text after the first character read as a hexadecimal integer,
      then `(n >> 16) & 255`, `(n >> 8) & 255` and `n & 255`. Every component is a
      byte, whatever the input. */
  function HexToRgb(hex: string): (c: Rgb)
    ensures 0 <= c.r < 256 && 0 <= c.g < 256 && 0 <= c.b < 256
  {
    var n := ToInt32(ParseHex(if hex == [] then [] else hex[1..]));
    // an arithmetic shift right is a floor division; `& 255` keeps the low byte
    Rgb((n / 0x1_0000) % 256, (n / 0x100) % 256, n % 256)
  }

  /** The value of two hexadecimal digits appended to a digit string. */
  lemma FromBaseAppend2(a: string, d: string)
    requires AllDigits(a, 16) && AllDigits(d, 16) && |d| == 2
    ensures AllDigits(a + d, 16) && FromBase(a + d, 16) == FromBase(a, 16) * 256 + FromBase(d, 16)
  {
    var s := a + d;
    assert AllDigits(s, 16) by {
      forall i | 0 <= i < |s| ensures IsDigitIn(s[i], 16) {
        if i >= |a| { assert s[i] == d[i - |a|]; }
      }
    }
    var x, y := DigitOf(d[0]).value, DigitOf(d[1]).value;
    var a0 := a + [d[0]];
    assert s[..|s| - 1] == a0 && s[|s| - 1] == d[1];
    assert a0[..|a0| - 1] == a && a0[|a0| - 1] == d[0];
    assert AllDigits(a0, 16) by {
      forall i | 0 <= i < |a0| ensures IsDigitIn(a0[i], 16) {
        assert a0[i] == s[i];
      }
    }
    assert FromBase(a0, 16) == FromBase(a, 16) * 16 + x;
    assert FromBase(s, 16) == FromBase(a0, 16) * 16 + y;
    assert d[..1] == [d[0]] && [d[0]][..0] == [];
    assert FromBase([d[0]], 16) == x;
    assert FromBase(d, 16) == x * 16 + y;
    assert (FromBase(a, 16) * 16 + x) * 16 == FromBase(a, 16) * 256 + x * 16;
  }

  /** The three bytes of a 24-bit number. */
  lemma Bytes(r: nat, g: nat, b: nat, v: int)
    requires r < 256 && g < 256 && b < 256 && v == (r * 256 + g) * 256 + b
    ensures (v / 0x1_0000) % 256 == r && (v / 0x100) % 256 == g && v % 256 == b
  {
    var low := g * 256 + b;
    assert v == r * 0x1_0000 + low && 0 <= low < 0x1_0000;
    assert v / 0x1_0000 == r;
    assert v == (r * 256 + g) * 0x100 + b;
    assert v / 0x100 == r * 256 + g;
  }

  /** A hexadecimal digit string is its own hexadecimal prefix. */
  lemma {:induction false} HexPrefixAll(s: string)
    requires AllDigits(s, 16)
    ensures HexPrefix(s) == s
    decreases |s|
  {
    if s != [] {
      HexPrefixAll(s[1..]);
      assert [s[0]] + s[1..] == s;
    }
  }

  /** A hexadecimal digit is neither white space, a sign nor an "x". */
  lemma HexDigitShape(c: char)
    requires IsDigitIn(c, 16)
    ensures !IsJsSpace(c) && c != '-' && c != '+' && c != 'x' && c != 'X'
  {
  }

  /** `parseInt` of at least two hexadecimal digits is their value: no white space,
      sign or "0x" can be in front. */
  lemma ParseHexDigits(s: string)
    requires |s| >= 2 && AllDigits(s, 16)
    ensures ParseHex(s) == Some(FromBase(s, 16))
  {
    assert IsDigitIn(s[0], 16) && IsDigitIn(s[1], 16);
    HexDigitShape(s[0]);
    HexDigitShape(s[1]);
    assert TrimStart(s) == s;
    HexPrefixAll(s);
  }

  /** `hexToRgb` inverts `rgbToHex` on bytes. */
  lemma HexRoundTrip(r: nat, g: nat, b: nat)
    requires r < 256 && g < 256 && b < 256
    ensures HexToRgb(RgbToHex(r, g, b)) == Rgb(r, g, b)
  {
    var hr, hg, hb := ComponentToHex(r), ComponentToHex(g), ComponentToHex(b);
    var body := hr + hg + hb;
    assert RgbToHex(r, g, b)[1..] == body;
    FromBaseAppend2(hr, hg);
    FromBaseAppend2(hr + hg, hb);
    var v := FromBase(body, 16);
    assert v == (r * 256 + g) * 256 + b;
    ParseHexDigits(body);
    assert ToInt32(ParseHex(body)) == v;
    Bytes(r, g, b, v);
  }

  /** The length of the run of white space at the start of `s`. */
  function SpaceRun(s: string): (n: nat)
    ensures n <= |s| && s[n..] == TrimStart(s)
  {
    |s| - |TrimStart(s)|
  }

  /** The longest prefix of decimal digits and dots, `[\d\.]+` taken greedily. */
  function AlphaPrefix(s: string): (p: string)
    ensures |p| <= |s| && p == s[..|p|]
    ensures |p| < |s| ==> !(IsDecimalDigit(s[|p|]) || s[|p|] == '.')
  {
    if s != [] && (IsDecimalDigit(s[0]) || s[0] == '.') then [s[0]] + AlphaPrefix(s[1..]) else []
  }

  /** A match of `rgba?\((\d+),\s*(\d+),\s*(\d+)(?:,\s*([\d\.]+))?\)` at the start
      of `t`: the three components and the alpha text, if any. Every element of
      the pattern is followed by a character it cannot take, so taking each run
      greedily is the only way to match. */
  datatype Groups = Groups(r: nat, g: nat, b: nat, alpha: Option<string>)

  function MatchRgbAt(t: string): Option<Groups>
  {
    if |t| >= 3 && t[..3] == "rgb" then
      var u := if |t| > 3 && t[3] == 'a' then t[4..] else t[3..];
      if u != [] && u[0] == '(' then MatchGroups(u[1..]) else None
    else None
  }

  /** A digit run and the separator after it: the run's value and the rest after
      the separator and the white space that follows it. */
  function Component(u: string, sep: char): Option<(nat, string)>
  {
    var d := DecimalPrefix(u);
    assert AllDigits(d, 10);
    if d == [] || |d| == |u| || u[|d|] != sep then None
    else Some((FromBase(d, 10), TrimStart(u[|d| + 1..])))
  }

  function MatchGroups(u: string): Option<Groups>
  {
    match Component(u, ',')
    case None => None
    case Some((r, u2)) =>
      match Component(u2, ',')
      case None => None
      case Some((g, u3)) =>
        match LastGroups(u3)
        case None => None
        case Some((b, alpha)) => Some(Groups(r, g, b, alpha))
  }

  /** The third component, then ")" or the alpha group and ")". */
  function LastGroups(u: string): Option<(nat, Option<string>)>
  {
    var d := DecimalPrefix(u);
    assert AllDigits(d, 10);
    var rest := u[|d|..];
    if d == [] then None
    else if rest != [] && rest[0] == ')' then Some((FromBase(d, 10), None))
    else if rest != [] && rest[0] == ',' then
      var t := TrimStart(rest[1..]);
      var a := AlphaPrefix(t);
      if a != [] && |a| < |t| && t[|a|] == ')' then Some((FromBase(d, 10), Some(a))) else None
    else None
  }

  /** `rgbaString.match(pattern)`: the leftmost match from position `i` on. */
  function FirstMatch(s: string, i: nat): Option<Groups>
    requires i <= |s|
    decreases |s| - i
  {
    match MatchRgbAt(s[i..])
    case Some(m) => Some(m)
    case None => if i == |s| then None else FirstMatch(s, i + 1)
  }

  /** `rgbaToHexAlpha`: black for a missing, empty or non-string value and for a
      string that does not match; a string starting with "#" is returned as it is;
      otherwise the matched components as hex and the matched alpha, or 1. */
  function RgbaToHexAlpha(v: Option<JVal>): (h: HexAlpha)
    ensures v.None? || !v.value.JStr? || v.value.s == "" ==> h == HexAlpha("#000000", One)
    ensures v.Some? && v.value.JStr? && |v.value.s| > 0 && v.value.s[0] == '#' ==> h == HexAlpha(v.value.s, One)
    ensures v.Some? && v.value.JStr? && v.value.s != "" && v.value.s[0] != '#' && FirstMatch(v.value.s, 0).None?
      ==> h == HexAlpha("#000000", One)
  {
    if v.None? || !Truthy(v.value) || !v.value.JStr? then HexAlpha("#000000", One)
    else
      var s := v.value.s;
      if |s| > 0 && s[0] == '#' then HexAlpha(s, One)
      else
        match FirstMatch(s, 0)
        case None => HexAlpha("#000000", One)
        case Some(m) => HexAlpha(RgbToHex(m.r, m.g, m.b), if m.alpha.None? then One else AlphaText(m.alpha.value))
  }

  /** `match` finds nothing exactly when the pattern matches at no position. */
  lemma {:induction false} FirstMatchNone(s: string, i: nat)
    requires i <= |s|
    ensures FirstMatch(s, i).None? <==> forall j :: i <= j <= |s| ==> MatchRgbAt(s[j..]).None?
    decreases |s| - i
  {
    if MatchRgbAt(s[i..]).Some? {
      assert FirstMatch(s, i).Some?;
    } else if i == |s| {
      assert FirstMatch(s, i).None?;
    } else {
      assert FirstMatch(s, i) == FirstMatch(s, i + 1);
      FirstMatchNone(s, i + 1);
    }
  }

  /** A colour name the pattern cannot match, such as "red", becomes black with alpha 1. */
  lemma NamedColourIsBlack()
    ensures RgbaToHexAlpha(Some(JStr("red"))) == HexAlpha("#000000", One)
  {
    var s := "red";
    assert s[3..] == [] && s[2..] == "d" && s[1..] == "ed";
    assert MatchRgbAt(s[3..]).None? && MatchRgbAt(s[2..]).None? && MatchRgbAt(s[1..]).None?;
    assert s[0..] == s && MatchRgbAt(s).None?;
    assert FirstMatch(s, 0).None?;
  }

  /** "rgba(r,g,b,alpha)" with decimal components, the form every colour default
      is written in. */
  function RgbaText(r: nat, g: nat, b: nat, alpha: string): string
  {
    "rgba(" + ToBase(r, 10) + "," + ToBase(g, 10) + "," + ToBase(b, 10) + "," + alpha + ")"
  }

  /** A run of digits and dots followed by something else is its own alpha prefix. */
  lemma {:induction false} AlphaPrefixOf(a: string, rest: string)
    requires forall i :: 0 <= i < |a| ==> IsDecimalDigit(a[i]) || a[i] == '.'
    requires rest == [] || !(IsDecimalDigit(rest[0]) || rest[0] == '.')
    ensures AlphaPrefix(a + rest) == a
    decreases |a|
  {
    if a != [] {
      assert (a + rest)[1..] == a[1..] + rest;
      AlphaPrefixOf(a[1..], rest);
      assert [a[0]] + a[1..] == a;
    } else {
      assert a + rest == rest;
    }
  }

  /** A string that does not start with white space is its own `trimStart`. */
  lemma TrimStartNoSpace(s: string)
    requires s != [] && !IsJsSpace(s[0])
    ensures TrimStart(s) == s
  {
  }

  /** One component and its separator read back. */
  lemma ComponentOf(n: nat, sep: char, rest: string)
    requires !IsDecimalDigit(sep) && rest != [] && IsDigitIn(rest[0], 10)
    ensures Component(ToBase(n, 10) + [sep] + rest, sep) == Some((n, rest))
  {
    var d := ToBase(n, 10);
    var u := d + [sep] + rest;
    assert u == d + ([sep] + rest);
    DecimalPrefixOf(d, [sep] + rest);
    assert u[|d|] == sep;
    assert u[|d| + 1..] == rest;
    DigitIsNotSpace(rest[0]);
    TrimStartNoSpace(rest);
    FromToBase(n, 10);
  }

  /** A colour written as "rgba(r,g,b,alpha)" is read back as its components and its
      alpha text, for any alpha group of digits and dots, ".5" included. */
  lemma RgbaTextMatches(r: nat, g: nat, b: nat, alpha: string)
    requires alpha != []
    requires forall i :: 0 <= i < |alpha| ==> IsDecimalDigit(alpha[i]) || alpha[i] == '.'
    ensures RgbaToHexAlpha(Some(JStr(RgbaText(r, g, b, alpha)))) == HexAlpha(RgbToHex(r, g, b), AlphaText(alpha))
  {
    var s := RgbaText(r, g, b, alpha);
    var tail1 := ToBase(r, 10) + [','] + (ToBase(g, 10) + [','] + (ToBase(b, 10) + "," + alpha + ")"));
    assert s == "rgba(" + tail1;
    GroupsOf(r, g, b, alpha);
    PrefixOf(tail1);
    assert s[0..] == s;
    assert FirstMatch(s, 0) == Some(Groups(r, g, b, Some(alpha)));
    MatchedColour(s, Groups(r, g, b, Some(alpha)));
  }

  /** After "rgba(" the groups are matched. */
  lemma PrefixOf(tail: string)
    ensures MatchRgbAt("rgba(" + tail) == MatchGroups(tail)
  {
    var s := "rgba(" + tail;
    assert s[..3] == "rgb" && s[3] == 'a' && s[4..] == "(" + tail;
    assert ("(" + tail)[1..] == tail;
  }

  /** The three components and the alpha read back. */
  lemma GroupsOf(r: nat, g: nat, b: nat, alpha: string)
    requires alpha != []
    requires forall i :: 0 <= i < |alpha| ==> IsDecimalDigit(alpha[i]) || alpha[i] == '.'
    ensures MatchGroups(ToBase(r, 10) + [','] + (ToBase(g, 10) + [','] + (ToBase(b, 10) + "," + alpha + ")")))
         == Some(Groups(r, g, b, Some(alpha)))
  {
    var R, G, B := ToBase(r, 10), ToBase(g, 10), ToBase(b, 10);
    var tail3 := B + "," + alpha + ")";
    var tail2 := G + [','] + tail3;
    LastGroupsOf(b, alpha);
    assert B[0] == tail3[0];
    ComponentOf(g, ',', tail3);
    assert G[0] == tail2[0];
    ComponentOf(r, ',', tail2);
  }

  /** A string that does not start with "#" and matches is converted from its groups. */
  lemma MatchedColour(s: string, m: Groups)
    requires s != [] && s[0] != '#' && FirstMatch(s, 0) == Some(m)
    ensures RgbaToHexAlpha(Some(JStr(s)))
         == HexAlpha(RgbToHex(m.r, m.g, m.b), if m.alpha.None? then One else AlphaText(m.alpha.value))
  {
    assert Truthy(JStr(s));
  }

  /** The third component and the alpha group read back. */
  lemma LastGroupsOf(b: nat, alpha: string)
    requires alpha != []
    requires forall i :: 0 <= i < |alpha| ==> IsDecimalDigit(alpha[i]) || alpha[i] == '.'
    ensures LastGroups(ToBase(b, 10) + "," + alpha + ")") == Some((b, Some(alpha)))
  {
    var B := ToBase(b, 10);
    var u := B + "," + alpha + ")";
    assert DecimalPrefix(u) == B by {
      assert u == B + ("," + alpha + ")");
      DecimalPrefixOf(B, "," + alpha + ")");
    }
    assert FromBase(B, 10) == b by { FromToBase(b, 10); }
    assert u[|B|] == ',' && u[|B| + 1..] == alpha + ")" by {
      assert u == B + ("," + alpha + ")");
    }
    AlphaGroupOf(alpha);
    LastGroupsFrom(u, B, alpha + ")", alpha);
  }

  /** `LastGroups` over a digit run, a comma, and an alpha group closed by ")". */
  lemma LastGroupsFrom(u: string, d: string, t: string, a: string)
    requires DecimalPrefix(u) == d && d != [] && |d| < |u| && u[|d|] == ','
    requires TrimStart(u[|d| + 1..]) == t && AlphaPrefix(t) == a
    requires a != [] && |a| < |t| && t[|a|] == ')'
    ensures LastGroups(u) == Some((FromBase(d, 10), Some(a)))
  {
    var rest := u[|d|..];
    assert rest[0] == ',' && rest[1..] == u[|d| + 1..];
  }

  /** The alpha group and the closing parenthesis read back. */
  lemma AlphaGroupOf(alpha: string)
    requires alpha != []
    requires forall i :: 0 <= i < |alpha| ==> IsDecimalDigit(alpha[i]) || alpha[i] == '.'
    ensures TrimStart(alpha + ")") == alpha + ")"
    ensures AlphaPrefix(alpha + ")") == alpha
    ensures (alpha + ")")[|alpha|] == ')'
  {
    assert !IsJsSpace(alpha[0]);
    TrimStartNoSpace(alpha + ")");
    AlphaPrefixOf(alpha, ")");
  }

  /** A colour written as "rgba(r,g,b,alpha)" with byte components goes to hex and
      back to the same components. */
  lemma RgbaTextToHexAndBack(r: nat, g: nat, b: nat, alpha: string)
    requires r < 256 && g < 256 && b < 256
    requires alpha != []
    requires forall i :: 0 <= i < |alpha| ==> IsDecimalDigit(alpha[i]) || alpha[i] == '.'
    ensures HexToRgb(RgbaToHexAlpha(Some(JStr(RgbaText(r, g, b, alpha)))).hex) == Rgb(r, g, b)
  {
    RgbaTextMatches(r, g, b, alpha);
    HexRoundTrip(r, g, b);
  }

  // ---------------------------------------------------------------- the form

  /** `parseInt(input.value, 10) || 0`: the integer the text starts with, 0 for NaN. */
  function FormNumber(text: string): (n: int)
    ensures ParseInt(text).Some? ==> n == ParseInt(text).value
    ensures ParseInt(text).None? ==> n == 0
  {
    match ParseInt(text)
    case None => 0
    case Some(v) => v
  }

  /** `parseInt(text, 10) || 0` reads a decimal integer after any white space and
      before anything that is not a digit, such as "px". */
  lemma FormNumberReads(ws: string, n: int, rest: string)
    requires forall i :: 0 <= i < |ws| ==> IsJsSpace(ws[i])
    requires rest == [] || !IsDecimalDigit(rest[0])
    ensures FormNumber(ws + IntToString(n) + rest) == n
  {
    ParseIntReadsInteger(ws, n, rest);
  }

  /** A field that does not start with a digit, alone or after a sign, gives 0:
      an empty field, "abc" and "-" all do. */
  lemma FormNumberNaN(text: string)
    requires !StartsInteger(TrimStart(text))
    ensures FormNumber(text) == 0
  {
    ParseIntNaN(text);
  }

  /** The platform names as a JSON array of strings. */
  function PlatformsValue(p: seq<string>): (v: JVal)
    ensures v.JArr? && |v.items| == |p|
    ensures forall i :: 0 <= i < |p| ==> v.items[i] == JStr(p[i])
  {
    JArr(seq(|p|, i requires 0 <= i < |p| => JStr(p[i])))
  }

  /** The index the form sends: clamped into the list, or 0 for an empty list. */
  function FormIndex(p: seq<string>, sel: int): (r: int)
    ensures |p| > 0 ==> 0 <= r < |p|
    ensures |p| == 0 ==> r == 0
    ensures 0 <= sel < |p| ==> r == sel
    ensures |p| > 0 && sel < 0 ==> r == 0
    ensures |p| > 0 && sel >= |p| ==> r == |p| - 1
  {
    if |p| > 0 then Max(0, Min(sel, |p| - 1)) else 0
  }

  /** The font sizes the form reads from its two number inputs. */
  function FormSizes(episode: string, series: string): Obj
  {
    map[FontSizeEpisode := JNum(FormNumber(episode)), FontSizeSeries := JNum(FormNumber(series))]
  }

  /** The value of every colour picker, each written under its key. */
  function Picked(pickers: map<Key, string>): Obj
  {
    map k | k in pickers :: JStr(pickers[k])
  }

  /** `getCurrentConfigFromForm`: the two font sizes, the colour pickers, the list
      copied and the clamped index. */
  function FormConfig(episode: string, series: string, pickers: map<Key, string>, p: seq<string>, sel: int): Obj
  {
    (FormSizes(episode, series) + Picked(pickers))
      [Platforms := PlatformsValue(p)][CurrentPlatformIndex := JNum(FormIndex(p, sel))]
  }

  /** A picker overrides a font size of the same key; every other key keeps its size. */
  lemma PickedAt(sizes: Obj, pickers: map<Key, string>, k: Key)
    ensures Get(sizes + Picked(pickers), k) == if k in pickers then Some(JStr(pickers[k])) else Get(sizes, k)
  {
  }

  /** The form's loop over its inputs, statement by statement: it builds `FormConfig`. */
  method ReadForm(episode: string, series: string, pickers: map<Key, string>, p: seq<string>, sel: int)
    returns (config: Obj)
    ensures config == FormConfig(episode, series, pickers, p, sel)
  {
    config := FormSizes(episode, series);
    ghost var sizes := config;
    var pending := pickers.Keys;
    while pending != {}
      invariant pending <= pickers.Keys
      invariant forall k :: Get(config, k) == if k in pickers && k !in pending then Some(JStr(pickers[k])) else Get(sizes, k)
      decreases |pending|
    {
      var key :| key in pending;
      config := config[key := JStr(pickers[key])];
      pending := pending - {key};
    }
    forall k ensures Get(config, k) == Get(sizes + Picked(pickers), k) {
      PickedAt(sizes, pickers, k);
    }
    SameProperties(config, sizes + Picked(pickers));
    config := config[Platforms := PlatformsValue(p)];
    if |p| > 0 {
      config := config[CurrentPlatformIndex := JNum(Max(0, Min(sel, |p| - 1)))];
    } else {
      config := config[CurrentPlatformIndex := JNum(0)];
    }
  }

  /** The list and the index of the posted form, as the servers see them after the
      merge. */
  lemma FormMerged(cur: Obj, f: Obj, p: seq<string>, sel: int, ips: seq<string>)
    requires Get(f, Platforms) == Some(PlatformsValue(p)) && Get(f, CurrentPlatformIndex) == Some(JNum(FormIndex(p, sel)))
    ensures var m := MergeUpdate(cur, RequestRest(JObj(f)).value, ips);
      && Get(m, Platforms) == Some(PlatformsValue(p))
      && Get(m, CurrentPlatformIndex) == Some(JNum(FormIndex(p, sel)))
      && (|p| > 0 <==> HasPlatforms(m))
      && (|p| > 0 ==> IndexInRange(m))
  {
    var rest := RequestRest(JObj(f)).value;
    assert Get(rest, Platforms) == Get(f, Platforms);
    assert Get(rest, CurrentPlatformIndex) == Get(f, CurrentPlatformIndex);
    MergeUpdateAt(cur, rest, ips, Platforms);
    MergeUpdateAt(cur, rest, ips, CurrentPlatformIndex);
  }

  /** The form's list and index survive the current server's POST validation: a
      non-empty list is kept with its index, and an empty one becomes `["Default"]`
      with index 0, which is also what the form sent. */
  lemma FormSurvivesPost(cur: Obj, episode: string, series: string, pickers: map<Key, string>,
                         p: seq<string>, sel: int, ips: seq<string>)
    ensures var rest := RequestRest(JObj(FormConfig(episode, series, pickers, p, sel))).value;
      var r := CurrentServer.PostMerged(cur, rest, ips);
      && Get(r, Platforms) == Some(if |p| > 0 then PlatformsValue(p) else JArr(DefaultPlatforms))
      && Get(r, CurrentPlatformIndex) == Some(JNum(FormIndex(p, sel)))
  {
    var f := FormConfig(episode, series, pickers, p, sel);
    var rest := RequestRest(JObj(f)).value;
    var m := MergeUpdate(cur, rest, ips);
    FormMerged(cur, f, p, sel, ips);
    assert CurrentServer.PostMerged(cur, rest, ips) == CurrentServer.PostChecked(m, rest);
    CurrentServer.PostCheckedAt(m, rest, Platforms);
    CurrentServer.PostCheckedAt(m, rest, CurrentPlatformIndex);
  }

  /** The same for the earlier server. */
  lemma FormSurvivesLegacyPost(cur: Obj, episode: string, series: string, pickers: map<Key, string>,
                               p: seq<string>, sel: int, ips: seq<string>)
    ensures var rest := RequestRest(JObj(FormConfig(episode, series, pickers, p, sel))).value;
      var r := LegacyServer.PostMerged(cur, rest, ips);
      && Get(r, Platforms) == Some(if |p| > 0 then PlatformsValue(p) else JArr(DefaultPlatforms))
      && Get(r, CurrentPlatformIndex) == Some(JNum(FormIndex(p, sel)))
  {
    var f := FormConfig(episode, series, pickers, p, sel);
    var rest := RequestRest(JObj(f)).value;
    FormMerged(cur, f, p, sel, ips);
    LegacyServer.PostRepairs(cur, rest, ips);
  }

  // ---------------------------------------------------------------- the platform list

  /** `s.splice(i, 1)` on the remaining list: a negative start counts from the end, a
      start past the end removes nothing. */
  function Splice1(s: seq<string>, i: int): (r: seq<string>)
    ensures 0 <= i < |s| ==> r == s[..i] + s[i + 1..]
    ensures i >= |s| ==> r == s
    ensures |r| == if -|s| <= i < |s| then |s| - 1 else if i < -|s| && |s| > 0 then |s| - 1 else |s|
  {
    var start := if i < 0 then Max(|s| + i, 0) else Min(i, |s|);
    if start < |s| then s[..start] + s[start + 1..] else s
  }

  /** The selection after deleting position `i`: 0 if it was the selected one, one
      less if it came before, the same otherwise. */
  function AdjustIndex(sel: int, i: int): int
  {
    if sel == i then 0 else if sel > i then sel - 1 else sel
  }

  /** Deleting a platform other than the selected one keeps the same name selected. */
  lemma DeleteKeepsSelectedName(p: seq<string>, i: int, sel: int)
    requires 0 <= i < |p| && 0 <= sel < |p| && sel != i
    ensures 0 <= AdjustIndex(sel, i) < |Splice1(p, i)|
    ensures Splice1(p, i)[AdjustIndex(sel, i)] == p[sel]
  {
    if sel > i {
      assert Splice1(p, i)[sel - 1] == p[i + 1..][sel - 1 - i];
    }
  }

  /** After deleting one of at least two platforms, the selection is in the list. */
  lemma DeleteKeepsSelectionInRange(p: seq<string>, i: int, sel: int)
    requires 2 <= |p| && 0 <= i < |p| && 0 <= sel < |p|
    ensures 0 <= AdjustIndex(sel, i) < |Splice1(p, i)|
  {
  }

  /** No name appears twice. */
  predicate Distinct(p: seq<string>)
  {
    forall i, j :: 0 <= i < j < |p| ==> p[i] != p[j]
  }

  /** Deleting keeps the names distinct. */
  lemma SpliceKeepsDistinct(p: seq<string>, i: int)
    requires Distinct(p)
    ensures Distinct(Splice1(p, i))
  {
    var start := if i < 0 then Max(|p| + i, 0) else Min(i, |p|);
    if start < |p| {
      assert Splice1(p, i) == p[..start] + p[start + 1..];
      RemoveKeepsDistinct(p, start);
    }
  }

  /** Removing one element keeps the others pairwise different. */
  lemma RemoveKeepsDistinct(p: seq<string>, k: nat)
    requires Distinct(p) && k < |p|
    ensures Distinct(p[..k] + p[k + 1..])
  {
    var r := p[..k] + p[k + 1..];
    forall a, b | 0 <= a < b < |r| ensures r[a] != r[b] {
      var a', b' := if a < k then a else a + 1, if b < k then b else b + 1;
      assert r[a] == p[a'] by { if a < k { assert r[a] == p[..k][a]; } else { assert r[a] == p[k + 1..][a - k]; } }
      assert r[b] == p[b'] by { if b < k { assert r[b] == p[..k][b]; } else { assert r[b] == p[k + 1..][b - k]; } }
    }
  }

  datatype AddOutcome = Added | EmptyName | Duplicate

  class PlatformEditor {
    var platforms: seq<string>
    var index: int
    /** The text of the new-platform input. */
    var draft: string

    constructor ()
      ensures platforms == [] && index == 0 && draft == ""
    {
      platforms, index, draft := [], 0, "";
    }

    /** The list part of `loadConfig`: the loaded list, or `["Default"]` without one;
        the loaded index, or 0 when it is missing or 0. Lists of anything but strings
        and indexes that are not numbers are not modelled. */
    method Load(loadedPlatforms: Option<seq<string>>, loadedIndex: Option<int>)
      modifies this`platforms, this`index
      ensures platforms == if loadedPlatforms.Some? then loadedPlatforms.value else ["Default"]
      ensures index == if loadedIndex.Some? then loadedIndex.value else 0
    {
      platforms := if loadedPlatforms.Some? then loadedPlatforms.value else ["Default"];
      index := if loadedIndex.Some? && loadedIndex.value != 0 then loadedIndex.value else 0;
    }

    /** `selectPlatform`. */
    method Select(i: int)
      modifies this`index
      ensures index == i
    {
      index := i;
    }

    /** `addPlatform`: the trimmed draft is appended when it is non-empty and not yet
        in the list, and the draft is cleared; the first platform of an empty list is
        selected. An empty or duplicate name changes nothing. Distinct names stay
        distinct. */
    method Add() returns (outcome: AddOutcome)
      modifies this`platforms, this`index, this`draft
      ensures var name := Trim(old(draft));
        && (outcome == EmptyName <==> name == [])
        && (outcome == Duplicate <==> name != [] && name in old(platforms))
        && (outcome == Added ==> platforms == old(platforms) + [name] && draft == ""
                                 && index == if old(platforms) == [] then 0 else old(index))
        && (outcome != Added ==> platforms == old(platforms) && index == old(index) && draft == old(draft))
      ensures Distinct(old(platforms)) ==> Distinct(platforms)
    {
      var name := Trim(draft);
      if name != [] && name !in platforms {
        platforms := platforms + [name];
        draft := "";
        if |platforms| == 1 {
          index := 0;
        }
        outcome := Added;
      } else if name == [] {
        outcome := EmptyName;
      } else {
        outcome := Duplicate;
      }
    }

    /** `deletePlatform`: refused while at most one platform is left, so the list
        never becomes empty; otherwise the position is spliced out and the
        selection adjusted. */
    method Delete(i: int) returns (refused: bool)
      modifies this`platforms, this`index
      ensures refused <==> |old(platforms)| <= 1
      ensures refused ==> platforms == old(platforms) && index == old(index)
      ensures !refused ==> platforms == Splice1(old(platforms), i) && index == AdjustIndex(old(index), i)
      ensures old(platforms) != [] ==> platforms != []
      ensures Distinct(old(platforms)) ==> Distinct(platforms)
    {
      if |platforms| <= 1 {
        return true;
      }
      if Distinct(platforms) {
        SpliceKeepsDistinct(platforms, i);
      }
      platforms := Splice1(platforms, i);
      if index == i {
        index := 0;
      } else if index > i {
        index := index - 1;
      }
      refused := false;
    }
  }
}
