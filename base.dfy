/** Small building blocks shared by every component: optional values,
    the parts of JavaScript number semantics the components rely on,
    positional digit strings (decimal and hexadecimal) and `String.prototype.trim`. */
module Base {

  datatype Option<T> = None | Some(value: T)

  /** A JavaScript number as far as the components distinguish them:
      an integer, NaN, or one of the two infinities (fractions are not modelled). */
  datatype Num = Fin(v: int) | NaN | PosInf | NegInf

  function Max(a: int, b: int): int { if a >= b then a else b }
  function Min(a: int, b: int): int { if a <= b then a else b }

  /** `Math.max(lo, Math.min(x, hi))`. */
  function Clamp(x: int, lo: int, hi: int): (r: int)
    requires lo <= hi
    ensures lo <= r <= hi
    ensures lo <= x <= hi ==> r == x
    ensures x < lo ==> r == lo
    ensures x > hi ==> r == hi
  {
    Max(lo, Min(x, hi))
  }

  /** JavaScript's `a % b`, whose sign follows the dividend (Dafny's `%` is Euclidean). */
  function JsRem(a: int, b: int): (r: int)
    requires b > 0
    ensures -b < r < b
    ensures a >= 0 ==> r == a % b
    ensures a < 0 ==> r <= 0 && r == -((-a) % b)
  {
    if a >= 0 then a % b else -((-a) % b)
  }

  // ---------------------------------------------------------------- digits

  predicate IsDecimalDigit(c: char) { '0' <= c <= '9' }

  /** A digit of the given base, upper- or lower-case letters for ten and above. */
  predicate IsDigitIn(c: char, base: nat)
    requires 2 <= base <= 16
  {
    DigitOf(c).Some? && DigitOf(c).value < base
  }

  function DigitOf(c: char): Option<nat>
  {
    if '0' <= c <= '9' then Some(c as int - '0' as int)
    else if 'a' <= c <= 'f' then Some(c as int - 'a' as int + 10)
    else if 'A' <= c <= 'F' then Some(c as int - 'A' as int + 10)
    else None
  }

  /** `Number.prototype.toString(base)` uses lower-case letters. */
  function DigitChar(d: nat): (c: char)
    requires d < 16
    ensures DigitOf(c) == Some(d)
  {
    "0123456789abcdef"[d]
  }

  predicate AllDigits(s: string, base: nat)
    requires 2 <= base <= 16
  {
    forall i :: 0 <= i < |s| ==> IsDigitIn(s[i], base)
  }

  /** The digits of `n` in `base`, most significant first, without leading zeros. */
  function ToBase(n: nat, base: nat): (s: string)
    requires 2 <= base <= 16
    ensures |s| >= 1 && AllDigits(s, base)
    ensures n < base <==> |s| == 1
    decreases n
  {
    if n < base then [DigitChar(n)] else ToBase(n / base, base) + [DigitChar(n % base)]
  }

  /** A positive number's decimal digits do not start with a zero. */
  lemma {:induction false} LeadingDigit(n: nat)
    requires n >= 1
    ensures ToBase(n, 10)[0] != '0'
    decreases n
  {
    if n >= 10 {
      DivDecreases(n, 10);
      LeadingDigit(n / 10);
      assert ToBase(n, 10)[0] == ToBase(n / 10, 10)[0];
    }
  }

  /** The value of a string of digits. */
  function FromBase(s: string, base: nat): nat
    requires 2 <= base <= 16
    requires AllDigits(s, base)
  {
    if s == [] then 0
    else FromBase(s[..|s| - 1], base) * base + DigitOf(s[|s| - 1]).value
  }

  lemma DivDecreases(n: nat, b: nat)
    requires 2 <= b && n >= 1
    ensures n / b < n
    ensures n == (n / b) * b + n % b
  {
    assert n == (n / b) * b + n % b;
    assert (n / b) * b >= (n / b) * 2;
  }

  lemma {:induction false} FromToBase(n: nat, base: nat)
    requires 2 <= base <= 16
    ensures FromBase(ToBase(n, base), base) == n
    decreases n
  {
    var s := ToBase(n, base);
    if n >= base {
      var q, d := n / base, n % base;
      var p := ToBase(q, base);
      DivDecreases(n, base);
      FromToBase(q, base);
      assert s == p + [DigitChar(d)];
      assert s[..|s| - 1] == p && s[|s| - 1] == DigitChar(d);
      assert FromBase(s, base) == FromBase(p, base) * base + DigitOf(s[|s| - 1]).value;
      assert FromBase(p, base) == q && DigitOf(s[|s| - 1]).value == d;
    } else {
      assert s == [DigitChar(n)] && s[..0] == [];
    }
  }

  /** Leading zeros do not change the value of a digit string. */
  lemma {:induction false} FromBaseLeadingZero(s: string, base: nat)
    requires 2 <= base <= 16
    requires AllDigits(s, base)
    ensures AllDigits("0" + s, base) && FromBase("0" + s, base) == FromBase(s, base)
    decreases |s|
  {
    var t := "0" + s;
    assert AllDigits(t, base) by {
      forall i | 0 <= i < |t| ensures IsDigitIn(t[i], base) {
        if i > 0 { assert t[i] == s[i - 1]; }
      }
    }
    if s != [] {
      var p := s[..|s| - 1];
      FromBaseLeadingZero(p, base);
      assert t[..|t| - 1] == "0" + p;
    }
  }

  /** `String(n)` for an integer. */
  function IntToString(n: int): (s: string)
    ensures |s| >= 1
    ensures n >= 0 ==> s == ToBase(n, 10)
    ensures n < 0 ==> s[0] == '-'
  {
    if n < 0 then "-" + ToBase(-n, 10) else ToBase(n, 10)
  }

  /** `s.padStart(2, '0')`. */
  function PadStart2(s: string): (r: string)
    ensures |r| == if |s| >= 2 then |s| else 2
    ensures |s| >= 2 ==> r == s
    ensures |s| == 1 ==> r == "0" + s
  {
    if |s| == 0 then "00" else if |s| == 1 then "0" + s else s
  }

  /** `String(n).padStart(2, '0')` for a natural number: its decimal digits,
      with a leading zero below ten; the value is unchanged. */
  lemma Padded2Value(n: nat)
    ensures |PadStart2(ToBase(n, 10))| == (if n < 100 then 2 else |ToBase(n, 10)|)
    ensures AllDigits(PadStart2(ToBase(n, 10)), 10)
    ensures FromBase(PadStart2(ToBase(n, 10)), 10) == n
  {
    FromToBase(n, 10);
    if n < 10 {
      FromBaseLeadingZero(ToBase(n, 10), 10);
    } else if n < 100 {
      assert ToBase(n, 10) == ToBase(n / 10, 10) + [DigitChar(n % 10)];
    } else {
      assert ToBase(n, 10) == ToBase(n / 10, 10) + [DigitChar(n % 10)];
      assert |ToBase(n / 10, 10)| >= 2;
    }
  }

  // ---------------------------------------------------------------- trim

  /** The white space and line terminators `String.prototype.trim` removes
      (the Unicode space separators beyond these few are not modelled). */
  predicate IsJsSpace(c: char)
  {
    c == ' ' || c == '\t' || c == '\n' || c == '\r' || c == '\U{000B}' || c == '\U{000C}'
    || c == '\U{00A0}' || c == '\U{FEFF}' || c == '\U{2028}' || c == '\U{2029}'
  }

  function TrimStart(s: string): (r: string)
    ensures |r| <= |s| && r == s[|s| - |r|..]
    ensures r == [] || !IsJsSpace(r[0])
    ensures forall i :: 0 <= i < |s| - |r| ==> IsJsSpace(s[i])
  {
    if s != [] && IsJsSpace(s[0]) then
      var r := TrimStart(s[1..]);
      assert forall i :: 1 <= i < |s| - |r| ==> s[i] == s[1..][i - 1];
      assert s[1..][|s| - 1 - |r|..] == s[|s| - |r|..];
      r
    else s
  }

  /** `trimStart` drops exactly the leading white space. */
  lemma {:induction false} TrimStartAfterSpaces(ws: string, t: string)
    requires forall i :: 0 <= i < |ws| ==> IsJsSpace(ws[i])
    requires t == [] || !IsJsSpace(t[0])
    ensures TrimStart(ws + t) == t
    decreases |ws|
  {
    if ws == [] {
      assert ws + t == t;
    } else {
      assert (ws + t)[0] == ws[0] && (ws + t)[1..] == ws[1..] + t;
      TrimStartAfterSpaces(ws[1..], t);
    }
  }

  function TrimEnd(s: string): (r: string)
    ensures |r| <= |s| && r == s[..|r|]
    ensures r == [] || !IsJsSpace(r[|r| - 1])
    ensures forall i :: |r| <= i < |s| ==> IsJsSpace(s[i])
  {
    if s != [] && IsJsSpace(s[|s| - 1]) then TrimEnd(s[..|s| - 1]) else s
  }

  /** `s.trim()`. */
  function Trim(s: string): string
  {
    TrimEnd(TrimStart(s))
  }

  /** A trimmed string neither starts nor ends with white space, trimming twice
      is trimming once, and only a string of white space trims to "". */
  lemma TrimProperties(s: string)
    ensures Trim(s) == [] || (!IsJsSpace(Trim(s)[0]) && !IsJsSpace(Trim(s)[|Trim(s)| - 1]))
    ensures Trim(Trim(s)) == Trim(s)
    ensures Trim(s) == [] <==> forall i :: 0 <= i < |s| ==> IsJsSpace(s[i])
  {
    var a := TrimStart(s);
    var t := TrimEnd(a);
    if t != [] {
      assert t[0] == a[0];
    }
    if Trim(s) == [] {
      forall i | 0 <= i < |s| ensures IsJsSpace(s[i]) {
        if i >= |s| - |a| {
          assert s[i] == a[i - (|s| - |a|)];
        }
      }
    } else {
      assert !IsJsSpace(s[|s| - |a|]);
    }
    assert TrimStart(t) == t;
    assert TrimEnd(t) == t;
  }
}
