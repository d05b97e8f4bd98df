/**
  Calling a type object on a value, `value_type(value)`, which is how the
  validator attempts a conversion. The model interprets `int()` and `bool()`
  on the built-in scalars and containers, `str()` on a str, an int, a bool and
  None, `type()` on anything, and `NoneType()`. Every other call is answered by
  a `ForeignConversion` the caller supplies: `float()`, a user class, `list()`,
  `tuple()`, `dict()`, `str()` of a float, a container, a type object or an
  instance, and any call whose outcome depends on a user object's methods.
  Python's default limit of 4300 digits on int/str conversion is kept.
 */
module Conversions {
  import opened Wrappers
  import opened PyValues

  /** The outcome of a conversion the model does not interpret: `None` when Python raises. */
  type ForeignConversion = (TypeTag, PyValue) -> Option<PyValue>

  /**
    The whitespace `int()` skips at both ends of an ASCII string: the space and
    `\t`, `\n`, `\v`, `\f`, `\r`. The separators `\x1c`-`\x1f`, for which
    `str.isspace()` also holds, are not skipped.
   */
  predicate IsSpace(c: char)
  {
    c == ' ' || 9 <= c as int <= 13
  }

  predicate IsDigit(c: char)
  {
    '0' <= c <= '9'
  }

  /** `s` without its leading whitespace. */
  function StripLeft(s: string): (t: string)
    ensures |t| <= |s| && t == s[|s| - |t|..]
    ensures t == [] || !IsSpace(t[0])
  {
    if s != [] && IsSpace(s[0]) then StripLeft(s[1..]) else s
  }

  /** `s` without its trailing whitespace. */
  function StripRight(s: string): (t: string)
    ensures |t| <= |s| && t == s[..|t|]
    ensures t == [] || !IsSpace(t[|t| - 1])
  {
    if s != [] && IsSpace(s[|s| - 1]) then StripRight(s[..|s| - 1]) else s
  }

  /** What `StripLeft` removes is whitespace only. */
  lemma {:induction false} StripLeftRemovesSpaces(s: string)
    ensures forall i :: 0 <= i < |s| - |StripLeft(s)| ==> IsSpace(s[i])
    decreases |s|
  {
    if s != [] && IsSpace(s[0]) {
      StripLeftRemovesSpaces(s[1..]);
      assert forall i :: 0 < i < |s| ==> s[i] == s[1..][i - 1];
    }
  }

  /** What `StripRight` removes is whitespace only. */
  lemma {:induction false} StripRightRemovesSpaces(s: string)
    ensures forall i :: |StripRight(s)| <= i < |s| ==> IsSpace(s[i])
    decreases |s|
  {
    if s != [] && IsSpace(s[|s| - 1]) {
      StripRightRemovesSpaces(s[..|s| - 1]);
    }
  }

  function Strip(s: string): string
  {
    StripRight(StripLeft(s))
  }

  /**
    The digit part of an `int()` literal: decimal digits, where a single `_` may
    stand between two digits (`1_000`, but not `_1`, `1_` or `1__0`). Read from
    the right: a digit, after a digit group, or after a group and one `_`.
   */
  predicate IsDigitGroup(d: string)
    decreases |d|
  {
    && |d| > 0
    && IsDigit(d[|d| - 1])
    && (|| |d| == 1
        || IsDigitGroup(d[..|d| - 1])
        || (d[|d| - 2] == '_' && IsDigitGroup(d[..|d| - 2])))
  }

  /** The same digit groups, described position by position. */
  predicate IsDigitGroupByPosition(d: string)
  {
    && |d| > 0
    && IsDigit(d[0])
    && IsDigit(d[|d| - 1])
    && (forall i :: 0 <= i < |d| ==> IsDigit(d[i]) || d[i] == '_')
    && (forall i :: 0 <= i < |d| - 1 ==> d[i] == '_' ==> d[i + 1] != '_')
  }

  /** The recursive reading of a digit group agrees with the positional one. */
  lemma {:induction false} DigitGroupPositions(d: string)
    ensures IsDigitGroup(d) <==> IsDigitGroupByPosition(d)
    decreases |d|
  {
    if |d| > 1 {
      var p := d[..|d| - 1];
      var q := d[..|d| - 2];
      DigitGroupPositions(p);
      DigitGroupPositions(q);
      assert forall i :: 0 <= i < |p| ==> p[i] == d[i];
      assert forall i :: 0 <= i < |q| ==> q[i] == d[i];
      if IsDigitGroupByPosition(d) {
        if !IsDigit(d[|d| - 2]) {
          assert d[|d| - 2] == '_';
          assert |d| - 2 != 0;
          assert IsDigit(d[|d| - 3]);
        }
      }
    }
  }

  /** The number the digits of `d` spell in base ten; underscores are skipped. */
  function DigitsValue(d: string): nat
    decreases |d|
  {
    if d == [] then 0
    else
      var last := d[|d| - 1];
      if last == '_' then DigitsValue(d[..|d| - 1])
      else if IsDigit(last) then 10 * DigitsValue(d[..|d| - 1]) + (last as int - '0' as int)
      else DigitsValue(d[..|d| - 1])
  }

  /**
    The most decimal digits `int()` reads and `str()` writes: CPython's default
    limit on integer string conversion (`sys.get_int_max_str_digits()`).
   */
  const MaxStrDigits: nat := 4300

  /** How many decimal digits `s` holds; a sign and underscores are not digits. */
  function DigitCount(s: string): nat
    decreases |s|
  {
    if s == [] then 0 else DigitCount(s[..|s| - 1]) + (if IsDigit(s[|s| - 1]) then 1 else 0)
  }

  /** A string of digits only has as many digits as characters. */
  lemma {:induction false} DigitCountOfDigits(d: string)
    requires forall i :: 0 <= i < |d| ==> IsDigit(d[i])
    ensures DigitCount(d) == |d|
    decreases |d|
  {
    if d != [] {
      DigitCountOfDigits(d[..|d| - 1]);
    }
  }

  /**
    An `int()` literal once its surrounding whitespace is gone: an optional sign,
    then a digit group of at most `MaxStrDigits` digits. `None` for anything else.
   */
  function ParseLiteral(t: string): Option<int>
  {
    if |t| > 0 && (t[0] == '+' || t[0] == '-') then
      if IsDigitGroup(t[1..]) && DigitCount(t[1..]) <= MaxStrDigits then
        var n: int := DigitsValue(t[1..]);
        Some(if t[0] == '-' then -n else n)
      else None
    else if IsDigitGroup(t) && DigitCount(t) <= MaxStrDigits then Some(DigitsValue(t))
    else None
  }

  /**
    `int(s)` for a string in base ten: `None` where Python raises `ValueError`,
    which it also does for a literal of more than `MaxStrDigits` digits.
   */
  function ParseInt(s: string): (r: Option<int>)
    ensures r.Some? ==> 0 < DigitCount(Strip(s)) <= MaxStrDigits
  {
    ParseLiteralDigits(Strip(s));
    ParseLiteral(Strip(s))
  }

  /**
    `int(s)` accepts exactly the strings that, once stripped, are an optional
    sign followed by digits with single underscores between them, of at most
    `MaxStrDigits` digits; the value is those digits in base ten, negated
    after a `-`.
   */
  lemma ParseIntLiteral(s: string)
    ensures var t := Strip(s);
            var signed := |t| > 0 && (t[0] == '+' || t[0] == '-');
            var d := if signed then t[1..] else t;
            && (ParseInt(s).Some? <==> IsDigitGroupByPosition(d) && DigitCount(d) <= MaxStrDigits)
            && (ParseInt(s).Some? ==>
                  ParseInt(s).value == if signed && t[0] == '-' then -(DigitsValue(d) as int) else DigitsValue(d))
  {
    var t := Strip(s);
    var d := if |t| > 0 && (t[0] == '+' || t[0] == '-') then t[1..] else t;
    DigitGroupPositions(d);
  }

  /** Surrounding spaces, tabs and newlines are skipped. */
  lemma SpacesAroundLiteral()
    ensures ParseInt(" \t4\n") == Some(4)
  {
    var s := " \t4\n";
    assert StripLeft(s[2..]) == "4\n";
    assert StripLeft(s) == "4\n";
    assert StripRight("4\n") == "4";
    assert "4"[..0] == "";
    assert DigitsValue("4") == 4;
  }

  /** A file separator is not whitespace to `int()`, so the literal is refused. */
  lemma SeparatorBeforeLiteral()
    ensures ParseInt("\U{1c}4") == None
  {
    var s := "\U{1c}4";
    assert StripLeft(s) == s;
    assert StripRight(s) == s;
    assert !IsDigitGroup(s[..1]);
  }

  /** A sign is not a digit: skipping it leaves the digit count unchanged. */
  lemma {:induction false} DigitCountAfterSign(t: string)
    requires |t| > 0 && !IsDigit(t[0])
    ensures DigitCount(t) == DigitCount(t[1..])
    decreases |t|
  {
    if |t| > 1 {
      var p := t[..|t| - 1];
      DigitCountAfterSign(p);
      assert p[1..] == t[1..][..|t[1..]| - 1];
    }
  }

  /** A literal that reads holds at least one digit and no more than the limit. */
  lemma ParseLiteralDigits(t: string)
    ensures ParseLiteral(t).Some? ==> 0 < DigitCount(t) <= MaxStrDigits
  {
    if |t| > 0 && (t[0] == '+' || t[0] == '-') {
      DigitCountAfterSign(t);
    }
  }

  /** `str(n)` for a natural number: its shortest decimal numeral. */
  function ShowNat(n: nat): string
    decreases n
  {
    var digit := ['0' + (n % 10) as char];
    if n < 10 then digit else ShowNat(n / 10) + digit
  }

  /** `str(i)` for an int: a `-` before the numeral of a negative number. */
  function ShowInt(i: int): string
  {
    if i < 0 then "-" + ShowNat(-i) else ShowNat(i)
  }

  /** The numeral is non-empty and made of digits only. */
  lemma {:induction false} ShowNatDigits(n: nat)
    ensures |ShowNat(n)| > 0 && forall i :: 0 <= i < |ShowNat(n)| ==> IsDigit(ShowNat(n)[i])
    decreases n
  {
    if n >= 10 {
      ShowNatDigits(n / 10);
    }
  }

  lemma {:induction false} DigitsValueOfShowNat(n: nat)
    ensures DigitsValue(ShowNat(n)) == n
    decreases n
  {
    var s := ShowNat(n);
    if n >= 10 {
      DigitsValueOfShowNat(n / 10);
      assert s[..|s| - 1] == ShowNat(n / 10);
    }
  }

  lemma StripOfNumeral(s: string)
    requires |s| > 0 && !IsSpace(s[0]) && !IsSpace(s[|s| - 1])
    ensures Strip(s) == s
  {
  }

  /** What `int()` needs to know of a run of digits: a digit group, all digits, nothing to strip. */
  lemma DigitRunShape(d: string)
    requires |d| > 0 && forall i :: 0 <= i < |d| ==> IsDigit(d[i])
    ensures IsDigitGroup(d) && DigitCount(d) == |d| && IsDigit(d[0])
    ensures ParseInt(d) == ParseLiteral(d) && ParseInt("-" + d) == ParseLiteral("-" + d)
  {
    assert IsDigitGroup(d) by {
      assert forall i :: 0 <= i < |d| - 1 ==> d[i] != '_';
      assert IsDigitGroupByPosition(d);
      DigitGroupPositions(d);
    }
    DigitCountOfDigits(d);
    DigitRunStrip(d);
  }

  /** A run of digits, signed or not, has no whitespace to strip: `int()` reads it as it stands. */
  lemma DigitRunStrip(d: string)
    requires |d| > 0 && IsDigit(d[0]) && IsDigit(d[|d| - 1])
    ensures ParseInt(d) == ParseLiteral(d) && ParseInt("-" + d) == ParseLiteral("-" + d)
  {
    StripOfNumeral(d);
    var minus := "-" + d;
    assert minus[|minus| - 1] == d[|d| - 1];
    StripOfNumeral(minus);
  }

  /** The numeral `str()` writes is such a run. */
  lemma NumeralShape(n: nat)
    ensures IsDigitGroup(ShowNat(n)) && DigitCount(ShowNat(n)) == |ShowNat(n)| && IsDigit(ShowNat(n)[0])
    ensures ParseInt(ShowNat(n)) == ParseLiteral(ShowNat(n))
    ensures ParseInt("-" + ShowNat(n)) == ParseLiteral("-" + ShowNat(n))
  {
    ShowNatDigits(n);
    DigitRunShape(ShowNat(n));
  }

  /** Without a sign, a literal is read as its digits. */
  lemma ParseLiteralUnsigned(d: string)
    requires |d| > 0 && IsDigit(d[0])
    ensures ParseLiteral(d) == if IsDigitGroup(d) && DigitCount(d) <= MaxStrDigits then Some(DigitsValue(d)) else None
  {
  }

  /** A `-` before a digit group negates it. */
  lemma ParseLiteralNegated(d: string)
    ensures ParseLiteral("-" + d) ==
              if IsDigitGroup(d) && DigitCount(d) <= MaxStrDigits then Some(-(DigitsValue(d) as int)) else None
  {
    assert ("-" + d)[1..] == d;
  }

  /** `abs(i)`: the number whose numeral `str(i)` writes. */
  function Magnitude(i: int): nat
  {
    if i < 0 then -i else i
  }

  /**
    `int(str(i)) == i`: the numeral Python prints for an int parses back to it
    when it is within the digit limit; past the limit `int()` refuses it.
   */
  lemma ParseShowInt(i: int)
    ensures |ShowNat(Magnitude(i))| <= MaxStrDigits ==> ParseInt(ShowInt(i)) == Some(i)
    ensures |ShowNat(Magnitude(i))| > MaxStrDigits ==> ParseInt(ShowInt(i)) == None
  {
    var n := Magnitude(i);
    var d := ShowNat(n);
    assert ShowInt(i) == if i < 0 then "-" + d else d;
    assert DigitsValue(d) == n by {
      DigitsValueOfShowNat(n);
    }
    NumeralShape(n);
    if i < 0 {
      ParseNegativeRun(d);
    } else {
      ParseUnsignedRun(d);
    }
  }

  /** A digit run with nothing to strip reads as its value within the limit, and raises past it. */
  lemma ParseUnsignedRun(d: string)
    requires |d| > 0 && IsDigit(d[0]) && IsDigitGroup(d) && DigitCount(d) == |d| && ParseInt(d) == ParseLiteral(d)
    ensures ParseInt(d) == if |d| > MaxStrDigits then None else Some(DigitsValue(d))
  {
    ParseLiteralUnsigned(d);
  }

  /** So does such a run after a `-`, for the negated value. */
  lemma ParseNegativeRun(d: string)
    requires IsDigitGroup(d) && DigitCount(d) == |d| && ParseInt("-" + d) == ParseLiteral("-" + d)
    ensures ParseInt("-" + d) == if |d| > MaxStrDigits then None else Some(-(DigitsValue(d) as int))
  {
    ParseLiteralNegated(d);
  }

  /** `bool(v)`, outside the cases that depend on a float or a user object. */
  function Truthy(v: PyValue): (b: bool)
    requires !v.VFloat? && !v.VObj?
    ensures !b <==> v in {VStr(""), VInt(0), VBool(false), VNone, VList([]), VTuple([]), VDict([])}
  {
    match v
    case VStr(s) => s != ""
    case VInt(i) => i != 0
    case VBool(b) => b
    case VNone => false
    case VList(items) => items != []
    case VTuple(items) => items != []
    case VDict(entries) => entries != []
    case VType(_) => true
  }

  /** The calls `t(v)` whose outcome the model leaves to the `ForeignConversion`. */
  predicate Delegated(t: TypeTag, v: PyValue)
  {
    match t
    case TInt => v.VFloat? || v.VObj?
    case TBool => v.VFloat? || v.VObj?
    case TStr => !(v.VStr? || v.VInt? || v.VBool? || v.VNone?)
    case TNone => false
    case TType => false
    case _ => true
  }

  /**
    `t(v)`: `Some` of the value built, or `None` where Python raises. `int()` of a
    container, of `None` or of a type object raises `TypeError`; `NoneType()`
    takes no argument; `type(v)` returns the type of `v`.
   */
  function Convert(t: TypeTag, v: PyValue, foreign: ForeignConversion): (r: Option<PyValue>)
    ensures Delegated(t, v) ==> r == foreign(t, v)
    ensures !Delegated(t, v) && r.Some? ==> TypeOf(r.value) == t
  {
    match t
    case TInt =>
      (match v
       case VStr(s) => (match ParseInt(s) case Some(n) => Some(VInt(n)) case None => None)
       case VInt(_) => Some(v)
       case VBool(b) => Some(VInt(if b then 1 else 0))
       case VFloat(_) => foreign(t, v)
       case VObj(_, _) => foreign(t, v)
       case _ => None)
    case TBool =>
      if v.VFloat? || v.VObj? then foreign(t, v) else Some(VBool(Truthy(v)))
    case TStr =>
      (match v
       case VStr(_) => Some(v)
       case VInt(i) => if |ShowNat(Magnitude(i))| > MaxStrDigits then None else Some(VStr(ShowInt(i)))
       case VBool(b) => Some(VStr(if b then "True" else "False"))
       case VNone => Some(VStr("None"))
       case _ => foreign(t, v))
    case TNone => None
    case TType => Some(VType(TypeOf(v)))
    case _ => foreign(t, v)
  }

  /** What calling a type object on a value does: `Some` of the value built, or `None` where the call raises. */
  type Conversion = (TypeTag, PyValue) -> Option<PyValue>

  /** Python's calls `t(v)`: the built-in ones as `Convert` interprets them, the rest as `foreign` says. */
  function PythonCall(foreign: ForeignConversion): Conversion
  {
    (t, v) => Convert(t, v, foreign)
  }

  /**
    `int(str(i)) == i` through the validator's own conversion calls: `str()` of
    an int succeeds exactly within the digit limit, `int()` of what it writes
    gives the int back, and past the limit `int()` refuses the numeral too.
   */
  lemma IntStrRoundTrip(i: int, foreign: ForeignConversion)
    ensures Convert(TStr, VInt(i), foreign).Some? <==> |ShowNat(Magnitude(i))| <= MaxStrDigits
    ensures Convert(TStr, VInt(i), foreign).Some? ==>
              Convert(TInt, Convert(TStr, VInt(i), foreign).value, foreign) == Some(VInt(i))
    ensures Convert(TInt, VStr(ShowInt(i)), foreign).Some? <==> Convert(TStr, VInt(i), foreign).Some?
  {
    ParseShowInt(i);
  }
}
