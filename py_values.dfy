/**
 * The Python values the task-context helpers inspect, and the few Python
 * built-ins they apply to them: truthiness, `getattr(obj, name, None)`,
 * `str()` of the scalar kinds, `str.upper()` and `",".join(...)`.
 */
module PyValues {
  import opened Wrappers

  /**
   * A Python value as far as the context export looks at it.
   * `DateTime.iso` is the text its `isoformat()` returns; `Obj` is any other
   * object: its attributes, whether it is truthy (an object that defines
   * `__bool__` or `__len__` may be falsy) and the text `str()` gives for it.
   */
  datatype PyValue =
    | NoneValue
    | Bool(b: bool)
    | Int(i: int)
    | Str(s: string)
    | DateTime(iso: string)
    | List(items: seq<PyValue>)
    | Obj(attrs: map<string, PyValue>, truthy: bool, text: string)

  /** The built-in values Python treats as false. */
  const FalsyBuiltins: set<PyValue> := {NoneValue, Bool(false), Int(0), Str(""), List([])}

  /** Python truthiness: None, False, 0, "" and [] are falsy; a datetime is always truthy. */
  function Truthy(v: PyValue): (r: bool)
    ensures !r <==> v in FalsyBuiltins || (v.Obj? && !v.truthy)
  {
    match v
    case NoneValue => false
    case Bool(b) => b
    case Int(i) => i != 0
    case Str(s) => s != []
    case DateTime(_) => true
    case List(items) => items != []
    case Obj(_, truthy, _) => truthy
  }

  /** `getattr(subject, name, None)`: only objects carry the attributes the helpers read. */
  function GetAttr(subject: PyValue, name: string): (r: PyValue)
    ensures r != NoneValue ==> subject.Obj? && name in subject.attrs && subject.attrs[name] == r
    ensures subject.Obj? && name in subject.attrs ==> r == subject.attrs[name]
  {
    if subject.Obj? && name in subject.attrs then subject.attrs[name] else NoneValue
  }

  // ---------------------------------------------------------------------------
  // str.upper(), on the ASCII letters

  function UpperChar(c: char): char {
    if 'a' <= c <= 'z' then (c as int - 32) as char else c
  }

  function Upper(s: string): (r: string)
    ensures |r| == |s|
    ensures forall i :: 0 <= i < |r| ==> !('a' <= r[i] <= 'z')
    ensures forall i :: 0 <= i < |s| && !('a' <= s[i] <= 'z') ==> r[i] == s[i]
    ensures forall i :: 0 <= i < |s| && 'a' <= s[i] <= 'z' ==> r[i] == (s[i] as int - 32) as char
  {
    seq(|s|, i requires 0 <= i < |s| => UpperChar(s[i]))
  }

  // ---------------------------------------------------------------------------
  // str() of an int: decimal digits with a leading '-' for negatives

  predicate IsDigit(c: char) {
    '0' <= c <= '9'
  }

  predicate AllDigits(s: string) {
    forall i :: 0 <= i < |s| ==> IsDigit(s[i])
  }

  function DigitChar(d: nat): (c: char)
    requires d < 10
    ensures IsDigit(c)
  {
    ('0' as int + d) as char
  }

  function DigitValue(c: char): nat
    requires IsDigit(c)
  {
    c as int - '0' as int
  }

  /** Digits without a superfluous leading zero: what `str()` gives for a nat. */
  predicate IsNatText(s: string) {
    |s| > 0 && AllDigits(s) && (s[0] == '0' ==> |s| == 1)
  }

  /** What `str()` gives for an int: a nat's text, or '-' and a positive nat's text. */
  predicate IsDecimalText(s: string) {
    IsNatText(s) || (|s| > 1 && s[0] == '-' && IsNatText(s[1..]) && s[1] != '0')
  }

  function NatToDecimal(n: nat): (r: string)
    ensures IsNatText(r)
    ensures r[0] == '0' <==> n == 0
    decreases n
  {
    if n < 10 then [DigitChar(n)] else NatToDecimal(n / 10) + [DigitChar(n % 10)]
  }

  function IntToDecimal(i: int): (r: string)
    ensures IsDecimalText(r)
  {
    if i < 0 then
      var digits := NatToDecimal(-i);
      assert ("-" + digits)[1..] == digits;
      "-" + digits
    else NatToDecimal(i)
  }

  /** The reading of a decimal string, the inverse of `NatToDecimal`. */
  function ParseNat(s: string): nat
    requires |s| > 0 && AllDigits(s)
    decreases |s|
  {
    if |s| == 1 then DigitValue(s[0])
    else 10 * ParseNat(s[..|s| - 1]) + DigitValue(s[|s| - 1])
  }

  function ParseInt(s: string): Option<int> {
    if |s| > 1 && s[0] == '-' && AllDigits(s[1..]) then Some(-(ParseNat(s[1..]) as int))
    else if |s| > 0 && AllDigits(s) then Some(ParseNat(s))
    else None
  }

  lemma {:induction false} ParseNatInverse(n: nat)
    ensures ParseNat(NatToDecimal(n)) == n
    decreases n
  {
    if n >= 10 {
      var s := NatToDecimal(n);
      assert s[..|s| - 1] == NatToDecimal(n / 10);
      ParseNatInverse(n / 10);
    }
  }

  /** The text `str()` gives for an int reads back as that int. */
  lemma ParseIntInverse(i: int)
    ensures ParseInt(IntToDecimal(i)) == Some(i)
  {
    var s := IntToDecimal(i);
    if i < 0 {
      assert s[1..] == NatToDecimal(-i);
      ParseNatInverse(-i);
    } else {
      assert IsDigit(s[0]);
      ParseNatInverse(i);
    }
  }

  /** A digit string whose first digit is not zero reads as a positive number. */
  lemma {:induction false} ParseNatPositive(s: string)
    requires |s| > 0 && AllDigits(s) && s[0] != '0'
    ensures ParseNat(s) > 0
    decreases |s|
  {
    if |s| > 1 {
      ParseNatPositive(s[..|s| - 1]);
    }
  }

  /** A nat's text is exactly the text `str()` gives for the number it reads as. */
  lemma {:induction false} NatTextInverse(s: string)
    requires IsNatText(s)
    ensures NatToDecimal(ParseNat(s)) == s
    decreases |s|
  {
    if |s| > 1 {
      var init := s[..|s| - 1];
      ParseNatPositive(init);
      NatTextInverse(init);
      var n := ParseNat(s);
      assert n / 10 == ParseNat(init) && n % 10 == DigitValue(s[|s| - 1]);
      assert s == init + [s[|s| - 1]];
    }
  }

  /** Each text `IsDecimalText` admits is the `str()` of exactly one int. */
  lemma DecimalTextInverse(s: string)
    requires IsDecimalText(s)
    ensures ParseInt(s).Some? && IntToDecimal(ParseInt(s).value) == s
  {
    if s[0] == '-' {
      ParseNatPositive(s[1..]);
      NatTextInverse(s[1..]);
      assert s == "-" + s[1..];
    } else {
      NatTextInverse(s);
    }
  }

  /** `str(v)` for the kinds that reach the last branch of the serialisation. */
  function PyStr(v: PyValue): (r: string)
    requires v.NoneValue? || v.Bool? || v.Int? || v.Obj?
    ensures v.NoneValue? ==> r == "None"
    ensures v.Bool? ==> r == (if v.b then "True" else "False")
    ensures v.Int? ==> IsDecimalText(r) && ParseInt(r) == Some(v.i)
    ensures v.Obj? ==> r == v.text
  {
    if v.NoneValue? then "None"
    else if v.Bool? then (if v.b then "True" else "False")
    else if v.Int? then ParseIntInverse(v.i); IntToDecimal(v.i)
    else v.text
  }

  // ---------------------------------------------------------------------------
  // ",".join(items) and its inverse, str.split(",")

  function Join(items: seq<string>): string
    decreases |items|
  {
    if |items| == 0 then ""
    else if |items| == 1 then items[0]
    else items[0] + "," + Join(items[1..])
  }

  predicate AllStr(items: seq<PyValue>) {
    forall i :: 0 <= i < |items| ==> items[i].Str?
  }

  function Texts(items: seq<PyValue>): (r: seq<string>)
    requires AllStr(items)
    ensures |r| == |items|
    ensures forall i :: 0 <= i < |items| ==> r[i] == items[i].s
  {
    seq(|items|, i requires 0 <= i < |items| => items[i].s)
  }

  /**
   * `",".join(items)`: Python raises a TypeError naming the index of the
   * first item that is not a string; otherwise the texts joined by commas.
   */
  function JoinValues(items: seq<PyValue>): (r: Result<string, nat>)
    ensures r.Ok? <==> AllStr(items)
    ensures r.Err? ==> r.error < |items| && !items[r.error].Str?
                       && forall j :: 0 <= j < r.error ==> items[j].Str?
    ensures r.Ok? ==> r.value == Join(Texts(items))
    decreases |items|
  {
    if items == [] then Ok("")
    else if !items[0].Str? then Err(0)
    else
      match JoinValues(items[1..])
      case Err(k) => Err(k + 1)
      case Ok(rest) =>
        assert Texts(items)[1..] == Texts(items[1..]);
        Ok(if |items| == 1 then items[0].s else items[0].s + "," + rest)
  }

  function Split(s: string): (r: seq<string>)
    ensures |r| >= 1
    decreases |s|
  {
    if s == [] then [""]
    else
      var rest := Split(s[1..]);
      if s[0] == ',' then [""] + rest else [[s[0]] + rest[0]] + rest[1..]
  }

  lemma {:induction false} SplitNoComma(x: string)
    requires ',' !in x
    ensures Split(x) == [x]
    decreases |x|
  {
    if x != [] {
      SplitNoComma(x[1..]);
      assert [x[0]] + x[1..] == x;
    }
  }

  lemma {:induction false} SplitAfterItem(x: string, rest: string)
    requires ',' !in x
    ensures Split(x + "," + rest) == [x] + Split(rest)
    decreases |x|
  {
    var s := x + "," + rest;
    if x == [] {
      assert s[1..] == rest;
    } else {
      assert s[1..] == x[1..] + "," + rest;
      SplitAfterItem(x[1..], rest);
      assert [x[0]] + x[1..] == x;
    }
  }

  /** Comma-joined items without commas split back into the same items. */
  lemma {:induction false} SplitJoin(items: seq<string>)
    requires |items| > 0
    requires forall i :: 0 <= i < |items| ==> ',' !in items[i]
    ensures Split(Join(items)) == items
    decreases |items|
  {
    if |items| == 1 {
      SplitNoComma(items[0]);
    } else {
      SplitAfterItem(items[0], Join(items[1..]));
      SplitJoin(items[1..]);
      assert [items[0]] + items[1..] == items;
    }
  }
}
