/** JSON values as the FluentCRM API hands them to the contact manager,
    the dictionary lookup the manager uses on them, and Python's str()
    rendering of the values it interpolates into text. */
module Values {

  datatype Option<+T> = None | Some(value: T)

  /** One JSON value. `Other` stands for a number with a fraction, an
      array or an object; the core copies such values, compares them and
      uses them as dictionary keys, but never takes them apart. It carries
      the text Python's str() renders for it. */
  datatype Value =
    | Null
    | Bool(b: bool)
    | Int(i: int)
    | Str(s: string)
    | Other(text: string)

  /** A contact (or any JSON object) as a dictionary from keys to values. */
  type Record = map<string, Value>

  /** dict.get(key, default): the stored value when the key is present,
      the default otherwise (a present key holding null yields Null). */
  function Get(r: Record, key: string, default: Value): Value
  {
    if key in r then r[key] else default
  }

  /** The decimal digit character for d. */
  function DigitChar(d: nat): (c: char)
    requires d < 10
    ensures '0' <= c <= '9'
    ensures c as int - '0' as int == d
  {
    ('0' as int + d) as char
  }

  /** Python's str() of a non-negative integer: its decimal digits, most
      significant first, with no leading zeros. */
  function Decimal(n: nat): (s: string)
    ensures 1 <= |s|
    ensures n < 10 <==> |s| == 1
    ensures forall k :: 0 <= k < |s| ==> '0' <= s[k] <= '9'
    ensures s[|s| - 1] as int - '0' as int == n % 10
    ensures n >= 10 ==> s[0] != '0'
    decreases n
  {
    if n < 10 then [DigitChar(n)] else Decimal(n / 10) + [DigitChar(n % 10)]
  }

  /** Distinct numbers have distinct decimal renderings. */
  lemma {:induction false} DecimalInjective(a: nat, b: nat)
    requires Decimal(a) == Decimal(b)
    ensures a == b
    decreases a
  {
    if a >= 10 && b >= 10 {
      var sa, sb := Decimal(a), Decimal(b);
      assert sa[..|sa| - 1] == Decimal(a / 10);
      assert sb[..|sb| - 1] == Decimal(b / 10);
      DecimalInjective(a / 10, b / 10);
    }
  }

  /** Python's str() of a value, as an f-string interpolates it. */
  function Display(v: Value): string
  {
    match v
    case Null => "None"
    case Bool(b) => if b then "True" else "False"
    case Int(i) => if i < 0 then "-" + Decimal(-i) else Decimal(i)
    case Str(s) => s
    case Other(text) => text
  }
}
