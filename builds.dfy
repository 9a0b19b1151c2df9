/** Build numbers as the source stores and compares them.  Metadata and
    manifests carry `build` as whatever JSON held (absent, null, a number or a
    string); every comparison goes through JavaScript's `parseInt`, whose
    result is an integer or NaN. */
module Builds {
  import Words

  /** The `build` member of a JSON document. */
  datatype BuildField = NoBuild | NullBuild | NumBuild(n: int) | TextBuild(text: string)

  /** A JavaScript number produced by `parseInt`. */
  datatype Num = Int(n: int) | NaN

  predicate IsDigit(c: char) {
    '0' <= c <= '9'
  }

  /** The longest prefix of decimal digits. */
  function LeadingDigits(s: string): (r: string)
    ensures |r| <= |s| && r == s[..|r|]
    decreases |s|
  {
    if s != [] && IsDigit(s[0]) then [s[0]] + LeadingDigits(s[1..]) else []
  }

  /** The value of a string of decimal digits. */
  function DigitsValue(ds: string): nat
    decreases |ds|
  {
    if ds == [] then 0
    else
      var d := ds[|ds| - 1] as int - '0' as int;
      DigitsValue(ds[..|ds| - 1]) * 10 + (if 0 <= d <= 9 then d else 0)
  }

  /** `parseInt(s)` on a string, read in base 10: leading whitespace, an
      optional sign, then the longest run of digits; no digit gives NaN. */
  function ParseDecimal(s: string): Num {
    var t := Words.DropSpaces(s);
    var negative := t != [] && t[0] == '-';
    var u := if t != [] && (t[0] == '-' || t[0] == '+') then t[1..] else t;
    var ds := LeadingDigits(u);
    if ds == [] then NaN
    else if negative then Int(0 - DigitsValue(ds))
    else Int(DigitsValue(ds))
  }

  /** `parseInt(build)`: undefined and null read as the strings "undefined"
      and "null", which hold no digit. */
  function ParseInt(b: BuildField): Num {
    match b
    case NoBuild => NaN
    case NullBuild => NaN
    case NumBuild(n) => Int(n)
    case TextBuild(s) => ParseDecimal(s)
  }

  /** `meta.build == undefined ? 1 : parseInt(meta.build)`; `==` also holds for null. */
  function BuildOrOne(b: BuildField): (r: Num)
    ensures (b.NoBuild? || b.NullBuild?) ==> r == Int(1)
    ensures (b.NumBuild? || b.TextBuild?) ==> r == ParseInt(b)
  {
    if b.NoBuild? || b.NullBuild? then Int(1) else ParseInt(b)
  }

  /** `parseInt(a) < parseInt(b)`: false as soon as either side is NaN. */
  predicate Less(a: Num, b: Num) {
    a.Int? && b.Int? && a.n < b.n
  }

  /** A parsed build written back to JSON: a number, or null for NaN. */
  function Stored(n: Num): (b: BuildField)
    ensures ParseInt(b) == n
  {
    match n
    case Int(v) => NumBuild(v)
    case NaN => NullBuild
  }

  /** The decimal text of a natural number, as JSON writes it. */
  function DecimalText(n: nat): (s: string)
    ensures s != []
    decreases n
  {
    var d := ['0' + (n % 10) as char];
    if n < 10 then d else DecimalText(n / 10) + d
  }

  lemma {:induction false} DecimalTextDigits(n: nat)
    ensures forall i :: 0 <= i < |DecimalText(n)| ==> IsDigit(DecimalText(n)[i])
    ensures DigitsValue(DecimalText(n)) == n
    decreases n
  {
    var d := ['0' + (n % 10) as char];
    if n >= 10 {
      DecimalTextDigits(n / 10);
      var s := DecimalText(n / 10) + d;
      assert s[..|s| - 1] == DecimalText(n / 10);
    }
  }

  lemma {:induction false} LeadingDigitsOfDigits(s: string)
    requires forall i :: 0 <= i < |s| ==> IsDigit(s[i])
    ensures LeadingDigits(s) == s
    decreases |s|
  {
    if s != [] {
      LeadingDigitsOfDigits(s[1..]);
    }
  }

  /** `parseInt` reads back the decimal text of every natural number. */
  lemma ParseDecimalText(n: nat)
    ensures ParseDecimal(DecimalText(n)) == Int(n)
  {
    var s := DecimalText(n);
    DecimalTextDigits(n);
    LeadingDigitsOfDigits(s);
    assert IsDigit(s[0]);
    assert !Words.IsSpace(s[0]);
    assert Words.DropSpaces(s) == s;
    assert s[0] != '-' && s[0] != '+';
    assert DigitsValue(LeadingDigits(s)) == n;
  }

  /** Builds written as strings compare as numbers, not as text: "9" < "10". */
  lemma TextBuildsCompareAsNumbers(a: nat, b: nat)
    ensures Less(ParseInt(TextBuild(DecimalText(a))), ParseInt(TextBuild(DecimalText(b)))) <==> a < b
    ensures Less(ParseInt(TextBuild(DecimalText(a))), ParseInt(NumBuild(b))) <==> a < b
  {
    ParseDecimalText(a);
    ParseDecimalText(b);
  }

  /** A build that cannot be parsed never compares as older or newer. */
  lemma NaNNeverLess(a: Num)
    ensures !Less(a, NaN) && !Less(NaN, a)
  {
  }
}
