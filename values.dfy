/**
 * The value model shared by every part of the application: schemaless records
 * (Python dicts read from and written to the document store), their field values,
 * Python's truthiness and the handful of string operations the pages rely on.
 */
module Values {

  datatype Option<+T> = None | Some(value: T)

  /** A computation that either yields a value or raises (the Python exception is named). */
  datatype Result<+T> = Ok(value: T) | Raised(error: string)

  /** A calendar date (Python `date`); validity is checked where dates are built. */
  datatype Date = Date(year: int, month: int, day: int)

  /** A naive Python `datetime`, field by field. */
  datatype DateTime = DateTime(date: Date, hour: int, minute: int, second: int, micro: int)

  /** `datetime.min`: 0001-01-01 00:00:00. */
  const DateTimeMin := DateTime(Date(1, 1, 1), 0, 0, 0, 0)

  /** A field value as it is stored in a document. */
  datatype Value =
    | Str(s: string)
    | Bool(b: bool)
    | Int(i: int)
    | Time(t: DateTime)
    | Day(d: Date)
    | Dict(m: map<string, Value>)
    | List(items: seq<Value>)
    | Null

  /** A document: field name to value. */
  type Record = map<string, Value>

  /** Python truthiness of a stored value. */
  predicate Truthy(v: Value) {
    match v
    case Str(s) => s != ""
    case Bool(b) => b
    case Int(i) => i != 0
    case Time(_) => true
    case Day(_) => true
    case Dict(m) => |m| > 0
    case List(items) => |items| > 0
    case Null => false
  }

  /** `rec.get(key)`: a missing key reads as None. */
  function Get(rec: Record, key: string): (r: Value)
    ensures key !in rec ==> r == Null
    ensures key in rec ==> r == rec[key]
  {
    if key in rec then rec[key] else Null
  }

  /** `rec.get(key, default)`. */
  function GetOr(rec: Record, key: string, default: Value): (r: Value)
    ensures key !in rec ==> r == default
    ensures key in rec ==> r == rec[key]
  {
    if key in rec then rec[key] else default
  }

  /** `rec.get(key)` tested for truth, as in `if rec.get(key):`. */
  predicate Has(rec: Record, key: string) {
    key in rec && Truthy(rec[key])
  }

  /** Chronological order on datetimes (field by field, most significant first). */
  predicate DateBefore(a: Date, b: Date) {
    a.year < b.year
    || (a.year == b.year && a.month < b.month)
    || (a.year == b.year && a.month == b.month && a.day < b.day)
  }

  predicate Before(a: DateTime, b: DateTime) {
    DateBefore(a.date, b.date)
    || (a.date == b.date && a.hour < b.hour)
    || (a.date == b.date && a.hour == b.hour && a.minute < b.minute)
    || (a.date == b.date && a.hour == b.hour && a.minute == b.minute && a.second < b.second)
    || (a.date == b.date && a.hour == b.hour && a.minute == b.minute && a.second == b.second && a.micro < b.micro)
  }

  predicate NotBefore(a: DateTime, b: DateTime) {
    !Before(a, b)
  }

  lemma BeforeIsStrictTotal(a: DateTime, b: DateTime, c: DateTime)
    ensures !Before(a, a)
    ensures Before(a, b) ==> !Before(b, a)
    ensures a != b ==> Before(a, b) || Before(b, a)
    ensures Before(a, b) && Before(b, c) ==> Before(a, c)
  {
  }

  // ---------------------------------------------------------------------------
  // Characters and strings
  // ---------------------------------------------------------------------------

  predicate IsAsciiUpper(c: char) { 'A' <= c <= 'Z' }
  predicate IsAsciiLower(c: char) { 'a' <= c <= 'z' }
  predicate IsDigit(c: char) { '0' <= c <= '9' }

  /** The character class `[a-zA-Z0-9]`. */
  predicate IsAlnum(c: char) { IsAsciiUpper(c) || IsAsciiLower(c) || IsDigit(c) }

  const PolishUpper := "ĄĆĘŁŃÓŚŹŻ"
  const PolishLower := "ąćęłńóśźż"

  /** `str.lower()` on one character: ASCII and the Polish letters. */
  function LowerChar(c: char): (r: char)
    ensures IsAsciiUpper(c) ==> IsAsciiLower(r)
    ensures !IsAsciiUpper(c) && c !in PolishUpper ==> r == c
    ensures IsAlnum(c) ==> IsAlnum(r)
    ensures r == '_' <==> c == '_'
  {
    if IsAsciiUpper(c) then (c - 'A' + 'a') as char
    else if c == 'Ą' then 'ą' else if c == 'Ć' then 'ć' else if c == 'Ę' then 'ę'
    else if c == 'Ł' then 'ł' else if c == 'Ń' then 'ń' else if c == 'Ó' then 'ó'
    else if c == 'Ś' then 'ś' else if c == 'Ź' then 'ź' else if c == 'Ż' then 'ż'
    else c
  }

  /** `str.lower()`. */
  function Lower(s: string): (r: string)
    ensures |r| == |s|
    ensures forall i :: 0 <= i < |s| ==> r[i] == LowerChar(s[i])
  {
    if s == [] then [] else [LowerChar(s[0])] + Lower(s[1..])
  }

  /** `str.upper()` on ASCII letters (used for the status text and the kind label). */
  function UpperChar(c: char): (r: char)
    ensures IsAsciiLower(c) ==> IsAsciiUpper(r)
    ensures !IsAsciiLower(c) ==> r == c
  {
    if IsAsciiLower(c) then (c - 'a' + 'A') as char else c
  }

  function Upper(s: string): (r: string)
    ensures |r| == |s|
    ensures forall i :: 0 <= i < |s| ==> r[i] == UpperChar(s[i])
  {
    if s == [] then [] else [UpperChar(s[0])] + Upper(s[1..])
  }

  /** `needle` occurs in `hay` starting at position `i`. */
  predicate OccursAt(hay: string, needle: string, i: int) {
    0 <= i <= |hay| - |needle| && hay[i..i + |needle|] == needle
  }

  /** `needle in hay` for strings: a contiguous occurrence. */
  predicate Contains(hay: string, needle: string) {
    exists i :: 0 <= i <= |hay| && OccursAt(hay, needle, i)
  }

  /** A decidable form of `needle in hay`, proved equal to Contains. */
  function ContainsFrom(hay: string, needle: string, from: nat): (r: bool)
    decreases |hay| + 1 - from
    ensures r <==> exists i :: from <= i <= |hay| && OccursAt(hay, needle, i)
  {
    if from + |needle| > |hay| then false
    else if hay[from..from + |needle|] == needle then assert OccursAt(hay, needle, from); true
    else ContainsFrom(hay, needle, from + 1)
  }

  function SubstringOf(needle: string, hay: string): (r: bool)
    ensures r <==> Contains(hay, needle)
  {
    ContainsFrom(hay, needle, 0)
  }

  /** `s.replace(a, b)` for single characters. */
  function ReplaceChar(s: string, a: char, b: char): (r: string)
    ensures |r| == |s|
    ensures forall i :: 0 <= i < |s| ==> r[i] == if s[i] == a then b else s[i]
  {
    if s == [] then [] else [if s[0] == a then b else s[0]] + ReplaceChar(s[1..], a, b)
  }

  /** `sep.join(parts)`. */
  function Join(parts: seq<string>, sep: string): string {
    if parts == [] then ""
    else if |parts| == 1 then parts[0]
    else parts[0] + sep + Join(parts[1..], sep)
  }

  /** `s[:n]`. */
  function Prefix(s: string, n: nat): (r: string)
    ensures |r| == if |s| < n then |s| else n
    ensures r <= s
  {
    if |s| <= n then s else s[..n]
  }

  // ---------------------------------------------------------------------------
  // Decimal text
  // ---------------------------------------------------------------------------

  function DigitChar(d: nat): (c: char)
    requires d < 10
    ensures IsDigit(c)
  {
    ('0' as int + d) as char
  }

  function DigitValue(c: char): (d: nat)
    requires IsDigit(c)
    ensures d < 10
    ensures DigitChar(d) == c
  {
    (c as int - '0' as int)
  }

  /** The decimal digits of a natural number, without leading zeros. */
  function NatDigits(n: nat): (r: string)
    ensures |r| > 0
    ensures forall i :: 0 <= i < |r| ==> IsDigit(r[i])
  {
    if n < 10 then [DigitChar(n)] else NatDigits(n / 10) + [DigitChar(n % 10)]
  }

  /** `str(n)` for a Python int. */
  function IntToString(n: int): string {
    if n < 0 then "-" + NatDigits(-n) else NatDigits(n)
  }

  /** The value of a string of decimal digits. */
  function DigitsValue(s: string): nat
    requires forall i :: 0 <= i < |s| ==> IsDigit(s[i])
  {
    if s == [] then 0 else DigitsValue(s[..|s| - 1]) * 10 + DigitValue(s[|s| - 1])
  }

  lemma {:induction false} NatDigitsRoundTrip(n: nat)
    ensures DigitsValue(NatDigits(n)) == n
  {
    var r := NatDigits(n);
    if n >= 10 {
      NatDigitsRoundTrip(n / 10);
      assert r[..|r| - 1] == NatDigits(n / 10);
    }
  }

  /** `%0Nd` formatting for a natural number below 10^width. */
  function PadDigits(n: nat, width: nat): (r: string)
    ensures |r| == width
    ensures forall i :: 0 <= i < |r| ==> IsDigit(r[i])
  {
    if width == 0 then "" else PadDigits(n / 10, width - 1) + [DigitChar(n % 10)]
  }

  function Pow10(k: nat): (r: nat)
    ensures r >= 1
  {
    if k == 0 then 1 else 10 * Pow10(k - 1)
  }

  lemma {:induction false} PadDigitsRoundTrip(n: nat, width: nat)
    requires n < Pow10(width)
    ensures DigitsValue(PadDigits(n, width)) == n
  {
    if width > 0 {
      PadDigitsRoundTrip(n / 10, width - 1);
      var r := PadDigits(n, width);
      assert r[..|r| - 1] == PadDigits(n / 10, width - 1);
    }
  }

  /** `str(value)` / f-string formatting of a stored value. */
  function Show(v: Value): string {
    match v
    case Str(s) => s
    case Bool(b) => if b then "True" else "False"
    case Int(i) => IntToString(i)
    case Time(t) => ShowDateTime(t)
    case Day(d) => ShowDate(d)
    case Dict(_) => "{...}"
    case List(_) => "[...]"
    case Null => "None"
  }

  /** `str(date)`: YYYY-MM-DD. */
  function ShowDate(d: Date): string {
    PadDigits(if d.year < 0 then 0 else d.year, 4) + "-"
      + PadDigits(if d.month < 0 then 0 else d.month, 2) + "-"
      + PadDigits(if d.day < 0 then 0 else d.day, 2)
  }

  /** `str(datetime)`: YYYY-MM-DD HH:MM:SS, with .ffffff when microseconds are set. */
  function ShowDateTime(t: DateTime): string {
    ShowDate(t.date) + " "
      + PadDigits(if t.hour < 0 then 0 else t.hour, 2) + ":"
      + PadDigits(if t.minute < 0 then 0 else t.minute, 2) + ":"
      + PadDigits(if t.second < 0 then 0 else t.second, 2)
      + (if t.micro == 0 then "" else "." + PadDigits(if t.micro < 0 then 0 else t.micro, 6))
  }
}
