/** Configuration lookup (`ConfigManager`): a key is looked up among the JVM
    system properties first and in `config.properties` second, a key found in
    neither is an error naming the key, and the typed getters parse the value
    with `Integer.parseInt` or `Boolean.parseBoolean`.

    Both property tables are inputs: loading the file is not modelled. Every
    lookup is a function of the tables, so it can never change them. */
module ConfigManager {
  import opened Wrappers

  /** The two property tables consulted by `getProperty`. */
  datatype Sources = Sources(system: map<string, string>, file: map<string, string>)

  datatype ConfigError =
    | MissingKey(key: string)       // the RuntimeException of getProperty
    | NumberFormat(input: string)   // the NumberFormatException of Integer.parseInt

  /** The text the exception carries. */
  function Message(e: ConfigError): string {
    match e
    case MissingKey(key) => "\U{274C} Missing configuration key: " + key
    case NumberFormat(input) => "For input string: \"" + input + "\""
  }

  /** The error for a missing key ends with the key itself. */
  lemma MessageNamesKey(key: string)
    ensures var m := Message(MissingKey(key));
      |m| >= |key| && m[|m| - |key|..] == key
  {
    var prefix := "\U{274C} Missing configuration key: ";
    assert Message(MissingKey(key)) == prefix + key;
    assert (prefix + key)[|prefix|..] == key;
  }

  // ---------------------------------------------------------------------
  // getProperty
  // ---------------------------------------------------------------------

  /** The table of effective values: every file entry, overridden by the
      system property of the same name. */
  function Effective(src: Sources): map<string, string> {
    src.file + src.system
  }

  /** `getProperty(key)`: `System.getProperty(key, properties.getProperty(key))`,
      failing when the result is null. */
  function GetProperty(src: Sources, key: string): (r: Result<string, ConfigError>)
    ensures r.Success? <==> key in Effective(src)
    ensures r.Success? ==> r.value == Effective(src)[key]
    ensures r.Failure? ==> r.error == MissingKey(key)
  {
    if key in src.system then Success(src.system[key])
    else if key in src.file then Success(src.file[key])
    else Failure(MissingKey(key))
  }

  /** A system property wins over the file, whatever the file holds. */
  lemma SystemOverridesFile(src: Sources, key: string)
    requires key in src.system
    ensures GetProperty(src, key) == Success(src.system[key])
  {
  }

  /** Without a system property, the file value is returned. */
  lemma FileFallback(src: Sources, key: string)
    requires key !in src.system && key in src.file
    ensures GetProperty(src, key) == Success(src.file[key])
  {
  }

  /** Only an absent key is an error: a blank value is returned as it is. */
  lemma BlankValueReturned(src: Sources, key: string)
    requires key in Effective(src) && Effective(src)[key] == ""
    ensures GetProperty(src, key) == Success("")
  {
  }

  /** Setting a system property changes the lookup of that key only. */
  lemma OverrideIsLocal(src: Sources, key: string, v: string, other: string)
    requires other != key
    ensures GetProperty(Sources(src.system[key := v], src.file), key) == Success(v)
    ensures GetProperty(Sources(src.system[key := v], src.file), other) == GetProperty(src, other)
  {
  }

  // ---------------------------------------------------------------------
  // Integer.parseInt
  // ---------------------------------------------------------------------

  type int32 = x: int | -0x8000_0000 <= x < 0x8000_0000

  predicate IsDigit(c: char) {
    '0' <= c <= '9'
  }

  predicate IsDigits(s: string) {
    forall i :: 0 <= i < |s| ==> IsDigit(s[i])
  }

  function DigitValue(c: char): nat
    requires IsDigit(c)
  {
    c as int - '0' as int
  }

  /** The value of a run of decimal digits, most significant first. */
  function DigitsValue(s: string): nat
    requires IsDigits(s)
    decreases |s|
  {
    if s == [] then 0 else 10 * DigitsValue(s[..|s| - 1]) + DigitValue(s[|s| - 1])
  }

  /** A decimal numeral: an optional sign followed by at least one digit. */
  predicate IsNumeral(s: string) {
    var digits := if |s| > 0 && (s[0] == '-' || s[0] == '+') then s[1..] else s;
    digits != [] && IsDigits(digits)
  }

  /** `Integer.parseInt(s)` (radix 10). An optional `+` or `-`, then one or
      more digits, and the value must fit in 32 bits; anything else, blanks
      included, is a NumberFormatException. */
  function ParseInt(s: string): (r: Result<int32, ConfigError>)
    ensures r.Failure? ==> r.error == NumberFormat(s)
    ensures r.Success? ==> IsNumeral(s)
  {
    var negative := |s| > 0 && s[0] == '-';
    var digits := if |s| > 0 && (s[0] == '-' || s[0] == '+') then s[1..] else s;
    if digits == [] || !IsDigits(digits) then Failure(NumberFormat(s))
    else
      var v := if negative then -(DigitsValue(digits) as int) else DigitsValue(digits) as int;
      if -0x8000_0000 <= v < 0x8000_0000 then Success(v) else Failure(NumberFormat(s))
  }

  /** Anything that is not a numeral is rejected. */
  lemma NotNumeralRejected(s: string)
    requires !IsNumeral(s)
    ensures ParseInt(s) == Failure(NumberFormat(s))
  {
  }

  function DigitChar(d: nat): (c: char)
    requires d < 10
    ensures IsDigit(c) && DigitValue(c) == d
  {
    ('0' as int + d) as char
  }

  /** The decimal digits of n, without leading zeros. */
  function NatToString(n: nat): string
    decreases n
  {
    if n < 10 then [DigitChar(n)] else NatToString(n / 10) + [DigitChar(n % 10)]
  }

  /** `Integer.toString(n)`. */
  function IntToString(n: int): string {
    if n < 0 then "-" + NatToString(-n) else NatToString(n)
  }

  lemma {:induction false} NatToStringDigits(n: nat)
    ensures var s := NatToString(n);
      s != [] && IsDigits(s) && DigitsValue(s) == n
    decreases n
  {
    if n >= 10 {
      NatToStringDigits(n / 10);
      var s := NatToString(n);
      var h := NatToString(n / 10);
      assert s == h + [DigitChar(n % 10)];
      assert s[..|s| - 1] == h;
    }
  }

  /** parseInt reads back every 32-bit integer that Integer.toString writes. */
  lemma ParseIntRoundTrip(n: int32)
    ensures ParseInt(IntToString(n)) == Success(n)
  {
    var s := IntToString(n);
    if n < 0 {
      var m: nat := -(n as int);
      NatToStringDigits(m);
      assert s == "-" + NatToString(m);
      assert s[0] == '-' && s[1..] == NatToString(m);
    } else {
      NatToStringDigits(n);
      assert IsDigit(s[0]);
    }
  }

  /** One past the largest int is rejected, although its negation parses:
      the range is not symmetric. */
  lemma ParseIntRange()
    ensures ParseInt(NatToString(0x8000_0000)).Failure?
    ensures ParseInt("-" + NatToString(0x8000_0000)) == Success(-0x8000_0000)
  {
    NatToStringDigits(0x8000_0000);
    var s := NatToString(0x8000_0000);
    assert ("-" + s)[1..] == s;
  }

  lemma {:induction false} LeadingZeroValue(d: string)
    requires IsDigits(d)
    ensures IsDigits("0" + d) && DigitsValue("0" + d) == DigitsValue(d)
    decreases |d|
  {
    var z := "0" + d;
    assert forall i :: 0 < i < |z| ==> z[i] == d[i - 1];
    if d != [] {
      LeadingZeroValue(d[..|d| - 1]);
      assert z[..|z| - 1] == "0" + d[..|d| - 1];
    }
  }

  /** Leading zeros do not change the value, nor whether it fits. */
  lemma LeadingZeroIgnored(d: string)
    requires d != [] && IsDigits(d)
    ensures ParseInt("0" + d).Success? == ParseInt(d).Success?
    ensures ParseInt(d).Success? ==> ParseInt("0" + d) == ParseInt(d)
  {
    LeadingZeroValue(d);
    var z := "0" + d;
    assert z[0] == '0' && IsDigit(d[0]);
  }

  // ---------------------------------------------------------------------
  // Boolean.parseBoolean
  // ---------------------------------------------------------------------

  function AsciiUpper(c: char): char {
    if 'a' <= c <= 'z' then (c as int - 32) as char else c
  }

  function AsciiLower(c: char): char {
    if 'A' <= c <= 'Z' then (c as int + 32) as char else c
  }

  /** One character step of `String.regionMatches(true, ...)`: equal, equal
      in upper case, or equal in the lower case of the upper case. */
  predicate SameIgnoringCase(a: char, b: char) {
    a == b || AsciiUpper(a) == AsciiUpper(b) || AsciiLower(AsciiUpper(a)) == AsciiLower(AsciiUpper(b))
  }

  /** `String.equalsIgnoreCase`. */
  predicate EqualsIgnoreCase(a: string, b: string) {
    |a| == |b| && forall i :: 0 <= i < |a| ==> SameIgnoringCase(a[i], b[i])
  }

  /** `Boolean.parseBoolean(s)`: `"true".equalsIgnoreCase(s)`. */
  predicate ParseBool(s: string) {
    EqualsIgnoreCase("true", s)
  }

  function ToLower(s: string): (r: string)
    ensures |r| == |s| && forall i :: 0 <= i < |s| ==> r[i] == AsciiLower(s[i])
  {
    seq(|s|, i requires 0 <= i < |s| => AsciiLower(s[i]))
  }

  /** Two characters are equal ignoring case exactly when their lower cases are. */
  lemma SameIgnoringCaseLower(a: char, b: char)
    ensures SameIgnoringCase(a, b) <==> AsciiLower(a) == AsciiLower(b)
  {
  }

  /** parseBoolean is true exactly for the spellings of "true" in any case;
      every other value, "yes", "1" and "true " included, is false and never
      an error. */
  lemma ParseBoolLower(s: string)
    ensures ParseBool(s) <==> ToLower(s) == "true"
  {
    if ParseBool(s) {
      forall i | 0 <= i < 4 ensures ToLower(s)[i] == "true"[i] {
        SameIgnoringCaseLower("true"[i], s[i]);
      }
    }
    if ToLower(s) == "true" {
      forall i | 0 <= i < 4 ensures SameIgnoringCase("true"[i], s[i]) {
        assert AsciiLower(s[i]) == "true"[i];
        SameIgnoringCaseLower("true"[i], s[i]);
      }
    }
  }

  lemma ParseBoolExamples()
    ensures ParseBool("TRUE") && ParseBool("True") && ParseBool("true")
    ensures !ParseBool("yes") && !ParseBool("1") && !ParseBool("") && !ParseBool("true ")
  {
    assert !SameIgnoringCase('t', 'y');
    assert !SameIgnoringCase('t', '1');
  }

  // ---------------------------------------------------------------------
  // The typed getters
  // ---------------------------------------------------------------------

  datatype Setting =
    | BaseUrl | BackupBaseUrl | ClientName | ClientEmail | DefaultCustomerName
    | DefaultProductId | DefaultQuantity | DefaultComment
    | RequestLogging | ResponseLogging
    | ConnectionTimeout | ReadTimeout | EnvironmentName
    | MaxRetryAttempts | RetryDelay | RetryEnabled

  /** The property key each getter reads. */
  function Key(s: Setting): string {
    match s
    case BaseUrl => "base.url"
    case BackupBaseUrl => "base.url.backup"
    case ClientName => "client.name"
    case ClientEmail => "client.email"
    case DefaultCustomerName => "default.customer.name"
    case DefaultProductId => "default.product.id"
    case DefaultQuantity => "default.quantity"
    case DefaultComment => "default.comment"
    case RequestLogging => "log.request"
    case ResponseLogging => "log.response"
    case ConnectionTimeout => "timeout.connection"
    case ReadTimeout => "timeout.read"
    case EnvironmentName => "env.name"
    case MaxRetryAttempts => "retry.max.attempts"
    case RetryDelay => "retry.delay.ms"
    case RetryEnabled => "retry.enabled"
  }

  datatype Kind = Text | Number | Flag

  /** The return type of each getter. */
  function KindOf(s: Setting): Kind {
    match s
    case DefaultProductId | DefaultQuantity | ConnectionTimeout | ReadTimeout
       | MaxRetryAttempts | RetryDelay => Number
    case RequestLogging | ResponseLogging | RetryEnabled => Flag
    case _ => Text
  }

  datatype Value = TextValue(text: string) | NumberValue(number: int32) | FlagValue(flag: bool)

  /** `getInt`-style getters: `Integer.parseInt(getProperty(key))`. */
  function GetNumber(src: Sources, key: string): Result<int32, ConfigError> {
    var v :- GetProperty(src, key);
    ParseInt(v)
  }

  /** `is...Enabled` getters: `Boolean.parseBoolean(getProperty(key))`. */
  function GetFlag(src: Sources, key: string): Result<bool, ConfigError> {
    var v :- GetProperty(src, key);
    Success(ParseBool(v))
  }

  /** The getter for each setting, reading its key and parsing by its type. */
  function Get(src: Sources, s: Setting): Result<Value, ConfigError> {
    match KindOf(s)
    case Text =>
      var v :- GetProperty(src, Key(s));
      Success(TextValue(v))
    case Number =>
      var n :- GetNumber(src, Key(s));
      Success(NumberValue(n))
    case Flag =>
      var b :- GetFlag(src, Key(s));
      Success(FlagValue(b))
  }

  /** A getter fails with the missing key exactly when its key is in neither
      table; a flag getter fails only then; a number getter also fails on a
      value that parseInt rejects, reporting that value. */
  lemma GetterOutcome(src: Sources, s: Setting)
    ensures Get(src, s) == Failure(MissingKey(Key(s))) <==> Key(s) !in Effective(src)
    ensures Key(s) in Effective(src) ==> var v := Effective(src)[Key(s)];
      match KindOf(s)
      case Text => Get(src, s) == Success(TextValue(v))
      case Flag => Get(src, s) == Success(FlagValue(ParseBool(v)))
      case Number =>
        && (ParseInt(v).Success? ==> Get(src, s) == Success(NumberValue(ParseInt(v).value)))
        && (ParseInt(v).Failure? ==> Get(src, s) == Failure(NumberFormat(v)))
  {
  }

  /** A number getter succeeds only on a numeral that fits in 32 bits. */
  lemma NumberGetterNeedsNumeral(src: Sources, s: Setting)
    requires KindOf(s) == Number && Get(src, s).Success?
    ensures Key(s) in Effective(src) && IsNumeral(Effective(src)[Key(s)])
  {
  }
}
