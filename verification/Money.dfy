/**
 Prices as text: the printer of the alert messages and the parser of the
 worker. Amounts are exact decimals; the parser's regular expressions are
 written out as the matches they find.
 */
module Money {
  import opened Rows
  import opened Texts

  datatype Currency = USD | CAD | EUR | GBP | AUD

  function Code(c: Currency): string {
    match c
    case USD => "USD"
    case CAD => "CAD"
    case EUR => "EUR"
    case GBP => "GBP"
    case AUD => "AUD"
  }

  // ---- Characters and digits ----

  predicate IsDigit(c: char) {
    '0' <= c <= '9'
  }

  predicate AllDigits(s: string) {
    forall i :: 0 <= i < |s| ==> IsDigit(s[i])
  }

  function Digit(n: nat): char
    requires n < 10
  {
    '0' + n as char
  }

  function Value(s: string): nat
    requires AllDigits(s)
  {
    if s == "" then 0 else 10 * Value(s[..|s| - 1]) + (s[|s| - 1] as int - '0' as int)
  }

  /** The decimal numeral of n. */
  function Decimal(n: nat): (s: string)
    ensures |s| >= 1 && AllDigits(s) && Value(s) == n
  {
    if n < 10 then
      var s := [Digit(n)];
      assert s[..0] == "";
      s
    else
      var s := Decimal(n / 10) + [Digit(n % 10)];
      assert s[..|s| - 1] == Decimal(n / 10);
      s
  }

  // ---- Printer ----

  function Pow10(n: nat): nat {
    if n == 0 then 1 else 10 * Pow10(n - 1)
  }

  function MinorDigits(currency: string): nat {
    if currency in ["BIF", "CLP", "DJF", "GNF", "ISK", "JPY", "KMF", "KRW", "PYG", "RWF", "UGX", "UYI", "VND", "VUV", "XAF", "XOF", "XPF"] then 0
    else if currency in ["BHD", "IQD", "JOD", "KWD", "LYD", "OMR", "TND"] then 3
    else if currency in ["CLF", "UYW"] then 4
    else 2
  }

  function Padded(s: string, width: nat): string
    decreases width - |s|
  {
    if |s| >= width then s else Padded("0" + s, width)
  }

  lemma {:induction false} Pow10Positive(n: nat)
    ensures Pow10(n) > 0
  {
    if n > 0 {
      Pow10Positive(n - 1);
    }
  }

  function Quotient(a: nat, d: nat): (q: nat)
    requires d > 0
  {
    a / d
  }

  function Remainder(a: nat, d: nat): (r: nat)
    requires d > 0
  {
    a % d
  }

  function MoneyText(minor: int, currency: string): string {
    AmountText(minor, Upper(currency), MinorDigits(Upper(currency)))
  }

  function AmountText(minor: int, code: string, digits: nat): string {
    var sign, amount := if minor < 0 then "-" else "", if minor < 0 then -minor else minor;
    if digits == 0 then sign + code + " " + Decimal(amount)
    else
      Pow10Positive(digits);
      sign + code + " " + Decimal(Quotient(amount, Pow10(digits))) + "." + Padded(Decimal(Remainder(amount, Pow10(digits))), digits)
  }

  method FormatMoney(minor: int, currency: string) returns (text: string)
    ensures text == MoneyText(minor, currency)
  {
    text := FormatAmount(minor, Upper(currency), MinorDigits(Upper(currency)));
  }

  method FormatAmount(minor: int, code: string, digits: nat) returns (text: string)
    ensures text == AmountText(minor, code, digits)
  {
    var sign, amount := "", minor;
    if amount < 0 {
      sign := "-";
      amount := -amount;
    }
    if digits == 0 {
      return sign + code + " " + Decimal(amount);
    }
    var divisor := 1;
    for i := 0 to digits
      invariant divisor == Pow10(i) && divisor > 0
    {
      divisor := divisor * 10;
    }
    text := sign + code + " " + Decimal(Quotient(amount, divisor)) + "." + Padded(Decimal(Remainder(amount, divisor)), digits);
  }

  // ---- Parser: text utilities ----

  predicate IsSpace(c: char) {
    c in [' ', '\t', '\n', '\r', '\U{000B}', '\U{000C}', '\U{00A0}', '\U{FEFF}', '\U{1680}', '\U{2028}', '\U{2029}', '\U{202F}', '\U{205F}', '\U{3000}']
    || '\U{2000}' <= c <= '\U{200A}'
  }

  function TrimStart(s: string): string {
    if s != "" && IsSpace(s[0]) then TrimStart(s[1..]) else s
  }

  function TrimEnd(s: string): string {
    if s != "" && IsSpace(s[|s| - 1]) then TrimEnd(s[..|s| - 1]) else s
  }

  /** Non-breaking spaces become spaces. */
  function Spaced(raw: string): string {
    seq(|raw|, i requires 0 <= i < |raw| => if raw[i] == '\U{00A0}' || raw[i] == '\U{202F}' then ' ' else raw[i])
  }

  function Compact(raw: string): string {
    TrimEnd(TrimStart(Spaced(raw)))
  }

  predicate IsWord(c: char) {
    IsDigit(c) || 'a' <= c <= 'z' || 'A' <= c <= 'Z' || c == '_'
  }

  /** The regular-expression assertion \b at position i. */
  predicate Boundary(s: string, i: nat) {
    (0 < i <= |s| && IsWord(s[i - 1])) != (i < |s| && IsWord(s[i]))
  }

  function LowerChar(c: char): char {
    if 'A' <= c <= 'Z' then c + 32 as char else c
  }

  /** The lower-case text w occurs at i, ignoring case. */
  predicate TextAt(s: string, i: nat, w: string) {
    i + |w| <= |s| && forall k :: 0 <= k < |w| ==> LowerChar(s[i + k]) == w[k]
  }

  predicate WordAt(s: string, i: nat, w: string) {
    TextAt(s, i, w) && Boundary(s, i) && Boundary(s, i + |w|)
  }

  predicate HasWord(s: string, w: string) {
    exists i :: 0 <= i < |s| && WordAt(s, i, w)
  }

  function SkipSpaces(s: string, i: nat): (j: nat)
    requires i <= |s|
    ensures i <= j <= |s|
    decreases |s| - i
  {
    if i < |s| && IsSpace(s[i]) then SkipSpaces(s, i + 1) else i
  }

  /** "/ mo" or "/ month" at i. */
  predicate PerMonthAt(s: string, i: nat)
    requires i < |s|
  {
    s[i] == '/' &&
    var j := SkipSpaces(s, i + 1);
    (TextAt(s, j, "mo") && Boundary(s, j + 2)) || (TextAt(s, j, "month") && Boundary(s, j + 5))
  }

  const AMBIGUOUS := ["from", "starting at", "per month", "monthly", "installment", "finance"]

  predicate Ambiguous(s: string) {
    || (exists w :: w in AMBIGUOUS && HasWord(s, w))
    || (exists i :: 0 <= i < |s| && PerMonthAt(s, i))
  }

  predicate Unsupported(s: string) {
    || (exists i :: 0 <= i < |s| && s[i] in "¥₹₽₩₺₫฿₱₦₴₪")
    || HasWord(s, "jpy")
  }

  // ---- Parser: currencies ----

  /** The symbol match at the start of t, as its currency and length. */
  function SymbolAt(t: string): (found: Option<(Currency, nat)>)
    ensures found.Some? ==> 1 <= found.value.1 <= |t|
  {
    if TextAt(t, 0, "us$") then Some((USD, 3))
    else if TextAt(t, 0, "c$") then Some((CAD, 2))
    else if TextAt(t, 0, "a$") then Some((AUD, 2))
    else if TextAt(t, 0, "$") then Some((USD, 1))
    else if TextAt(t, 0, "€") then Some((EUR, 1))
    else if TextAt(t, 0, "£") then Some((GBP, 1))
    else None
  }

  function Symbols(t: string): set<Currency>
    decreases |t|
  {
    if t == "" then {}
    else
      var found := SymbolAt(t);
      if found.Some? then {found.value.0} + Symbols(t[found.value.1..]) else Symbols(t[1..])
  }

  function LowerCode(c: Currency): string {
    match c
    case USD => "usd"
    case CAD => "cad"
    case EUR => "eur"
    case GBP => "gbp"
    case AUD => "aud"
  }

  const CURRENCIES := {USD, CAD, EUR, GBP, AUD}

  function Codes(s: string): set<Currency> {
    set c | c in CURRENCIES && HasWord(s, LowerCode(c))
  }

  // ---- Parser: numbers ----

  function DigitRun(t: string): (n: nat)
    ensures n <= |t| && AllDigits(t[..n]) && (n < |t| ==> !IsDigit(t[n]))
  {
    if t == "" || !IsDigit(t[0]) then 0 else
      var n := 1 + DigitRun(t[1..]);
      assert forall i :: 1 <= i < n ==> t[i] == t[1..][i - 1];
      n
  }

  /** [.,]\d{1,2} at the start of t, greedy, or nothing. */
  function DecimalsLen(t: string): (n: nat)
    ensures n <= |t|
  {
    if |t| >= 2 && t[0] in ".," && IsDigit(t[1]) then (if |t| >= 3 && IsDigit(t[2]) then 3 else 2) else 0
  }

  /** A separator and three digits, as often as possible. */
  function GroupsLen(t: string, separators: string): (n: nat)
    ensures n <= |t|
  {
    if |t| >= 4 && t[0] in separators && AllDigits(t[1..4]) then 4 + GroupsLen(t[4..], separators) else 0
  }

  function HeadGroups(t: string, separators: string, k: nat): (n: nat)
    ensures n <= |t|
  {
    if k <= |t| && AllDigits(t[..k]) && GroupsLen(t[k..], separators) > 0 then k + GroupsLen(t[k..], separators) else 0
  }

  /** \d{1,3} followed by at least one group, the longest head first. */
  function GroupedLen(t: string, separators: string): (n: nat)
    ensures n <= |t|
  {
    if HeadGroups(t, separators, 3) > 0 then HeadGroups(t, separators, 3)
    else if HeadGroups(t, separators, 2) > 0 then HeadGroups(t, separators, 2)
    else HeadGroups(t, separators, 1)
  }

  /** The length of the numeric token at the start of t; 0 if there is none. */
  function MatchLen(t: string): (n: nat)
    ensures n <= |t|
  {
    var spaced := GroupedLen(t, " ");
    if spaced > 0 then spaced + DecimalsLen(t[spaced..])
    else
      var grouped := GroupedLen(t, ",.");
      var base := if grouped > 0 then grouped else DigitRun(t);
      if base == 0 then 0 else base + DecimalsLen(t[base..])
  }

  /** All numeric tokens of t, as positions and lengths. */
  function Numbers(t: string, at: nat): seq<(nat, nat)>
    decreases |t|
  {
    if t == "" then []
    else
      var n := MatchLen(t);
      if n > 0 then [(at, n)] + Numbers(t[n..], at + n) else Numbers(t[1..], at + 1)
  }

  function RemoveAll(s: string, c: char): string {
    if s == "" then "" else (if s[0] == c then "" else [s[0]]) + RemoveAll(s[1..], c)
  }

  function LastIndex(s: string, c: char): (i: int)
    ensures -1 <= i < |s|
  {
    if s == "" then -1 else if s[|s| - 1] == c then |s| - 1 else LastIndex(s[..|s| - 1], c)
  }

  function ReplaceFirst(s: string, c: char, d: char): string {
    if s == "" then "" else if s[0] == c then [d] + s[1..] else [s[0]] + ReplaceFirst(s[1..], c, d)
  }

  /** Which separators group and which one is the decimal mark. */
  function Normalise(token: string): string {
    var t := RemoveAll(token, ' ');
    ByMarks(t, LastIndex(t, ','), LastIndex(t, '.'))
  }

  function ByMarks(t: string, comma: int, dot: int): string
    requires comma < |t| && dot < |t|
  {
    if comma >= 0 && dot >= 0 && comma > dot then ReplaceFirst(RemoveAll(t, '.'), ',', '.')
    else if comma >= 0 && dot >= 0 then RemoveAll(t, ',')
    else if comma < 0 && dot < 0 then t
    else OneMark(t, if comma >= 0 then ',' else '.', if comma >= 0 then comma else dot)
  }

  /** Three digits after the last of one kind of separator make all of them grouping. */
  function OneMark(t: string, mark: char, last: nat): string
    requires last < |t|
  {
    if |t| - last - 1 == 3 then RemoveAll(t, mark)
    else RemoveAll(t[..last], mark) + "." + t[last + 1..]
  }

  /** Number(s): digits with at most one dot, as mantissa and scale. */
  function ParseNumber(s: string): Option<(nat, nat)> {
    var dot := LastIndex(s, '.');
    if dot < 0 then (if s != "" && AllDigits(s) then Some((Value(s), 0)) else None)
    else
      var digits := s[..dot] + s[dot + 1..];
      if digits != "" && AllDigits(digits) then Some((Value(digits), |s| - dot - 1)) else None
  }

  /** Math.round(mantissa / 10^scale * 100). */
  function ToMinor(mantissa: nat, scale: nat): nat {
    Pow10Positive(scale);
    (200 * mantissa + Pow10(scale)) / (2 * Pow10(scale))
  }

  datatype Price = Price(minor: nat, currency: Option<Currency>) | Refused

  predicate IsUpper(c: char) {
    'A' <= c <= 'Z'
  }

  predicate Supported(code: string) {
    exists c :: c in CURRENCIES && Code(c) == code
  }

  /** A three-letter code right before the number that is not supported. */
  predicate BadCodeBefore(s: string) {
    var b := TrimEnd(s);
    && |b| >= 3 && (forall i :: |b| - 3 <= i < |b| ==> IsUpper(b[i]))
    && Boundary(b, |b| - 3) && !Supported(b[|b| - 3..])
  }

  predicate BadCodeAfter(s: string) {
    var a := TrimStart(s);
    && |a| >= 3 && (forall i :: 0 <= i < 3 ==> IsUpper(a[i]))
    && Boundary(a, 3) && !Supported(a[..3])
  }

  function PriceOf(text: string, at: nat, len: nat, currency: Option<Currency>): Price
    requires at + len <= |text|
  {
    if BadCodeBefore(text[..at]) || BadCodeAfter(text[at + len..]) then Refused
    else
      var number := ParseNumber(Normalise(text[at..at + len]));
      if number.None? || number.value.0 == 0 then Refused
      else Price(ToMinor(number.value.0, number.value.1), currency)
  }

  lemma {:induction false} NumbersInside(t: string, at: nat)
    ensures forall k :: 0 <= k < |Numbers(t, at)| ==> at <= Numbers(t, at)[k].0 && Numbers(t, at)[k].0 + Numbers(t, at)[k].1 <= at + |t|
    decreases |t|
  {
    hide MatchLen;
    if t != "" {
      var n := MatchLen(t);
      if n > 0 {
        NumbersInside(t[n..], at + n);
      } else {
        NumbersInside(t[1..], at + 1);
      }
    }
  }

  /** The only element of a set, if there is one. */
  function Only(s: set<Currency>): Option<Currency> {
    if USD in s then Some(USD) else if CAD in s then Some(CAD) else if EUR in s then Some(EUR)
    else if GBP in s then Some(GBP) else if AUD in s then Some(AUD) else None
  }

  /** The price in a compacted text. */
  function ParseCompact(text: string): Price {
    var found := Symbols(text) + Codes(text);
    if Ambiguous(text) || Unsupported(text) || |found| > 1 then Refused
    else ReadPrice(text, Numbers(text, 0), Only(found))
  }

  function ReadPrice(text: string, numbers: seq<(nat, nat)>, currency: Option<Currency>): Price
    requires numbers == Numbers(text, 0)
  {
    if |numbers| != 1 then Refused
    else
      NumbersInside(text, 0);
      PriceOf(text, numbers[0].0, numbers[0].1, currency)
  }

  function Parse(raw: string): Price {
    ParseCompact(Compact(raw))
  }

  // ---- Parser: the program ----

  method DetectSymbols(text: string) returns (found: set<Currency>)
    ensures found == Symbols(text)
  {
    hide SymbolAt;
    found := {};
    var at := 0;
    while at < |text|
      invariant at <= |text| && Symbols(text) == found + Symbols(text[at..])
    {
      var hit := SymbolAt(text[at..]);
      if hit.Some? {
        found := found + {hit.value.0};
        assert text[at..][hit.value.1..] == text[at + hit.value.1..];
        at := at + hit.value.1;
      } else {
        assert text[at..][1..] == text[at + 1..];
        at := at + 1;
      }
    }
  }

  /** The codes whose match starts before `at`. */
  function CodesBefore(text: string, at: nat): set<Currency> {
    set c | c in CURRENCIES && StartsBefore(text, at, LowerCode(c))
  }

  predicate StartsBefore(text: string, at: nat, w: string) {
    exists i :: 0 <= i < at && WordAt(text, i, w)
  }

  lemma CodesGrow(text: string, at: nat)
    ensures CodesBefore(text, at + 1) == CodesBefore(text, at) + set c | c in CURRENCIES && WordAt(text, at, LowerCode(c))
  {
    forall c | c in CURRENCIES
      ensures StartsBefore(text, at + 1, LowerCode(c)) <==> StartsBefore(text, at, LowerCode(c)) || WordAt(text, at, LowerCode(c))
    {
    }
  }

  lemma CodesComplete(text: string)
    ensures CodesBefore(text, |text|) == Codes(text)
  {
    forall c | c in CURRENCIES ensures StartsBefore(text, |text|, LowerCode(c)) <==> HasWord(text, LowerCode(c)) {
    }
  }

  method DetectCodes(text: string) returns (found: set<Currency>)
    ensures found == Codes(text)
  {
    found := {};
    for at := 0 to |text|
      invariant found == CodesBefore(text, at)
    {
      CodesGrow(text, at);
      found := found + set c | c in CURRENCIES && WordAt(text, at, LowerCode(c));
    }
    CodesComplete(text);
  }

  /** The tokens of text[..at] are found, and the scan goes on at `at`. */
  ghost predicate Scanned(text: string, at: nat, numbers: seq<(nat, nat)>) {
    at <= |text| && Numbers(text, 0) == numbers + Numbers(text[at..], at)
  }

  lemma ScanStep(text: string, at: nat, numbers: seq<(nat, nat)>)
    requires Scanned(text, at, numbers) && at < |text|
    ensures var n := MatchLen(text[at..]);
      if n > 0 then Scanned(text, at + n, numbers + [(at, n)]) else Scanned(text, at + 1, numbers)
  {
    hide MatchLen;
    var n := MatchLen(text[at..]);
    if n > 0 {
      assert text[at..][n..] == text[at + n..];
      assert Numbers(text[at..], at) == [(at, n)] + Numbers(text[at + n..], at + n);
    } else {
      assert text[at..][1..] == text[at + 1..];
      assert Numbers(text[at..], at) == Numbers(text[at + 1..], at + 1);
    }
  }

  lemma ScanEnds(text: string, numbers: seq<(nat, nat)>)
    ensures Scanned(text, 0, []) && (Scanned(text, |text|, numbers) ==> numbers == Numbers(text, 0))
  {
    hide MatchLen;
    assert text[0..] == text && text[|text|..] == "";
    assert Numbers("", |text|) == [];
  }

  method FindNumbers(text: string) returns (numbers: seq<(nat, nat)>)
    ensures numbers == Numbers(text, 0)
  {
    hide Scanned;
    numbers := [];
    var at := 0;
    ScanEnds(text, []);
    while at < |text|
      invariant at <= |text| && Scanned(text, at, numbers)
    {
      ScanStep(text, at, numbers);
      var n := MatchLen(text[at..]);
      numbers := if n > 0 then numbers + [(at, n)] else numbers;
      at := at + if n > 0 then n else 1;
    }
    ScanEnds(text, numbers);
  }

  /** The variable `numeric`, rewritten until only a decimal point is left. */
  method NormaliseToken(token: string) returns (numeric: string)
    ensures numeric == Normalise(token)
  {
    hide RemoveAll, LastIndex, ReplaceFirst, OneMark;
    numeric := RemoveAll(token, ' ');
    var lastComma, lastDot := LastIndex(numeric, ','), LastIndex(numeric, '.');
    if lastComma >= 0 && lastDot >= 0 && lastComma > lastDot {
      numeric := RemoveAll(numeric, '.');
      numeric := ReplaceFirst(numeric, ',', '.');
    } else if lastComma >= 0 && lastDot >= 0 {
      numeric := RemoveAll(numeric, ',');
    } else if lastComma >= 0 {
      numeric := NormaliseOne(numeric, ',', lastComma);
    } else if lastDot >= 0 {
      numeric := NormaliseOne(numeric, '.', lastDot);
    }
  }

  /** Only one kind of separator: it groups, unless the last one marks the decimals. */
  method NormaliseOne(token: string, separator: char, last: nat) returns (numeric: string)
    requires last < |token|
    ensures numeric == OneMark(token, separator, last)
  {
    var fractionDigits := |token| - last - 1;
    if fractionDigits == 3 {
      numeric := RemoveAll(token, separator);
    } else {
      var whole := RemoveAll(token[..last], separator);
      numeric := whole + "." + token[last + 1..];
    }
  }

  method ParsePrice(raw: string) returns (price: Price)
    ensures price == Parse(raw)
  {
    var text := Compact(raw);
    if Ambiguous(text) || Unsupported(text) {
      return Refused;
    }
    var found := DetectSymbols(text);
    var codes := DetectCodes(text);
    found := found + codes;
    if |found| > 1 {
      return Refused;
    }
    var numbers := FindNumbers(text);
    if |numbers| != 1 {
      return Refused;
    }
    NumbersInside(text, 0);
    var (at, len) := numbers[0];
    if BadCodeBefore(text[..at]) || BadCodeAfter(text[at + len..]) {
      return Refused;
    }
    var numeric := NormaliseToken(text[at..at + len]);
    var number := ParseNumber(numeric);
    if number.None? || number.value.0 == 0 {
      return Refused;
    }
    return Price(ToMinor(number.value.0, number.value.1), Only(found));
  }
}
