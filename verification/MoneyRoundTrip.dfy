/** Every spelling of a price that the parser promises to read is read back exactly. */
module MoneyRoundTrip {
  import opened Rows
  import opened Texts
  import opened Money

  // ---- Spellings ----

  datatype Grouping = Ungrouped | ByComma | ByDot | BySpace | ByNoBreakSpace | ByNarrowSpace

  datatype Symbol = UsDollar | Dollar | CanadianDollar | AustralianDollar | EuroSign | PoundSign

  datatype Label = Bare | ByCode(code: Currency) | BySymbol(symbol: Symbol)

  /** A label stands before or after the number, with or without a space between them. */
  datatype Layout = Layout(tag: Label, leading: bool, gap: string)

  function LabelText(tag: Label): string {
    match tag
    case Bare => ""
    case ByCode(c) => Code(c)
    case BySymbol(s) =>
      match s
      case UsDollar => "US$"
      case Dollar => "$"
      case CanadianDollar => "C$"
      case AustralianDollar => "A$"
      case EuroSign => "€"
      case PoundSign => "£"
  }

  function Prefix(l: Layout): string {
    if l.tag.Bare? || !l.leading then "" else LabelText(l.tag) + l.gap
  }

  function Suffix(l: Layout): string {
    if l.tag.Bare? || l.leading then "" else l.gap + LabelText(l.tag)
  }

  /** One space of any kind, or none. */
  predicate Legal(l: Layout) {
    l.gap in ["", " ", "\U{00A0}", "\U{202F}"]
  }

  /** The currency the parser reads: a code glued to the number is no word of its own and is not read. */
  function CurrencyRead(l: Layout): Option<Currency> {
    if l.tag.ByCode? && l.gap == "" then None else CurrencyOf(l.tag)
  }

  function CurrencyOf(tag: Label): Option<Currency> {
    match tag
    case Bare => None
    case ByCode(c) => Some(c)
    case BySymbol(s) =>
      match s
      case UsDollar => Some(USD)
      case Dollar => Some(USD)
      case CanadianDollar => Some(CAD)
      case AustralianDollar => Some(AUD)
      case EuroSign => Some(EUR)
      case PoundSign => Some(GBP)
  }

  /** Groups of three digits, each after a separator. */
  function Groups(ds: string, sep: char): string
    requires |ds| % 3 == 0
  {
    if ds == "" then "" else [sep] + ds[..3] + Groups(ds[3..], sep)
  }

  function HeadLen(ds: string): nat
    requires ds != ""
  {
    (|ds| - 1) % 3 + 1
  }

  function Grouped(ds: string, sep: Option<char>): string
    requires ds != ""
  {
    if sep.None? then ds else ds[..HeadLen(ds)] + Groups(ds[HeadLen(ds)..], sep.value)
  }

  function Separator(g: Grouping): Option<char> {
    match g
    case Ungrouped => None
    case ByComma => Some(',')
    case ByDot => Some('.')
    case BySpace => Some(' ')
    case ByNoBreakSpace => Some('\U{00A0}')
    case ByNarrowSpace => Some('\U{202F}')
  }

  function Cents(c: nat): string
    requires c < 100
  {
    [Digit(c / 10), Digit(c % 10)]
  }

  /** Two decimals after `mark`, or none. */
  function Fraction(cents: nat, mark: char, decimals: bool): string
    requires cents < 100
  {
    if decimals then [mark] + Cents(cents) else ""
  }

  function Spell(l: Layout, minor: nat, g: Grouping, mark: char, decimals: bool): string {
    Prefix(l) + (Grouped(Decimal(minor / 100), Separator(g)) + Fraction(minor % 100, mark, decimals)) + Suffix(l)
  }

  // ---- Separators ----

  lemma {:induction false} GroupsChars(ds: string, sep: char)
    requires |ds| % 3 == 0 && AllDigits(ds)
    ensures forall i :: 0 <= i < |Groups(ds, sep)| ==> IsDigit(Groups(ds, sep)[i]) || Groups(ds, sep)[i] == sep
    ensures ds != "" ==> Groups(ds, sep)[0] == sep && |Groups(ds, sep)| >= 4 && IsDigit(Groups(ds, sep)[|Groups(ds, sep)| - 1])
  {
    if ds != "" {
      GroupsChars(ds[3..], sep);
    }
  }

  lemma GroupStep(t: string, separators: string)
    requires |t| >= 4 && t[0] in separators && AllDigits(t[1..4])
    ensures GroupsLen(t, separators) == 4 + GroupsLen(t[4..], separators)
  {
  }

  /** A greedy match of groups takes all of them and stops at the fraction. */
  lemma {:induction false} GroupsMatch(ds: string, sep: char, separators: string, tail: string)
    requires |ds| % 3 == 0 && AllDigits(ds) && sep in separators && GroupsLen(tail, separators) == 0
    ensures GroupsLen(Groups(ds, sep) + tail, separators) == |Groups(ds, sep)|
  {
    hide GroupsLen;
    if ds == "" {
      assert Groups(ds, sep) + tail == tail;
    } else {
      var rest := Groups(ds[3..], sep);
      var t := [sep] + ds[..3] + (rest + tail);
      assert t == Groups(ds, sep) + tail;
      assert t[1..4] == ds[..3];
      GroupStep(t, separators);
      assert t[4..] == rest + tail;
      GroupsMatch(ds[3..], sep, separators, tail);
    }
  }

  lemma {:induction false} RemoveConcat(a: string, b: string, c: char)
    ensures RemoveAll(a + b, c) == RemoveAll(a, c) + RemoveAll(b, c)
  {
    if a == "" {
      assert a + b == b;
    } else {
      assert (a + b)[1..] == a[1..] + b;
      RemoveConcat(a[1..], b, c);
    }
  }

  lemma {:induction false} RemoveNothing(s: string, c: char)
    requires forall i :: 0 <= i < |s| ==> s[i] != c
    ensures RemoveAll(s, c) == s
  {
    if s != "" {
      RemoveNothing(s[1..], c);
    }
  }

  lemma {:induction false} RemoveGroups(ds: string, sep: char)
    requires |ds| % 3 == 0 && AllDigits(ds) && !IsDigit(sep)
    ensures RemoveAll(Groups(ds, sep), sep) == ds
  {
    if ds != "" {
      RemoveConcat([sep] + ds[..3], Groups(ds[3..], sep), sep);
      RemoveConcat([sep], ds[..3], sep);
      RemoveNothing(ds[..3], sep);
      assert RemoveAll([sep], sep) == "" by {
        assert [sep][1..] == "";
      }
      RemoveGroups(ds[3..], sep);
    }
  }

  /** Removing the separators of a grouped numeral gives the numeral. */
  lemma RemoveGrouped(ds: string, sep: char)
    requires ds != "" && AllDigits(ds) && !IsDigit(sep)
    ensures RemoveAll(Grouped(ds, Some(sep)), sep) == ds
  {
    hide RemoveAll, Groups;
    var h := HeadLen(ds);
    RemoveConcat(ds[..h], Groups(ds[h..], sep), sep);
    RemoveNothing(ds[..h], sep);
    RemoveGroups(ds[h..], sep);
  }

  lemma {:induction false} LastIndexConcat(a: string, b: string, c: char)
    ensures LastIndex(a + b, c) == if LastIndex(b, c) >= 0 then |a| + LastIndex(b, c) else LastIndex(a, c)
  {
    if b == "" {
      assert a + b == a;
    } else {
      assert (a + b)[..|a + b| - 1] == a + b[..|b| - 1];
      LastIndexConcat(a, b[..|b| - 1], c);
    }
  }

  lemma {:induction false} LastIndexAbsent(s: string, c: char)
    requires forall i :: 0 <= i < |s| ==> s[i] != c
    ensures LastIndex(s, c) == -1
  {
    if s != "" {
      LastIndexAbsent(s[..|s| - 1], c);
    }
  }

  /** The last separator of non-empty groups stands before the last three digits. */
  lemma {:induction false} LastSeparator(ds: string, sep: char)
    requires |ds| % 3 == 0 && ds != "" && AllDigits(ds) && !IsDigit(sep)
    ensures LastIndex(Groups(ds, sep), sep) == |Groups(ds, sep)| - 4
  {
    var rest := Groups(ds[3..], sep);
    LastIndexConcat([sep] + ds[..3], rest, sep);
    if ds[3..] != "" {
      LastSeparator(ds[3..], sep);
    } else {
      LastIndexConcat([sep], ds[..3], sep);
      LastIndexAbsent(ds[..3], sep);
      assert LastIndex([sep], sep) == 0;
    }
  }

  // ---- The numeric token ----

  /** The characters of a compacted numeric token. */
  predicate Plain(c: char) {
    IsDigit(c) || c == ' ' || c == ',' || c == '.'
  }

  predicate IsMark(c: char) {
    c == ',' || c == '.'
  }

  lemma GroupedChars(ds: string, sep: Option<char>)
    requires ds != "" && AllDigits(ds)
    ensures forall i :: 0 <= i < |Grouped(ds, sep)| ==> IsDigit(Grouped(ds, sep)[i]) || Some(Grouped(ds, sep)[i]) == sep
    ensures Grouped(ds, sep) != "" && IsDigit(Grouped(ds, sep)[0]) && IsDigit(Grouped(ds, sep)[|Grouped(ds, sep)| - 1])
  {
    if sep.Some? {
      GroupsChars(ds[HeadLen(ds)..], sep.value);
    }
  }

  lemma NoGroups(t: string, separators: string)
    requires t == "" || t[0] !in separators
    ensures GroupsLen(t, separators) == 0
  {
  }

  /** A run of digits that is not followed by a group is no grouped numeral. */
  lemma NotGrouped(ds: string, tail: string, separators: string)
    requires ds != "" && AllDigits(ds) && (tail != "" ==> !IsDigit(tail[0])) && GroupsLen(tail, separators) == 0
    requires forall i :: 0 <= i < |separators| ==> !IsDigit(separators[i])
    ensures GroupedLen(ds + tail, separators) == 0
  {
    var t := ds + tail;
    forall k | 1 <= k <= 3 ensures HeadGroups(t, separators, k) == 0 {
      if k <= |t| {
        if k > |ds| {
          assert t[..k][|ds|] == tail[0];
        } else if k == |ds| {
          assert t[k..] == tail;
        } else {
          assert t[k..][0] == ds[k];
          NoGroups(t[k..], separators);
        }
      }
    }
  }

  /** A head of one to three digits and at least one group is matched completely. */
  lemma GroupedMatch(ds: string, sep: char, separators: string, tail: string)
    requires |ds| > 3 && AllDigits(ds) && sep in separators && !IsDigit(sep) && GroupsLen(tail, separators) == 0
    ensures GroupedLen(Grouped(ds, Some(sep)) + tail, separators) == |Grouped(ds, Some(sep))|
  {
    var h := HeadLen(ds);
    var rest := Groups(ds[h..], sep) + tail;
    GroupsChars(ds[h..], sep);
    GroupsMatch(ds[h..], sep, separators, tail);
    AfterHead(ds[..h], rest, separators);
    assert Grouped(ds, Some(sep)) + tail == ds[..h] + rest;
  }

  lemma AfterHead(head: string, rest: string, separators: string)
    requires 1 <= |head| <= 3 && AllDigits(head)
    requires rest != "" && !IsDigit(rest[0]) && GroupsLen(rest, separators) > 0
    ensures GroupedLen(head + rest, separators) == |head| + GroupsLen(rest, separators)
  {
    var t := head + rest;
    assert t[..|head|] == head && t[|head|..] == rest;
    forall k | |head| < k <= 3 ensures HeadGroups(t, separators, k) == 0 {
      if k <= |t| {
        assert t[..k][|head|] == rest[0];
      }
    }
  }

  predicate NoDigits(s: string) {
    forall i :: 0 <= i < |s| ==> !IsDigit(s[i])
  }

  lemma FractionMatch(cents: nat, mark: char, decimals: bool, separators: string, tail: string)
    requires cents < 100 && IsMark(mark) && NoDigits(tail)
    ensures GroupsLen(Fraction(cents, mark, decimals) + tail, separators) == 0
    ensures DecimalsLen(Fraction(cents, mark, decimals) + tail) == |Fraction(cents, mark, decimals)|
    ensures var t := Fraction(cents, mark, decimals) + tail; t != "" ==> !IsDigit(t[0])
  {
    var t := Fraction(cents, mark, decimals) + tail;
    if decimals {
      assert |t| >= 4 ==> t[1..4][2] == tail[0];
    } else {
      assert t == tail;
      assert |t| >= 4 ==> t[1..4][0] == tail[1];
    }
  }

  lemma {:induction false} DigitRunExact(ds: string, tail: string)
    requires AllDigits(ds) && (tail != "" ==> !IsDigit(tail[0]))
    ensures DigitRun(ds + tail) == |ds|
  {
    if ds == "" {
      assert ds + tail == tail;
    } else {
      assert (ds + tail)[1..] == ds[1..] + tail;
      DigitRunExact(ds[1..], tail);
    }
  }

  /** The scanner takes the whole spelled number, and nothing of what follows it, as one token. */
  lemma TokenMatch(ds: string, sep: Option<char>, cents: nat, mark: char, decimals: bool, tail: string)
    requires ds != "" && AllDigits(ds) && cents < 100 && IsMark(mark) && NoDigits(tail)
    requires sep.None? || sep.value in " ,."
    ensures var n := Grouped(ds, sep) + Fraction(cents, mark, decimals);
      MatchLen(n + tail) == |n|
  {
    hide GroupedLen, Grouped, DecimalsLen, MatchLen, GroupsLen, Fraction, NoDigits;
    var f := Fraction(cents, mark, decimals) + tail;
    var g := Grouped(ds, sep);
    var t := Grouped(ds, sep) + Fraction(cents, mark, decimals) + tail;
    FractionMatch(cents, mark, decimals, " ", tail);
    FractionMatch(cents, mark, decimals, ",.", tail);
    assert t == g + f && t[|g|..] == f;
    GroupedChars(ds, sep);
    if sep.None? || |ds| <= 3 {
      Ungroupable(ds, sep);
      NotGrouped(ds, f, " ");
      NotGrouped(ds, f, ",.");
      DigitRunExact(ds, f);
      MatchIs(t, |ds|);
    } else if sep.value == ' ' {
      GroupedMatch(ds, ' ', " ", f);
      MatchIs(t, |g|);
    } else {
      GroupedMatch(ds, sep.value, ",.", f);
      NoSpaceInside(ds, sep.value, cents, mark, decimals, tail);
      MatchIs(t, |g|);
    }
  }

  /** The token is the longest grouping, or the run of digits, and its decimals. */
  lemma MatchIs(t: string, base: nat)
    requires 0 < base <= |t|
    requires base == if GroupedLen(t, " ") > 0 then GroupedLen(t, " ") else if GroupedLen(t, ",.") > 0 then GroupedLen(t, ",.") else DigitRun(t)
    ensures MatchLen(t) == base + DecimalsLen(t[base..])
  {
    hide GroupedLen, DigitRun, DecimalsLen;
  }

  lemma NoSpaceInside(ds: string, sep: char, cents: nat, mark: char, decimals: bool, tail: string)
    requires ds != "" && AllDigits(ds) && cents < 100 && IsMark(mark) && NoDigits(tail) && IsMark(sep)
    ensures GroupedLen(Grouped(ds, Some(sep)) + Fraction(cents, mark, decimals) + tail, " ") == 0
  {
    hide GroupedLen, Grouped;
    var n := Grouped(ds, Some(sep)) + Fraction(cents, mark, decimals);
    GroupedChars(ds, Some(sep));
    NoSpaceGroups(n + tail, |n|);
  }

  lemma Ungroupable(ds: string, sep: Option<char>)
    requires ds != "" && (sep.None? || |ds| <= 3)
    ensures Grouped(ds, sep) == ds
  {
  }

  /** Without a space before the last digit, nothing is grouped by spaces. */
  lemma NoSpaceGroups(t: string, n: nat)
    requires n <= |t| && (forall i :: 0 <= i < n ==> t[i] != ' ') && (forall i :: n <= i < |t| ==> !IsDigit(t[i]))
    ensures GroupedLen(t, " ") == 0
  {
    forall k | 1 <= k <= 3 ensures HeadGroups(t, " ", k) == 0 {
      if k < |t| {
        assert t[k..][0] == t[k];
        if t[k] == ' ' && k + 4 <= |t| {
          assert t[k..][1..4][0] == t[k + 1];
        }
      }
    }
  }

  lemma {:induction false} NumbersAfter(p: string, n: string, tail: string, at: nat)
    requires NoDigits(p) && NoDigits(tail)
    requires n != "" && MatchLen(n + tail) == |n|
    ensures Numbers(p + n + tail, at) == [(at + |p|, |n|)]
  {
    hide MatchLen;
    var t := p + n + tail;
    if p == "" {
      assert t == n + tail && t[|n|..] == tail;
      NoNumbers(tail, at + |n|);
    } else {
      assert t[1..] == p[1..] + n + tail;
      NoToken(t);
      NumbersAfter(p[1..], n, tail, at + 1);
    }
  }

  lemma {:induction false} NoNumbers(tail: string, at: nat)
    requires NoDigits(tail)
    ensures Numbers(tail, at) == []
    decreases |tail|
  {
    hide MatchLen;
    if tail != "" {
      NoToken(tail);
      NoNumbers(tail[1..], at + 1);
    }
  }

  lemma NoToken(t: string)
    requires t != "" && !IsDigit(t[0])
    ensures MatchLen(t) == 0
  {
    forall k, separators | 1 <= k <= 3 ensures HeadGroups(t, separators, k) == 0 {
      if k <= |t| {
        assert t[..k][0] == t[0];
      }
    }
  }

  // ---- Normalisation ----

  /** Where the mark of an ungrouped number stands. */
  lemma UngroupedMarks(ds: string, cents: nat, mark: char, decimals: bool, c: char)
    requires AllDigits(ds) && cents < 100 && IsMark(mark) && IsMark(c)
    ensures LastIndex(ds + Fraction(cents, mark, decimals), c) == if decimals && c == mark then |ds| else -1
  {
    LastIndexAbsent(ds, c);
    LastIndexConcat(ds, Fraction(cents, mark, decimals), c);
    if decimals {
      LastIndexConcat([mark], Cents(cents), c);
      LastIndexAbsent(Cents(cents), c);
      assert LastIndex([mark], c) == if c == mark then 0 else -1;
    }
  }

  /** Without grouping marks, only the fraction's mark is looked at. */
  lemma NormaliseUngrouped(ds: string, cents: nat, mark: char, decimals: bool, token: string)
    requires ds != "" && AllDigits(ds) && cents < 100 && IsMark(mark)
    requires RemoveAll(token, ' ') == ds + Fraction(cents, mark, decimals)
    ensures Normalise(token) == ds + Fraction(cents, '.', decimals)
  {
    hide LastIndex, RemoveAll, ReplaceFirst;
    var t := ds + Fraction(cents, mark, decimals);
    UngroupedMarks(ds, cents, mark, decimals, ',');
    UngroupedMarks(ds, cents, mark, decimals, '.');
    if decimals {
      RemoveNothing(ds, mark);
      assert t[..|ds|] == ds && t[|ds| + 1..] == Cents(cents);
    }
  }

  /** Where the separators of a grouped numeral stand. */
  lemma SeparatorsOf(ds: string, sep: char, c: char)
    requires |ds| > 3 && AllDigits(ds) && IsMark(sep) && IsMark(c)
    ensures LastIndex(Grouped(ds, Some(sep)), c) == if c == sep then |Grouped(ds, Some(sep))| - 4 else -1
  {
    hide LastIndex;
    var h := HeadLen(ds);
    LastIndexConcat(ds[..h], Groups(ds[h..], sep), c);
    if c == sep {
      LastSeparator(ds[h..], sep);
      GroupsChars(ds[h..], sep);
    } else {
      GroupedChars(ds, Some(sep));
      LastIndexAbsent(Grouped(ds, Some(sep)), c);
    }
  }

  /** Where the marks of a grouped numeral with its fraction stand. */
  lemma MarksOf(ds: string, sep: char, cents: nat, mark: char, decimals: bool, c: char)
    requires |ds| > 3 && AllDigits(ds) && cents < 100 && IsMark(mark) && IsMark(sep) && IsMark(c)
    ensures var g := Grouped(ds, Some(sep));
      LastIndex(g + Fraction(cents, mark, decimals), c) ==
        if decimals && c == mark then |g| else if c == sep then |g| - 4 else -1
  {
    hide LastIndex, Grouped;
    var f := Fraction(cents, mark, decimals);
    SeparatorsOf(ds, sep, c);
    LastIndexConcat(Grouped(ds, Some(sep)), f, c);
    UngroupedMarks("", cents, mark, decimals, c);
    assert "" + f == f;
  }

  lemma {:induction false} ReplaceFirstMark(ds: string, tail: string, c: char, d: char)
    requires AllDigits(ds) && !IsDigit(c)
    ensures ReplaceFirst(ds + [c] + tail, c, d) == ds + [d] + tail
  {
    var t := ds + [c] + tail;
    if ds != "" {
      assert t[1..] == ds[1..] + [c] + tail;
      ReplaceFirstMark(ds[1..], tail, c, d);
    } else {
      assert t[1..] == tail;
    }
  }

  lemma RemoveFromFraction(cents: nat, mark: char, decimals: bool, c: char)
    requires cents < 100 && !IsDigit(c) && c != mark
    ensures RemoveAll(Fraction(cents, mark, decimals), c) == Fraction(cents, mark, decimals)
  {
    RemoveNothing(Fraction(cents, mark, decimals), c);
  }

  /** Same separator throughout: it groups, and marks the decimals only if two digits follow the last one. */
  lemma SameMark(ds: string, sep: char, cents: nat, decimals: bool)
    requires |ds| > 3 && AllDigits(ds) && cents < 100 && IsMark(sep)
    ensures var g := Grouped(ds, Some(sep));
      OneMark(g + Fraction(cents, sep, decimals), sep, if decimals then |g| else |g| - 4) == ds + Fraction(cents, '.', decimals)
  {
    var g, f := Grouped(ds, Some(sep)), Fraction(cents, sep, decimals);
    var t := g + f;
    RemoveGrouped(ds, sep);
    if decimals {
      assert t[..|g|] == g && t[|g| + 1..] == Cents(cents);
    } else {
      assert t == g;
    }
  }

  lemma OtherMark(ds: string, sep: char, cents: nat, mark: char)
    requires |ds| > 3 && AllDigits(ds) && cents < 100 && IsMark(mark) && IsMark(sep) && mark != sep
    ensures RemoveAll(Grouped(ds, Some(sep)) + Fraction(cents, mark, true), sep) == ds + [mark] + Cents(cents)
  {
    RemoveGrouped(ds, sep);
    RemoveConcat(Grouped(ds, Some(sep)), Fraction(cents, mark, true), sep);
    RemoveFromFraction(cents, mark, true, sep);
  }

  lemma GroupedLong(ds: string, sep: char)
    requires |ds| > 3 && AllDigits(ds)
    ensures |Grouped(ds, Some(sep))| >= 5
  {
    GroupsChars(ds[HeadLen(ds)..], sep);
  }

  lemma MarksDecide(ds: string, sep: char, cents: nat, mark: char, decimals: bool)
    requires |ds| > 3 && AllDigits(ds) && cents < 100 && IsMark(mark) && IsMark(sep)
    ensures var g := Grouped(ds, Some(sep));
      var t := g + Fraction(cents, mark, decimals);
      Normalise(t) ==
        if decimals && mark != sep then (if mark == ',' then ReplaceFirst(RemoveAll(t, sep), ',', '.') else RemoveAll(t, sep))
        else OneMark(t, sep, if decimals then |g| else |g| - 4)
  {
    hide Grouped, LastIndex, RemoveAll, ReplaceFirst, OneMark;
    var g := Grouped(ds, Some(sep));
    var t := g + Fraction(cents, mark, decimals);
    GroupedChars(ds, Some(sep));
    GroupedLong(ds, sep);
    RemoveNothing(t, ' ');
    MarksOf(ds, sep, cents, mark, decimals, ',');
    MarksOf(ds, sep, cents, mark, decimals, '.');
  }

  lemma NormaliseGrouped(ds: string, sep: char, cents: nat, mark: char, decimals: bool)
    requires |ds| > 3 && AllDigits(ds) && cents < 100 && IsMark(mark) && IsMark(sep)
    ensures Normalise(Grouped(ds, Some(sep)) + Fraction(cents, mark, decimals)) == ds + Fraction(cents, '.', decimals)
  {
    MarksDecide(ds, sep, cents, mark, decimals);
    if decimals && mark != sep {
      OtherMark(ds, sep, cents, mark);
      ReplaceFirstMark(ds, Cents(cents), ',', '.');
      assert ds + Fraction(cents, '.', true) == ds + ['.'] + Cents(cents);
    } else {
      SameMark(ds, sep, cents, decimals);
    }
  }

  lemma NormaliseSpelled(ds: string, sep: Option<char>, cents: nat, mark: char, decimals: bool)
    requires ds != "" && AllDigits(ds) && cents < 100 && IsMark(mark)
    requires sep.None? || sep.value in " ,."
    ensures Normalise(Grouped(ds, sep) + Fraction(cents, mark, decimals)) == ds + Fraction(cents, '.', decimals)
  {
    var f := Fraction(cents, mark, decimals);
    var token := Grouped(ds, sep) + f;
    if sep.None? || |ds| <= 3 {
      assert token == ds + f;
      RemoveNothing(token, ' ');
      NormaliseUngrouped(ds, cents, mark, decimals, token);
    } else if sep.value == ' ' {
      RemoveGrouped(ds, ' ');
      RemoveConcat(Grouped(ds, sep), f, ' ');
      RemoveNothing(f, ' ');
      NormaliseUngrouped(ds, cents, mark, decimals, token);
    } else {
      NormaliseGrouped(ds, sep.value, cents, mark, decimals);
    }
  }

  // ---- The value ----

  lemma ValueAppend(ds: string, c: char)
    requires AllDigits(ds) && IsDigit(c)
    ensures AllDigits(ds + [c]) && Value(ds + [c]) == 10 * Value(ds) + (c as int - '0' as int)
  {
    assert (ds + [c])[..|ds|] == ds;
  }

  lemma RoundExact(n: nat)
    ensures ToMinor(n, 2) == n && ToMinor(n, 1) == 10 * n && ToMinor(n, 0) == 100 * n
  {
    assert Pow10(2) == 10 * Pow10(1) == 100 && Pow10(0) == 1;
  }

  lemma FractionNumber(ds: string, cents: nat)
    requires ds != "" && AllDigits(ds) && cents < 100
    ensures ParseNumber(ds + Fraction(cents, '.', true)) == Some((100 * Value(ds) + cents, 2))
  {
    hide Value, LastIndex;
    var s, tens, ones := ds + Fraction(cents, '.', true), Digit(cents / 10), Digit(cents % 10);
    UngroupedMarks(ds, cents, '.', true, '.');
    assert s[..|ds|] + s[|ds| + 1..] == ds + [tens] + [ones];
    ValueAppend(ds, tens);
    ValueAppend(ds + [tens], ones);
  }

  lemma NumberExact(ds: string, cents: nat, decimals: bool)
    requires ds != "" && AllDigits(ds) && cents < 100 && (!decimals ==> cents == 0)
    ensures var n := ParseNumber(ds + Fraction(cents, '.', decimals));
      n.Some? && ToMinor(n.value.0, n.value.1) == 100 * Value(ds) + cents
      && (n.value.0 == 0 <==> Value(ds) == 0 && cents == 0)
  {
    hide Value, LastIndex, ToMinor;
    if decimals {
      FractionNumber(ds, cents);
      RoundExact(100 * Value(ds) + cents);
    } else {
      LastIndexAbsent(ds, '.');
      assert ds + "" == ds;
      RoundExact(Value(ds));
    }
  }

  // ---- The label ----

  predicate IsLetter(c: char) {
    'a' <= LowerChar(c) <= 'z'
  }

  /** A compacted number: it starts and ends with a digit. */
  predicate Numeric(n: string) {
    n != "" && IsDigit(n[0]) && IsDigit(n[|n| - 1]) && forall i :: 0 <= i < |n| ==> Plain(n[i])
  }

  /** The characters of labels. */
  predicate InLabel(c: char) {
    'A' <= c <= 'Z' || c == '$' || c == '€' || c == '£'
  }

  lemma CodeChars(c: Currency)
    ensures |Code(c)| == 3 && forall i :: 0 <= i < 3 ==> 'A' <= Code(c)[i] <= 'Z'
    ensures LowerChar(Code(c)[0]) != 'j'
  {
  }

  lemma SymbolChars(symbol: Symbol)
    ensures var t := LabelText(BySymbol(symbol));
      1 <= |t| <= 3 && (forall i :: 0 <= i < |t| ==> InLabel(t[i])) && !IsUpper(t[|t| - 1])
      && (|t| == 3 ==> !IsUpper(t[2])) && LowerChar(t[0]) != 'j'
  {
  }

  lemma LabelChars(tag: Label)
    ensures |LabelText(tag)| <= 3 && (!tag.Bare? ==> LabelText(tag) != "")
    ensures forall i :: 0 <= i < |LabelText(tag)| ==> InLabel(LabelText(tag)[i])
    ensures !tag.Bare? ==> LowerChar(LabelText(tag)[0]) != 'j'
    ensures !tag.ByCode? && |LabelText(tag)| == 3 ==> !IsLetter(LabelText(tag)[2])
  {
    hide LabelText;
    match tag
    case Bare => BareText();
    case ByCode(c) =>
      CodeText(c);
      CodeChars(c);
    case BySymbol(symbol) => SymbolChars(symbol);
  }

  lemma BareText()
    ensures LabelText(Bare) == ""
  {
  }

  lemma CodeText(c: Currency)
    ensures LabelText(ByCode(c)) == Code(c)
  {
  }

  /** After compaction the gap is one plain space or nothing. */
  predicate Compacted(l: Layout) {
    l.gap == "" || l.gap == " "
  }

  /** The text of a compacted price. */
  function Whole(l: Layout, n: string): string {
    Prefix(l) + n + Suffix(l)
  }

  /** Where the label stands. */
  function LabelAt(l: Layout, n: string): nat {
    if l.leading then 0 else |n| + |l.gap|
  }

  lemma AffixChars(l: Layout, affix: string)
    requires Compacted(l) && (affix == Prefix(l) || affix == Suffix(l))
    ensures NoDigits(affix) && forall i :: 0 <= i < |affix| ==> InLabel(affix[i]) || affix[i] == ' '
  {
    hide LabelText;
    LabelChars(l.tag);
  }

  lemma Ends(l: Layout, n: string)
    requires Numeric(n) && Compacted(l)
    ensures !IsSpace(Whole(l, n)[0]) && !IsSpace(Whole(l, n)[|Whole(l, n)| - 1])
  {
    hide LabelText, InLabel, IsSpace, IsDigit, Prefix, Suffix;
    AffixEnds(l);
    Visible(n[0]);
    Visible(n[|n| - 1]);
  }

  /** A label is not separated from the end of the text. */
  lemma AffixEnds(l: Layout)
    ensures Prefix(l) != "" ==> !IsSpace(Prefix(l)[0])
    ensures Suffix(l) != "" ==> !IsSpace(Suffix(l)[|Suffix(l)| - 1])
  {
    hide LabelText, InLabel, IsSpace;
    var t := LabelText(l.tag);
    LabelChars(l.tag);
    if !l.tag.Bare? {
      Visible(t[0]);
      Visible(t[|t| - 1]);
    }
  }

  lemma Visible(c: char)
    requires IsDigit(c) || InLabel(c)
    ensures !IsSpace(c)
  {
  }

  /** Only the three characters from `a` on can be anything but digits and separators. */
  predicate Window(s: string, a: nat) {
    forall i :: 0 <= i < |s| && !(a <= i < a + 3) ==> Plain(s[i])
  }

  lemma WholeWindow(l: Layout, n: string)
    requires Numeric(n) && Compacted(l)
    ensures Window(Whole(l, n), LabelAt(l, n))
    ensures forall i :: 0 <= i < |Whole(l, n)| ==> Plain(Whole(l, n)[i]) || InLabel(Whole(l, n)[i])
  {
    hide LabelText, InLabel;
    LabelChars(l.tag);
  }

  /** A code in the window stands alone, or is glued to the number. */
  ghost predicate CodeStands(s: string, a: nat, c: Currency, glued: bool) {
    && a + 3 <= |s| && s[a..a + 3] == Code(c)
    && if glued then (a > 0 && IsDigit(s[a - 1])) || (a + 3 < |s| && IsDigit(s[a + 3]))
       else (a > 0 ==> s[a - 1] == ' ') && (a + 3 < |s| ==> s[a + 3] == ' ')
  }

  lemma CodeWindow(l: Layout, n: string)
    requires Numeric(n) && Compacted(l) && l.tag.ByCode?
    ensures CodeStands(Whole(l, n), LabelAt(l, n), l.tag.code, l.gap == "")
    ensures LowerChar(Whole(l, n)[LabelAt(l, n)]) != 'j'
  {
    hide LabelText, Code, Plain, CodeStands;
    CodeText(l.tag.code);
    if l.leading {
      assert Whole(l, n) == Code(l.tag.code) + (l.gap + n);
      CodeFirst(l.tag.code, l.gap, n);
    } else {
      assert Whole(l, n) == (n + l.gap) + Code(l.tag.code);
      CodeLast(l.tag.code, l.gap, n);
    }
  }

  lemma CodeFirst(c: Currency, gap: string, n: string)
    requires Numeric(n) && (gap == "" || gap == " ")
    ensures CodeStands(Code(c) + (gap + n), 0, c, gap == "") && LowerChar((Code(c) + (gap + n))[0]) != 'j'
  {
    hide Code, Plain;
    CodeChars(c);
    var s := Code(c) + (gap + n);
    assert s[0..3] == Code(c) && s[3] == (gap + n)[0];
  }

  lemma CodeLast(c: Currency, gap: string, n: string)
    requires Numeric(n) && (gap == "" || gap == " ")
    ensures CodeStands((n + gap) + Code(c), |n| + |gap|, c, gap == "") && LowerChar(((n + gap) + Code(c))[|n| + |gap|]) != 'j'
  {
    hide Code, Plain;
    CodeChars(c);
    var s, a := (n + gap) + Code(c), |n| + |gap|;
    assert s[a..a + 3] == Code(c) && s[a - 1] == (n + gap)[a - 1];
  }

  /** The three characters of the window. */
  lemma WindowText(l: Layout, n: string)
    requires Numeric(n) && Compacted(l)
    ensures var s, a := Whole(l, n), LabelAt(l, n);
      && (l.tag.ByCode? ==> CodeStands(s, a, l.tag.code, l.gap == ""))
      && (!l.tag.ByCode? && a + 2 < |s| ==> !IsLetter(s[a + 2]))
      && (a < |s| ==> LowerChar(s[a]) != 'j')
  {
    hide LabelText, InLabel, CodeStands;
    var s, a := Whole(l, n), LabelAt(l, n);
    match l.tag
    case ByCode(c) => CodeWindow(l, n);
    case BySymbol(_) => SymbolWindow(l, n);
    case Bare =>
      assert s == n;
      assert a + 2 < |s| ==> Plain(s[a + 2]);
      assert a < |s| ==> Plain(s[a]);
  }

  lemma SymbolWindow(l: Layout, n: string)
    requires Numeric(n) && Compacted(l) && l.tag.BySymbol?
    ensures var s, a := Whole(l, n), LabelAt(l, n);
      (a + 2 < |s| ==> !IsLetter(s[a + 2])) && (a < |s| ==> LowerChar(s[a]) != 'j')
  {
    hide LabelText, InLabel;
    var s, a, t := Whole(l, n), LabelAt(l, n), LabelText(l.tag);
    LabelChars(l.tag);
    if a + 2 < |s| {
      if |t| == 3 {
        assert s[a + 2] == t[2];
      } else {
        assert l.leading;
        assert s == t + (l.gap + n);
        assert s[a + 2] == (l.gap + n)[a + 2 - |t|];
        assert Plain(s[a + 2]);
      }
    }
    if a < |s| {
      assert s[a] == t[0];
    }
  }

  lemma NoSuchWord(s: string, a: nat, w: string, k: nat)
    requires Window(s, a) && 3 <= k < |w| && 'a' <= w[0] <= 'z' && 'a' <= w[k] <= 'z'
    ensures !HasWord(s, w)
  {
    forall i | 0 <= i < |s| ensures !TextAt(s, i, w) {
      if i + |w| <= |s| {
        assert LowerChar(s[i + 0]) == w[0] ==> !Plain(s[i]);
        assert LowerChar(s[i + k]) == w[k] ==> !Plain(s[i + k]);
      }
    }
  }

  lemma NotAmbiguous(s: string, a: nat)
    requires Window(s, a) && forall i :: 0 <= i < |s| ==> s[i] != '/'
    ensures !Ambiguous(s)
  {
    NoSuchWord(s, a, "from", 3);
    NoSuchWord(s, a, "starting at", 3);
    NoSuchWord(s, a, "per month", 4);
    NoSuchWord(s, a, "monthly", 3);
    NoSuchWord(s, a, "installment", 3);
    NoSuchWord(s, a, "finance", 3);
    assert forall w :: w in AMBIGUOUS ==>
      w == "from" || w == "starting at" || w == "per month" || w == "monthly" || w == "installment" || w == "finance";
  }

  /** A three-letter word can only stand in the window. */
  lemma ThreeLetterWord(s: string, a: nat, w: string)
    requires Window(s, a) && |w| == 3 && 'a' <= w[0] <= 'z' && 'a' <= w[2] <= 'z'
    ensures HasWord(s, w) <==> a < |s| && WordAt(s, a, w)
  {
    forall i | 0 <= i < |s| && i != a ensures !TextAt(s, i, w) {
      if i + 3 <= |s| {
        assert LowerChar(s[i + 0]) == w[0] ==> !Plain(s[i]);
        assert LowerChar(s[i + 2]) == w[2] ==> !Plain(s[i + 2]);
      }
    }
  }

  lemma NoForeignSymbol(c: char)
    requires Plain(c) || InLabel(c)
    ensures c !in "¥₹₽₩₺₫฿₱₦₴₪"
  {
  }

  lemma NotYen(s: string, a: nat)
    requires Window(s, a) && (a < |s| ==> LowerChar(s[a]) != 'j')
    ensures !HasWord(s, "jpy")
  {
    ThreeLetterWord(s, a, "jpy");
    if a < |s| {
      assert LowerChar(s[a + 0]) != "jpy"[0];
    }
  }

  lemma NotRefused(l: Layout, n: string)
    requires Numeric(n) && Compacted(l)
    ensures !Ambiguous(Whole(l, n)) && !Unsupported(Whole(l, n))
  {
    hide Whole, HasWord, Ambiguous, Window, Plain, InLabel;
    var s, a := Whole(l, n), LabelAt(l, n);
    WholeWindow(l, n);
    WindowText(l, n);
    NotYen(s, a);
    forall i | 0 <= i < |s| ensures s[i] !in "¥₹₽₩₺₫฿₱₦₴₪" && s[i] != '/' {
      NoForeignSymbol(s[i]);
      NoSlash(s[i]);
    }
    NotAmbiguous(s, a);
  }

  lemma NoSlash(c: char)
    requires Plain(c) || InLabel(c)
    ensures c != '/'
  {
  }

  // ---- The currency ----

  lemma NoSymbolAt(t: string)
    requires t != "" && t[0] != '$' && t[0] != '€' && t[0] != '£'
    requires Plain(t[0]) || forall i :: 0 <= i < |t| ==> t[i] != '$'
    ensures SymbolAt(t) == None
  {
    assert !TextAt(t, 0, "us$") by {
      assert |t| >= 3 ==> LowerChar(t[0 + 2]) != "us$"[2] || LowerChar(t[0 + 0]) != "us$"[0];
    }
    assert !TextAt(t, 0, "c$") by {
      assert |t| >= 2 ==> LowerChar(t[0 + 1]) != "c$"[1] || LowerChar(t[0 + 0]) != "c$"[0];
    }
    assert !TextAt(t, 0, "a$") by {
      assert |t| >= 2 ==> LowerChar(t[0 + 1]) != "a$"[1] || LowerChar(t[0 + 0]) != "a$"[0];
    }
    assert !TextAt(t, 0, "$") && !TextAt(t, 0, "€") && !TextAt(t, 0, "£") by {
      assert LowerChar(t[0 + 0]) != "$"[0] && LowerChar(t[0 + 0]) != "€"[0] && LowerChar(t[0 + 0]) != "£"[0];
    }
  }

  lemma {:induction false} NoSymbols(t: string)
    requires forall i :: 0 <= i < |t| ==> t[i] != '$' && t[i] != '€' && t[i] != '£'
    ensures Symbols(t) == {}
    decreases |t|
  {
    hide SymbolAt;
    if t != "" {
      NoSymbolAt(t);
      NoSymbols(t[1..]);
    }
  }

  /** Digits, separators and spaces before a text hide none of its symbols. */
  lemma {:induction false} SkipPlain(p: string, t: string)
    requires forall i :: 0 <= i < |p| ==> Plain(p[i])
    ensures Symbols(p + t) == Symbols(t)
    decreases |p|
  {
    hide SymbolAt;
    if p == "" {
      assert p + t == t;
    } else {
      NoSymbolAt(p + t);
      assert (p + t)[1..] == p[1..] + t;
      SkipPlain(p[1..], t);
    }
  }

  lemma NotLettered(s: string)
    requires s != "" && s[0] > '~'
    ensures !TextAt(s, 0, "us$") && !TextAt(s, 0, "c$") && !TextAt(s, 0, "a$")
  {
    assert LowerChar(s[0 + 0]) != "us$"[0] && LowerChar(s[0 + 0]) != "c$"[0] && LowerChar(s[0 + 0]) != "a$"[0];
  }

  /** The match at a symbol is that symbol, whatever follows. */
  lemma SymbolFirst(symbol: Symbol, rest: string)
    ensures var t := LabelText(BySymbol(symbol));
      SymbolAt(t + rest) == Some((CurrencyOf(BySymbol(symbol)).value, |t|))
  {
    var s := LabelText(BySymbol(symbol)) + rest;
    match symbol
    case UsDollar =>
      assert TextAt(s, 0, "us$");
    case CanadianDollar =>
      assert LowerChar(s[0 + 0]) != "us$"[0];
      assert TextAt(s, 0, "c$");
    case AustralianDollar =>
      assert LowerChar(s[0 + 0]) != "us$"[0] && LowerChar(s[0 + 0]) != "c$"[0];
      assert TextAt(s, 0, "a$");
    case Dollar =>
      assert LowerChar(s[0 + 0]) != "us$"[0] && LowerChar(s[0 + 0]) != "c$"[0] && LowerChar(s[0 + 0]) != "a$"[0];
      assert TextAt(s, 0, "$");
    case EuroSign =>
      NotLettered(s);
      assert LowerChar(s[0 + 0]) != "$"[0];
      assert TextAt(s, 0, "€");
    case PoundSign =>
      NotLettered(s);
      assert LowerChar(s[0 + 0]) != "$"[0] && LowerChar(s[0 + 0]) != "€"[0];
      assert TextAt(s, 0, "£");
  }

  lemma SymbolThen(symbol: Symbol, rest: string)
    requires forall i :: 0 <= i < |rest| ==> Plain(rest[i])
    ensures Symbols(LabelText(BySymbol(symbol)) + rest) == {CurrencyOf(BySymbol(symbol)).value}
  {
    hide SymbolAt, LabelText, CurrencyOf;
    var t := LabelText(BySymbol(symbol)) + rest;
    SymbolFirst(symbol, rest);
    SymbolChars(symbol);
    assert t[|LabelText(BySymbol(symbol))|..] == rest;
    NoSymbols(rest);
  }

  lemma SymbolsOf(l: Layout, n: string)
    requires Numeric(n) && Compacted(l)
    ensures Symbols(Whole(l, n)) == if l.tag.BySymbol? then {CurrencyOf(l.tag).value} else {}
  {
    hide Whole, Symbols, CurrencyOf;
    if l.tag.BySymbol? {
      SymbolWhole(l, n);
    } else {
      NoSymbolWhole(l, n);
    }
  }

  lemma SymbolWhole(l: Layout, n: string)
    requires Numeric(n) && Compacted(l) && l.tag.BySymbol?
    ensures Symbols(Whole(l, n)) == {CurrencyOf(l.tag).value}
  {
    hide LabelText, CurrencyOf, Symbols;
    var s, t := Whole(l, n), LabelText(l.tag);
    if l.leading {
      assert s == t + (l.gap + n);
      SymbolThen(l.tag.symbol, l.gap + n);
    } else {
      assert s == (n + l.gap) + (t + "");
      SkipPlain(n + l.gap, t + "");
      SymbolThen(l.tag.symbol, "");
    }
  }

  lemma NoSymbolWhole(l: Layout, n: string)
    requires Numeric(n) && Compacted(l) && !l.tag.BySymbol?
    ensures Symbols(Whole(l, n)) == {}
  {
    hide LabelText, Symbols, Code;
    if l.tag.ByCode? {
      CodeText(l.tag.code);
      CodeChars(l.tag.code);
    }
    NoSymbols(Whole(l, n));
  }

  /** A code is found exactly where it stands between word boundaries. */
  lemma CodeHere(s: string, a: nat, c: Currency, d: Currency)
    requires CodeStands(s, a, c, false)
    ensures WordAt(s, a, LowerCode(d)) <==> c == d
  {
    assert s[a + 0] == Code(c)[0] && s[a + 1] == Code(c)[1] && s[a + 2] == Code(c)[2];
    LowerOf(c);
    if c != d {
      DifferentCodes(c, d);
    }
  }

  lemma CodeGlued(s: string, a: nat, c: Currency, w: string)
    requires CodeStands(s, a, c, true) && |w| == 3
    ensures !WordAt(s, a, w)
  {
    hide Code, LowerCode, TextAt;
    LowerOf(c);
    assert s[a] == s[a..a + 3][0] && s[a + 2] == s[a..a + 3][2];
  }

  lemma LowerOf(c: Currency)
    ensures |LowerCode(c)| == |Code(c)| == 3 && forall k :: 0 <= k < 3 ==> LowerChar(Code(c)[k]) == LowerCode(c)[k] && IsWord(Code(c)[k])
  {
  }

  lemma DifferentCodes(c: Currency, d: Currency)
    requires c != d
    ensures LowerCode(c)[0] != LowerCode(d)[0]
  {
  }

  lemma CodeShape(c: Currency)
    ensures |LowerCode(c)| == 3 && 'a' <= LowerCode(c)[0] <= 'z' && 'a' <= LowerCode(c)[2] <= 'z'
  {
  }

  lemma CodesOf(l: Layout, n: string)
    requires Numeric(n) && Compacted(l)
    ensures Codes(Whole(l, n)) == if l.tag.ByCode? && l.gap != "" then {l.tag.code} else {}
  {
    hide Whole, HasWord, Window, LowerCode, Code, CodeStands, WordAt;
    var s, a := Whole(l, n), LabelAt(l, n);
    WholeWindow(l, n);
    WindowText(l, n);
    forall c | c in CURRENCIES ensures HasWord(s, LowerCode(c)) <==> l.tag == ByCode(c) && l.gap != "" {
      CodeShape(c);
      ThreeLetterWord(s, a, LowerCode(c));
      if !l.tag.ByCode? {
        NoWordHere(s, a, LowerCode(c));
      } else if l.gap == "" {
        CodeGlued(s, a, l.tag.code, LowerCode(c));
      } else {
        CodeHere(s, a, l.tag.code, c);
        StandsInside(s, a, l.tag.code);
      }
    }
    if l.tag.ByCode? {
      IsCurrency(l.tag.code);
    }
  }

  lemma StandsInside(s: string, a: nat, c: Currency)
    requires CodeStands(s, a, c, false)
    ensures a < |s|
  {
  }

  lemma NoWordHere(s: string, a: nat, w: string)
    requires |w| == 3 && 'a' <= w[2] <= 'z' && (a + 2 < |s| ==> !IsLetter(s[a + 2]))
    ensures !WordAt(s, a, w)
  {
    assert a + 2 < |s| ==> LowerChar(s[a + 2]) != w[2];
  }

  lemma IsCurrency(c: Currency)
    ensures c in CURRENCIES
  {
  }

  lemma OnlyOne(c: Currency)
    ensures Only({c}) == Some(c) && |{c}| == 1
  {
  }

  lemma LabelCurrency(l: Layout, n: string)
    requires Numeric(n) && Compacted(l)
    ensures var found := Symbols(Whole(l, n)) + Codes(Whole(l, n));
      |found| <= 1 && Only(found) == CurrencyRead(l)
  {
    hide Symbols, Codes, Whole;
    SymbolsOf(l, n);
    CodesOf(l, n);
    var found := Symbols(Whole(l, n)) + Codes(Whole(l, n));
    if CurrencyRead(l).None? {
      assert found == {};
    } else {
      OnlyOne(CurrencyOf(l.tag).value);
      assert found == {CurrencyOf(l.tag).value};
    }
  }

  // ---- Adjacent codes ----

  lemma TrimsGap(t: string)
    requires t != "" && !IsSpace(t[0]) && !IsSpace(t[|t| - 1])
    ensures TrimEnd(t) == t && TrimEnd(t + " ") == t && TrimStart(t) == t && TrimStart(" " + t) == t
  {
    assert (t + " ")[..|t|] == t && (" " + t)[1..] == t;
  }

  lemma CodeSupported(c: Currency)
    ensures Supported(Code(c))
  {
    assert c in CURRENCIES;
  }

  /** A text that is no three-letter code, or a supported one. */
  predicate Harmless(t: string) {
    && t != "" && !IsSpace(t[0]) && !IsSpace(t[|t| - 1])
    && ((|t| == 3 && Supported(t)) || !IsUpper(t[|t| - 1]))
    && |t| <= 3
  }

  lemma HarmlessLabel(tag: Label)
    requires !tag.Bare?
    ensures Harmless(LabelText(tag))
  {
    hide LabelText, Supported, InLabel, IsSpace;
    LabelChars(tag);
    var t := LabelText(tag);
    Visible(t[0]);
    Visible(t[|t| - 1]);
    if tag.ByCode? {
      CodeText(tag.code);
      CodeChars(tag.code);
      CodeSupported(tag.code);
    } else {
      SymbolChars(tag.symbol);
    }
  }

  lemma HarmlessAround(t: string, gap: string)
    requires Harmless(t) && (gap == "" || gap == " ")
    ensures !BadCodeBefore(t + gap) && !BadCodeAfter(gap + t)
  {
    hide Supported;
    TrimsGap(t);
    assert t + "" == t && "" + t == t;
    assert |t| == 3 ==> t[0..] == t && t[..3] == t;
  }

  lemma NoBadCode(l: Layout)
    requires Compacted(l)
    ensures !BadCodeBefore(Prefix(l)) && !BadCodeAfter(Suffix(l))
  {
    hide LabelText, Supported, Harmless;
    assert !BadCodeBefore("") && !BadCodeAfter("");
    if !l.tag.Bare? {
      HarmlessLabel(l.tag);
      HarmlessAround(LabelText(l.tag), l.gap);
    }
  }

  // ---- Compaction ----

  /** Non-breaking separators read as spaces. */
  function Seen(sep: Option<char>): Option<char> {
    if sep == Some('\U{00A0}') || sep == Some('\U{202F}') then Some(' ') else sep
  }

  lemma SeenSeparator(g: Grouping)
    ensures Seen(Separator(g)).None? || Seen(Separator(g)).value in " ,."
  {
  }

  lemma {:induction false} SpacedGroups(ds: string, sep: char)
    requires |ds| % 3 == 0 && AllDigits(ds)
    ensures Spaced(Groups(ds, sep)) == Groups(ds, Seen(Some(sep)).value)
  {
    if ds != "" {
      SpacedGroups(ds[3..], sep);
      SpacedConcat([sep] + ds[..3], Groups(ds[3..], sep));
    }
  }

  lemma SpacedConcat(a: string, b: string)
    ensures Spaced(a + b) == Spaced(a) + Spaced(b)
  {
  }

  lemma SpacedSame(a: string)
    requires forall i :: 0 <= i < |a| ==> a[i] != '\U{00A0}' && a[i] != '\U{202F}'
    ensures Spaced(a) == a
  {
  }

  lemma SpacedNumber(ds: string, g: Grouping, f: string)
    requires ds != "" && AllDigits(ds) && forall i :: 0 <= i < |f| ==> Plain(f[i])
    ensures Spaced(Grouped(ds, Separator(g)) + f) == Grouped(ds, Seen(Separator(g))) + f
  {
    hide Spaced, Groups;
    SpacedConcat(Grouped(ds, Separator(g)), f);
    SpacedSame(f);
    if g.Ungrouped? {
      SpacedSame(ds);
    } else {
      var h := HeadLen(ds);
      SpacedConcat(ds[..h], Groups(ds[h..], Separator(g).value));
      SpacedGroups(ds[h..], Separator(g).value);
      SpacedSame(ds[..h]);
    }
  }

  /** The layout as the parser sees it. */
  function SeenLayout(l: Layout): Layout {
    l.(gap := Spaced(l.gap))
  }

  lemma SeenGap(l: Layout)
    requires Legal(l)
    ensures Compacted(SeenLayout(l)) && CurrencyRead(SeenLayout(l)) == CurrencyRead(l)
  {
  }

  lemma SpacedAffixes(l: Layout)
    ensures Spaced(Prefix(l)) == Prefix(SeenLayout(l)) && Spaced(Suffix(l)) == Suffix(SeenLayout(l))
  {
    hide Spaced, LabelText, InLabel;
    var t := LabelText(l.tag);
    LabelChars(l.tag);
    LabelSame(l.tag);
    SpacedConcat(t, l.gap);
    SpacedConcat(l.gap, t);
    SpacedSame("");
  }

  lemma LabelSame(tag: Label)
    ensures Spaced(LabelText(tag)) == LabelText(tag)
  {
    hide LabelText;
    LabelChars(tag);
    SpacedSame(LabelText(tag));
  }

  lemma CompactTight(raw: string, text: string)
    requires Spaced(raw) == text && text != "" && !IsSpace(text[0]) && !IsSpace(text[|text| - 1])
    ensures Compact(raw) == text
  {
    hide Spaced;
  }

  lemma NumberShape(ds: string, sep: Option<char>, cents: nat, mark: char, decimals: bool)
    requires ds != "" && AllDigits(ds) && cents < 100 && IsMark(mark)
    requires sep.None? || sep.value in " ,."
    ensures Numeric(Grouped(ds, sep) + Fraction(cents, mark, decimals))
    ensures forall i :: 0 <= i < |Fraction(cents, mark, decimals)| ==> Plain(Fraction(cents, mark, decimals)[i])
  {
    GroupedChars(ds, sep);
  }

  lemma SpellingShape(l: Layout, ds: string, g: Grouping, f: string)
    requires Legal(l) && ds != "" && AllDigits(ds) && (forall i :: 0 <= i < |f| ==> Plain(f[i]))
    requires Numeric(Grouped(ds, Seen(Separator(g))) + f)
    ensures Compact(Prefix(l) + (Grouped(ds, Separator(g)) + f) + Suffix(l)) == Whole(SeenLayout(l), Grouped(ds, Seen(Separator(g))) + f)
  {
    hide Prefix, Suffix, Grouped, Compact, Spaced, Seen, Separator, Plain;
    var n := Grouped(ds, Separator(g)) + f;
    var raw, text := Prefix(l) + n + Suffix(l), Whole(SeenLayout(l), Grouped(ds, Seen(Separator(g))) + f);
    SeenGap(l);
    SpacedNumber(ds, g, f);
    SpacedAffixes(l);
    SpacedConcat(Prefix(l) + n, Suffix(l));
    SpacedConcat(Prefix(l), n);
    assert Spaced(raw) == text;
    Ends(SeenLayout(l), Grouped(ds, Seen(Separator(g))) + f);
    CompactTight(raw, text);
  }

  // ---- Main results ----

  /** What reading an amount back must give: the amount itself, and no price at all for zero. */
  function Exactly(minor: nat, currency: Option<Currency>): Price {
    if minor == 0 then Refused else Price(minor, currency)
  }

  /** A label and one numeric token: nothing is refused before the number is read. */
  lemma LabelledParse(l: Layout, n: string)
    requires Numeric(n) && Compacted(l) && MatchLen(n + Suffix(l)) == |n|
    ensures var s := Whole(l, n);
      |Prefix(l)| + |n| <= |s| && ParseCompact(s) == PriceOf(s, |Prefix(l)|, |n|, CurrencyRead(l))
  {
    hide Ambiguous, Unsupported, Symbols, Codes, Numbers, MatchLen, Prefix, Suffix, PriceOf, CurrencyRead;
    NotRefused(l, n);
    LabelCurrency(l, n);
    AffixChars(l, Prefix(l));
    AffixChars(l, Suffix(l));
    NumbersAfter(Prefix(l), n, Suffix(l), 0);
  }

  lemma TokenPrice(l: Layout, n: string, plain: string)
    requires Compacted(l) && Normalise(n) == plain && ParseNumber(plain).Some?
    ensures var number := ParseNumber(plain).value;
      PriceOf(Whole(l, n), |Prefix(l)|, |n|, CurrencyRead(l)) ==
        if number.0 == 0 then Refused else Price(ToMinor(number.0, number.1), CurrencyRead(l))
  {
    hide Normalise, ParseNumber, Prefix, Suffix, BadCodeBefore, BadCodeAfter, CurrencyRead, ToMinor;
    var s, p := Whole(l, n), Prefix(l);
    assert s[..|p|] == p && s[|p|..|p| + |n|] == n && s[|p| + |n|..] == Suffix(l);
    NoBadCode(l);
  }

  /**
   Grouped by commas, dots, any kind of space or not at all, with two decimals
   or none, bare or with a code or symbol before or after it: the amount is
   read exactly.
   */
  lemma SpellingsAgree(l: Layout, minor: nat, g: Grouping, mark: char, decimals: bool)
    requires Legal(l) && IsMark(mark) && (decimals || minor % 100 == 0)
    ensures Parse(Spell(l, minor, g, mark, decimals)) == Exactly(minor, CurrencyRead(l))
  {
    hide Compact, ParseCompact, Parse, Prefix, Suffix, Grouped, Decimal, IsMark, Whole, Legal, Compacted, Spaced, CurrencyRead;
    var ds, cents, sep := Decimal(minor / 100), minor % 100, Seen(Separator(g));
    var f := Fraction(cents, mark, decimals);
    SeenSeparator(g);
    SeenGap(l);
    NumberShape(ds, sep, cents, mark, decimals);
    SpellingShape(l, ds, g, f);
    SpelledPrice(SeenLayout(l), ds, sep, cents, mark, decimals);
    ParseVia(Spell(l, minor, g, mark, decimals), Whole(SeenLayout(l), Grouped(ds, sep) + f), Exactly(minor, CurrencyRead(l)));
  }

  lemma ParseVia(raw: string, text: string, p: Price)
    requires Compact(raw) == text && ParseCompact(text) == p
    ensures Parse(raw) == p
  {
  }

  /** The number of a token, in minor units. */
  ghost predicate Reads(n: string, minor: nat) {
    var number := ParseNumber(Normalise(n));
    number.Some? && ToMinor(number.value.0, number.value.1) == minor && (number.value.0 == 0 <==> minor == 0)
  }

  lemma SpelledReads(ds: string, sep: Option<char>, cents: nat, mark: char, decimals: bool)
    requires ds != "" && AllDigits(ds) && cents < 100 && IsMark(mark) && (sep.None? || sep.value in " ,.")
    requires !decimals ==> cents == 0
    ensures Reads(Grouped(ds, sep) + Fraction(cents, mark, decimals), 100 * Value(ds) + cents)
  {
    NormaliseSpelled(ds, sep, cents, mark, decimals);
    NumberExact(ds, cents, decimals);
  }

  lemma TokenExactly(l: Layout, n: string, minor: nat)
    requires Compacted(l) && Reads(n, minor)
    ensures PriceOf(Whole(l, n), |Prefix(l)|, |n|, CurrencyRead(l)) == Exactly(minor, CurrencyRead(l))
  {
    hide Normalise, ParseNumber, Prefix, Suffix, CurrencyRead, ToMinor, PriceOf;
    TokenPrice(l, n, Normalise(n));
  }

  lemma SpelledPrice(l: Layout, ds: string, sep: Option<char>, cents: nat, mark: char, decimals: bool)
    requires Compacted(l) && ds != "" && AllDigits(ds) && cents < 100 && IsMark(mark) && (sep.None? || sep.value in " ,.")
    requires !decimals ==> cents == 0
    ensures ParseCompact(Whole(l, Grouped(ds, sep) + Fraction(cents, mark, decimals))) == Exactly(100 * Value(ds) + cents, CurrencyRead(l))
  {
    hide *;
    var n := Grouped(ds, sep) + Fraction(cents, mark, decimals);
    NumberShape(ds, sep, cents, mark, decimals);
    AffixChars(l, Suffix(l));
    TokenMatch(ds, sep, cents, mark, decimals, Suffix(l));
    SpelledReads(ds, sep, cents, mark, decimals);
    ReadExactly(l, n, 100 * Value(ds) + cents);
  }

  lemma ReadExactly(l: Layout, n: string, minor: nat)
    requires Compacted(l) && Numeric(n) && MatchLen(n + Suffix(l)) == |n| && Reads(n, minor)
    ensures ParseCompact(Whole(l, n)) == Exactly(minor, CurrencyRead(l))
  {
    hide *;
    LabelledParse(l, n);
    TokenExactly(l, n, minor);
  }

  /** The printer's layout: the code, a space, the number. */
  function PrintedLayout(c: Currency): Layout {
    Layout(ByCode(c), true, " ")
  }

  lemma PrinterSpells(minor: nat, c: Currency)
    ensures AmountText(minor, Code(c), 2) == Spell(PrintedLayout(c), minor, Ungrouped, '.', true)
  {
    assert Pow10(2) == 10 * Pow10(1) == 100;
    PaddedCents(minor % 100);
    assert AmountText(minor, Code(c), 2) == "" + Code(c) + " " + Decimal(minor / 100) + "." + Padded(Decimal(minor % 100), 2);
  }

  lemma {:induction false} PaddedValue(s: string, width: nat)
    requires AllDigits(s)
    ensures AllDigits(Padded(s, width)) && Value(Padded(s, width)) == Value(s)
    ensures |Padded(s, width)| == if |s| >= width then |s| else width
    decreases width - |s|
  {
    if |s| < width {
      LeadingZero(s);
      PaddedValue("0" + s, width);
    }
  }

  lemma {:induction false} LeadingZero(s: string)
    requires AllDigits(s)
    ensures AllDigits("0" + s) && Value("0" + s) == Value(s)
  {
    if s == "" {
      assert "0" + s == "0" && "0"[..0] == "";
    } else {
      LeadingZero(s[..|s| - 1]);
      assert ("0" + s)[..|s|] == "0" + s[..|s| - 1];
    }
  }

  lemma {:induction false} DecimalShort(n: nat, k: nat)
    requires k > 0 && n < Pow10(k)
    ensures |Decimal(n)| <= k
  {
    if n >= 10 {
      DecimalShort(n / 10, k - 1);
    }
  }

  /** Whatever the currency's number of decimals, the printed digits are the amount, and the sign and code stand before them. */
  lemma PrinterExact(minor: int, code: string, digits: nat) returns (whole: string, fraction: string)
    ensures AmountText(minor, code, digits) ==
      (if minor < 0 then "-" else "") + code + " " + whole + (if digits == 0 then "" else "." + fraction)
    ensures whole != "" && AllDigits(whole) && AllDigits(fraction) && |fraction| == digits
    ensures Value(whole) * Pow10(digits) + Value(fraction) == if minor < 0 then -minor else minor
  {
    hide Decimal, Padded, Pow10, Value, Quotient, Remainder;
    var amount := if minor < 0 then -minor else minor;
    whole, fraction := AmountDigits(amount, digits);
  }

  lemma AmountDigits(amount: nat, digits: nat) returns (whole: string, fraction: string)
    ensures Pow10(digits) > 0
    ensures digits == 0 ==> whole == Decimal(amount) && fraction == ""
    ensures digits > 0 ==> whole == Decimal(Quotient(amount, Pow10(digits))) && fraction == Padded(Decimal(Remainder(amount, Pow10(digits))), digits)
    ensures whole != "" && AllDigits(whole) && AllDigits(fraction) && |fraction| == digits
    ensures Value(whole) * Pow10(digits) + Value(fraction) == amount
  {
    hide Decimal, Padded;
    Pow10Positive(digits);
    if digits == 0 {
      whole, fraction := Decimal(amount), "";
      assert Pow10(0) == 1 && Value("") == 0;
    } else {
      hide Value, Pow10, Quotient, Remainder;
      var rest := Remainder(amount, Pow10(digits));
      whole, fraction := Decimal(Quotient(amount, Pow10(digits))), Padded(Decimal(rest), digits);
      Divides(amount, Pow10(digits));
      DecimalShort(rest, digits);
      PaddedValue(Decimal(rest), digits);
    }
  }

  lemma Divides(a: nat, d: nat)
    requires d > 0
    ensures Quotient(a, d) * d + Remainder(a, d) == a && Remainder(a, d) < d
  {
  }

  lemma TwoDigits(c: Currency)
    ensures MinorDigits(Code(c)) == 2
  {
  }

  lemma PaddedCents(cents: nat)
    requires cents < 100
    ensures Padded(Decimal(cents), 2) == Cents(cents)
  {
    if cents < 10 {
      assert Padded("0" + Decimal(cents), 2) == "0" + Decimal(cents);
    } else {
      assert Decimal(cents / 10) == [Digit(cents / 10)];
    }
  }

  /**
   Printing an amount in a supported currency, however its code is capitalised,
   and parsing the text gives both back exactly when the amount is positive:
   zero is refused and the printed sign is not read.
   */
  lemma MoneyRoundTrips(minor: int, currency: string, c: Currency)
    requires Upper(currency) == Code(c)
    ensures var p := Parse(MoneyText(minor, currency));
      p.Price? && p.minor == minor && p.currency == Some(c) <==> minor > 0
  {
    if minor >= 0 {
      TwoDigits(c);
      PrinterSpells(minor, c);
      SpellingsAgree(PrintedLayout(c), minor, Ungrouped, '.', true);
    }
  }
}
