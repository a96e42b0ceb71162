/** Which texts the price parser must refuse, and what the other text readers answer. */
module PriceRefusals {
  import opened Rows
  import opened Texts
  import opened Money
  import opened MoneyRoundTrip

  // ---- Words and symbols that refuse a price ----

  predicate SameWord(s: string, w: string) {
    |s| == |w| && forall i :: 0 <= i < |s| ==> LowerChar(s[i]) == w[i]
  }

  /** Neither side glues the word to another one. */
  predicate Apart(p: string, q: string) {
    (p == "" || !IsWord(p[|p| - 1])) && (q == "" || !IsWord(q[0]))
  }

  lemma WordInside(p: string, s: string, q: string, w: string)
    requires w != "" && SameWord(s, w) && Apart(p, q) && IsWord(s[0]) && IsWord(s[|s| - 1])
    ensures HasWord(p + s + q, w)
  {
    var t := p + s + q;
    forall k | 0 <= k < |w| ensures LowerChar(t[|p| + k]) == w[k] {
      assert t[|p| + k] == s[k];
    }
    assert TextAt(t, |p|, w);
    assert |p| > 0 ==> t[|p| - 1] == p[|p| - 1];
    assert |q| > 0 ==> t[|p| + |s|] == q[0];
    assert WordAt(t, |p|, w);
  }

  /** A text that speaks of a starting price, a monthly rate or financing is no price, however it is capitalised. */
  lemma PartialPriceRefused(p: string, s: string, q: string)
    requires Apart(p, q)
    requires SameWord(s, "from") || SameWord(s, "starting at") || SameWord(s, "per month") || SameWord(s, "monthly")
      || SameWord(s, "installment") || SameWord(s, "finance")
    ensures ParseCompact(p + s + q) == Refused
  {
    hide HasWord, Unsupported;
    if SameWord(s, "from") {
      WordInside(p, s, q, "from");
    } else if SameWord(s, "starting at") {
      WordInside(p, s, q, "starting at");
    } else if SameWord(s, "per month") {
      WordInside(p, s, q, "per month");
    } else if SameWord(s, "monthly") {
      WordInside(p, s, q, "monthly");
    } else if SameWord(s, "installment") {
      WordInside(p, s, q, "installment");
    } else {
      WordInside(p, s, q, "finance");
    }
    assert "from" in AMBIGUOUS && "starting at" in AMBIGUOUS && "per month" in AMBIGUOUS && "monthly" in AMBIGUOUS
      && "installment" in AMBIGUOUS && "finance" in AMBIGUOUS;
  }

  lemma {:induction false} SkipsBlanks(t: string, i: nat, blanks: nat)
    requires i + blanks < |t| && (forall k :: i <= k < i + blanks ==> IsSpace(t[k])) && !IsSpace(t[i + blanks])
    ensures SkipSpaces(t, i) == i + blanks
    decreases blanks
  {
    if blanks > 0 {
      SkipsBlanks(t, i + 1, blanks - 1);
    }
  }

  /** So is a rate "/mo" or "/month", with any spaces after the stroke. */
  lemma MonthlyRateRefused(p: string, blanks: string, s: string, q: string)
    requires (forall i :: 0 <= i < |blanks| ==> IsSpace(blanks[i])) && (q == "" || !IsWord(q[0]))
    requires SameWord(s, "mo") || SameWord(s, "month")
    ensures ParseCompact(p + "/" + blanks + s + q) == Refused
  {
    hide HasWord, Unsupported, PerMonthAt, IsSpace, IsWord;
    var t := p + "/" + blanks + s + q;
    RateHere(p, blanks, s, q);
    assert PerMonthAt(t, |p|);
  }

  lemma RateHere(p: string, blanks: string, s: string, q: string)
    requires (forall i :: 0 <= i < |blanks| ==> IsSpace(blanks[i])) && (q == "" || !IsWord(q[0]))
    requires SameWord(s, "mo") || SameWord(s, "month")
    ensures PerMonthAt(p + "/" + blanks + s + q, |p|)
  {
    hide IsSpace, IsWord, SkipSpaces, TextAt, Boundary;
    var t, j := p + "/" + blanks + s + q, |p| + 1 + |blanks|;
    assert t[|p|] == '/' && t[|p| + 1..j] == blanks && t[j..j + |s|] == s && t[j + |s|..] == q;
    forall k | |p| + 1 <= k < j ensures IsSpace(t[k]) {
      assert t[k] == t[|p| + 1..j][k - |p| - 1];
    }
    LetterAt(t, j, s);
    assert t[j] == t[j..j + |s|][0];
    FirstLetter(s);
    SkipsBlanks(t, |p| + 1, |blanks|);
    EndsHere(t, j, s, q);
  }

  lemma FirstLetter(s: string)
    requires SameWord(s, "mo") || SameWord(s, "month")
    ensures !IsSpace(s[0])
  {
    assert LowerChar(s[0]) == 'm';
  }

  lemma LetterAt(t: string, j: nat, s: string)
    requires j + |s| <= |t| && t[j..j + |s|] == s
    ensures SameWord(s, "mo") ==> TextAt(t, j, "mo")
    ensures SameWord(s, "month") ==> TextAt(t, j, "month")
  {
    assert forall k :: 0 <= k < |s| ==> t[j + k] == s[k];
  }

  lemma EndsHere(t: string, j: nat, s: string, q: string)
    requires j + |s| <= |t| && t[j..j + |s|] == s && t[j + |s|..] == q && (q == "" || !IsWord(q[0]))
    requires SameWord(s, "mo") || SameWord(s, "month")
    ensures Boundary(t, j + |s|)
  {
    LastLetter(s);
    assert t[j + |s| - 1] == t[j..j + |s|][|s| - 1];
    assert q != "" ==> t[j + |s|] == q[0];
  }

  lemma LastLetter(s: string)
    requires SameWord(s, "mo") || SameWord(s, "month")
    ensures IsWord(s[|s| - 1])
  {
    assert LowerChar(s[|s| - 1]) == 'o' || LowerChar(s[|s| - 1]) == 'h';
  }

  /** A currency the monitors do not support refuses the price, by its sign or, for the yen, by its code. */
  lemma ForeignCurrencyRefused(p: string, c: char, s: string, q: string)
    ensures c in ['¥', '₹', '₽', '₩', '₺', '₫', '฿', '₱', '₦', '₴', '₪'] ==> ParseCompact(p + [c] + q) == Refused
    ensures Apart(p, q) && SameWord(s, "jpy") ==> ParseCompact(p + s + q) == Refused
  {
    hide HasWord, Ambiguous;
    var t := p + [c] + q;
    assert t[|p|] == c;
    if Apart(p, q) && SameWord(s, "jpy") {
      assert LowerChar(s[0]) == 'j' && LowerChar(s[2]) == 'y';
      WordInside(p, s, q, "jpy");
    }
  }

  /** Two different currency codes in one text conflict. */
  lemma ConflictRefused(text: string, c: Currency, d: Currency)
    requires c != d && HasWord(text, LowerCode(c)) && HasWord(text, LowerCode(d))
    ensures ParseCompact(text) == Refused
  {
    hide HasWord, Symbols, Ambiguous, Unsupported, LowerCode, Only, ReadPrice;
    var codes := Codes(text);
    IsCurrency(c);
    IsCurrency(d);
    assert c in codes && d in codes;
    var found := Symbols(text) + codes;
    assert d in found - {c};
    assert |found - {c}| == |found| - 1;
  }

  // ---- One number ----

  lemma {:induction false} TokensArePlain(t: string, n: nat)
    requires n == MatchLen(t)
    ensures forall i :: 0 <= i < n ==> Plain(t[i])
  {
    SpacedPlain(t, " ");
    SpacedPlain(t, ",.");
    var spaced, grouped := GroupedLen(t, " "), GroupedLen(t, ",.");
    var base := if spaced > 0 then spaced else if grouped > 0 then grouped else DigitRun(t);
    DecimalsPlain(t[base..]);
    forall i | 0 <= i < n ensures Plain(t[i]) {
      if i >= base {
        assert t[i] == t[base..][i - base];
      } else if spaced == 0 && grouped == 0 {
        assert t[i] == t[..base][i];
      }
    }
  }

  lemma DecimalsPlain(t: string)
    ensures forall i :: 0 <= i < DecimalsLen(t) ==> Plain(t[i])
  {
  }

  lemma {:induction false} GroupsPlain(t: string, separators: string)
    requires separators == " " || separators == ",."
    ensures forall i :: 0 <= i < GroupsLen(t, separators) ==> Plain(t[i])
    decreases |t|
  {
    if GroupsLen(t, separators) > 0 {
      GroupsPlain(t[4..], separators);
      forall i | 0 <= i < GroupsLen(t, separators) ensures Plain(t[i]) {
        if 1 <= i < 4 {
          assert t[i] == t[1..4][i - 1];
        } else if i >= 4 {
          assert t[i] == t[4..][i - 4];
        }
      }
    }
  }

  lemma SpacedPlain(t: string, separators: string)
    requires separators == " " || separators == ",."
    ensures forall i :: 0 <= i < GroupedLen(t, separators) ==> Plain(t[i])
  {
    forall k | 1 <= k <= 3 ensures forall i :: 0 <= i < HeadGroups(t, separators, k) ==> Plain(t[i]) {
      if HeadGroups(t, separators, k) > 0 {
        GroupsPlain(t[k..], separators);
        forall i | 0 <= i < HeadGroups(t, separators, k) ensures Plain(t[i]) {
          if i < k {
            assert t[i] == t[..k][i];
          } else {
            assert t[i] == t[k..][i - k];
          }
        }
      }
    }
  }

  lemma DigitMatches(t: string)
    requires t != "" && IsDigit(t[0])
    ensures MatchLen(t) > 0
  {
  }

  /** The token that holds position i. */
  predicate Covered(numbers: seq<(nat, nat)>, i: nat) {
    exists k :: 0 <= k < |numbers| && numbers[k].0 <= i < numbers[k].0 + numbers[k].1
  }

  /** The tokens of a text are its first token, if one starts it, and those of the rest. */
  lemma NumbersSplit(t: string, at: nat, n: nat)
    requires t != "" && n == MatchLen(t)
    ensures Numbers(t, at) == if n > 0 then [(at, n)] + Numbers(t[n..], at + n) else Numbers(t[1..], at + 1)
  {
    hide MatchLen;
  }

  lemma CoveredBySplit(numbers: seq<(nat, nat)>, first: seq<(nat, nat)>, rest: seq<(nat, nat)>, i: nat)
    requires numbers == first + rest
    ensures Covered(numbers, i) <==> Covered(first, i) || Covered(rest, i)
  {
    if Covered(rest, i) {
      var k :| 0 <= k < |rest| && rest[k].0 <= i < rest[k].0 + rest[k].1;
      assert numbers[|first| + k] == rest[k];
    }
    if Covered(first, i) {
      var k :| 0 <= k < |first| && first[k].0 <= i < first[k].0 + first[k].1;
      assert numbers[k] == first[k];
    }
  }

  lemma CoveredByOne(at: nat, n: nat, i: nat)
    ensures Covered([(at, n)], i) <==> at <= i < at + n
    ensures !Covered([], i)
  {
    assert [(at, n)][0] == (at, n);
  }

  /** Every digit is in a token, and tokens hold nothing but digits and separators. */
  lemma {:induction false} TokensHoldDigits(t: string, at: nat, i: nat)
    requires i < |t|
    ensures IsDigit(t[i]) ==> Covered(Numbers(t, at), at + i)
    ensures Covered(Numbers(t, at), at + i) ==> Plain(t[i])
    decreases |t|
  {
    hide MatchLen, Numbers, Covered, Plain, IsDigit;
    var n := MatchLen(t);
    var step := if n > 0 then n else 1;
    var first, rest := if n > 0 then [(at, n)] else [], Numbers(t[step..], at + step);
    NumbersSplit(t, at, n);
    CoveredBySplit(Numbers(t, at), first, rest, at + i);
    CoveredByOne(at, n, at + i);
    if i < step {
      TokensArePlain(t, n);
      if IsDigit(t[0]) {
        DigitMatches(t);
      }
      RestIsLater(t, at, step, at + i);
    } else {
      assert t[i] == t[step..][i - step];
      TokensHoldDigits(t[step..], at + step, i - step);
    }
  }

  lemma RestIsLater(t: string, at: nat, step: nat, i: nat)
    requires step <= |t| && i < at + step
    ensures !Covered(Numbers(t[step..], at + step), i)
  {
    hide MatchLen;
    NumbersInside(t[step..], at + step);
  }

  lemma OneTokenIsConvex(numbers: seq<(nat, nat)>, i: nat, between: nat, j: nat)
    requires |numbers| == 1 && Covered(numbers, i) && Covered(numbers, j) && i <= between <= j
    ensures Covered(numbers, between)
  {
    assert numbers[0].0 <= i && j < numbers[0].0 + numbers[0].1;
  }

  /** A text without a digit holds no price. */
  lemma NumberNeeded(text: string)
    requires NoDigits(text)
    ensures ParseCompact(text) == Refused
  {
    hide Ambiguous, Unsupported, Symbols, Codes, MatchLen, PriceOf;
    NoNumbers(text, 0);
  }

  /** Neither does one with two numbers, kept apart by anything but digits and separators. */
  lemma OneNumberOnly(text: string, i: nat, between: nat, j: nat)
    requires i < between < j < |text| && IsDigit(text[i]) && IsDigit(text[j]) && !Plain(text[between])
    ensures ParseCompact(text) == Refused
  {
    hide Ambiguous, Unsupported, Symbols, Codes, MatchLen, PriceOf, Numbers, Covered, Plain;
    TokensHoldDigits(text, 0, i);
    TokensHoldDigits(text, 0, j);
    TokensHoldDigits(text, 0, between);
    if |Numbers(text, 0)| == 1 && Covered(Numbers(text, 0), i) && Covered(Numbers(text, 0), j) {
      OneTokenIsConvex(Numbers(text, 0), i, between, j);
    }
  }

  // ---- Unsupported codes next to the number ----

  /** Three capitals that are none of the five codes. */
  predicate ForeignCode(s: string) {
    |s| == 3 && (forall i :: 0 <= i < 3 ==> 'A' <= s[i] <= 'Z') && s !in ["USD", "CAD", "EUR", "GBP", "AUD"]
  }

  lemma ForeignIsUnsupported(s: string)
    requires ForeignCode(s)
    ensures !Supported(s)
  {
    forall c | c in CURRENCIES ensures Code(c) != s {
      assert Code(c) in ["USD", "CAD", "EUR", "GBP", "AUD"];
    }
  }

  lemma ForeignAround(s: string, gap: string)
    requires ForeignCode(s) && (gap == "" || gap == " ")
    ensures BadCodeAfter(gap + s) && BadCodeBefore(s + gap)
  {
    hide Supported;
    ForeignIsUnsupported(s);
    TrimsGap(s);
    assert s[0..] == s && s[..3] == s;
    assert "" + s == s && s + "" == s;
  }

  /** One token next to an unsupported code is no price. */
  lemma BesideForeign(p: string, n: string, q: string)
    requires NoDigits(p) && NoDigits(q) && n != "" && MatchLen(n + q) == |n| && (BadCodeBefore(p) || BadCodeAfter(q))
    ensures ParseCompact(p + n + q) == Refused
  {
    hide Ambiguous, Unsupported, Symbols, Codes, MatchLen, BadCodeBefore, BadCodeAfter, Normalise, ParseNumber, Numbers, NoDigits;
    var t := p + n + q;
    NumbersAfter(p, n, q, 0);
    assert t[..|p|] == p && t[|p| + |n|..] == q;
  }

  /** A spelled number with an unsupported code after or before it is refused. */
  lemma ForeignCodeRefused(ds: string, sep: Option<char>, cents: nat, mark: char, decimals: bool, s: string, gap: string)
    requires ds != "" && AllDigits(ds) && cents < 100 && IsMark(mark) && (sep.None? || sep.value in " ,.")
    requires ForeignCode(s) && (gap == "" || gap == " ")
    ensures var n := Grouped(ds, sep) + Fraction(cents, mark, decimals);
      ParseCompact("" + n + (gap + s)) == Refused && ParseCompact((s + gap) + n + "") == Refused
  {
    hide ParseCompact, MatchLen, BadCodeBefore, BadCodeAfter, Grouped, Fraction;
    var n := Grouped(ds, sep) + Fraction(cents, mark, decimals);
    NumberShape(ds, sep, cents, mark, decimals);
    ForeignAround(s, gap);
    TokenMatch(ds, sep, cents, mark, decimals, gap + s);
    TokenMatch(ds, sep, cents, mark, decimals, "");
    BesideForeign("", n, gap + s);
    BesideForeign(s + gap, n, "");
  }
}
