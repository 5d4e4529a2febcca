/**
 The add-expense form: the keystroke filter on the amount field, the
 reading of the amount text as a number, and the submit guard that
 decides whether a new expense is handed to the store.
 */
module ExpenseForm {
  import opened Wrappers
  import opened ExpenseTypes
  import opened Text

  predicate IsDigit(c: char)
  {
    '0' <= c <= '9'
  }

  predicate AllDigits(s: string)
  {
    forall i :: 0 <= i < |s| ==> IsDigit(s[i])
  }

  predicate HasDigit(s: string)
  {
    exists i :: 0 <= i < |s| && IsDigit(s[i])
  }

  /**
   The regular expression `^\d*\.?\d{0,2}$` as a language: a run of
   digits, then either nothing or a point followed by at most two digits.
   (`\d` without the `u` flag is exactly `0`-`9`.)
   */
  ghost predicate MatchesAmountPattern(s: string)
  {
    exists k :: 0 <= k <= |s| && AllDigits(s[..k])
      && (k == |s| || (s[k] == '.' && |s| - k - 1 <= 2 && AllDigits(s[k + 1..])))
  }

  /** Length of the longest all-digit prefix. */
  function LeadingDigits(s: string): (n: nat)
    ensures n <= |s| && AllDigits(s[..n])
    ensures n < |s| ==> !IsDigit(s[n])
  {
    if s != [] && IsDigit(s[0]) then
      var n := 1 + LeadingDigits(s[1..]);
      assert s[..n] == [s[0]] + s[1..][..n - 1];
      n
    else 0
  }

  /**
   The acceptance test of an amount edit,
   `value === '' || /^\d*\.?\d{0,2}$/.test(value)`, as a left-to-right scan.
   */
  function AcceptsAmountText(s: string): (ok: bool)
    ensures ok <==> s == "" || MatchesAmountPattern(s)
  {
    var n := LeadingDigits(s);
    var ok := s == "" || n == |s| || (s[n] == '.' && |s| - n - 1 <= 2 && AllDigits(s[n + 1..]));
    assert MatchesAmountPattern(s) ==> ok by {
      if MatchesAmountPattern(s) {
        var k :| 0 <= k <= |s| && AllDigits(s[..k])
          && (k == |s| || (s[k] == '.' && |s| - k - 1 <= 2 && AllDigits(s[k + 1..])));
        LeadingDigitsUnique(s, k);
      }
    }
    ok
  }

  /** A digit prefix followed by a non-digit (or the end) is the longest one. */
  lemma {:induction false} LeadingDigitsUnique(s: string, k: nat)
    requires k <= |s| && AllDigits(s[..k]) && (k < |s| ==> !IsDigit(s[k]))
    ensures LeadingDigits(s) == k
  {
    if k > 0 {
      assert IsDigit(s[..k][0]);
      assert s[1..][..k - 1] == s[1..k];
      assert forall i :: 0 <= i < k - 1 ==> s[1..k][i] == s[..k][i + 1];
      assert k - 1 < |s[1..]| ==> s[1..][k - 1] == s[k];
      LeadingDigitsUnique(s[1..], k - 1);
    }
  }

  /** The empty edit is in the pattern's language already: the `value === ''` test adds nothing. */
  lemma EmptyMatchesPattern()
    ensures MatchesAmountPattern("")
  {
    assert AllDigits(""[..0]);
  }

  /**
   The language is closed under deleting the last character, so
   backspacing at the end of an accepted amount is never refused.
   */
  lemma {:induction false} AcceptsPrefixClosed(s: string)
    requires s != [] && AcceptsAmountText(s)
    ensures AcceptsAmountText(s[..|s| - 1])
  {
    var t := s[..|s| - 1];
    var k :| 0 <= k <= |s| && AllDigits(s[..k])
      && (k == |s| || (s[k] == '.' && |s| - k - 1 <= 2 && AllDigits(s[k + 1..])));
    if k == |s| {
      assert t[..|t|] == s[..k][..|t|];
      assert AllDigits(t[..|t|]);
    } else if k == |s| - 1 {
      assert t[..k] == s[..k];
      assert AllDigits(t[..k]);
    } else {
      assert t[..k] == s[..k];
      assert t[k + 1..] == s[k + 1..|s| - 1];
      assert t[k] == s[k];
      assert AllDigits(t[k + 1..]);
    }
  }

  /**
   The language is closed under deleting any one character, so deleting
   a character anywhere in an accepted amount is never refused.
   */
  lemma AcceptsDeleteClosed(s: string, i: nat)
    requires i < |s| && AcceptsAmountText(s)
    ensures AcceptsAmountText(s[..i] + s[i + 1..])
  {
    var k :| 0 <= k <= |s| && AllDigits(s[..k])
      && (k == |s| || (s[k] == '.' && |s| - k - 1 <= 2 && AllDigits(s[k + 1..])));
    if i < k {
      DeleteInWhole(s, i, k);
    } else if i == k {
      DeletePoint(s, k);
    } else {
      DeleteInFraction(s, i, k);
    }
  }

  /** Deleting a digit before the split point `k`. */
  lemma DeleteInWhole(s: string, i: nat, k: nat)
    requires i < k <= |s| && AllDigits(s[..k])
    requires k == |s| || (s[k] == '.' && |s| - k - 1 <= 2 && AllDigits(s[k + 1..]))
    ensures AcceptsAmountText(s[..i] + s[i + 1..])
  {
    var t := s[..i] + s[i + 1..];
    var a := s[..k];
    DeleteDigit(a, i);
    assert t == (a[..i] + a[i + 1..]) + s[k..];
    assert t[..k - 1] == a[..i] + a[i + 1..];
    if k < |s| {
      assert t[k - 1] == s[k] && t[k..] == s[k + 1..];
    }
    PatternAt(t, k - 1);
  }

  /** Deleting the point joins the two digit runs. */
  lemma DeletePoint(s: string, k: nat)
    requires k < |s| && AllDigits(s[..k])
    requires s[k] == '.' && AllDigits(s[k + 1..])
    ensures AcceptsAmountText(s[..k] + s[k + 1..])
  {
    AllDigitsConcat(s[..k], s[k + 1..]);
    PatternAt(s[..k] + s[k + 1..], |s| - 1);
  }

  /** Deleting a digit after the point at `k`. */
  lemma DeleteInFraction(s: string, i: nat, k: nat)
    requires k < i < |s| && AllDigits(s[..k])
    requires s[k] == '.' && |s| - k - 1 <= 2 && AllDigits(s[k + 1..])
    ensures AcceptsAmountText(s[..i] + s[i + 1..])
  {
    var t := s[..i] + s[i + 1..];
    var b := s[k + 1..];
    DeleteDigit(b, i - k - 1);
    assert t == s[..k] + [s[k]] + (b[..i - k - 1] + b[i - k..]);
    assert t[..k] == s[..k] && t[k] == '.';
    assert t[k + 1..] == b[..i - k - 1] + b[i - k..];
    PatternAt(t, k);
  }

  lemma DeleteDigit(a: string, i: nat)
    requires AllDigits(a) && i < |a|
    ensures AllDigits(a[..i] + a[i + 1..])
  {
    AllDigitsConcat(a[..i], a[i + 1..]);
  }

  /** A split point witnessing the pattern. */
  lemma PatternAt(t: string, k: nat)
    requires k <= |t| && AllDigits(t[..k])
    requires k == |t| || (t[k] == '.' && |t| - k - 1 <= 2 && AllDigits(t[k + 1..]))
    ensures AcceptsAmountText(t)
  {
  }

  /**
   `handleAmountChange`: an accepted edit replaces the stored amount text,
   a refused one leaves it as it was.
   */
  function HandleAmountChange(stored: string, value: string): (r: string)
    ensures AcceptsAmountText(value) ==> r == value
    ensures !AcceptsAmountText(value) ==> r == stored
  {
    if AcceptsAmountText(value) then value else stored
  }

  /** The outcome of `parseFloat`: a finite number of cents, or `NaN`. */
  datatype Number = Finite(cents: int) | NaN

  function DigitValue(c: char): nat
    requires IsDigit(c)
  {
    (c as int) - ('0' as int)
  }

  /** The value of a digit string in base ten. */
  function DigitsValue(ds: string): nat
    requires AllDigits(ds)
    decreases |ds|
  {
    if ds == [] then 0 else DigitsValue(ds[..|ds| - 1]) * 10 + DigitValue(ds[|ds| - 1])
  }

  /** The value of the digits after a decimal point, `0.d1d2...`. */
  ghost function FractionValue(ds: string): real
    requires AllDigits(ds)
  {
    if ds == [] then 0.0 else (DigitValue(ds[0]) as real + FractionValue(ds[1..])) / 10.0
  }

  /** The digits before the point of an accepted amount text. */
  function WholePart(s: string): string
  {
    s[..LeadingDigits(s)]
  }

  /** The digits after the point of an accepted amount text (empty when there is no point). */
  function FractionPart(s: string): string
  {
    var n := LeadingDigits(s);
    if n < |s| then s[n + 1..] else ""
  }

  lemma AcceptedParts(s: string)
    requires AcceptsAmountText(s)
    ensures AllDigits(WholePart(s)) && AllDigits(FractionPart(s)) && |FractionPart(s)| <= 2
    ensures HasDigit(s) <==> WholePart(s) != "" || FractionPart(s) != ""
  {
    var n := LeadingDigits(s);
    if HasDigit(s) {
      var i :| 0 <= i < |s| && IsDigit(s[i]);
      if n == 0 && n < |s| {
        assert i != 0;
        assert s[i] == FractionPart(s)[i - 1];
      }
    }
    if WholePart(s) != "" {
      assert IsDigit(s[0]);
    } else if FractionPart(s) != "" {
      assert IsDigit(s[n + 1]) by {
        assert s[n + 1] == FractionPart(s)[0];
      }
    }
  }

  /** Cents per unit of the last fraction digit: 100 with none, 10 with one, 1 with two. */
  function CentScale(fractionDigits: nat): nat
    requires fractionDigits <= 2
  {
    if fractionDigits == 0 then 100 else if fractionDigits == 1 then 10 else 1
  }

  /**
   `parseFloat(amount)` on a text the amount filter accepted: `NaN` when
   there is no digit at all (`""` and `"."`), otherwise the number in
   cents.
   */
  function ParseAmount(s: string): (r: Number)
    requires AcceptsAmountText(s)
    ensures r.NaN? <==> !HasDigit(s)
    ensures r.Finite? ==> r.cents >= 0
  {
    AcceptedParts(s);
    var whole := WholePart(s);
    var frac := FractionPart(s);
    if whole == "" && frac == "" then NaN
    else Finite(DigitsValue(whole + frac) * CentScale(|frac|))
  }

  /** The exact decimal reading of an accepted amount text. */
  ghost function DecimalValue(s: string): real
    requires AcceptsAmountText(s)
  {
    AcceptedParts(s);
    DigitsValue(WholePart(s)) as real + FractionValue(FractionPart(s))
  }

  function Pow10(n: nat): nat
  {
    if n == 0 then 1 else 10 * Pow10(n - 1)
  }

  lemma AllDigitsConcat(a: string, b: string)
    requires AllDigits(a) && AllDigits(b)
    ensures AllDigits(a + b)
  {
    forall i | 0 <= i < |a + b| ensures IsDigit((a + b)[i]) {
      if i < |a| { assert (a + b)[i] == a[i]; } else { assert (a + b)[i] == b[i - |a|]; }
    }
  }

  /** Appending a digit to the low end: the arithmetic step of DigitsValueAppend. */
  lemma ShiftDigit(x: int, p: int, y: int, d: int)
    ensures (x * p + y) * 10 + d == x * (10 * p) + (y * 10 + d)
  {
    assert (x * p) * 10 == x * (10 * p);
  }

  lemma {:induction false} DigitsValueAppend(a: string, b: string)
    requires AllDigits(a) && AllDigits(b)
    ensures AllDigits(a + b)
    ensures DigitsValue(a + b) == DigitsValue(a) * Pow10(|b|) + DigitsValue(b)
    decreases |b|
  {
    AllDigitsConcat(a, b);
    if b == [] {
      assert a + b == a;
    } else {
      var b' := b[..|b| - 1];
      assert (a + b)[..|a + b| - 1] == a + b';
      assert (a + b)[|a + b| - 1] == b[|b| - 1];
      assert AllDigits(b');
      DigitsValueAppend(a, b');
      ShiftDigit(DigitsValue(a), Pow10(|b'|), DigitsValue(b'), DigitValue(b[|b| - 1]));
    }
  }


  /**
   Every accepted amount text with at least one digit denotes a whole
   number of cents, and `ParseAmount` finds exactly that number.
   */
  lemma ParseAmountExact(s: string)
    requires AcceptsAmountText(s) && HasDigit(s)
    ensures ParseAmount(s).Finite?
    ensures ParseAmount(s).cents as real / 100.0 == DecimalValue(s)
  {
    AcceptedParts(s);
    CentsOfParts(WholePart(s), FractionPart(s));
  }

  lemma CentsOfParts(whole: string, frac: string)
    requires AllDigits(whole) && AllDigits(frac) && |frac| <= 2
    ensures AllDigits(whole + frac)
    ensures (DigitsValue(whole + frac) * CentScale(|frac|)) as real / 100.0
         == DigitsValue(whole) as real + FractionValue(frac)
  {
    DigitsValueAppend(whole, frac);
    var w := DigitsValue(whole);
    var v := DigitsValue(whole + frac);
    var c := v * CentScale(|frac|);
    FractionDigits(frac);
    if |frac| == 0 {
      assert c == w * 100;
    } else if |frac| == 1 {
      assert c == w * 100 + DigitsValue(frac) * 10;
    } else {
      assert c == w * 100 + DigitsValue(frac);
    }
  }

  /** One or two digits after the point, read as a fraction and as an integer. */
  lemma FractionDigits(frac: string)
    requires AllDigits(frac) && |frac| <= 2
    ensures |frac| == 1 ==> FractionValue(frac) == DigitsValue(frac) as real / 10.0
    ensures |frac| == 2 ==> FractionValue(frac) == DigitsValue(frac) as real / 100.0
  {
    if |frac| == 1 {
      assert frac[..0] == "";
      assert frac[1..] == "";
    } else if |frac| == 2 {
      assert frac[..1][..0] == "";
      assert frac[..1] == [frac[0]];
      assert frac[1..][1..] == "";
      var d1 := DigitValue(frac[0]);
      var d2 := DigitValue(frac[1]);
      assert DigitsValue(frac) == d1 * 10 + d2;
      assert FractionValue(frac[1..]) == d2 as real / 10.0;
    }
  }

  /** The form's fields. The date input's value is kept as the date it denotes. */
  datatype FormState = FormState(description: string, amount: string, category: Category, date: Date)

  /** The form as mounted, and as reset after a submit: empty text, `food`, today's date. */
  function InitialForm(today: Date): FormState
  {
    FormState("", "", Food, today)
  }

  /** The stored amount text is always one the filter accepted. */
  predicate FormInvariant(f: FormState)
  {
    AcceptsAmountText(f.amount)
  }

  lemma InitialFormInvariant(today: Date)
    ensures FormInvariant(InitialForm(today))
  {
  }

  lemma AmountChangeKeepsInvariant(f: FormState, value: string)
    requires FormInvariant(f)
    ensures FormInvariant(f.(amount := HandleAmountChange(f.amount, value)))
  {
  }

  /** The result of a submit: the next form state and what was handed to `onAddExpense`, if anything. */
  datatype Submission<P> = Submission(form: FormState, sent: Option<P>)

  /** The payload the source builds, whose amount may be `NaN`. */
  datatype Draft = Draft(description: string, amount: Number, category: Category, date: Date)

  /**
   `handleSubmit` as written: refuse when the description trims to
   nothing, the amount text is empty, or the parsed amount is `<= 0`
   (which is false for `NaN`); otherwise send the trimmed description,
   the parsed amount, the category and the date, and reset the form.
   */
  function SubmitAsWritten(f: FormState, today: Date): (r: Submission<Draft>)
    requires FormInvariant(f)
    ensures r.sent.None? <==>
      Trim(f.description) == "" || f.amount == ""
      || (ParseAmount(f.amount).Finite? && ParseAmount(f.amount).cents <= 0)
    ensures r.sent.None? ==> r.form == f
    ensures r.sent.Some? ==>
      && r.sent.value == Draft(Trim(f.description), ParseAmount(f.amount), f.category, f.date)
      && r.form == InitialForm(today)
  {
    var parsed := ParseAmount(f.amount);
    if Trim(f.description) == "" || f.amount == "" || (parsed.Finite? && parsed.cents <= 0) then
      Submission(f, None)
    else
      Submission(InitialForm(today), Some(Draft(Trim(f.description), parsed, f.category, f.date)))
  }

  /**
   The amount text `"."` passes the keystroke filter and the submit
   guard, and the source forwards `NaN` as the amount.
   */
  lemma DotAmountPassesGuard(description: string, category: Category, date: Date, today: Date)
    requires Trim(description) != ""
    ensures AcceptsAmountText(".")
    ensures SubmitAsWritten(FormState(description, ".", category, date), today).sent
         == Some(Draft(Trim(description), NaN, category, date))
  {
    DotParsesToNaN();
  }

  lemma DotParsesToNaN()
    ensures AcceptsAmountText(".") && ParseAmount(".") == NaN
  {
    assert LeadingDigits(".") == 0;
    assert !HasDigit(".");
  }

  /** `"."` is the only accepted text for which the source forwards `NaN`. */
  lemma AsWrittenNaNOnlyForDot(f: FormState, today: Date)
    requires FormInvariant(f)
    requires SubmitAsWritten(f, today).sent.Some?
    ensures SubmitAsWritten(f, today).sent.value.amount.NaN? <==> f.amount == "."
  {
    var s := f.amount;
    if ParseAmount(s).NaN? {
      AcceptedParts(s);
      var n := LeadingDigits(s);
      assert n == 0 && s != "";
      assert s[0] == '.';
      assert |s| == 1;
      assert s == ".";
    }
    if s == "." {
      assert !HasDigit(s);
    }
  }

  /** A payload the store may accept: trimmed, non-blank description and a positive amount. */
  predicate ValidPayload(n: NewExpense)
  {
    n.description != "" && Trim(n.description) == n.description && n.amount > 0
  }

  /**
   The submit the guard evidently intends: it also refuses an amount
   text that reads as `NaN`, and it sends the amount as a positive number
   of cents.
   */
  function Submit(f: FormState, today: Date): (r: Submission<NewExpense>)
    requires FormInvariant(f)
    ensures r.sent.None? <==>
      Trim(f.description) == "" || ParseAmount(f.amount).NaN? || ParseAmount(f.amount).cents <= 0
    ensures r.sent.None? ==> r.form == f
    ensures r.sent.Some? ==>
      && r.sent.value.description == Trim(f.description)
      && Finite(r.sent.value.amount) == ParseAmount(f.amount)
      && r.sent.value.category == f.category
      && r.sent.value.date == f.date
      && ValidPayload(r.sent.value)
      && r.form == InitialForm(today)
  {
    var parsed := ParseAmount(f.amount);
    var description := Trim(f.description);
    if description == "" || f.amount == "" || parsed.NaN? || parsed.cents <= 0 then
      Submission(f, None)
    else
      TrimIdempotent(f.description);
      Submission(InitialForm(today), Some(NewExpense(description, parsed.cents, f.category, f.date)))
  }

  /** An empty amount text is refused by the corrected submit. */
  lemma SubmitRefusesEmptyAmount(f: FormState, today: Date)
    requires FormInvariant(f) && f.amount == ""
    ensures Submit(f, today).sent.None?
  {
    assert !HasDigit(f.amount);
  }

  /**
   Away from `NaN` the corrected submit agrees with the source: it
   refuses the same forms and sends the same payload.
   */
  lemma SubmitAgreesAsWritten(f: FormState, today: Date)
    requires FormInvariant(f) && f.amount != "."
    ensures Submit(f, today).sent.None? <==> SubmitAsWritten(f, today).sent.None?
    ensures Submit(f, today).sent.Some? ==>
      var d := SubmitAsWritten(f, today).sent.value;
      var n := Submit(f, today).sent.value;
      d == Draft(n.description, Finite(n.amount), n.category, n.date)
  {
    if f.amount == "" {
      assert !HasDigit(f.amount);
    }
    if SubmitAsWritten(f, today).sent.Some? {
      AsWrittenNaNOnlyForDot(f, today);
    }
  }

  lemma SubmitKeepsInvariant(f: FormState, today: Date)
    requires FormInvariant(f)
    ensures FormInvariant(Submit(f, today).form)
  {
  }
}
