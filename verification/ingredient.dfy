/** `split_ingredient`: one free-form ingredient line becomes the one-entry dict
    `{name: {unit: amount}}`, here the triple `Ingredient(name, unit, amount)` with the
    amount an exact rational.  `Fraction` failures on the amount token are explicit. */
module Ingredients {
  import opened Py
  import opened Text
  import opened Numbers

  /** The "to taste" marker. */
  const ToTaste: string := "по вкусу"

  /** A parsed line: the dict `{name: {unit: amount}}`. */
  datatype Ingredient = Ingredient(name: string, unit: string, amount: real)

  /** `word[0].isdigit()` on a token. */
  predicate StartsWithDigit(w: string) {
    |w| > 0 && IsDigit(w[0])
  }

  /** The index of the last token that starts with a digit. */
  function LastAmountIndex(ts: seq<string>): (r: Option<nat>)
    ensures r.Some? ==> r.value < |ts| && StartsWithDigit(ts[r.value])
    ensures r.Some? ==> forall j :: r.value < j < |ts| ==> !StartsWithDigit(ts[j])
    ensures r.None? ==> forall j :: 0 <= j < |ts| ==> !StartsWithDigit(ts[j])
  {
    if |ts| == 0 then None
    else if StartsWithDigit(ts[|ts| - 1]) then Some(|ts| - 1)
    else LastAmountIndex(ts[..|ts| - 1])
  }

  /** The unit label the reverse scan accumulates with `measure = word + " " + measure`. */
  function UnitLabel(ts: seq<string>): (u: string)
  {
    if |ts| == 0 then "" else ts[0] + " " + UnitLabel(ts[1..])
  }

  /** `split_ingredient(line)`.  A line containing the marker maps the text before its
      first occurrence (untrimmed) to the marker with amount 1.  Otherwise the amount is
      the last digit-led token, read by `Fraction` after ',' becomes '.'; the tokens
      before it form the name and the tokens after it the unit.  A failing `Fraction`
      is the raised exception. */
  function SplitIngredient(line: string): (r: Result<Ingredient>)
    ensures r.Raised? ==> r.exc == ValueError || r.exc == ZeroDivisionError
    ensures Contains(line, ToTaste) ==>
              && r.Ok? && r.value.unit == ToTaste && r.value.amount == 1.0
              && r.value.name + ToTaste <= line
              && forall j :: 0 <= j < |r.value.name| ==> !OccursAt(line, ToTaste, j)
  {
    match Find(line, ToTaste)
    case Some(i) =>
      assert line[..i] + ToTaste == line[..i + |ToTaste|];
      Ok(Ingredient(line[..i], ToTaste, 1.0))
    case None => FromTokens(Split(line))
  }

  /** The result of the reverse scan over the tokens of a line without the marker.
      Without a digit-led token every token goes to the unit and the amount is 0; a
      failure is always `Fraction` rejecting a digit-led token. */
  function FromTokens(ts: seq<string>): (r: Result<Ingredient>)
    ensures r.Raised? ==> r.exc == ValueError || r.exc == ZeroDivisionError
    ensures (forall j :: 0 <= j < |ts| ==> !StartsWithDigit(ts[j])) ==>
              r == Ok(Ingredient("", UnitLabel(ts), 0.0))
    ensures r.Raised? ==>
              exists k :: 0 <= k < |ts| && StartsWithDigit(ts[k])
                          && ParseFraction(ReplaceChar(ts[k], ',', '.')).Raised?
  {
    match LastAmountIndex(ts)
    case None => Ok(Ingredient("", UnitLabel(ts), 0.0))
    case Some(k) =>
      match ParseFraction(ReplaceChar(ts[k], ',', '.'))
      case Raised(e) => Raised(e)
      case Ok(x) => Ok(Ingredient(Join(" ", ts[..k]), UnitLabel(ts[k + 1..]), x))
  }

  /** The body of `split_ingredient` as written: a scan of the tokens from the last to
      the first that builds the unit label until it meets a digit-led token. */
  method SplitIngredientScan(line: string) returns (r: Result<Ingredient>)
    ensures r == SplitIngredient(line)
  {
    var found := Find(line, ToTaste);
    if found.Some? {
      return Ok(Ingredient(line[..found.value], ToTaste, 1.0));
    }
    r := ScanTokens(Split(line));
  }

  /** The reverse scan over the tokens of a line without the marker. */
  method ScanTokens(ts: seq<string>) returns (r: Result<Ingredient>)
    requires forall i :: 0 <= i < |ts| ==> IsWord(ts[i])
    ensures r == FromTokens(ts)
  {
    var measure := "";
    var amount := 0.0;
    var measureIndex := 0;
    var idx := |ts|;
    while idx > 0
      invariant 0 <= idx <= |ts|
      invariant measure == UnitLabel(ts[idx..])
      invariant forall j :: idx <= j < |ts| ==> !StartsWithDigit(ts[j])
    {
      var word := ts[idx - 1];
      if IsDigit(word[0]) {
        measureIndex := idx - 1;
        LastAmountAt(ts, measureIndex);
        var parsed := ParseFraction(ReplaceChar(word, ',', '.'));
        if parsed.Raised? {
          return Raised(parsed.exc);
        }
        amount := parsed.value;
        break;
      }
      assert ts[idx - 1..][1..] == ts[idx..];
      measure := word + " " + measure;
      idx := idx - 1;
    }
    return Ok(Ingredient(Join(" ", ts[..measureIndex]), measure, amount));
  }

  /** A digit-led token with none after it is the amount token. */
  lemma LastAmountAt(ts: seq<string>, k: nat)
    requires k < |ts| && StartsWithDigit(ts[k])
    requires forall j :: k < j < |ts| ==> !StartsWithDigit(ts[j])
    ensures LastAmountIndex(ts) == Some(k)
  {
    var r := LastAmountIndex(ts);
    assert r.Some?;
    assert !(r.value < k);
  }

  /** The unit label is the tokens joined by single spaces, plus one trailing space;
      no tokens give "". */
  lemma {:induction false} UnitLabelSpaced(ts: seq<string>)
    ensures |ts| == 0 ==> UnitLabel(ts) == ""
    ensures |ts| > 0 ==> UnitLabel(ts) == Join(" ", ts) + " "
  {
    if |ts| > 1 {
      UnitLabelSpaced(ts[1..]);
    }
  }

  /** Round trip: the unit label splits back into the tokens it was built from. */
  lemma {:induction false} SplitUnitLabel(ts: seq<string>)
    requires forall i :: 0 <= i < |ts| ==> IsWord(ts[i])
    ensures Split(UnitLabel(ts)) == ts
  {
    if |ts| > 0 {
      var rest := UnitLabel(ts[1..]);
      assert UnitLabel(ts) == ts[0] + (" " + rest);
      SplitWordThen(ts[0], " " + rest);
      SplitLeadingSpace(' ', rest);
      SplitUnitLabel(ts[1..]);
    }
  }

  /** Without the marker and with a digit-led token, the amount is read from the last
      such token: no later token starts with a digit, and the line parses exactly when
      `Fraction` accepts that token with ',' replaced by '.'. */
  lemma AmountIsLastNumericToken(line: string)
    requires !Contains(line, ToTaste)
    requires exists j :: 0 <= j < |Split(line)| && StartsWithDigit(Split(line)[j])
    ensures var ts := Split(line);
            exists k :: && 0 <= k < |ts| && StartsWithDigit(ts[k])
                        && (forall j :: k < j < |ts| ==> !StartsWithDigit(ts[j]))
                        && (SplitIngredient(line).Ok? <==> ParseFraction(ReplaceChar(ts[k], ',', '.')).Ok?)
                        && (SplitIngredient(line).Ok? ==>
                              SplitIngredient(line).value.amount == ParseFraction(ReplaceChar(ts[k], ',', '.')).value)
  {
    var ts := Split(line);
    var k := LastAmountIndex(ts).value;
    assert 0 <= k < |ts| && StartsWithDigit(ts[k]);
  }

  /** The name, amount token and unit of a scan that found an amount token. */
  lemma FromTokensReassemble(ts: seq<string>, k: nat)
    requires forall i :: 0 <= i < |ts| ==> IsWord(ts[i])
    requires LastAmountIndex(ts) == Some(k)
    requires FromTokens(ts).Ok?
    ensures Split(FromTokens(ts).value.name) + [ts[k]] + Split(FromTokens(ts).value.unit) == ts
    ensures FromTokens(ts).value.name == Join(" ", ts[..k])
    ensures k + 1 == |ts| ==> FromTokens(ts).value.unit == ""
    ensures k + 1 < |ts| ==> FromTokens(ts).value.unit == Join(" ", ts[k + 1..]) + " "
  {
    var r := FromTokens(ts).value;
    assert r.name == Join(" ", ts[..k]);
    assert r.unit == UnitLabel(ts[k + 1..]);
    ReassembleParts(ts, k);
    UnitLabelSpaced(ts[k + 1..]);
  }

  lemma Recombine(ts: seq<string>, k: nat)
    requires k < |ts|
    ensures ts[..k] + [ts[k]] + ts[k + 1..] == ts
  {
  }

  lemma ReassembleParts(ts: seq<string>, k: nat)
    requires forall i :: 0 <= i < |ts| ==> IsWord(ts[i])
    requires k < |ts|
    ensures Split(Join(" ", ts[..k])) + [ts[k]] + Split(UnitLabel(ts[k + 1..])) == ts
  {
    var before, after := ts[..k], ts[k + 1..];
    assert forall i :: 0 <= i < |before| ==> IsWord(before[i]) by {
      forall i | 0 <= i < |before| ensures IsWord(before[i]) {
        assert before[i] == ts[i];
      }
    }
    assert forall i :: 0 <= i < |after| ==> IsWord(after[i]) by {
      forall i | 0 <= i < |after| ensures IsWord(after[i]) {
        assert after[i] == ts[k + 1 + i];
      }
    }
    SplitJoin(before);
    SplitUnitLabel(after);
    Recombine(ts, k);
  }

  /** Without the marker, the name's tokens, the amount token and the unit's tokens are
      exactly the line's tokens, in order; the name is the earlier tokens joined by
      single spaces and the unit is each later token followed by one space. */
  lemma TokensReassemble(line: string)
    requires !Contains(line, ToTaste)
    requires SplitIngredient(line).Ok?
    requires exists j :: 0 <= j < |Split(line)| && StartsWithDigit(Split(line)[j])
    ensures var r := SplitIngredient(line).value;
            var ts := Split(line);
            exists k :: && 0 <= k < |ts|
                        && Split(r.name) + [ts[k]] + Split(r.unit) == ts
                        && r.name == Join(" ", ts[..k])
                        && (k + 1 == |ts| ==> r.unit == "")
                        && (k + 1 < |ts| ==> r.unit == Join(" ", ts[k + 1..]) + " ")
  {
    var ts := Split(line);
    var k := LastAmountIndex(ts).value;
    assert SplitIngredient(line) == FromTokens(ts);
    FromTokensReassemble(ts, k);
  }

  /** Without the marker and with no digit-led token: the name is "", the amount 0, and
      the unit is every token followed by one space. */
  lemma NoAmountToken(line: string)
    requires !Contains(line, ToTaste)
    requires forall j :: 0 <= j < |Split(line)| ==> !StartsWithDigit(Split(line)[j])
    ensures SplitIngredient(line).Ok?
    ensures SplitIngredient(line).value.name == ""
    ensures SplitIngredient(line).value.amount == 0.0
    ensures Split(SplitIngredient(line).value.unit) == Split(line)
    ensures |Split(line)| == 0 ==> SplitIngredient(line).value.unit == ""
    ensures |Split(line)| > 0 ==> SplitIngredient(line).value.unit == Join(" ", Split(line)) + " "
  {
    var ts := Split(line);
    SplitUnitLabel(ts);
    UnitLabelSpaced(ts);
  }

  /** The empty line parses to `{"": {"": 0}}`. */
  lemma EmptyLine()
    ensures SplitIngredient("") == Ok(Ingredient("", "", 0.0))
  {
    assert !OccursAt("", ToTaste, 0);
    assert Split("") == [];
  }

  /** Re-parsing the canonical reconstruction of a line (its tokens joined by single
      spaces) gives the same result, provided the marker occurs in neither. */
  lemma ReparseCanonical(line: string)
    requires !Contains(line, ToTaste)
    requires !Contains(Join(" ", Split(line)), ToTaste)
    ensures SplitIngredient(Join(" ", Split(line))) == SplitIngredient(line)
  {
    SplitJoin(Split(line));
  }

  /** A line "<name words> <amount> <unit words>" with no other digit-led token parses
      back into exactly those parts: the name words joined by spaces, the unit words each
      followed by a space, and the amount `Fraction` reads from the amount token. */
  lemma {:induction false} NameAmountUnit(ns: seq<string>, amt: string, us: seq<string>)
    requires forall i :: 0 <= i < |ns| ==> IsWord(ns[i])
    requires IsWord(amt) && StartsWithDigit(amt)
    requires forall i :: 0 <= i < |us| ==> IsWord(us[i]) && !StartsWithDigit(us[i])
    requires !Contains(Join(" ", ns + [amt] + us), ToTaste)
    ensures var r := SplitIngredient(Join(" ", ns + [amt] + us));
            var x := ParseFraction(ReplaceChar(amt, ',', '.'));
            && (r.Ok? <==> x.Ok?)
            && (r.Ok? ==> r.value == Ingredient(Join(" ", ns), UnitLabel(us), x.value))
  {
    var ts := ns + [amt] + us;
    WordsConcat(ns, amt, us);
    SplitJoin(ts);
    LastAmountBeforeUnits(ns, amt, us);
    assert ts[..|ns|] == ns;
    assert ts[|ns| + 1..] == us;
    assert SplitIngredient(Join(" ", ts)) == FromTokens(ts);
  }

  lemma WordsConcat(ns: seq<string>, amt: string, us: seq<string>)
    requires forall i :: 0 <= i < |ns| ==> IsWord(ns[i])
    requires IsWord(amt)
    requires forall i :: 0 <= i < |us| ==> IsWord(us[i])
    ensures forall i :: 0 <= i < |ns + [amt] + us| ==> IsWord((ns + [amt] + us)[i])
  {
    var ts := ns + [amt] + us;
    forall i | 0 <= i < |ts|
      ensures IsWord(ts[i])
    {
      if i < |ns| {
        assert ts[i] == ns[i];
      } else if i > |ns| {
        assert ts[i] == us[i - |ns| - 1];
      }
    }
  }

  lemma {:induction false} LastAmountBeforeUnits(ns: seq<string>, amt: string, us: seq<string>)
    requires StartsWithDigit(amt)
    requires forall i :: 0 <= i < |us| ==> !StartsWithDigit(us[i])
    ensures LastAmountIndex(ns + [amt] + us) == Some(|ns|)
  {
    var ts := ns + [amt] + us;
    if |us| == 0 {
      assert ts[|ts| - 1] == amt;
    } else {
      assert ts[|ts| - 1] == us[|us| - 1];
      assert ts[..|ts| - 1] == ns + [amt] + us[..|us| - 1];
      LastAmountBeforeUnits(ns, amt, us[..|us| - 1]);
    }
  }

  /** Replacing ',' by '.' distributes over concatenation. */
  lemma {:induction false} ReplaceCharAppend(a: string, b: string, x: char, y: char)
    ensures ReplaceChar(a + b, x, y) == ReplaceChar(a, x, y) + ReplaceChar(b, x, y)
  {
    if |a| > 0 {
      assert (a + b)[1..] == a[1..] + b;
      ReplaceCharAppend(a[1..], b, x, y);
    } else {
      assert a + b == b;
    }
  }

  lemma ReplaceCharAbsent(s: string, x: char, y: char)
    requires forall i :: 0 <= i < |s| ==> s[i] != x
    ensures ReplaceChar(s, x, y) == s
  {
  }

  /** An amount token "a/b" is exactly `a / b`; "a/0" raises `ZeroDivisionError`. */
  lemma RatioAmount(a: nat, b: nat)
    ensures var x := ParseFraction(ReplaceChar(DecimalString(a) + "/" + DecimalString(b), ',', '.'));
            && (b > 0 ==> x == Ok(a as real / b as real))
            && (b == 0 ==> x == Raised(ZeroDivisionError))
  {
    var t := DecimalString(a) + "/" + DecimalString(b);
    ReplaceCharAbsent(t, ',', '.');
    FractionOfRatio(a, b);
  }

  /** An amount token "a,f" with a decimal comma is the decimal `a.f`. */
  lemma CommaDecimalAmount(a: nat, f: string)
    requires AllDigits(f)
    ensures ParseFraction(ReplaceChar(DecimalString(a) + "," + f, ',', '.')) == Ok(DecimalValue(a, f))
  {
    var ds := DecimalString(a);
    ReplaceCharAppend(ds + ",", f, ',', '.');
    ReplaceCharAppend(ds, ",", ',', '.');
    ReplaceCharAbsent(ds, ',', '.');
    ReplaceCharAbsent(f, ',', '.');
    assert ReplaceChar(",", ',', '.') == ".";
    assert ReplaceChar(ds + "," + f, ',', '.') == ds + "." + f;
    FractionOfDecimal(a, f);
  }

  /** A unit glued to the number ("2шт") is no `Fraction` literal: the letters right
      after the digits make `Fraction` raise `ValueError`.  The amount is one token of
      `split()`, so the glued unit is whitespace-free. */
  lemma GluedUnitAmount(a: nat, w: string)
    requires IsWord(w) && !IsDigit(w[0])
    requires w[0] !in {'/', '.', ',', 'e', 'E'}
    ensures ParseFraction(ReplaceChar(DecimalString(a) + w, ',', '.')) == Raised(ValueError)
  {
    var ds := DecimalString(a);
    ReplaceCharAppend(ds, w, ',', '.');
    ReplaceCharAbsent(ds, ',', '.');
    var w' := ReplaceChar(w, ',', '.');
    assert w'[0] == w[0];
    FractionOfDigitLed(ds + w');
    UnsignedAfterDigits(ds, w');
    assert ds + w' == ReplaceChar(ds + w, ',', '.');
  }

  /** "соль по вкусу": the name keeps the space before the marker. */
  lemma SaltToTasteExample()
    ensures SplitIngredient("соль по вкусу") == Ok(Ingredient("соль ", ToTaste, 1.0))
  {
    var line := "соль по вкусу";
    assert line == "соль " + ToTaste;
    assert OccursAt(line, ToTaste, 5);
    forall j | 0 <= j < 5 && OccursAt(line, ToTaste, j)
      ensures line[j] == ToTaste[0]
    {
      assert line[j..j + |ToTaste|][0] == line[j];
    }
    assert Find(line, ToTaste) == Some(5);
  }

  /** "по\tвкусу" does not contain the marker, so its tokens become the unit label with a
      trailing space and amount 0; re-parsing that label (stripped) now finds the marker
      and gives amount 1, so parsing the rebuilt line is not idempotent. */
  lemma TabbedMarkerExample()
    ensures SplitIngredient("по\tвкусу") == Ok(Ingredient("", "по вкусу ", 0.0))
    ensures SplitIngredient("по вкусу") == Ok(Ingredient("", ToTaste, 1.0))
  {
    TabbedParse();
    MarkerParse();
  }

  lemma TabbedParse()
    ensures SplitIngredient("по\tвкусу") == Ok(Ingredient("", "по вкусу ", 0.0))
  {
    var line := "по\tвкусу";
    TabbedHasNoMarker();
    TabbedTokens();
    TabbedLabel();
    assert SplitIngredient(line) == FromTokens(Split(line));
  }

  lemma MarkerParse()
    ensures SplitIngredient(ToTaste) == Ok(Ingredient("", ToTaste, 1.0))
  {
    assert OccursAt(ToTaste, ToTaste, 0);
    assert Find(ToTaste, ToTaste) == Some(0);
    assert ToTaste[..0] == "";
  }

  lemma TabbedLabel()
    ensures FromTokens(["по", "вкусу"]) == Ok(Ingredient("", "по вкусу ", 0.0))
  {
    var ts := ["по", "вкусу"];
    assert !StartsWithDigit(ts[0]) && !StartsWithDigit(ts[1]);
    assert ts[..1] == ["по"] && ts[..1][..0] == [];
    assert LastAmountIndex(ts[..1]) == None;
    assert LastAmountIndex(ts) == None;
    assert ts[1..] == ["вкусу"] && ts[1..][1..] == [];
    assert UnitLabel(ts[1..]) == "вкусу " + "";
    assert UnitLabel(ts) == "по" + " " + "вкусу ";
    assert "по" + " " + "вкусу " == "по вкусу ";
    assert FromTokens(ts) == Ok(Ingredient("", UnitLabel(ts), 0.0));
  }

  lemma TabbedHasNoMarker()
    ensures Find("по\tвкусу", ToTaste) == None
  {
    var line := "по\tвкусу";
    assert line[2] != ToTaste[2];
    assert !OccursAt(line, ToTaste, 0);
  }

  lemma TabbedTokens()
    ensures Split("по\tвкусу") == ["по", "вкусу"]
  {
    assert "по\tвкусу" == "по" + ['\t'] + "вкусу";
    SplitTwoWords("по", '\t', "вкусу");
  }
}
