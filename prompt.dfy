/** The prompt scanners of the mock planner (lib/ai.ts): the regular expressions
    that read the number of days, the destination and the budget out of the
    lower-cased prompt. Each expression is written as a search for its leftmost
    match, trying the alternatives and the backtracking choices in the order a
    JavaScript regular expression tries them. */
module Prompt {
  import opened Text
  import opened TripTypes

  /** The least `k` in `i..n` with `p(k)`: how `match` finds the leftmost
      position where a regular expression matches. */
  function FirstFrom(p: nat -> bool, i: nat, n: nat): (r: Option<nat>)
    requires i <= n
    ensures r.Some? ==> i <= r.value <= n && p(r.value)
    decreases n - i
  {
    if p(i) then Some(i) else if i == n then None else FirstFrom(p, i + 1, n)
  }

  /** No position before the one reported matches, and none is reported only when none matches. */
  lemma {:induction false} FirstFromLeftmost(p: nat -> bool, i: nat, n: nat)
    requires i <= n
    ensures FirstFrom(p, i, n).Some? ==> forall k | i <= k < FirstFrom(p, i, n).value :: !p(k)
    ensures FirstFrom(p, i, n).None? <==> forall k | i <= k <= n :: !p(k)
    decreases n - i
  {
    if !p(i) && i < n {
      FirstFromLeftmost(p, i + 1, n);
    }
  }

  /** Positions that cannot match can be skipped. */
  lemma {:induction false} FirstFromSkip(p: nat -> bool, i: nat, j: nat, n: nat)
    requires i <= j <= n
    requires forall k | i <= k < j :: !p(k)
    ensures FirstFrom(p, i, n) == FirstFrom(p, j, n)
    decreases j - i
  {
    if i < j {
      FirstFromSkip(p, i + 1, j, n);
    }
  }

  // ---------------------------------------------------------------------
  // Days: a run of digits, optional whitespace and the word "day"; the
  // digits' value, with 0 or no match meaning 3, capped at 10
  // ---------------------------------------------------------------------

  /** The day expression matches at `i`; its capture is the digit run from `i`. */
  predicate DaysAt(s: string, i: nat) {
    && i < |s| && IsDigit(s[i])
    && var j := i + DigitRun(s, i);
       var k := j + SpaceRun(s, j);
       k + 3 <= |s| && s[k] == 'd' && s[k + 1] == 'a' && s[k + 2] == 'y'
  }

  function DaysMatch(s: string): nat -> bool {
    (i: nat) => DaysAt(s, i)
  }

  /** The digit run that starts at `i`. */
  function Numeral(s: string, i: nat): (r: string)
    requires i <= |s|
    ensures AllDigits(r)
  {
    var r := s[i..i + DigitRun(s, i)];
    assert forall k | 0 <= k < |r| :: r[k] == s[i + k];
    r
  }

  /** The number of days of the trip: the first "<digits> day" numeral, where 0
      and a prompt without one both give 3 and anything above 10 gives 10. */
  function DayCount(lower: string): (n: nat)
    ensures 1 <= n <= 10
  {
    match FirstFrom(DaysMatch(lower), 0, |lower|)
    case None => 3
    case Some(i) =>
      DaysFor(DecimalValue(Numeral(lower, i)))
  }

  lemma DigitRunExact(s: string, i: nat, n: nat)
    requires i + n <= |s|
    requires forall k | i <= k < i + n :: IsDigit(s[k])
    requires i + n == |s| || !IsDigit(s[i + n])
    ensures DigitRun(s, i) == n
    decreases n
  {
    if n > 0 {
      DigitRunExact(s, i + 1, n - 1);
    }
  }

  lemma SpaceRunExact(s: string, i: nat, n: nat)
    requires i + n <= |s|
    requires forall k | i <= k < i + n :: IsSpace(s[k])
    requires i + n == |s| || !IsSpace(s[i + n])
    ensures SpaceRun(s, i) == n
    decreases n
  {
    if n > 0 {
      SpaceRunExact(s, i + 1, n - 1);
    }
  }

  /** The runs a numeral, spaces and "day" at `i` leave for the scanner. */
  lemma NumeralRuns(s: string, i: nat, num: string, gap: string)
    requires num != [] && AllDigits(num)
    requires forall k | 0 <= k < |gap| :: IsSpace(gap[k])
    requires i + |num| + |gap| + 3 <= |s|
    requires s[i..i + |num|] == num
    requires s[i + |num|..i + |num| + |gap|] == gap
    requires s[i + |num| + |gap|..i + |num| + |gap| + 3] == "day"
    ensures IsDigit(s[i]) && DigitRun(s, i) == |num| && SpaceRun(s, i + |num|) == |gap|
    ensures var d := i + |num| + |gap|; s[d] == 'd' && s[d + 1] == 'a' && s[d + 2] == 'y'
  {
    var j := i + |num|;
    var d := j + |gap|;
    forall k | i <= k < j ensures IsDigit(s[k]) {
      assert s[k] == s[i..j][k - i] == num[k - i];
    }
    forall k | j <= k < d ensures IsSpace(s[k]) {
      assert s[k] == s[j..d][k - j] == gap[k - j];
    }
    assert s[d] == 'd' && s[d + 1] == 'a' && s[d + 2] == 'y' by {
      assert s[d] == s[d..d + 3][0] && s[d + 1] == s[d..d + 3][1] && s[d + 2] == s[d..d + 3][2];
    }
    assert !IsDigit(s[j]) by {
      if j < d { assert IsSpace(s[j]); }
    }
    DigitRunExact(s, i, |num|);
    SpaceRunExact(s, j, |gap|);
  }

  /** A numeral, spaces and "day" at `i` make a match at `i` whose capture is the numeral. */
  lemma NumeralAt(s: string, i: nat, num: string, gap: string)
    requires num != [] && AllDigits(num)
    requires forall k | 0 <= k < |gap| :: IsSpace(gap[k])
    requires i + |num| + |gap| + 3 <= |s|
    requires s[i..i + |num|] == num
    requires s[i + |num|..i + |num| + |gap|] == gap
    requires s[i + |num| + |gap|..i + |num| + |gap| + 3] == "day"
    ensures DaysAt(s, i) && Numeral(s, i) == num
  {
    NumeralRuns(s, i, num, gap);
    assert Numeral(s, i) == s[i..i + |num|];
  }

  /** The day count for a numeral's value: 3 for 0, at most 10. */
  function DaysFor(v: nat): (n: nat)
    ensures 1 <= n <= 10
  {
    if v == 0 then 3 else if v < 10 then v else 10
  }

  /** The first match decides the count. */
  lemma DayCountAt(s: string, i: nat)
    requires i <= |s|
    requires forall k | 0 <= k < i :: !DaysAt(s, k)
    requires DaysAt(s, i)
    ensures DayCount(s) == DaysFor(DecimalValue(Numeral(s, i)))
  {
    FirstFromSkip(DaysMatch(s), 0, i, |s|);
  }

  /** A match that starts before the digit run at `p` ends before it. */
  lemma DaysEndBefore(s: string, p: nat, k: nat)
    requires p < |s| && IsDigit(s[p]) && (p == 0 || !IsDigit(s[p - 1]))
    requires k < p && DaysAt(s, k)
    ensures var j := k + DigitRun(s, k); j + SpaceRun(s, j) + 3 <= p
  {
    var j := k + DigitRun(s, k);
    assert j < p;
    var d := j + SpaceRun(s, j);
    assert d <= p;
  }

  /** A digit run that stops before `p` is also the digit run of the first `p` characters. */
  lemma {:induction false} DigitRunOfPrefix(s: string, p: nat, k: nat)
    requires k <= p <= |s| && k + DigitRun(s, k) < p
    ensures DigitRun(s[..p], k) == DigitRun(s, k)
    decreases |s| - k
  {
    assert s[..p][k] == s[k];
    if IsDigit(s[k]) {
      DigitRunOfPrefix(s, p, k + 1);
    }
  }

  lemma {:induction false} SpaceRunOfPrefix(s: string, p: nat, k: nat)
    requires k <= p <= |s| && k + SpaceRun(s, k) < p
    ensures SpaceRun(s[..p], k) == SpaceRun(s, k)
    decreases |s| - k
  {
    assert s[..p][k] == s[k];
    if IsSpace(s[k]) {
      SpaceRunOfPrefix(s, p, k + 1);
    }
  }

  /** A match that ends by `p` is a match of the first `p` characters. */
  lemma DaysAtOfPrefix(s: string, p: nat, k: nat)
    requires p <= |s| && DaysAt(s, k)
    requires var j := k + DigitRun(s, k); j + SpaceRun(s, j) + 3 <= p
    ensures DaysAt(s[..p], k)
  {
    var r := s[..p];
    var j := k + DigitRun(s, k);
    var d := j + SpaceRun(s, j);
    DigitRunOfPrefix(s, p, k);
    SpaceRunOfPrefix(s, p, j);
    assert r[k] == s[k];
    assert r[d] == s[d] && r[d + 1] == s[d + 1] && r[d + 2] == s[d + 2];
  }

  /** No match starts before the digit run at `p` when the text before it has
      no match of its own. */
  lemma NoDaysBefore(s: string, p: nat)
    requires p < |s| && IsDigit(s[p]) && (p == 0 || !IsDigit(s[p - 1]))
    requires forall k | 0 <= k < p :: !DaysAt(s[..p], k)
    ensures forall k | 0 <= k < p :: !DaysAt(s, k)
  {
    forall k | 0 <= k < p
      ensures !DaysAt(s, k)
    {
      if DaysAt(s, k) {
        DaysEndBefore(s, p, k);
        DaysAtOfPrefix(s, p, k);
      }
    }
  }

  /** "<pre><digits><spaces>day<rest>", where `pre` holds no match and does not
      end in a digit, asks for the value of the digits. */
  lemma {:induction false} DayCountOfDigits(pre: string, num: string, gap: string, rest: string)
    requires pre == [] || !IsDigit(pre[|pre| - 1])
    requires forall k | 0 <= k < |pre| :: !DaysAt(pre, k)
    requires num != [] && AllDigits(num)
    requires forall k | 0 <= k < |gap| :: IsSpace(gap[k])
    ensures DayCount(pre + num + gap + "day" + rest) == DaysFor(DecimalValue(num))
  {
    var s := pre + num + gap + "day" + rest;
    var i := |pre|;
    var j := i + |num|;
    assert s[..i] == pre;
    assert s[i] == num[0];
    if i > 0 {
      assert s[i - 1] == pre[i - 1];
    }
    NoDaysBefore(s, i);
    assert s[i..j] == num;
    assert s[j..j + |gap|] == gap;
    assert s[j + |gap|..j + |gap| + 3] == "day";
    NumeralAt(s, i, num, gap);
    DayCountAt(s, i);
  }

  /** A prompt "... <n> day..." asks for `n` days, capped at 10, and for 3 when
      `n` is 0, when nothing before the numeral matches and no digit precedes it:
      "2 friends, 5 days in goa" asks for 5. */
  lemma DayCountOfNumeral(pre: string, n: nat, gap: string, rest: string)
    requires pre == [] || !IsDigit(pre[|pre| - 1])
    requires forall k | 0 <= k < |pre| :: !DaysAt(pre, k)
    requires forall k | 0 <= k < |gap| :: IsSpace(gap[k])
    ensures DayCount(pre + NatToString(n) + gap + "day" + rest) == if n == 0 then 3 else if n < 10 then n else 10
  {
    DayCountOfDigits(pre, NatToString(n), gap, rest);
    DecimalValueOfNatToString(n);
  }

  /** A prompt in which the expression matches nowhere asks for the default of 3 days. */
  lemma DayCountWithoutMatch(lower: string)
    requires forall k | 0 <= k <= |lower| :: !DaysAt(lower, k)
    ensures DayCount(lower) == 3
  {
    FirstFromLeftmost(DaysMatch(lower), 0, |lower|);
  }

  /** A numeral joined to "day" by a hyphen is no match: "5-day trip to goa",
      with no other digit, asks for the default of 3 days. */
  lemma DayCountOfHyphenatedNumeral(pre: string, num: string, rest: string)
    requires forall k | 0 <= k < |pre| :: !IsDigit(pre[k])
    requires num != [] && AllDigits(num)
    requires forall k | 0 <= k < |rest| :: !IsDigit(rest[k])
    ensures DayCount(pre + num + "-" + rest) == 3
  {
    var s := pre + num + "-" + rest;
    var j := |pre| + |num|;
    assert s[j] == '-';
    forall k | 0 <= k <= |s|
      ensures !DaysAt(s, k)
    {
      if k < |pre| {
        assert s[k] == pre[k];
      } else if k < j {
        forall x | k <= x < j ensures IsDigit(s[x]) {
          assert s[x] == num[x - |pre|];
        }
        DigitRunExact(s, k, j - k);
        SpaceRunExact(s, j, 0);
      } else if j < k < |s| {
        assert s[k] == rest[k - j - 1];
      }
    }
    DayCountWithoutMatch(s);
  }

  // ---------------------------------------------------------------------
  // Budget: the word "under", optional whitespace, and a run of digits and
  // commas, which is the captured amount
  // ---------------------------------------------------------------------

  predicate IsAmountChar(c: char) { IsDigit(c) || c == ',' }

  /** The length of the run of `[\d,]` characters from `i`. */
  function AmountRun(s: string, i: nat): (n: nat)
    requires i <= |s|
    ensures i + n <= |s|
    ensures forall k | i <= k < i + n :: IsAmountChar(s[k])
    ensures i + n == |s| || !IsAmountChar(s[i + n])
    decreases |s| - i
  {
    if i < |s| && IsAmountChar(s[i]) then 1 + AmountRun(s, i + 1) else 0
  }

  /** Where the amount after an "under" at `i` starts. */
  function AmountStart(s: string, i: nat): (j: nat)
    requires i + 5 <= |s|
    ensures i + 5 <= j <= |s|
  {
    i + 5 + SpaceRun(s, i + 5)
  }

  /** The word "under", in lower case as the expression has no flag `i`, at `i`. */
  predicate UnderAt(s: string, i: nat) {
    i + 5 <= |s| && s[i] == 'u' && s[i + 1] == 'n' && s[i + 2] == 'd' && s[i + 3] == 'e' && s[i + 4] == 'r'
  }

  /** The budget expression matches at `i`. */
  predicate BudgetAt(s: string, i: nat) {
    UnderAt(s, i) && AmountRun(s, AmountStart(s, i)) > 0
  }

  function BudgetMatch(s: string): nat -> bool {
    (i: nat) => BudgetAt(s, i)
  }

  /** The total budget: "₹" followed by the digits and commas after the first
      matching "under", or "Flexible Budget" when the prompt names none. */
  function TotalBudget(lower: string): (r: string)
    ensures r == "Flexible Budget" || (|r| >= 2 && r[0] == '₹' && forall k | 1 <= k < |r| :: IsAmountChar(r[k]))
  {
    match BudgetAmount(lower)
    case None => "Flexible Budget"
    case Some(a) =>
      assert forall k | 1 <= k < |"₹" + a| :: ("₹" + a)[k] == a[k - 1];
      "₹" + a
  }

  /** The capture of a match at `i`: the digits and commas after "under" and its spaces. */
  function AmountAt(s: string, i: nat): (a: string)
    requires i + 5 <= |s|
    ensures forall k | 0 <= k < |a| :: IsAmountChar(a[k])
    ensures BudgetAt(s, i) ==> a != []
  {
    var j := AmountStart(s, i);
    var a := s[j..j + AmountRun(s, j)];
    assert forall k | 0 <= k < |a| :: a[k] == s[j + k];
    a
  }

  /** The capture of the leftmost match. */
  function BudgetAmount(lower: string): (r: Option<string>)
    ensures r.Some? ==> r.value != [] && forall k | 0 <= k < |r.value| :: IsAmountChar(r.value[k])
  {
    match FirstFrom(BudgetMatch(lower), 0, |lower|)
    case None => None
    case Some(i) => Some(AmountAt(lower, i))
  }

  /** The budget is flexible exactly when no "under <amount>" occurs. */
  lemma BudgetFlexibleIff(lower: string)
    ensures TotalBudget(lower) == "Flexible Budget" <==> forall k | 0 <= k <= |lower| :: !BudgetAt(lower, k)
  {
    var p := BudgetMatch(lower);
    FirstFromLeftmost(p, 0, |lower|);
    assert forall k: nat :: p(k) == BudgetAt(lower, k);
    if BudgetAmount(lower).Some? {
      assert TotalBudget(lower)[0] == '₹' != "Flexible Budget"[0];
    }
  }

  lemma AmountRunExact(s: string, i: nat, n: nat)
    requires i + n <= |s|
    requires forall k | i <= k < i + n :: IsAmountChar(s[k])
    requires i + n == |s| || !IsAmountChar(s[i + n])
    ensures AmountRun(s, i) == n
    decreases n
  {
    if n > 0 {
      AmountRunExact(s, i + 1, n - 1);
    }
  }

  /** The first match decides the budget. */
  lemma TotalBudgetAt(s: string, i: nat)
    requires i <= |s|
    requires forall k | 0 <= k < i :: !BudgetAt(s, k)
    requires BudgetAt(s, i)
    ensures BudgetAmount(s) == Some(AmountAt(s, i))
  {
    var p := BudgetMatch(s);
    FirstFromSkip(p, 0, i, |s|);
    assert p(i);
    assert FirstFrom(p, 0, |s|) == Some(i);
  }

  /** "under", spaces and an amount at `i`, with no match before, make the amount the capture. */
  lemma BudgetAmountAt(s: string, i: nat, gap: string, amount: string)
    requires i + 5 + |gap| + |amount| <= |s|
    requires forall k | 0 <= k < i :: !BudgetAt(s, k)
    requires forall k | 0 <= k < |gap| :: IsSpace(gap[k])
    requires amount != [] && forall k | 0 <= k < |amount| :: IsAmountChar(amount[k])
    requires s[i..i + 5] == "under"
    requires s[i + 5..i + 5 + |gap|] == gap
    requires s[i + 5 + |gap|..i + 5 + |gap| + |amount|] == amount
    requires i + 5 + |gap| + |amount| == |s| || !IsAmountChar(s[i + 5 + |gap| + |amount|])
    ensures BudgetAmount(s) == Some(amount)
  {
    var j := i + 5 + |gap|;
    assert UnderAt(s, i) by {
      assert s[i] == s[i..i + 5][0] && s[i + 1] == s[i..i + 5][1] && s[i + 2] == s[i..i + 5][2];
      assert s[i + 3] == s[i..i + 5][3] && s[i + 4] == s[i..i + 5][4];
    }
    assert AmountStart(s, i) == j by {
      forall k | i + 5 <= k < j ensures IsSpace(s[k]) {
        assert s[k] == s[i + 5..j][k - i - 5] == gap[k - i - 5];
      }
      assert s[j] == s[j..j + |amount|][0] == amount[0];
      SpaceRunExact(s, i + 5, |gap|);
    }
    assert AmountRun(s, j) == |amount| by {
      forall k | j <= k < j + |amount| ensures IsAmountChar(s[k]) {
        assert s[k] == s[j..j + |amount|][k - j] == amount[k - j];
      }
      AmountRunExact(s, j, |amount|);
    }
    assert AmountAt(s, i) == amount;
    TotalBudgetAt(s, i);
  }

  /** An "under" that starts before the "under" at `p` ends by `p`: the word
      overlaps no copy of itself. */
  lemma UnderBefore(s: string, p: nat, k: nat)
    requires UnderAt(s, p) && k < p && UnderAt(s, k)
    ensures StartsWithAt(s[..p], k, "under")
  {
    assert k + 5 <= p;
    assert s[..p][k..k + 5] == s[k..k + 5];
  }

  /** No match starts before the "under" at `p` when the text before it has no "under". */
  lemma NoBudgetBefore(s: string, p: nat)
    requires UnderAt(s, p) && !Contains(s[..p], "under")
    ensures forall k | 0 <= k < p :: !BudgetAt(s, k)
  {
    forall k | 0 <= k < p
      ensures !UnderAt(s, k)
    {
      if UnderAt(s, k) {
        UnderBefore(s, p, k);
      }
    }
  }

  /** "... under <amount> ..." with no "under" before it gives "₹<amount>":
      "3 days in munnar under 20,000" gives "₹20,000". */
  lemma TotalBudgetOfAmount(pre: string, gap: string, amount: string, post: string)
    requires !Contains(pre, "under")
    requires forall k | 0 <= k < |gap| :: IsSpace(gap[k])
    requires amount != [] && forall k | 0 <= k < |amount| :: IsAmountChar(amount[k])
    requires post == [] || !IsAmountChar(post[0])
    ensures TotalBudget(pre + "under" + gap + amount + post) == "₹" + amount
  {
    var s := pre + "under" + gap + amount + post;
    var i := |pre|;
    var j := i + 5 + |gap|;
    assert s[..i] == pre;
    assert s[i..i + 5] == "under";
    assert UnderAt(s, i) by {
      assert s[i] == s[i..i + 5][0] && s[i + 1] == s[i..i + 5][1] && s[i + 2] == s[i..i + 5][2];
      assert s[i + 3] == s[i..i + 5][3] && s[i + 4] == s[i..i + 5][4];
    }
    NoBudgetBefore(s, i);
    assert s[i + 5..j] == gap;
    assert s[j..j + |amount|] == amount;
    var s0 := pre + "under" + gap + amount;
    assert s == s0 + post && |s0| == j + |amount|;
    if post != [] {
      assert s[|s0|] == (s0 + post)[|s0|] == post[0];
    }
    BudgetAmountAt(s, i, gap, amount);
  }

  // ---------------------------------------------------------------------
  // Destination: the shortest run of letters and spaces after a whole-word
  // "in" or "to" and whitespace that is followed by whitespace and "under" or
  // "with", or by the end of the prompt; failing that, the first place name
  // of the gazetteer. A trailing "under ..." is then cut off, the text is
  // trimmed, and empty text gives the fallback.
  // ---------------------------------------------------------------------

  /** The class `[a-zA-Z\s]` under flag `i`, which adds no non-ASCII letter. */
  predicate IsPhraseChar(c: char) { IsLetter(c) || IsSpace(c) }

  /** The tail `(?:\s+under|\s+with|\s*$)` matches at `e`. */
  predicate PhraseEndAt(s: string, e: nat)
    requires e <= |s|
  {
    var n := SpaceRun(s, e);
    (n > 0 && (MatchesAt(s, e + n, "under") || MatchesAt(s, e + n, "with"))) || e + n == |s|
  }

  /** The lazy group, its last character at `e - 1`, grown one character at a
      time while it stays in the class, until the tail matches at its end. */
  function LazyEnd(s: string, e: nat): (r: Option<nat>)
    requires 1 <= e
    ensures r.Some? ==> e <= r.value <= |s| && PhraseEndAt(s, r.value)
    decreases |s| + 1 - e
  {
    if e > |s| || !IsPhraseChar(s[e - 1]) then None
    else if PhraseEndAt(s, e) then Some(e)
    else LazyEnd(s, e + 1)
  }

  /** The group ends at the first position the tail accepts, and every character up to it is in the class. */
  lemma {:induction false} LazyEndFirst(s: string, e: nat)
    requires 1 <= e
    ensures LazyEnd(s, e).Some? ==>
      && (forall k | e - 1 <= k < LazyEnd(s, e).value :: IsPhraseChar(s[k]))
      && (forall m | e <= m < LazyEnd(s, e).value :: !PhraseEndAt(s, m))
    decreases |s| + 1 - e
  {
    if e <= |s| && IsPhraseChar(s[e - 1]) && !PhraseEndAt(s, e) {
      LazyEndFirst(s, e + 1);
    }
  }

  /** The keyword's `\s+` keeps `w` of its spaces, then gives them back one at
      a time; the group starts right after the spaces kept. */
  function GroupFrom(s: string, q: nat, w: nat): (r: Option<(nat, nat)>)
    requires q + w <= |s|
    ensures r.Some? ==> q < r.value.0 <= q + w && r.value.0 < r.value.1 <= |s| && PhraseEndAt(s, r.value.1)
    decreases w
  {
    if w == 0 then None
    else match LazyEnd(s, q + w + 1)
      case Some(e) => Some((q + w, e))
      case None => GroupFrom(s, q, w - 1)
  }

  lemma {:induction false} GroupFromFirst(s: string, q: nat, w: nat)
    requires q + w <= |s|
    ensures GroupFrom(s, q, w).Some? ==>
      var (g, e) := GroupFrom(s, q, w).value;
      && (forall k | g <= k < e :: IsPhraseChar(s[k]))
      && (forall m | g < m < e :: !PhraseEndAt(s, m))
    decreases w
  {
    if w > 0 {
      var l := LazyEnd(s, q + w + 1);
      if l.Some? {
        LazyEndFirst(s, q + w + 1);
        assert GroupFrom(s, q, w) == Some((q + w, l.value));
      } else {
        assert GroupFrom(s, q, w) == GroupFrom(s, q, w - 1);
        GroupFromFirst(s, q, w - 1);
      }
    }
  }

  /** `\b(?:in|to)` at `p`. */
  predicate KeywordAt(s: string, p: nat)
    requires p <= |s|
  {
    IsBoundary(s, p) && (MatchesAt(s, p, "in") || MatchesAt(s, p, "to"))
  }

  /** The match of the destination expression that starts at `p`, as the bounds of its capture. */
  function PhraseAt(s: string, p: nat): (r: Option<(nat, nat)>)
    requires p <= |s|
    ensures r.Some? ==> p + 2 < r.value.0 < r.value.1 <= |s|
  {
    if KeywordAt(s, p) then GroupFrom(s, p + 2, SpaceRun(s, p + 2)) else None
  }

  function PhraseMatch(s: string): nat -> bool {
    (p: nat) => p <= |s| && PhraseAt(s, p).Some?
  }

  /** The bounds of the capture of the leftmost match of the destination expression. */
  function FirstPhrase(s: string): (r: Option<(nat, nat)>)
    ensures r.Some? ==> 0 < r.value.0 < r.value.1 <= |s|
  {
    match FirstFrom(PhraseMatch(s), 0, |s|)
    case None => None
    case Some(p) => PhraseAt(s, p)
  }

  /** The capture is all letters and spaces, and the tail does not match inside it. */
  lemma FirstPhraseLazy(s: string)
    ensures FirstPhrase(s).Some? ==>
      var (g, e) := FirstPhrase(s).value;
      && (forall k | g <= k < e :: IsPhraseChar(s[k]))
      && (forall m | g < m < e :: !PhraseEndAt(s, m))
  {
    var f := FirstFrom(PhraseMatch(s), 0, |s|);
    if f.Some? && KeywordAt(s, f.value) {
      GroupFromFirst(s, f.value + 2, SpaceRun(s, f.value + 2));
    }
  }

  /** The place names of the fallback expression, in the order of its alternatives. */
  const PlaceNames: seq<string> := [
    "goa", "manali", "rishikesh", "pondicherry", "pondi", "kerala", "shimla", "munnar",
    "leh", "udaipur", "jaipur", "darjeeling", "mumbai", "delhi", "bangalore", "ooty",
    "gokarna", "andaman", "varanasi", "haridwar", "mussoorie", "kasol", "spiti",
    "mahabalipuram", "kovalam", "varkala"]

  /** The first alternative, from the `j`-th on, that matches at `p`. */
  function PlaceNameAt(s: string, p: nat, j: nat): (r: Option<nat>)
    requires j <= |PlaceNames|
    ensures r.Some? ==> j <= r.value < |PlaceNames| && MatchesAt(s, p, PlaceNames[r.value])
    decreases |PlaceNames| - j
  {
    if j == |PlaceNames| then None
    else if MatchesAt(s, p, PlaceNames[j]) then Some(j)
    else PlaceNameAt(s, p, j + 1)
  }

  function PlaceNameMatch(s: string): nat -> bool {
    (p: nat) => PlaceNameAt(s, p, 0).Some?
  }

  /** The text a place-name match at `p` covers. */
  function PlaceNameText(s: string, p: nat): (w: string)
    requires PlaceNameAt(s, p, 0).Some?
    ensures Contains(s, w)
  {
    var n := |PlaceNames[PlaceNameAt(s, p, 0).value]|;
    ContainsSlice(s, p, p + n);
    s[p..p + n]
  }

  /** The text of the leftmost match of the place-name expression. */
  function FirstPlaceName(s: string): (r: Option<string>)
    ensures r.Some? ==> Contains(s, r.value)
  {
    match FirstFrom(PlaceNameMatch(s), 0, |s|)
    case None => None
    case Some(p) => Some(PlaceNameText(s, p))
  }

  /** The trailing-"under" expression matches at `p`: a run of spaces, "under" in any case,
      and no line terminator from there to the end. */
  predicate UnderTailAt(x: string, p: nat) {
    && p <= |x|
    && var n := SpaceRun(x, p);
    && n > 0 && MatchesAt(x, p + n, "under")
    && forall k | p + n + 5 <= k < |x| :: !IsLineTerminator(x[k])
  }

  function UnderTailMatch(x: string): nat -> bool {
    (p: nat) => UnderTailAt(x, p)
  }

  /** Removing the trailing "under ...": `x` is cut at the leftmost match. */
  function StripUnder(x: string): (r: string)
    ensures |r| <= |x| && r == x[..|r|]
    ensures r == x <==> FirstFrom(UnderTailMatch(x), 0, |x|).None?
  {
    match FirstFrom(UnderTailMatch(x), 0, |x|)
    case None => x
    case Some(p) => x[..p]
  }

  /** The text the destination is taken from: the trimmed capture of the
      phrase expression, else the matched place name. */
  function DestinationText(lower: string): Option<string> {
    match FirstPhrase(lower)
    case Some(b) => Some(Trim(lower[b.0..b.1]))
    case None => FirstPlaceName(lower)
  }

  const Fallback: string := "Your Destination"

  /** The destination named by the lower-cased prompt. */
  function Destination(lower: string): (r: string)
    ensures r != []
    ensures r == Fallback || (!IsSpace(r[0]) && !IsSpace(r[|r| - 1]))
  {
    match DestinationText(lower)
    case None => Fallback
    case Some(x) =>
      var y := Trim(StripUnder(x));
      if y == [] then Fallback else y
  }

  lemma TrimContained(s: string)
    ensures Contains(s, Trim(s))
  {
    var r := Trim(s);
    var a :| 0 <= a <= |s| && TrimmedAt(s, a, r);
    assert StartsWithAt(s, a, r);
  }

  /** The destination is the fallback or a piece of the lower-cased prompt. */
  lemma DestinationIsPromptText(lower: string)
    ensures Destination(lower) == Fallback || Contains(lower, Destination(lower))
  {
    match DestinationText(lower)
    case None =>
    case Some(x) =>
      assert Contains(lower, x) by {
        match FirstPhrase(lower)
        case Some(b) =>
          ContainsSlice(lower, b.0, b.1);
          TrimContained(lower[b.0..b.1]);
          ContainsTransitive(lower, lower[b.0..b.1], x);
        case None =>
      }
      var y := StripUnder(x);
      ContainsSlice(x, 0, |y|);
      ContainsTransitive(lower, x, y);
      TrimContained(y);
      ContainsTransitive(lower, y, Trim(y));
  }

  predicate IsLowerWord(w: string) {
    forall k | 0 <= k < |w| :: 'a' <= w[k] <= 'z'
  }

  /** Every place name is written in lower-case ASCII letters. */
  lemma PlaceNamesAreLetters()
    ensures forall j | 0 <= j < |PlaceNames| :: IsLowerWord(PlaceNames[j])
  {
  }

  /** A `\s+under` tail inside the trimmed capture is a phrase end of the whole text. */
  lemma UnderTailIsPhraseEnd(s: string, g: nat, e: nat, a: nat, x: string, p: nat)
    requires g < e <= |s|
    requires TrimmedAt(s[g..e], a, x)
    requires x == [] || !IsSpace(x[0])
    requires p <= |x| && UnderTailAt(x, p)
    ensures g < g + a + p < e && PhraseEndAt(s, g + a + p)
  {
    var n := SpaceRun(x, p);
    assert p >= 1;
    var o := g + a;
    var c := s[g..e];
    forall k | o <= k < o + |x|
      ensures s[k] == x[k - o]
    {
      assert x[k - o] == c[a..a + |x|][k - o] == c[k - g];
    }
    var m := o + p;
    assert !IsSpace(x[p + n]) by {
      assert LowerChar(x[p + n + 0]) == "under"[0];
    }
    assert s[m + n] == x[p + n];
    forall k | m <= k < m + n
      ensures IsSpace(s[k])
    {
      assert s[k] == x[k - o];
    }
    SpaceRunExact(s, m, n);
    forall k | 0 <= k < 5
      ensures LowerChar(s[m + n + k]) == "under"[k]
    {
      assert s[m + n + k] == x[p + n + k];
    }
    assert MatchesAt(s, m + n, "under");
  }

  /** A capture whose inside the tail never accepts holds no `\s+under` once trimmed. */
  lemma NoUnderTailInCapture(s: string, g: nat, e: nat, a: nat, x: string, p: nat)
    requires g < e <= |s|
    requires forall m | g < m < e :: !PhraseEndAt(s, m)
    requires TrimmedAt(s[g..e], a, x)
    requires x == [] || !IsSpace(x[0])
    requires p <= |x|
    ensures !UnderTailAt(x, p)
  {
    if UnderTailAt(x, p) {
      UnderTailIsPhraseEnd(s, g, e, a, x, p);
    }
  }

  /** Text that matches a word of lower-case letters, ignoring case, holds no
      space, so no `\s+under` either. */
  lemma NoUnderTailInWord(s: string, at: nat, w: string, x: string)
    requires MatchesAt(s, at, w) && IsLowerWord(w)
    requires x == s[at..at + |w|]
    ensures StripUnder(x) == x
  {
    forall k | 0 <= k < |x|
      ensures !IsSpace(x[k])
    {
      assert LowerChar(s[at + k]) == w[k];
    }
    forall q | 0 <= q <= |x|
      ensures !UnderTailMatch(x)(q)
    {
      assert SpaceRun(x, q) == 0;
    }
    FirstFromLeftmost(UnderTailMatch(x), 0, |x|);
  }

  lemma NoUnderTailInPlaceName(s: string)
    requires FirstPlaceName(s).Some?
    ensures StripUnder(FirstPlaceName(s).value) == FirstPlaceName(s).value
  {
    var at := FirstFrom(PlaceNameMatch(s), 0, |s|).value;
    var w := PlaceNames[PlaceNameAt(s, at, 0).value];
    assert IsLowerWord(w) by {
      PlaceNamesAreLetters();
    }
    NoUnderTailInWord(s, at, w, FirstPlaceName(s).value);
  }

  /** Cutting off a trailing "under ..." never changes the text the destination is
      taken from: the lazy capture stops before the first `\s+under`, and a
      place name has no space in it. */
  lemma StripUnderKeepsDestinationText(lower: string)
    ensures DestinationText(lower).Some? ==> StripUnder(DestinationText(lower).value) == DestinationText(lower).value
  {
    if DestinationText(lower).Some? {
      var x := DestinationText(lower).value;
      FirstFromLeftmost(UnderTailMatch(x), 0, |x|);
      match FirstPhrase(lower)
      case Some(b) =>
        FirstPhraseLazy(lower);
        var c := lower[b.0..b.1];
        var a :| 0 <= a <= |c| && TrimmedAt(c, a, x);
        forall q | 0 <= q <= |x|
          ensures !UnderTailAt(x, q)
        {
          NoUnderTailInCapture(lower, b.0, b.1, a, x, q);
        }
      case None =>
        NoUnderTailInPlaceName(lower);
    }
  }
}
