/**
 Properties of the pivot-point model: the level table's fixed layout, the
 identities its formula labels promise, the ordering of the support and
 resistance ladder, the inverse from a table back to its quote, and what the
 analysis step computes for the inputs the page accepts.
 */
module PivotProperties {
  import opened PivotApp

  /** Keys and formula labels are the same for every quote; only the prices change. */
  lemma LayoutIndependentOfQuote(h: real, l: real, c: real, h': real, l': real, c': real)
    ensures var t, t' := CalcLevels(h, l, c), CalcLevels(h', l', c');
      t.Keys == t'.Keys && forall k | k in t :: t[k].formula == t'[k].formula
  {
    var t, t' := CalcLevels(h, l, c), CalcLevels(h', l', c');
    assert forall k :: k in t && k in t' by {
      forall k: LevelKey ensures k in t && k in t' {
        assert Labelled(t, k) && Labelled(t', k);
      }
    }
  }

  /**
   Each key's price satisfies the formula `FormulaLabel` shows beside it, read
   over H, L, C and the other prices of the same table. The labels R3
   "R1 + (H - L)", UB "(CP - LB) + CP" and S3 "S1 - (H - L)" name other levels,
   which the source does not compute them from.
   */
  lemma PricesFollowFormulaLabels(h: real, l: real, c: real)
    ensures var t := CalcLevels(h, l, c);
      && Price(t, R3) == Price(t, R1) + (h - l)
      && Price(t, R2) == Price(t, CP) + (h - l)
      && Price(t, R1) == 2.0 * Price(t, CP) - l
      && Price(t, UB) == (Price(t, CP) - Price(t, LB)) + Price(t, CP)
      && Price(t, CP) == (h + l + c) / 3.0
      && Price(t, LB) == (h + l) / 2.0
      && Price(t, S1) == 2.0 * Price(t, CP) - h
      && Price(t, S2) == Price(t, CP) - (h - l)
      && Price(t, S3) == Price(t, S1) - (h - l)
  {
  }

  /**
   The CPR band is symmetric about the pivot: UB + LB == 2 CP, so CP lies
   between the two boundaries, and UB is the upper one exactly when the close
   is at or above the middle of the day's range.
   */
  lemma BoundariesSymmetric(h: real, l: real, c: real)
    ensures var t := CalcLevels(h, l, c);
      && Price(t, UB) + Price(t, LB) == 2.0 * Price(t, CP)
      && Price(t, UB) - Price(t, CP) == Price(t, CP) - Price(t, LB)
      && (Price(t, LB) <= Price(t, CP) <= Price(t, UB) || Price(t, UB) <= Price(t, CP) <= Price(t, LB))
      && (Price(t, UB) >= Price(t, LB) <==> 2.0 * c >= h + l)
  {
  }

  /**
   The ladder R3, R2, R1, CP, S1, S2, S3 advances in two alternating gaps:
   CP - L and H - CP. R2 and S2 are mirror images about CP.
   */
  lemma LadderGaps(h: real, l: real, c: real)
    ensures var t := CalcLevels(h, l, c);
      && Price(t, R3) - Price(t, R2) == Price(t, CP) - l
      && Price(t, R2) - Price(t, R1) == h - Price(t, CP)
      && Price(t, R1) - Price(t, CP) == Price(t, CP) - l
      && Price(t, CP) - Price(t, S1) == h - Price(t, CP)
      && Price(t, S1) - Price(t, S2) == Price(t, CP) - l
      && Price(t, S2) - Price(t, S3) == h - Price(t, CP)
      && Price(t, R2) + Price(t, S2) == 2.0 * Price(t, CP)
  {
  }

  /** S3 <= S2 <= S1 <= CP <= R1 <= R2 <= R3, read from a level table. */
  predicate LadderOrdered(t: LevelTable)
    requires forall k: LevelKey :: k in t
  {
    && Price(t, S3) <= Price(t, S2) <= Price(t, S1) <= Price(t, CP)
    && Price(t, CP) <= Price(t, R1) <= Price(t, R2) <= Price(t, R3)
  }

  /** The ladder is in order exactly when the pivot lies within the day's range. */
  lemma LadderOrderedIff(h: real, l: real, c: real)
    ensures forall k: LevelKey :: k in CalcLevels(h, l, c)
    ensures LadderOrdered(CalcLevels(h, l, c)) <==> l <= (h + l + c) / 3.0 <= h
  {
    var t := CalcLevels(h, l, c);
    forall k: LevelKey ensures k in t {
      assert Labelled(t, k);
    }
  }

  /**
   For a consistent quote (L <= C <= H) the ladder is in order and the CPR
   band lies between S1 and R1, so the table's prices descend from R3 to S3
   except, possibly, between UB and LB.
   */
  lemma ConsistentQuoteOrdered(h: real, l: real, c: real)
    requires l <= c <= h
    ensures forall k: LevelKey :: k in CalcLevels(h, l, c)
    ensures var t := CalcLevels(h, l, c);
      && LadderOrdered(t)
      && Price(t, S1) <= Price(t, LB) <= Price(t, R1)
      && Price(t, S1) <= Price(t, UB) <= Price(t, R1)
  {
    LadderOrderedIff(h, l, c);
  }

  /** A flat day (H == L == C == x) puts every level at x. */
  lemma FlatDay(x: real)
    ensures var t := CalcLevels(x, x, x);
      forall k: LevelKey :: k in t && Price(t, k) == x
  {
    var t := CalcLevels(x, x, x);
    forall k: LevelKey ensures k in t && Price(t, k) == x {
      match k
      case R3 => case R2 => case R1 => case UB => case CP => case LB => case S1 => case S2 => case S3 =>
    }
  }

  /** On a flat day with a non-zero price the page reports both CPR widths as 0. */
  lemma FlatDayWidths(x: real)
    requires x != 0.0
    ensures Analyse(x, x, x) == Report(CalcLevels(x, x, x), 0.0, 0.0)
  {
    assert CprWidth(x, x, x) == 0.0;
  }

  /**
   The worked example H = 200, L = 100, C = 150. It also shows that R1 + (H - L)
   is R3 (300), not R2 (250).
   */
  lemma ExampleQuote()
    ensures var t := CalcLevels(200.0, 100.0, 150.0);
      && Price(t, R3) == 300.0 && Price(t, R2) == 250.0 && Price(t, R1) == 200.0
      && Price(t, UB) == 150.0 && Price(t, CP) == 150.0 && Price(t, LB) == 150.0
      && Price(t, S1) == 100.0 && Price(t, S2) == 50.0 && Price(t, S3) == 0.0
      && Price(t, R1) + (200.0 - 100.0) != Price(t, R2)
    ensures Analyse(200.0, 100.0, 150.0) == Report(CalcLevels(200.0, 100.0, 150.0), 0.0, 0.0)
  {
    assert CprWidth(200.0, 100.0, 150.0) == 0.0;
  }

  /** Worked CPR examples: a collapsed band, and a band 10% either side of CP. */
  lemma ExampleCprRanges()
    ensures CalcCprRange(150.0, 150.0, 150.0) == (0.0, 0.0)
    ensures CalcCprRange(100.0, 90.0, 110.0) == (10.0, 10.0)
  {
  }

  /**
   The two CPR widths agree exactly when the boundaries sit symmetrically
   about the pivot; for a positive pivot each width is non-negative exactly
   when its boundary lies on the expected side of CP.
   */
  lemma CprWidthsEqualIff(pp: real, lb: real, ub: real)
    requires pp != 0.0
    ensures var r := CalcCprRange(pp, lb, ub);
      && (r.0 == r.1 <==> ub - pp == pp - lb)
      && (pp > 0.0 ==> (r.0 >= 0.0 <==> ub >= pp) && (r.1 >= 0.0 <==> pp >= lb))
  {
    var r := CalcCprRange(pp, lb, ub);
    if r.0 == r.1 {
      assert 100.0 * (ub - pp) == 100.0 * (pp - lb);
    }
    if pp > 0.0 {
      assert r.0 >= 0.0 <==> r.0 * pp >= 0.0;
      assert r.1 >= 0.0 <==> r.1 * pp >= 0.0;
    }
  }

  /** One day's High, Low and Close. */
  datatype Quote = Quote(high: real, low: real, close: real)

  /**
   Reading a quote back from a level table: L + H from LB, H - L from R2 - CP,
   and C from CP and LB.
   */
  function RecoverQuote(t: LevelTable): Option<Quote>
  {
    if CP in t && LB in t && R2 in t then
      var cp, lb, r2 := Price(t, CP), Price(t, LB), Price(t, R2);
      var half := (r2 - cp) / 2.0;
      Some(Quote(lb + half, lb - half, 3.0 * cp - 2.0 * lb))
    else
      None
  }

  /** The level table determines its quote: RecoverQuote inverts CalcLevels. */
  lemma RecoverQuoteInverts(h: real, l: real, c: real)
    ensures RecoverQuote(CalcLevels(h, l, c)) == Some(Quote(h, l, c))
  {
    var t := CalcLevels(h, l, c);
    var cp, lb := (h + l + c) / 3.0, (h + l) / 2.0;
    assert Price(t, CP) == cp && Price(t, LB) == lb && Price(t, R2) == cp + (h - l);
    assert (cp + (h - l) - cp) / 2.0 == (h - l) / 2.0;
  }

  /** Two different quotes never produce the same level table. */
  lemma CalcLevelsInjective(h: real, l: real, c: real, h': real, l': real, c': real)
    requires CalcLevels(h, l, c) == CalcLevels(h', l', c')
    ensures h == h' && l == l' && c == c'
  {
    RecoverQuoteInverts(h, l, c);
    RecoverQuoteInverts(h', l', c');
  }

  /** A quotient whose numerator lies strictly between lo and hi times a positive divisor lies between lo and hi. */
  lemma QuotientBetween(n: real, s: real, lo: real, hi: real)
    requires s > 0.0 && lo * s < n < hi * s
    ensures lo < n / s < hi
  {
  }

  /**
   The closed-form CPR width on positive inputs lies strictly between -50%
   and 100%; when L <= C <= H it lies strictly between -50% and 50%. It is
   non-negative exactly when the close is in the upper half of the range.
   */
  lemma CprWidthBounds(h: real, l: real, c: real)
    requires h > 0.0 && l > 0.0 && c > 0.0
    ensures -50.0 < CprWidth(h, l, c) < 100.0
    ensures l <= c <= h ==> -50.0 < CprWidth(h, l, c) < 50.0
    ensures CprWidth(h, l, c) >= 0.0 <==> 2.0 * c >= h + l
  {
    var s, n := h + l + c, 50.0 * (2.0 * c - h - l);
    QuotientBetween(n, s, -50.0, 100.0);
    if l <= c <= h {
      QuotientBetween(n, s, -50.0, 50.0);
    }
    if n >= 0.0 {
      QuotientBetween(n, s, -1.0, 100.0);
    } else {
      QuotientBetween(n, s, -50.0, 0.0);
    }
  }

  /**
   The page's manual inputs are never negative. On them the analysis never
   divides by zero: it prompts when an input is 0 and reports otherwise, with
   CPR widths strictly between -50% and 100%.
   */
  lemma ManualInputsSafe(h: real, l: real, c: real)
    requires h >= 0.0 && l >= 0.0 && c >= 0.0
    ensures var r := Analyse(h, l, c);
      && !r.ZeroDivision?
      && (r.Report? <==> h > 0.0 && l > 0.0 && c > 0.0)
      && (r.Report? ==> -50.0 < r.upperPct < 100.0)
  {
    if h > 0.0 && l > 0.0 && c > 0.0 {
      CprWidthBounds(h, l, c);
    }
  }

  /**
   For a consistent positive quote (0 < L <= C <= H) both CPR widths are
   strictly between -50% and 50%, and they are non-negative exactly when the
   close is in the upper half of the day's range.
   */
  lemma ConsistentQuoteWidths(h: real, l: real, c: real)
    requires 0.0 < l <= c <= h
    ensures var r := Analyse(h, l, c);
      && r.Report?
      && -50.0 < r.upperPct < 50.0
      && (r.upperPct >= 0.0 <==> 2.0 * c >= h + l)
  {
    CprWidthBounds(h, l, c);
  }
}
