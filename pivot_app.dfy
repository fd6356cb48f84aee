/**
 Classical (floor-trader) pivot-point arithmetic of the pivot-point app:
 the nine support/resistance levels computed from one day's High/Low/Close,
 the Central Pivot Range (CPR) widths, and the guard that decides whether
 the analysis is computed at all.

 Prices are exact `real`s; the source works on binary floating point.
 */
module PivotApp {

  datatype Option<+T> = None | Some(value: T)

  /** The nine keys of the level table. */
  datatype LevelKey = R3 | R2 | R1 | UB | CP | LB | S1 | S2 | S3

  /** The order in which the table lists its keys (the dictionary's insertion order). */
  const Keys: seq<LevelKey> := [R3, R2, R1, UB, CP, LB, S1, S2, S3]

  /** The text under which the table shows each key. */
  function KeyName(k: LevelKey): string {
    match k
    case R3 => "Resistance (R3)"
    case R2 => "Resistance (R2)"
    case R1 => "Resistance (R1)"
    case UB => "Upper Boundary"
    case CP => "Central Pivot (CP)"
    case LB => "Lower Boundary"
    case S1 => "Support (S1)"
    case S2 => "Support (S2)"
    case S3 => "Support (S3)"
  }

  /** The formula the table shows beside each key. */
  function FormulaLabel(k: LevelKey): string {
    match k
    case R3 => "R1 + (H - L)"
    case R2 => "CP + (H - L)"
    case R1 => "(2 x CP) - L"
    case UB => "(CP - LB) + CP"
    case CP => "(H + L + C) / 3"
    case LB => "(H + L)/2"
    case S1 => "(2 x CP) - H"
    case S2 => "CP - (H - L)"
    case S3 => "S1 - (H - L)"
  }

  /** The nine keys are shown under nine different names, so they are nine distinct dictionary keys. */
  lemma KeyNamesDistinct(k: LevelKey, k': LevelKey)
    ensures KeyName(k) == KeyName(k') <==> k == k'
  {
  }

  /** `Keys` lists every key exactly once. */
  lemma KeysListEachKeyOnce()
    ensures forall k: LevelKey :: k in Keys
    ensures forall i, j | 0 <= i < j < |Keys| :: Keys[i] != Keys[j]
  {
    forall k: LevelKey ensures k in Keys {
      match k
      case R3 => assert Keys[0] == k;
      case R2 => assert Keys[1] == k;
      case R1 => assert Keys[2] == k;
      case UB => assert Keys[3] == k;
      case CP => assert Keys[4] == k;
      case LB => assert Keys[5] == k;
      case S1 => assert Keys[6] == k;
      case S2 => assert Keys[7] == k;
      case S3 => assert Keys[8] == k;
    }
  }

  /** One value of the level table: the human-readable formula and the price. */
  datatype Level = Level(formula: string, price: real)

  /** The dictionary `calc_levels` returns, from key to (formula, price). */
  type LevelTable = map<LevelKey, Level>

  /** The table holds `k`, under the formula label fixed for `k`. */
  predicate Labelled(t: LevelTable, k: LevelKey) {
    k in t && t[k].formula == FormulaLabel(k)
  }

  /** A table that holds each of the nine keys under its label holds every key. */
  lemma EveryKeyLabelled(t: LevelTable)
    requires Labelled(t, R3) && Labelled(t, R2) && Labelled(t, R1) && Labelled(t, UB) && Labelled(t, CP)
    requires Labelled(t, LB) && Labelled(t, S1) && Labelled(t, S2) && Labelled(t, S3)
    ensures forall k: LevelKey :: Labelled(t, k)
  {
    forall k: LevelKey ensures Labelled(t, k) {
      match k
      case R3 => case R2 => case R1 => case UB => case CP => case LB => case S1 => case S2 => case S3 =>
    }
  }

  /** The price stored under `key`: `levels[key][1]` in the source. */
  function Price(t: LevelTable, key: LevelKey): real
    requires key in t
  {
    t[key].price
  }

  /**
   The level table for one day's High `h`, Low `l` and Close `c`: every one
   of the nine keys is present, each with its fixed formula label.
   */
  function CalcLevels(h: real, l: real, c: real): (t: LevelTable)
    ensures forall k: LevelKey :: Labelled(t, k)
  {
    var pp := (h + l + c) / 3.0;
    var lb := (h + l) / 2.0;
    var ub := 2.0 * pp - lb;
    var hl := h - l;
    var t := map[
      R3 := Level(FormulaLabel(R3), 2.0 * pp - l + hl),
      R2 := Level(FormulaLabel(R2), pp + hl),
      R1 := Level(FormulaLabel(R1), 2.0 * pp - l),
      UB := Level(FormulaLabel(UB), ub),
      CP := Level(FormulaLabel(CP), pp),
      LB := Level(FormulaLabel(LB), lb),
      S1 := Level(FormulaLabel(S1), 2.0 * pp - h),
      S2 := Level(FormulaLabel(S2), pp - hl),
      S3 := Level(FormulaLabel(S3), 2.0 * pp - h - hl)
    ];
    EveryKeyLabelled(t);
    t
  }

  /** The level table holds exactly the keys `Keys` lists. */
  lemma CalcLevelsHoldsKeys(h: real, l: real, c: real)
    ensures CalcLevels(h, l, c).Keys == set k | k in Keys
  {
    KeysListEachKeyOnce();
  }

  /** The level table has one entry per listed key: nine in all. */
  lemma CalcLevelsSize(h: real, l: real, c: real)
    ensures |CalcLevels(h, l, c)| == |Keys| == 9
  {
  }

  /**
   The CPR widths, in percent of the central pivot `pp`: from CP up to the
   upper boundary `ub`, and from the lower boundary `lb` up to CP. The source
   divides by `pp` without a check.
   */
  function CalcCprRange(pp: real, lb: real, ub: real): (r: (real, real))
    requires pp != 0.0
    ensures r.0 * pp == 100.0 * (ub - pp)
    ensures r.1 * pp == 100.0 * (pp - lb)
  {
    ((ub - pp) / pp * 100.0, (pp - lb) / pp * 100.0)
  }

  /** What one run of the page shows below the inputs. */
  datatype Outcome =
    | Prompt                                                     // the "enter valid values" message
    | Report(levels: LevelTable, upperPct: real, lowerPct: real) // level table and CPR widths
    | ZeroDivision(levels: LevelTable)                           // level table shown, then the division by CP has no value

  /** The CPR width of a quote, in percent, written directly in terms of High, Low and Close. */
  function CprWidth(h: real, l: real, c: real): real
    requires h + l + c != 0.0
  {
    50.0 * (2.0 * c - h - l) / (h + l + c)
  }

  /** On the pivot and boundaries of a quote, both CPR widths equal the closed-form width. */
  lemma CprRangeClosedForm(h: real, l: real, c: real, pp: real, lb: real, ub: real)
    requires h + l + c != 0.0
    requires pp == (h + l + c) / 3.0 && lb == (h + l) / 2.0 && ub == 2.0 * pp - lb
    ensures pp != 0.0 && CalcCprRange(pp, lb, ub) == (CprWidth(h, l, c), CprWidth(h, l, c))
  {
    var s := h + l + c;
    var d := 2.0 * c - h - l;
    assert ub - pp == d / 6.0 == pp - lb;
    calc {
      d / 6.0 / pp * 100.0;
      d / 6.0 / (s / 3.0) * 100.0;
      50.0 * d / s;
    }
  }

  /**
   The analysis step of the page: it runs only when High, Low and Close are
   all non-zero, builds the level table, reads CP, LB and UB back out of it
   by key and computes the CPR widths from them.
   */
  function Analyse(h: real, l: real, c: real): (r: Outcome)
    ensures r.Prompt? <==> h == 0.0 || l == 0.0 || c == 0.0
    ensures r.ZeroDivision? <==> h != 0.0 && l != 0.0 && c != 0.0 && h + l + c == 0.0
    ensures !r.Prompt? ==> r.levels == CalcLevels(h, l, c)
    ensures r.Report? ==> r.upperPct == r.lowerPct == CprWidth(h, l, c)
  {
    if h != 0.0 && l != 0.0 && c != 0.0 then
      var levels := CalcLevels(h, l, c);
      var pp := Price(levels, CP);
      var lb := Price(levels, LB);
      var ub := Price(levels, UB);
      if pp == 0.0 then ZeroDivision(levels)
      else
        CprRangeClosedForm(h, l, c, pp, lb, ub);
        var (pUb, pLb) := CalcCprRange(pp, lb, ub);
        Report(levels, pUb, pLb)
    else
      Prompt
  }
}
