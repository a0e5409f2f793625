/** The weekly trading signal (scripts/weekly_signal.py, get_signal_and_advice):
    the bull and bear models' probabilities become one of four signals, a
    suggested position size around a 50% base, and a list of risk notes.
    Probabilities are exact reals; Python's `int()` on a float is written
    out as truncation toward zero. */
module WeeklySignal {
  import opened Strings

  datatype SignalCode = Bull | Bear | Neutral | Volatile

  /** The returned dictionary, one field per key. */
  datatype Advice = Advice(
    signal: string,
    signalCode: SignalCode,
    bullProb: real,
    bearProb: real,
    bullStrength: real,
    bearStrength: real,
    positionPct: int,
    positionAdvice: string,
    action: string,
    riskLevel: string,
    riskNotes: seq<string>)

  const BasePosition: int := 50
  /** Probabilities mapped to strength 0; strength 1 is reached 0.30 above. */
  const BullFloor: real := 0.40
  const BearFloor: real := 0.35

  const BearRiskNote := "⚠️ 大跌概率较高，务必设置止损"
  const MixedNote := "⚠️ 涨跌概率均较高，市场方向不明，控制仓位"
  const WeakNote := "ℹ️ 两个方向的信号均较弱，模型信心不足"
  const KappaNote := "📊 模型 Kappa≈0.05，预测力有限，仅作辅助参考"

  /** The four-way signal from the two threshold tests; both on is the
      remaining case. */
  function Classify(bullOn: bool, bearOn: bool): (c: SignalCode)
    ensures c == Bull <==> bullOn && !bearOn
    ensures c == Bear <==> !bullOn && bearOn
    ensures c == Neutral <==> !bullOn && !bearOn
    ensures c == Volatile <==> bullOn && bearOn
  {
    if bullOn && !bearOn then Bull
    else if !bullOn && bearOn then Bear
    else if !bullOn && !bearOn then Neutral
    else Volatile
  }

  function SignalText(c: SignalCode): string
  {
    match c
    case Bull => "📈 强多头"
    case Bear => "📉 强空头"
    case Neutral => "⏸️ 震荡"
    case Volatile => "⚠️ 高波动"
  }

  function Action(c: SignalCode): string
  {
    match c
    case Bull => "可小幅加仓或维持多头持仓"
    case Bear => "建议减仓或设置止损保护"
    case Neutral => "维持当前仓位，无需操作"
    case Volatile => "降低杠杆，设置止损止盈"
  }

  function RiskLevel(c: SignalCode): string
  {
    match c
    case Bull => "🟡 中等"
    case Bear => "🔴 偏高"
    case Neutral => "🟢 较低"
    case Volatile => "🔴 高"
  }

  /** Python's `int()` on a float: truncation toward zero. */
  function Trunc(x: real): (i: int)
    ensures 0.0 <= x ==> i as real <= x < i as real + 1.0
    ensures x <= 0.0 ==> x <= i as real && i as real - 1.0 < x
  {
    if x >= 0.0 then x.Floor else -((-x).Floor)
  }

  /** `min(1.0, max(0, (p - floor) / 0.30))`: the probability's distance
      above its floor, scaled so that 0.30 above is full strength. */
  function Strength(p: real, floor: real): (s: real)
    ensures 0.0 <= s <= 1.0
    ensures p <= floor ==> s == 0.0
    ensures floor + 0.30 <= p ==> s == 1.0
    ensures floor < p < floor + 0.30 ==> s * 0.30 == p - floor
  {
    var raw := (p - floor) / 0.30;
    var lifted := if 0.0 > raw then 0.0 else raw;
    if 1.0 < lifted then 1.0 else lifted
  }

  /** The suggested position in percent: a bull signal adds up to 20
      points, a bear signal removes up to 30, a volatile signal sits at 35. */
  function Position(c: SignalCode, bullStrength: real, bearStrength: real): (pos: int)
    requires 0.0 <= bullStrength <= 1.0 && 0.0 <= bearStrength <= 1.0
    ensures c == Bull ==> 50 <= pos <= 70 && pos as real <= 50.0 + bullStrength * 20.0 < pos as real + 1.0
    ensures c == Bear ==> 20 <= pos <= 50 && pos as real - 1.0 < 50.0 - bearStrength * 30.0 <= pos as real
    ensures c == Neutral ==> pos == 50
    ensures c == Volatile ==> pos == 35
  {
    match c
    case Bull => BasePosition + Trunc(bullStrength * 20.0)
    case Bear => BasePosition - Trunc(bearStrength * 30.0)
    case Neutral => BasePosition
    case Volatile => if 30 > BasePosition - 15 then 30 else BasePosition - 15
  }

  /** The `position_advice` sentence; the bull and bear variants name the
      points added or removed. */
  function PositionAdvice(c: SignalCode, pos: int): string
    requires 20 <= pos <= 70
    requires c == Bull ==> pos >= 50
    requires c == Bear ==> pos <= 50
  {
    match c
    case Bull => "建议仓位 " + Decimal(pos) + "%（基准 50% + 多头信号加仓 " + Decimal(pos - 50) + "%）"
    case Bear => "建议仓位 " + Decimal(pos) + "%（基准 50% - 空头信号减仓 " + Decimal(50 - pos) + "%）"
    case Neutral => "建议仓位 " + Decimal(pos) + "%（维持基准仓位）"
    case Volatile => "建议仓位 " + Decimal(pos) + "%（基准 50% - 波动防御 15%）"
  }

  /** The risk notes, each present when its test holds, in the order of the
      tests, followed by the standing Kappa note. */
  function RiskNotes(bullProb: real, bearProb: real): seq<string>
  {
    (if bearProb > 0.55 then [BearRiskNote] else [])
    + (if bullProb > 0.60 && bearProb > 0.40 then [MixedNote] else [])
    + (if bullProb < 0.35 && bearProb < 0.35 then [WeakNote] else [])
    + [KappaNote]
  }

  /** `get_signal_and_advice`: the signal and position are computed by the
      branch chains, the risk notes by successive appends. */
  method GetSignalAndAdvice(bullProb: real, bearProb: real, bullThreshold: real, bearThreshold: real)
    returns (a: Advice)
    ensures a.signalCode == Classify(bullProb >= bullThreshold, bearProb >= bearThreshold)
    ensures a.signal == SignalText(a.signalCode)
    ensures a.bullProb == bullProb && a.bearProb == bearProb
    ensures a.bullStrength == Strength(bullProb, BullFloor)
    ensures a.bearStrength == Strength(bearProb, BearFloor)
    ensures a.positionPct == Position(a.signalCode, a.bullStrength, a.bearStrength)
    ensures 20 <= a.positionPct <= 70
    ensures a.positionAdvice == PositionAdvice(a.signalCode, a.positionPct)
    ensures a.action == Action(a.signalCode) && a.riskLevel == RiskLevel(a.signalCode)
    ensures a.riskNotes == RiskNotes(bullProb, bearProb)
  {
    var bullOn := bullProb >= bullThreshold;
    var bearOn := bearProb >= bearThreshold;
    var code := Classify(bullOn, bearOn);

    var bullStrength := Strength(bullProb, BullFloor);
    var bearStrength := Strength(bearProb, BearFloor);
    var position := Position(code, bullStrength, bearStrength);

    var notes: seq<string> := [];
    if bearProb > 0.55 {
      notes := notes + [BearRiskNote];
    }
    if bullProb > 0.60 && bearProb > 0.40 {
      notes := notes + [MixedNote];
    }
    if bullProb < 0.35 && bearProb < 0.35 {
      notes := notes + [WeakNote];
    }
    notes := notes + [KappaNote];

    a := Advice(SignalText(code), code, bullProb, bearProb, bullStrength, bearStrength,
                position, PositionAdvice(code, position), Action(code), RiskLevel(code), notes);
  }

  /** The signal in terms of the probabilities and thresholds. */
  lemma SignalRule(bullProb: real, bearProb: real, bullThreshold: real, bearThreshold: real)
    ensures var c := Classify(bullProb >= bullThreshold, bearProb >= bearThreshold);
      && (c == Bull <==> bullProb >= bullThreshold && bearProb < bearThreshold)
      && (c == Bear <==> bullProb < bullThreshold && bearProb >= bearThreshold)
      && (c == Neutral <==> bullProb < bullThreshold && bearProb < bearThreshold)
      && (c == Volatile <==> bullProb >= bullThreshold && bearProb >= bearThreshold)
  {
  }

  /** A stronger probability never gives a smaller strength. */
  lemma StrengthMonotone(p: real, q: real, floor: real)
    requires p <= q
    ensures Strength(p, floor) <= Strength(q, floor)
  {
  }

  /** Under a bull signal a higher bull probability never lowers the
      position; under a bear signal a higher bear probability never raises
      it. */
  lemma PositionMonotone(p: real, q: real)
    requires p <= q
    ensures Position(Bull, Strength(p, BullFloor), 0.0) <= Position(Bull, Strength(q, BullFloor), 0.0)
    ensures Position(Bear, 0.0, Strength(p, BearFloor)) >= Position(Bear, 0.0, Strength(q, BearFloor))
  {
    StrengthMonotone(p, q, BullFloor);
    StrengthMonotone(p, q, BearFloor);
    FloorMonotone(Strength(p, BullFloor) * 20.0, Strength(q, BullFloor) * 20.0);
    FloorMonotone(Strength(p, BearFloor) * 30.0, Strength(q, BearFloor) * 30.0);
  }

  lemma FloorMonotone(x: real, y: real)
    requires 0.0 <= x <= y
    ensures Trunc(x) <= Trunc(y)
  {
  }

  /** The extreme positions: 70 needs a bull probability of at least 0.70,
      20 a bear probability of at least 0.65. */
  lemma PositionExtremes(bullProb: real, bearProb: real)
    ensures Position(Bull, Strength(bullProb, BullFloor), 0.0) == 70 <==> bullProb >= 0.70
    ensures Position(Bear, 0.0, Strength(bearProb, BearFloor)) == 20 <==> bearProb >= 0.65
  {
  }

  /** The risk notes: the Kappa note always comes last; each other note is
      present exactly when its test holds; the weak-signal note excludes
      the other two, so there are at most three notes. */
  lemma RiskNotesMeaning(bullProb: real, bearProb: real)
    ensures var notes := RiskNotes(bullProb, bearProb);
      && 1 <= |notes| <= 3
      && notes[|notes| - 1] == KappaNote
      && (BearRiskNote in notes <==> bearProb > 0.55)
      && (MixedNote in notes <==> bullProb > 0.60 && bearProb > 0.40)
      && (WeakNote in notes <==> bullProb < 0.35 && bearProb < 0.35)
      && (WeakNote in notes ==> notes == [WeakNote, KappaNote])
  {
  }

  /** With both risk notes, the bear note comes before the mixed one. */
  lemma RiskNotesOrder(bullProb: real, bearProb: real)
    requires bearProb > 0.55 && bullProb > 0.60
    ensures RiskNotes(bullProb, bearProb) == [BearRiskNote, MixedNote, KappaNote]
  {
  }
}
