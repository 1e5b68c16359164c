/** Real-time settings: what the validator accepts and the demand the pool records for them. */
module Demand {
  import opened Wrappers

  datatype RTSettings = RTSettings(period: int, runtimeLow: int, runtimeHi: int, core: Option<string>)

  datatype SettingsError =
    | PeriodNotPositive
    | RuntimeLowNotPositive
    | RuntimeLowAbovePeriod
    | RuntimeHiNotPositive
    | RuntimeHiAbovePeriod
    | RuntimeLowAboveRuntimeHi
    | RuntimeHiAboveLimit(maxRuntime: int)

  /** The first rule the settings break. Accepts exactly 0 < low <= hi <= 95% of the period. */
  function ValidateSettings(rt: RTSettings): (error: Option<SettingsError>)
    ensures error == None <==> 0 < rt.runtimeLow <= rt.runtimeHi && 100 * rt.runtimeHi <= 95 * rt.period
    ensures error.Some? && error.value.RuntimeHiAboveLimit? ==>
              && 0 < rt.runtimeLow <= rt.runtimeHi <= rt.period && error.value.maxRuntime < rt.runtimeHi
              && 100 * error.value.maxRuntime <= 95 * rt.period < 100 * (error.value.maxRuntime + 1)
  {
    if rt.period <= 0 then Some(PeriodNotPositive)
    else if rt.runtimeLow <= 0 then Some(RuntimeLowNotPositive)
    else if rt.runtimeLow > rt.period then Some(RuntimeLowAbovePeriod)
    else if rt.runtimeHi <= 0 then Some(RuntimeHiNotPositive)
    else if rt.runtimeHi > rt.period then Some(RuntimeHiAbovePeriod)
    else if rt.runtimeLow > rt.runtimeHi then Some(RuntimeLowAboveRuntimeHi)
    else
      var maxRuntime := 95 * rt.period / 100;
      if rt.runtimeHi > maxRuntime then Some(RuntimeHiAboveLimit(maxRuntime)) else None
  }

  /** Integer division that rounds toward zero. */
  function TruncatedDiv(a: int, b: int): int
    requires b > 0
  {
    if a >= 0 then a / b else -(-a / b)
  }

  const DEFAULT_MILLIS: int := 100

  /** Millicores for a runtime out of a period; 0 is replaced by a default. */
  function DemandMillis(runtime: int, period: int): int {
    var millis := if period > 0 then TruncatedDiv(1000 * runtime, period) else 0;
    if millis == 0 then DEFAULT_MILLIS else millis
  }

  /** The demand in a runtime state: "hi" asks for the high runtime, any other for the low one. */
  function SettingsDemand(rt: RTSettings, runtimeState: string): int {
    DemandMillis(if runtimeState == "hi" then rt.runtimeHi else rt.runtimeLow, rt.period)
  }

  lemma QuotientBounds(a: int, b: int)
    requires a >= 0 && b > 0
    ensures 0 <= a / b && (a / b) * b <= a < (a / b + 1) * b
  {
  }

  /** The quotient is at least k exactly when the dividend is at least k times the divisor. */
  lemma QuotientAtLeast(a: int, b: int, k: int)
    requires a >= 0 && b > 0 && k >= 0
    ensures a / b >= k <==> a >= k * b
  {
    QuotientBounds(a, b);
    if a / b >= k {
      assert (a / b) * b >= k * b;
    } else {
      assert (a / b + 1) * b <= k * b;
    }
  }

  /** Accepted settings ask for 1 to 950 millicores in both runtime states. */
  lemma AcceptedDemandIsBounded(rt: RTSettings, runtimeState: string)
    requires ValidateSettings(rt) == None
    ensures 1 <= SettingsDemand(rt, runtimeState) <= 950
  {
    var runtime := if runtimeState == "hi" then rt.runtimeHi else rt.runtimeLow;
    QuotientAtLeast(1000 * runtime, rt.period, 951);
  }

  /** The demand is the share of the period in millicores, rounded down; 100 stands for less than one
      millicore, and for a period that is not positive. */
  lemma DemandIsShare(runtime: int, period: int)
    requires runtime >= 0
    ensures period > 0 && 1000 * runtime >= period ==>
              && 1 <= DemandMillis(runtime, period)
              && DemandMillis(runtime, period) * period <= 1000 * runtime < (DemandMillis(runtime, period) + 1) * period
    ensures period <= 0 || 1000 * runtime < period ==> DemandMillis(runtime, period) == 100
  {
    if period > 0 {
      QuotientBounds(1000 * runtime, period);
      QuotientAtLeast(1000 * runtime, period, 1);
    }
  }

  /** The first broken rule is the one reported, whatever else is wrong. */
  lemma FirstBrokenRule(rt: RTSettings)
    ensures ValidateSettings(rt) == Some(PeriodNotPositive) <==> rt.period <= 0
    ensures ValidateSettings(rt) == Some(RuntimeLowNotPositive) <==> rt.period > 0 && rt.runtimeLow <= 0
    ensures ValidateSettings(rt) == Some(RuntimeLowAbovePeriod) <==> 0 < rt.period < rt.runtimeLow
    ensures ValidateSettings(rt) == Some(RuntimeHiNotPositive) <==>
            0 < rt.runtimeLow <= rt.period && rt.runtimeHi <= 0
    ensures ValidateSettings(rt) == Some(RuntimeHiAbovePeriod) <==>
            0 < rt.runtimeLow <= rt.period < rt.runtimeHi
    ensures ValidateSettings(rt) == Some(RuntimeLowAboveRuntimeHi) <==>
            0 < rt.runtimeHi < rt.runtimeLow <= rt.period
    ensures ValidateSettings(rt).Some? && ValidateSettings(rt).value.RuntimeHiAboveLimit? <==>
            0 < rt.runtimeLow <= rt.runtimeHi <= rt.period && 100 * rt.runtimeHi > 95 * rt.period
  {
  }

  /** For accepted settings, escalating to the high runtime never lowers the demand exactly when
      the low runtime reaches a whole millicore, or the default replaces both demands, or the
      high demand is at least that default. */
  lemma EscalationNeverLowersDemand(rt: RTSettings)
    requires ValidateSettings(rt) == None
    ensures SettingsDemand(rt, "low") <= SettingsDemand(rt, "hi") <==>
            (1000 * rt.runtimeLow >= rt.period || 1000 * rt.runtimeHi < rt.period || 10 * rt.runtimeHi >= rt.period)
  {
    assert "low" != "hi";
    var low, hi := 1000 * rt.runtimeLow / rt.period, 1000 * rt.runtimeHi / rt.period;
    QuotientAtLeast(1000 * rt.runtimeLow, rt.period, 1);
    QuotientAtLeast(1000 * rt.runtimeHi, rt.period, 1);
    QuotientAtLeast(1000 * rt.runtimeHi, rt.period, DEFAULT_MILLIS);
    QuotientBounds(1000 * rt.runtimeLow, rt.period);
    QuotientAtLeast(1000 * rt.runtimeHi, rt.period, low);
  }

  /** Such settings are accepted although escalating lowers their demand: a low runtime below one
      millicore asks for the default of 100, the high one for the 5 it states. */
  lemma EscalationCanLowerDemand()
    ensures exists rt ::
              && ValidateSettings(rt) == None
              && SettingsDemand(rt, "low") == DEFAULT_MILLIS && SettingsDemand(rt, "hi") == 5
  {
    var rt := RTSettings(10000, 5, 50, None);
    assert "low" != "hi";
    assert ValidateSettings(rt) == None;
    assert SettingsDemand(rt, "low") == DEFAULT_MILLIS && SettingsDemand(rt, "hi") == 5;
  }
}
