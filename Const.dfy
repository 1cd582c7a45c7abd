/** The constants of the integration: the temperature-error thresholds that switch
    the fan between its speeds, the fan speed names and the default temperature settings. */
module Const {

  // Default settings of the configuration.
  const DefaultMinTemp: real := 15.0
  const DefaultMaxTemp: real := 30.0
  const DefaultTargetTemp: real := 22.0
  const DefaultTempStep: real := 0.5

  // Fan speed names, as the fan entity's preset modes.
  const FanOff: string := "off"
  const FanLow: string := "low"
  const FanMed: string := "medium"
  const FanHigh: string := "high"

  // Temperature differences (degrees Celsius) at which the low, medium and high speeds start.
  const ThresholdLow: real := 0.5
  const ThresholdMedium: real := 1.5
  const ThresholdHigh: real := 2.5

  /** The three thresholds are positive and strictly ascending, so they cut the error axis into four bands. */
  lemma ThresholdsAscending()
    ensures 0.0 < ThresholdLow < ThresholdMedium < ThresholdHigh
  {}

  /** The default target lies within the default bounds. */
  lemma DefaultsOrdered()
    ensures DefaultMinTemp <= DefaultTargetTemp <= DefaultMaxTemp
  {}

  /** The default temperature step is positive. */
  lemma DefaultStepPositive()
    ensures DefaultTempStep > 0.0
  {}

  /** The four fan speed names are pairwise distinct. */
  lemma FanSpeedsDistinct()
    ensures FanOff != FanLow && FanOff != FanMed && FanOff != FanHigh
    ensures FanLow != FanMed && FanLow != FanHigh
    ensures FanMed != FanHigh
  {}
}
