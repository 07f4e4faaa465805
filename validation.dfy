/** The length-entry check of the line dimension popup (src/utils/validation.ts). */
module Validation {
  import opened Wrappers
  import opened Numeric
  import opened Types
  import Snap

  const MIN_LENGTH_UNIT: int := 150

  /** What the user typed: blank after trimming, or the number `Number(text)` read from it. */
  datatype LengthInput = BlankInput | TextInput(parsed: Num)

  predicate IsPositiveFinite(n: Num) {
    n.Finite? && n.value > 0.0
  }

  /** A positive whole number of millimetres that is at least `snapSize` and a multiple of 150. */
  predicate AcceptableLength(n: Num, snapSize: real) {
    && IsPositiveFinite(n)
    && IsInteger(n.value)
    && n.value >= snapSize
    && n.value.Floor % MIN_LENGTH_UNIT == 0
  }

  /** The guards run in order; the first that fails names the message, `None` means valid. */
  function ValidateLineLengthValue(input: LengthInput, snapSize: real): (r: Option<ValidationError>)
    ensures r == Some(EnterDimension) <==> input.BlankInput?
    ensures r == Some(EnterNumber) <==> input.TextInput? && input.parsed.NaN?
    ensures r == Some(EnterPositive) <==>
              input.TextInput? && !input.parsed.NaN? && !IsPositiveFinite(input.parsed)
    ensures r == Some(EnterInteger) <==>
              input.TextInput? && IsPositiveFinite(input.parsed) && !IsInteger(input.parsed.value)
    ensures r.Some? && r.value.BelowMinimum? <==>
              input.TextInput? && IsPositiveFinite(input.parsed) && IsInteger(input.parsed.value)
              && input.parsed.value < snapSize
    ensures r.Some? && r.value.BelowMinimum? ==> r.value.minimum == snapSize
    ensures r == Some(NotMultipleOfUnit(MIN_LENGTH_UNIT)) <==>
              input.TextInput? && IsPositiveFinite(input.parsed) && IsInteger(input.parsed.value)
              && input.parsed.value >= snapSize && input.parsed.value.Floor % MIN_LENGTH_UNIT != 0
    ensures r.None? <==> input.TextInput? && AcceptableLength(input.parsed, snapSize)
  {
    match input
    case BlankInput => Some(EnterDimension)
    case TextInput(parsed) =>
      if parsed.NaN? then Some(EnterNumber)
      else if !parsed.Finite? || parsed.value <= 0.0 then Some(EnterPositive)
      else if !IsInteger(parsed.value) then Some(EnterInteger)
      else if parsed.value < snapSize then Some(BelowMinimum(snapSize))
      else if parsed.value.Floor % MIN_LENGTH_UNIT != 0 then Some(NotMultipleOfUnit(MIN_LENGTH_UNIT))
      else None
  }

  /** Worked values at the default snap size of 300 mm. */
  lemma ValidationExamples()
    ensures ValidateLineLengthValue(BlankInput, Snap.DEFAULT_SNAP_SIZE) == Some(EnterDimension)
    ensures ValidateLineLengthValue(TextInput(NaN), Snap.DEFAULT_SNAP_SIZE) == Some(EnterNumber)
    ensures ValidateLineLengthValue(TextInput(Finite(0.0)), Snap.DEFAULT_SNAP_SIZE) == Some(EnterPositive)
    ensures ValidateLineLengthValue(TextInput(Finite(-50.0)), Snap.DEFAULT_SNAP_SIZE) == Some(EnterPositive)
    ensures ValidateLineLengthValue(TextInput(Finite(12.5)), Snap.DEFAULT_SNAP_SIZE) == Some(EnterInteger)
    ensures ValidateLineLengthValue(TextInput(Finite(200.0)), Snap.DEFAULT_SNAP_SIZE) == Some(BelowMinimum(300.0))
    ensures ValidateLineLengthValue(TextInput(Finite(600.0)), Snap.DEFAULT_SNAP_SIZE) == None
    ensures ValidateLineLengthValue(TextInput(Finite(450.0)), Snap.DEFAULT_SNAP_SIZE) == None
    ensures ValidateLineLengthValue(TextInput(Finite(475.0)), Snap.DEFAULT_SNAP_SIZE) == Some(NotMultipleOfUnit(150))
  {
  }
}
