/**
 Threshold status of the current readings: the chips on the temperature and
 humidity cards ("Optimal"/"Check") and the environment status boxes
 ("OK"/"Alert"). The ranges are fixed in the page and both bounds are inclusive.
 */
module Status {
  import opened Numbers

  const TemperatureMin: real := 24.0
  const TemperatureMax: real := 28.0
  const HumidityMin: real := 70.0
  const HumidityMax: real := 90.0

  /** `temperature >= 24 && temperature <= 28` */
  function TemperatureOk(t: Number): (ok: bool)
    ensures ok <==> t.Finite? && 24.0 <= t.x <= 28.0
  {
    Within(t, TemperatureMin, TemperatureMax)
  }

  /** `humidity >= 70 && humidity <= 90` */
  function HumidityOk(h: Number): (ok: bool)
    ensures ok <==> h.Finite? && 70.0 <= h.x <= 90.0
  {
    Within(h, HumidityMin, HumidityMax)
  }

  /** Label of a card's chip for a check outcome. */
  function ChipLabel(ok: bool): string
  {
    if ok then "Optimal" else "Check"
  }

  /** Word shown in an environment status box for a check outcome. */
  function StatusWord(ok: bool): string
  {
    if ok then "OK" else "Alert"
  }

  function TemperatureChip(t: Number): (chip: string)
    ensures chip == "Optimal" <==> t.Finite? && 24.0 <= t.x <= 28.0
    ensures chip == "Check" <==> !(t.Finite? && 24.0 <= t.x <= 28.0)
  {
    ChipLabel(TemperatureOk(t))
  }

  function HumidityChip(h: Number): (chip: string)
    ensures chip == "Optimal" <==> h.Finite? && 70.0 <= h.x <= 90.0
    ensures chip == "Check" <==> !(h.Finite? && 70.0 <= h.x <= 90.0)
  {
    ChipLabel(HumidityOk(h))
  }

  function TemperatureStatus(t: Number): (word: string)
    ensures word == "OK" <==> t.Finite? && 24.0 <= t.x <= 28.0
    ensures word == "Alert" <==> !(t.Finite? && 24.0 <= t.x <= 28.0)
  {
    StatusWord(TemperatureOk(t))
  }

  function HumidityStatus(h: Number): (word: string)
    ensures word == "OK" <==> h.Finite? && 70.0 <= h.x <= 90.0
    ensures word == "Alert" <==> !(h.Finite? && 70.0 <= h.x <= 90.0)
  {
    StatusWord(HumidityOk(h))
  }

  /** Both bounds are inclusive; readings just outside them, and NaN, are flagged. */
  lemma BoundsInclusive()
    ensures TemperatureOk(Finite(24.0)) && TemperatureOk(Finite(28.0))
    ensures !TemperatureOk(Finite(23.9)) && !TemperatureOk(Finite(28.1))
    ensures HumidityOk(Finite(70.0)) && HumidityOk(Finite(90.0))
    ensures !HumidityOk(Finite(69.9)) && !HumidityOk(Finite(90.1))
    ensures !TemperatureOk(NaN) && !HumidityOk(NaN)
    ensures !TemperatureOk(PosInf) && !HumidityOk(NegInf)
    ensures !TemperatureOk(NegInf) && !HumidityOk(PosInf)
  {
  }
}
