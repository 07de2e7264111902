/** The programmable converter ("PSU") as the control core sees it: a record of the
    telemetry fields it reads and the commands it issues. The device drivers are not part
    of this model, so a command's effect is stated only as the field it sets when the
    device accepts it; `link` says whether it did. */
module PowerSupply {
  import opened Opt
  import opened Time

  datatype Psu = Psu(
    outEn: bool,          // output enabled
    outVolt: real,        // output voltage
    outCurr: real,        // output current
    limitCurr: real,      // configured current limit
    limitVolt: real,      // configured voltage limit
    currFilt: real,       // filtered output current
    lastSuccess: Millis,  // time of the last successful exchange with the device
    cv: bool,             // `isCV()`: the converter is in constant-voltage mode
    collapsed: bool,      // `isCollapsed()`: the device's own collapse signal
    drok: bool)           // `isDrok()`: device family whose collapse signal is not trusted on its own

  /** `setCurrent(c)`: the current limit becomes `c` when the device accepts the command. */
  function SetCurrent(p: Psu, c: real, link: bool): (q: Psu)
    ensures q == p.(limitCurr := q.limitCurr)
    ensures q.limitCurr == (if link then c else p.limitCurr)
  {
    if link then p.(limitCurr := c) else p
  }

  /** `enableOutput(on)`: the output flag becomes `on` when the device accepts the command. */
  function EnableOutput(p: Psu, on: bool, link: bool): (q: Psu)
    ensures q == p.(outEn := q.outEn)
    ensures q.outEn == (if link then on else p.outEn)
  {
    if link then p.(outEn := on) else p
  }

  /** `readCurrent()`: the output current read back from the device, if the read succeeded. */
  function ReadCurrent(p: Psu, reading: Option<real>): (q: Psu)
    ensures q == p.(outCurr := q.outCurr)
    ensures reading.Some? ==> q.outCurr == reading.value
    ensures reading.None? ==> q == p
  {
    if reading.Some? then p.(outCurr := reading.value) else p
  }

  /** `doUpdate()`: a successful round-trip replaces all telemetry; the device family is fixed. */
  function Refresh(p: Psu, telemetry: Option<Psu>): (q: Psu)
    ensures q.drok == p.drok
    ensures telemetry.None? ==> q == p
  {
    if telemetry.Some? then telemetry.value.(drok := p.drok) else p
  }
}
