/** Value types of one CN105 session: bytes, the setting enumerations that replace the
    C strings of the value maps, the settings and status records, and the byte-to-value
    tables the decoder consults. */
module Heatpump {

  /** An unsigned 8-bit value as it travels on the serial line. */
  type byte = b: int | 0 <= b < 256

  datatype Option<T> = None | Some(value: T)

  /** POWER_MAP = {"OFF", "ON"} */
  datatype Power = Off | On

  /** MODE_MAP = {"HEAT", "DRY", "COOL", "FAN", "AUTO"} */
  datatype Mode = Heat | Dry | Cool | Fan | Auto

  /** FAN_MAP = {"AUTO", "QUIET", "1", "2", "3", "4"} */
  datatype Fan = Auto | Quiet | Speed1 | Speed2 | Speed3 | Speed4

  /** VANE_MAP = {"AUTO", "1", "2", "3", "4", "5", "SWING"} */
  datatype Vane = Auto | Position1 | Position2 | Position3 | Position4 | Position5 | Swing

  /** The seven horizontal vane positions of WIDEVANE_MAP. */
  datatype WideVane = FarLeft | Left | Centre | Right | FarRight | Wide | Swing

  /** heatpumpSettings. Temperatures are in half degrees Celsius. */
  datatype HeatpumpSettings = HeatpumpSettings(
    power: Power,
    mode: Mode,
    temperature: int,
    fan: Fan,
    vane: Vane,
    wideVane: WideVane,
    iSee: bool,
    connected: bool)

  /** wantedHeatpumpSettings: the locally desired settings plus the progress of the
      request that carries them to the unit. */
  datatype WantedSettings = WantedSettings(
    settings: HeatpumpSettings,
    hasChanged: bool,
    hasBeenSent: bool,
    deferredRequests: nat)

  /** heatpumpStatus (the timer part is not modelled). Room temperature in half degrees. */
  datatype HeatpumpStatus = HeatpumpStatus(
    operating: bool,
    compressorFrequency: int,
    roomTemperature: int)

  /** The two halves of heatpumpFunctions, each the raw bytes of one function frame. */
  datatype Functions = Functions(block1: Option<seq<byte>>, block2: Option<seq<byte>>)

  /** The byte-to-value tables behind lookupByteMapValue. Their contents are not part of
      this model, so each table is an arbitrary total function. The temperature tables
      give whole degrees. */
  datatype ValueMaps = ValueMaps(
    power: byte -> Power,
    mode: byte -> Mode,
    temperature: byte -> int,
    fan: byte -> Fan,
    vane: byte -> Vane,
    wideVane: byte -> WideVane,
    roomTemperature: byte -> int)

  /** operator== between a received heatpumpSettings and the settings part of the wanted
      ones: every field but `connected`. */
  predicate SameSettings(a: HeatpumpSettings, b: HeatpumpSettings)
  {
    a.(connected := b.connected) == b
  }

  /** hasChanged(before, now, field): the two setting values differ. */
  predicate HasChanged<T(==)>(before: T, now: T)
  {
    before != now
  }

  /** The bookkeeping of a wanted change is only ever non-zero while a change is pending. */
  predicate Bookkept(w: WantedSettings)
  {
    !w.hasChanged ==> !w.hasBeenSent && w.deferredRequests == 0
  }
}
