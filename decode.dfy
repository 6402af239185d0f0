/** Field decoding of the data frames (command 0x62). `data` is the receive buffer from
    offset 5 on: data[0] is the sub-type and the payload follows. */
module Decode {
  import opened Heatpump

  /** The offset the iSee flag adds to the mode byte. */
  const ISEE_OFFSET: int := 0x08

  /** The mode index left once the iSee offset is taken off; the mode byte is recovered
      from the flag and the index. */
  function ModeIndex(b: byte): (i: byte)
    ensures b == (if b > ISEE_OFFSET then i + ISEE_OFFSET else i)
  {
    if b > ISEE_OFFSET then b - ISEE_OFFSET else b
  }

  /** A temperature byte in the direct encoding: (b - 128) / 2 degrees, that is b - 128
      half degrees. The byte is recovered from the temperature, so distinct bytes give
      distinct temperatures. */
  function DirectHalfDegrees(b: byte): (t: int)
    requires b != 0
    ensures -128 < t < 128
    ensures t + 128 == b
  {
    b - 128
  }

  /** The wide vane index, data[10] & 0x0F: the low four bits of the byte. */
  function LowNibble(b: byte): byte
  {
    b % 16
  }

  /** The wide vane adjustment flag, (data[10] & 0xF0) == 0x80: the high four bits of the
      byte are 1000. */
  predicate WideVaneAdjusted(b: byte)
  {
    b / 16 == 8
  }

  /** LowNibble and WideVaneAdjusted are the masks the receive code applies to data[10],
      read on the byte as an 8-bit vector. */
  lemma NibblesAreMasks(v: bv8)
    ensures (v & 0x0F) as int == LowNibble(v as int)
    ensures (v & 0xF0 == 0x80) <==> WideVaneAdjusted(v as int)
    ensures WideVaneAdjusted(v as int) <==> 0x80 <= v as int < 0x90
  {
  }

  /** The set temperature of a settings frame: the direct encoding in data[11] when it is
      non-zero, else the table entry for data[5], in half degrees. */
  function SettingsTemperature(maps: ValueMaps, data: seq<byte>): (t: int)
    requires |data| >= 12
    ensures data[11] != 0 ==> -128 < t < 128 && t + 128 == data[11]
    ensures data[11] == 0 ==> t == 2 * maps.temperature(data[5])
  {
    if data[11] != 0 then DirectHalfDegrees(data[11]) else 2 * maps.temperature(data[5])
  }

  /** Sub-type 0x02: the settings the unit reports. */
  function DecodeSettings(maps: ValueMaps, data: seq<byte>): (r: HeatpumpSettings)
    requires |data| >= 12
    ensures r.iSee <==> data[4] > ISEE_OFFSET
    ensures r.mode == maps.mode(if r.iSee then data[4] - ISEE_OFFSET else data[4])
    ensures r.wideVane == maps.wideVane(data[10] % 16)
    ensures r.connected
  {
    HeatpumpSettings(
      power := maps.power(data[3]),
      mode := maps.mode(ModeIndex(data[4])),
      temperature := SettingsTemperature(maps, data),
      fan := maps.fan(data[6]),
      vane := maps.vane(data[7]),
      wideVane := maps.wideVane(LowNibble(data[10])),
      iSee := data[4] > ISEE_OFFSET,
      connected := true)
  }

  /** The decoded settings depend on data[3], data[4], data[6], data[7], data[10] and
      data[11], and on data[5] only when data[11] is zero; no other byte matters. */
  lemma SettingsDependOnlyOnTheirBytes(maps: ValueMaps, d1: seq<byte>, d2: seq<byte>)
    requires |d1| >= 12 && |d2| >= 12
    requires forall k :: k in {3, 4, 6, 7, 10, 11} ==> d1[k] == d2[k]
    requires d1[11] == 0 ==> d1[5] == d2[5]
    ensures DecodeSettings(maps, d1) == DecodeSettings(maps, d2)
  {
    assert d1[3] == d2[3] && d1[4] == d2[4] && d1[6] == d2[6];
    assert d1[7] == d2[7] && d1[10] == d2[10] && d1[11] == d2[11];
  }

  /** Sub-type 0x03: the room temperature, direct in data[6] when it is non-zero, else the
      table entry for data[3], in half degrees. */
  function DecodeRoomTemperature(maps: ValueMaps, data: seq<byte>): (t: int)
    requires |data| >= 7
    ensures data[6] != 0 ==> -128 < t < 128 && t + 128 == data[6]
    ensures data[6] == 0 ==> t == 2 * maps.roomTemperature(data[3])
  {
    if data[6] != 0 then DirectHalfDegrees(data[6]) else 2 * maps.roomTemperature(data[3])
  }
}
