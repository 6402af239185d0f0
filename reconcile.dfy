/** The session state of one heat pump connection and what each received frame does to
    it: the dispatcher (command and sub-type), the status updates, and the reconciliation
    of the settings the unit reports with the settings wanted locally. */
module Reconcile {
  import opened Heatpump
  import opened FrameStream
  import opened Decode

  /** Command bytes. */
  const ACK: byte := 0x61
  const DATA: byte := 0x62
  const HANDSHAKE: byte := 0x7A

  /** Sub-types of a data frame (data[0]). */
  const SETTINGS: byte := 0x02
  const ROOM_TEMPERATURE: byte := 0x03
  const STATUS: byte := 0x06
  const FUNCTIONS_1: byte := 0x20
  const FUNCTIONS_2: byte := 0x22
  /** The payload length a function frame must have. */
  const FUNCTIONS_LEN: byte := 0x10

  /** Everything the receive path updates, the decoder aside. */
  datatype SessionState = SessionState(
    currentSettings: HeatpumpSettings,
    wantedSettings: WantedSettings,
    firstRun: bool,
    currentStatus: HeatpumpStatus,
    nonResponseCounter: int,
    functions: Functions,
    heatpumpConnected: bool,
    tempMode: bool,
    wideVaneAdj: bool,
    lastResponseMs: nat,
    currentTemperature: Option<int>,
    targetTemperature: Option<int>)

  /** A fresh session: no change pending, status all off, counter at zero, nothing shown. */
  function InitialSession(initial: HeatpumpSettings): (st: SessionState)
    ensures Bookkept(st.wantedSettings) && st.firstRun
    ensures st.currentSettings == st.wantedSettings.settings == initial
    ensures !st.wantedSettings.hasChanged && st.currentStatus == HeatpumpStatus(false, 0, 0)
    ensures st.nonResponseCounter == 0 && st.lastResponseMs == 0 && !st.wideVaneAdj
  {
    SessionState(
      currentSettings := initial,
      wantedSettings := WantedSettings(initial, false, false, 0),
      firstRun := true,
      currentStatus := HeatpumpStatus(false, 0, 0),
      nonResponseCounter := 0,
      functions := Functions(None, None),
      heatpumpConnected := false,
      tempMode := false,
      wideVaneAdj := false,
      lastResponseMs := 0,
      currentTemperature := None,
      targetTemperature := None)
  }

  /** What publishStateToHA leaves in currentSettings: every reported field but the wide
      vane, and the connection marked. */
  function Published(current: HeatpumpSettings, s: HeatpumpSettings): (r: HeatpumpSettings)
    ensures r == s.(wideVane := current.wideVane, connected := true)
  {
    current.(power := s.power, mode := s.mode, fan := s.fan, vane := s.vane,
             temperature := s.temperature, iSee := s.iSee, connected := true)
  }

  /** The wanted settings once the unit has confirmed them. */
  function Confirmed(w: WantedSettings): (r: WantedSettings)
    ensures r.settings == w.settings && !r.hasChanged && Bookkept(r)
  {
    w.(hasChanged := false, hasBeenSent := false, deferredRequests := 0)
  }

  /** The wanted settings taken over from the first settings the unit reports. */
  function Seeded(s: HeatpumpSettings): (r: WantedSettings)
    ensures r.settings == s && !r.hasChanged && Bookkept(r)
  {
    WantedSettings(s, false, false, 0)
  }

  /** updateSuccess (command 0x61). A pending local change is confirmed and committed to
      currentSettings; without one the acknowledgement is for an external temperature
      write and only the shown room temperature is refreshed. */
  function AfterAck(st: SessionState): (r: SessionState)
    ensures !r.wantedSettings.hasChanged
    ensures r.wantedSettings.settings == st.wantedSettings.settings
    ensures st.wantedSettings.hasChanged ==> r.currentSettings == st.wantedSettings.settings
    ensures !st.wantedSettings.hasChanged ==>
              r.currentSettings == st.currentSettings && r.wantedSettings == st.wantedSettings
    ensures r.currentStatus == st.currentStatus && r.firstRun == st.firstRun
  {
    if st.wantedSettings.hasChanged then
      var w := Confirmed(st.wantedSettings);
      st.(wantedSettings := w,
          currentSettings := w.settings,
          targetTemperature := Some(w.settings.temperature))
    else
      st.(currentTemperature := Some(st.currentStatus.roomTemperature))
  }

  /** heatpumpUpdate: settings reported by the unit against the wanted ones. */
  function HeatpumpUpdated(st: SessionState, received: HeatpumpSettings): SessionState
  {
    if SameSettings(received, st.wantedSettings.settings) then
      st.(wantedSettings := Confirmed(st.wantedSettings))
    else if st.wantedSettings.hasChanged then
      st
    else
      st.(currentSettings := Published(st.currentSettings, received),
          targetTemperature := Some(received.temperature))
  }

  /** The reconciliation step of a settings frame: on the first one of the session the
      wanted settings are taken from it, then heatpumpUpdate runs. */
  function AfterSettingsReceived(st: SessionState, received: HeatpumpSettings): SessionState
  {
    var seeded :=
      if st.firstRun then st.(wantedSettings := Seeded(received), firstRun := false) else st;
    HeatpumpUpdated(seeded, received)
  }

  /** A local request from the vane selector: the new position is wanted and a change is
      pending, not yet sent. */
  function AfterVaneRequest(st: SessionState, v: Vane): (r: SessionState)
    ensures r.wantedSettings.hasChanged && !r.wantedSettings.hasBeenSent
    ensures r.wantedSettings.settings == st.wantedSettings.settings.(vane := v)
    ensures r.currentSettings == st.currentSettings
  {
    st.(wantedSettings := st.wantedSettings.(settings := st.wantedSettings.settings.(vane := v),
                                             hasChanged := true, hasBeenSent := false))
  }

  /** statusChanged: the status is replaced and the room temperature shown. */
  function StatusReceived(st: SessionState, status: HeatpumpStatus): SessionState
  {
    st.(currentStatus := status, currentTemperature := Some(status.roomTemperature))
  }

  /** The precondition of the data-frame decoders: `data` reaches at least to data[11] and
      holds the whole payload and checksum. */
  predicate DataReadable(dataLength: int, data: seq<byte>)
  {
    0 <= dataLength && |data| >= 12 && |data| >= dataLength + 1
  }

  /** A settings frame (sub-type 0x02): the temperature-mode and wide-vane flags are
      taken from it, then the reported settings are reconciled. */
  function OnSettings(st: SessionState, maps: ValueMaps, data: seq<byte>): SessionState
    requires |data| >= 12
  {
    var marked := st.(tempMode := st.tempMode || data[11] != 0,
                      wideVaneAdj := WideVaneAdjusted(data[10]));
    AfterSettingsReceived(marked, DecodeSettings(maps, data))
  }

  /** getDataFromResponsePacket: a data frame (command 0x62), by sub-type. */
  function OnData(st: SessionState, maps: ValueMaps, dataLength: int, data: seq<byte>): SessionState
    requires DataReadable(dataLength, data)
  {
    if data[0] == SETTINGS then
      OnSettings(st, maps, data)
    else if data[0] == ROOM_TEMPERATURE then
      StatusReceived(st, st.currentStatus.(roomTemperature := DecodeRoomTemperature(maps, data)))
    else if data[0] == STATUS then
      StatusReceived(st.(nonResponseCounter := 0),
                     st.currentStatus.(operating := data[4] != 0, compressorFrequency := data[3]))
    else if (data[0] == FUNCTIONS_1 || data[0] == FUNCTIONS_2) && dataLength == FUNCTIONS_LEN then
      var block := data[1..FUNCTIONS_LEN];
      if data[0] == FUNCTIONS_1 then st.(functions := st.functions.(block1 := Some(block)))
      else st.(functions := st.functions.(block2 := Some(block)))
    else
      st
  }

  /** processCommand: the command byte of a frame whose checksum matched. */
  function Dispatch(st: SessionState, maps: ValueMaps, command: byte, dataLength: int, data: seq<byte>): SessionState
    requires DataReadable(dataLength, data)
  {
    if command == ACK then AfterAck(st)
    else if command == DATA then OnData(st, maps, dataLength, data)
    else if command == HANDSHAKE then st.(heatpumpConnected := true)
    else st
  }

  /** processDataPacket: a complete frame `f`, with `data` the buffer from offset 5. A frame
      whose checksum fails changes nothing; otherwise the response time is recorded and
      the command dispatched. */
  function OnFrame(st: SessionState, maps: ValueMaps, fr: Framing, f: seq<byte>, data: seq<byte>, now: nat): SessionState
    requires |f| > HEADER_LEN && DataReadable(f[4], data)
  {
    if ChecksumOk(f) then Dispatch(st.(lastResponseMs := now), maps, HeaderCommand(fr, f), f[4], data)
    else st
  }

  // ---------------------------------------------------------------------------------
  // Properties of reconciliation

  /** A second acknowledgement in a row changes neither the current nor the wanted
      settings. */
  lemma SecondAckKeepsSettings(st: SessionState)
    ensures AfterAck(AfterAck(st)).currentSettings == AfterAck(st).currentSettings
    ensures AfterAck(AfterAck(st)).wantedSettings == AfterAck(st).wantedSettings
  {
  }

  /** The first settings frame of a session becomes the wanted state and confirms it: the
      current settings are left alone and no change is pending. */
  lemma FirstSettingsAreAdopted(st: SessionState, received: HeatpumpSettings)
    requires st.firstRun
    ensures AfterSettingsReceived(st, received) == st.(firstRun := false, wantedSettings := Seeded(received))
  {
  }

  /** Reported settings equal to the wanted ones confirm the pending change, if any, and
      leave the current settings alone. */
  lemma MatchingReportConfirms(st: SessionState, received: HeatpumpSettings)
    requires !st.firstRun && SameSettings(received, st.wantedSettings.settings)
    ensures AfterSettingsReceived(st, received) == st.(wantedSettings := Confirmed(st.wantedSettings))
  {
  }

  /** While a local change is pending, reported settings that differ from it are stale
      and change nothing. */
  lemma PendingChangeIgnoresStaleReport(st: SessionState, received: HeatpumpSettings)
    requires !st.firstRun && st.wantedSettings.hasChanged
    requires !SameSettings(received, st.wantedSettings.settings)
    ensures AfterSettingsReceived(st, received) == st
  {
  }

  /** With no local change pending, reported settings that differ from the wanted ones
      come from elsewhere (the infrared remote): the current settings take every reported
      field but the wide vane, and the wanted settings stay as they were. */
  lemma ExternalChangeIsAdopted(st: SessionState, received: HeatpumpSettings)
    requires !st.firstRun && !st.wantedSettings.hasChanged
    requires !SameSettings(received, st.wantedSettings.settings)
    ensures var r := AfterSettingsReceived(st, received);
            && r.currentSettings == received.(wideVane := st.currentSettings.wideVane, connected := true)
            && r.wantedSettings == st.wantedSettings
            && r.currentStatus == st.currentStatus
  {
  }

  /** Receiving the same settings twice in a row has the effect of receiving them once. */
  lemma SettingsReportIdempotent(st: SessionState, received: HeatpumpSettings)
    ensures AfterSettingsReceived(AfterSettingsReceived(st, received), received)
         == AfterSettingsReceived(st, received)
  {
  }

  /** A vane request followed by the unit's acknowledgement commits the requested
      position and leaves no change pending. */
  lemma RequestThenAckCommits(st: SessionState, v: Vane)
    ensures var r := AfterAck(AfterVaneRequest(st, v));
            && r.currentSettings == st.wantedSettings.settings.(vane := v)
            && r.currentSettings.vane == v
            && !r.wantedSettings.hasChanged
  {
  }

  /** The bookkeeping of a wanted change is cleared whenever the change is, by every
      operation of the receive path and by a local request. */
  lemma BookkeepingKept(st: SessionState, maps: ValueMaps, fr: Framing, f: seq<byte>, data: seq<byte>, now: nat, v: Vane)
    requires Bookkept(st.wantedSettings)
    requires |f| > HEADER_LEN && DataReadable(f[4], data)
    ensures Bookkept(OnFrame(st, maps, fr, f, data, now).wantedSettings)
    ensures Bookkept(AfterVaneRequest(st, v).wantedSettings)
  {
    if ChecksumOk(f) {
      var st' := st.(lastResponseMs := now);
      var command := HeaderCommand(fr, f);
      if command == DATA && data[0] == SETTINGS {
        var marked := st'.(tempMode := st'.tempMode || data[11] != 0,
                           wideVaneAdj := WideVaneAdjusted(data[10]));
        SettingsKeepBookkeeping(marked, DecodeSettings(maps, data));
      }
    }
  }

  lemma SettingsKeepBookkeeping(st: SessionState, received: HeatpumpSettings)
    requires Bookkept(st.wantedSettings)
    ensures Bookkept(AfterSettingsReceived(st, received).wantedSettings)
  {
  }

  /** A frame whose checksum fails changes nothing, not even the response time; one whose
      checksum matches always records the response time. */
  lemma ChecksumGatesFrame(st: SessionState, maps: ValueMaps, fr: Framing, f: seq<byte>, data: seq<byte>, now: nat)
    requires |f| > HEADER_LEN && DataReadable(f[4], data)
    ensures !ChecksumOk(f) ==> OnFrame(st, maps, fr, f, data, now) == st
    ensures ChecksumOk(f) ==> OnFrame(st, maps, fr, f, data, now).lastResponseMs == now
  {
  }

  /** A frame whose protocol id bytes do not match carries command 0, which no branch of
      the dispatcher handles: at most the response time is recorded. */
  lemma ForeignFrameOnlyStamps(st: SessionState, maps: ValueMaps, fr: Framing, f: seq<byte>, data: seq<byte>, now: nat)
    requires |f| > HEADER_LEN && DataReadable(f[4], data)
    requires f[2] != fr.idHi || f[3] != fr.idLo
    ensures OnFrame(st, maps, fr, f, data, now) == if ChecksumOk(f) then st.(lastResponseMs := now) else st
  {
  }

  /** Only a frame with a valid checksum that is an acknowledgement or a settings frame
      can change the current settings. */
  lemma OnlyAcksAndSettingsFramesChangeSettings(st: SessionState, maps: ValueMaps, fr: Framing, f: seq<byte>, data: seq<byte>, now: nat)
    requires |f| > HEADER_LEN && DataReadable(f[4], data)
    requires OnFrame(st, maps, fr, f, data, now).currentSettings != st.currentSettings
    ensures ChecksumOk(f)
    ensures HeaderCommand(fr, f) == ACK || (HeaderCommand(fr, f) == DATA && data[0] == SETTINGS)
  {
  }

  /** What each sub-type of a data frame does to the whole session, all else unchanged. A
      room temperature frame (0x03) replaces the room temperature of the status and shows
      it. A status frame (0x06) resets the non-response counter and replaces operating and
      the compressor frequency, keeping the room temperature, which it shows again. A
      function frame (0x20 or 0x22) of length 0x10 stores payload bytes 1 to 15 as its own
      block; of any other length, or with an unknown sub-type, the frame changes nothing. */
  lemma DataFramesChangeOnlyTheirPart(st: SessionState, maps: ValueMaps, dataLength: int, data: seq<byte>)
    requires DataReadable(dataLength, data)
    ensures data[0] == ROOM_TEMPERATURE ==>
              var t := DecodeRoomTemperature(maps, data);
              OnData(st, maps, dataLength, data)
                == st.(currentStatus := st.currentStatus.(roomTemperature := t), currentTemperature := Some(t))
    ensures data[0] == STATUS ==>
              OnData(st, maps, dataLength, data)
                == st.(nonResponseCounter := 0,
                       currentStatus := HeatpumpStatus(data[4] != 0, data[3], st.currentStatus.roomTemperature),
                       currentTemperature := Some(st.currentStatus.roomTemperature))
    ensures data[0] == FUNCTIONS_1 && dataLength == FUNCTIONS_LEN ==>
              OnData(st, maps, dataLength, data)
                == st.(functions := st.functions.(block1 := Some(data[1..FUNCTIONS_LEN])))
    ensures data[0] == FUNCTIONS_2 && dataLength == FUNCTIONS_LEN ==>
              OnData(st, maps, dataLength, data)
                == st.(functions := st.functions.(block2 := Some(data[1..FUNCTIONS_LEN])))
    ensures (data[0] == FUNCTIONS_1 || data[0] == FUNCTIONS_2) && dataLength != FUNCTIONS_LEN ==>
              OnData(st, maps, dataLength, data) == st
    ensures data[0] !in {SETTINGS, ROOM_TEMPERATURE, STATUS, FUNCTIONS_1, FUNCTIONS_2} ==>
              OnData(st, maps, dataLength, data) == st
  {
  }
}
