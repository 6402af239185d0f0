/** The receive side of CN105Climate: the resumable frame decoder working in place on
    its receive buffer, the dispatcher, and the reconciliation of current, wanted and
    received settings. */
module CN105 {
  import opened Heatpump
  import opened FrameStream
  import opened Decode
  import opened Reconcile

  /** The settings decoder reads data[11], offset 16 of the buffer, whatever the frame
      length, so the buffer must reach that far. */
  const MIN_CAPACITY: nat := 17

  /** The decoder's cursor. */
  datatype Cursor = Cursor(foundStart: bool, bytesRead: int, dataLength: int, command: byte)

  class CN105Climate {
    const maps: ValueMaps
    const framing: Framing
    /** storedInputData[MAX_DATA_BYTES] */
    const storedInputData: array<byte>

    // decoder cursor
    var foundStart: bool
    var bytesRead: int
    var dataLength: int
    var command: byte
    /** The frames completed so far and the frame started, as the stream-level decoder
        of FrameStream has them. */
    ghost var scan: Scan

    // session
    var currentSettings: HeatpumpSettings
    var wantedSettings: WantedSettings
    var firstRun: bool
    var currentStatus: HeatpumpStatus
    var nonResponseCounter: int
    var functions: Functions
    var isHeatpumpConnected: bool
    var tempMode: bool
    var wideVaneAdj: bool
    var lastResponseMs: nat
    /** current_temperature and target_temperature of the climate entity. */
    var currentTemperature: Option<int>
    var targetTemperature: Option<int>

    ghost function Session(): SessionState
      reads this`currentSettings, this`wantedSettings, this`firstRun, this`currentStatus
      reads this`nonResponseCounter, this`functions, this`isHeatpumpConnected, this`tempMode
      reads this`wideVaneAdj, this`lastResponseMs, this`currentTemperature, this`targetTemperature
    {
      SessionState(currentSettings, wantedSettings, firstRun, currentStatus, nonResponseCounter,
                   functions, isHeatpumpConnected, tempMode, wideVaneAdj, lastResponseMs,
                   currentTemperature, targetTemperature)
    }

    ghost function Decoder(): Cursor
      reads this`foundStart, this`bytesRead, this`dataLength, this`command
    {
      Cursor(foundStart, bytesRead, dataLength, command)
    }

    ghost predicate Sized()
    {
      storedInputData.Length == framing.capacity >= MIN_CAPACITY
    }

    /** The cursor and the front of the buffer hold exactly the started frame `p`. */
    ghost predicate Tracks(p: seq<byte>)
      reads this`foundStart, this`bytesRead, this`dataLength, this`command, storedInputData
    {
      && foundStart == (p != [])
      && bytesRead == |p|
      && bytesRead < storedInputData.Length
      && storedInputData[..bytesRead] == p
      && dataLength == DataLength(p)
      && command == HeaderCommand(framing, p)
    }

    /** The cursor and the buffer hold exactly the frame the stream has started and not
        finished, and the wanted settings keep their bookkeeping. */
    ghost predicate Valid()
      reads this`wantedSettings, this`scan, this`foundStart, this`bytesRead, this`dataLength,
            this`command, storedInputData
    {
      Sized() && Bookkept(wantedSettings) && PendingShape(framing, scan.pending) && Tracks(scan.pending)
    }

    /** A session starts from the decoder's reset state, with no change pending and the
        status all off. */
    constructor (maps: ValueMaps, framing: Framing, initial: HeatpumpSettings)
      requires framing.capacity >= MIN_CAPACITY
      ensures Valid() && fresh(storedInputData)
      ensures this.maps == maps && this.framing == framing
      ensures Decoder() == Cursor(false, 0, -1, 0) && scan == Split(framing, [])
      ensures Session() == InitialSession(initial)
    {
      this.maps := maps;
      this.framing := framing;
      storedInputData := new byte[framing.capacity];
      foundStart, bytesRead, dataLength, command := false, 0, -1, 0;
      scan := Scan([], []);
      currentSettings := initial;
      wantedSettings := WantedSettings(initial, false, false, 0);
      firstRun := true;
      currentStatus := HeatpumpStatus(false, 0, 0);
      nonResponseCounter := 0;
      functions := Functions(None, None);
      isHeatpumpConnected := false;
      tempMode := false;
      wideVaneAdj := false;
      lastResponseMs := 0;
      currentTemperature := None;
      targetTemperature := None;
    }

    /** Seek the cursor back to the start of the buffer. */
    method InitBytePointer()
      modifies this`foundStart, this`bytesRead, this`dataLength, this`command
      ensures !foundStart && bytesRead == 0 && dataLength == -1 && command == 0
    {
      foundStart := false;
      bytesRead := 0;
      dataLength := -1;
      command := 0;
    }

    /** One byte from the transport. Outside a frame only the sync byte is kept; inside,
        each byte is stored at `bytesRead`, the header is checked at index 4, and the frame
        is processed when the byte at index dataLength + 5 (its checksum) is stored. A
        frame whose declared length does not fit the buffer is dropped after its header. */
    method Parse(inputData: byte, now: nat)
      requires Valid()
      modifies this, storedInputData
      ensures Valid()
      ensures scan == Step(framing, old(scan), inputData)
      ensures !old(foundStart) && inputData != framing.sync ==>
                Decoder() == old(Decoder()) && storedInputData[..] == old(storedInputData[..]) &&
                Session() == old(Session())
      ensures !old(foundStart) && inputData == framing.sync ==>
                foundStart && bytesRead == 1 && storedInputData[0] == inputData
      ensures old(foundStart) ==> storedInputData[old(bytesRead)] == inputData
      ensures forall k :: 0 <= k < storedInputData.Length && k != old(bytesRead) ==>
                storedInputData[k] == old(storedInputData[k])
      ensures old(foundStart && dataLength >= 0 && bytesRead == dataLength + 5) ==>
                && var f := storedInputData[..old(bytesRead) + 1];
                   && scan.frames == old(scan.frames) + [f]
                   && FrameShape(framing, f)
                   && Session() == OnFrame(old(Session()), maps, framing, f, storedInputData[5..], now)
                   && Decoder() == Cursor(false, 0, -1, 0)
      ensures !old(foundStart && dataLength >= 0 && bytesRead == dataLength + 5) ==>
                scan.frames == old(scan.frames) && Session() == old(Session())
    {
      if !foundStart {
        if inputData == framing.sync {
          foundStart := true;
          storedInputData[bytesRead] := inputData;
          bytesRead := bytesRead + 1;
          assert storedInputData[..bytesRead] == [inputData];
        }
        scan := Step(framing, scan, inputData);
      } else {
        ParseFrameByte(inputData, now);
      }
    }

    /** processInput: every byte the transport has available goes through Parse, in
        order; `input` stands for those bytes, and `now` for the clock. The result says
        whether there was any byte. */
    method ProcessInput(input: seq<byte>, now: nat) returns (processed: bool)
      requires Valid()
      modifies this, storedInputData
      ensures Valid()
      ensures processed <==> input != []
      ensures scan == Run(framing, old(scan), input)
    {
      processed := false;
      var i := 0;
      while i < |input|
        invariant 0 <= i <= |input|
        invariant Valid()
        invariant processed <==> i > 0
        invariant Run(framing, scan, input[i..]) == Run(framing, old(scan), input)
      {
        processed := true;
        assert input[i..][1..] == input[i + 1..];
        Parse(input[i], now);
        i := i + 1;
      }
    }

    /** The branch of Parse inside a started frame: the byte is stored, and when it is the
        checksum of the frame the frame is processed and the cursor seeks back. */
    method ParseFrameByte(inputData: byte, now: nat)
      requires Valid() && foundStart
      modifies this, storedInputData
      ensures Valid()
      ensures scan == Step(framing, old(scan), inputData)
      ensures storedInputData[old(bytesRead)] == inputData
      ensures forall k :: 0 <= k < storedInputData.Length && k != old(bytesRead) ==>
                storedInputData[k] == old(storedInputData[k])
      ensures old(dataLength >= 0 && bytesRead == dataLength + 5) ==>
                && var f := storedInputData[..old(bytesRead) + 1];
                   && scan.frames == old(scan.frames) + [f]
                   && FrameShape(framing, f)
                   && Session() == OnFrame(old(Session()), maps, framing, f, storedInputData[5..], now)
                   && Decoder() == Cursor(false, 0, -1, 0)
      ensures !old(dataLength >= 0 && bytesRead == dataLength + 5) ==>
                scan.frames == old(scan.frames) && Session() == old(Session())
    {
      var complete := StoreFrameByte(inputData);
      if complete {
        ProcessDataPacket(now);
        InitBytePointer();
      }
      scan := Step(framing, scan, inputData);
    }

    /** The first part of ParseFrameByte, up to the processing of a complete frame: the
        byte is stored at `bytesRead` and the header checked; a frame that cannot fit the
        buffer is dropped, and otherwise the cursor moves on unless this byte is the
        checksum, in which case `complete` is set and the cursor is left on it. */
    method StoreFrameByte(inputData: byte) returns (complete: bool)
      requires Sized() && foundStart && PendingShape(framing, scan.pending) && Tracks(scan.pending)
      modifies storedInputData, this`foundStart, this`bytesRead, this`dataLength, this`command
      ensures complete <==> old(dataLength >= 0 && bytesRead == dataLength + 5)
      ensures storedInputData[old(bytesRead)] == inputData
      ensures forall k :: 0 <= k < storedInputData.Length && k != old(bytesRead) ==>
                storedInputData[k] == old(storedInputData[k])
      ensures complete ==>
                var q := scan.pending + [inputData];
                && Step(framing, scan, inputData) == Scan(scan.frames + [q], [])
                && FrameShape(framing, q)
                && storedInputData[..|q|] == q
                && foundStart && bytesRead == |q| - 1 && dataLength == q[4] && command == HeaderCommand(framing, q)
      ensures !complete ==>
                var next := Step(framing, scan, inputData);
                && next.frames == scan.frames
                && PendingShape(framing, next.pending)
                && Tracks(next.pending)
    {
      ghost var q := scan.pending + [inputData];
      ghost var next := Step(framing, scan, inputData);
      storedInputData[bytesRead] := inputData;
      assert storedInputData[..bytesRead + 1] == q;
      CheckHeader(inputData);
      HeaderOfNextByte(framing, scan.pending, inputData);
      complete := false;
      if dataLength != -1 {
        if dataLength + 5 >= storedInputData.Length {
          // the declared frame cannot fit the buffer
          assert next == Scan(scan.frames, []) by { StepInFrame(framing, scan, inputData); }
          InitBytePointer();
        } else if bytesRead == dataLength + 5 {
          assert next == Scan(scan.frames + [q], []) && FrameShape(framing, q) by {
            StepInFrame(framing, scan, inputData);
          }
          complete := true;
        } else {
          assert next == Scan(scan.frames, q) && PendingShape(framing, q) by {
            StepInFrame(framing, scan, inputData);
          }
          bytesRead := bytesRead + 1;
        }
      } else {
        assert next == Scan(scan.frames, q) && PendingShape(framing, q) by {
          StepInFrame(framing, scan, inputData);
        }
        bytesRead := bytesRead + 1;
      }
    }

    /** At index 4 the header is complete: the length is taken from byte 4 and, when bytes
        2 and 3 carry the protocol id, the command from byte 1. */
    method CheckHeader(inputData: byte)
      requires Sized() && 0 <= bytesRead < storedInputData.Length
      modifies this`dataLength, this`command
      ensures bytesRead == 4 ==> dataLength == storedInputData[4]
      ensures bytesRead == 4 ==>
                command == if storedInputData[2] == framing.idHi && storedInputData[3] == framing.idLo
                           then storedInputData[1] else old(command)
      ensures bytesRead != 4 ==> dataLength == old(dataLength) && command == old(command)
    {
      if bytesRead == 4 {
        if storedInputData[2] == framing.idHi && storedInputData[3] == framing.idLo {
          command := storedInputData[1];
        }
        dataLength := storedInputData[4];
      }
    }

    /** The checksum check: the byte at `bytesRead` against 0xFC minus the 8-bit sum of the
        first dataLength + 5 bytes. */
    method CheckSum() returns (ok: bool)
      requires 0 <= dataLength && dataLength + 5 <= storedInputData.Length
      requires 0 <= bytesRead < storedInputData.Length
      ensures ok <==> storedInputData[bytesRead] == ChecksumOf(storedInputData[..dataLength + 5])
    {
      var packetCheckSum := storedInputData[bytesRead];
      var processedCS: byte := 0;
      for i := 0 to dataLength + 5
        invariant processedCS == Sum(storedInputData[..i]) % 256
      {
        assert storedInputData[..i + 1][..i] == storedInputData[..i];
        ResidueSteps(Sum(storedInputData[..i]), storedInputData[i]);
        processedCS := (processedCS + storedInputData[i]) % 256;
      }
      ResidueSteps(Sum(storedInputData[..dataLength + 5]), CHECKSUM_BASE);
      processedCS := (CHECKSUM_BASE - processedCS) % 256;
      ok := packetCheckSum == processedCS;
    }

    /** A complete frame, held at the front of the buffer: dispatched only when its
        checksum matches, and then its arrival time recorded; a frame with a bad checksum
        changes nothing. */
    method ProcessDataPacket(now: nat)
      requires Sized()
      requires 0 <= dataLength && bytesRead == dataLength + 5 < storedInputData.Length
      requires dataLength == storedInputData[4]
      requires command == HeaderCommand(framing, storedInputData[..bytesRead + 1])
      modifies this`lastResponseMs, this`isHeatpumpConnected, this`tempMode, this`wideVaneAdj,
               this`firstRun, this`nonResponseCounter, this`functions, this`currentStatus,
               this`currentTemperature, this`wantedSettings, this`currentSettings, this`targetTemperature
      ensures Session() == OnFrame(old(Session()), maps, framing, storedInputData[..bytesRead + 1],
                                   storedInputData[5..], now)
      ensures Bookkept(old(wantedSettings)) ==> Bookkept(wantedSettings)
    {
      ghost var st := Session();
      ghost var f := storedInputData[..bytesRead + 1];
      ghost var data := storedInputData[5..];
      assert f[..bytesRead] == storedInputData[..dataLength + 5];
      var ok := CheckSum();
      assert ok == ChecksumOk(f);
      if ok {
        lastResponseMs := now;
        ghost var stamped := Session();
        assert stamped == st.(lastResponseMs := now);
        ProcessCommand();
        assert Session() == Dispatch(stamped, maps, HeaderCommand(framing, f), f[4], data);
      }
      if Bookkept(st.wantedSettings) {
        BookkeepingKept(st, maps, framing, f, data, now, Vane.Auto);
      }
    }

    /** Route a frame by its command: acknowledgement, data, or handshake reply. */
    method ProcessCommand()
      requires Sized() && 0 <= dataLength && dataLength + 6 <= storedInputData.Length
      modifies this`isHeatpumpConnected, this`tempMode, this`wideVaneAdj, this`firstRun, this`nonResponseCounter, this`functions,
               this`currentStatus, this`currentTemperature, this`wantedSettings, this`currentSettings, this`targetTemperature
      ensures Session() == Dispatch(old(Session()), maps, command, dataLength, storedInputData[5..])
    {
      if command == ACK {
        UpdateSuccess();
      } else if command == DATA {
        GetDataFromResponsePacket();
      } else if command == HANDSHAKE {
        isHeatpumpConnected := true;
      }
    }

    /** Route a data frame by its sub-type, data[0]. */
    method GetDataFromResponsePacket()
      requires Sized() && 0 <= dataLength && dataLength + 6 <= storedInputData.Length
      modifies this`tempMode, this`wideVaneAdj, this`firstRun, this`nonResponseCounter, this`functions,
               this`currentStatus, this`currentTemperature, this`wantedSettings, this`currentSettings, this`targetTemperature
      ensures Session() == OnData(old(Session()), maps, dataLength, storedInputData[5..])
    {
      var data := storedInputData[5..];
      var receivedStatus := HeatpumpStatus(false, 0, 0);
      var statusDidChange := false;
      if data[0] == SETTINGS {
        SettingsReceived();
      } else if data[0] == ROOM_TEMPERATURE {
        receivedStatus := HeatpumpStatus(currentStatus.operating, currentStatus.compressorFrequency,
                                         DecodeRoomTemperature(maps, data));
        statusDidChange := true;
      } else if data[0] == STATUS {
        nonResponseCounter := 0;
        receivedStatus := HeatpumpStatus(data[4] != 0, data[3], currentStatus.roomTemperature);
        statusDidChange := true;
      } else if data[0] == FUNCTIONS_1 || data[0] == FUNCTIONS_2 {
        if dataLength == FUNCTIONS_LEN {
          if data[0] == FUNCTIONS_1 {
            functions := functions.(block1 := Some(data[1..FUNCTIONS_LEN]));
          } else {
            functions := functions.(block2 := Some(data[1..FUNCTIONS_LEN]));
          }
        }
      } else {
      }
      if statusDidChange {
        StatusChanged(receivedStatus);
      }
    }

    /** The settings branch of getDataFromResponsePacket (sub-type 0x02). */
    method SettingsReceived()
      requires Sized() && 12 <= storedInputData.Length - 5
      modifies this`tempMode, this`wideVaneAdj, this`firstRun, this`wantedSettings, this`currentSettings,
               this`targetTemperature
      ensures Session() == OnSettings(old(Session()), maps, storedInputData[5..])
    {
      var data := storedInputData[5..];
      var receivedSettings := DecodeSettings(maps, data);
      if data[11] != 0 {
        tempMode := true;
      }
      wideVaneAdj := WideVaneAdjusted(data[10]);
      ghost var marked := Session();
      if firstRun {
        wantedSettings := WantedSettings(receivedSettings, false, false, 0);
        firstRun := false;
      }
      ghost var seeded := Session();
      HeatpumpUpdate(receivedSettings);
      assert Session() == HeatpumpUpdated(seeded, receivedSettings);
      assert seeded == if marked.firstRun then marked.(wantedSettings := Seeded(receivedSettings), firstRun := false) else marked;
    }

    /** The acknowledgement of a write (command 0x61). */
    method UpdateSuccess()
      modifies this`currentTemperature, this`wantedSettings, this`currentSettings, this`targetTemperature
      ensures Session() == AfterAck(old(Session()))
    {
      if wantedSettings.hasChanged {
        wantedSettings := wantedSettings.(hasChanged := false, hasBeenSent := false, deferredRequests := 0);
        WantedSettingsUpdateSuccess(wantedSettings.settings);
      } else {
        ExtTempUpdateSuccess();
      }
    }

    /** The acknowledged wanted settings are shown and become the current settings. */
    method WantedSettingsUpdateSuccess(settings: HeatpumpSettings)
      modifies this`currentSettings, this`targetTemperature
      ensures currentSettings == wantedSettings.settings
      ensures targetTemperature == Some(settings.temperature)
    {
      PublishStateToHA(settings);
      currentSettings := wantedSettings.settings;
    }

    /** The acknowledgement of an external temperature write: the room temperature the
        status already holds is shown. */
    method ExtTempUpdateSuccess()
      modifies this`currentTemperature
      ensures currentTemperature == Some(currentStatus.roomTemperature)
    {
      currentTemperature := Some(currentStatus.roomTemperature);
    }

    /** Settings reported by the unit against the wanted ones. */
    method HeatpumpUpdate(settings: HeatpumpSettings)
      modifies this`wantedSettings, this`currentSettings, this`targetTemperature
      ensures Session() == HeatpumpUpdated(old(Session()), settings)
    {
      if SameSettings(settings, wantedSettings.settings) {
        wantedSettings := wantedSettings.(hasChanged := false);
        wantedSettings := wantedSettings.(hasBeenSent := false);
        wantedSettings := wantedSettings.(deferredRequests := 0);
      } else if !wantedSettings.hasChanged {
        // not a local change in flight: the infrared remote changed the settings
        PublishStateToHA(settings);
      }
    }

    /** Show the settings and take them into currentSettings, the wide vane aside. */
    method PublishStateToHA(settings: HeatpumpSettings)
      modifies this`currentSettings, this`targetTemperature
      ensures currentSettings == Published(old(currentSettings), settings)
      ensures targetTemperature == Some(settings.temperature)
    {
      CheckPowerAndModeSettings(settings);
      CheckFanSettings(settings);
      CheckVaneSettings(settings);
      targetTemperature := Some(settings.temperature);
      currentSettings := currentSettings.(temperature := settings.temperature, iSee := settings.iSee,
                                          connected := true);
    }

    method CheckPowerAndModeSettings(settings: HeatpumpSettings)
      modifies this`currentSettings
      ensures currentSettings == old(currentSettings).(power := settings.power, mode := settings.mode)
    {
      if HasChanged(currentSettings.power, settings.power) || HasChanged(currentSettings.mode, settings.mode) {
        currentSettings := currentSettings.(power := settings.power, mode := settings.mode);
      }
    }

    method CheckFanSettings(settings: HeatpumpSettings)
      modifies this`currentSettings
      ensures currentSettings == old(currentSettings).(fan := settings.fan)
    {
      if HasChanged(currentSettings.fan, settings.fan) {
        currentSettings := currentSettings.(fan := settings.fan);
      }
    }

    method CheckVaneSettings(settings: HeatpumpSettings)
      modifies this`currentSettings
      ensures currentSettings == old(currentSettings).(vane := settings.vane)
    {
      if HasChanged(currentSettings.vane, settings.vane) {
        currentSettings := currentSettings.(vane := settings.vane);
      }
    }

    /** A new status replaces the current one; the room temperature is shown. */
    method StatusChanged(status: HeatpumpStatus)
      modifies this`currentStatus, this`currentTemperature
      ensures currentStatus == status
      ensures currentTemperature == Some(status.roomTemperature)
    {
      currentStatus := currentStatus.(operating := status.operating);
      currentStatus := currentStatus.(compressorFrequency := status.compressorFrequency);
      currentStatus := currentStatus.(roomTemperature := status.roomTemperature);
      currentTemperature := Some(currentStatus.roomTemperature);
    }

    /** The vane selector's request: the chosen position becomes wanted and a change is
        pending, not yet sent. */
    method ControlVane(value: Vane)
      requires Valid()
      modifies this`wantedSettings
      ensures Valid()
      ensures Session() == AfterVaneRequest(old(Session()), value)
    {
      wantedSettings := wantedSettings.(settings := wantedSettings.settings.(vane := value));
      wantedSettings := wantedSettings.(hasChanged := true);
      wantedSettings := wantedSettings.(hasBeenSent := false);
    }
  }
}
