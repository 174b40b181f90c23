/** The BLE command link of command_sender.py: the payload written for a
    command, the choice of adapter, and the scan-until-found search for the
    robot's peripheral. Radio behaviour (scanning, connecting, writing) is
    not modelled: a scan is a given list of peripherals and a write is a
    record of what would be written. */
module Transport {
  import opened Wrappers

  newtype byte = x: int | 0 <= x < 256

  /** The one service/characteristic pair every command is written to. */
  const SERVICE_UUID: string := "1ae49b08-b750-4ef7-afd8-5395763c0da6"
  const CHARACTERISTIC_UUID: string := "19b10011-e8f2-537e-4f6c-d104768a1214"

  /** The peripheral name searched for when the caller gives none. */
  const DEFAULT_DEVICE_NAME: string := "Arduino_Robotics"

  /** The byte `'?'` that replaces every character ASCII cannot encode. */
  const REPLACEMENT: byte := 0x3F

  predicate IsAscii(s: string) {
    forall k :: 0 <= k < |s| ==> s[k] as int < 128
  }

  function EncodeChar(c: char): byte {
    if c as int < 128 then c as int as byte else REPLACEMENT
  }

  /** `command.encode('ascii', 'replace')`: one byte per character. */
  function EncodeAscii(s: string): (r: seq<byte>)
    ensures |r| == |s|
  {
    if |s| == 0 then [] else [EncodeChar(s[0])] + EncodeAscii(s[1..])
  }

  /** Position by position, an ASCII character becomes its own code and any
      other character becomes `'?'`, so every byte written is below 128. */
  lemma {:induction false} EncodeAsciiChars(s: string)
    ensures forall k :: 0 <= k < |s| && s[k] as int < 128 ==> EncodeAscii(s)[k] as int == s[k] as int
    ensures forall k :: 0 <= k < |s| && s[k] as int >= 128 ==> EncodeAscii(s)[k] == REPLACEMENT
    ensures forall k :: 0 <= k < |s| ==> EncodeAscii(s)[k] < 128
    decreases |s|
  {
    if |s| > 0 {
      EncodeAsciiChars(s[1..]);
      var e := EncodeAscii(s);
      assert e[0] == EncodeChar(s[0]);
      assert forall k :: 1 <= k < |s| ==> e[k] == EncodeAscii(s[1..])[k - 1];
    }
  }

  /** A reference strict ASCII decoder for the payload: `None` when a byte is
      128 or above. */
  function DecodeAscii(b: seq<byte>): Option<string> {
    if |b| == 0 then Some([])
    else if b[0] >= 128 then None
    else
      match DecodeAscii(b[1..])
      case None => None
      case Some(rest) => Some([b[0] as int as char] + rest)
  }

  /** The payload always decodes, and decodes back to the command exactly when
      the command is pure ASCII. */
  lemma {:induction false} AsciiRoundTrip(s: string)
    ensures DecodeAscii(EncodeAscii(s)).Some?
    ensures DecodeAscii(EncodeAscii(s)) == Some(s) <==> IsAscii(s)
    decreases |s|
  {
    if |s| > 0 {
      var e := EncodeAscii(s);
      assert e[1..] == EncodeAscii(s[1..]);
      AsciiRoundTrip(s[1..]);
      var d := DecodeAscii(e).value;
      if IsAscii(s) {
        assert IsAscii(s[1..]);
        assert s == [s[0]] + s[1..];
      } else if s[0] as int < 128 {
        assert !IsAscii(s[1..]);
        assert d[1..] == DecodeAscii(e[1..]).value;
      } else {
        assert d[0] == '?';
      }
    }
  }

  /** A confirmed write on the link. */
  datatype WriteRequest = WriteRequest(service: string, characteristic: string, payload: seq<byte>)

  /** `send_command`: the write issued for `command`, on the fixed
      service/characteristic pair whatever the command. */
  function SendCommand(command: string): (w: WriteRequest)
    ensures w.service == SERVICE_UUID && w.characteristic == CHARACTERISTIC_UUID
    ensures |w.payload| == |command|
  {
    WriteRequest(SERVICE_UUID, CHARACTERISTIC_UUID, EncodeAscii(command))
  }

  /** Every payload written is valid ASCII, and it decodes back to the very
      command exactly when the command is pure ASCII. */
  lemma SendCommandDecodes(command: string)
    ensures DecodeAscii(SendCommand(command).payload).Some?
    ensures DecodeAscii(SendCommand(command).payload) == Some(command) <==> IsAscii(command)
  {
    AsciiRoundTrip(command);
  }

  datatype Adapter = Adapter(identifier: string, address: string)

  /** `get_adapter`: no adapter gives `None`; one adapter is taken without a
      question; with several, the operator's `choice` indexes the list the
      way Python does (negative indices count from the end) and an index out
      of range raises `IndexError`, reported here as `Err(choice)`. */
  function GetAdapter(adapters: seq<Adapter>, choice: int): (r: Result<Option<Adapter>, int>)
    ensures |adapters| == 0 ==> r == Ok(None)
    ensures |adapters| == 1 ==> r == Ok(Some(adapters[0]))
    ensures |adapters| > 1 ==> (r.Ok? <==> -|adapters| <= choice < |adapters|)
    ensures |adapters| > 1 && r.Ok? ==> r.value.Some?
    ensures |adapters| > 1 && 0 <= choice < |adapters| ==> r == Ok(Some(adapters[choice]))
    ensures |adapters| > 1 && -|adapters| <= choice < 0 ==> r == Ok(Some(adapters[|adapters| + choice]))
    ensures r.Err? ==> r.error == choice
  {
    if |adapters| == 0 then Ok(None)
    else if |adapters| == 1 then Ok(Some(adapters[0]))
    else if 0 <= choice < |adapters| then Ok(Some(adapters[choice]))
    else if -|adapters| <= choice < 0 then Ok(Some(adapters[|adapters| + choice]))
    else Err(choice)
  }

  /** The operator is only consulted when there is more than one adapter, and
      whatever is picked is one of the adapters. */
  lemma ChoiceMattersOnlyForSeveral(adapters: seq<Adapter>, c1: int, c2: int)
    ensures |adapters| <= 1 ==> GetAdapter(adapters, c1) == GetAdapter(adapters, c2)
    ensures GetAdapter(adapters, c1).Ok? && GetAdapter(adapters, c1).value.Some? ==> GetAdapter(adapters, c1).value.value in adapters
  {
  }

  datatype Peripheral = Peripheral(identifier: string, address: string)

  /** Position of the first peripheral of one scan window whose identifier is
      `name`. */
  function FirstMatch(window: seq<Peripheral>, name: string): (r: Option<nat>)
    ensures r.Some? ==> r.value < |window| && window[r.value].identifier == name
    ensures r.Some? ==> forall j :: 0 <= j < r.value ==> window[j].identifier != name
    ensures r.None? ==> forall j :: 0 <= j < |window| ==> window[j].identifier != name
  {
    if |window| == 0 then None
    else if window[0].identifier == name then Some(0)
    else
      match FirstMatch(window[1..], name)
      case None => None
      case Some(i) => Some(i + 1)
  }

  /** Where the search stops: the window index and the peripheral chosen. */
  datatype Found = Found(window: nat, peripheral: Peripheral)

  /** The first window holding a match, and in it the first match. `None`
      when no window matches: the source would then keep scanning forever. */
  function Discover(windows: seq<seq<Peripheral>>, name: string): (r: Option<Found>)
    ensures r.Some? ==> r.value.window < |windows| && r.value.peripheral.identifier == name
    ensures r.Some? ==> var i := FirstMatch(windows[r.value.window], name);
                        i.Some? && r.value.peripheral == windows[r.value.window][i.value]
    ensures r.Some? ==> forall k :: 0 <= k < r.value.window ==> FirstMatch(windows[k], name).None?
    ensures r.None? <==> forall k :: 0 <= k < |windows| ==> FirstMatch(windows[k], name).None?
  {
    if |windows| == 0 then None
    else
      match FirstMatch(windows[0], name)
      case Some(i) => Some(Found(0, windows[0][i]))
      case None =>
        match Discover(windows[1..], name)
        case None => None
        case Some(f) => Some(Found(f.window + 1, f.peripheral))
  }

  /** `get_peripheral` as the source writes it: scan window after window and
      stop at the first peripheral whose identifier is `name`. Returns the
      peripheral to connect to and the number of scans performed. */
  method GetPeripheral(windows: seq<seq<Peripheral>>, name: string) returns (found: Option<Peripheral>, scans: nat)
    ensures found.Some? <==> Discover(windows, name).Some?
    ensures found.Some? ==> found.value == Discover(windows, name).value.peripheral
    ensures found.Some? ==> scans == Discover(windows, name).value.window + 1
    ensures found.None? ==> scans == |windows|
  {
    scans := 0;
    while scans < |windows|
      invariant scans <= |windows|
      invariant forall k :: 0 <= k < scans ==> FirstMatch(windows[k], name).None?
    {
      var peripherals := windows[scans];
      var j := 0;
      while j < |peripherals|
        invariant j <= |peripherals|
        invariant forall i :: 0 <= i < j ==> peripherals[i].identifier != name
      {
        if peripherals[j].identifier == name {
          assert FirstMatch(peripherals, name) == Some(j);
          found := Some(peripherals[j]);
          scans := scans + 1;
          return;
        }
        j := j + 1;
      }
      scans := scans + 1;
    }
    found := None;
  }
}
