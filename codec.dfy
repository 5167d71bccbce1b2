/** The hub's pure protocol logic: clamping, the volume unit conversion,
    the frame encoder with its four command builders, and the zone-info
    decoder. */
module Codec {
  import opened Wrappers
  import opened Text
  import opened Constants

  // ---------------------------------------------------------------- numbers

  /** max(lo, min(hi, x)) */
  function Clamp(x: int, lo: int, hi: int): (r: int)
    requires lo <= hi
    ensures lo <= r <= hi
    ensures lo <= x <= hi ==> r == x
    ensures x < lo ==> r == lo
    ensures x > hi ==> r == hi
  {
    if x < lo then lo else if x > hi then hi else x
  }

  /** Python's round() of the exact quotient n / d: round half to even. */
  function RoundHalfEven(n: int, d: int): (r: int)
    requires d > 0
    ensures -d <= 2 * (n - d * r) <= d
    ensures 2 * (n - d * r) == d || 2 * (n - d * r) == -d ==> r % 2 == 0
  {
    var q, rem := n / d, n % d;
    assert n == d * q + rem;
    assert d * (q + 1) == d * q + d;
    if 2 * rem < d then q
    else if 2 * rem > d then q + 1
    else if q % 2 == 0 then q
    else q + 1
  }

  lemma {:induction false} MulGrows(d: int, k: int)
    requires d > 0 && k >= 1
    ensures d * k >= d
  {
    if k > 1 {
      MulGrows(d, k - 1);
      assert d * k == d * (k - 1) + d;
    }
  }

  lemma MulDistrib(d: int, a: int, b: int)
    ensures d * a - d * b == d * (a - b)
  {
  }

  lemma MulSteps(d: int, k: int)
    requires d > 0
    ensures k >= 1 ==> d * k >= d
    ensures k >= 2 ==> d * k >= 2 * d
    ensures k <= -1 ==> d * k <= -d
    ensures k <= -2 ==> d * k <= -2 * d
  {
    if k >= 1 {
      MulGrows(d, k);
      if k >= 2 {
        MulGrows(d, k - 1);
        assert d * k == d * (k - 1) + d;
      }
    } else if k <= -1 {
      MulGrows(d, -k);
      if k <= -2 {
        MulGrows(d, -k - 1);
        assert d * (-k) == d * (-k - 1) + d;
      }
      assert d * (-k) == -(d * k);
    }
  }

  /** Any integer that is a nearest one to n / d, and even on a tie, is
      RoundHalfEven(n, d): the two properties determine the rounding. */
  lemma RoundHalfEvenUnique(n: int, d: int, u: int)
    requires d > 0
    requires -d <= 2 * (n - d * u) <= d
    requires 2 * (n - d * u) == d || 2 * (n - d * u) == -d ==> u % 2 == 0
    ensures u == RoundHalfEven(n, d)
  {
    var r := RoundHalfEven(n, d);
    MulDistrib(d, r, u);
    MulSteps(d, r - u);
  }

  /** Rounding is monotone in the numerator. */
  lemma RoundHalfEvenMonotone(n1: int, n2: int, d: int)
    requires d > 0 && n1 <= n2
    ensures RoundHalfEven(n1, d) <= RoundHalfEven(n2, d)
  {
    var r1, r2 := RoundHalfEven(n1, d), RoundHalfEven(n2, d);
    MulDistrib(d, r1, r2);
    MulSteps(d, r1 - r2);
  }

  /** The device's volume in attenuation steps for a UI percent:
      round((100 - p) * 70 / 100) with p clamped to 0..100. */
  function VolumeUnits(percent: int): (u: int)
    ensures 0 <= u <= 70
    ensures percent >= 100 ==> u == 0
    ensures percent <= 0 ==> u == 70
  {
    RoundHalfEven((100 - Clamp(percent, 0, 100)) * 70, 100)
  }

  /** VolumeUnits rounds the exact value (100 - p) * 7 / 10 to the nearest
      step, ties to the even step. */
  lemma VolumeUnitsNearest(percent: int)
    requires 0 <= percent <= 100
    ensures var n, u := (100 - percent) * 7, VolumeUnits(percent);
      -5 <= n - 10 * u <= 5 && (n - 10 * u == 5 || n - 10 * u == -5 ==> u % 2 == 0)
  {
  }

  /** The mapping is inverted: a louder percent never gives more attenuation. */
  lemma VolumeUnitsAntitone(p1: int, p2: int)
    requires p1 <= p2
    ensures VolumeUnits(p1) >= VolumeUnits(p2)
  {
    RoundHalfEvenMonotone((100 - Clamp(p2, 0, 100)) * 70, (100 - Clamp(p1, 0, 100)) * 70, 100);
  }

  /** The half-way percents round to the even step. */
  lemma VolumeUnitsExamples()
    ensures VolumeUnits(75) == 18 && VolumeUnits(85) == 10
    ensures VolumeUnits(95) == 4 && VolumeUnits(5) == 66
    ensures VolumeUnits(150) == 0 && VolumeUnits(-20) == 70
  {
  }

  // ---------------------------------------------------------------- encoder

  /** "|" + a for every argument, concatenated. */
  function PipePrefixed(args: seq<string>): string
  {
    if args == [] then "" else "|" + args[0] + PipePrefixed(args[1..])
  }

  /** The request frame #|dest|src|cmd|args...|U|CRLF. */
  function Build(deviceId: string, sourceId: string, command: string, args: seq<string>): string
  {
    Join(["#", deviceId, sourceId, command] + args, '|') + "|U|" + SendEol
  }

  lemma {:induction false} JoinPipePrefixed(head: string, args: seq<string>)
    ensures Join([head] + args, '|') == head + PipePrefixed(args)
    decreases |args|
  {
    if args != [] {
      assert ([head] + args)[1..] == [args[0]] + args[1..];
      JoinPipePrefixed(args[0], args[1..]);
    }
  }

  lemma PipePrefixedCons(a: string, rest: seq<string>)
    ensures PipePrefixed([a] + rest) == "|" + a + PipePrefixed(rest)
  {
    assert ([a] + rest)[1..] == rest;
  }

  lemma FrameConcat(deviceId: string, sourceId: string, command: string, rest: string)
    ensures "#" + ("|" + deviceId + ("|" + sourceId + ("|" + command + rest)))
      == "#|" + deviceId + "|" + sourceId + "|" + command + rest
  {
  }

  lemma HeaderCons(deviceId: string, sourceId: string, command: string, args: seq<string>)
    ensures ["#", deviceId, sourceId, command] + args == ["#"] + ([deviceId] + ([sourceId] + ([command] + args)))
  {
  }

  /** The frame is the marker, the two ids and the command, each argument
      behind its own "|", then "|U|" and CR LF. */
  lemma BuildLayout(deviceId: string, sourceId: string, command: string, args: seq<string>)
    ensures Build(deviceId, sourceId, command, args)
      == "#|" + deviceId + "|" + sourceId + "|" + command + PipePrefixed(args) + "|U|\r\n"
  {
    var r3 := [command] + args;
    var r2 := [sourceId] + r3;
    var r1 := [deviceId] + r2;
    HeaderCons(deviceId, sourceId, command, args);
    JoinPipePrefixed("#", r1);
    PipePrefixedCons(deviceId, r2);
    PipePrefixedCons(sourceId, r3);
    PipePrefixedCons(command, args);
    FrameConcat(deviceId, sourceId, command, PipePrefixed(args));
  }

  lemma OneArgConcat(head: string, arg: string)
    ensures head + PipePrefixed([arg]) + "|U|\r\n" == head + "|" + arg + "|U|\r\n"
  {
    assert PipePrefixed([arg]) == "|" + arg;
  }

  /** A frame with one argument. */
  lemma BuildOneArg(deviceId: string, sourceId: string, command: string, arg: string)
    ensures Build(deviceId, sourceId, command, [arg])
      == "#|" + deviceId + "|" + sourceId + "|" + command + "|" + arg + "|U|\r\n"
  {
    BuildLayout(deviceId, sourceId, command, [arg]);
    OneArgConcat("#|" + deviceId + "|" + sourceId + "|" + command, arg);
  }

  /** "SV" + str(zone), argument: the rounded inverted volume. */
  function SetVolumeFrame(deviceId: string, sourceId: string, zone: int, percent: int): string
  {
    Build(deviceId, sourceId, "SV" + IntToString(zone), [IntToString(VolumeUnits(percent))])
  }

  /** "SM" + zone as two digits, argument "1" when muted and "0" otherwise. */
  function SetMuteFrame(deviceId: string, sourceId: string, zone: int, muted: bool): string
  {
    Build(deviceId, sourceId, "SM" + ZeroPad2(zone), [if muted then "1" else "0"])
  }

  /** "SR" + str(zone), argument: the source index clamped to 0..8. */
  function SetSourceFrame(deviceId: string, sourceId: string, zone: int, sourceIndex: int): string
  {
    Build(deviceId, sourceId, "SR" + IntToString(zone), [IntToString(Clamp(sourceIndex, 0, 8))])
  }

  /** "GZI" + zone as two digits, argument "0". */
  function ZoneInfoFrame(deviceId: string, sourceId: string, zone: int): string
  {
    Build(deviceId, sourceId, "GZI" + ZeroPad2(zone), ["0"])
  }

  // ---------------------------------------------------------------- decoder

  /** The characters stripped from both ends of a reply before splitting. */
  const Noise: set<char> := {'|', '\r', '\n'}

  /** text.strip("|\r\n").split("|") */
  function Tokens(text: string): seq<string>
  {
    Split(Strip(text, Noise), '|')
  }

  /** The frame is its fields, "U" included, joined by "|", then "|" CR LF. */
  lemma BuildFields(deviceId: string, sourceId: string, command: string, args: seq<string>)
    ensures var fields := ["#", deviceId, sourceId, command] + args + ["U"];
      Build(deviceId, sourceId, command, args) == Join(fields, '|') + "|\r\n"
      && Join(fields, '|')[0] == '#' && Join(fields, '|')[|Join(fields, '|')| - 1] == 'U'
  {
    var parts := ["#", deviceId, sourceId, command] + args;
    JoinSnoc(parts, "U", '|');
    var body := Join(parts + ["U"], '|');
    assert body == Join(parts, '|') + "|U";
    JoinPipePrefixed("#", parts[1..]);
    assert parts == ["#"] + parts[1..];
  }

  /** A frame splits back into its fields, with the trailing "U". */
  lemma BuildTokens(deviceId: string, sourceId: string, command: string, args: seq<string>)
    requires '|' !in deviceId && '|' !in sourceId && '|' !in command
    requires forall i :: 0 <= i < |args| ==> '|' !in args[i]
    ensures var frame := Build(deviceId, sourceId, command, args);
      var fields := ["#", deviceId, sourceId, command] + args + ["U"];
      Tokens(frame) == fields
  {
    var fields := ["#", deviceId, sourceId, command] + args + ["U"];
    forall i | 0 <= i < |fields| ensures '|' !in fields[i] {
      if 4 <= i < |fields| - 1 { assert fields[i] == args[i - 4]; }
    }
    SplitJoin(fields, '|');
    BuildFields(deviceId, sourceId, command, args);
    var body := Join(fields, '|');
    StripFramed(body, "|\r\n", Noise);
  }

  /** Stripping the whitespace from a frame, as the hub does with every line
      it reads, leaves the same fields to the decoder. */
  lemma StrippedFrameTokens(deviceId: string, sourceId: string, command: string, args: seq<string>)
    ensures var frame := Build(deviceId, sourceId, command, args);
      Tokens(Strip(frame, Whitespace)) == Tokens(frame)
  {
    var fields := ["#", deviceId, sourceId, command] + args + ["U"];
    BuildFields(deviceId, sourceId, command, args);
    var body := Join(fields, '|');
    StripFramed(body, "|\r\n", Noise);
    assert body + "|\r\n" == (body + "|") + "\r\n";
    StripFramed(body + "|", "\r\n", Whitespace);
    StripFramed(body, "|", Noise);
  }

  lemma OneArgFields(deviceId: string, sourceId: string, command: string, arg: string)
    ensures ["#", deviceId, sourceId, command] + [arg] + ["U"] == ["#", deviceId, sourceId, command, arg, "U"]
  {
  }

  /** A frame with one argument splits back into six fields. */
  lemma OneArgTokens(deviceId: string, sourceId: string, command: string, arg: string)
    requires '|' !in deviceId && '|' !in sourceId && '|' !in command && '|' !in arg
    ensures Tokens(Build(deviceId, sourceId, command, [arg])) == ["#", deviceId, sourceId, command, arg, "U"]
  {
    BuildTokens(deviceId, sourceId, command, [arg]);
    OneArgFields(deviceId, sourceId, command, arg);
  }

  lemma ConcatNoChar(a: string, b: string, c: char)
    requires c !in a && c !in b
    ensures c !in a + b
  {
  }

  lemma ZeroPad2NoSeparator(z: int, c: char)
    requires c != '-' && !IsDigit(c)
    ensures c !in ZeroPad2(z)
  {
    IntToStringNoSeparator(z, c);
    if 0 <= z < 10 {
      ConcatNoChar("0", IntToString(z), c);
    }
  }

  /** The fields the device reads from a set-volume frame. */
  lemma SetVolumeTokens(deviceId: string, sourceId: string, zone: int, percent: int)
    requires '|' !in deviceId && '|' !in sourceId
    ensures Tokens(SetVolumeFrame(deviceId, sourceId, zone, percent))
      == ["#", deviceId, sourceId, "SV" + IntToString(zone), IntToString(VolumeUnits(percent)), "U"]
  {
    IntToStringNoSeparator(zone, '|');
    ConcatNoChar("SV", IntToString(zone), '|');
    IntToStringNoSeparator(VolumeUnits(percent), '|');
    OneArgTokens(deviceId, sourceId, "SV" + IntToString(zone), IntToString(VolumeUnits(percent)));
  }

  /** The fields the device reads from a set-mute frame. */
  lemma SetMuteTokens(deviceId: string, sourceId: string, zone: int, muted: bool)
    requires '|' !in deviceId && '|' !in sourceId
    ensures Tokens(SetMuteFrame(deviceId, sourceId, zone, muted))
      == ["#", deviceId, sourceId, "SM" + ZeroPad2(zone), if muted then "1" else "0", "U"]
  {
    ZeroPad2NoSeparator(zone, '|');
    ConcatNoChar("SM", ZeroPad2(zone), '|');
    OneArgTokens(deviceId, sourceId, "SM" + ZeroPad2(zone), if muted then "1" else "0");
  }

  /** The fields the device reads from a set-source frame. */
  lemma SetSourceTokens(deviceId: string, sourceId: string, zone: int, sourceIndex: int)
    requires '|' !in deviceId && '|' !in sourceId
    ensures Tokens(SetSourceFrame(deviceId, sourceId, zone, sourceIndex))
      == ["#", deviceId, sourceId, "SR" + IntToString(zone), IntToString(Clamp(sourceIndex, 0, 8)), "U"]
  {
    IntToStringNoSeparator(zone, '|');
    ConcatNoChar("SR", IntToString(zone), '|');
    IntToStringNoSeparator(Clamp(sourceIndex, 0, 8), '|');
    OneArgTokens(deviceId, sourceId, "SR" + IntToString(zone), IntToString(Clamp(sourceIndex, 0, 8)));
  }

  /** The fields the device reads from a zone-info query frame. */
  lemma ZoneInfoTokens(deviceId: string, sourceId: string, zone: int)
    requires '|' !in deviceId && '|' !in sourceId
    ensures Tokens(ZoneInfoFrame(deviceId, sourceId, zone))
      == ["#", deviceId, sourceId, "GZI" + ZeroPad2(zone), "0", "U"]
  {
    ZeroPad2NoSeparator(zone, '|');
    ConcatNoChar("GZI", ZeroPad2(zone), '|');
    OneArgTokens(deviceId, sourceId, "GZI" + ZeroPad2(zone), "0");
  }

  lemma SetVolumeExampleFields()
    ensures "SV" + IntToString(2) == "SV2" && IntToString(VolumeUnits(75)) == "18"
  {
    VolumeUnitsExamples();
    assert IntToString(18) == "18";
  }

  /** Volume 75% on zone 2, with the default ids. */
  lemma SetVolumeFrameExample()
    ensures SetVolumeFrame("X001", "HA", 2, 75) == "#|X001|HA|SV2|18|U|\r\n"
  {
    SetVolumeExampleFields();
    BuildOneArg("X001", "HA", "SV2", "18");
  }

  /** Mute on zone 1, with the default ids. */
  lemma SetMuteFrameExample()
    ensures SetMuteFrame("X001", "HA", 1, true) == "#|X001|HA|SM01|1|U|\r\n"
  {
    PaddedZoneLiteral("SM", 1, "SM01");
    BuildOneArg("X001", "HA", "SM01", "1");
  }

  lemma SetSourceExampleFields()
    ensures "SR" + IntToString(3) == "SR3" && IntToString(Clamp(12, 0, 8)) == "8"
  {
  }

  /** Source 12 on zone 3 goes out as source 8. */
  lemma SetSourceFrameExample()
    ensures SetSourceFrame("X001", "HA", 3, 12) == "#|X001|HA|SR3|8|U|\r\n"
  {
    SetSourceExampleFields();
    BuildOneArg("X001", "HA", "SR3", "8");
  }

  lemma PaddedZoneLiteral(prefix: string, zone: int, cmd: string)
    requires 0 <= zone < 10 && cmd == prefix + ['0', DigitChar(zone)]
    ensures prefix + ZeroPad2(zone) == cmd
  {
  }

  /** The zone-info query for zone 3. */
  lemma ZoneInfoFrameExample()
    ensures ZoneInfoFrame("X001", "HA", 3) == "#|X001|HA|GZI03|0|U|\r\n"
  {
    PaddedZoneLiteral("GZI", 3, "GZI03");
    BuildOneArg("X001", "HA", "GZI03", "0");
  }

  /** A zone-info record as decoded from a reply. */
  datatype ZoneInfo = ZoneInfo(volumeDb: int, sourceIdx: int, mute: bool, bass: int, treble: int)

  /** The first index at or after `from` whose field starts with prefix. */
  function FindPrefixed(parts: seq<string>, prefix: string, from: nat): (r: Option<nat>)
    requires from <= |parts|
    ensures r.Some? ==> from <= r.value < |parts| && prefix <= parts[r.value]
    ensures r.Some? ==> forall j :: from <= j < r.value ==> !(prefix <= parts[j])
    ensures r.None? ==> forall j :: from <= j < |parts| ==> !(prefix <= parts[j])
    decreases |parts| - from
  {
    if from == |parts| then None
    else if prefix <= parts[from] then Some(from)
    else FindPrefixed(parts, prefix, from + 1)
  }

  /** FindPrefixed finds the first match. */
  lemma FindPrefixedFirst(parts: seq<string>, prefix: string, i: nat)
    requires i < |parts| && prefix <= parts[i]
    requires forall j :: 0 <= j < i ==> !(prefix <= parts[j])
    ensures FindPrefixed(parts, prefix, 0) == Some(i)
  {
  }

  /** Decodes the five ^-separated integers of a zone-info payload. */
  function ParsePayload(payload: string): (r: Option<ZoneInfo>)
    ensures r.Some? ==> 0 <= r.value.volumeDb <= 70 && 0 <= r.value.sourceIdx <= 8
  {
    var sub := Split(payload, '^');
    if |sub| != 5 then None
    else
      match (ParseInt(sub[0]), ParseInt(sub[1]), ParseInt(sub[2]), ParseInt(sub[3]), ParseInt(sub[4]))
      case (Some(vol), Some(route), Some(mute), Some(bass), Some(treble)) =>
        Some(ZoneInfo(Clamp(vol, 0, 70), Clamp(route, 0, 8), mute != 0, bass, treble))
      case _ => None
  }

  /** The zone-info reply decoder: the field after the first field starting
      with "ZI" is the payload; any failure gives the empty result. */
  function ParseGzi(text: string): (r: Option<ZoneInfo>)
    ensures r.Some? ==> 0 <= r.value.volumeDb <= 70 && 0 <= r.value.sourceIdx <= 8
  {
    var parts := Tokens(text);
    match FindPrefixed(parts, "ZI", 0)
    case None => None
    case Some(idx) =>
      if idx + 1 < |parts| then ParsePayload(parts[idx + 1]) else None
  }

  /** No field starts with "ZI": the empty result. */
  lemma ParseGziNoMarker(text: string)
    requires forall i :: 0 <= i < |Tokens(text)| ==> !("ZI" <= Tokens(text)[i])
    ensures ParseGzi(text) == None
  {
  }

  /** The first "ZI" field is the last field: the empty result. */
  lemma ParseGziMarkerLast(text: string)
    requires var t := Tokens(text); "ZI" <= t[|t| - 1]
    requires var t := Tokens(text); forall j :: 0 <= j < |t| - 1 ==> !("ZI" <= t[j])
    ensures ParseGzi(text) == None
  {
  }

  /** The payload does not split into exactly five parts: the empty result. */
  lemma ParseGziWrongArity(text: string, idx: nat)
    requires var t := Tokens(text); idx + 1 < |t| && "ZI" <= t[idx]
    requires var t := Tokens(text); forall j :: 0 <= j < idx ==> !("ZI" <= t[j])
    requires |Split(Tokens(text)[idx + 1], '^')| != 5
    ensures ParseGzi(text) == None
  {
    assert FindPrefixed(Tokens(text), "ZI", 0) == Some(idx);
  }

  /** One of the five parts is not an integer: the empty result. */
  lemma ParseGziNotInteger(text: string, idx: nat, k: nat)
    requires var t := Tokens(text); idx + 1 < |t| && "ZI" <= t[idx]
    requires var t := Tokens(text); forall j :: 0 <= j < idx ==> !("ZI" <= t[j])
    requires var sub := Split(Tokens(text)[idx + 1], '^'); |sub| == 5 && k < 5 && ParseInt(sub[k]) == None
    ensures ParseGzi(text) == None
  {
    assert FindPrefixed(Tokens(text), "ZI", 0) == Some(idx);
  }

  /** A well-formed payload decodes to its five values, volume and route
      clamped, mute as "nonzero". */
  lemma ParsePayloadFields(sub: seq<string>, vals: seq<int>)
    requires |sub| == 5 && |vals| == 5
    requires forall i :: 0 <= i < 5 ==> '^' !in sub[i] && ParseInt(sub[i]) == Some(vals[i])
    ensures ParsePayload(Join(sub, '^'))
      == Some(ZoneInfo(Clamp(vals[0], 0, 70), Clamp(vals[1], 0, 8), vals[2] != 0, vals[3], vals[4]))
  {
    SplitJoin(sub, '^');
  }

  lemma IntToStringNoSeparator(i: int, c: char)
    requires c != '-' && !IsDigit(c)
    ensures c !in IntToString(i)
  {
    var s := IntToString(i);
    if i < 0 {
      assert forall k :: 1 <= k < |s| ==> s[k] == NatToString(-i)[k - 1];
    }
  }

  /** A text that splits into #, dest, src, a ZI command, a payload and U
      decodes to whatever the payload decodes to. */
  lemma ParseGziReplyFields(text: string, dest: string, src: string, cmd: string, payload: string)
    requires Tokens(text) == ["#", dest, src, cmd, payload, "U"]
    requires "ZI" <= cmd && !("ZI" <= dest) && !("ZI" <= src)
    ensures ParseGzi(text) == ParsePayload(payload)
  {
    FindPrefixedFirst(Tokens(text), "ZI", 3);
  }

  /** A reply frame with a ZI command decodes to whatever its payload
      decodes to. */
  lemma ParseGziReplyPayload(dest: string, src: string, cmd: string, payload: string)
    requires '|' !in dest && '|' !in src && '|' !in cmd && '|' !in payload
    requires "ZI" <= cmd && !("ZI" <= dest) && !("ZI" <= src)
    ensures ParseGzi(Build(dest, src, cmd, [payload])) == ParsePayload(payload)
  {
    OneArgTokens(dest, src, cmd, payload);
    ParseGziReplyFields(Build(dest, src, cmd, [payload]), dest, src, cmd, payload);
  }

  /** A reply in the device's frame format, #|dest|src|ZI<zone>|payload|U|,
      decodes to exactly the payload's values (volume and route clamped). */
  lemma ParseGziDecodesReply(dest: string, src: string, zone: string, sub: seq<string>, vals: seq<int>)
    requires '|' !in dest && '|' !in src && '|' !in zone
    requires !("ZI" <= dest) && !("ZI" <= src)
    requires |sub| == 5 && |vals| == 5
    requires forall i :: 0 <= i < 5 ==> '^' !in sub[i] && '|' !in sub[i] && ParseInt(sub[i]) == Some(vals[i])
    ensures ParseGzi(Build(dest, src, "ZI" + zone, [Join(sub, '^')]))
      == Some(ZoneInfo(Clamp(vals[0], 0, 70), Clamp(vals[1], 0, 8), vals[2] != 0, vals[3], vals[4]))
  {
    JoinNoChar(sub, '^', '|');
    assert '|' !in "ZI" + zone;
    ParseGziReplyPayload(dest, src, "ZI" + zone, Join(sub, '^'));
    ParsePayloadFields(sub, vals);
  }

  lemma {:induction false} JoinNoChar(parts: seq<string>, sep: char, c: char)
    requires |parts| >= 1 && c != sep
    requires forall i :: 0 <= i < |parts| ==> c !in parts[i]
    ensures c !in Join(parts, sep)
  {
    if |parts| > 1 {
      JoinNoChar(parts[1..], sep, c);
    }
  }

  /** Stripping whitespace from a frame, as the hub does with each line it
      reads, does not change what the frame decodes to. */
  lemma ParseGziStripped(dest: string, src: string, cmd: string, args: seq<string>)
    ensures ParseGzi(Strip(Build(dest, src, cmd, args), Whitespace)) == ParseGzi(Build(dest, src, cmd, args))
  {
    StrippedFrameTokens(dest, src, cmd, args);
    SameTokensSameZoneInfo(Strip(Build(dest, src, cmd, args), Whitespace), Build(dest, src, cmd, args));
  }

  /** The decoder sees a text only through its tokens. */
  lemma SameTokensSameZoneInfo(a: string, b: string)
    requires Tokens(a) == Tokens(b)
    ensures ParseGzi(a) == ParseGzi(b)
  {
  }

  /** Round trip: a reply carrying IntToString of five integers decodes to them,
      both as the raw frame and as the stripped line the hub hands over. */
  lemma ParseGziRoundTrip(dest: string, src: string, zone: int, v: int, route: int, m: int, b: int, t: int)
    requires '|' !in dest && '|' !in src
    requires !("ZI" <= dest) && !("ZI" <= src)
    ensures var frame := Build(dest, src, "ZI" + ZeroPad2(zone), [Join([IntToString(v), IntToString(route),
        IntToString(m), IntToString(b), IntToString(t)], '^')]);
      ParseGzi(frame) == Some(ZoneInfo(Clamp(v, 0, 70), Clamp(route, 0, 8), m != 0, b, t))
      && ParseGzi(Strip(frame, Whitespace)) == Some(ZoneInfo(Clamp(v, 0, 70), Clamp(route, 0, 8), m != 0, b, t))
    ensures var frame := Build(dest, src, "ZI" + ZeroPad2(zone), [Join([IntToString(v), IntToString(route),
        IntToString(m), IntToString(b), IntToString(t)], '^')]);
      0 <= v <= 70 && 0 <= route <= 8 ==>
      ParseGzi(frame) == Some(ZoneInfo(v, route, m != 0, b, t))
      && ParseGzi(Strip(frame, Whitespace)) == Some(ZoneInfo(v, route, m != 0, b, t))
  {
    var vals := [v, route, m, b, t];
    var sub := [IntToString(v), IntToString(route), IntToString(m), IntToString(b), IntToString(t)];
    forall i | 0 <= i < 5 ensures '^' !in sub[i] && '|' !in sub[i] && ParseInt(sub[i]) == Some(vals[i]) {
      IntToStringNoSeparator(vals[i], '^');
      IntToStringNoSeparator(vals[i], '|');
      ParseIntShow(vals[i]);
    }
    IntToStringNoSeparator(zone, '|');
    assert '|' !in ZeroPad2(zone);
    ParseGziDecodesReply(dest, src, ZeroPad2(zone), sub, vals);
    ParseGziStripped(dest, src, "ZI" + ZeroPad2(zone), [Join(sub, '^')]);
  }

  lemma PayloadExampleJoin()
    ensures Join(["12", "5", "0", "07", "07"], '^') == "12^5^0^07^07"
  {
    var sub := ["12", "5", "0", "07", "07"];
    assert sub[1..] == ["5", "0", "07", "07"];
    assert sub[2..] == ["0", "07", "07"];
    assert sub[3..] == ["07", "07"];
    assert sub[4..] == ["07"];
  }

  lemma PayloadExampleFields(sub: seq<string>, vals: seq<int>)
    requires sub == ["12", "5", "0", "07", "07"] && vals == [12, 5, 0, 7, 7]
    ensures forall i :: 0 <= i < 5 ==> '^' !in sub[i] && ParseInt(sub[i]) == Some(vals[i])
  {
    forall i | 0 <= i < 5 ensures '^' !in sub[i] && ParseInt(sub[i]) == Some(vals[i]) {
      if i == 0 {
        ParseIntTwoDigits('1', '2');
        assert sub[0] == ['1', '2'];
      } else if i == 1 {
        ParseIntOneDigit('5');
        assert sub[1] == ['5'];
      } else if i == 2 {
        ParseIntOneDigit('0');
        assert sub[2] == ['0'];
      } else {
        ParseIntTwoDigits('0', '7');
        assert sub[i] == ['0', '7'];
      }
    }
  }

  /** The payload 12^5^0^07^07: leading zeros are accepted. */
  lemma ParsePayloadExample()
    ensures ParsePayload("12^5^0^07^07") == Some(ZoneInfo(12, 5, false, 7, 7))
  {
    var sub, vals := ["12", "5", "0", "07", "07"], [12, 5, 0, 7, 7];
    PayloadExampleJoin();
    PayloadExampleFields(sub, vals);
    ParsePayloadFields(sub, vals);
  }

  /** The reply #|dest|src|ZI03|12^5^0^07^07|U| decodes to volume 12,
      source 5, unmuted, bass 7 and treble 7. */
  lemma ParseGziExample(dest: string, src: string)
    requires '|' !in dest && '|' !in src
    requires !("ZI" <= dest) && !("ZI" <= src)
    ensures ParseGzi(Build(dest, src, "ZI03", ["12^5^0^07^07"])) == Some(ZoneInfo(12, 5, false, 7, 7))
  {
    ParseGziReplyPayload(dest, src, "ZI03", "12^5^0^07^07");
    ParsePayloadExample();
  }

  /** The same reply as the device sends it for the default ids. */
  lemma ZoneInfoReplyExample()
    ensures Build("HA", "X001", "ZI03", ["12^5^0^07^07"]) == "#|HA|X001|ZI03|12^5^0^07^07|U|\r\n"
  {
    BuildOneArg("HA", "X001", "ZI03", "12^5^0^07^07");
  }

  /** The line the hub decodes for that reply, after stripping, gives
      volume 12, source 5, unmuted, bass 7 and treble 7. */
  lemma ZoneInfoStrippedReplyExample()
    ensures ParseGzi(Strip("#|HA|X001|ZI03|12^5^0^07^07|U|\r\n", Whitespace)) == Some(ZoneInfo(12, 5, false, 7, 7))
  {
    ZoneInfoReplyExample();
    assert "ZI"[0] != "HA"[0] && "ZI"[0] != "X001"[0];
    StrippedReplyDecodes("HA", "X001", "#|HA|X001|ZI03|12^5^0^07^07|U|\r\n");
  }

  /** The stripped zone-3 reply decodes the same for any ids the decoder
      cannot mistake for the ZI field. */
  lemma StrippedReplyDecodes(dest: string, src: string, line: string)
    requires '|' !in dest && '|' !in src
    requires !("ZI" <= dest) && !("ZI" <= src)
    requires line == Build(dest, src, "ZI03", ["12^5^0^07^07"])
    ensures ParseGzi(Strip(line, Whitespace)) == Some(ZoneInfo(12, 5, false, 7, 7))
  {
    ParseGziStripped(dest, src, "ZI03", ["12^5^0^07^07"]);
    ParseGziExample(dest, src);
  }
}
