# AUDAC MTX zone control, modelled in Dafny

A model of a Home Assistant integration for AUDAC MTX audio matrices. The
hub (`AudacHub`) owns one TCP connection to the mixer and exchanges
pipe-delimited text frames `#|dest|src|cmd|args…|U|\r\n` with it, one
command and one reply line at a time. Each zone of the mixer is a
media-player entity (`AudacZoneEntity`) showing a volume, a mute flag and an
input source. The entity polls the hub for zone info and sends volume, mute
and source commands.

Modules, one per source file or layer:

- `Wrappers` (`wrappers.dfy`): `Option`, `Result` and `Outcome`. A decode
  failure is a value, and so is an exception raised by the hub.
- `Text` (`text.dfy`): models of the parts of Python's string handling the
  code uses. These are `str()` of an int, `int()` of a string, `split`,
  `join`, `strip` and the `02d` format. The module proves the round trips
  between the models; "## Left out" says where they differ from Python.
- `Constants` (`constants.dfy`): `const.py`. It holds the defaults, the two
  line terminators, the eight-entry source table and its inverse.
- `Codec` (`codec.dfy`): the pure part of `hub.py`. It covers the clamps,
  the volume conversion with Python's half-to-even `round`, the frame
  encoder `_build`, the four command frames and the zone-info decoder
  `_parse_gzi`.
- `Hub` (`hub.dfy`): the stateful part of `hub.py`. The class `AudacHub`
  keeps reader and writer flags and a ghost log `Wire`, which lists the
  frames written in order.
- `MediaPlayer` (`media_player.dfy`): the class `ZoneEntity` with its
  volume (an integer percent), mute and source fields. It also holds the
  conversion from device volume steps back to a percent, and the setup
  that creates one entity per zone.

The network is not modelled. Each exchange takes two inputs:

- `reachable`: whether a connection can be opened.
- `line`: the reply line read back, or `None` when no terminated line
  arrives within the timeout.

## Model

| member | source | states |
|---|---|---|
| `Text.NatToString` | custom_components/audac_mtx/hub.py:61-62 | the model of `str()` on a natural number is a non-empty run of decimal digits, with a leading `0` only for 0 |
| `Text.IntToString` | custom_components/audac_mtx/hub.py:62 | the model of `str()` on any integer: `-` before the digits of a negative one; it is never empty, and `Text.ParseIntShow` reads it back |
| `Text.ZeroPad2` | custom_components/audac_mtx/hub.py:67 | the model of `{zone:02d}`: a `0` before a one-digit zone, otherwise the plain rendering; `Text.ZeroPad2TwoDigits` states its shape for 0..99 |
| `Text.ParseInt` | custom_components/audac_mtx/hub.py:94-98 | the model of `int()` on one payload part: an optional sign and one or more ASCII digits give their decimal value, any other string gives `None`; `Text.ParseIntShow` and `Text.ParseIntRejects` state both sides |
| `Text.ParseIntShow` | custom_components/audac_mtx/hub.py:94-98 | `ParseInt(IntToString(i)) == i` for every integer, negative ones included: the model's parser reads back what the model's renderer writes |
| `Text.IntToStringInjective` | custom_components/audac_mtx/media_player.py:34-36 | distinct integers have distinct `IntToString` renderings |
| `Text.ParseIntRejects` | custom_components/audac_mtx/hub.py:94-100 | `ParseInt` gives `None` on any string holding a character that is neither an ASCII digit nor a leading sign (Python's `int()` accepts a few such strings; see Left out) |
| `Text.ZeroPad2TwoDigits` | custom_components/audac_mtx/hub.py:67 | for zones 0..99, `{zone:02d}` is exactly two digits that denote the zone; below 10 it is `0` followed by the one-digit unpadded form |
| `Text.Split` | custom_components/audac_mtx/hub.py:86 | `split` yields at least one part, no part holds the separator, and joining the parts gives the input back |
| `Text.Join` | custom_components/audac_mtx/hub.py:42 | the model of `sep.join(parts)`: the parts with one separator between neighbours; `Text.SplitJoin` inverts it |
| `Text.SplitJoin` | custom_components/audac_mtx/hub.py:42 | splitting a join gives back the joined parts when none holds the separator |
| `Text.StripLeft` | custom_components/audac_mtx/hub.py:86 | the result is the suffix left after dropping leading characters of the set, and it starts with a character outside it |
| `Text.StripRight` | custom_components/audac_mtx/hub.py:86 | the result is the prefix left after dropping trailing characters of the set, and it ends with a character outside it |
| `Text.Strip` | custom_components/audac_mtx/hub.py:52 | the model of `str.strip(chars)`: strip on the left, then on the right; `Text.StripLeft`, `Text.StripRight` and `Text.StripFramed` state what remains |
| `Text.StripFramed` | custom_components/audac_mtx/hub.py:52 | stripping a text whose first and last characters are kept, followed by stripped characters only, returns that text |
| `Constants.TerminatorsAgree` | custom_components/audac_mtx/const.py:6-12 | the bytes of `SEND_EOL` are `RECV_EOL` (CR LF); the default source id has at most 4 characters and the device id has 4 |
| `Constants.SupportedSourcesKeys` | custom_components/audac_mtx/const.py:14-24 | the source table's keys are exactly 1..8, so index 0 has no name |
| `Constants.SourceNamesDistinct` | custom_components/audac_mtx/const.py:15-24 | the eight source names are pairwise distinct |
| `Constants.LastIndexOf` | custom_components/audac_mtx/const.py:27 | finds the largest index whose name matches, which is the entry the dict comprehension keeps |
| `Constants.InverseAt` | custom_components/audac_mtx/const.py:15-27 | the name at any index maps back to that index in `FRIENDLY_TO_INDEX` |
| `Constants.IndexOfNameKnown` | custom_components/audac_mtx/const.py:15-27 | any name `FRIENDLY_TO_INDEX` knows maps to an index in 1..8 whose name it is |
| `Constants.FriendlyToIndexInverse` | custom_components/audac_mtx/const.py:15-27 | `FRIENDLY_TO_INDEX` is defined on exactly the names; it inverts the table in both directions, and every index it yields is in 1..8 |
| `Constants.SourceListDistinct` | custom_components/audac_mtx/media_player.py:31 | no name appears twice in `list(SUPPORTED_SOURCES.values())` |
| `Constants.SourceListEnumerates` | custom_components/audac_mtx/media_player.py:31 | `list(SUPPORTED_SOURCES.values())` has the eight names in index order, each once, and its names are exactly the keys of the inverse table |
| `Codec.Clamp` | custom_components/audac_mtx/hub.py:60 | `max(lo, min(hi, x))` lies in `[lo, hi]`: it is `x` inside the range and the nearer bound outside it |
| `Codec.RoundHalfEven` | custom_components/audac_mtx/hub.py:61 | Python's `round` of `n/d` is within half of `n/d`, and even when `n/d` sits exactly half-way |
| `Codec.RoundHalfEvenUnique` | custom_components/audac_mtx/hub.py:61 | any integer that is nearest to `n/d`, and even on a tie, is that rounding |
| `Codec.RoundHalfEvenMonotone` | custom_components/audac_mtx/hub.py:61 | rounding never decreases as the numerator grows |
| `Codec.VolumeUnits` | custom_components/audac_mtx/hub.py:57-61 | device steps lie in 0..70; a percent of 100 or more gives 0 and a percent of 0 or less gives 70 |
| `Codec.VolumeUnitsNearest` | custom_components/audac_mtx/hub.py:60-61 | for 0..100% the steps are the nearest integer to `(100-p)*7/10`, with ties going to the even one |
| `Codec.VolumeUnitsAntitone` | custom_components/audac_mtx/hub.py:58-61 | a higher percent never gives more steps, so the mapping is inverted |
| `Codec.VolumeUnitsExamples` | custom_components/audac_mtx/hub.py:61 | 75%→18, 85%→10, 95%→4, 5%→66 (the ties), 150%→0, -20%→70 |
| `Codec.Build` | custom_components/audac_mtx/hub.py:38-42 | `_build`: `#`, the ids, the command and the arguments joined by `|`, then `|U|` and CR LF; its layout is stated by `Codec.BuildLayout` and inverted by `Codec.BuildTokens` |
| `Codec.BuildLayout` | custom_components/audac_mtx/hub.py:38-42 | the frame is `#|dest|src|cmd`, then `|a` for each argument, then `|U|\r\n` |
| `Codec.BuildOneArg` | custom_components/audac_mtx/hub.py:38-42 | a frame with one argument `a` is `#|dest|src|cmd|a|U|\r\n` |
| `Codec.BuildTokens` | custom_components/audac_mtx/hub.py:38-42 | when no token holds `|`, the zone-info decoder's tokenizer splits a frame back into `#`, dest, src, cmd, the arguments and `U` |
| `Codec.Tokens` | custom_components/audac_mtx/hub.py:86 | the decoder's `text.strip("|\r\n").split("|")`; `Codec.BuildTokens` states what it gives back for a frame |
| `Codec.StrippedFrameTokens` | custom_components/audac_mtx/hub.py:52 | stripping whitespace from a frame, as the hub does with each line it reads, leaves the decoder the same fields |
| `Codec.SetVolumeFrame` | custom_components/audac_mtx/hub.py:60-62 | the set-volume frame `SV<zone>` with the converted step count; `Codec.SetVolumeTokens` states its fields |
| `Codec.SetMuteFrame` | custom_components/audac_mtx/hub.py:67 | the set-mute frame `SM<zone:02d>` with `1` or `0`; `Codec.SetMuteTokens` states its fields |
| `Codec.SetSourceFrame` | custom_components/audac_mtx/hub.py:72-73 | the set-source frame `SR<zone>` with the clamped index; `Codec.SetSourceTokens` states its fields |
| `Codec.ZoneInfoFrame` | custom_components/audac_mtx/hub.py:78 | the zone-info query `GZI<zone:02d>` with `0`; `Codec.ZoneInfoTokens` states its fields |
| `Codec.SetVolumeTokens` | custom_components/audac_mtx/hub.py:57-63 | the set-volume frame has the fields `SV`+zone (not padded) and the step count |
| `Codec.SetMuteTokens` | custom_components/audac_mtx/hub.py:65-68 | the set-mute frame has the fields `SM`+zone (two-digit) and `1` when muted, `0` otherwise |
| `Codec.SetSourceTokens` | custom_components/audac_mtx/hub.py:70-74 | the set-source frame has the fields `SR`+zone (not padded) and the index clamped to 0..8 |
| `Codec.ZoneInfoTokens` | custom_components/audac_mtx/hub.py:76-78 | the zone-info query frame has the fields `GZI`+zone (two-digit) and `0` |
| `Codec.SetVolumeFrameExample` | custom_components/audac_mtx/hub.py:62 | 75% on zone 2 with the default ids is `#|X001|HA|SV2|18|U|\r\n` |
| `Codec.SetMuteFrameExample` | custom_components/audac_mtx/hub.py:67 | muting zone 1 is `#|X001|HA|SM01|1|U|\r\n` |
| `Codec.SetSourceFrameExample` | custom_components/audac_mtx/hub.py:72-73 | source 12 on zone 3 travels as `#|X001|HA|SR3|8|U|\r\n` |
| `Codec.ZoneInfoFrameExample` | custom_components/audac_mtx/hub.py:78 | querying zone 3 is `#|X001|HA|GZI03|0|U|\r\n` |
| `Codec.FindPrefixed` | custom_components/audac_mtx/hub.py:87 | returns the first index whose field starts with the prefix, or `None` exactly when no field does |
| `Codec.ParsePayload` | custom_components/audac_mtx/hub.py:92-108 | a decoded payload has volume in 0..70 and route in 0..8 |
| `Codec.ParseGzi` | custom_components/audac_mtx/hub.py:82-108 | a decode that succeeds has volume in 0..70 and route in 0..8; the decoder is total, so it never raises |
| `Codec.ParseGziNoMarker` | custom_components/audac_mtx/hub.py:85-90 | no field starting with `ZI` gives the empty result |
| `Codec.ParseGziMarkerLast` | custom_components/audac_mtx/hub.py:87-90 | when the first `ZI` field is the last field, the result is empty |
| `Codec.ParseGziWrongArity` | custom_components/audac_mtx/hub.py:92-93 | a payload that does not split into exactly five `^` parts gives the empty result |
| `Codec.ParseGziNotInteger` | custom_components/audac_mtx/hub.py:94-100 | a payload part that is not an integer gives the empty result |
| `Codec.ParsePayloadFields` | custom_components/audac_mtx/hub.py:92-108 | five integer parts decode to exactly their values: volume and route clamped, mute true iff nonzero, bass and treble unchanged |
| `Codec.ParseGziReplyPayload` | custom_components/audac_mtx/hub.py:85-88 | in a frame `#|dest|src|ZI…|payload|U|` whose ids do not start with `ZI`, the decoder takes exactly the field after the `ZI` command as the payload |
| `Codec.ParseGziDecodesReply` | custom_components/audac_mtx/hub.py:82-108 | a reply `#|dest|src|ZI…|v^r^m^b^t|U|` decodes to `(clamp(v), clamp(r), m≠0, b, t)` |
| `Codec.ParseGziStripped` | custom_components/audac_mtx/hub.py:52 | stripping whitespace from a frame, as `_send_recv` does before the decoder sees it, does not change what it decodes to |
| `Codec.ParseGziRoundTrip` | custom_components/audac_mtx/hub.py:82-108 | a reply carrying `IntToString` of five integers decodes to `(clamp(v), clamp(r), m≠0, b, t)`, both as the raw frame and as the whitespace-stripped line the hub hands over; with v in 0..70 and r in 0..8 it gives exactly `(v, r, m≠0, b, t)` |
| `Codec.ParsePayloadExample` | custom_components/audac_mtx/hub.py:92-108 | the payload `12^5^0^07^07` decodes to volume 12, source 5, unmuted, bass 7, treble 7 (leading zeros accepted) |
| `Codec.ParseGziExample` | custom_components/audac_mtx/hub.py:83-84 | a reply with command `ZI03` and payload `12^5^0^07^07` decodes to that same record |
| `Codec.ZoneInfoReplyExample` | custom_components/audac_mtx/hub.py:77 | the device's zone-info reply for zone 3 is `#|HA|X001|ZI03|12^5^0^07^07|U|\r\n` |
| `Codec.ZoneInfoStrippedReplyExample` | custom_components/audac_mtx/hub.py:52 | that reply line, stripped as `_send_recv` strips it, decodes to volume 12, source 5, unmuted, bass 7, treble 7 |
| `Hub.ExchangeResult` | custom_components/audac_mtx/hub.py:44-54 | an exchange raises a connection error exactly when the streams were missing and cannot be opened; otherwise it raises when no line arrives in time and else returns the line stripped of whitespace |
| `Hub.AudacHub.constructor` | custom_components/audac_mtx/hub.py:13-21 | stores endpoint, zone count and ids; starts with no reader or writer and nothing written |
| `Hub.AudacHub.Connect` | custom_components/audac_mtx/hub.py:23-27 | success sets both streams; failure raises and assigns neither |
| `Hub.AudacHub.Close` | custom_components/audac_mtx/hub.py:29-36 | afterwards both reader and writer are unset, whatever happened while closing |
| `Hub.AudacHub.SendRecv` | custom_components/audac_mtx/hub.py:44-54 | connects first when either stream is missing; if that fails nothing is written and it raises; otherwise the payload is appended to the wire and the result is `ExchangeResult` |
| `Hub.AudacHub.SetVolume` | custom_components/audac_mtx/hub.py:57-63 | exchanges exactly the set-volume frame of the clamped, converted percent |
| `Hub.AudacHub.SetMute` | custom_components/audac_mtx/hub.py:65-68 | exchanges exactly the set-mute frame |
| `Hub.AudacHub.SetSource` | custom_components/audac_mtx/hub.py:70-74 | exchanges exactly the set-source frame with the clamped index |
| `Hub.AudacHub.GetZoneInfo` | custom_components/audac_mtx/hub.py:76-80 | exchanges the zone-info query and returns the decoding of the reply, or the exchange's error |
| `MediaPlayer.UnitsToPercent` | custom_components/audac_mtx/media_player.py:80 | `round((70 - vdb) * 100 / 70)`; `MediaPlayer.UnitsToPercentClosedForm`, `UnitsToPercentRange` and `VolumeRoundTrip` state its properties |
| `MediaPlayer.UnitsToPercentClosedForm` | custom_components/audac_mtx/media_player.py:80 | `round((70-vdb)*100/70)` never meets a tie and equals `(20*(70-vdb)+7) div 14` |
| `MediaPlayer.UnitsToPercentRange` | custom_components/audac_mtx/media_player.py:78-81 | device steps 0..70 map into 0..100%; 0 steps gives 100% and 70 steps gives 0% |
| `MediaPlayer.VolumeRoundTrip` | custom_components/audac_mtx/media_player.py:80-81 | showing a device volume as a percent and sending that percent back restores the same device volume |
| `MediaPlayer.PercentRoundTrip` | custom_components/audac_mtx/media_player.py:55-57 | sending a percent and reading it back gives it to within one percent |
| `MediaPlayer.UniqueId` | custom_components/audac_mtx/media_player.py:35-36 | `audac_mtx_zone_` followed by the zone's rendering; `MediaPlayer.UniqueIdInjective` states that it tells zones apart |
| `MediaPlayer.UniqueIdInjective` | custom_components/audac_mtx/media_player.py:34-36 | distinct zones get distinct unique ids `audac_mtx_zone_<zone>` |
| `MediaPlayer.SelectedIndexRoundTrip` | custom_components/audac_mtx/media_player.py:65-71 | a known name's index is nonzero and passes the hub's clamp unchanged, and the table maps it back to the name |
| `MediaPlayer.ZoneEntity.constructor` | custom_components/audac_mtx/media_player.py:24-32 | a new entity shows 50%, unmuted, source `Line 3`, which is in its source list |
| `MediaPlayer.ZoneEntity.SetVolumeLevel` | custom_components/audac_mtx/media_player.py:54-58 | sends the level clamped to 0..100% and shows that same percent only once it was sent |
| `MediaPlayer.ZoneEntity.MuteVolume` | custom_components/audac_mtx/media_player.py:60-63 | sends the mute state and shows it only once sent |
| `MediaPlayer.ZoneEntity.SelectSource` | custom_components/audac_mtx/media_player.py:65-72 | an unknown name changes nothing and sends nothing; a known name sends its index and then shows the name; volume and mute are untouched |
| `MediaPlayer.ZoneEntity.Show` | custom_components/audac_mtx/media_player.py:78-85 | shows a decoded record: the volume becomes the clamped converted percent and mute is copied; the source is set only when the index names one, and volume and source stay valid |
| `MediaPlayer.ZoneEntity.Update` | custom_components/audac_mtx/media_player.py:74-85 | a failed or empty reply leaves volume, mute and source as they were; otherwise it sets the volume to the clamped converted percent and mute from the reply, and sets the source only when the index names one (index 0 leaves it unchanged) |
| `MediaPlayer.SetupEntities` | custom_components/audac_mtx/media_player.py:12-15 | creates exactly one fresh entity per zone 1..zones (none when zones < 1), each named `AUDAC Zone <zone>` and showing 50%, unmuted, `Line 3`, with pairwise distinct unique ids |

The entity methods keep `ZoneEntity.Valid`. Under it the volume is a
percent in 0..100, and the source list is the eight names in index order.
The source shown is one of those names.

Both volume conversions divide with Python's float `/` and then call
`round`. The model takes the exact quotient instead. The two agree here:

- When the exact quotient is a tie (`x.5`), it is a multiple of 0.1, and
  IEEE division returns it exactly.
- Otherwise the quotient is at least 1/14 away from a tie, which is far
  more than the error of one float division.

The 75% frame for zone 2 carries `18`: `(100 - 75) * 70 / 100` is 17.5,
and `round` breaks the tie towards the even neighbour
(`Codec.SetVolumeFrameExample`).

## Left out

- Sockets, `asyncio.wait_for` timeouts, `write`/`drain` and `readuntil`:
  their outcomes are the inputs `reachable` and `line`. Write and read
  failures are merged into one `ExchangeFailed`.
- The `asyncio.Lock` and the serialisation of exchanges: the model is
  sequential. So is the lazy connect that runs outside the lock.
- `AudacHub.Connect`: a second connect replaces the open streams without
  closing them. The model only records that both streams are set.
- Bytes decoding with `errors="ignore"` and `payload.encode()`: the line
  read is taken as text.
- Logging, and the `AudacProtocolError` class, which nothing raises.
- `Text.ParseInt`: differs from Python's `int()` in both directions. It
  accepts only an optional sign followed by ASCII digits, so it refuses
  what `int()` accepts: surrounding whitespace (`" 5"`), `_` separators
  (`"1_0"`) and non-ASCII digits. It has no digit limit, while `int()`
  raises `ValueError` on a decimal string of more than
  `sys.get_int_max_str_digits()` digits (4300 by default since Python
  3.11), so a payload part that long decodes here where `_parse_gzi`
  returns `{}`.
- `Text.IntToString`: renders integers of any length, while `str()`
  raises `ValueError` beyond the same digit limit. So `Text.ParseIntShow`
  holds of the model for every integer, but of Python only below that
  limit.
- `MediaPlayer.ZoneEntity.SetVolumeLevel`: takes the level as an integer
  percent. The float in 0..1, `round(level * 100)` and `_volume =
  pct / 100.0` are not modelled, so `volume` is the percent itself.
- The timeout constant `TIMEOUT`: no time is modelled.
- Home Assistant glue: `async_write_ha_state`, the entity properties other
  than the three stored fields and the unique id, `hass.data`, config
  entries and `__init__.py`.
- Zone range checks: the code makes none and neither does the model. The
  two-digit zone format is proved for zones 0..99. For other zones
  `ZeroPad2` renders what Python's `02d` does.
