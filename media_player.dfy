/** One media-player entity per zone: the volume, mute and source it shows,
    updated from the hub's replies and by the user's commands. */
module MediaPlayer {
  import opened Wrappers
  import opened Text
  import opened Constants
  import opened Codec
  import opened Hub

  // ---------------------------------------------------------------- volume

  /** round((70 - vdb) * 100 / 70): device steps back to a UI percent. */
  function UnitsToPercent(vdb: int): int
  {
    RoundHalfEven((70 - vdb) * 100, 70)
  }

  /** The quotient (70 - vdb) * 10 / 7 is never half-way between two
      integers, so the rounding never has to break a tie and equals plain
      round-to-nearest (20 * m + 7) / 14 with m = 70 - vdb. */
  lemma UnitsToPercentClosedForm(vdb: int)
    ensures 2 * ((70 - vdb) * 100 - 70 * UnitsToPercent(vdb)) != 70
    ensures 2 * ((70 - vdb) * 100 - 70 * UnitsToPercent(vdb)) != -70
    ensures UnitsToPercent(vdb) == (20 * (70 - vdb) + 7) / 14
  {
    var m := 70 - vdb;
    var u := (20 * m + 7) / 14;
    assert 14 * u <= 20 * m + 7 < 14 * u + 14;
    RoundHalfEvenUnique(m * 100, 70, u);
  }

  /** Device steps 0..70 map onto 0..100%, 0 steps (loudest) to 100%. */
  lemma UnitsToPercentRange(vdb: int)
    requires 0 <= vdb <= 70
    ensures 0 <= UnitsToPercent(vdb) <= 100
    ensures vdb == 0 ==> UnitsToPercent(vdb) == 100
    ensures vdb == 70 ==> UnitsToPercent(vdb) == 0
  {
    UnitsToPercentClosedForm(vdb);
  }

  /** Reading a device volume as a percent and writing that percent back
      sets the device to the same volume. */
  lemma VolumeRoundTrip(vdb: int)
    requires 0 <= vdb <= 70
    ensures VolumeUnits(Clamp(UnitsToPercent(vdb), 0, 100)) == vdb
  {
    var p := UnitsToPercent(vdb);
    UnitsToPercentClosedForm(vdb);
    UnitsToPercentRange(vdb);
    RoundHalfEvenUnique((100 - p) * 70, 100, vdb);
  }

  /** Writing a percent and reading it back gives it to within one percent. */
  lemma PercentRoundTrip(p: int)
    requires 0 <= p <= 100
    ensures -1 <= UnitsToPercent(VolumeUnits(p)) - p <= 1
  {
    UnitsToPercentClosedForm(VolumeUnits(p));
  }

  // ---------------------------------------------------------------- entities

  /** The entity's unique id for a zone. */
  function UniqueId(zone: int): string
  {
    "audac_mtx_zone_" + IntToString(zone)
  }

  /** Distinct zones have distinct unique ids. */
  lemma UniqueIdInjective(a: int, b: int)
    ensures UniqueId(a) == UniqueId(b) ==> a == b
  {
    var prefix := "audac_mtx_zone_";
    assert UniqueId(a)[|prefix|..] == IntToString(a);
    assert UniqueId(b)[|prefix|..] == IntToString(b);
    IntToStringInjective(a, b);
  }

  /** A known name is sent as an index the hub passes on unclamped, and the
      table maps that index back to the name. */
  lemma SelectedIndexRoundTrip(name: string)
    requires name in FriendlyToIndex
    ensures Clamp(FriendlyToIndex[name], 0, 8) == FriendlyToIndex[name] != 0
    ensures FriendlyToIndex[name] in SupportedSources && SupportedSources[FriendlyToIndex[name]] == name
  {
    FriendlyToIndexInverse();
  }

  class ZoneEntity {
    const hub: AudacHub
    const zone: int
    const name: string
    const sourceList: seq<string>

    /** The volume as a percent (the level shown is volume / 100). */
    var volume: int
    var muted: bool
    var source: string

    /** The volume is a percent and the source one of the known names. */
    ghost predicate Valid()
      reads this
    {
      0 <= volume <= 100 && sourceList == SourceList && source in sourceList
    }

    constructor (hub: AudacHub, zone: int)
      ensures Valid()
      ensures this.hub == hub && this.zone == zone && name == "AUDAC Zone " + IntToString(zone)
      ensures volume == 50 && !muted && source == "Line 3"
      ensures sourceList == SourceList && source in sourceList
    {
      this.hub := hub;
      this.zone := zone;
      name := "AUDAC Zone " + IntToString(zone);
      volume := 50;
      muted := false;
      sourceList := SourceList;
      var fallback := SourceList[0];
      source := if 3 in SupportedSources then SupportedSources[3] else fallback;
      SourceListEnumerates();
    }

    /** Sends the level, clamped to 0..100%, and shows it once sent. */
    method SetVolumeLevel(level: int, reachable: bool, line: Option<string>) returns (r: Outcome<HubError>)
      requires Valid()
      modifies this, hub
      ensures Valid()
      ensures hub.Exchanged(SetVolumeFrame(hub.deviceId, hub.sourceId, zone, Clamp(level, 0, 100)), reachable)
      ensures r == Raised(ExchangeResult(old(hub.Connected()), reachable, line))
      ensures volume == (if r.Pass? then Clamp(level, 0, 100) else old(volume))
      ensures muted == old(muted) && source == old(source)
    {
      var pct := Clamp(level, 0, 100);
      var sent := hub.SetVolume(zone, pct, reachable, line);
      if sent.Failure? {
        return Fail(sent.error);
      }
      volume := pct;
      r := Pass;
    }

    /** Sends the mute state and shows it once sent. */
    method MuteVolume(mute: bool, reachable: bool, line: Option<string>) returns (r: Outcome<HubError>)
      requires Valid()
      modifies this, hub
      ensures Valid()
      ensures hub.Exchanged(SetMuteFrame(hub.deviceId, hub.sourceId, zone, mute), reachable)
      ensures r == Raised(ExchangeResult(old(hub.Connected()), reachable, line))
      ensures muted == (if r.Pass? then mute else old(muted))
      ensures volume == old(volume) && source == old(source)
    {
      var sent := hub.SetMute(zone, mute, reachable, line);
      if sent.Failure? {
        return Fail(sent.error);
      }
      muted := mute;
      r := Pass;
    }

    /** An unknown name is ignored without contacting the hub; a known one
        is sent as its index and shown once sent. */
    method SelectSource(name: string, reachable: bool, line: Option<string>) returns (r: Outcome<HubError>)
      requires Valid()
      modifies this, hub
      ensures Valid()
      ensures name !in FriendlyToIndex ==> r == Pass && unchanged(this) && unchanged(hub)
      ensures name in FriendlyToIndex ==>
        && hub.Exchanged(SetSourceFrame(hub.deviceId, hub.sourceId, zone, FriendlyToIndex[name]), reachable)
        && r == Raised(ExchangeResult(old(hub.Connected()), reachable, line))
        && source == (if r.Pass? then name else old(source))
      ensures volume == old(volume) && muted == old(muted)
    {
      var idx := if name in FriendlyToIndex then Some(FriendlyToIndex[name]) else None;
      if name in FriendlyToIndex {
        IndexOfNameKnown(name);
        ListedNameKnown(name);
      }
      if idx.None? || idx.value == 0 {
        return Pass;
      }
      var sent := hub.SetSource(zone, idx.value, reachable, line);
      if sent.Failure? {
        return Fail(sent.error);
      }
      source := name;
      r := Pass;
    }

    /** Shows a decoded zone-info record: the volume as a clamped percent,
        the mute flag, and the source when the index names one. */
    method Show(info: ZoneInfo)
      requires Valid()
      modifies this
      ensures Valid()
      ensures volume == Clamp(UnitsToPercent(info.volumeDb), 0, 100)
      ensures muted == info.mute
      ensures source == if info.sourceIdx in SupportedSources then SupportedSources[info.sourceIdx] else old(source)
    {
      volume := Clamp(UnitsToPercent(info.volumeDb), 0, 100);
      muted := info.mute;
      if info.sourceIdx in SupportedSources {
        NameListed(info.sourceIdx);
        source := SupportedSources[info.sourceIdx];
      }
    }

    /** Polls the zone: an empty reply changes nothing; otherwise the volume
        and mute are taken from it and so is the source when its index
        names one. */
    method Update(reachable: bool, line: Option<string>) returns (r: Outcome<HubError>)
      requires Valid()
      modifies this, hub
      ensures Valid()
      ensures hub.Exchanged(ZoneInfoFrame(hub.deviceId, hub.sourceId, zone), reachable)
      ensures var x := ExchangeResult(old(hub.Connected()), reachable, line);
        r == Raised(x)
        && if x.Failure? || ParseGzi(x.value).None? then
             volume == old(volume) && muted == old(muted) && source == old(source)
           else
             var info := ParseGzi(x.value).value;
             && volume == Clamp(UnitsToPercent(info.volumeDb), 0, 100)
             && muted == info.mute
             && source == (if info.sourceIdx in SupportedSources then SupportedSources[info.sourceIdx] else old(source))
    {
      var got := hub.GetZoneInfo(zone, reachable, line);
      if got.Failure? {
        return Fail(got.error);
      }
      r := Pass;
      if got.value.Some? {
        Show(got.value.value);
      }
    }
  }

  /** One entity per zone 1..zones, none when zones < 1, each in the
      initial state: 50%, unmuted, "Line 3". */
  method SetupEntities(hub: AudacHub, zones: int) returns (entities: seq<ZoneEntity>)
    ensures |entities| == (if zones < 1 then 0 else zones)
    ensures forall i :: 0 <= i < |entities| ==>
      && fresh(entities[i]) && entities[i].Valid()
      && entities[i].hub == hub && entities[i].zone == i + 1
      && entities[i].name == "AUDAC Zone " + IntToString(i + 1)
      && entities[i].volume == 50 && !entities[i].muted && entities[i].source == "Line 3"
    ensures forall i, j :: 0 <= i < j < |entities| ==>
      entities[i] != entities[j] && UniqueId(entities[i].zone) != UniqueId(entities[j].zone)
  {
    entities := [];
    var z := 1;
    while z <= zones
      invariant 1 <= z <= (if zones < 1 then 1 else zones + 1)
      invariant |entities| == z - 1
      invariant forall i :: 0 <= i < |entities| ==>
        && fresh(entities[i]) && entities[i].Valid()
        && entities[i].hub == hub && entities[i].zone == i + 1
        && entities[i].name == "AUDAC Zone " + IntToString(i + 1)
        && entities[i].volume == 50 && !entities[i].muted && entities[i].source == "Line 3"
    {
      var e := new ZoneEntity(hub, z);
      entities := entities + [e];
      z := z + 1;
    }
    forall i, j | 0 <= i < j < |entities|
      ensures UniqueId(entities[i].zone) != UniqueId(entities[j].zone)
    {
      UniqueIdInjective(i + 1, j + 1);
    }
  }
}
