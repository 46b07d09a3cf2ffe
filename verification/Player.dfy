/** CommonPlayer: the volume and mute keys, and the end of prebuffering. */
module Player {
  import opened MachineInts
  import opened Settings

  const MIN_VOLUME := 0
  const MAX_VOLUME := 10

  datatype Key = VolumePlus | VolumeMinus | Mute | Other

  datatype PlayerState = Prebuffering | Playing | Elsewhere

  /** Adding an unsigned to an int and storing the sum in the int: it wraps. */
  function ToInt32(x: int): Int32 {
    (x + 0x8000_0000) % 0x1_0000_0000 - 0x8000_0000
  }

  // ----- The keys -----

  /** What the volume and mute keys act on. */
  datatype Panel = Panel(volumeindex: int, deviceLevel: int, entries: Entries)

  function StepVolume(v: int, key: Key): int {
    match key
    case VolumePlus => if v < MAX_VOLUME then v + 1 else v
    case VolumeMinus => if v > MIN_VOLUME then v - 1 else v
    case _ => v
  }

  function Press(p: Panel, key: Key): Panel {
    match key
    case Other => p
    case Mute =>
      if Muted(p.entries) then p.(deviceLevel := p.volumeindex, entries := p.entries[MUTE := "0"])
      else p.(deviceLevel := MIN_VOLUME, entries := p.entries[MUTE := "1"])
    case _ =>
      var v := StepVolume(p.volumeindex, key);
      var unmuted := if Muted(p.entries) then p.entries[MUTE := "0"] else p.entries;
      Panel(v, v, unmuted[VOLUME := Decimal(v)])
  }

  // ----- Prebuffering -----

  datatype Prebuffer = Prebuffer(state: PlayerState, level: Int32, plays: nat)

  function Feed(b: Prebuffer, max: Int32, size: UInt32): Prebuffer {
    if !b.state.Prebuffering? then b
    else
      var level := ToInt32(b.level + size);
      if size == 0 || b.level >= max then Prebuffer(Playing, level, b.plays + 1)
      else b.(level := level)
  }

  // ----- The player object -----

  /** The TS player: its volume, and how often it was told to play. */
  class TSPlayer {
    var level: int
    var plays: nat

    method SetVolumeIndex(volume: int)
      modifies `level
      ensures level == volume
    {
      level := volume;
    }

    method Play()
      modifies `plays
      ensures plays == old(plays) + 1
    {
      plays := plays + 1;
    }
  }

  class CommonPlayer {
    const settings: SettingStore
    const device: TSPlayer
    var volumeindex: int
    var playerState: PlayerState
    var prebufLevel: Int32
    var prebufMax: Int32

    /** The source leaves its fields to the players derived from this class. */
    constructor (settings: SettingStore, device: TSPlayer, volume: int, max: Int32)
      ensures this.settings == settings && this.device == device
      ensures volumeindex == volume && prebufMax == max
      ensures playerState == Prebuffering && prebufLevel == 0
    {
      this.settings, this.device := settings, device;
      volumeindex, prebufMax := volume, max;
      playerState, prebufLevel := Prebuffering, 0;
    }

    function PanelNow(): Panel
      reads this, settings, device
    {
      Panel(volumeindex, device.level, settings.entries)
    }

    function PrebufferNow(): Prebuffer
      reads this, device
    {
      Prebuffer(playerState, prebufLevel, device.plays)
    }

    /** `processed` is set except by an unknown key and by the mute key that takes mute off. */
    method ProcessCommonMsg(cmdtype: Key, processed: IntCell)
      modifies `volumeindex, settings, device`level, processed
      ensures var q := Press(Panel(old(volumeindex), old(device.level), old(settings.entries)), cmdtype);
              volumeindex == q.volumeindex && device.level == q.deviceLevel && settings.entries == q.entries
      ensures processed.value ==
              if cmdtype.Other? || (cmdtype.Mute? && Muted(old(settings.entries))) then old(processed.value) else 1
    {
      if cmdtype.VolumePlus? || cmdtype.VolumeMinus? {
        if cmdtype.VolumeMinus? && volumeindex > MIN_VOLUME {
          volumeindex := volumeindex - 1;
        } else if cmdtype.VolumePlus? && volumeindex < MAX_VOLUME {
          volumeindex := volumeindex + 1;
        }
        var muted := settings.IfMute();
        if muted {
          settings.UnsetMute();
        }
        device.SetVolumeIndex(volumeindex);
        settings.SaveVolumeIndex(volumeindex);
        processed.value := 1;
      } else if cmdtype.Mute? {
        var muted := settings.IfMute();
        if muted {
          device.SetVolumeIndex(volumeindex);
          settings.UnsetMute();
          return;
        } else {
          device.SetVolumeIndex(MIN_VOLUME);
          settings.SetMute();
        }
        processed.value := 1;
      }
    }

    method CheckPrebufferingState(buffersize: UInt32)
      modifies `playerState, `prebufLevel, device`plays
      ensures var b := Feed(Prebuffer(old(playerState), old(prebufLevel), old(device.plays)), prebufMax, buffersize);
              playerState == b.state && prebufLevel == b.level && device.plays == b.plays
    {
      if playerState != Prebuffering {
        return;
      }
      var quitPrebuf := buffersize == 0 || prebufLevel >= prebufMax;
      prebufLevel := ToInt32(prebufLevel + buffersize);
      if quitPrebuf {
        playerState := Playing;
        device.Play();
      }
    }
  }
}
