/**
 * The player over whole sequences of keys and of buffer sizes: volume, mute flag, stored
 * volume and device level stay in agreement, the volume is a clamped shift, and
 * prebuffering ends once, soon, and with a bounded overshoot.
 */
module PlayerTheorems {
  import opened MachineInts
  import opened Settings
  import opened Player

  // ----- What one key does -----

  function Clamp(lo: int, hi: int, x: int): int {
    if x < lo then lo else if hi < x then hi else x
  }

  /** Plus and minus move the volume by one; other keys not at all. */
  function Shift(key: Key): int {
    match key
    case VolumePlus => 1
    case VolumeMinus => -1
    case _ => 0
  }

  predicate InRange(v: int) { 0 <= v <= 10 }

  predicate IsVolumeKey(k: Key) { k.VolumePlus? || k.VolumeMinus? }

  /**
   * A volume key moves the volume by one within 0..10 (a volume out of range only towards
   * it), gives it to the device, takes mute off and stores it; the mute entry is not touched
   * unless it was set, nor is any other.
   */
  lemma VolumeKeyEffect(p: Panel, key: Key)
    requires IsVolumeKey(key)
    ensures var q := Press(p, key);
            && (InRange(p.volumeindex) ==> q.volumeindex == Clamp(0, 10, p.volumeindex + Shift(key)))
            && (key.VolumePlus? ==> q.volumeindex == Clamp(p.volumeindex, p.volumeindex + 1, 10))
            && (key.VolumeMinus? ==> q.volumeindex == Clamp(p.volumeindex - 1, p.volumeindex, 0))
            && q.deviceLevel == q.volumeindex
            && !Muted(q.entries)
            && VOLUME in q.entries && Atoi(q.entries[VOLUME]) == q.volumeindex
            && q.entries - {VOLUME, MUTE} == p.entries - {VOLUME, MUTE}
            && (if Muted(p.entries) then MUTE in q.entries && q.entries[MUTE] == "0"
                else q.entries - {VOLUME} == p.entries - {VOLUME})
  {
    AtoiOfDecimal(Press(p, key).volumeindex);
  }

  /**
   * The mute key turns mute on or off: on, the device goes to 0; off, it goes back to the
   * volume.  The volume, the stored volume and every other entry stay.
   */
  lemma MuteKeyEffect(p: Panel)
    ensures var q := Press(p, Mute);
            && (Muted(q.entries) <==> !Muted(p.entries))
            && q.deviceLevel == (if Muted(q.entries) then 0 else p.volumeindex)
            && q.volumeindex == p.volumeindex
            && MUTE in q.entries && q.entries[MUTE] == (if Muted(q.entries) then "1" else "0")
            && q.entries - {MUTE} == p.entries - {MUTE}
    ensures Press(p, Other) == p
  {
  }

  // ----- Agreement of volume, mute flag, stored volume and device level -----

  function PressAll(p: Panel, keys: seq<Key>): Panel {
    if keys == [] then p else Press(PressAll(p, keys[..|keys| - 1]), keys[|keys| - 1])
  }

  predicate DeviceAgrees(p: Panel) {
    p.deviceLevel == if Muted(p.entries) then MIN_VOLUME else p.volumeindex
  }

  /** The stored volume, as read_volume_index would read it. */
  predicate StoreAgrees(p: Panel) {
    VOLUME in p.entries && Atoi(p.entries[VOLUME]) == p.volumeindex
  }

  predicate Agrees(p: Panel) {
    InRange(p.volumeindex) && DeviceAgrees(p) && StoreAgrees(p)
  }

  lemma PressAgrees(p: Panel, key: Key)
    requires InRange(p.volumeindex)
    ensures InRange(Press(p, key).volumeindex)
    ensures DeviceAgrees(p) || !key.Other? ==> DeviceAgrees(Press(p, key))
    ensures StoreAgrees(p) || IsVolumeKey(key) ==> StoreAgrees(Press(p, key))
  {
    AtoiOfDecimal(StepVolume(p.volumeindex, key));
  }

  /** From an agreeing start every sequence of keys ends in agreement. */
  lemma {:induction false} AgreementKept(p: Panel, keys: seq<Key>)
    requires Agrees(p)
    ensures Agrees(PressAll(p, keys))
  {
    if keys != [] {
      AgreementKept(p, keys[..|keys| - 1]);
      PressAgrees(PressAll(p, keys[..|keys| - 1]), keys[|keys| - 1]);
    }
  }

  /**
   * Agreement needs no agreeing start once a volume key is among the keys: whatever the
   * device level and the stored settings were, the first volume key puts them right.
   */
  lemma {:induction false} VolumeKeyBringsAgreement(p: Panel, keys: seq<Key>)
    requires InRange(p.volumeindex)
    ensures InRange(PressAll(p, keys).volumeindex)
    ensures (exists k :: k in keys && IsVolumeKey(k)) ==> Agrees(PressAll(p, keys))
  {
    if keys != [] {
      var front, last := keys[..|keys| - 1], keys[|keys| - 1];
      assert forall k :: k in keys <==> k in front || k == last;
      VolumeKeyBringsAgreement(p, front);
      PressAgrees(PressAll(p, front), last);
    }
  }

  /** Mute twice restores volume, mute flag and stored volume always, and the device level exactly if it agreed. */
  lemma MuteTwice(p: Panel)
    ensures var q := Press(Press(p, Mute), Mute);
            && q.volumeindex == p.volumeindex
            && (Muted(q.entries) <==> Muted(p.entries))
            && q.entries - {MUTE} == p.entries - {MUTE}
            && (q.deviceLevel == p.deviceLevel <==> DeviceAgrees(p))
  {
    var q := Press(Press(p, Mute), Mute);
    assert (q.entries - {MUTE}).Keys == (p.entries - {MUTE}).Keys;
  }

  // ----- The mute flag over whole sequences of keys -----

  predicate HasVolumeKey(keys: seq<Key>) { exists k :: k in keys && IsVolumeKey(k) }

  /** The mute keys behind the last volume key. */
  function MutesSinceVolume(keys: seq<Key>): nat {
    if keys == [] || IsVolumeKey(keys[|keys| - 1]) then 0
    else MutesSinceVolume(keys[..|keys| - 1]) + if keys[|keys| - 1].Mute? then 1 else 0
  }

  /**
   * After any keys the player is muted exactly if the mute keys since the last volume key are
   * odd in number, or, where there was no volume key, if they leave the first state or turn it.
   */
  lemma {:induction false} MuteIsParity(p: Panel, keys: seq<Key>)
    ensures var before := !HasVolumeKey(keys) && Muted(p.entries);
            Muted(PressAll(p, keys).entries) <==> before != (MutesSinceVolume(keys) % 2 == 1)
  {
    if keys != [] {
      var front, last := keys[..|keys| - 1], keys[|keys| - 1];
      assert forall k :: k in keys <==> k in front || k == last;
      MuteIsParity(p, front);
      if IsVolumeKey(last) {
        VolumeKeyEffect(PressAll(p, front), last);
      } else {
        MuteKeyEffect(PressAll(p, front));
      }
    }
  }

  // ----- The volume as a clamped shift -----

  /** Plus keys less minus keys. */
  function Net(keys: seq<Key>): int {
    if keys == [] then 0 else Net(keys[..|keys| - 1]) + Shift(keys[|keys| - 1])
  }

  /** The least volume carried along: shifted by each key and kept within 0..10. */
  function Lo(keys: seq<Key>): int {
    if keys == [] then 0 else Clamp(0, 10, Lo(keys[..|keys| - 1]) + Shift(keys[|keys| - 1]))
  }

  /** The greatest volume carried along. */
  function Hi(keys: seq<Key>): int {
    if keys == [] then 10 else Clamp(0, 10, Hi(keys[..|keys| - 1]) + Shift(keys[|keys| - 1]))
  }

  /** A clamped shift after a clamped shift is a clamped shift. */
  lemma ShiftsCompose(lo: int, hi: int, d: int, lo': int, hi': int, d': int, x: int)
    requires lo <= hi && lo' <= hi'
    ensures Clamp(lo', hi', Clamp(lo, hi, x + d) + d')
         == Clamp(Clamp(lo', hi', lo + d'), Clamp(lo', hi', hi + d'), x + d + d')
  {
  }

  lemma KeyIsClampedShift(p: Panel, key: Key)
    requires InRange(p.volumeindex)
    ensures Press(p, key).volumeindex == Clamp(0, 10, p.volumeindex + Shift(key))
  {
    if IsVolumeKey(key) {
      VolumeKeyEffect(p, key);
    } else {
      MuteKeyEffect(p);
    }
  }

  /**
   * Any sequence of keys, mute keys among them, acts on an in-range volume as one shift, by
   * the plus keys less the minus keys, clamped between the least and the greatest volume
   * carried along.
   */
  lemma {:induction false} KeysAreClampedShift(p: Panel, keys: seq<Key>)
    requires InRange(p.volumeindex)
    ensures 0 <= Lo(keys) <= Hi(keys) <= 10
    ensures PressAll(p, keys).volumeindex == Clamp(Lo(keys), Hi(keys), p.volumeindex + Net(keys))
  {
    if keys != [] {
      var front, last := keys[..|keys| - 1], keys[|keys| - 1];
      KeysAreClampedShift(p, front);
      KeyIsClampedShift(PressAll(p, front), last);
      ShiftsCompose(Lo(front), Hi(front), Net(front), 0, 10, Shift(last), p.volumeindex);
    }
  }

  // ----- Prebuffering -----

  /** Wrapping changes a level by whole turns of 32 bits, and not at all within range. */
  lemma WrapsByTurns(x: int)
    ensures -0x8000_0000 <= x < 0x8000_0000 ==> ToInt32(x) == x
    ensures (x - ToInt32(x)) % 0x1_0000_0000 == 0
  {
  }

  function FeedAll(b: Prebuffer, max: Int32, sizes: seq<UInt32>): Prebuffer {
    if sizes == [] then b
    else Feed(FeedAll(b, max, sizes[..|sizes| - 1]), max, sizes[|sizes| - 1])
  }

  /** In any state but prebuffering, playing or not, buffers change nothing and nothing is issued. */
  lemma {:induction false} OnlyPrebufferingListens(b: Prebuffer, max: Int32, sizes: seq<UInt32>)
    requires !b.state.Prebuffering?
    ensures FeedAll(b, max, sizes) == b
  {
    if sizes != [] {
      OnlyPrebufferingListens(b, max, sizes[..|sizes| - 1]);
    }
  }

  function Sum(sizes: seq<UInt32>): nat {
    if sizes == [] then 0 else Sum(sizes[..|sizes| - 1]) + sizes[|sizes| - 1]
  }

  /** The level once all the sizes are added, in 32-bit arithmetic. */
  function LevelWith(level0: Int32, sizes: seq<UInt32>): Int32 { ToInt32(level0 + Sum(sizes)) }

  /** Call `i` is one that ends prebuffering, if none before it did. */
  predicate Quits(level0: Int32, max: Int32, sizes: seq<UInt32>, i: nat) {
    i < |sizes| && (sizes[i] == 0 || LevelWith(level0, sizes[..i]) >= max)
  }

  predicate QuitsWithin(level0: Int32, max: Int32, sizes: seq<UInt32>) {
    exists i: nat :: i < |sizes| && Quits(level0, max, sizes, i)
  }

  predicate QuitsFirstAt(level0: Int32, max: Int32, sizes: seq<UInt32>, i: nat) {
    Quits(level0, max, sizes, i) && forall j: nat :: j < i ==> !Quits(level0, max, sizes, j)
  }

  lemma LevelStep(level0: Int32, sizes: seq<UInt32>, i: nat)
    requires i < |sizes|
    ensures LevelWith(level0, sizes[..i + 1]) == ToInt32(LevelWith(level0, sizes[..i]) + sizes[i])
  {
    assert sizes[..i + 1][..i] == sizes[..i];
  }

  lemma QuitsOfFront(level0: Int32, max: Int32, sizes: seq<UInt32>, n: nat, i: nat)
    requires i < n <= |sizes|
    ensures Quits(level0, max, sizes[..n], i) <==> Quits(level0, max, sizes, i)
  {
    assert sizes[..n][..i] == sizes[..i];
  }

  lemma {:induction false} StillPrebuffering(b: Prebuffer, max: Int32, sizes: seq<UInt32>)
    requires b.state.Prebuffering?
    requires forall i: nat :: i < |sizes| ==> !Quits(b.level, max, sizes, i)
    ensures FeedAll(b, max, sizes) == b.(level := LevelWith(b.level, sizes))
  {
    if sizes != [] {
      var n := |sizes| - 1;
      forall i: nat | i < n ensures !Quits(b.level, max, sizes[..n], i) {
        QuitsOfFront(b.level, max, sizes, n, i);
      }
      StillPrebuffering(b, max, sizes[..n]);
      assert !Quits(b.level, max, sizes, n);
      LevelStep(b.level, sizes, n);
      assert sizes[..n + 1] == sizes;
    }
  }

  /**
   * Prebuffering ends at the first call whose size is 0 or that finds the level at the
   * maximum; play is issued then and never again, and the level stays where that call put it.
   */
  lemma {:induction false} PlaysOnceAtFirstQuit(b: Prebuffer, max: Int32, sizes: seq<UInt32>, i: nat)
    requires b.state.Prebuffering? && QuitsFirstAt(b.level, max, sizes, i)
    ensures FeedAll(b, max, sizes) == Prebuffer(Playing, LevelWith(b.level, sizes[..i + 1]), b.plays + 1)
    decreases |sizes|
  {
    var n := |sizes| - 1;
    if i == n {
      forall j: nat | j < n ensures !Quits(b.level, max, sizes[..n], j) {
        QuitsOfFront(b.level, max, sizes, n, j);
      }
      StillPrebuffering(b, max, sizes[..n]);
      LevelStep(b.level, sizes, n);
    } else {
      forall j: nat | j <= i ensures Quits(b.level, max, sizes[..n], j) <==> Quits(b.level, max, sizes, j) {
        QuitsOfFront(b.level, max, sizes, n, j);
      }
      PlaysOnceAtFirstQuit(b, max, sizes[..n], i);
      assert sizes[..n][..i + 1] == sizes[..i + 1];
    }
  }

  predicate AtMost(sizes: seq<UInt32>, bound: int) { forall s :: s in sizes ==> s <= bound }

  /** The level at the end of prebuffering is less than two buffers past the maximum. */
  lemma OvershootBounded(level0: Int32, max: Int32, sizes: seq<UInt32>, i: nat, bound: UInt32)
    requires level0 < max && AtMost(sizes, bound) && QuitsFirstAt(level0, max, sizes, i)
    ensures LevelWith(level0, sizes[..i + 1]) < max + 2 * bound
  {
    assert sizes[i] in sizes;
    LevelStep(level0, sizes, i);
    if i > 0 {
      assert sizes[i - 1] in sizes && !Quits(level0, max, sizes, i - 1);
      LevelStep(level0, sizes, i - 1);
    } else {
      assert sizes[..0] == [];
    }
  }

  lemma {:induction false} NoWrapWhilePrebuffering(level0: Int32, max: Int32, sizes: seq<UInt32>, n: nat, bound: UInt32)
    requires level0 < max && max - 1 + bound < 0x8000_0000 && AtMost(sizes, bound)
    requires n <= |sizes| && forall i: nat :: i < n ==> !Quits(level0, max, sizes, i)
    ensures LevelWith(level0, sizes[..n]) >= level0 + n
  {
    if n > 0 {
      NoWrapWhilePrebuffering(level0, max, sizes, n - 1, bound);
      assert sizes[n - 1] in sizes && !Quits(level0, max, sizes, n - 1);
      LevelStep(level0, sizes, n - 1);
    } else {
      assert sizes[..0] == [];
    }
  }

  function Ones(n: nat): (s: seq<UInt32>)
    ensures |s| == n
  {
    seq(n, _ => 1)
  }

  lemma {:induction false} SumOfOnes(sizes: seq<UInt32>, n: nat)
    requires n <= |sizes| && forall i :: 0 <= i < n ==> sizes[i] == 1
    ensures Sum(sizes[..n]) == n
  {
    if n > 0 {
      SumOfOnes(sizes, n - 1);
      assert sizes[..n][..n - 1] == sizes[..n - 1];
    }
  }

  /** One byte at a time up to just below the maximum, then a buffer that wraps the level round. */
  lemma WrappingEpisode(level0: Int32, max: Int32, bound: UInt32) returns (sizes: seq<UInt32>)
    requires level0 < max && 0x8000_0000 <= max - 1 + bound
    ensures |sizes| == max - level0 + 1 && AtMost(sizes, bound)
    ensures !QuitsWithin(level0, max, sizes)
  {
    var n := max - 1 - level0;
    sizes := Ones(n) + [bound, 1];
    forall i: nat | i < |sizes| ensures !Quits(level0, max, sizes, i) {
      SumOfOnes(sizes, if i <= n then i else n);
      if i == n + 1 {
        LevelStep(level0, sizes, n);
      }
    }
  }

  /**
   * From below the maximum, every episode of buffers of at most `bound` bytes ends within
   * max - level0 + 1 calls if and only if the largest level that is still below the maximum
   * can take one more buffer without overflowing 32 bits.
   */
  lemma EpisodeLengthIff(level0: Int32, max: Int32, bound: UInt32)
    requires level0 < max
    ensures (forall sizes :: |sizes| == max - level0 + 1 && AtMost(sizes, bound) ==> QuitsWithin(level0, max, sizes))
       <==> max - 1 + bound < 0x8000_0000
  {
    if max - 1 + bound < 0x8000_0000 {
      forall sizes: seq<UInt32> | |sizes| == max - level0 + 1 && AtMost(sizes, bound)
        ensures QuitsWithin(level0, max, sizes)
      {
        if !QuitsWithin(level0, max, sizes) {
          NoWrapWhilePrebuffering(level0, max, sizes, max - level0, bound);
          assert Quits(level0, max, sizes, max - level0);
        }
      }
    } else {
      var sizes := WrappingEpisode(level0, max, bound);
    }
  }

  // ----- Runs of the player object -----

  /** A player handed any sequence of keys ends with the panel the theorems speak of. */
  method PressKeys(player: CommonPlayer, keys: seq<Key>, processed: IntCell)
    modifies player, player.settings, player.device, processed
    ensures player.PanelNow() == PressAll(old(player.PanelNow()), keys)
    ensures player.PrebufferNow() == old(player.PrebufferNow())
  {
    for i := 0 to |keys|
      invariant player.PanelNow() == PressAll(old(player.PanelNow()), keys[..i])
      invariant player.PrebufferNow() == old(player.PrebufferNow())
    {
      assert keys[..i + 1][..i] == keys[..i];
      player.ProcessCommonMsg(keys[i], processed);
    }
    assert keys[..|keys|] == keys;
  }

  /** A player fed any sequence of buffers ends with the prebuffering state the theorems speak of. */
  method FeedBuffers(player: CommonPlayer, sizes: seq<UInt32>)
    modifies player, player.device
    ensures player.PrebufferNow() == FeedAll(old(player.PrebufferNow()), player.prebufMax, sizes)
    ensures player.prebufMax == old(player.prebufMax) && player.PanelNow() == old(player.PanelNow())
  {
    for i := 0 to |sizes|
      invariant player.prebufMax == old(player.prebufMax) && player.PanelNow() == old(player.PanelNow())
      invariant player.PrebufferNow() == FeedAll(old(player.PrebufferNow()), player.prebufMax, sizes[..i])
    {
      assert sizes[..i + 1][..i] == sizes[..i];
      player.CheckPrebufferingState(sizes[i]);
    }
    assert sizes[..|sizes|] == sizes;
  }
}
