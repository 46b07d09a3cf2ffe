/**
 * The frame header as a bijection with its fields, which headers are valid, and what the
 * frame length is.
 */
module Mp3Theorems {
  import opened BitFields
  import opened MachineInts
  import opened Mp3Header

  // ----- Header and fields -----

  /** The eleven sync bits are the mask 0xffe00000: they are all set exactly from that value on. */
  lemma SyncedIff(header: UInt32)
    ensures Synced(header) <==> 0xFFE0_0000 <= header
  {
  }

  lemma PackedBehindSync(fields: seq<nat>, widths: seq<nat>)
    requires widths == WIDTHS && Fit(fields, widths)
    ensures SYNC_BITS + Total(widths) == 32
    ensures var header := SYNC * 0x20_0000 + Pack(fields, widths);
            && header < 0x1_0000_0000
            && header / 0x20_0000 == SYNC
            && Read(header, 32, SYNC_BITS, widths) == fields
  {
    WidthsFill();
    PackFits(fields, widths);
    PackedBehind(SYNC, fields, 32, SYNC_BITS, widths);
  }

  /** The header of given fields: every choice of fields that fit their widths has one. */
  function HeaderOf(f: Fields): (header: UInt32)
    requires Fit(f.AsSeq(), WIDTHS)
    ensures Synced(header) && FieldsOf(header) == f
  {
    PackedBehindSync(f.AsSeq(), WIDTHS);
    ReadsAreFields(SYNC * 0x20_0000 + Pack(f.AsSeq(), WIDTHS), WIDTHS, f);
    SYNC * 0x20_0000 + Pack(f.AsSeq(), WIDTHS)
  }

  /** A synced header is the header of its fields: the sync bits and the fields are all of it. */
  lemma FieldsReconstructHeader(header: UInt32)
    requires Synced(header)
    ensures Fit(FieldsOf(header).AsSeq(), WIDTHS)
    ensures HeaderOf(FieldsOf(header)) == header
  {
    WidthsFill();
    PackOfRead(header, 32, SYNC_BITS, WIDTHS);
  }

  // ----- Which headers are valid -----

  /** No reserved layer, version or sampling rate, neither free nor forbidden bit rate, no reserved emphasis. */
  lemma ValidIff(f: Fields)
    requires InTables(f)
    ensures ValidFields(f) <==>
              && f.layer != 0
              && 0 < f.bitrateIndex < 15
              && f.samplingFrequency != 3
              && !(f.idex == 0 && f.id == 1)
              && f.emphasis != 2
  {
  }

  // ----- The rates, by laws that do not name the tables -----

  /** Sampling rate of MPEG 1 by its code: 44.1, 48 and 32 kHz. */
  function BaseSampling(code: nat): nat {
    if code == 0 then 44100 else if code == 1 then 48000 else 32000
  }

  /** Eight steps of 8 kbit/s from 32 on, then as many twice as wide, and so on: four to the octave. */
  function Octave(i: nat): nat { (4 + i % 4) * 8 * Pow2(i / 4) }

  /** The bit rate in kbit/s by version, layer and index. */
  function BitrateLaw(id: nat, layer: nat, i: nat): nat
    requires 1 <= i
  {
    if id == 1 then
      if layer == 3 then 32 * i
      else if layer == 1 then Octave(i - 1)
      else if i == 1 then 32 else Octave(i)
    else if layer == 3 then
      if i == 1 then 32 else if i <= 3 then 8 * (i + 4) else if i <= 12 then 16 * i else 32 * (i - 6)
    else if i <= 8 then 8 * i else 16 * (i - 4)
  }

  /** MPEG 2 halves the sampling rates of MPEG 1, and MPEG 2.5 halves them again. */
  lemma SamplingFollowsLaw(f: Fields)
    requires InTables(f) && ValidFields(f)
    ensures SamplingOf(f) * (if f.idex == 0 then 4 else if f.id == 0 then 2 else 1)
         == BaseSampling(f.samplingFrequency)
  {
  }

  lemma Octaves()
    ensures Octave(0) == 32 && Octave(1) == 40 && Octave(2) == 48 && Octave(3) == 56
    ensures Octave(4) == 64 && Octave(5) == 80 && Octave(6) == 96 && Octave(7) == 112
    ensures Octave(8) == 128 && Octave(9) == 160 && Octave(10) == 192 && Octave(11) == 224
    ensures Octave(12) == 256 && Octave(13) == 320 && Octave(14) == 384
  {
    assert Pow2(0) == 1 && Pow2(1) == 2 && Pow2(2) == 4 && Pow2(3) == 8;
  }

  lemma BitrateFollowsLaw(f: Fields)
    requires InTables(f) && ValidFields(f)
    ensures 1 <= f.bitrateIndex
    ensures BitrateOf(f) == BitrateLaw(f.id, f.layer, f.bitrateIndex)
  {
    ValidIff(f);
    Octaves();
  }

  /** The rates of every valid synced header, by the laws. */
  lemma HeaderRates(header: UInt32)
    requires Synced(header)
    ensures var f := FieldsOf(header);
            && InTables(f)
            && (ValidFields(f) ==>
                 && 1 <= f.bitrateIndex
                 && BitrateOf(f) == BitrateLaw(f.id, f.layer, f.bitrateIndex)
                 && SamplingOf(f) * (if f.idex == 0 then 4 else if f.id == 0 then 2 else 1)
                    == BaseSampling(f.samplingFrequency))
  {
    FieldsFit(header);
    FittingInTables(FieldsOf(header));
    if ValidFields(FieldsOf(header)) {
      BitrateFollowsLaw(FieldsOf(header));
      SamplingFollowsLaw(FieldsOf(header));
    }
  }

  /** A frame object that parses a synced header holds, if valid, the rates of the laws. */
  method ParseRates(frame: MpegFrame) returns (f: Fields)
    requires Synced(frame.header)
    modifies frame
    ensures frame.header == old(frame.header) && f == frame.fields == FieldsOf(frame.header)
    ensures frame.valid ==>
              && 1 <= f.bitrateIndex
              && frame.bitrate == BitrateLaw(f.id, f.layer, f.bitrateIndex)
              && frame.sampling * (if f.idex == 0 then 4 else if f.id == 0 then 2 else 1)
                 == BaseSampling(f.samplingFrequency)
    ensures !frame.valid ==> frame.length == 0
  {
    HeaderRates(frame.header);
    frame.ParseMp3Header();
    f := frame.fields;
  }

  // ----- The frame length -----

  predicate Floors(q: int, a: int, s: int) { q * s <= a < (q + 1) * s }

  lemma DivFloors(a: nat, s: nat)
    requires 0 < s
    ensures Floors(a / s, a, s)
  {
    assert a == (a / s) * s + a % s;
    assert (a / s + 1) * s == (a / s) * s + s;
  }

  /** Dividing first and halving afterwards loses nothing against halving first. */
  lemma HalvedQuotient(a: nat, s: nat)
    requires 0 < s
    ensures 2 * a / s / 2 == a / s
  {
    var e, r := a / s, a % s;
    assert a == e * s + r;
    if 2 * r < s {
      DivModUnique(2 * a, s, 2 * e, 2 * r);
    } else {
      DivModUnique(2 * a, s, 2 * e + 1, 2 * r - s);
    }
  }

  /** What a slot count rounds down, over the sampling rate: 4-byte slots in Layer 1, bytes otherwise. */
  function SlotRate(f: Fields): nat {
    if f.layer == 3 then 12000 else if f.id == 1 then 144000 else 72000
  }

  /** Slots in a frame, by the code's length. */
  function Slots(f: Fields, length: int): int {
    if f.layer == 3 then length / 4 else length
  }

  /** Whatever the rates, a frame less its padding slot is the exact quotient rounded down to a slot. */
  lemma LengthIsExactQuotient(f: Fields, bitrate: nat, sampling: nat)
    requires 0 < sampling && f.id < 2
    ensures var length := FrameLength(f, bitrate, sampling);
            && Floors(Slots(f, length) - f.paddingBit, SlotRate(f) * bitrate, sampling)
            && (f.layer == 3 ==> length == 4 * Slots(f, length))
  {
    DivFloors(SlotRate(f) * bitrate, sampling);
    if f.layer != 3 && f.id == 0 {
      HalvedQuotient(72000 * bitrate, sampling);
    }
  }

  /** The rates of the tables, by version and layer. */
  lemma RatesOfValid(f: Fields)
    requires InTables(f) && ValidFields(f)
    ensures var b, s := BitrateOf(f), SamplingOf(f);
            && (if f.id == 0 then s in {8000, 11025, 12000, 16000, 22050, 24000} else s in {32000, 44100, 48000})
            && (f.id == 0 ==> if f.layer == 3 then 32 <= b <= 256 else 8 <= b <= 160)
            && (f.id == 1 ==> 32 <= b <= if f.layer == 3 then 448 else 384)
  {
  }

  lemma BoundsOfRates(f: Fields, b: nat, s: nat)
    requires f.id < 2 && f.paddingBit < 2
    requires if f.id == 0 then s in {8000, 11025, 12000, 16000, 22050, 24000} else s in {32000, 44100, 48000}
    requires f.id == 0 ==> if f.layer == 3 then 32 <= b <= 256 else 8 <= b <= 160
    requires f.id == 1 ==> 32 <= b <= if f.layer == 3 then 448 else 384
    ensures 24 <= FrameLength(f, b, s) <= 1729
  {
  }

  lemma LengthBounds(f: Fields)
    requires InTables(f) && ValidFields(f) && f.paddingBit < 2
    ensures 144000 * BitrateOf(f) < 0x8000_0000
    ensures 24 <= LengthOf(f) <= 1729
  {
    RatesOfValid(f);
    BoundsOfRates(f, BitrateOf(f), SamplingOf(f));
  }

  /** Of every valid header the 32-bit products do not overflow and the length stays within bounds; else it is 0. */
  lemma HeaderLengthBounds(header: UInt32)
    requires Synced(header)
    ensures var f := FieldsOf(header);
            && InTables(f)
            && (ValidFields(f) ==> 144000 * BitrateOf(f) < 0x8000_0000 && 24 <= LengthOf(f) <= 1729)
            && (!ValidFields(f) ==> LengthOf(f) == 0)
  {
    FieldsFit(header);
    FittingInTables(FieldsOf(header));
    if ValidFields(FieldsOf(header)) {
      LengthBounds(FieldsOf(header));
    }
  }

  /**
   * The frame length of sections 2.4.2.3 and 2.4.3.1 of ISO/IEC 11172-3, with the half frame
   * of ISO/IEC 13818-3 at low sampling rates, which that standard has for Layer III alone.
   * Neither defines MPEG 2.5 (an IDex of 0): for it, this is the usual extension of the low-rate
   * formula to still lower rates.
   */
  function StandardLength(f: Fields, bitrate: nat, sampling: nat): int
    requires 0 < sampling
  {
    if f.layer == 3 then 4 * (12000 * bitrate / sampling + f.paddingBit)
    else if f.layer == 2 || f.id == 1 then 144000 * bitrate / sampling + f.paddingBit
    else 72000 * bitrate / sampling + f.paddingBit
  }

  lemma StandardForRates(f: Fields, b: nat, s: nat)
    requires 1 <= f.layer <= 3 && f.id < 2 && 0 < s
    requires f.id == 0 ==> s <= 24000 && 8 <= b
    ensures FrameLength(f, b, s) == StandardLength(f, b, s) <==> !(f.layer == 2 && f.id == 0)
  {
    if f.id == 0 && f.layer != 3 {
      HalvedQuotient(72000 * b, s);
      DivFloors(144000 * b, s);
      assert 144000 * b / s > 0;
    }
  }

  lemma LengthStandardIff(f: Fields)
    requires InTables(f) && ValidFields(f)
    ensures LengthOf(f) == StandardLength(f, BitrateOf(f), SamplingOf(f)) <==> !(f.layer == 2 && f.id == 0)
  {
    RatesOfValid(f);
    ValidIff(f);
    StandardForRates(f, BitrateOf(f), SamplingOf(f));
  }

  /** Of a valid header the code's length is the standard one except for low-rate Layer II, where it never is. */
  lemma HeaderLengthStandardIff(header: UInt32)
    requires Synced(header)
    ensures var f := FieldsOf(header);
            && InTables(f)
            && (ValidFields(f) ==>
                 (LengthOf(f) == StandardLength(f, BitrateOf(f), SamplingOf(f)) <==> !(f.layer == 2 && f.id == 0)))
  {
    FieldsFit(header);
    FittingInTables(FieldsOf(header));
    if ValidFields(FieldsOf(header)) {
      LengthStandardIff(FieldsOf(header));
    }
  }

  /** The fields of a Layer II frame of 64 kbit/s at 24000 Hz. */
  const LOW_RATE_LAYER_2 := Fields(1, 0, 2, 1, 8, 1, 0, 0, 0, 0, 0, 0, 0)

  lemma LowRateLayer2Fits()
    ensures Fit(LOW_RATE_LAYER_2.AsSeq(), WIDTHS)
  {
    var s := LOW_RATE_LAYER_2.AsSeq();
    assert Pow2(1) == 2 && Pow2(2) == 4 && Pow2(4) == 16;
    forall i | 0 <= i < 13 ensures s[i] < Pow2(WIDTHS[i]) {
      assert WIDTHS[i] in {1, 2, 4} && s[i] <= 8 && (WIDTHS[i] != 4 ==> s[i] <= WIDTHS[i]);
    }
  }

  /** Its length by the code and by the standard. */
  predicate Halved(f: Fields) {
    && InTables(f) && ValidFields(f) && f.layer == 2 && BitrateOf(f) == 64 && SamplingOf(f) == 24000
    && LengthOf(f) == 192 && StandardLength(f, 64, 24000) == 384
  }

  lemma LowRateLayer2Length()
    ensures Halved(LOW_RATE_LAYER_2)
  {
  }

  /** A header the code receives, of a low-rate Layer II frame, whose length it halves. */
  lemma LowRateLayer2Halved() returns (header: UInt32)
    ensures Synced(header) && FieldsOf(header) == LOW_RATE_LAYER_2 && Halved(FieldsOf(header))
  {
    LowRateLayer2Length();
    LowRateLayer2Fits();
    header := HeaderOf(LOW_RATE_LAYER_2);
  }
}
