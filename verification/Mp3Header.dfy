/** parse_mp3header: the 32-bit frame header of MPEG audio, and the length of the frame. */
module Mp3Header {
  import opened BitFields
  import opened MachineInts

  /** BITRATE[ID][layer], in kbit/s by bitrate_index. */
  function BitrateRow(id: nat, layer: nat): (row: seq<nat>)
    requires id < 2 && layer < 4
    ensures |row| == 16
  {
    if layer == 0 then [0, 0, 0, 0, 0, 0, 0, 0, 0, 0, 0, 0, 0, 0, 0, 0]
    else if id == 0 then
      if layer == 3 then [0, 32, 48, 56, 64, 80, 96, 112, 128, 144, 160, 176, 192, 224, 256, 0]
      else [0, 8, 16, 24, 32, 40, 48, 56, 64, 80, 96, 112, 128, 144, 160, 0]
    else if layer == 1 then [0, 32, 40, 48, 56, 64, 80, 96, 112, 128, 160, 192, 224, 256, 320, 0]
    else if layer == 2 then [0, 32, 48, 56, 64, 80, 96, 112, 128, 160, 192, 224, 256, 320, 384, 0]
    else [0, 32, 64, 96, 128, 160, 192, 224, 256, 288, 320, 352, 384, 416, 448, 0]
  }

  /** SAMPLING[IDex][ID], in Hz by sampling_frequency. */
  function SamplingRow(idex: nat, id: nat): (row: seq<nat>)
    requires idex < 2 && id < 2
    ensures |row| == 4
  {
    if idex == 0 then if id == 0 then [11025, 12000, 8000, 0] else [0, 0, 0, 0]
    else if id == 0 then [22050, 24000, 16000, 0]
    else [44100, 48000, 32000, 0]
  }

  /** The thirteen fields after the eleven sync bits. */
  datatype Fields = Fields(
    idex: nat, id: nat, layer: nat, protectionBit: nat, bitrateIndex: nat,
    samplingFrequency: nat, paddingBit: nat, privateBit: nat, mode: nat,
    modeExtension: nat, copyright: nat, original: nat, emphasis: nat)
  {
    function AsSeq(): (s: seq<nat>)
      ensures |s| == 13
    {
      [idex, id, layer, protectionBit, bitrateIndex, samplingFrequency, paddingBit,
       privateBit, mode, modeExtension, copyright, original, emphasis]
    }
  }

  function FromSeq(s: seq<nat>): (f: Fields)
    requires |s| == 13
    ensures f.AsSeq() == s
  {
    Fields(s[0], s[1], s[2], s[3], s[4], s[5], s[6], s[7], s[8], s[9], s[10], s[11], s[12])
  }

  const WIDTHS: seq<nat> := [1, 1, 2, 1, 4, 2, 1, 1, 2, 2, 1, 1, 2]

  const SYNC := 0x7FF
  const SYNC_BITS := 11

  predicate Synced(header: UInt32) { header / 0x20_0000 == SYNC }

  lemma Pow21()
    ensures Pow2(21) == 0x20_0000
  {
    assert Pow2(7) == 128;
    Pow2Add(7, 7);
    Pow2Add(14, 7);
  }

  /** Where each field starts, counted from behind the sync bits. */
  lemma Offsets(w: seq<nat>)
    requires w == WIDTHS
    ensures Total(w[..0]) == 0 && Total(w[..1]) == 1 && Total(w[..2]) == 2 && Total(w[..3]) == 4
    ensures Total(w[..4]) == 5 && Total(w[..5]) == 9 && Total(w[..6]) == 11 && Total(w[..7]) == 12
    ensures Total(w[..8]) == 13 && Total(w[..9]) == 15 && Total(w[..10]) == 17 && Total(w[..11]) == 18
    ensures Total(w[..12]) == 19 && Total(w[..13]) == 21
  {
    TotalStep(w, 0);
    TotalStep(w, 1);
    TotalStep(w, 2);
    TotalStep(w, 3);
    TotalStep(w, 4);
    TotalStep(w, 5);
    TotalStep(w, 6);
    TotalStep(w, 7);
    TotalStep(w, 8);
    TotalStep(w, 9);
    TotalStep(w, 10);
    TotalStep(w, 11);
    TotalStep(w, 12);
  }

  lemma WidthsFill()
    ensures Total(WIDTHS) == 21 && Pow2(21) == 0x20_0000
  {
    Pow21();
    Offsets(WIDTHS);
    assert WIDTHS[..13] == WIDTHS;
  }

  /** Thirteen successive reads, from behind the sync bits to the end of the header. */
  function FieldsOf(header: UInt32): Fields {
    WidthsFill();
    FromSeq(Read(header, 32, SYNC_BITS, WIDTHS))
  }

  predicate InTables(f: Fields) {
    f.idex < 2 && f.id < 2 && f.layer < 4 && f.bitrateIndex < 16 && f.samplingFrequency < 4
  }

  function BitrateOf(f: Fields): nat
    requires InTables(f)
  {
    BitrateRow(f.id, f.layer)[f.bitrateIndex]
  }

  function SamplingOf(f: Fields): nat
    requires InTables(f)
  {
    SamplingRow(f.idex, f.id)[f.samplingFrequency]
  }

  predicate ValidFields(f: Fields)
    requires InTables(f)
  {
    BitrateOf(f) != 0 && SamplingOf(f) != 0 && f.emphasis != 2
  }

  /** The length as the switch computes it from the rates, for a layer other than 0. */
  function FrameLength(f: Fields, bitrate: nat, sampling: nat): int
    requires 0 < sampling
  {
    if f.layer == 3 then (12000 * bitrate / sampling + f.paddingBit) * 4
    else
      var quotient := 144000 * bitrate / sampling;
      (if f.id == 0 then quotient / 2 else quotient) + f.paddingBit
  }

  function LengthOf(f: Fields): int
    requires InTables(f)
  {
    if ValidFields(f) then FrameLength(f, BitrateOf(f), SamplingOf(f)) else 0
  }

  lemma FieldsFit(header: UInt32)
    ensures Fit(FieldsOf(header).AsSeq(), WIDTHS)
  {
    WidthsFill();
    PackOfRead(header, 32, SYNC_BITS, WIDTHS);
  }

  lemma FittingInTables(f: Fields)
    requires Fit(f.AsSeq(), WIDTHS)
    ensures InTables(f) && f.paddingBit < 2
  {
    var s := f.AsSeq();
    assert Pow2(1) == 2 && Pow2(2) == 4 && Pow2(4) == 16;
    assert s[0] < Pow2(WIDTHS[0]) && s[1] < Pow2(WIDTHS[1]) && s[2] < Pow2(WIDTHS[2]);
    assert s[4] < Pow2(WIDTHS[4]) && s[5] < Pow2(WIDTHS[5]) && s[6] < Pow2(WIDTHS[6]);
  }

  lemma SameFields(f: Fields, g: Fields)
    requires f.AsSeq() == g.AsSeq()
    ensures f == g
  {
    var s, t := f.AsSeq(), g.AsSeq();
    assert s[0] == t[0] && s[1] == t[1] && s[2] == t[2] && s[3] == t[3] && s[4] == t[4];
    assert s[5] == t[5] && s[6] == t[6] && s[7] == t[7] && s[8] == t[8] && s[9] == t[9];
    assert s[10] == t[10] && s[11] == t[11] && s[12] == t[12];
  }

  lemma ReadsAreFields(header: UInt32, widths: seq<nat>, f: Fields)
    requires widths == WIDTHS && SYNC_BITS + Total(widths) <= 32
    requires Read(header, 32, SYNC_BITS, widths) == f.AsSeq()
    ensures f == FieldsOf(header) && InTables(f)
  {
    SameFields(f, FieldsOf(header));
    FieldsFit(header);
    FittingInTables(f);
  }

  /** The fields by the bits they start at. */
  function FieldsAtOffsets(header: UInt32): Fields {
    Fields(
      Field(header, 32, 11, 1), Field(header, 32, 12, 1), Field(header, 32, 13, 2),
      Field(header, 32, 15, 1), Field(header, 32, 16, 4), Field(header, 32, 20, 2),
      Field(header, 32, 22, 1), Field(header, 32, 23, 1), Field(header, 32, 24, 2),
      Field(header, 32, 26, 2), Field(header, 32, 28, 1), Field(header, 32, 29, 1),
      Field(header, 32, 30, 2))
  }

  lemma OffsetsAreSuccessive(header: UInt32)
    ensures FieldsAtOffsets(header) == FieldsOf(header)
  {
    WidthsFill();
    Offsets(WIDTHS);
    ReadAt(header, 32, SYNC_BITS, WIDTHS, 0);
    ReadAt(header, 32, SYNC_BITS, WIDTHS, 1);
    ReadAt(header, 32, SYNC_BITS, WIDTHS, 2);
    ReadAt(header, 32, SYNC_BITS, WIDTHS, 3);
    ReadAt(header, 32, SYNC_BITS, WIDTHS, 4);
    ReadAt(header, 32, SYNC_BITS, WIDTHS, 5);
    ReadAt(header, 32, SYNC_BITS, WIDTHS, 6);
    ReadAt(header, 32, SYNC_BITS, WIDTHS, 7);
    ReadAt(header, 32, SYNC_BITS, WIDTHS, 8);
    ReadAt(header, 32, SYNC_BITS, WIDTHS, 9);
    ReadAt(header, 32, SYNC_BITS, WIDTHS, 10);
    ReadAt(header, 32, SYNC_BITS, WIDTHS, 11);
    ReadAt(header, 32, SYNC_BITS, WIDTHS, 12);
  }

  method ReadFields(header: UInt32) returns (f: Fields)
    ensures f == FieldsOf(header) && InTables(f)
  {
    var bitoffset := 11;
    var idex, id, layer, protectionBit, bitrateIndex, samplingFrequency;
    var paddingBit, privateBit, mode, modeExtension, copyright, original, emphasis;
    idex, bitoffset := Bits(header, 32, bitoffset, 1);
    id, bitoffset := Bits(header, 32, bitoffset, 1);
    layer, bitoffset := Bits(header, 32, bitoffset, 2);
    protectionBit, bitoffset := Bits(header, 32, bitoffset, 1);
    bitrateIndex, bitoffset := Bits(header, 32, bitoffset, 4);
    samplingFrequency, bitoffset := Bits(header, 32, bitoffset, 2);
    paddingBit, bitoffset := Bits(header, 32, bitoffset, 1);
    privateBit, bitoffset := Bits(header, 32, bitoffset, 1);
    mode, bitoffset := Bits(header, 32, bitoffset, 2);
    modeExtension, bitoffset := Bits(header, 32, bitoffset, 2);
    copyright, bitoffset := Bits(header, 32, bitoffset, 1);
    original, bitoffset := Bits(header, 32, bitoffset, 1);
    emphasis, bitoffset := Bits(header, 32, bitoffset, 2);
    f := Fields(idex, id, layer, protectionBit, bitrateIndex, samplingFrequency, paddingBit,
                privateBit, mode, modeExtension, copyright, original, emphasis);
    OffsetsAreSuccessive(header);
    FieldsFit(header);
    FittingInTables(f);
  }

  class MpegFrame {
    var header: UInt32
    var fields: Fields
    var bitrate: nat
    var sampling: nat
    var length: int
    var valid: bool

    /** Without the sync bits only `valid` is written. */
    method ParseMp3Header()
      modifies this
      ensures header == old(header)
      ensures !Synced(header) ==>
                !valid && fields == old(fields) && bitrate == old(bitrate)
                && sampling == old(sampling) && length == old(length)
      ensures Synced(header) ==>
                && fields == FieldsOf(header)
                && InTables(fields)
                && bitrate == BitrateOf(fields)
                && sampling == SamplingOf(fields)
                && valid == ValidFields(fields)
                && length == LengthOf(fields)
    {
      if header / 0x20_0000 != 0x7FF {
        valid := false;
        return;
      }
      fields := ReadFields(header);
      SetRates();
    }

    /** The two table lookups and the length. */
    method SetRates()
      requires InTables(fields)
      modifies `bitrate, `sampling, `valid, `length
      ensures bitrate == BitrateOf(fields) && sampling == SamplingOf(fields)
      ensures valid == ValidFields(fields) && length == LengthOf(fields)
    {
      bitrate := BitrateRow(fields.id, fields.layer)[fields.bitrateIndex];
      sampling := SamplingRow(fields.idex, fields.id)[fields.samplingFrequency];
      valid := bitrate != 0 && sampling != 0 && fields.emphasis != 2;
      if valid {
        SetLength();
      } else {
        length := 0;
      }
    }

    /** The switch on the layer; layer 0 has no bit rate and does not come here. */
    method SetLength()
      requires 0 < sampling && 1 <= fields.layer <= 3
      modifies `length
      ensures length == FrameLength(fields, bitrate, sampling)
    {
      if fields.layer == 3 {
        length := (12000 * bitrate / sampling + fields.paddingBit) * 4;
      } else if fields.layer == 2 || fields.layer == 1 {
        length := 144000 * bitrate / sampling;
        if fields.id == 0 {
          length := length / 2;
        }
        length := length + fields.paddingBit;
      }
    }
  }
}
