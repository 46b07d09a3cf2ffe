/**
 * common_setting: the volume index and the mute flag as strings in the settings file.
 * The file is a map from setting names to values; a read fails when the name is missing.
 */
module Settings {
  type Entries = map<string, string>

  const VOLUME := "Volume"
  const MUTE := "Mute"

  // ----- sprintf("%d") and atoi -----

  predicate IsDigit(c: char) { '0' <= c <= '9' }

  function DigitChar(d: nat): (c: char)
    requires d < 10
    ensures IsDigit(c) && c as int - '0' as int == d
  {
    ('0' as int + d) as char
  }

  function Digits(n: nat): (s: string)
    ensures s != [] && forall c :: c in s ==> IsDigit(c)
  {
    if n < 10 then [DigitChar(n)] else Digits(n / 10) + [DigitChar(n % 10)]
  }

  function Decimal(n: int): string {
    if n < 0 then "-" + Digits(-n) else Digits(n)
  }

  predicate IsSpace(c: char) { c in " \t\n\r" || c as int == 11 || c as int == 12 }

  /** The digits at the front of a string, read after a value `soFar`. */
  function ReadDigits(s: string, soFar: nat): nat {
    if s == [] || !IsDigit(s[0]) then soFar
    else ReadDigits(s[1..], soFar * 10 + (s[0] as int - '0' as int))
  }

  /** White space, one optional sign, then digits up to the first other character. */
  function Atoi(s: string): int {
    if s == [] then 0
    else if IsSpace(s[0]) then Atoi(s[1..])
    else if s[0] == '-' then -(ReadDigits(s[1..], 0) as int)
    else if s[0] == '+' then ReadDigits(s[1..], 0)
    else ReadDigits(s, 0)
  }

  /** Decimal notation: digits alone, no leading zero but in 0 itself, a minus sign below 0. */
  lemma {:induction false} DecimalIsCanonical(n: int)
    ensures n == 0 ==> Decimal(n) == "0"
    ensures n > 0 ==> Decimal(n)[0] != '0' && forall c :: c in Decimal(n) ==> IsDigit(c)
    ensures n < 0 ==> Decimal(n) == "-" + Decimal(-n)
    decreases if n < 0 then -n else n, n < 0
  {
    if n >= 10 {
      DecimalIsCanonical(n / 10);
    }
  }

  function Pow10(k: nat): nat { if k == 0 then 1 else 10 * Pow10(k - 1) }

  lemma {:induction false} DigitsFit(n: nat, k: nat)
    requires 0 < k && n < Pow10(k)
    ensures |Digits(n)| <= k
  {
    if n >= 10 {
      DigitsFit(n / 10, k - 1);
    }
  }

  /** Every 32-bit integer prints in eleven characters or fewer. */
  lemma DecimalFits(n: int)
    requires -0x8000_0000 <= n < 0x8000_0000
    ensures |Decimal(n)| <= 11
  {
    assert Pow10(5) == 100000;
    assert Pow10(10) == 100000 * Pow10(5);
    DigitsFit(if n < 0 then -n else n, 10);
  }

  lemma {:induction false} ReadDigitsAppend(s: string, c: char, soFar: nat)
    requires IsDigit(c) && forall x :: x in s ==> IsDigit(x)
    ensures ReadDigits(s + [c], soFar) == ReadDigits(s, soFar) * 10 + (c as int - '0' as int)
    decreases |s|
  {
    if s == [] {
      assert (s + [c])[1..] == [];
    } else {
      assert IsDigit(s[0]);
      ReadDigitsAppend(s[1..], c, soFar * 10 + (s[0] as int - '0' as int));
      assert (s + [c])[1..] == s[1..] + [c];
    }
  }

  lemma {:induction false} ReadDigitsOfDigits(n: nat)
    ensures ReadDigits(Digits(n), 0) == n
  {
    if n < 10 {
      assert Digits(n)[1..] == [];
    } else {
      ReadDigitsOfDigits(n / 10);
      ReadDigitsAppend(Digits(n / 10), DigitChar(n % 10), 0);
    }
  }

  /** Printing and reading back any integer gives the integer. */
  lemma AtoiOfDecimal(n: int)
    ensures Atoi(Decimal(n)) == n
  {
    if n < 0 {
      assert Decimal(n)[1..] == Digits(-n);
      ReadDigitsOfDigits(-n);
    } else {
      assert Digits(n)[0] in Digits(n);
      ReadDigitsOfDigits(n);
    }
  }

  lemma {:induction false} ReadDigitsStops(s: string, rest: string, soFar: nat)
    requires (forall c :: c in s ==> IsDigit(c)) && (rest == [] || !IsDigit(rest[0]))
    ensures ReadDigits(s + rest, soFar) == ReadDigits(s, soFar)
    decreases |s|
  {
    if s == [] {
      assert s + rest == rest;
    } else {
      assert s[0] in s;
      ReadDigitsStops(s[1..], rest, soFar * 10 + (s[0] as int - '0' as int));
      assert (s + rest)[1..] == s[1..] + rest;
    }
  }

  lemma {:induction false} AtoiSkipsSpace(space: string, s: string)
    requires forall c :: c in space ==> IsSpace(c)
    ensures Atoi(space + s) == Atoi(s)
    decreases |space|
  {
    if space == [] {
      assert space + s == s;
    } else {
      assert space[0] in space;
      AtoiSkipsSpace(space[1..], s);
      assert (space + s)[1..] == space[1..] + s;
    }
  }

  /** Any white space, an optional sign, digits, and anything that is no digit behind them. */
  lemma AtoiReads(space: string, sign: string, n: nat, rest: string)
    requires (forall c :: c in space ==> IsSpace(c)) && sign in ["", "+", "-"]
    requires rest == [] || !IsDigit(rest[0])
    ensures Atoi(space + (sign + (Digits(n) + rest))) == if sign == "-" then -(n as int) else n
  {
    var digits := Digits(n) + rest;
    AtoiSkipsSpace(space, sign + digits);
    ReadDigitsStops(Digits(n), rest, 0);
    ReadDigitsOfDigits(n);
    assert digits[0] == Digits(n)[0] && Digits(n)[0] in Digits(n);
    if sign == "" {
      assert sign + digits == digits;
    } else {
      assert (sign + digits)[1..] == digits;
    }
  }

  // ----- The settings file -----

  predicate Muted(entries: Entries) {
    MUTE in entries && entries[MUTE] != [] && entries[MUTE][0] == '1'
  }

  /** Mute is on exactly for an entry that begins with 1; missing, empty or anything else is off. */
  lemma MutedIff(entries: Entries)
    ensures Muted(entries) <==> MUTE in entries && exists rest :: entries[MUTE] == "1" + rest
  {
    if Muted(entries) {
      assert entries[MUTE] == "1" + entries[MUTE][1..];
    }
  }

  class IntCell {
    var value: int
  }

  class SettingStore {
    var entries: Entries

    method WriteXmlSetting(name: string, value: string)
      modifies this
      ensures entries == old(entries)[name := value]
    {
      entries := entries[name := value];
    }

    method ReadXmlSetting(name: string, buffer: string) returns (failed: bool, value: string)
      ensures failed <==> name !in entries
      ensures value == if failed then buffer else entries[name]
    {
      failed := name !in entries;
      value := if failed then buffer else entries[name];
    }

    method IfMute() returns (r: bool)
      ensures r <==> Muted(entries)
    {
      var _, xmlvalue := ReadXmlSetting(MUTE, "");
      r := xmlvalue != [] && xmlvalue[0] == '1';
    }

    method SetMute()
      modifies this
      ensures entries == old(entries)[MUTE := "1"] && Muted(entries)
    {
      WriteXmlSetting(MUTE, "1");
    }

    method UnsetMute()
      modifies this
      ensures entries == old(entries)[MUTE := "0"] && !Muted(entries)
    {
      WriteXmlSetting(MUTE, "0");
    }

    method SaveVolumeIndex(volume: int)
      modifies this
      ensures entries == old(entries)[VOLUME := Decimal(volume)]
    {
      WriteXmlSetting(VOLUME, Decimal(volume));
    }

    /** On a failed read the caller's value is left alone: the code clears its own pointer. */
    method ReadVolumeIndex(volume: IntCell) returns (ret: int)
      modifies volume
      ensures ret == if VOLUME in entries then 0 else -1
      ensures volume.value == if VOLUME in entries then Atoi(entries[VOLUME]) else old(volume.value)
    {
      var failed, xmlvalue := ReadXmlSetting(VOLUME, "");
      if failed {
        return -1;
      }
      volume.value := Atoi(xmlvalue);
      return 0;
    }
  }

  /** Saving and reading back: any integer survives, and every other entry is as it was. */
  lemma SavedVolumeReadsBack(entries: Entries, volume: int)
    ensures var after := entries[VOLUME := Decimal(volume)];
            && Atoi(after[VOLUME]) == volume
            && (Muted(after) <==> Muted(entries))
            && after - {VOLUME} == entries - {VOLUME}
  {
    AtoiOfDecimal(volume);
  }

  /** The round trip on the store: whatever it held, the volume saved is the volume read. */
  method SaveAndRead(store: SettingStore, volume: int, cell: IntCell) returns (ret: int)
    modifies store, cell
    ensures ret == 0 && cell.value == volume
    ensures store.entries - {VOLUME} == old(store.entries) - {VOLUME}
    ensures Muted(store.entries) <==> Muted(old(store.entries))
  {
    SavedVolumeReadsBack(store.entries, volume);
    store.SaveVolumeIndex(volume);
    ret := store.ReadVolumeIndex(cell);
  }
}
