/**
 * The bits macro of mp3_parse.h: successive fields of a value, most significant first,
 * with a cursor that each read moves on.
 */
module BitFields {
  function Pow2(n: nat): (p: nat)
    ensures 0 < p
  {
    if n == 0 then 1 else 2 * Pow2(n - 1)
  }

  /** `(value>>(size-(bit+nbits)))&((1<<nbits)-1)` */
  function Field(value: nat, size: nat, bit: nat, nbits: nat): nat
    requires bit + nbits <= size
  {
    value / Pow2(size - (bit + nbits)) % Pow2(nbits)
  }

  function Total(widths: seq<nat>): nat {
    if widths == [] then 0 else widths[0] + Total(widths[1..])
  }

  /** Successive reads of fields of the given widths. */
  function Read(value: nat, size: nat, bit: nat, widths: seq<nat>): (fields: seq<nat>)
    requires bit + Total(widths) <= size
    ensures |fields| == |widths|
    decreases |widths|, value
  {
    if widths == [] then []
    else [Field(value, size, bit, widths[0])] + Read(value, size, bit + widths[0], widths[1..])
  }

  lemma {:induction false} TotalAppend(a: seq<nat>, b: seq<nat>)
    ensures Total(a + b) == Total(a) + Total(b)
  {
    if a == [] {
      assert a + b == b;
    } else {
      TotalAppend(a[1..], b);
      assert (a + b)[1..] == a[1..] + b;
    }
  }

  /** The k-th of successive reads is the field behind the widths of the k before it. */
  lemma {:induction false} ReadAt(value: nat, size: nat, bit: nat, widths: seq<nat>, k: nat)
    requires bit + Total(widths) <= size && k < |widths|
    ensures bit + Total(widths[..k]) + widths[k] <= size
    ensures Read(value, size, bit, widths)[k] == Field(value, size, bit + Total(widths[..k]), widths[k])
    decreases |widths|
  {
    if k > 0 {
      ReadAt(value, size, bit + widths[0], widths[1..], k - 1);
      assert widths[..k][1..] == widths[1..][..k - 1];
    }
  }

  lemma TotalStep(widths: seq<nat>, k: nat)
    requires k < |widths|
    ensures Total(widths[..k + 1]) == Total(widths[..k]) + widths[k]
  {
    TotalAppend(widths[..k], [widths[k]]);
    assert widths[..k + 1] == widths[..k] + [widths[k]];
  }

  /** The macro: reads a field and moves the cursor past it. */
  method Bits(value: nat, size: nat, bit: nat, nbits: nat) returns (field: nat, cursor: nat)
    requires bit + nbits <= size
    ensures field == Field(value, size, bit, nbits)
    ensures cursor == bit + nbits
  {
    cursor := bit + nbits;
    field := value / Pow2(size - cursor) % Pow2(nbits);
  }

  /** Any succession of reads with the moving cursor: the fields, and where the cursor ends. */
  method ReadAll(value: nat, size: nat, bit: nat, widths: seq<nat>) returns (fields: seq<nat>, cursor: nat)
    requires bit + Total(widths) <= size
    ensures fields == Read(value, size, bit, widths) && cursor == bit + Total(widths)
  {
    fields, cursor := [], bit;
    for k := 0 to |widths|
      invariant cursor == bit + Total(widths[..k])
      invariant fields == Read(value, size, bit, widths)[..k]
    {
      ReadAt(value, size, bit, widths, k);
      TotalStep(widths, k);
      var field;
      field, cursor := Bits(value, size, cursor, widths[k]);
      fields := fields + [field];
    }
    assert widths[..|widths|] == widths;
  }

  /** Fields put side by side, the first one most significant. */
  function Pack(fields: seq<nat>, widths: seq<nat>): nat
    requires |fields| == |widths|
  {
    if widths == [] then 0
    else fields[0] * Pow2(Total(widths[1..])) + Pack(fields[1..], widths[1..])
  }

  predicate Fit(fields: seq<nat>, widths: seq<nat>) {
    |fields| == |widths| && forall i :: 0 <= i < |fields| ==> fields[i] < Pow2(widths[i])
  }

  lemma DoubleProduct(x: int, y: int)
    ensures 2 * (x * y) == (2 * x) * y
  {
  }

  lemma {:induction false} Pow2Add(a: nat, b: nat)
    ensures Pow2(a + b) == Pow2(a) * Pow2(b)
  {
    if a > 0 {
      Pow2Add(a - 1, b);
      assert a + b - 1 == (a - 1) + b;
      DoubleProduct(Pow2(a - 1), Pow2(b));
    }
  }

  /** A quotient and remainder are determined by their bounds. */
  lemma DivModUnique(x: int, d: int, q: int, r: int)
    requires 0 < d && x == q * d + r && 0 <= r < d
    ensures x / d == q && x % d == r
  {
    var e := x / d - q;
    assert x == (x / d) * d + x % d;
    assert e * d == r - x % d by { assert (x / d) * d == (q + e) * d == q * d + e * d; }
  }

  lemma MulLe(a: int, b: int, t: nat)
    requires a <= b
    ensures a * t <= b * t
  {
    assert (b - a) * t >= 0;
  }

  lemma DigitBelow(f: int, p: int, low: nat, t: nat)
    requires f < p && low < t
    ensures f * t + low < p * t
  {
    MulLe(f, p - 1, t);
    assert (p - 1) * t == p * t - t;
  }

  lemma Distribute(x: int, a: int, f: int, b: int)
    ensures (x * a + f) * b == x * (a * b) + f * b
  {
    assert (x * a + f) * b == (x * a) * b + f * b;
  }

  /** The low bits of a value are a field followed by the bits below it. */
  lemma ModSplit(x: nat, a: nat, b: nat)
    requires 0 < a && 0 < b
    ensures a * b > 0 && x % (a * b) == (x / b % a) * b + x % b
  {
    var y := x / b;
    var q, r := y / a, y % a;
    Distribute(q, a, r, b);
    assert x == y * b + x % b;
    DigitBelow(r, a, x % b, b);
    DivModUnique(x, a * b, q, r * b + x % b);
  }

  /** Reading all the remaining bits and packing them again gives those bits back. */
  lemma {:induction false} PackOfRead(value: nat, size: nat, bit: nat, widths: seq<nat>)
    requires bit + Total(widths) == size
    ensures Pack(Read(value, size, bit, widths), widths) == value % Pow2(Total(widths))
    ensures Fit(Read(value, size, bit, widths), widths)
    decreases |widths|
  {
    if widths != [] {
      var rest := widths[1..];
      PackOfRead(value, size, bit + widths[0], rest);
      Pow2Add(widths[0], Total(rest));
      ModSplit(value, Pow2(widths[0]), Pow2(Total(rest)));
    }
  }

  lemma {:induction false} PackFits(fields: seq<nat>, widths: seq<nat>)
    requires Fit(fields, widths)
    ensures Pack(fields, widths) < Pow2(Total(widths))
  {
    if widths != [] {
      var p, t := Pow2(widths[0]), Pow2(Total(widths[1..]));
      PackFits(fields[1..], widths[1..]);
      Pow2Add(widths[0], Total(widths[1..]));
      DigitBelow(fields[0], p, Pack(fields[1..], widths[1..]), t);
    }
  }

  /** One field between a prefix and the bits below it. */
  lemma FieldBetween(prefix: nat, p: nat, f: nat, t: nat, low: nat)
    requires f < p && low < t
    ensures (prefix * (p * t) + (f * t + low)) / t == prefix * p + f
    ensures prefix * (p * t) + (f * t + low) == (prefix * p + f) * t + low
    ensures (prefix * p + f) % p == f
  {
    Distribute(prefix, p, f, t);
    DivModUnique(prefix * (p * t) + (f * t + low), t, prefix * p + f, low);
    DivModUnique(prefix * p + f, p, prefix, f);
  }

  /** Reading packed fields gives them back, whatever stands in front of them. */
  lemma {:induction false} ReadOfPack(prefix: nat, fields: seq<nat>, size: nat, bit: nat, widths: seq<nat>)
    requires Fit(fields, widths) && bit + Total(widths) == size
    ensures Read(prefix * Pow2(Total(widths)) + Pack(fields, widths), size, bit, widths) == fields
    decreases |widths|
  {
    if widths != [] {
      var rest := widths[1..];
      PackFits(fields[1..], rest);
      Pow2Add(widths[0], Total(rest));
      FieldBetween(prefix, Pow2(widths[0]), fields[0], Pow2(Total(rest)), Pack(fields[1..], rest));
      ReadOfPack(prefix * Pow2(widths[0]) + fields[0], fields[1..], size, bit + widths[0], rest);
    }
  }

  /** Packed fields, behind a prefix: the prefix is what stands above them, and reading gives them back. */
  lemma PackedBehind(prefix: nat, fields: seq<nat>, size: nat, bit: nat, widths: seq<nat>)
    requires Fit(fields, widths) && bit + Total(widths) == size
    ensures var value := prefix * Pow2(Total(widths)) + Pack(fields, widths);
            && value / Pow2(Total(widths)) == prefix
            && Read(value, size, bit, widths) == fields
  {
    PackFits(fields, widths);
    var t, low := Pow2(Total(widths)), Pack(fields, widths);
    DivModUnique(prefix * t + low, t, prefix, low);
    ReadOfPack(prefix, fields, size, bit, widths);
  }
}
