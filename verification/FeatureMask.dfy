/**
 The presence-mask codec. Which features of a flow are known is packed, one bit per feature name,
 into an integer printed as zero-padded hexadecimal; unknown values are replaced by zero; later the
 hexadecimal text is decoded to bytes. Feature names are an arbitrary type compared by equality, and
 floating-point values are idealised as reals.
 */
module FeatureMask {
  import opened Options
  import opened Sequences

  type Values<K> = map<K, Option<real>>

  // ----- Bits of a natural number -----

  function Pow2(k: nat): (p: nat)
    ensures p > 0
  {
    if k == 0 then 1 else 2 * Pow2(k - 1)
  }

  predicate Bit(m: nat, i: nat) {
    if i == 0 then m % 2 == 1 else Bit(m / 2, i - 1)
  }

  /** `m | (1 << i)`. */
  function OrBit(m: nat, i: nat): nat {
    if i == 0 then m - m % 2 + 1 else 2 * OrBit(m / 2, i - 1) + m % 2
  }

  function PopCount(m: nat): nat {
    if m == 0 then 0 else m % 2 + PopCount(m / 2)
  }

  /** The number whose bits, lowest first, are `bits`. */
  function MaskOf(bits: seq<bool>): nat {
    if bits == [] then 0 else (if bits[0] then 1 else 0) + 2 * MaskOf(bits[1..])
  }

  function CountTrue(bits: seq<bool>): nat {
    if bits == [] then 0 else (if bits[0] then 1 else 0) + CountTrue(bits[1..])
  }

  lemma {:induction false} MaskBits(bits: seq<bool>, i: nat)
    ensures Bit(MaskOf(bits), i) <==> i < |bits| && bits[i]
    decreases i, |bits|
  {
    if bits == [] {
      ZeroBits(i);
    } else if i > 0 {
      MaskBits(bits[1..], i - 1);
    }
  }

  lemma {:induction false} ZeroBits(i: nat)
    ensures !Bit(0, i)
  {
    if i > 0 {
      ZeroBits(i - 1);
    }
  }

  lemma {:induction false} MaskBound(bits: seq<bool>)
    ensures MaskOf(bits) < Pow2(|bits|)
    ensures PopCount(MaskOf(bits)) == CountTrue(bits)
  {
    if bits != [] {
      MaskBound(bits[1..]);
    }
  }

  lemma {:induction false} MaskSnoc(bits: seq<bool>, b: bool)
    ensures MaskOf(bits + [b]) == if b then OrBit(MaskOf(bits), |bits|) else MaskOf(bits)
  {
    if bits == [] {
      assert bits + [b] == [b];
      assert [b][1..] == [];
    } else {
      assert (bits + [b])[1..] == bits[1..] + [b];
      MaskSnoc(bits[1..], b);
    }
  }

  lemma Halve(a: nat, p: nat, b: nat)
    ensures (a * (2 * p) + b) / 2 == a * p + b / 2 && (a * (2 * p) + b) % 2 == b % 2
  {
    assert a * (2 * p) == 2 * (a * p);
  }

  /** A number is its low `k` bits and the rest. */
  lemma {:induction false} Split(a: nat, b: nat, k: nat, i: nat)
    requires b < Pow2(k)
    ensures Bit(a * Pow2(k) + b, i) == if i < k then Bit(b, i) else Bit(a, i - k)
    ensures PopCount(a * Pow2(k) + b) == PopCount(a) + PopCount(b)
    decreases k
  {
    if k > 0 {
      var m := a * Pow2(k) + b;
      Halve(a, Pow2(k - 1), b);
      Split(a, b / 2, k - 1, if i == 0 then 0 else i - 1);
    }
  }

  // ----- Hexadecimal text and bytes -----

  predicate IsHexDigit(c: char) {
    '0' <= c <= '9' || 'a' <= c <= 'f'
  }

  function HexDigit(d: nat): (c: char)
    requires d < 16
    ensures IsHexDigit(c) && Nibble(c) == d && c == "0123456789abcdef"[d]
  {
    if d < 10 then ('0' as int + d) as char else ('a' as int + (d - 10)) as char
  }

  function Nibble(c: char): (d: nat)
    requires IsHexDigit(c)
    ensures d < 16
  {
    if c <= '9' then c as int - '0' as int else c as int - 'a' as int + 10
  }

  predicate IsHex(s: string) {
    forall i :: 0 <= i < |s| ==> IsHexDigit(s[i])
  }

  function HexValue(s: string): nat
    requires IsHex(s)
  {
    if s == [] then 0 else HexValue(s[..|s| - 1]) * 16 + Nibble(s[|s| - 1])
  }

  /** `format(m, "x")`. */
  function HexDigits(m: nat): string {
    if m < 16 then [HexDigit(m)] else HexDigits(m / 16) + [HexDigit(m % 16)]
  }

  /** Left padding with zeros to at least `width` characters. */
  function Pad(s: string, width: nat): string
    decreases width - |s|
  {
    if |s| >= width then s else Pad("0" + s, width)
  }

  /** `format(m, "0{width}x")`. */
  function Format(m: nat, width: nat): string {
    Pad(HexDigits(m), width)
  }

  lemma {:induction false} HexDigitsValue(m: nat)
    ensures IsHex(HexDigits(m)) && HexDigits(m) != [] && HexValue(HexDigits(m)) == m
  {
    if m >= 16 {
      HexDigitsValue(m / 16);
      var s := HexDigits(m);
      assert s[..|s| - 1] == HexDigits(m / 16);
    } else {
      assert HexValue([HexDigit(m)][..0]) == 0;
    }
  }

  lemma {:induction false} HexDigitsLength(m: nat, width: nat)
    requires width > 0 && m < Pow2(4 * width)
    ensures |HexDigits(m)| <= width
  {
    if m >= 16 {
      assert Pow2(4 * width) == 16 * Pow2(4 * (width - 1)) by {
        assert Pow2(4 * width) == 2 * Pow2(4 * width - 1) == 4 * Pow2(4 * width - 2);
        assert Pow2(4 * width - 2) == 2 * Pow2(4 * width - 3) == 4 * Pow2(4 * width - 4);
      }
      assert width > 1 by {
        assert Pow2(0) == 1;
      }
      HexDigitsLength(m / 16, width - 1);
    }
  }

  lemma {:induction false} HexZero(s: string)
    requires IsHex(s)
    ensures IsHex("0" + s) && HexValue("0" + s) == HexValue(s)
  {
    var z := "0" + s;
    if s == [] {
      assert z[..0] == [];
    } else {
      assert z[..|z| - 1] == "0" + s[..|s| - 1];
      assert z[|z| - 1] == s[|s| - 1];
      HexZero(s[..|s| - 1]);
    }
  }

  lemma {:induction false} PadValue(s: string, width: nat)
    requires IsHex(s)
    ensures IsHex(Pad(s, width)) && HexValue(Pad(s, width)) == HexValue(s)
    ensures |Pad(s, width)| == if |s| >= width then |s| else width
    decreases width - |s|
  {
    if |s| < width {
      HexZero(s);
      PadValue("0" + s, width);
    }
  }

  /** `bytes.fromhex`: two digits a byte; odd lengths and other characters raise. */
  function FromHex(s: string): Option<seq<nat>> {
    if |s| % 2 == 1 || !IsHex(s) then None else Some(Bytes(s))
  }

  function Bytes(s: string): (bs: seq<nat>)
    requires |s| % 2 == 0 && IsHex(s)
    ensures |bs| == |s| / 2
  {
    if s == [] then []
    else Bytes(s[..|s| - 2]) + [LastByte(s)]
  }

  function LastByte(s: string): nat
    requires |s| >= 2 && IsHex(s)
  {
    16 * Nibble(s[|s| - 2]) + Nibble(s[|s| - 1])
  }

  /** Bit `i` of a byte string read as one big-endian number. */
  predicate BitOfBytes(bs: seq<nat>, i: nat)
    requires i < 8 * |bs|
  {
    Bit(bs[|bs| - 1 - i / 8], i % 8)
  }

  function PopCountBytes(bs: seq<nat>): nat {
    if bs == [] then 0 else PopCountBytes(bs[..|bs| - 1]) + PopCount(bs[|bs| - 1])
  }

  lemma HexValueByte(s: string)
    requires |s| >= 2 && IsHex(s)
    ensures HexValue(s) == HexValue(s[..|s| - 2]) * 256 + LastByte(s) && LastByte(s) < 256
  {
    assert s[..|s| - 1][..|s| - 2] == s[..|s| - 2];
  }

  /** A number is its last byte and the rest. */
  lemma SplitByte(v: nat, b: nat, i: nat)
    requires b < 256
    ensures Bit(v * 256 + b, i) == if i < 8 then Bit(b, i) else Bit(v, i - 8)
    ensures PopCount(v * 256 + b) == PopCount(v) + PopCount(b)
  {
    assert Pow2(4) == 16;
    assert Pow2(8) == 16 * Pow2(4);
    Split(v, b, 8, i);
  }

  /** Decoding to bytes keeps every bit where it was. */
  lemma {:induction false} BytesBits(s: string, i: nat)
    requires |s| % 2 == 0 && IsHex(s) && i < 8 * |Bytes(s)|
    ensures BitOfBytes(Bytes(s), i) == Bit(HexValue(s), i)
    decreases |s|
  {
    var t := s[..|s| - 2];
    HexValueByte(s);
    SplitByte(HexValue(t), LastByte(s), i);
    assert Bytes(s) == Bytes(t) + [LastByte(s)];
    if i >= 8 {
      BytesBits(t, i - 8);
      assert (i - 8) / 8 == i / 8 - 1 && (i - 8) % 8 == i % 8;
    }
  }

  lemma PopCountSnoc(bs: seq<nat>, b: nat)
    ensures PopCountBytes(bs + [b]) == PopCountBytes(bs) + PopCount(b)
  {
    assert (bs + [b])[..|bs|] == bs;
  }

  /** Decoding to bytes keeps the number of bits set. */
  lemma {:induction false} BytesPopCount(s: string)
    requires |s| % 2 == 0 && IsHex(s)
    ensures PopCountBytes(Bytes(s)) == PopCount(HexValue(s))
    decreases |s|
  {
    if s != [] {
      var t := s[..|s| - 2];
      BytesPopCount(t);
      PopCountSnoc(Bytes(t), LastByte(s));
      HexValueByte(s);
      SplitByte(HexValue(t), LastByte(s), 0);
    }
  }

  // ----- The codec -----

  predicate Present<K(==)>(values: Values<K>, name: K) {
    name in values && values[name].Some?
  }

  ghost function PresenceBits<K>(values: Values<K>, names: seq<K>): (bits: seq<bool>)
    ensures |bits| == |names| && forall i :: 0 <= i < |names| ==> bits[i] == Present(values, names[i])
  {
    seq(|names|, i requires 0 <= i < |names| => Present(values, names[i]))
  }

  function Width(n: nat): nat {
    (n + 3) / 4
  }

  ghost function MaskHex<K>(values: Values<K>, names: seq<K>): string {
    Format(MaskOf(PresenceBits(values, names)), Width(|names|))
  }

  /** `_feature_mask`. */
  method Mask<K(==)>(values: Values<K>, names: seq<K>) returns (hex: string)
    ensures hex == MaskHex(values, names)
  {
    var mask := 0;
    ghost var bits := PresenceBits(values, names);
    for idx := 0 to |names|
      invariant mask == MaskOf(bits[..idx])
    {
      assert bits[..idx + 1] == bits[..idx] + [bits[idx]];
      MaskSnoc(bits[..idx], bits[idx]);
      if Present(values, names[idx]) {
        mask := OrBit(mask, idx);
      }
    }
    assert bits[..|names|] == bits;
    hex := Format(mask, Width(|names|));
  }

  function PresentKeys<K(==)>(values: Values<K>): set<K> {
    set k | k in values && values[k].Some?
  }

  /** `_coverage_ratio`. */
  function Coverage<K(==)>(values: Values<K>): real {
    if |values| == 0 then 0.0 else |PresentKeys(values)| as real / |values| as real
  }

  /** The same keys, zero where nothing is known. */
  ghost function Imputed<K>(values: Values<K>): (out: map<K, real>)
    ensures out.Keys == values.Keys
  {
    map k | k in values :: if values[k].Some? then values[k].value else 0.0
  }

  /** `_impute`. */
  method Impute<K(==)>(values: Values<K>) returns (out: map<K, real>)
    ensures out == Imputed(values)
  {
    out := map[];
    var keys := values.Keys;
    while keys != {}
      invariant keys <= values.Keys && out.Keys == values.Keys - keys
      invariant forall k :: k in out ==> out[k] == Imputed(values)[k]
    {
      var k :| k in keys;
      out := out[k := if values[k].Some? then values[k].value else 0.0];
      keys := keys - {k};
    }
  }

  /** The printed mask has the width of the name list, and its number has exactly the presence bits. */
  lemma MaskHexShape<K>(values: Values<K>, names: seq<K>)
    requires names != []
    ensures var hex := MaskHex(values, names);
            && IsHex(hex) && |hex| == Width(|names|) && HexValue(hex) == MaskOf(PresenceBits(values, names))
            && |names| <= 4 * |hex| < |names| + 4
  {
    var bits := PresenceBits(values, names);
    var m := MaskOf(bits);
    MaskBound(bits);
    Pow2Monotone(|bits|, 4 * Width(|names|));
    HexDigitsValue(m);
    HexDigitsLength(m, Width(|names|));
    PadValue(HexDigits(m), Width(|names|));
  }

  lemma {:induction false} Pow2Monotone(i: nat, j: nat)
    requires i <= j
    ensures Pow2(i) <= Pow2(j)
    decreases j - i
  {
    if i < j {
      Pow2Monotone(i + 1, j);
    }
  }

  /** Decoding succeeds exactly when there are names and their mask has an even number of digits, and then byte `i / 8` from the right
      carries, at bit `i % 8`, whether feature `i` was present; the bits past the last feature are clear. */
  lemma MaskRoundTrip<K>(values: Values<K>, names: seq<K>)
    ensures var decoded := FromHex(MaskHex(values, names));
            && (decoded.Some? <==> names != [] && Width(|names|) % 2 == 0)
            && (decoded.Some? ==>
                  && 2 * |decoded.value| == Width(|names|) && |names| <= 8 * |decoded.value| < |names| + 4
                  && (forall i :: 0 <= i < |names| ==> BitOfBytes(decoded.value, i) == Present(values, names[i]))
                  && (forall i :: |names| <= i < 8 * |decoded.value| ==> !BitOfBytes(decoded.value, i))
                  && PopCountBytes(decoded.value) == CountTrue(PresenceBits(values, names)))
  {
    var hex := MaskHex(values, names);
    var bits := PresenceBits(values, names);
    if names == [] {
      assert hex == "0";
      return;
    }
    MaskHexShape(values, names);
    if |hex| % 2 == 0 {
      MaskBound(bits);
      forall i: nat | i < 8 * |Bytes(hex)|
        ensures BitOfBytes(Bytes(hex), i) == (i < |names| && Present(values, names[i]))
      {
        BytesBits(hex, i);
        MaskBits(bits, i);
      }
      BytesPopCount(hex);
    }
  }

  /** Reading the optional values back from the decoded mask and the imputed numbers. */
  function Recover<K(==)>(mask: seq<nat>, out: map<K, real>, names: seq<K>): (r: seq<Option<real>>)
    requires |names| <= 8 * |mask| && forall i :: 0 <= i < |names| ==> names[i] in out
  {
    seq(|names|, i requires 0 <= i < |names| => if BitOfBytes(mask, i) then Some(out[names[i]]) else None)
  }

  /** Where the decoded mask has no bit the imputed value is zero, and where it has one it is the known value. */
  lemma UnknownIsZero<K>(values: Values<K>, names: seq<K>, i: nat)
    requires i < |names| && Width(|names|) % 2 == 0 && names[i] in values
    ensures var decoded := FromHex(MaskHex(values, names));
            && decoded.Some? && i < 8 * |decoded.value|
            && (BitOfBytes(decoded.value, i) ==>
                  values[names[i]].Some? && Imputed(values)[names[i]] == values[names[i]].value)
            && (!BitOfBytes(decoded.value, i) ==> Imputed(values)[names[i]] == 0.0)
  {
    MaskRoundTrip(values, names);
    assert BitOfBytes(FromHex(MaskHex(values, names)).value, i) == Present(values, names[i]);
  }

  /** Mask and imputed values together lose nothing. */
  lemma RecoverInverts<K>(values: Values<K>, names: seq<K>)
    requires names != [] && Width(|names|) % 2 == 0
    requires forall i :: 0 <= i < |names| ==> names[i] in values
    ensures var decoded := FromHex(MaskHex(values, names));
            && decoded.Some?
            && var mask := decoded.value;
            && |names| <= 8 * |mask|
            && Recover(mask, Imputed(values), names) == seq(|names|, i requires 0 <= i < |names| => values[names[i]])
  {
    MaskRoundTrip(values, names);
    var mask := FromHex(MaskHex(values, names)).value;
    forall i | 0 <= i < |names| ensures Recover(mask, Imputed(values), names)[i] == values[names[i]] {
      assert BitOfBytes(mask, i) == Present(values, names[i]);
    }
  }

  ghost function PresentAmong<K>(values: Values<K>, keys: set<K>): set<K> {
    set k | k in keys && Present(values, k)
  }

  lemma {:induction false} PresentSize<K>(values: Values<K>, names: seq<K>)
    requires Distinct(names)
    ensures CountTrue(PresenceBits(values, names)) == |PresentAmong(values, Elements(names))|
  {
    if names != [] {
      var rest := names[1..];
      PresentSize(values, rest);
      assert PresenceBits(values, names)[1..] == PresenceBits(values, rest);
      ElementsCons(names);
      var there := PresentAmong(values, Elements(rest));
      assert names[0] !in Elements(rest);
      assert PresentAmong(values, Elements(names)) == if Present(values, names[0]) then there + {names[0]} else there;
    }
  }

  /** Coverage is the mask's population count over the number of names, when the names are distinct and are the keys. */
  lemma CoverageIsPopCount<K>(values: Values<K>, names: seq<K>)
    requires names != [] && Distinct(names) && values.Keys == Elements(names)
    ensures IsHex(MaskHex(values, names))
    ensures Coverage(values) == PopCount(HexValue(MaskHex(values, names))) as real / |names| as real
    ensures Coverage(values) == CountTrue(PresenceBits(values, names)) as real / |names| as real
  {
    MaskHexShape(values, names);
    MaskBound(PresenceBits(values, names));
    PresentSize(values, names);
    ElementsSize(names);
    assert PresentKeys(values) == PresentAmong(values, Elements(names));
    assert |values| == |values.Keys|;
  }

  /** A dictionary with more features present has a mask with more bits set. */
  lemma MorePresentMoreBits<K>(v: Values<K>, w: Values<K>, names: seq<K>)
    requires names != [] && forall i :: 0 <= i < |names| ==> Present(v, names[i]) ==> Present(w, names[i])
    ensures IsHex(MaskHex(v, names)) && IsHex(MaskHex(w, names))
    ensures forall i: nat :: Bit(HexValue(MaskHex(v, names)), i) ==> Bit(HexValue(MaskHex(w, names)), i)
  {
    MaskHexShape(v, names);
    MaskHexShape(w, names);
    forall i: nat | Bit(HexValue(MaskHex(v, names)), i) ensures Bit(HexValue(MaskHex(w, names)), i) {
      MaskBits(PresenceBits(v, names), i);
      MaskBits(PresenceBits(w, names), i);
    }
  }
}
