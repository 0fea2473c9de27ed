/**
 The compact layout an anomaly message signs: signed 64-bit big-endian time, 16-bit key length, key,
 16-byte nonce, 32-byte content hash. Keys, nonces and hashes are opaque byte strings.
 */
module SignBytes {
  import opened Arithmetic

  type Byte = b: int | 0 <= b < 256

  datatype Result<T> = Ok(value: T) | Err(error: Error)

  datatype Error = TimestampRange | KeyTooLong | BadNonce | BadHash | Malformed

  datatype Fields = Fields(timestamp: int, pubkey: seq<Byte>, nonce: seq<Byte>, contentHash: seq<Byte>)

  function Pow256(k: nat): (p: nat)
    ensures p > 0
  {
    if k == 0 then 1 else 256 * Pow256(k - 1)
  }

  /** The `k` low bytes of `n`, most significant first. */
  function BigEndian(n: nat, k: nat): (bs: seq<Byte>)
    ensures |bs| == k
  {
    if k == 0 then [] else BigEndian(n / 256, k - 1) + [n % 256]
  }

  function Unsigned(bs: seq<Byte>): (n: nat)
    ensures n < Pow256(|bs|)
  {
    if bs == [] then 0 else Unsigned(bs[..|bs| - 1]) * 256 + bs[|bs| - 1]
  }

  lemma {:induction false} UnsignedBigEndian(n: nat, k: nat)
    requires n < Pow256(k)
    ensures Unsigned(BigEndian(n, k)) == n
  {
    if k > 0 {
      UnsignedBigEndian(n / 256, k - 1);
      var bs := BigEndian(n, k);
      assert bs[..k - 1] == BigEndian(n / 256, k - 1);
    }
  }

  lemma {:induction false} BigEndianUnsigned(bs: seq<Byte>)
    ensures BigEndian(Unsigned(bs), |bs|) == bs
  {
    if bs != [] {
      var init := bs[..|bs| - 1];
      BigEndianUnsigned(init);
      assert Unsigned(bs) / 256 == Unsigned(init);
      assert bs == init + [bs[|bs| - 1]];
    }
  }

  /** Byte `i` from the left weighs 256 to the power of the bytes after it. */
  lemma {:induction false} BigEndianAt(n: nat, k: nat, i: nat)
    requires i < k
    ensures BigEndian(n, k)[i] == n / Pow256(k - 1 - i) % 256
  {
    if i < k - 1 {
      BigEndianAt(n / 256, k - 1, i);
      DivideTwice(n, Pow256(k - 2 - i));
    }
  }

  lemma DivideTwice(n: nat, d: nat)
    requires d > 0
    ensures n / 256 / d == n / (256 * d)
  {
    var q, r := n / 256, n % 256;
    var p, m := q / d, q % d;
    assert n == 256 * q + r && q == d * p + m;
    assert n == (256 * d) * p + (256 * m + r);
    Quotient(n, 256 * d, p, 256 * m + r);
  }

  const TWO63 := 0x8000_0000_0000_0000
  const TWO64 := 0x1_0000_0000_0000_0000

  lemma EightBytes()
    ensures Pow256(8) == TWO64 && Pow256(2) == 0x1_0000
  {
    assert Pow256(2) == 0x1_0000;
    assert Pow256(4) == 256 * 256 * Pow256(2);
    assert Pow256(6) == 256 * 256 * Pow256(4);
    assert Pow256(8) == 256 * 256 * Pow256(6);
  }

  predicate Int64(t: int) {
    -TWO63 <= t < TWO63
  }

  /** `struct.pack('>q', t)`: two's complement. */
  function PackTime(t: int): (bs: seq<Byte>)
    requires Int64(t)
    ensures |bs| == 8
  {
    BigEndian(if t < 0 then t + TWO64 else t, 8)
  }

  function UnpackTime(bs: seq<Byte>): (t: int)
    requires |bs| == 8
    ensures Int64(t)
  {
    EightBytes();
    var n := Unsigned(bs);
    if n >= TWO63 then n - TWO64 else n
  }

  lemma TimeRoundTrip(t: int)
    requires Int64(t)
    ensures UnpackTime(PackTime(t)) == t
  {
    EightBytes();
    UnsignedBigEndian(if t < 0 then t + TWO64 else t, 8);
  }

  lemma TimeBytesRoundTrip(bs: seq<Byte>)
    requires |bs| == 8
    ensures PackTime(UnpackTime(bs)) == bs
  {
    EightBytes();
    BigEndianUnsigned(bs);
  }

  /** `_build_sign_bytes`, with its checks in the order the source makes them. */
  function Build(f: Fields): Result<seq<Byte>> {
    if !Int64(f.timestamp) then Err(TimestampRange)
    else if |f.pubkey| >= 0x1_0000 then Err(KeyTooLong)
    else if |f.nonce| != 16 then Err(BadNonce)
    else if |f.contentHash| != 32 then Err(BadHash)
    else Ok(PackTime(f.timestamp) + BigEndian(|f.pubkey|, 2) + f.pubkey + f.nonce + f.contentHash)
  }

  /** A reader for the layout. */
  function Parse(bs: seq<Byte>): Result<Fields> {
    if |bs| < 58 then Err(Malformed)
    else
      var n := Unsigned(bs[8..10]);
      if |bs| != 58 + n then Err(Malformed)
      else Ok(Fields(UnpackTime(bs[..8]), bs[10..10 + n], bs[10 + n..26 + n], bs[26 + n..]))
  }

  predicate Signable(f: Fields) {
    Int64(f.timestamp) && |f.pubkey| < 0x1_0000 && |f.nonce| == 16 && |f.contentHash| == 32
  }

  lemma Slices(time: seq<Byte>, length: seq<Byte>, key: seq<Byte>, nonce: seq<Byte>, hash: seq<Byte>)
    requires |time| == 8 && |length| == 2 && |nonce| == 16 && |hash| == 32
    ensures var bs, n := time + length + key + nonce + hash, |key|;
            && |bs| == 58 + n
            && bs[..8] == time && bs[8..10] == length && bs[10..10 + n] == key
            && bs[10 + n..26 + n] == nonce && bs[26 + n..] == hash
  {
  }

  /** Time in the first eight bytes, the key's length in the next two, then key, nonce and hash. */
  ghost predicate IsLaidOut(f: Fields, bs: seq<Byte>) {
    var n := |f.pubkey|;
    && |bs| == 58 + n
    && Unsigned(bs[..8]) == f.timestamp % TWO64 && (bs[8] as int) * 256 + (bs[9] as int) == n
    && bs[10..10 + n] == f.pubkey && bs[10 + n..26 + n] == f.nonce && bs[26 + n..] == f.contentHash
  }

  lemma LengthBytes(n: nat)
    requires n < 0x1_0000
    ensures (BigEndian(n, 2)[0] as int) * 256 + (BigEndian(n, 2)[1] as int) == n
  {
    BigEndianAt(n, 2, 0);
    BigEndianAt(n, 2, 1);
    assert Pow256(0) == 1 && Pow256(1) == 256;
  }

  /** What is built is laid out like that. */
  lemma BuildLaysOut(f: Fields)
    requires Signable(f)
    ensures IsLaidOut(f, Build(f).value)
  {
    var bs, n := Build(f).value, |f.pubkey|;
    EightBytes();
    LengthBytes(n);
    UnsignedBigEndian(if f.timestamp < 0 then f.timestamp + TWO64 else f.timestamp, 8);
    Slices(PackTime(f.timestamp), BigEndian(n, 2), f.pubkey, f.nonce, f.contentHash);
    assert bs[8] == bs[8..10][0] && bs[9] == bs[8..10][1];
  }

  /** Building succeeds exactly on signable fields, and parsing gives the fields back. */
  lemma ParseInvertsBuild(f: Fields)
    ensures Build(f).Ok? <==> Signable(f)
    ensures Build(f).Ok? ==> |Build(f).value| == 58 + |f.pubkey| && Parse(Build(f).value) == Ok(f)
  {
    if Signable(f) {
      var n := |f.pubkey|;
      EightBytes();
      TimeRoundTrip(f.timestamp);
      UnsignedBigEndian(n, 2);
      Slices(PackTime(f.timestamp), BigEndian(n, 2), f.pubkey, f.nonce, f.contentHash);
    }
  }

  /** Every byte string that parses is the one its fields are built into. */
  lemma BuildInvertsParse(bs: seq<Byte>)
    requires Parse(bs).Ok?
    ensures Build(Parse(bs).value) == Ok(bs)
  {
    var f := Parse(bs).value;
    var n := Unsigned(bs[8..10]);
    EightBytes();
    TimeBytesRoundTrip(bs[..8]);
    BigEndianUnsigned(bs[8..10]);
    assert |f.pubkey| == n < Pow256(2);
    Reassembled(bs, n);
  }

  lemma Reassembled(bs: seq<Byte>, n: nat)
    requires |bs| == 58 + n
    ensures bs == bs[..8] + bs[8..10] + bs[10..10 + n] + bs[10 + n..26 + n] + bs[26 + n..]
  {
  }

  /** Equal sign bytes mean equal fields. */
  lemma BuildInjective(f: Fields, g: Fields)
    requires Build(f).Ok? && Build(f) == Build(g)
    ensures f == g
  {
    ParseInvertsBuild(f);
    ParseInvertsBuild(g);
  }

  // ----- The two readers in the backend -----

  /** What follows the domain in both: Go converts the time to 64 bits and the length to 16, dropping what does not fit. */
  function Framed(f: Fields): seq<Byte> {
    BigEndian(f.timestamp % TWO64, 8) + BigEndian(|f.pubkey| % 0x1_0000, 2) + f.pubkey + f.nonce + f.contentHash
  }

  /** The bytes the anomaly verifier checks the signature against. */
  function VerifierBytes(domain: seq<Byte>, f: Fields): seq<Byte> {
    domain + Framed(f)
  }

  /** The bytes `state.BuildSignBytes` makes, with a zero byte after the domain. */
  function StateBytes(domain: seq<Byte>, f: Fields): seq<Byte> {
    domain + [0] + Framed(f)
  }

  /** What the producer signs, its domain before its layout, is what the anomaly verifier rebuilds, and never what
      `state.BuildSignBytes` makes. */
  lemma SignedIsVerified(domain: seq<Byte>, f: Fields)
    requires Build(f).Ok?
    ensures VerifierBytes(domain, f) == domain + Build(f).value
    ensures StateBytes(domain, f) != domain + Build(f).value
  {
    assert f.timestamp % TWO64 == if f.timestamp < 0 then f.timestamp + TWO64 else f.timestamp;
    assert Framed(f) == Build(f).value;
    assert |StateBytes(domain, f)| == |VerifierBytes(domain, f)| + 1;
  }
}
