/**
 * The byte format of a batch of requests: each request is preceded by its length as a big-endian
 * uint32.  Serialize fills one buffer, Deserialize cuts the bytes up again, and Digest hashes the
 * same bytes as a stream.
 */
module BatchCodec {
  import opened Wrappers

  newtype Byte = x: int | 0 <= x < 256

  type Bytes = seq<Byte>

  /** A batch of requests; where it may be nil, that is None. */
  type BatchedRequests = seq<Bytes>

  // ---------- Frames ----------

  /** The low bytes of n, most significant first. */
  function BigEndian(n: nat, width: nat): (b: Bytes)
    ensures |b| == width
    decreases width
  {
    if width == 0 then [] else BigEndian(n / 0x100, width - 1) + [(n % 0x100) as Byte]
  }

  function FromBigEndian(b: Bytes): nat {
    if b == [] then 0 else FromBigEndian(b[..|b| - 1]) * 0x100 + b[|b| - 1] as nat
  }

  function Range(width: nat): nat {
    if width == 0 then 1 else Range(width - 1) * 0x100
  }

  lemma {:induction false} BigEndianReads(n: nat, width: nat)
    requires n < Range(width)
    ensures FromBigEndian(BigEndian(n, width)) == n
    decreases width
  {
    if width > 0 {
      BigEndianReads(n / 0x100, width - 1);
      assert BigEndian(n, width)[..width - 1] == BigEndian(n / 0x100, width - 1);
    }
  }

  lemma {:induction false} BigEndianWrites(b: Bytes)
    ensures FromBigEndian(b) < Range(|b|) && BigEndian(FromBigEndian(b), |b|) == b
  {
    if b != [] {
      BigEndianWrites(b[..|b| - 1]);
    }
  }

  /** binary.BigEndian.PutUint32, with the source's conversion to uint32 before it. */
  function PutUint32(n: nat): (b: Bytes)
    ensures |b| == 4
    ensures n < 0x1_0000_0000 ==> Uint32(b) == n
  {
    assert Range(2) == 0x1_0000 && Range(4) == 0x1_0000_0000;
    if n < 0x1_0000_0000 then BigEndianReads(n, 4); BigEndian(n, 4) else BigEndian(n, 4)
  }

  function Uint32(b: Bytes): nat
    requires |b| == 4
  {
    FromBigEndian(b)
  }

  /** The header of a frame, byte by byte: the most significant first. */
  lemma Uint32Bytes(n: nat)
    requires n < 0x1_0000_0000
    ensures PutUint32(n)[0] as nat == n / 0x100_0000 && PutUint32(n)[1] as nat == n / 0x1_0000 % 0x100
    ensures PutUint32(n)[2] as nat == n / 0x100 % 0x100 && PutUint32(n)[3] as nat == n % 0x100
  {
    assert BigEndian(n, 4) == BigEndian(n / 0x100, 3) + [(n % 0x100) as Byte];
    assert BigEndian(n / 0x100, 3) == BigEndian(n / 0x1_0000, 2) + [(n / 0x100 % 0x100) as Byte];
    assert BigEndian(n / 0x1_0000, 2) == BigEndian(n / 0x100_0000, 1) + [(n / 0x1_0000 % 0x100) as Byte];
    assert BigEndian(n / 0x100_0000, 1) == [(n / 0x100_0000 % 0x100) as Byte];
  }

  lemma Uint32Writes(b: Bytes)
    requires |b| == 4
    ensures Uint32(b) < 0x1_0000_0000 && PutUint32(Uint32(b)) == b
  {
    assert Range(2) == 0x1_0000 && Range(4) == 0x1_0000_0000;
    BigEndianWrites(b);
  }

  /** One request with its length, which the source truncates to 32 bits. */
  function Frame(req: Bytes): (b: Bytes)
    ensures |b| == 4 + |req|
  {
    PutUint32(|req|) + req
  }

  /** The format: the frames of the requests, in order. */
  ghost function Encode(reqs: BatchedRequests): Bytes {
    if reqs == [] then [] else Encode(reqs[..|reqs| - 1]) + Frame(reqs[|reqs| - 1])
  }

  ghost predicate Short(reqs: BatchedRequests) {
    forall i | 0 <= i < |reqs| :: |reqs[i]| < 0x1_0000_0000
  }

  /** Some frame of a short request is a prefix of b. */
  predicate StartsWithFrame(b: Bytes) {
    |b| >= 4 && |b| - 4 >= Uint32(b[..4])
  }

  // ---------- The encoding is uniquely decodable ----------

  lemma Associative(a: Bytes, b: Bytes, c: Bytes)
    ensures (a + b) + c == a + (b + c)
  {
  }

  lemma EncodeSnoc(xs: BatchedRequests, x: Bytes)
    ensures Encode(xs + [x]) == Encode(xs) + Frame(x)
  {
    assert (xs + [x])[..|xs|] == xs;
  }

  lemma EncodeConcatSnoc(xs: BatchedRequests, ys: BatchedRequests, y: Bytes)
    requires Encode(xs + ys) == Encode(xs) + Encode(ys)
    ensures Encode(xs + ys + [y]) == Encode(xs) + Encode(ys + [y])
  {
    EncodeSnoc(xs + ys, y);
    EncodeSnoc(ys, y);
    Associative(Encode(xs), Encode(ys), Frame(y));
  }

  lemma SplitLast<T>(xs: seq<T>, ys: seq<T>)
    requires ys != []
    ensures ys == ys[..|ys| - 1] + [ys[|ys| - 1]] && xs + ys == xs + ys[..|ys| - 1] + [ys[|ys| - 1]]
  {
  }

  lemma {:induction false} EncodeConcat(xs: BatchedRequests, ys: BatchedRequests)
    ensures Encode(xs + ys) == Encode(xs) + Encode(ys)
  {
    if ys == [] {
      assert xs + ys == xs;
    } else {
      EncodeConcat(xs, ys[..|ys| - 1]);
      EncodeConcatSnoc(xs, ys[..|ys| - 1], ys[|ys| - 1]);
      SplitLast(xs, ys);
    }
  }

  lemma EncodeHead(xs: BatchedRequests)
    requires xs != []
    ensures Encode(xs) == Frame(xs[0]) + Encode(xs[1..])
  {
    assert xs == [xs[0]] + xs[1..];
    EncodeConcat([xs[0]], xs[1..]);
    EncodeSnoc([], xs[0]);
  }

  /** A frame at the front of some bytes can be read in one way only. */
  lemma FrameUnique(r: Bytes, r': Bytes, rest: Bytes, rest': Bytes)
    requires |r| < 0x1_0000_0000 && |r'| < 0x1_0000_0000 && Frame(r) + rest == Frame(r') + rest'
    ensures r == r' && rest == rest'
  {
    var b := Frame(r) + rest;
    assert b[..4] == PutUint32(|r|) && b[..4] == PutUint32(|r'|);
    assert b[4..4 + |r|] == r && b[4..4 + |r'|] == r';
    assert b[4 + |r|..] == rest && b[4 + |r'|..] == rest';
  }

  lemma FrameStarts(r: Bytes, rest: Bytes)
    requires |r| < 0x1_0000_0000
    ensures StartsWithFrame(Frame(r) + rest)
  {
    assert (Frame(r) + rest)[..4] == PutUint32(|r|);
  }

  lemma EncodePrefixHead(xs: BatchedRequests, ys: BatchedRequests, rest: Bytes)
    requires Short(xs) && Short(ys) && ys != [] && Encode(xs) == Encode(ys) + rest
    ensures xs != [] && xs[0] == ys[0] && Encode(xs[1..]) == Encode(ys[1..]) + rest
  {
    EncodeHead(ys);
    assert xs != [];
    EncodeHead(xs);
    Associative(Frame(ys[0]), Encode(ys[1..]), rest);
    FrameUnique(xs[0], ys[0], Encode(xs[1..]), Encode(ys[1..]) + rest);
  }

  /** Frames read off the front of an encoding are the first requests of it, and what is left encodes the others. */
  lemma {:induction false} EncodePrefix(xs: BatchedRequests, ys: BatchedRequests, rest: Bytes)
    returns (zs: BatchedRequests)
    requires Short(xs) && Short(ys) && Encode(xs) == Encode(ys) + rest
    ensures xs == ys + zs && Encode(zs) == rest
    decreases |ys|
  {
    if ys == [] {
      zs := xs;
    } else {
      EncodePrefixHead(xs, ys, rest);
      zs := EncodePrefix(xs[1..], ys[1..], rest);
      SameHead(xs, ys, zs);
    }
  }

  lemma SameHead<T>(xs: seq<T>, ys: seq<T>, zs: seq<T>)
    requires xs != [] && ys != [] && xs[0] == ys[0] && xs[1..] == ys[1..] + zs
    ensures xs == ys + zs
  {
    assert xs == [xs[0]] + xs[1..] == [ys[0]] + ys[1..] + zs;
  }

  /** Two lists of short requests with one encoding are the same list. */
  lemma EncodeInjective(xs: BatchedRequests, ys: BatchedRequests)
    requires Short(xs) && Short(ys) && Encode(xs) == Encode(ys)
    ensures xs == ys
  {
    var zs := EncodePrefix(xs, ys, []);
    EncodeSize(zs);
  }

  lemma NotAnEncoding(reqs: BatchedRequests, rest: Bytes, xs: BatchedRequests)
    requires Short(reqs) && Short(xs) && rest != [] && !StartsWithFrame(rest)
    ensures Encode(xs) != Encode(reqs) + rest
  {
    if Encode(xs) == Encode(reqs) + rest {
      var ys := EncodePrefix(xs, reqs, rest);
      EncodeHead(ys);
      assert ys[0] in xs;
      FrameStarts(ys[0], Encode(ys[1..]));
      assert false;
    }
  }

  // ---------- Serialize ----------

  ghost function TotalSize(reqs: BatchedRequests): nat {
    if reqs == [] then 0 else TotalSize(reqs[..|reqs| - 1]) + |reqs[|reqs| - 1]|
  }

  lemma {:induction false} EncodeSize(reqs: BatchedRequests)
    ensures |Encode(reqs)| == TotalSize(reqs) + 4 * |reqs|
  {
    if reqs != [] {
      EncodeSize(reqs[..|reqs| - 1]);
    }
  }

  lemma EncodeGrows(reqs: BatchedRequests, i: nat)
    requires i <= |reqs|
    ensures |Encode(reqs[..i])| <= |Encode(reqs)|
  {
    assert reqs == reqs[..i] + reqs[i..];
    EncodeConcat(reqs[..i], reqs[i..]);
  }

  /** Go's copy(buff[pos:], b), where b fits. */
  method Copy(buff: array<Byte>, pos: nat, b: Bytes)
    requires pos + |b| <= buff.Length
    modifies buff
    ensures buff[..pos] == old(buff[..pos]) && buff[pos..pos + |b|] == b
  {
    for i := 0 to |b|
      invariant buff[..pos] == old(buff[..pos]) && buff[pos..pos + i] == b[..i]
    {
      buff[pos + i] := b[i];
      assert b[..i + 1] == b[..i] + [b[i]];
    }
  }

  method PutFrame(buff: array<Byte>, pos: nat, req: Bytes)
    requires pos + 4 + |req| <= buff.Length
    modifies buff
    ensures buff[..pos + 4 + |req|] == old(buff[..pos]) + Frame(req)
  {
    Copy(buff, pos, PutUint32(|req|));
    ghost var head := buff[..pos + 4];
    assert head == old(buff[..pos]) + PutUint32(|req|);
    Copy(buff, pos + 4, req);
    assert buff[..pos + 4 + |req|] == head + req;
  }

  ghost function EncodeOf(br: Option<BatchedRequests>): Bytes {
    if br.None? then [] else Encode(br.value)
  }

  method SizeBytes(reqs: BatchedRequests) returns (size: nat)
    ensures size == |Encode(reqs)| - 4 * |reqs|
  {
    size := 0;
    for i := 0 to |reqs|
      invariant size == TotalSize(reqs[..i])
    {
      assert reqs[..i + 1][..i] == reqs[..i];
      size := size + |reqs[i]|;
    }
    assert reqs[..|reqs|] == reqs;
    EncodeSize(reqs);
  }

  method Serialize(br: Option<BatchedRequests>) returns (buff: array<Byte>)
    ensures fresh(buff) && buff[..] == EncodeOf(br)
  {
    if br.None? || |br.value| == 0 {
      buff := new Byte[0];
      return;
    }
    var reqs := br.value;
    var reqsSize := SizeBytes(reqs);
    reqsSize := reqsSize + 4 * |reqs|;
    buff := new Byte[reqsSize];
    var pos := 0;
    for i := 0 to |reqs|
      invariant 0 <= pos <= buff.Length && buff[..pos] == Encode(reqs[..i])
    {
      assert reqs[..i + 1] == reqs[..i] + [reqs[i]];
      EncodeSnoc(reqs[..i], reqs[i]);
      EncodeGrows(reqs, i + 1);
      PutFrame(buff, pos, reqs[i]);
      pos := pos + 4 + |reqs[i]|;
    }
    assert reqs[..|reqs|] == reqs;
    assert buff[..pos] == buff[..];
  }

  // ---------- Deserialize ----------

  lemma ReadFrame(bytes: Bytes, reqs: BatchedRequests, rest: Bytes, req: Bytes, rest': Bytes)
    requires bytes == Encode(reqs) + rest && rest == Frame(req) + rest'
    ensures bytes == Encode(reqs + [req]) + rest'
  {
    EncodeSnoc(reqs, req);
  }

  /**
   * Accepts exactly the encodings of non-empty lists of short requests, and returns the list.  On failure
   * the receiver keeps the frames read before the first malformed one.
   */
  method Deserialize(bytes: Bytes) returns (ok: bool, reqs: BatchedRequests)
    ensures Short(reqs)
    ensures ok ==> bytes != [] && Encode(reqs) == bytes
    ensures !ok ==> bytes == [] || forall xs | Short(xs) :: Encode(xs) != bytes
    ensures !ok ==> Encode(reqs) <= bytes && !StartsWithFrame(bytes[|Encode(reqs)|..])
  {
    reqs := [];
    if |bytes| == 0 {
      return false, reqs;
    }
    var rest := bytes;
    while |rest| > 0
      invariant Short(reqs) && bytes == Encode(reqs) + rest
    {
      if |rest| < 4 {
        forall xs | Short(xs) ensures Encode(xs) != bytes { NotAnEncoding(reqs, rest, xs); }
        return false, reqs;
      }
      var size := Uint32(rest[..4]);
      Uint32Writes(rest[..4]);
      if |rest[4..]| < size {
        forall xs | Short(xs) ensures Encode(xs) != bytes { NotAnEncoding(reqs, rest, xs); }
        return false, reqs;
      }
      var req := rest[4..][..size];
      assert rest == Frame(req) + rest[4..][size..];
      ReadFrame(bytes, reqs, rest, req, rest[4..][size..]);
      reqs := reqs + [req];
      rest := rest[4..][size..];
    }
    assert bytes == Encode(reqs);
    return true, reqs;
  }

  /** Reading back what was written returns the list exactly when it is not empty and every request is short. */
  method RoundTrip(xs: BatchedRequests) returns (bytes: Bytes, ok: bool, ys: BatchedRequests)
    ensures bytes == Encode(xs) && Short(ys) && (ok ==> Encode(ys) == bytes)
    ensures ok && ys == xs <==> xs != [] && Short(xs)
  {
    var buff := Serialize(Some(xs));
    bytes := buff[..];
    ok, ys := Deserialize(bytes);
    if xs != [] {
      EncodeSize(xs);
      if Short(xs) {
        assert ok;
        EncodeInjective(xs, ys);
      }
    }
  }

  /** Accepted bytes are written back unchanged, so every list has one encoding. */
  method WriteBack(bytes: Bytes) returns (ok: bool, written: Bytes)
    ensures ok ==> written == bytes
    ensures ok <==> bytes != [] && exists xs :: Short(xs) && Encode(xs) == bytes
  {
    var xs;
    ok, xs := Deserialize(bytes);
    var buff := Serialize(Some(xs));
    written := buff[..];
  }

  // ---------- Digest ----------

  /** An incremental hash: the hash of everything written so far. */
  class Hasher<D> {
    const hash: Bytes -> D
    var written: Bytes

    constructor (hash: Bytes -> D)
      ensures this.hash == hash && written == []
    {
      this.hash := hash;
      written := [];
    }

    method Write(b: Bytes)
      modifies this
      ensures written == old(written) + b
    {
      written := written + b;
    }

    method Sum() returns (d: D)
      ensures d == hash(written)
    {
      d := hash(written);
    }
  }

  /** The streamed digest, for any hash. */
  method Digest<D>(br: Option<BatchedRequests>, hash: Bytes -> D) returns (d: D)
    ensures d == hash(EncodeOf(br))
  {
    var h := new Hasher(hash);
    if br.None? {
      d := h.Sum();
      return;
    }
    var reqs := br.value;
    for i := 0 to |reqs|
      invariant h.written == Encode(reqs[..i])
    {
      assert reqs[..i + 1][..i] == reqs[..i];
      h.Write(PutUint32(|reqs[i]|));
      h.Write(reqs[i]);
      assert Encode(reqs[..i + 1]) == Encode(reqs[..i]) + Frame(reqs[i]);
    }
    assert reqs[..|reqs|] == reqs;
    d := h.Sum();
  }

  /** The reference form of the digest: the hash of the serialized list. */
  method DigestBySerializing<D>(reqs: BatchedRequests, hash: Bytes -> D) returns (d: D)
    ensures d == hash(Encode(reqs))
  {
    var buff := Serialize(Some(reqs));
    d := hash(buff[..]);
  }
}
