/** Repair digests on the wire: the fixed-length binary records, the text form of
    their ids, and the two dialects of the compare-digests call. */
module Digests {
  import opened Fsm

  type Byte = x: int | 0 <= x < 256

  const TWO63: int := 0x8000_0000_0000_0000
  const TWO64: int := 0x1_0000_0000_0000_0000

  type Int64 = x: int | -0x8000_0000_0000_0000 <= x < 0x8000_0000_0000_0000

  type Uuid = s: seq<Byte> | |s| == 16 witness seq(16, _ => 0)

  datatype Digest = Digest(id: Uuid, updateTime: Int64, deleted: bool)

  const RANGE_RECORD: nat := 24
  const COMPARE_RECORD: nat := 25
  const FLAG_DELETED: Byte := 1
  const MAX_BODY: nat := 4 * 1024 * 1024

  // ---- int64 as eight bytes, most significant first ----

  function Pow256(n: nat): (p: nat)
    ensures p > 0
  {
    if n == 0 then 1 else 256 * Pow256(n - 1)
  }

  /** The last n bytes of u. */
  function BigEndian(u: nat, n: nat): (r: seq<Byte>)
    ensures |r| == n
  {
    if n == 0 then [] else BigEndian(u / 256, n - 1) + [u % 256]
  }

  function FromBigEndian(bs: seq<Byte>): nat {
    if bs == [] then 0 else FromBigEndian(bs[..|bs| - 1]) * 256 + bs[|bs| - 1]
  }

  lemma {:induction false} BigEndianRoundTrip(u: nat, n: nat)
    requires u < Pow256(n)
    ensures FromBigEndian(BigEndian(u, n)) == u
  {
    if n > 0 {
      BigEndianRoundTrip(u / 256, n - 1);
      assert BigEndian(u, n)[..n - 1] == BigEndian(u / 256, n - 1);
    }
  }

  lemma {:induction false} BytesRoundTrip(bs: seq<Byte>)
    ensures FromBigEndian(bs) < Pow256(|bs|) && BigEndian(FromBigEndian(bs), |bs|) == bs
  {
    if bs != [] {
      var front, last := bs[..|bs| - 1], bs[|bs| - 1];
      BytesRoundTrip(front);
      var u := FromBigEndian(bs);
      assert u == FromBigEndian(front) * 256 + last;
      assert u / 256 == FromBigEndian(front) && u % 256 == last;
      assert bs == front + [last];
    }
  }

  lemma DivTwice(u: nat, p: nat)
    requires p > 0
    ensures u / 256 / p == u / (256 * p)
  {
    var q, r := u / (256 * p), u % (256 * p);
    assert u == 256 * p * q + r;
    var k := r / 256;
    assert r == 256 * k + r % 256 && k < p;
    assert u / 256 == p * q + k;
    assert (p * q + k) / p == q by {
      assert p * q + k == q * p + k;
      DivUnique(q * p + k, p, q, k);
    }
  }

  lemma DivUnique(u: nat, p: nat, q: nat, k: nat)
    requires p > 0 && u == q * p + k && k < p
    ensures u / p == q
  {
    var d := u / p - q;
    assert u == (u / p) * p + u % p;
    assert d * p == k - u % p;
    assert d >= 1 ==> d * p >= p;
    assert d <= -1 ==> d * p <= 0 - p;
  }

  /** Byte i of n is the digit of that weight, the most significant first. */
  lemma {:induction false} ByteOfWeight(u: nat, n: nat, i: nat)
    requires i < n
    ensures BigEndian(u, n)[i] == u / Pow256(n - 1 - i) % 256
  {
    if i < n - 1 {
      ByteOfWeight(u / 256, n - 1, i);
      DivTwice(u, Pow256(n - 2 - i));
    } else {
      assert Pow256(0) == 1;
    }
  }

  function ToUint64(t: Int64): nat {
    if t >= 0 then t else t + TWO64
  }

  function ToInt64(u: nat): Int64
    requires u < TWO64
  {
    if u < TWO63 then u else u - TWO64
  }

  lemma Pow256Eight()
    ensures Pow256(8) == TWO64
  {
    assert Pow256(8) == 256 * 256 * 256 * 256 * Pow256(4);
    assert Pow256(4) == 256 * 256 * 256 * 256;
  }

  function TimeBytes(t: Int64): (r: seq<Byte>)
    ensures |r| == 8
  {
    BigEndian(ToUint64(t), 8)
  }

  function TimeOf(bs: seq<Byte>): Int64
    requires |bs| == 8
  {
    BytesRoundTrip(bs);
    Pow256Eight();
    ToInt64(FromBigEndian(bs))
  }

  /** Every int64 survives the wire, and every eight bytes are some int64. */
  lemma TimeRoundTrip(t: Int64, bs: seq<Byte>)
    requires |bs| == 8
    ensures TimeOf(TimeBytes(t)) == t
    ensures TimeBytes(TimeOf(bs)) == bs
  {
    Pow256Eight();
    BigEndianRoundTrip(ToUint64(t), 8);
    BytesRoundTrip(bs);
  }

  // ---- records ----

  predicate RecordLength(n: nat) {
    n == RANGE_RECORD || n == COMPARE_RECORD
  }

  function EncodeRecord(d: Digest, n: nat): (r: seq<Byte>)
    requires RecordLength(n)
    ensures |r| == n
  {
    d.id + TimeBytes(d.updateTime) + (if n == COMPARE_RECORD then [if d.deleted then FLAG_DELETED else 0] else [])
  }

  function DecodeRecord(rec: seq<Byte>): Digest
    requires RecordLength(|rec|)
  {
    Digest(rec[..16], TimeOf(rec[16..24]), |rec| == COMPARE_RECORD && rec[24] % 2 == FLAG_DELETED)
  }

  /** Where things are in a record: the sixteen bytes of the id, the eight of the time in
      two's complement with the most significant first, and in compare records a last
      byte whose lowest bit says deleted. */
  lemma RecordLayout(d: Digest, n: nat, i: nat)
    requires RecordLength(n) && i < n
    ensures EncodeRecord(d, n)[i] ==
              if i < 16 then d.id[i]
              else if i < 24 then (if d.updateTime >= 0 then d.updateTime else d.updateTime + TWO64) / Pow256(23 - i) % 256
              else if d.deleted then 1 else 0
  {
    if 16 <= i < 24 {
      ByteOfWeight(ToUint64(d.updateTime), 8, i - 16);
    }
  }

  /** What a record can carry: the range records have no flags. */
  function Carried(d: Digest, n: nat): Digest {
    if n == COMPARE_RECORD then d else d.(deleted := false)
  }

  lemma RecordRoundTrip(d: Digest, n: nat)
    requires RecordLength(n)
    ensures DecodeRecord(EncodeRecord(d, n)) == Carried(d, n)
  {
    var r := EncodeRecord(d, n);
    assert r[..16] == d.id;
    assert r[16..24] == TimeBytes(d.updateTime);
    TimeRoundTrip(d.updateTime, TimeBytes(d.updateTime));
  }

  function Encode(ds: seq<Digest>, n: nat): (r: seq<Byte>)
    requires RecordLength(n)
    ensures |r| == |ds| * n
  {
    if ds == [] then [] else EncodeRecord(ds[0], n) + Encode(ds[1..], n)
  }

  function Decode(bs: seq<Byte>, n: nat): Option<seq<Digest>>
    requires RecordLength(n)
  {
    if bs == [] then Some([])
    else if |bs| < n then None
    else
      var rest := Decode(bs[n..], n);
      if rest.None? then None else Some([DecodeRecord(bs[..n])] + rest.value)
  }

  function CarriedAll(ds: seq<Digest>, n: nat): seq<Digest> {
    seq(|ds|, i requires 0 <= i < |ds| => Carried(ds[i], n))
  }

  lemma {:induction false} DecodeEncode(ds: seq<Digest>, n: nat)
    requires RecordLength(n)
    ensures Decode(Encode(ds, n), n) == Some(CarriedAll(ds, n))
  {
    if ds == [] {
      assert CarriedAll(ds, n) == [];
    } else {
      DecodeEncode(ds[1..], n);
      RecordRoundTrip(ds[0], n);
      assert Encode(ds, n)[..n] == EncodeRecord(ds[0], n);
      assert Encode(ds, n)[n..] == Encode(ds[1..], n);
      assert CarriedAll(ds, n) == [Carried(ds[0], n)] + CarriedAll(ds[1..], n);
    }
  }

  /** Compare records lose nothing. */
  lemma CompareRoundTrip(ds: seq<Digest>)
    ensures Decode(Encode(ds, COMPARE_RECORD), COMPARE_RECORD) == Some(ds)
  {
    DecodeEncode(ds, COMPARE_RECORD);
    assert CarriedAll(ds, COMPARE_RECORD) == ds;
  }

  lemma {:induction false} DecodeFailsIff(bs: seq<Byte>, n: nat)
    requires RecordLength(n)
    ensures Decode(bs, n).None? <==> |bs| % n != 0
    ensures Decode(bs, n).Some? ==> |Decode(bs, n).value| == |bs| / n
  {
    if |bs| >= n {
      DecodeFailsIff(bs[n..], n);
    }
  }

  /** A record with only the deleted bit left in its flags byte. */
  function MaskedRecord(rec: seq<Byte>): seq<Byte>
    requires RecordLength(|rec|)
  {
    if |rec| == COMPARE_RECORD then rec[..24] + [rec[24] % 2] else rec
  }

  function Masked(bs: seq<Byte>, n: nat): seq<Byte>
    requires RecordLength(n)
  {
    if |bs| < n then bs else MaskedRecord(bs[..n]) + Masked(bs[n..], n)
  }

  lemma MaskedRecordRoundTrip(rec: seq<Byte>)
    requires RecordLength(|rec|)
    ensures EncodeRecord(DecodeRecord(rec), |rec|) == MaskedRecord(rec)
  {
    TimeRoundTrip(0, rec[16..24]);
    assert rec[..24] == rec[..16] + rec[16..24];
  }

  /** Decoding forgets nothing but the unused bits of the flags bytes. */
  lemma {:induction false} EncodeDecode(bs: seq<Byte>, n: nat)
    requires RecordLength(n) && Decode(bs, n).Some?
    ensures Encode(Decode(bs, n).value, n) == Masked(bs, n)
  {
    if bs != [] {
      EncodeDecode(bs[n..], n);
      MaskedRecordRoundTrip(bs[..n]);
      assert Decode(bs, n).value[1..] == Decode(bs[n..], n).value;
    }
  }

  // ---- loops over payloads ----

  lemma {:induction false} EncodeAppend(ds: seq<Digest>, d: Digest, n: nat)
    requires RecordLength(n)
    ensures Encode(ds + [d], n) == Encode(ds, n) + EncodeRecord(d, n)
  {
    if ds == [] {
      assert ds + [d] == [d];
      assert Encode([d], n) == EncodeRecord(d, n) + Encode([d][1..], n);
    } else {
      EncodeAppend(ds[1..], d, n);
      assert (ds + [d])[1..] == ds[1..] + [d];
    }
  }

  /** RepairDigestsToBinary, through its reused record buffer. */
  method ToBinary(digests: seq<Digest>) returns (out: seq<Byte>)
    ensures out == Encode(digests, COMPARE_RECORD)
  {
    out := [];
    var buf := new Byte[25];
    var i := 0;
    while i < |digests|
      invariant 0 <= i <= |digests|
      invariant out == Encode(digests[..i], COMPARE_RECORD)
    {
      var d := digests[i];
      var time := TimeBytes(d.updateTime);
      forall j | 0 <= j < 16 {
        buf[j] := d.id[j];
      }
      forall j | 0 <= j < 8 {
        buf[16 + j] := time[j];
      }
      buf[24] := 0;
      if d.deleted {
        buf[24] := FLAG_DELETED;
      }
      assert buf[..] == EncodeRecord(d, COMPARE_RECORD);
      EncodeAppend(digests[..i], d, COMPARE_RECORD);
      assert digests[..i + 1] == digests[..i] + [d];
      out := out + buf[..];
      i := i + 1;
    }
    assert digests[..i] == digests;
  }

  lemma DecodeOne(rec: seq<Byte>)
    requires RecordLength(|rec|)
    ensures Decode(rec, |rec|) == Some([DecodeRecord(rec)])
  {
    assert rec[..|rec|] == rec && rec[|rec|..] == [];
    var none: seq<Digest> := [];
    assert Decode(rec[|rec|..], |rec|) == Some(none);
    assert [DecodeRecord(rec)] + none == [DecodeRecord(rec)];
  }

  lemma {:induction false} DecodeAppend(bs: seq<Byte>, rec: seq<Byte>, n: nat)
    requires RecordLength(n) && |rec| == n && Decode(bs, n).Some?
    ensures Decode(bs + rec, n) == Some(Decode(bs, n).value + [DecodeRecord(rec)])
  {
    if bs == [] {
      assert bs + rec == rec;
      DecodeOne(rec);
      assert Decode(bs, n).value + [DecodeRecord(rec)] == [DecodeRecord(rec)];
    } else {
      DecodeAppend(bs[n..], rec, n);
      assert (bs + rec)[..n] == bs[..n];
      assert (bs + rec)[n..] == bs[n..] + rec;
      var h, v := [DecodeRecord(bs[..n])], Decode(bs[n..], n).value;
      assert Decode(bs, n).value == h + v;
      assert Decode(bs + rec, n) == Some(h + (v + [DecodeRecord(rec)]));
      assert h + (v + [DecodeRecord(rec)]) == h + v + [DecodeRecord(rec)];
    }
  }

  /** RepairDigestsFromBinary. */
  method FromBinary(data: seq<Byte>) returns (r: Option<seq<Digest>>)
    ensures r == Decode(data, COMPARE_RECORD)
  {
    DecodeFailsIff(data, COMPARE_RECORD);
    if |data| % COMPARE_RECORD != 0 {
      return None;
    }
    var digests := [];
    var i := 0;
    while i < |data| / COMPARE_RECORD
      invariant 0 <= i <= |data| / COMPARE_RECORD
      invariant Decode(data[..i * COMPARE_RECORD], COMPARE_RECORD) == Some(digests)
    {
      var rec := data[i * COMPARE_RECORD..(i + 1) * COMPARE_RECORD];
      DecodeAppend(data[..i * COMPARE_RECORD], rec, COMPARE_RECORD);
      assert data[..(i + 1) * COMPARE_RECORD] == data[..i * COMPARE_RECORD] + rec;
      digests := digests + [DecodeRecord(rec)];
      i := i + 1;
    }
    assert data[..i * COMPARE_RECORD] == data;
    return Some(digests);
  }

  datatype ReadResult = Full(bytes: seq<Byte>) | Eof | Broken

  /** A response body: what it still holds, and whether the connection then breaks
      instead of ending. */
  class Reader {
    var rest: seq<Byte>
    const breaks: bool

    constructor (body: seq<Byte>, breaks: bool)
      ensures rest == body && this.breaks == breaks
    {
      this.rest, this.breaks := body, breaks;
    }

    /** io.ReadFull: a clean end only at a boundary. */
    method ReadFull(n: nat) returns (r: ReadResult)
      requires n > 0
      modifies this
      ensures |old(rest)| >= n ==> r == Full(old(rest)[..n]) && rest == old(rest)[n..]
      ensures |old(rest)| < n ==> rest == [] && r == if old(rest) == [] && !breaks then Eof else Broken
    {
      if |rest| >= n {
        r := Full(rest[..n]);
        rest := rest[n..];
      } else {
        r := if rest == [] && !breaks then Eof else Broken;
        rest := [];
      }
    }
  }

  /** The two stream readers, for either record length. The declared content length
      only pre-sizes the result, and never beyond the request's own bound. */
  method ReadRecords(r: Reader, n: nat, contentLength: int, maxRecords: int)
    returns (results: Option<seq<Digest>>, capacity: nat)
    requires RecordLength(n)
    modifies r
    ensures results == if r.breaks then None else Decode(old(r.rest), n)
    ensures capacity > 0 ==> capacity <= maxRecords && capacity * n <= contentLength
    ensures contentLength > 0 && capacity < maxRecords ==> contentLength < (capacity + 1) * n
  {
    capacity := 0;
    if contentLength > 0 {
      var recordCount := contentLength / n;
      if recordCount > maxRecords {
        recordCount := maxRecords;
      }
      if recordCount < 0 {
        recordCount := 0;
      }
      capacity := recordCount;
    }
    var digests: seq<Digest> := [];
    ghost var body, done := r.rest, 0;
    while true
      invariant 0 <= done <= |body| && r.rest == body[done..]
      invariant Decode(body[..done], n) == Some(digests)
      decreases |r.rest|
    {
      var buf := r.ReadFull(n);
      if buf.Eof? {
        assert body[..done] == body;
        return Some(digests), capacity;
      }
      DecodeFailsIff(body[..done], n);
      DecodeFailsIff(body, n);
      if buf.Broken? {
        return None, capacity;
      }
      DecodeAppend(body[..done], buf.bytes, n);
      assert body[..done + n] == body[..done] + buf.bytes;
      digests := digests + [DecodeRecord(buf.bytes)];
      done := done + n;
    }
  }
}
