/** The compare-digests call: the text form of ids in the proto dialect, and the
    negotiation between dialects of clients and peers of different age. */
module CompareDigests {
  import opened Fsm
  import opened Digests

  // ---- the text form of an id, section 3 of RFC 4122 ----

  function HexDigit(n: nat): char
    requires n < 16
  {
    "0123456789abcdef"[n]
  }

  /** A hex digit in either case. */
  function HexVal(c: char): (r: Option<nat>)
    ensures r.Some? ==> r.value < 16
  {
    if '0' <= c <= '9' then Some((c - '0') as nat)
    else if 'a' <= c <= 'f' then Some((c - 'a') as nat + 10)
    else if 'A' <= c <= 'F' then Some((c - 'A') as nat + 10)
    else None
  }

  function LowerHex(c: char): char {
    if 'A' <= c <= 'F' then c - 'A' + 'a' else c
  }

  lemma HexRoundTrip(n: nat, c: char)
    requires n < 16
    ensures HexVal(HexDigit(n)) == Some(n)
    ensures HexVal(c) == Some(n) <==> LowerHex(c) == HexDigit(n)
  {
  }

  predicate Hyphen(p: nat) {
    p == 8 || p == 13 || p == 18 || p == 23
  }

  /** Where the two characters of byte b start. */
  function Offset(b: nat): (p: nat)
    requires b < 16
    ensures p < 35 && !Hyphen(p) && !Hyphen(p + 1)
  {
    2 * b + (if b < 4 then 0 else if b < 6 then 1 else if b < 8 then 2 else if b < 10 then 3 else 4)
  }

  /** The byte whose characters lie at p. */
  function ByteAt(p: nat): (b: nat)
    requires p < 36 && !Hyphen(p)
    ensures b < 16 && Offset(b) <= p <= Offset(b) + 1
  {
    if p < 8 then p / 2
    else if p < 13 then (p - 1) / 2
    else if p < 18 then (p - 2) / 2
    else if p < 23 then (p - 3) / 2
    else (p - 4) / 2
  }

  function FormatAt(id: Uuid, p: nat): char
    requires p < 36
  {
    if Hyphen(p) then '-'
    else if p == Offset(ByteAt(p)) then HexDigit(id[ByteAt(p)] / 16)
    else HexDigit(id[ByteAt(p)] % 16)
  }

  /** UUID.String. */
  function Format(id: Uuid): (s: string)
    ensures |s| == 36
  {
    seq(36, p requires 0 <= p < 36 => FormatAt(id, p))
  }

  /** The digits of some bytes, two each, the high one first. */
  function HexOf(bs: seq<Byte>): (s: string)
    ensures |s| == 2 * |bs|
    ensures forall k {:trigger bs[k]} :: 0 <= k < |bs| ==> s[2 * k] == HexDigit(bs[k] / 16) && s[2 * k + 1] == HexDigit(bs[k] % 16)
  {
    if bs == [] then []
    else
      var rest := HexOf(bs[1..]);
      assert forall k {:trigger bs[k]} :: 1 <= k < |bs| ==> bs[k] == bs[1..][k - 1];
      [HexDigit(bs[0] / 16), HexDigit(bs[0] % 16)] + rest
  }

  lemma GroupAt(id: Uuid, lo: nat, hi: nat, p: nat)
    requires lo < hi <= 16 && Offset(hi - 1) == Offset(lo) + 2 * (hi - 1 - lo) && Offset(lo) <= p < Offset(lo) + 2 * (hi - lo)
    requires !Hyphen(p) && lo <= ByteAt(p) < hi && Offset(ByteAt(p)) == Offset(lo) + 2 * (ByteAt(p) - lo)
    ensures p < 36 && FormatAt(id, p) == HexOf(id[lo..hi])[p - Offset(lo)]
  {
    var k := ByteAt(p) - lo;
    assert id[lo..hi][k] == id[ByteAt(p)];
  }

  /** The characters of a group of bytes. */
  lemma Group(id: Uuid, lo: nat, hi: nat)
    requires (lo, hi) in {(0, 4), (4, 6), (6, 8), (8, 10), (10, 16)}
    ensures Offset(lo) + 2 * (hi - lo) <= 36
    ensures Format(id)[Offset(lo)..Offset(lo) + 2 * (hi - lo)] == HexOf(id[lo..hi])
  {
    var part := Format(id)[Offset(lo)..Offset(lo) + 2 * (hi - lo)];
    forall i | 0 <= i < |part| ensures part[i] == HexOf(id[lo..hi])[i] {
      GroupAt(id, lo, hi, Offset(lo) + i);
    }
  }

  /** The text form in one piece: groups of four, two, two, two and six bytes with hyphens
      between them. */
  lemma FormatShape(id: Uuid)
    ensures Format(id) == HexOf(id[0..4]) + "-" + HexOf(id[4..6]) + "-" + HexOf(id[6..8]) + "-" + HexOf(id[8..10]) + "-" + HexOf(id[10..16])
  {
    Group(id, 0, 4);
    Group(id, 4, 6);
    Group(id, 6, 8);
    Group(id, 8, 10);
    Group(id, 10, 16);
    FromGroups(Format(id));
  }

  lemma FromGroups(f: string)
    requires |f| == 36 && f[8] == '-' && f[13] == '-' && f[18] == '-' && f[23] == '-'
    ensures f == f[0..8] + "-" + f[9..13] + "-" + f[14..18] + "-" + f[19..23] + "-" + f[24..36]
  {
  }

  predicate WellFormed(s: string) {
    |s| == 36 && forall p {:trigger s[p]} :: 0 <= p < 36 ==> if Hyphen(p) then s[p] == '-' else HexVal(s[p]).Some?
  }

  function ParsedByte(s: string, b: nat): Byte
    requires WellFormed(s) && b < 16
  {
    HexVal(s[Offset(b)]).value * 16 + HexVal(s[Offset(b) + 1]).value
  }

  /** uuid.Parse on the canonical form. */
  function ParseCanonical(s: string): Option<Uuid> {
    if WellFormed(s)
    then Some(seq(16, b requires 0 <= b < 16 => ParsedByte(s, b)))
    else None
  }

  function Lower(s: string): string {
    seq(|s|, i requires 0 <= i < |s| => LowerHex(s[i]))
  }

  /** What a character must be that reads as the formatted one. */
  lemma FormattedAt(id: Uuid, p: nat, c: char)
    requires p < 36 && LowerHex(c) == FormatAt(id, p)
    ensures if Hyphen(p) then c == '-' else HexVal(c).Some?
    ensures !Hyphen(p) ==> HexVal(c) == Some(if p == Offset(ByteAt(p)) then id[ByteAt(p)] / 16 else id[ByteAt(p)] % 16)
  {
    if !Hyphen(p) {
      HexRoundTrip(if p == Offset(ByteAt(p)) then id[ByteAt(p)] / 16 else id[ByteAt(p)] % 16, c);
    }
  }

  /** s is the formatted id up to case. */
  ghost predicate ReadsAs(s: string, id: Uuid) {
    |s| == 36 && forall p {:trigger s[p]} :: 0 <= p < 36 ==> LowerHex(s[p]) == FormatAt(id, p)
  }

  lemma FormattedIsWellFormed(s: string, id: Uuid)
    requires ReadsAs(s, id)
    ensures WellFormed(s)
  {
    forall p | 0 <= p < 36 ensures if Hyphen(p) then s[p] == '-' else HexVal(s[p]).Some? {
      FormattedAt(id, p, s[p]);
    }
  }

  lemma OffsetInverse(b: nat)
    requires b < 16
    ensures ByteAt(Offset(b)) == b && ByteAt(Offset(b) + 1) == b
  {
  }

  lemma ByteFromChars(id: Uuid, b: nat, hi: char, lo: char)
    requires b < 16 && LowerHex(hi) == FormatAt(id, Offset(b)) && LowerHex(lo) == FormatAt(id, Offset(b) + 1)
    ensures HexVal(hi) == Some(id[b] / 16) && HexVal(lo) == Some(id[b] % 16)
  {
    OffsetInverse(b);
    FormattedAt(id, Offset(b), hi);
    FormattedAt(id, Offset(b) + 1, lo);
  }

  lemma FormattedByte(s: string, id: Uuid, b: nat)
    requires ReadsAs(s, id) && b < 16
    ensures HexVal(s[Offset(b)]) == Some(id[b] / 16) && HexVal(s[Offset(b) + 1]) == Some(id[b] % 16)
  {
    var p := Offset(b);
    var q := p + 1;
    var hi, lo := s[p], s[q];
    assert LowerHex(hi) == FormatAt(id, p);
    assert LowerHex(lo) == FormatAt(id, q);
    ByteFromChars(id, b, hi, lo);
  }

  lemma FormattedParses(s: string, id: Uuid)
    requires ReadsAs(s, id)
    ensures ParseCanonical(s) == Some(id)
  {
    FormattedIsWellFormed(s, id);
    forall b | 0 <= b < 16 ensures ParsedByte(s, b) == id[b] {
      FormattedByte(s, id, b);
    }
    assert ParseCanonical(s).value == id;
  }

  /** Text and bytes determine each other up to the case of hex digits. */
  lemma ParseCanonicalIff(s: string, id: Uuid)
    ensures ParseCanonical(s) == Some(id) <==> Lower(s) == Format(id)
  {
    if ParseCanonical(s) == Some(id) {
      forall p | 0 <= p < 36 ensures LowerHex(s[p]) == FormatAt(id, p) {
        ParsedAt(s, id, p);
      }
      assert Lower(s) == Format(id);
    }
    if Lower(s) == Format(id) {
      assert |s| == |Lower(s)| == 36;
      forall p | 0 <= p < 36 ensures LowerHex(s[p]) == FormatAt(id, p) {
        assert Lower(s)[p] == Format(id)[p];
      }
      FormattedParses(s, id);
    }
  }

  lemma ParsedAt(s: string, id: Uuid, p: nat)
    requires ParseCanonical(s) == Some(id) && p < 36
    ensures LowerHex(s[p]) == FormatAt(id, p)
  {
    if !Hyphen(p) {
      var b := ByteAt(p);
      var hi, lo := HexVal(s[Offset(b)]).value, HexVal(s[Offset(b) + 1]).value;
      assert id[b] == ParsedByte(s, b) == hi * 16 + lo;
      assert id[b] / 16 == hi && id[b] % 16 == lo;
      HexRoundTrip(hi, s[Offset(b)]);
      HexRoundTrip(lo, s[Offset(b) + 1]);
    }
  }

  const UrnPrefix: string := "urn:uuid:"

  /** The canonical text inside each of the forms uuid.Parse reads: canonical, URN,
      in braces or any other pair of characters, and without hyphens. */
  function Canonical(s: string): Option<string> {
    if |s| == 36 then Some(s)
    else if |s| == 45 then if Fold(s[..9]) == UrnPrefix then Some(s[9..]) else None
    else if |s| == 38 then Some(s[1..37])
    else if |s| == 32 then Some(s[..8] + "-" + s[8..12] + "-" + s[12..16] + "-" + s[16..20] + "-" + s[20..])
    else None
  }

  /** uuid.Parse. */
  function Parse(s: string): Option<Uuid> {
    var t := Canonical(s);
    if t.None? then None else ParseCanonical(t.value)
  }

  /** Text and bytes determine each other up to the form and the case of hex digits. */
  lemma ParseIff(s: string, id: Uuid)
    ensures Parse(s) == Some(id) <==> Canonical(s).Some? && Lower(Canonical(s).value) == Format(id)
  {
    if Canonical(s).Some? {
      ParseCanonicalIff(Canonical(s).value, id);
    }
  }

  /** Every spelling of an id is read in each of the four forms, and nothing of another
      length is. */
  lemma ParseForms(t: string, id: Uuid, urn: string, open: char, close: char, s: string)
    requires Lower(t) == Format(id) && Fold(urn) == "urn:uuid:"
    ensures |t| == 36 && Parse(t) == Some(id) && Parse(urn + t) == Some(id) && Parse([open] + t + [close]) == Some(id)
    ensures Parse(t[..8] + t[9..13] + t[14..18] + t[19..23] + t[24..]) == Some(id)
    ensures Parse(s).Some? ==> |s| in {32, 36, 38, 45}
  {
    ParseCanonicalIff(t, id);
    assert |urn| == |Fold(urn)| == 9;
    assert (urn + t)[..9] == urn && (urn + t)[9..] == t;
    assert ([open] + t + [close])[1..37] == t;
    PlainForm(t);
  }

  lemma PlainForm(t: string)
    requires WellFormed(t)
    ensures Canonical(t[..8] + t[9..13] + t[14..18] + t[19..23] + t[24..]) == Some(t)
  {
    var s := t[..8] + t[9..13] + t[14..18] + t[19..23] + t[24..];
    assert s[..8] == t[..8] && s[8..12] == t[9..13] && s[12..16] == t[14..18] && s[16..20] == t[19..23] && s[20..] == t[24..];
    assert t[8] == '-' && t[13] == '-' && t[18] == '-' && t[23] == '-';
    FromGroups(t);
    assert t[0..8] == t[..8] && t[24..36] == t[24..];
  }

  lemma IdRoundTrip(id: Uuid)
    ensures Parse(Format(id)) == Some(id)
  {
    forall p | 0 <= p < 36 ensures LowerHex(FormatAt(id, p)) == FormatAt(id, p) {
    }
    assert Lower(Format(id)) == Format(id);
    ParseIff(Format(id), id);
  }

  // ---- the proto dialect ----

  datatype Record = Record(id: string, updateTime: Int64, deleted: bool)

  function ToRecord(d: Digest): Record {
    Record(Format(d.id), d.updateTime, d.deleted)
  }

  /** Record by record, or nothing when an id does not parse. */
  function FromRecords(rs: seq<Record>): Option<seq<Digest>> {
    if forall i :: 0 <= i < |rs| ==> Parse(rs[i].id).Some?
    then Some(seq(|rs|, i requires 0 <= i < |rs| && Parse(rs[i].id).Some? =>
                Digest(Parse(rs[i].id).value, rs[i].updateTime, rs[i].deleted)))
    else None
  }

  function ToRecords(ds: seq<Digest>): (rs: seq<Record>)
    ensures |rs| == |ds|
  {
    seq(|ds|, i requires 0 <= i < |ds| => ToRecord(ds[i]))
  }

  lemma RecordsRoundTrip(ds: seq<Digest>)
    ensures FromRecords(ToRecords(ds)) == Some(ds)
  {
    var rs := ToRecords(ds);
    forall i | 0 <= i < |ds| ensures Parse(rs[i].id) == Some(ds[i].id) {
      IdRoundTrip(ds[i].id);
    }
    assert FromRecords(rs).value == ds;
  }

  method RepairDigestsToProto(digests: seq<Digest>) returns (out: seq<Record>)
    ensures out == ToRecords(digests)
  {
    out := [];
    for i := 0 to |digests|
      invariant |out| == i && forall j :: 0 <= j < i ==> out[j] == ToRecord(digests[j])
    {
      out := out + [ToRecord(digests[i])];
    }
  }

  method ProtoToRepairDigests(results: seq<Record>) returns (r: Option<seq<Digest>>)
    ensures r == FromRecords(results)
  {
    var out: seq<Digest> := [];
    for i := 0 to |results|
      invariant |out| == i
      invariant forall j :: 0 <= j < i ==>
                  && Parse(results[j].id).Some?
                  && out[j] == Digest(Parse(results[j].id).value, results[j].updateTime, results[j].deleted)
    {
      var id := Parse(results[i].id);
      if id.None? {
        return None;
      }
      out := out + [Digest(id.value, results[i].updateTime, results[i].deleted)];
    }
    assert out == FromRecords(results).value;
    return Some(out);
  }

  // ---- the call ----

  const PROTO: nat := 0
  const PACKED: nat := 1

  datatype Request = Request(digests: seq<Record>, packed: seq<Byte>, encoding: nat, acceptEncoding: nat)
  datatype Reply = Reply(digests: seq<Record>, packed: seq<Byte>, encoding: nat)

  /** What a node finds when it compares digests with its own; None is an error. */
  type Comparison = seq<Digest> -> Option<seq<Digest>>

  /** A peer is a server of either age, or any other thing that answers requests. */
  datatype Peer = Old(compare: Comparison) | New(compare: Comparison) | Other(answer: Request -> Option<Reply>)

  /** A server that predates packing: it reads and writes records only. */
  function ServeOld(compare: Comparison, req: Request): Option<Reply> {
    var ds := FromRecords(req.digests);
    if ds.None? then None else
      var found := compare(ds.value);
      if found.None? then None else Some(Reply(ToRecords(found.value), [], PROTO))
  }

  function Received(req: Request): Option<seq<Digest>> {
    if req.encoding == PACKED then
      if |req.packed| > MAX_BODY then None else Decode(req.packed, COMPARE_RECORD)
    else if req.encoding == PROTO then FromRecords(req.digests)
    else None
  }

  function ServeNew(compare: Comparison, req: Request): Option<Reply> {
    var ds := Received(req);
    if ds.None? then None else
      var found := compare(ds.value);
      if found.None? then None
      else if req.acceptEncoding == PACKED then Some(Reply([], Encode(found.value, COMPARE_RECORD), PACKED))
      else Some(Reply(ToRecords(found.value), [], PROTO))
  }

  function Serve(peer: Peer, req: Request): Option<Reply> {
    match peer
    case Old(compare) => ServeOld(compare, req)
    case New(compare) => ServeNew(compare, req)
    case Other(answer) => answer(req)
  }

  function DecodePacked(payload: seq<Byte>, maxRecords: nat): Option<seq<Digest>> {
    if maxRecords > 0 && |payload| > maxRecords * COMPARE_RECORD then None else Decode(payload, COMPARE_RECORD)
  }

  function DecodeReply(reply: Reply, maxRecords: nat): Option<seq<Digest>> {
    if reply.encoding == PACKED then DecodePacked(reply.packed, maxRecords)
    else if reply.encoding == PROTO then FromRecords(reply.digests)
    else None
  }

  /** The client call: packed first, and once more in records when the peer answers
      in records. Between the two calls the host may have been replaced by another
      version, so each call has its own server. */
  function CompareDigests(first: Peer, second: Peer, ds: seq<Digest>): Option<seq<Digest>> {
    var reply := Serve(first, Request([], Encode(ds, COMPARE_RECORD), PACKED, PACKED));
    if reply.None? then None
    else if reply.value.encoding != PROTO then DecodeReply(reply.value, |ds|)
    else
      var again := Serve(second, Request(ToRecords(ds), [], PROTO, PACKED));
      if again.None? then None else DecodeReply(again.value, |ds|)
  }

  /** A reply is rejected exactly when it is in an unknown encoding, its packed
      payload is over the bound or not whole records, or an id does not parse. */
  lemma ReplyRejectedIff(reply: Reply, maxRecords: nat)
    ensures DecodeReply(reply, maxRecords).None? <==>
              if reply.encoding == PACKED then
                (maxRecords > 0 && |reply.packed| > maxRecords * 25) || |reply.packed| % 25 != 0
              else reply.encoding == PROTO ==> exists i :: 0 <= i < |reply.digests| && Parse(reply.digests[i].id).None?
  {
    DecodeFailsIff(reply.packed, COMPARE_RECORD);
  }

  /** What the size bound lets through of a packed answer to ds. */
  function Bounded(ds: seq<Digest>, found: Option<seq<Digest>>): Option<seq<Digest>> {
    if found.Some? && ds != [] && |found.value| > |ds| then None else found
  }

  /** A new peer answers the packed request, and no second call is made: the caller
      gets the peer's comparison of exactly what it sent, unless the request is over
      the body limit or the peer found more than it was asked about. */
  lemma NewPeerAnswers(compare: Comparison, second: Peer, ds: seq<Digest>)
    ensures CompareDigests(New(compare), second, ds)
            == if 25 * |ds| > 4 * 1024 * 1024 then None else Bounded(ds, compare(ds))
  {
    CompareRoundTrip(ds);
    if compare(ds).Some? {
      CompareRoundTrip(compare(ds).value);
    }
  }

  /** A client that predates packing sends records and never says what it accepts. A
      new server answers it as an old one would. */
  lemma OldClientIsServed(compare: Comparison, ds: seq<Digest>)
    ensures var req := Request(ToRecords(ds), [], PROTO, PROTO);
            && ServeNew(compare, req) == ServeOld(compare, req)
            && (compare(ds).Some? ==> ServeNew(compare, req).Some? && FromRecords(ServeNew(compare, req).value.digests) == compare(ds))
            && (compare(ds).None? ==> ServeNew(compare, req).None?)
  {
    RecordsRoundTrip(ds);
    if compare(ds).Some? {
      RecordsRoundTrip(compare(ds).value);
    }
  }

  /** What a second call in records brings back, from a server of either age. */
  lemma SecondCallAnswers(second: Peer, ds: seq<Digest>)
    requires !second.Other?
    ensures var again := Serve(second, Request(ToRecords(ds), [], PROTO, PACKED));
            (if again.None? then None else DecodeReply(again.value, |ds|))
            == if second.Old? then second.compare(ds) else Bounded(ds, second.compare(ds))
  {
    RecordsRoundTrip(ds);
    if second.compare(ds).Some? {
      RecordsRoundTrip(second.compare(ds).value);
      CompareRoundTrip(second.compare(ds).value);
    }
  }

  /** An old peer answers the first call in records, having compared nothing. The caller
      gets the comparison of exactly what it sent by whatever server takes the second
      call, provided the first survives the empty comparison. */
  lemma OldPeerAnswers(compare: Comparison, second: Peer, ds: seq<Digest>)
    requires !second.Other?
    ensures CompareDigests(Old(compare), second, ds)
            == if compare([]).None? then None
               else if second.Old? then second.compare(ds) else Bounded(ds, second.compare(ds))
  {
    var none: seq<Digest> := [];
    RecordsRoundTrip(none);
    assert ToRecords(none) == [];
    SecondCallAnswers(second, ds);
  }

  /** A compliant comparison reports some of the digests it was asked about, each
      at most once, by id. */
  ghost predicate Compliant(compare: Comparison, ds: seq<Digest>) {
    compare(ds).Some? ==>
      && (forall i, j :: 0 <= i < j < |compare(ds).value| ==> compare(ds).value[i].id != compare(ds).value[j].id)
      && (forall i :: 0 <= i < |compare(ds).value| ==> exists j :: 0 <= j < |ds| && ds[j].id == compare(ds).value[i].id)
  }

  lemma {:induction false} DistinctIdsFit(found: seq<Uuid>, sent: set<Uuid>)
    requires forall i, j :: 0 <= i < j < |found| ==> found[i] != found[j]
    requires forall i :: 0 <= i < |found| ==> found[i] in sent
    ensures |found| <= |sent|
  {
    if found != [] {
      var last := found[|found| - 1];
      DistinctIdsFit(found[..|found| - 1], sent - {last});
    }
  }

  lemma {:induction false} IdsOf(ds: seq<Digest>) returns (ids: set<Uuid>)
    ensures |ids| <= |ds| && forall j :: 0 <= j < |ds| ==> ds[j].id in ids
  {
    if ds == [] {
      ids := {};
    } else {
      var front := IdsOf(ds[..|ds| - 1]);
      ids := front + {ds[|ds| - 1].id};
    }
  }

  lemma CompliantFits(compare: Comparison, ds: seq<Digest>)
    requires Compliant(compare, ds)
    ensures Bounded(ds, compare(ds)) == compare(ds)
  {
    if compare(ds).Some? {
      var v := compare(ds).value;
      var sent := IdsOf(ds);
      var found: seq<Uuid> := seq(|v|, i requires 0 <= i < |v| => v[i].id);
      DistinctIdsFit(found, sent);
    }
  }

  /** The size bound never rejects a compliant peer, of either age and even if it
      changes age between the calls: the answer is that of the server that compared
      what was sent. */
  lemma CompliantPeerIsHeard(first: Peer, second: Peer, ds: seq<Digest>)
    requires !first.Other? && !second.Other? && Compliant(first.compare, ds) && Compliant(second.compare, ds)
    requires if first.New? then 25 * |ds| <= MAX_BODY else first.compare([]).Some?
    ensures CompareDigests(first, second, ds) == if first.New? then first.compare(ds) else second.compare(ds)
  {
    CompliantFits(first.compare, ds);
    CompliantFits(second.compare, ds);
    if first.New? {
      NewPeerAnswers(first.compare, second, ds);
    } else {
      OldPeerAnswers(first.compare, second, ds);
    }
  }
}
