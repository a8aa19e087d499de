/**
 * container-runtime/minicon/netlink.py: route attributes, each a length, a kind and a payload, padded
 * to four bytes (RFC 3549, section 2.2). Numbers are two bytes, the low one first.
 */
module Netlink {
  import opened Wrappers

  type Byte = b: int | 0 <= b < 256

  type Bytes = seq<Byte>

  type Kind = k: int | 0 <= k < 0x1_0000

  datatype Attribute = Attribute(kind: Kind, payload: Bytes)

  function Align(length: nat): (r: nat)
    ensures length <= r < length + 4 && r % 4 == 0
  {
    (length + 3) / 4 * 4
  }

  function Half(n: Kind): Bytes {
    [n % 256, n / 256]
  }

  function HalfAt(data: Bytes, offset: nat): Kind
    requires offset + 2 <= |data|
  {
    data[offset] as int + 256 * (data[offset + 1] as int)
  }

  function Zeros(n: nat): Bytes {
    seq(n, _ => 0)
  }

  // The header counts itself and the payload, not the padding; what it cannot count is an error.
  function Encode(a: Attribute): Option<Bytes> {
    if |a.payload| + 4 >= 0x1_0000 then None
    else
      var body := Half(|a.payload| + 4) + Half(a.kind) + a.payload;
      Some(body + Zeros(Align(|body|) - |body|))
  }

  function EncodeAll(attributes: seq<Attribute>): Option<Bytes> {
    if attributes == [] then Some([])
    else
      match (EncodeAll(attributes[..|attributes| - 1]), Encode(attributes[|attributes| - 1]))
      case (Some(front), Some(last)) => Some(front + last)
      case _ => None
  }

  // What parse_attributes reads from an offset on, over what it has read already.
  function ParseFrom(data: Bytes, offset: nat, seen: map<Kind, Bytes>): map<Kind, Bytes>
    decreases |data| - offset
  {
    if offset + 4 > |data| then seen
    else
      var length, kind := HalfAt(data, offset), HalfAt(data, offset + 2);
      if length < 4 || offset + length > |data| then seen
      else ParseFrom(data, offset + Align(length), seen[kind := data[offset + 4..offset + length]])
  }

  // Of several payloads of one kind the last one counts.
  function Table(attributes: seq<Attribute>): map<Kind, Bytes> {
    if attributes == [] then map[]
    else
      var last := attributes[|attributes| - 1];
      Table(attributes[..|attributes| - 1])[last.kind := last.payload]
  }

  // The loop; it ends on any bytes at all.
  method ParseAttributes(data: Bytes) returns (out: map<Kind, Bytes>)
    ensures out == ParseFrom(data, 0, map[])
  {
    out := map[];
    var offset := 0;
    while offset + 4 <= |data|
      invariant offset >= 0 && ParseFrom(data, offset, out) == ParseFrom(data, 0, map[])
      decreases |data| - offset
    {
      var length, kind := HalfAt(data, offset), HalfAt(data, offset + 2);
      if length < 4 || offset + length > |data| {
        break;
      }
      out := out[kind := data[offset + 4..offset + length]];
      offset := offset + Align(length);
    }
  }

  // On the wire: the length with its header and the kind, each with its low byte first, the payload, and
  // zeros up to the next multiple of four.
  lemma EncodedBytes(a: Attribute)
    requires Encode(a).Some?
    ensures
      var e, n := Encode(a).value, |a.payload|;
      |e| % 4 == 0 && n + 4 <= |e| < n + 8 &&
      (e[0] as int) + 256 * (e[1] as int) == n + 4 && (e[2] as int) + 256 * (e[3] as int) == a.kind &&
      e[4..n + 4] == a.payload && forall k :: n + 4 <= k < |e| ==> e[k] == 0
  {
  }

  lemma EncodeFails(a: Attribute)
    ensures Encode(a).Some? <==> |a.payload| < 65532
  {
  }

  // One attribute at an offset is read, and reading goes on right behind it.
  lemma ParseOne(data: Bytes, offset: nat, a: Attribute, seen: map<Kind, Bytes>)
    requires Encode(a).Some? && offset + |Encode(a).value| <= |data|
    requires data[offset..offset + |Encode(a).value|] == Encode(a).value
    ensures ParseFrom(data, offset, seen) == ParseFrom(data, offset + |Encode(a).value|, seen[a.kind := a.payload])
  {
    var e, length := Encode(a).value, |a.payload| + 4;
    assert forall i :: 0 <= i < |e| ==> data[offset + i] == e[i];
    assert e[0] == length % 256 && e[1] == length / 256 && e[2] == a.kind % 256 && e[3] == a.kind / 256;
    assert data[offset] == e[0] && data[offset + 1] == e[1] && data[offset + 2] == e[2] && data[offset + 3] == e[3];
    assert HalfAt(data, offset) == length && HalfAt(data, offset + 2) == a.kind;
    assert |e| == Align(length);
    assert data[offset + 4..offset + length] == e[4..length] == a.payload;
  }

  lemma {:induction false} SplitEncoding(a: seq<Attribute>, n: nat)
    requires n <= |a| && EncodeAll(a).Some?
    ensures EncodeAll(a[..n]).Some? && EncodeAll(a[..n]).value <= EncodeAll(a).value
    decreases |a|
  {
    if n < |a| {
      assert a[..|a| - 1][..n] == a[..n];
      SplitEncoding(a[..|a| - 1], n);
    } else {
      assert a[..n] == a;
    }
  }

  lemma EncodeMore(attributes: seq<Attribute>, a: Attribute)
    ensures EncodeAll([]) == Some([]) && Table([]) == map[]
    ensures EncodeAll(attributes + [a]).Some? <==> EncodeAll(attributes).Some? && Encode(a).Some?
    ensures EncodeAll(attributes + [a]).Some? ==>
              EncodeAll(attributes + [a]).value == EncodeAll(attributes).value + Encode(a).value
    ensures Table(attributes + [a]) == Table(attributes)[a.kind := a.payload]
  {
    hide Encode;
    assert (attributes + [a])[..|attributes|] == attributes;
  }

  lemma {:induction false} ParsePrefix(attributes: seq<Attribute>, data: Bytes, n: nat)
    requires n <= |attributes| && EncodeAll(attributes).Some? && EncodeAll(attributes).value <= data
    ensures EncodeAll(attributes[..n]).Some?
    ensures ParseFrom(data, 0, map[]) == ParseFrom(data, |EncodeAll(attributes[..n]).value|, Table(attributes[..n]))
    decreases n
  {
    hide EncodeAll, Encode, Table, ParseFrom;
    SplitEncoding(attributes, n);
    if n == 0 {
      assert attributes[..0] == [];
      EncodeMore([], Attribute(0, []));
    } else {
      ParsePrefix(attributes, data, n - 1);
      var a, before := attributes[n - 1], attributes[..n - 1];
      EncodeMore(before, a);
      assert attributes[..n] == before + [a];
      var front, all := EncodeAll(before).value, EncodeAll(attributes[..n]).value;
      assert data[|front|..|all|] == all[|front|..] == Encode(a).value;
      ParseOne(data, |front|, a, Table(before));
    }
  }

  // Bytes at an offset that do not hold a whole attribute.
  ghost predicate Truncated(rest: Bytes) {
    |rest| < 4 || HalfAt(rest, 0) < 4 || HalfAt(rest, 0) > |rest|
  }

  // Parsing what was written gives the payloads back, the last one of each kind, whatever truncated
  // attribute follows.
  lemma ParseWritten(attributes: seq<Attribute>, rest: Bytes)
    requires EncodeAll(attributes).Some? && Truncated(rest)
    ensures ParseFrom(EncodeAll(attributes).value + rest, 0, map[]) == Table(attributes)
  {
    var written := EncodeAll(attributes).value;
    var data := written + rest;
    ParsePrefix(attributes, data, |attributes|);
    assert attributes[..|attributes|] == attributes;
    assert |rest| >= 4 ==> HalfAt(data, |written|) == HalfAt(rest, 0);
  }

  lemma {:induction false} EncodeAllIff(attributes: seq<Attribute>)
    ensures EncodeAll(attributes).Some? <==> forall a :: a in attributes ==> |a.payload| < 65532
  {
    if attributes != [] {
      var front, last := attributes[..|attributes| - 1], attributes[|attributes| - 1];
      EncodeAllIff(front);
      EncodeFails(last);
      assert attributes == front + [last];
    }
  }

  // ---- nesting --------------------------------------------------------------------------------------

  const IFLA_IFNAME: Kind := 3
  const IFLA_LINKINFO: Kind := 18
  const IFLA_INFO_KIND: Kind := 1
  const IFLA_INFO_DATA: Kind := 2
  const VETH_INFO_PEER: Kind := 1

  // "veth" and its terminator.
  const VETH: Bytes := [118, 101, 116, 104, 0]

  const EMPTY_INFO: Bytes := Zeros(16)

  // The message body create_veth sends: a link whose driver data holds a second link.
  function VethBody(name: Bytes, peer: Bytes): Option<Bytes> {
    var peerName :- EncodeAll([Attribute(IFLA_IFNAME, peer + [0])]);
    var peerData :- EncodeAll([Attribute(VETH_INFO_PEER, EMPTY_INFO + peerName)]);
    var linkInfo :- EncodeAll([Attribute(IFLA_INFO_KIND, VETH), Attribute(IFLA_INFO_DATA, peerData)]);
    var link :- EncodeAll([Attribute(IFLA_IFNAME, name + [0]), Attribute(IFLA_LINKINFO, linkInfo)]);
    Some(EMPTY_INFO + link)
  }

  function Parse(data: Bytes): map<Kind, Bytes> {
    ParseFrom(data, 0, map[])
  }

  lemma ParseBack(attributes: seq<Attribute>)
    requires EncodeAll(attributes).Some?
    ensures Parse(EncodeAll(attributes).value) == Table(attributes)
  {
    ParseWritten(attributes, []);
    assert EncodeAll(attributes).value + [] == EncodeAll(attributes).value;
  }

  lemma TableOfTwo(a: Attribute, b: Attribute)
    ensures Table([a, b]) == map[a.kind := a.payload][b.kind := b.payload] && Table([a]) == map[a.kind := a.payload]
  {
    assert [a, b][..1] == [a] && [a][..0] == [];
    assert Table([a]) == map[][a.kind := a.payload];
  }

  ghost predicate ZeroHeader(data: Bytes) {
    |data| >= 16 && forall k :: 0 <= k < 16 ==> data[k] == 0
  }

  // Both names come back through all three levels, under the kinds the kernel knows, behind the empty
  // headers it expects.
  lemma VethRoundTrip(name: Bytes, peer: Bytes)
    requires VethBody(name, peer).Some?
    ensures
      var body := VethBody(name, peer).value;
      ZeroHeader(body) &&
      var link := Parse(body[16..]);
      3 in link && link[3] == name + [0] && 18 in link &&
      var info := Parse(link[18]);
      1 in info && info[1] == [118, 101, 116, 104, 0] && 2 in info &&
      var data := Parse(info[2]);
      1 in data && ZeroHeader(data[1]) && Parse(data[1][16..]) == map[3 := peer + [0]]
  {
    hide Parse, Table, EncodeAll;
    var a := Attribute(IFLA_IFNAME, peer + [0]);
    var peerName := EncodeAll([a]).value;
    var b := Attribute(VETH_INFO_PEER, EMPTY_INFO + peerName);
    var peerData := EncodeAll([b]).value;
    var c, d := Attribute(IFLA_INFO_KIND, VETH), Attribute(IFLA_INFO_DATA, peerData);
    var linkInfo := EncodeAll([c, d]).value;
    var e, f := Attribute(IFLA_IFNAME, name + [0]), Attribute(IFLA_LINKINFO, linkInfo);
    var link := EncodeAll([e, f]).value;
    ParseBack([a]);
    ParseBack([b]);
    ParseBack([c, d]);
    ParseBack([e, f]);
    TableOfTwo(a, a);
    TableOfTwo(b, b);
    TableOfTwo(c, d);
    TableOfTwo(e, f);
    assert (EMPTY_INFO + link)[16..] == link;
    assert (EMPTY_INFO + peerName)[16..] == peerName;
  }

  lemma EncodedLengths(a: Attribute, b: Attribute)
    ensures EncodeAll([a]).Some? <==> |a.payload| < 65532
    ensures EncodeAll([a]).Some? ==> |EncodeAll([a]).value| == Align(|a.payload| + 4)
    ensures EncodeAll([a, b]).Some? <==> |a.payload| < 65532 && |b.payload| < 65532
    ensures EncodeAll([a, b]).Some? ==> |EncodeAll([a, b]).value| == Align(|a.payload| + 4) + Align(|b.payload| + 4)
  {
    assert [a, b][..1] == [a] && [a][..0] == [];
    assert EncodeAll([]) == Some([]);
  }

  // The request can be built exactly when each level still fits its two-byte length.
  lemma VethFitsIff(name: Bytes, peer: Bytes)
    ensures VethBody(name, peer).Some? <==> |name| < 65531 && |peer| <= 65487
  {
    hide EncodeAll;
    var a := Attribute(IFLA_IFNAME, peer + [0]);
    EncodedLengths(a, a);
    if EncodeAll([a]).Some? {
      var b := Attribute(VETH_INFO_PEER, EMPTY_INFO + EncodeAll([a]).value);
      EncodedLengths(b, b);
      if EncodeAll([b]).Some? {
        var c, d := Attribute(IFLA_INFO_KIND, VETH), Attribute(IFLA_INFO_DATA, EncodeAll([b]).value);
        EncodedLengths(c, d);
        if EncodeAll([c, d]).Some? {
          EncodedLengths(Attribute(IFLA_IFNAME, name + [0]), Attribute(IFLA_LINKINFO, EncodeAll([c, d]).value));
        }
      }
    }
  }
}
