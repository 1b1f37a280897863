/** The DNS name encodings used when advertising domain names through Avahi
    (`__encodeCNAME` and `__encodeRDATA` in lib/ps_util.py): a name in
    the wire format of section 3.1 of RFC 1035, a length octet before each
    label and a zero octet at the end. */
module DnsName {
  import opened Wrappers
  import opened Text

  type byte = x: int | 0 <= x < 256

  /** The byte of `.` */
  const Dot: byte := 46

  datatype EncodeError =
      /** `encodings.idna.ToASCII` accepts only 1 to 63 octets. */
    | LabelEmptyOrTooLong(length: nat)
      /** `chr(n).encode("iso8859-1")` fails for `n` above 255. */
    | LengthNotLatin1(length: nat)

  /** `encodings.idna.ToASCII(name)` on an ASCII name: the bytes unchanged,
      provided there are between 1 and 63 of them (section 4.1 of RFC 3490,
      step 8). The whole dotted name is passed, so the bound is on the whole
      name. */
  function ToAscii(name: seq<byte>): (r: Result<seq<byte>, EncodeError>)
    ensures r.Ok? <==> 0 < |name| < 64
    ensures r.Ok? ==> r.value == name
  {
    if 0 < |name| < 64 then Ok(name) else Err(LabelEmptyOrTooLong(|name|))
  }

  /** `__encodeCNAME`: the record name handed to Avahi. */
  function EncodeCname(name: seq<byte>): Result<seq<byte>, EncodeError> {
    ToAscii(name)
  }

  /** The octets a list of labels takes before the terminating zero. */
  function EncodedSize(labels: seq<seq<byte>>): nat
    decreases |labels|
  {
    if |labels| == 0 then 0 else |labels[0]| + 1 + EncodedSize(labels[1..])
  }

  function Prepend(p: seq<byte>, r: Result<seq<byte>, EncodeError>): Result<seq<byte>, EncodeError> {
    match r
    case Ok(b) => Ok(p + b)
    case Err(e) => Err(e)
  }

  lemma PrependTwice(a: seq<byte>, b: seq<byte>, r: Result<seq<byte>, EncodeError>)
    ensures Prepend(a, Prepend(b, r)) == Prepend(a + b, r)
  {
    if r.Ok? {
      assert a + (b + r.value) == (a + b) + r.value;
    }
  }

  /** The loop of `__encodeRDATA` over the labels, as a function: each label
      preceded by its length, then a zero octet; the first label whose length
      does not fit in one octet raises. */
  function EncodeLabels(labels: seq<seq<byte>>): (r: Result<seq<byte>, EncodeError>)
    ensures r.Ok? <==> forall k :: 0 <= k < |labels| ==> |labels[k]| < 256
    ensures r.Ok? ==> |r.value| == EncodedSize(labels) + 1
    ensures r.Ok? ==> r.value[|r.value| - 1] == 0
    decreases |labels|
  {
    if |labels| == 0 then Ok([0])
    else if |labels[0]| >= 256 then Err(LengthNotLatin1(|labels[0]|))
    else
      var rest := EncodeLabels(labels[1..]);
      assert forall k :: 1 <= k < |labels| ==> labels[k] == labels[1..][k - 1];
      Prepend([|labels[0]| as byte] + labels[0], rest)
  }

  /** What `__encodeRDATA(name)` returns or raises. */
  function Rdata(name: seq<byte>): Result<seq<byte>, EncodeError> {
    match ToAscii(name)
    case Err(e) => Err(e)
    case Ok(a) => EncodeLabels(Split(a, Dot))
  }

  /** `__encodeRDATA(name)`, accumulating the octets label by label. */
  method EncodeRdata(name: seq<byte>) returns (r: Result<seq<byte>, EncodeError>)
    ensures r == Rdata(name)
  {
    var ascii := ToAscii(name);
    if ascii.Err? {
      return Err(ascii.error);
    }
    var parts := Split(ascii.value, Dot);
    var ret: seq<byte> := [];
    var i := 0;
    assert parts[i..] == parts;
    assert forall x :: Prepend(ret, x) == x by {
      forall x ensures Prepend(ret, x) == x {
        if x.Ok? {
          assert ret + x.value == x.value;
        }
      }
    }
    while i < |parts|
      invariant 0 <= i <= |parts|
      invariant EncodeLabels(parts) == Prepend(ret, EncodeLabels(parts[i..]))
    {
      var part := parts[i];
      assert parts[i..][1..] == parts[i + 1..];
      if |part| >= 256 {
        return Err(LengthNotLatin1(|part|));
      }
      var head := [|part| as byte] + part;
      assert EncodeLabels(parts[i..]) == Prepend(head, EncodeLabels(parts[i + 1..]));
      PrependTwice(ret, head, EncodeLabels(parts[i + 1..]));
      ret := ret + head;
      i := i + 1;
    }
    assert parts[i..] == [];
    ret := ret + [0];
    return Ok(ret);
  }

  // ---------------------------------------------------------------------
  // Properties

  lemma {:induction false} JoinSize(parts: seq<seq<byte>>)
    requires |parts| >= 1
    ensures |Join(parts, Dot)| + 1 == EncodedSize(parts)
    decreases |parts|
  {
    if |parts| > 1 {
      JoinSize(parts[1..]);
    }
  }

  /** Every encodable name takes exactly two octets more than its text: one
      length octet per label replaces the dots, plus one in front and the
      terminating zero. */
  lemma RdataLength(name: seq<byte>)
    ensures Rdata(name).Ok? ==> |Rdata(name).value| == |name| + 2
  {
    if 0 < |name| < 64 {
      SplitParts(name, Dot);
      JoinSize(Split(name, Dot));
    }
  }

  lemma {:induction false} JoinBound(parts: seq<seq<byte>>, k: nat)
    requires |parts| >= 1 && k < |parts|
    ensures |parts[k]| <= |Join(parts, Dot)|
    decreases |parts|
  {
    if k > 0 {
      JoinBound(parts[1..], k - 1);
    }
  }

  /** The length octet can never overflow: ToASCII already refuses names of
      64 octets or more, so `__encodeRDATA` fails exactly on the names
      ToASCII refuses. */
  lemma RdataDefinedIffAscii(name: seq<byte>)
    ensures Rdata(name).Ok? <==> 0 < |name| < 64
  {
    if 0 < |name| < 64 {
      SplitParts(name, Dot);
      forall k | 0 <= k < |Split(name, Dot)| ensures |Split(name, Dot)[k]| < 256 {
        JoinBound(Split(name, Dot), k);
      }
    }
  }

  /** Reads wire-format labels back: a length octet, that many octets, and
      so on until the zero octet that must end the input. */
  function DecodeLabels(b: seq<byte>): Option<seq<seq<byte>>>
    decreases |b|
  {
    if |b| == 0 then None
    else if b[0] == 0 then (if |b| == 1 then Some([]) else None)
    else
      var n: int := b[0];
      if |b| < 1 + n then None
      else
        match DecodeLabels(b[1 + n..])
        case None => None
        case Some(rest) => Some([b[1..1 + n]] + rest)
  }

  lemma {:induction false} DecodeEncodeLabels(labels: seq<seq<byte>>)
    requires forall k :: 0 <= k < |labels| ==> 0 < |labels[k]| < 256
    ensures EncodeLabels(labels).Ok?
    ensures DecodeLabels(EncodeLabels(labels).value) == Some(labels)
    decreases |labels|
  {
    if |labels| > 0 {
      var l := labels[0];
      assert forall k :: 0 <= k < |labels[1..]| ==> labels[1..][k] == labels[k + 1];
      DecodeEncodeLabels(labels[1..]);
      var rest := EncodeLabels(labels[1..]).value;
      assert EncodeLabels(labels).value == [|l| as byte] + l + rest;
      DecodeLabel(l, rest, labels[1..]);
      assert [l] + labels[1..] == labels;
    }
  }

  /** One length-prefixed label in front of decodable labels. */
  lemma DecodeLabel(l: seq<byte>, rest: seq<byte>, ls: seq<seq<byte>>)
    requires 0 < |l| < 256 && DecodeLabels(rest) == Some(ls)
    ensures DecodeLabels([|l| as byte] + l + rest) == Some([l] + ls)
  {
    var b := [|l| as byte] + l + rest;
    assert b[1..1 + |l|] == l;
    assert b[1 + |l|..] == rest;
  }

  /** A name without empty labels (no leading, trailing or doubled dot)
      decodes back to its labels, and hence to itself. */
  lemma RdataRoundTrip(name: seq<byte>)
    requires Rdata(name).Ok?
    requires forall k :: 0 <= k < |Split(name, Dot)| ==> Split(name, Dot)[k] != []
    ensures DecodeLabels(Rdata(name).value) == Some(Split(name, Dot))
    ensures Join(Split(name, Dot), Dot) == name
  {
    RdataDefinedIffAscii(name);
    var parts := Split(name, Dot);
    forall k | 0 <= k < |parts| ensures 0 < |parts[k]| < 256 {
      SplitParts(name, Dot);
      JoinBound(parts, k);
    }
    DecodeEncodeLabels(parts);
    SplitParts(name, Dot);
  }
}
