/** Recursive length prefix encoding as the verifier computes it, a decoder written from
    Appendix B of the Ethereum Yellow Paper, and the proof that the one undoes the other. */
module Rlp {
  import opened Sequences
  import opened Types

  type Byte = n: nat | n < 0x100

  /** A nested item: a byte string, or a list of items. */
  datatype Item = Bytes(b: seq<Byte>) | List(items: seq<Item>)

  // ----- big-endian integers ------------------------------------------------------------

  function Pow256(k: nat): (p: nat)
    ensures p > 0
  {
    if k == 0 then 1 else 0x100 * Pow256(k - 1)
  }

  /** The shortest big-endian form; zero is the empty string. */
  function Minimal(n: nat): (r: seq<Byte>)
    ensures n > 0 ==> r != []
  {
    if n == 0 then [] else Minimal(n / 0x100) + [n % 0x100]
  }

  function Value(b: seq<Byte>): nat {
    if b == [] then 0 else Value(b[..|b| - 1]) * 0x100 + b[|b| - 1]
  }

  /** The form of fixed width, leading zeros included. */
  function Fixed(n: nat, width: nat): (r: seq<Byte>)
    ensures |r| == width
  {
    if width == 0 then [] else Fixed(n / 0x100, width - 1) + [n % 0x100]
  }

  lemma {:induction false} MinimalValue(n: nat)
    ensures Value(Minimal(n)) == n
    ensures n > 0 ==> Minimal(n)[0] != 0
    decreases n
  {
    if n > 0 {
      MinimalValue(n / 0x100);
      assert Minimal(n)[..|Minimal(n)| - 1] == Minimal(n / 0x100);
    }
  }

  lemma AppendDigit(v: nat, d: Byte)
    ensures (v * 0x100 + d) / 0x100 == v && (v * 0x100 + d) % 0x100 == d
  {
  }

  lemma MinimalAppends(v: nat, d: Byte)
    requires v * 0x100 + d > 0
    ensures Minimal(v * 0x100 + d) == Minimal(v) + [d]
  {
    AppendDigit(v, d);
  }

  /** A byte string without a leading zero is the minimal form of its value. */
  lemma {:induction false} ValueMinimal(b: seq<Byte>)
    requires b != [] ==> b[0] != 0
    ensures Minimal(Value(b)) == b
    ensures b != [] ==> Value(b) > 0
  {
    if b != [] {
      var front, last := b[..|b| - 1], b[|b| - 1];
      if front != [] {
        assert front[0] == b[0];
      }
      ValueMinimal(front);
      MinimalAppends(Value(front), last);
      FrontAndLast(b);
    }
  }

  lemma {:induction false} MinimalLength(n: nat, k: nat)
    requires n < Pow256(k)
    ensures |Minimal(n)| <= k
    decreases k
  {
    if n > 0 {
      MinimalLength(n / 0x100, k - 1);
    }
  }

  lemma {:induction false} FixedValue(n: nat, width: nat)
    requires n < Pow256(width)
    ensures Value(Fixed(n, width)) == n
    decreases width
  {
    if width > 0 {
      FixedValue(n / 0x100, width - 1);
      assert Fixed(n, width)[..width - 1] == Fixed(n / 0x100, width - 1);
    }
  }

  lemma {:induction false} LeadingZero(b: seq<Byte>)
    requires b != [] && b[0] == 0
    ensures Value(b[1..]) == Value(b)
  {
    if |b| > 1 {
      LeadingZero(b[..|b| - 1]);
      assert b[1..][..|b| - 2] == b[..|b| - 1][1..];
    }
  }

  /** Drop leading zero bytes, keeping the last byte whatever it is. */
  method StripZeros(bytes: seq<Byte>) returns (r: seq<Byte>)
    requires bytes != [] && Value(bytes) > 0
    ensures r == Minimal(Value(bytes))
  {
    var start := 0;
    while bytes[start] == 0
      invariant 0 <= start < |bytes| && Value(bytes[start..]) == Value(bytes)
      decreases |bytes| - start
    {
      assert bytes[start..][0] == 0 && bytes[start..][1..] == bytes[start + 1..];
      LeadingZero(bytes[start..]);
      start := start + 1;
    }
    ValueMinimal(bytes[start..]);
    r := bytes[start..];
  }

  // ----- encoding --------------------------------------------------------------------------

  const STRING_OFFSET: Byte := 0x80
  const LIST_OFFSET: Byte := 0xc0

  /** The size of a length prefix. */
  function PrefixSize(len: nat): nat {
    if len < 56 then 1 else 1 + |Minimal(len)|
  }

  /** A length that a machine word can hold. */
  predicate WordSized(len: nat) {
    len < 0x1_0000_0000_0000_0000
  }

  lemma WordSizedLength(len: nat)
    requires WordSized(len)
    ensures |Minimal(len)| <= 8
  {
    assert Pow256(8) == 0x100 * Pow256(7) == 0x100 * (0x100 * Pow256(6));
    assert Pow256(6) == 0x100 * (0x100 * (0x100 * (0x100 * (0x100 * (0x100 * Pow256(0))))));
    MinimalLength(len, 8);
  }

  function EncodeLength(len: nat, list: bool): (r: seq<Byte>)
    requires WordSized(len)
    ensures |r| == PrefixSize(len)
  {
    var offset := if list then LIST_OFFSET else STRING_OFFSET;
    if len < 56 then [offset + len]
    else
      WordSizedLength(len);
      [offset + 55 + |Minimal(len)|] + Minimal(len)
  }

  function EncodeBytes(b: seq<Byte>): seq<Byte>
    requires WordSized(|b|)
  {
    if |b| == 1 && b[0] < 0x80 then b else EncodeLength(|b|, false) + b
  }

  function BytesSize(b: seq<Byte>): nat {
    if |b| == 1 && b[0] < 0x80 then 1 else PrefixSize(|b|) + |b|
  }

  function Size(x: Item): nat
    decreases x, 1
  {
    match x
    case Bytes(b) => BytesSize(b)
    case List(items) => PrefixSize(PayloadSize(items)) + PayloadSize(items)
  }

  function PayloadSize(xs: seq<Item>): nat
    decreases xs, 0
  {
    if xs == [] then 0 else Size(xs[0]) + PayloadSize(xs[1..])
  }

  /** Every payload in the item fits a machine word. */
  predicate Sized(x: Item)
    decreases x, 1
  {
    match x
    case Bytes(b) => WordSized(|b|)
    case List(items) => WordSized(PayloadSize(items)) && AllSized(items)
  }

  predicate AllSized(xs: seq<Item>)
    decreases xs, 0
  {
    xs == [] || (Sized(xs[0]) && AllSized(xs[1..]))
  }

  function Encode(x: Item): (r: seq<Byte>)
    requires Sized(x)
    ensures |r| == Size(x)
    decreases x, 1
  {
    match x
    case Bytes(b) => EncodeBytes(b)
    case List(items) => EncodeLength(PayloadSize(items), true) + EncodeAll(items)
  }

  function EncodeAll(xs: seq<Item>): (r: seq<Byte>)
    requires AllSized(xs)
    ensures |r| == PayloadSize(xs)
    decreases xs, 0
  {
    if xs == [] then [] else Encode(xs[0]) + EncodeAll(xs[1..])
  }

  // ----- decoding ---------------------------------------------------------------------------

  /** A length prefix: of a list or a string, its own size, and the length it announces. */
  datatype Prefix = Prefix(list: bool, size: nat, len: nat)

  /** Read the prefix of an item that is not a single byte below 0x80. */
  function ReadPrefix(bs: seq<Byte>): Option<Prefix>
    requires bs != []
  {
    var first := bs[0];
    if first < 0x80 then None
    else if first < 0xb8 then Some(Prefix(false, 1, first - 0x80))
    else if first < 0xc0 then ReadLongPrefix(bs, false, first - 0xb7)
    else if first < 0xf8 then Some(Prefix(true, 1, first - 0xc0))
    else ReadLongPrefix(bs, true, first - 0xf7)
  }

  /** A length is written long only when it is too large to be written short, and without a leading
      zero. */
  function ReadLongPrefix(bs: seq<Byte>, list: bool, width: nat): Option<Prefix>
    requires bs != [] && width > 0
  {
    if |bs| < 1 + width || bs[1] == 0 then None
    else
      var len := Value(bs[1..1 + width]);
      if len < 56 then None else Some(Prefix(list, 1 + width, len))
  }

  /** A single byte below 0x80 stands for itself, and may not be written with a prefix. */
  predicate NeedsNoPrefix(b: seq<Byte>) {
    |b| == 1 && b[0] < 0x80
  }

  /** The first item of a byte string, and what follows it; only canonical forms are read. */
  function Decode(bs: seq<Byte>): (r: Option<(Item, seq<Byte>)>)
    ensures r.Some? ==> |r.value.1| < |bs|
    decreases |bs|, 0
  {
    if bs == [] then None
    else if bs[0] < 0x80 then Some((Bytes([bs[0]]), bs[1..]))
    else
      var p := ReadPrefix(bs);
      if p.None? || |bs| < p.value.size + p.value.len then None
      else
        var payload := bs[p.value.size..p.value.size + p.value.len];
        var rest := bs[p.value.size + p.value.len..];
        if !p.value.list then if NeedsNoPrefix(payload) then None else Some((Bytes(payload), rest))
        else
          var items := DecodeAll(payload);
          if items.None? then None else Some((List(items.value), rest))
  }

  function DecodeAll(bs: seq<Byte>): Option<seq<Item>>
    decreases |bs|, 1
  {
    if bs == [] then Some([])
    else
      var first := Decode(bs);
      if first.None? then None
      else
        var others := DecodeAll(first.value.1);
        if others.None? then None else Some([first.value.0] + others.value)
  }

  /** A decoder reads back the prefix an encoder wrote, whatever follows. */
  lemma PrefixRoundTrip(len: nat, list: bool, tail: seq<Byte>)
    requires WordSized(len)
    ensures ReadPrefix(EncodeLength(len, list) + tail) == Some(Prefix(list, PrefixSize(len), len))
    ensures EncodeLength(len, list)[0] >= 0x80
  {
    if len >= 56 {
      WordSizedLength(len);
      MinimalValue(len);
      var bs := EncodeLength(len, list) + tail;
      var width := |Minimal(len)|;
      assert bs[1..1 + width] == Minimal(len);
      assert bs[1] == Minimal(len)[0];
    }
  }

  lemma SplitAt(prefix: seq<Byte>, payload: seq<Byte>, rest: seq<Byte>)
    ensures var bs := prefix + payload + rest;
      && |bs| >= |prefix| + |payload|
      && bs[|prefix|..|prefix| + |payload|] == payload
      && bs[|prefix| + |payload|..] == rest
  {
  }

  /** What follows a prefix is read as the payload it announces, then the rest. */
  lemma DecodePrefixed(payload: seq<Byte>, list: bool, rest: seq<Byte>)
    requires WordSized(|payload|)
    ensures Decode(EncodeLength(|payload|, list) + payload + rest) ==
      if !list then if NeedsNoPrefix(payload) then None else Some((Bytes(payload), rest))
      else if DecodeAll(payload).None? then None
      else Some((List(DecodeAll(payload).value), rest))
  {
    var prefix := EncodeLength(|payload|, list);
    var bs := prefix + payload + rest;
    assert bs == prefix + (payload + rest);
    PrefixRoundTrip(|payload|, list, payload + rest);
    SplitAt(prefix, payload, rest);
  }

  /** Decoding undoes encoding, for every nested item and whatever follows it. */
  lemma {:induction false} DecodeEncode(x: Item, rest: seq<Byte>)
    requires Sized(x)
    ensures Decode(Encode(x) + rest) == Some((x, rest))
    decreases x, 1
  {
    match x
    case Bytes(b) =>
      if |b| == 1 && b[0] < 0x80 {
        assert (b + rest)[1..] == rest && b == [b[0]];
      } else {
        DecodePrefixed(b, false, rest);
      }
    case List(items) =>
      DecodeEncodeAll(items);
      DecodePrefixed(EncodeAll(items), true, rest);
  }

  lemma {:induction false} DecodeEncodeAll(xs: seq<Item>)
    requires AllSized(xs)
    ensures DecodeAll(EncodeAll(xs)) == Some(xs)
    decreases xs, 0
  {
    if xs != [] {
      DecodeEncode(xs[0], EncodeAll(xs[1..]));
      DecodeEncodeAll(xs[1..]);
      assert xs == [xs[0]] + xs[1..];
    }
  }

  /** A prefix that is read is the one an encoder writes for the length it announces. */
  lemma PrefixIsCanonical(bs: seq<Byte>)
    requires bs != [] && bs[0] >= 0x80 && ReadPrefix(bs).Some?
    ensures var p := ReadPrefix(bs).value;
      WordSized(p.len) && p.size <= |bs| && bs[..p.size] == EncodeLength(p.len, p.list)
  {
    var p := ReadPrefix(bs).value;
    if p.size > 1 {
      var digits := bs[1..p.size];
      assert digits[0] == bs[1];
      ValueMinimal(digits);
      ValueBound(digits);
      WordOf(digits);
      assert bs[..p.size] == [bs[0]] + digits;
    } else {
      assert bs[..1] == [bs[0]];
    }
  }

  lemma {:induction false} ValueBound(b: seq<Byte>)
    ensures Value(b) < Pow256(|b|)
  {
    if b != [] {
      ValueBound(b[..|b| - 1]);
    }
  }

  lemma {:induction false} PowRises(j: nat, k: nat)
    requires j <= k
    ensures Pow256(j) <= Pow256(k)
  {
    if j < k {
      PowRises(j, k - 1);
    }
  }

  lemma WordOf(digits: seq<Byte>)
    requires |digits| <= 8
    ensures WordSized(Value(digits))
  {
    ValueBound(digits);
    PowRises(|digits|, 8);
    assert Pow256(8) == 0x100 * Pow256(7) == 0x100 * (0x100 * Pow256(6));
    assert Pow256(6) == 0x100 * (0x100 * (0x100 * (0x100 * (0x100 * (0x100 * Pow256(0))))));
  }

  /** The decoder reads nothing but encodings: what it takes off the front is the encoding of what it
      answers. */
  lemma {:induction false} EncodeDecode(bs: seq<Byte>)
    requires Decode(bs).Some?
    ensures var (x, rest) := Decode(bs).value; Sized(x) && bs == Encode(x) + rest
    decreases |bs|, 0
  {
    if bs[0] < 0x80 {
      assert bs == [bs[0]] + bs[1..];
    } else {
      PrefixIsCanonical(bs);
      var p := ReadPrefix(bs).value;
      var payload, rest := bs[p.size..p.size + p.len], bs[p.size + p.len..];
      assert bs == bs[..p.size] + payload + rest;
      if p.list {
        EncodeDecodeAll(payload);
      }
    }
  }

  lemma {:induction false} EncodeDecodeAll(bs: seq<Byte>)
    requires DecodeAll(bs).Some?
    ensures AllSized(DecodeAll(bs).value) && EncodeAll(DecodeAll(bs).value) == bs
    decreases |bs|, 1
  {
    if bs != [] {
      var (x, rest) := Decode(bs).value;
      EncodeDecode(bs);
      EncodeDecodeAll(rest);
      var xs := DecodeAll(bs).value;
      assert xs[0] == x && xs[1..] == DecodeAll(rest).value;
    }
  }

  /** So no encoding is a prefix of another, and equal encodings are of equal items. */
  lemma EncodingIsPrefixFree(x: Item, y: Item, r: seq<Byte>, s: seq<Byte>)
    requires Sized(x) && Sized(y) && Encode(x) + r == Encode(y) + s
    ensures x == y && r == s
  {
    DecodeEncode(x, r);
    DecodeEncode(y, s);
  }

  /** The forms the standard gives: a string of up to 55 bytes behind 0x80 and its length, a longer one
      behind 0xb7 and the size of its length; a list behind 0xc0 or 0xf7. */
  lemma StandardForms(b: seq<Byte>, xs: seq<Item>)
    requires WordSized(|b|) && AllSized(xs) && WordSized(PayloadSize(xs))
    ensures |b| == 1 && b[0] <= 0x7f ==> Encode(Bytes(b)) == b
    ensures |b| <= 55 && !(|b| == 1 && b[0] <= 0x7f) ==> Encode(Bytes(b)) == [0x80 + |b|] + b
    ensures |b| > 55 ==> |Minimal(|b|)| <= 8 && Encode(Bytes(b)) == [0xb7 + |Minimal(|b|)|] + Minimal(|b|) + b
    ensures PayloadSize(xs) <= 55 ==> Encode(List(xs)) == [0xc0 + PayloadSize(xs)] + EncodeAll(xs)
    ensures PayloadSize(xs) > 55 ==>
      var size := Minimal(PayloadSize(xs)); |size| <= 8 && Encode(List(xs)) == [0xf7 + |size|] + size + EncodeAll(xs)
  {
    WordSizedLength(|b|);
    WordSizedLength(PayloadSize(xs));
  }

  // ----- header fields ----------------------------------------------------------------------

  /** A field of a header or transaction: bytes, an unsigned 128-bit integer, or a list already
      encoded. */
  datatype Field = FieldBytes(b: seq<Byte>) | FieldUint(n: nat) | RawList(raw: seq<Byte>)

  /** Integers fit sixteen bytes, byte strings a machine word, and a raw list reads as one list. */
  ghost predicate FieldOk(f: Field) {
    match f
    case FieldBytes(b) => WordSized(|b|)
    case FieldUint(n) => n < Pow256(16)
    case RawList(raw) => Decode(raw).Some? && Decode(raw).value.0.List? && Decode(raw).value.1 == []
  }

  ghost predicate FieldsOk(fields: seq<Field>) {
    forall i :: 0 <= i < |fields| ==> FieldOk(fields[i])
  }

  /** The item a field stands for; an integer is its shortest big-endian form. */
  ghost function ItemOf(f: Field): (x: Item)
    requires FieldOk(f)
    ensures Sized(x)
  {
    match f
    case FieldBytes(b) => Bytes(b)
    case FieldUint(n) => MinimalLength(n, 16); Bytes(Minimal(n))
    case RawList(raw) => EncodeDecode(raw); Decode(raw).value.0
  }

  ghost function ItemsOf(fields: seq<Field>): (r: seq<Item>)
    requires FieldsOk(fields)
    ensures |r| == |fields| && forall i :: 0 <= i < |r| ==> r[i] == ItemOf(fields[i])
  {
    seq(|fields|, i requires 0 <= i < |fields| => ItemOf(fields[i]))
  }

  lemma {:induction false} AllSizedItems(xs: seq<Item>)
    requires forall i :: 0 <= i < |xs| ==> Sized(xs[i])
    ensures AllSized(xs)
  {
    if xs != [] {
      AllSizedItems(xs[1..]);
    }
  }

  lemma {:induction false} EncodeAllAppend(xs: seq<Item>, x: Item)
    requires AllSized(xs) && Sized(x)
    ensures AllSized(xs + [x]) && EncodeAll(xs + [x]) == EncodeAll(xs) + Encode(x)
  {
    if xs == [] {
      assert xs + [x] == [x] && [x][1..] == [];
    } else {
      EncodeAllAppend(xs[1..], x);
      assert (xs + [x])[1..] == xs[1..] + [x] && (xs + [x])[0] == xs[0];
    }
  }

  /** Encode an integer: strip the sixteen big-endian bytes of their leading zeros. */
  method EncodeUint(n: nat) returns (r: seq<Byte>)
    requires n < Pow256(16)
    ensures WordSized(|Minimal(n)|) && r == EncodeBytes(Minimal(n))
  {
    MinimalLength(n, 16);
    if n == 0 {
      return [0x80];
    }
    FixedValue(n, 16);
    var stripped := StripZeros(Fixed(n, 16));
    r := EncodeBytes(stripped);
  }

  method EncodeField(f: Field) returns (r: seq<Byte>)
    requires FieldOk(f)
    ensures r == Encode(ItemOf(f))
  {
    match f
    case FieldBytes(b) => r := EncodeBytes(b);
    case FieldUint(n) => r := EncodeUint(n);
    case RawList(raw) =>
      EncodeDecode(raw);
      r := raw;
  }

  /** Concatenate encoded items behind one list prefix. */
  method EncodeRlpItems(encoded: seq<seq<Byte>>, ghost xs: seq<Item>) returns (r: seq<Byte>)
    requires |encoded| == |xs| && AllSized(xs) && WordSized(PayloadSize(xs))
    requires forall i :: 0 <= i < |xs| ==> Sized(xs[i]) && encoded[i] == Encode(xs[i])
    ensures r == Encode(List(xs))
  {
    var payload: seq<Byte> := [];
    for i := 0 to |encoded|
      invariant AllSized(xs[..i]) && payload == EncodeAll(xs[..i])
    {
      EncodeAllAppend(xs[..i], xs[i]);
      assert xs[..i + 1] == xs[..i] + [xs[i]];
      payload := payload + encoded[i];
    }
    assert xs[..|xs|] == xs;
    r := EncodeLength(|payload|, true) + payload;
  }

  /** Encode a list of fields: each item, then all of them behind one list prefix. */
  method RlpEncodeList(fields: seq<Field>) returns (r: seq<Byte>)
    requires FieldsOk(fields) && WordSized(PayloadSize(ItemsOf(fields)))
    ensures Sized(List(ItemsOf(fields))) && r == Encode(List(ItemsOf(fields)))
  {
    ghost var xs := ItemsOf(fields);
    AllSizedItems(xs);
    var encoded: seq<seq<Byte>> := [];
    for i := 0 to |fields|
      invariant |encoded| == i && forall k :: 0 <= k < i ==> encoded[k] == Encode(xs[k])
    {
      var item := EncodeField(fields[i]);
      encoded := encoded + [item];
    }
    r := EncodeRlpItems(encoded, xs);
  }

  /** Equal list encodings, as a hash commits to them, have equal field lists: the same number of
      fields, standing for the same items; integers among them are equal as integers. */
  lemma EqualListsHaveEqualFields(f: seq<Field>, g: seq<Field>)
    requires FieldsOk(f) && FieldsOk(g)
    requires Sized(List(ItemsOf(f))) && Sized(List(ItemsOf(g)))
    requires Encode(List(ItemsOf(f))) == Encode(List(ItemsOf(g)))
    ensures ItemsOf(f) == ItemsOf(g) && |f| == |g|
    ensures forall i :: 0 <= i < |f| && f[i].FieldUint? && g[i].FieldUint? ==> f[i].n == g[i].n
  {
    EncodingIsPrefixFree(List(ItemsOf(f)), List(ItemsOf(g)), [], []);
    forall i | 0 <= i < |f| && f[i].FieldUint? && g[i].FieldUint?
      ensures f[i].n == g[i].n
    {
      assert ItemsOf(f)[i] == ItemsOf(g)[i];
      MinimalValue(f[i].n);
      MinimalValue(g[i].n);
    }
  }

  /** An integer field reads back as itself, from a string with no leading zero. */
  lemma UintRoundTrip(n: nat, rest: seq<Byte>)
    requires n < Pow256(16)
    ensures WordSized(|Minimal(n)|)
    ensures Decode(EncodeBytes(Minimal(n)) + rest) == Some((Bytes(Minimal(n)), rest))
    ensures Value(Minimal(n)) == n && (n > 0 ==> Minimal(n)[0] != 0)
  {
    MinimalLength(n, 16);
    MinimalValue(n);
    DecodeEncode(Bytes(Minimal(n)), rest);
  }
}
