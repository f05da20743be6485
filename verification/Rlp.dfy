/** Serialisation of the unsigned EIP-1559 transaction (crypto.cpp), and a decoder that undoes it
    (Ethereum Yellow Paper, appendix B). */
module Rlp {
  import opened Wrappers
  import opened BigEndian

  // What every length in a size_t satisfies.
  const MAX_LENGTH: nat := 0x1_0000_0000_0000_0000

  lemma LengthBytes(len: nat)
    requires 0 < len < MAX_LENGTH
    ensures 1 <= |Minimal(len)| <= 8
  {
    assert Pow256(2) == 0x1_0000;
    assert Pow256(4) == 0x1_0000_0000;
    assert Pow256(6) == 0x1_0000_0000_0000;
    assert Pow256(8) == MAX_LENGTH;
    MinimalLength(len, 8);
  }

  /** The header of a payload: one byte when it is short, else a length of the length and the length. */
  function Header(len: nat, offset: nat): Bytes
    requires len < MAX_LENGTH && offset <= 0xC0
  {
    if len < 56 then [offset + len]
    else
      LengthBytes(len);
      [offset + 55 + |Minimal(len)|] + Minimal(len)
  }

  function Item(b: Bytes): Bytes
    requires |b| < MAX_LENGTH
  {
    if |b| == 1 && b[0] < 0x80 then b else Header(|b|, 0x80) + b
  }

  function List(payload: Bytes): Bytes
    requires |payload| < MAX_LENGTH
  {
    Header(|payload|, 0xC0) + payload
  }

  // The loops that build these bytes.

  method BuildMinimal(value: nat) returns (be: Bytes)
    ensures be == Minimal(value)
  {
    be := [];
    var v := value;
    while v != 0
      invariant Minimal(v) + be == Minimal(value)
      decreases v
    {
      assert Minimal(v / 256) + ([v % 256] + be) == Minimal(v) + be;
      be := [v % 256] + be;
      v := v / 256;
    }
  }

  class Output {
    var bytes: Bytes

    constructor ()
      ensures bytes == []
    {
      bytes := [];
    }
  }

  method AppendHeader(len: nat, offset: nat, out: Output)
    requires len < MAX_LENGTH && offset <= 0xC0
    modifies out
    ensures out.bytes == old(out.bytes) + Header(len, offset)
  {
    if len < 56 {
      out.bytes := out.bytes + [offset + len];
      return;
    }
    var be := BuildMinimal(len);
    LengthBytes(len);
    out.bytes := out.bytes + [offset + 55 + |be|];
    out.bytes := out.bytes + be;
  }

  method AppendItem(b: Bytes, out: Output)
    requires |b| < MAX_LENGTH
    modifies out
    ensures out.bytes == old(out.bytes) + Item(b)
  {
    if |b| == 1 && b[0] < 0x80 {
      out.bytes := out.bytes + [b[0]];
      return;
    }
    AppendHeader(|b|, 0x80, out);
    out.bytes := out.bytes + b;
  }

  /** A transaction; recipient and data as the bytes that their hexadecimal texts stand for. */
  datatype Tx = Tx(chainId: nat, nonce: nat, maxPriorityFee: nat, maxFee: nat, gas: nat, to: Bytes, value: nat,
                   data: Bytes)

  /** The integer widths, and a payload that fits in memory. */
  predicate InRange(tx: Tx) {
    && tx.chainId < Pow256(8) && tx.nonce < Pow256(8)
    && tx.maxPriorityFee < Pow256(16) && tx.maxFee < Pow256(16) && tx.gas < Pow256(16) && tx.value < Pow256(16)
    && |tx.to| < MAX_LENGTH && |tx.data| < 0x1_0000_0000_0000
  }

  ghost predicate Fit(list: seq<Bytes>) {
    forall k :: 0 <= k < |list| ==> |list[k]| < MAX_LENGTH
  }

  /** The items of a list, one after the other. */
  function Items(list: seq<Bytes>): Bytes
    requires Fit(list)
  {
    if list == [] then []
    else
      var n := |list| - 1;
      Items(list[..n]) + Item(list[n])
  }

  /** The five integers that come first. */
  function Integers(tx: Tx): (list: seq<Bytes>)
    ensures |list| == 5
  {
    [Minimal(tx.chainId), Minimal(tx.nonce), Minimal(tx.maxPriorityFee), Minimal(tx.maxFee), Minimal(tx.gas)]
  }

  /** The byte strings that a transaction is made of, integers without leading zeros. */
  function Parts(tx: Tx): (list: seq<Bytes>)
    requires InRange(tx)
    ensures |list| == 8 && Fit(list)
  {
    IntegersFit(tx);
    Integers(tx) + [tx.to, Minimal(tx.value), tx.data]
  }

  lemma IntegersFit(tx: Tx)
    requires InRange(tx)
    ensures |Minimal(tx.chainId)| <= 8 && |Minimal(tx.nonce)| <= 8 && |Minimal(tx.maxPriorityFee)| <= 16
    ensures |Minimal(tx.maxFee)| <= 16 && |Minimal(tx.gas)| <= 16 && |Minimal(tx.value)| <= 16
  {
    MinimalLength(tx.chainId, 8);
    MinimalLength(tx.nonce, 8);
    MinimalLength(tx.maxPriorityFee, 16);
    MinimalLength(tx.maxFee, 16);
    MinimalLength(tx.gas, 16);
    MinimalLength(tx.value, 16);
  }

  /** The items and an empty access list. */
  function Fields(tx: Tx): Bytes
    requires InRange(tx)
  {
    Items(Parts(tx)) + [0xC0]
  }

  lemma ItemLength(b: Bytes)
    requires |b| < MAX_LENGTH
    ensures 1 <= |Item(b)| <= |b| + 9
  {
    if |b| >= 56 {
      LengthBytes(|b|);
    }
  }

  function TotalLength(list: seq<Bytes>): nat {
    if list == [] then 0 else TotalLength(list[..|list| - 1]) + |list[|list| - 1]|
  }

  lemma {:induction false} ItemsLength(list: seq<Bytes>)
    requires Fit(list)
    ensures |Items(list)| <= TotalLength(list) + 9 * |list|
  {
    if list != [] {
      var n := |list| - 1;
      ItemsLength(list[..n]);
      ItemLength(list[n]);
    }
  }

  lemma LengthStep(list: seq<Bytes>, k: nat)
    requires k < |list|
    ensures TotalLength(list[..k + 1]) == TotalLength(list[..k]) + |list[k]|
  {
    assert list[..k + 1][..k] == list[..k];
  }

  /** The payload's own length stays in range for a recipient of twenty bytes. */
  lemma FieldsLength(tx: Tx)
    requires InRange(tx) && |tx.to| == 20
    ensures |Fields(tx)| < MAX_LENGTH
  {
    var list := Parts(tx);
    IntegersFit(tx);
    assert list[..0] == [] && list[..8] == list;
    LengthStep(list, 0);
    LengthStep(list, 1);
    LengthStep(list, 2);
    LengthStep(list, 3);
    LengthStep(list, 4);
    LengthStep(list, 5);
    LengthStep(list, 6);
    LengthStep(list, 7);
    ItemsLength(list);
  }

  /** 0x02 and the list of the fields. */
  function Envelope(payload: Bytes): Bytes
    requires |payload| < MAX_LENGTH
  {
    [0x02] + List(payload)
  }

  /** A recipient that is not twenty bytes long is refused. */
  function Unsigned(tx: Tx): (r: Option<Bytes>)
    requires InRange(tx)
    ensures r.Some? <==> |tx.to| == 20
  {
    if |tx.to| != 20 then None
    else
      FieldsLength(tx);
      Some(Envelope(Fields(tx)))
  }

  lemma ItemsSnoc(list: seq<Bytes>, b: Bytes)
    requires Fit(list) && |b| < MAX_LENGTH
    ensures Fit(list + [b]) && Items(list + [b]) == Items(list) + Item(b)
  {
    assert (list + [b])[..|list|] == list;
  }

  /** Appends one part after those in `list`. */
  method AppendPart(f: Output, ghost list: seq<Bytes>, b: Bytes) returns (ghost more: seq<Bytes>)
    requires Fit(list) && |b| < MAX_LENGTH && f.bytes == Items(list)
    modifies f
    ensures more == list + [b] && Fit(more) && f.bytes == Items(more)
  {
    AppendItem(b, f);
    ItemsSnoc(list, b);
    more := list + [b];
  }

  method AppendInteger(f: Output, ghost list: seq<Bytes>, v: nat) returns (ghost more: seq<Bytes>)
    requires Fit(list) && v < Pow256(16) && f.bytes == Items(list)
    modifies f
    ensures more == list + [Minimal(v)] && Fit(more) && f.bytes == Items(more)
  {
    var be := BuildMinimal(v);
    MinimalLength(v, 16);
    more := AppendPart(f, list, be);
  }

  lemma FiveParts(a: Bytes, b: Bytes, c: Bytes, d: Bytes, e: Bytes)
    ensures [] + [a] + [b] + [c] + [d] + [e] == [a, b, c, d, e]
  {
  }

  lemma ThreeParts(list: seq<Bytes>, a: Bytes, b: Bytes, c: Bytes)
    ensures list + [a] + [b] + [c] == list + [a, b, c]
  {
  }

  method AppendIntegers(tx: Tx, f: Output)
    requires InRange(tx) && f.bytes == []
    modifies f
    ensures Fit(Integers(tx)) && f.bytes == Items(Integers(tx))
  {
    Pow256Grows(8, 16);
    ghost var list := [];
    list := AppendInteger(f, list, tx.chainId);
    list := AppendInteger(f, list, tx.nonce);
    list := AppendInteger(f, list, tx.maxPriorityFee);
    list := AppendInteger(f, list, tx.maxFee);
    list := AppendInteger(f, list, tx.gas);
    FiveParts(Minimal(tx.chainId), Minimal(tx.nonce), Minimal(tx.maxPriorityFee), Minimal(tx.maxFee),
              Minimal(tx.gas));
  }

  /** The fields in their order, each appended to the payload. */
  method BuildFields(tx: Tx) returns (bytes: Bytes)
    requires InRange(tx)
    ensures bytes == Fields(tx)
  {
    var f := new Output();
    AppendIntegers(tx, f);
    ghost var list := Integers(tx);
    list := AppendPart(f, list, tx.to);
    list := AppendInteger(f, list, tx.value);
    list := AppendPart(f, list, tx.data);
    ThreeParts(Integers(tx), tx.to, Minimal(tx.value), tx.data);
    bytes := f.bytes + [0xC0];
  }

  method BuildUnsigned(tx: Tx) returns (r: Option<Bytes>)
    requires InRange(tx)
    ensures r == Unsigned(tx)
  {
    if |tx.to| != 20 {
      return None;
    }
    var payload := BuildFields(tx);
    FieldsLength(tx);
    r := BuildEnvelope(payload);
  }

  method BuildEnvelope(payload: Bytes) returns (r: Option<Bytes>)
    requires |payload| < MAX_LENGTH
    ensures r == Some(Envelope(payload))
  {
    var out := new Output();
    out.bytes := [0x02];
    AppendHeader(|payload|, 0xC0, out);
    out.bytes := out.bytes + payload;
    assert out.bytes == Envelope(payload);
    r := Some(out.bytes);
  }

  // The decoder.

  datatype Read<T> = Read(value: T, rest: Bytes) | Malformed

  /** The payload length that a header announces, and what follows the header. A length that fits a shorter header, or
      starts with a zero byte, is malformed. */
  function ReadHeader(s: Bytes, offset: nat): (r: Read<nat>)
    requires offset <= 0xC0
    ensures r.Read? ==> |r.rest| < |s|
  {
    if s == [] || s[0] < offset || s[0] >= offset + 64 then Malformed
    else if s[0] < offset + 56 then Read(s[0] - offset, s[1..])
    else
      var size := s[0] - offset - 55;
      if |s| < 1 + size || s[1] == 0 || Number(s[1..1 + size]) < 56 then Malformed
      else Read(Number(s[1..1 + size]), s[1 + size..])
  }

  function ReadPayload(s: Bytes, offset: nat): (r: Read<Bytes>)
    requires offset <= 0xC0
    ensures r.Read? ==> |r.rest| < |s|
  {
    var header := ReadHeader(s, offset);
    if header.Malformed? || |header.rest| < header.value then Malformed
    else Read(header.rest[..header.value], header.rest[header.value..])
  }

  /** A byte below 0x80 stands for itself, and must not have a header. */
  function ReadItem(s: Bytes): (r: Read<Bytes>)
    ensures r.Read? ==> |r.rest| < |s|
  {
    if s != [] && s[0] < 0x80 then Read(s[..1], s[1..])
    else
      var payload := ReadPayload(s, 0x80);
      if payload.Read? && |payload.value| == 1 && payload.value[0] < 0x80 then Malformed else payload
  }

  lemma HeaderReads(len: nat, offset: nat, rest: Bytes)
    requires len < MAX_LENGTH && offset <= 0xC0
    ensures ReadHeader(Header(len, offset) + rest, offset) == Read(len, rest)
  {
    var s := Header(len, offset) + rest;
    if len < 56 {
      assert s[1..] == rest;
    } else {
      LengthBytes(len);
      var be := Minimal(len);
      assert s[1..1 + |be|] == be && s[1 + |be|..] == rest;
      MinimalIsMinimal(len);
      MinimalValue(len);
    }
  }

  lemma PayloadReads(b: Bytes, offset: nat, rest: Bytes)
    requires |b| < MAX_LENGTH && offset <= 0xC0
    ensures ReadPayload(Header(|b|, offset) + b + rest, offset) == Read(b, rest)
  {
    HeaderReads(|b|, offset, b + rest);
    assert Header(|b|, offset) + b + rest == Header(|b|, offset) + (b + rest);
    assert (b + rest)[..|b|] == b && (b + rest)[|b|..] == rest;
  }

  /** An item is read back whatever follows it. */
  lemma ItemReads(b: Bytes, rest: Bytes)
    requires |b| < MAX_LENGTH
    ensures ReadItem(Item(b) + rest) == Read(b, rest)
  {
    var s := Item(b) + rest;
    if |b| == 1 && b[0] < 0x80 {
      assert s[..1] == b && s[1..] == rest;
    } else {
      PayloadReads(b, 0x80, rest);
      assert s[0] == Header(|b|, 0x80)[0] >= 0x80;
    }
  }

  /** An item is no prefix of another: reading stops at the same place. */
  lemma ItemsArePrefixFree(a: Bytes, b: Bytes, one: Bytes, two: Bytes)
    requires |a| < MAX_LENGTH && |b| < MAX_LENGTH && Item(a) + one == Item(b) + two
    ensures a == b && one == two
  {
    ItemReads(a, one);
    ItemReads(b, two);
  }

  /** Items up to the end of the bytes. */
  function ReadItems(s: Bytes, read: seq<Bytes>): Option<seq<Bytes>>
    decreases |s|
  {
    if s == [] then Some(read)
    else
      var item := ReadItem(s);
      if item.Malformed? then None else ReadItems(item.rest, read + [item.value])
  }

  /** The bytes of a list, first item first. */
  function Laid(list: seq<Bytes>): Bytes
    requires Fit(list)
  {
    if list == [] then [] else Item(list[0]) + Laid(list[1..])
  }

  lemma {:induction false} LaidSnoc(list: seq<Bytes>, b: Bytes)
    requires Fit(list) && |b| < MAX_LENGTH
    ensures Laid(list + [b]) == Laid(list) + Item(b)
  {
    if list != [] {
      LaidSnoc(list[1..], b);
      assert (list + [b])[1..] == list[1..] + [b];
    } else {
      assert ([] + [b])[1..] == [];
    }
  }

  lemma {:induction false} ItemsAreLaid(list: seq<Bytes>)
    requires Fit(list)
    ensures Items(list) == Laid(list)
  {
    if list != [] {
      var n := |list| - 1;
      ItemsAreLaid(list[..n]);
      LaidSnoc(list[..n], list[n]);
      assert list == list[..n] + [list[n]];
    }
  }

  lemma ReadsOne(b: Bytes, rest: Bytes, read: seq<Bytes>)
    requires |b| < MAX_LENGTH
    ensures ReadItems(Item(b) + rest, read) == ReadItems(rest, read + [b])
  {
    ItemReads(b, rest);
    ItemLength(b);
  }

  lemma {:induction false} LaidRead(list: seq<Bytes>, read: seq<Bytes>)
    requires Fit(list)
    ensures ReadItems(Laid(list), read) == Some(read + list)
  {
    if list == [] {
      assert read + list == read;
    } else {
      var first, rest := list[0], list[1..];
      var more := read + [first];
      assert more + rest == read + list;
      ReadsOne(first, Laid(rest), read);
      LaidRead(rest, more);
    }
  }

  /** Every list of items is recovered from its bytes. */
  lemma ItemsRead(list: seq<Bytes>)
    requires Fit(list)
    ensures ReadItems(Items(list), []) == Some(list)
  {
    ItemsAreLaid(list);
    LaidRead(list, []);
    assert [] + list == list;
  }

  /** Lists of items are the same when their bytes are. */
  lemma ItemsDetermine(one: seq<Bytes>, two: seq<Bytes>)
    requires Fit(one) && Fit(two) && Items(one) == Items(two)
    ensures one == two
  {
    ItemsRead(one);
    ItemsRead(two);
  }

  function TxOf(list: seq<Bytes>): Tx
    requires |list| == 8
  {
    Tx(Number(list[0]), Number(list[1]), Number(list[2]), Number(list[3]),
       Number(list[4]), list[5], Number(list[6]), list[7])
  }

  /** Integers without leading zeros, and a recipient of twenty bytes. */
  predicate Canonical(list: seq<Bytes>)
    requires |list| == 8
  {
    && IsMinimal(list[0]) && IsMinimal(list[1]) && IsMinimal(list[2]) && IsMinimal(list[3]) && IsMinimal(list[4])
    && |list[5]| == 20 && IsMinimal(list[6])
  }

  /** The transaction that eight items and an empty access list stand for. */
  function ReadFields(s: Bytes): Option<Tx> {
    if s == [] || s[|s| - 1] != 0xC0 then None
    else
      match ReadItems(s[..|s| - 1], [])
      case None => None
      case Some(list) =>
        if |list| != 8 || !Canonical(list) then None else Some(TxOf(list))
  }

  lemma PartsAre(tx: Tx)
    requires InRange(tx)
    ensures Parts(tx) == [Minimal(tx.chainId), Minimal(tx.nonce), Minimal(tx.maxPriorityFee), Minimal(tx.maxFee),
                          Minimal(tx.gas), tx.to, Minimal(tx.value), tx.data]
  {
  }

  lemma FieldsStandFor(tx: Tx, list: seq<Bytes>)
    requires list == [Minimal(tx.chainId), Minimal(tx.nonce), Minimal(tx.maxPriorityFee), Minimal(tx.maxFee),
                      Minimal(tx.gas), tx.to, Minimal(tx.value), tx.data]
    ensures TxOf(list) == tx && (Canonical(list) <==> |tx.to| == 20)
  {
    MinimalIsMinimal(tx.chainId);
    MinimalIsMinimal(tx.nonce);
    MinimalIsMinimal(tx.maxPriorityFee);
    MinimalIsMinimal(tx.maxFee);
    MinimalIsMinimal(tx.gas);
    MinimalIsMinimal(tx.value);
    MinimalValue(tx.chainId);
    MinimalValue(tx.nonce);
    MinimalValue(tx.maxPriorityFee);
    MinimalValue(tx.maxFee);
    MinimalValue(tx.gas);
    MinimalValue(tx.value);
  }

  lemma FieldsRead(tx: Tx)
    requires InRange(tx) && |tx.to| == 20
    ensures ReadFields(Fields(tx)) == Some(tx)
  {
    ItemsRead(Parts(tx));
    PartsAre(tx);
    FieldsStandFor(tx, Parts(tx));
    assert Fields(tx)[..|Fields(tx)| - 1] == Items(Parts(tx));
  }

  function ReadEnvelope(s: Bytes): Read<Bytes> {
    if s == [] || s[0] != 0x02 then Malformed else ReadPayload(s[1..], 0xC0)
  }

  lemma EnvelopeReads(payload: Bytes, rest: Bytes)
    requires |payload| < MAX_LENGTH
    ensures ReadEnvelope(Envelope(payload) + rest) == Read(payload, rest)
  {
    var tail := Header(|payload|, 0xC0) + payload + rest;
    PayloadReads(payload, 0xC0, rest);
    assert Envelope(payload) + rest == [0x02] + tail;
    assert ([0x02] + tail)[1..] == tail;
  }

  function ReadUnsigned(s: Bytes): Read<Tx> {
    var payload := ReadEnvelope(s);
    if payload.Malformed? then Malformed
    else
      match ReadFields(payload.value)
      case None => Malformed
      case Some(tx) => Read(tx, payload.rest)
  }

  /** The round trip: the decoder recovers every field of the transaction and what follows it. */
  lemma UnsignedReads(tx: Tx, rest: Bytes)
    requires InRange(tx) && |tx.to| == 20
    ensures ReadUnsigned(Unsigned(tx).value + rest) == Read(tx, rest)
  {
    FieldsLength(tx);
    FieldsRead(tx);
    EnvelopeReads(Fields(tx), rest);
  }

  /** Serialisation is injective and prefix-free: bytes that start with the same payload are the same
      transaction, in every field. */
  lemma UnsignedDetermines(one: Tx, two: Tx, after: Bytes, later: Bytes)
    requires InRange(one) && InRange(two) && |one.to| == 20 && |two.to| == 20
    requires Unsigned(one).value + after == Unsigned(two).value + later
    ensures one == two && after == later
  {
    UnsignedReads(one, after);
    UnsignedReads(two, later);
  }

  // No other bytes are read.

  lemma HeaderIsOnly(s: Bytes, offset: nat)
    requires offset <= 0xC0 && ReadHeader(s, offset).Read?
    ensures var r := ReadHeader(s, offset);
            r.value < MAX_LENGTH && s == Header(r.value, offset) + r.rest
  {
    if s[0] >= offset + 56 {
      var size := s[0] - offset - 55;
      var be := s[1..1 + size];
      NumberBounds(be);
      Pow256Grows(size, 8);
      assert Pow256(8) == MAX_LENGTH by {
        assert Pow256(4) == 0x1_0000_0000;
        assert Pow256(6) == 0x1_0000_0000_0000;
      }
      MinimalOfNumber(be);
      assert s == [s[0]] + be + s[1 + size..];
    }
  }

  lemma PayloadIsOnly(s: Bytes, offset: nat)
    requires offset <= 0xC0 && ReadPayload(s, offset).Read?
    ensures var r := ReadPayload(s, offset);
            |r.value| < MAX_LENGTH && s == Header(|r.value|, offset) + r.value + r.rest
  {
    HeaderIsOnly(s, offset);
  }

  /** An item has exactly one encoding. */
  lemma ItemIsOnly(s: Bytes)
    requires ReadItem(s).Read?
    ensures var r := ReadItem(s);
            |r.value| < MAX_LENGTH && s == Item(r.value) + r.rest
  {
    if s[0] >= 0x80 {
      PayloadIsOnly(s, 0x80);
    }
  }

  lemma Regroup(a: Bytes, b: Bytes, c: Bytes)
    ensures a + (b + c) == a + b + c
  {
  }

  /** What is read as items is the bytes of those items. */
  lemma {:induction false} ItemsAreOnly(s: Bytes, read: seq<Bytes>)
    requires Fit(read) && ReadItems(s, read).Some?
    ensures var all := ReadItems(s, read).value;
            Fit(all) && Items(all) == Items(read) + s
    decreases |s|
  {
    if s == [] {
      assert Items(read) + s == Items(read);
    } else {
      var item := ReadItem(s);
      var more := read + [item.value];
      ItemIsOnly(s);
      ItemsSnoc(read, item.value);
      ItemsAreOnly(item.rest, more);
      Regroup(Items(read), Item(item.value), item.rest);
    }
  }

  lemma ListIsParts(list: seq<Bytes>, tx: Tx)
    requires |list| == 8 && Canonical(list) && tx == TxOf(list) && InRange(tx)
    ensures Parts(tx) == list
  {
    MinimalOfNumber(list[0]);
    MinimalOfNumber(list[1]);
    MinimalOfNumber(list[2]);
    MinimalOfNumber(list[3]);
    MinimalOfNumber(list[4]);
    MinimalOfNumber(list[6]);
    PartsAre(tx);
  }

  lemma ItemsOfTx(front: Bytes, list: seq<Bytes>, tx: Tx)
    requires ReadItems(front, []) == Some(list) && |list| == 8 && Canonical(list) && tx == TxOf(list) && InRange(tx)
    ensures front == Items(Parts(tx))
  {
    ItemsAreOnly(front, []);
    ListIsParts(list, tx);
    assert Items([]) == [] && [] + front == front;
  }

  lemma FieldsAreOnly(s: Bytes)
    requires ReadFields(s).Some? && InRange(ReadFields(s).value)
    ensures |ReadFields(s).value.to| == 20 && s == Fields(ReadFields(s).value)
  {
    var front := s[..|s| - 1];
    ItemsOfTx(front, ReadItems(front, []).value, ReadFields(s).value);
    assert s == front + [0xC0];
  }

  lemma EnvelopeIsOnly(s: Bytes)
    requires ReadEnvelope(s).Read?
    ensures var r := ReadEnvelope(s);
            |r.value| < MAX_LENGTH && s == Envelope(r.value) + r.rest
  {
    var tail, r := s[1..], ReadEnvelope(s);
    PayloadIsOnly(tail, 0xC0);
    assert s == [0x02] + tail;
    Regroup([0x02], List(r.value), r.rest);
  }

  /** The bytes of a transaction are its only ones: whatever is read as a transaction starts with them. */
  lemma UnsignedIsOnly(s: Bytes)
    requires ReadUnsigned(s).Read? && InRange(ReadUnsigned(s).value)
    ensures var r := ReadUnsigned(s);
            Unsigned(r.value).Some? && s == Unsigned(r.value).value + r.rest
  {
    EnvelopeIsOnly(s);
    FieldsAreOnly(ReadEnvelope(s).value);
  }
}
