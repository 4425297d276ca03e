// Length-prefixed framings of the journal and of accepted receipts, and their decoder.
module Framing {
  import opened Wire

  type byte = n: int | 0 <= n < 256
  type Bytes = seq<byte>

  const U64: int := 0x1_0000_0000_0000_0000

  // ---- unsigned integers, most significant byte first ----

  function Power(k: nat): nat { if k == 0 then 1 else 256 * Power(k - 1) }

  function BigEndian(n: nat, k: nat): (b: Bytes)
    ensures |b| == k
  {
    if k == 0 then [] else BigEndian(n / 256, k - 1) + [n % 256]
  }

  function Number(b: Bytes): nat { if b == [] then 0 else 256 * Number(b[..|b| - 1]) + b[|b| - 1] }

  lemma {:induction false} NumberOfBigEndian(n: nat, k: nat)
    requires n < Power(k)
    ensures Number(BigEndian(n, k)) == n
  {
    if k > 0 {
      NumberOfBigEndian(n / 256, k - 1);
      assert BigEndian(n, k)[..k - 1] == BigEndian(n / 256, k - 1);
    }
  }

  lemma PowerOfEight()
    ensures Power(8) == U64
  {
    assert Power(4) == 0x1_0000_0000;
    assert Power(6) == 0x1_0000_0000_0000;
  }

  function U64Bytes(n: nat): Bytes { BigEndian(n, 8) }

  lemma U64RoundTrip(n: nat, rest: Bytes)
    requires n < U64
    ensures Number((U64Bytes(n) + rest)[..8]) == n && (U64Bytes(n) + rest)[8..] == rest
  {
    PowerOfEight();
    NumberOfBigEndian(n, 8);
    assert (U64Bytes(n) + rest)[..8] == U64Bytes(n);
  }

  // ---- length-prefixed strings ----

  function Prefixed(b: Bytes): Bytes { U64Bytes(|b|) + b }

  // The string at the front and what follows it.
  function TakePrefixed(b: Bytes): Option<(Bytes, Bytes)> {
    if |b| < 8 then None
    else
      var n := Number(b[..8]);
      if 8 + n > |b| then None else Some((b[8..8 + n], b[8 + n..]))
  }

  lemma TakesPrefixed(b: Bytes, rest: Bytes)
    requires |b| < U64
    ensures TakePrefixed(Prefixed(b) + rest) == Some((b, rest))
  {
    assert Prefixed(b) + rest == U64Bytes(|b|) + (b + rest);
    U64RoundTrip(|b|, b + rest);
  }

  // ---- entries ----

  // A journal event (sequence number and raw bytes) or an accepted receipt (key and bytes).
  datatype Entry = Event(sequence: nat, raw: Bytes) | Receipt(key: Bytes, raw: Bytes)

  predicate Fits(e: Entry) { |e.raw| < U64 && (if e.Event? then e.sequence < U64 else |e.key| < U64) }

  function FrameEntry(e: Entry): Bytes { (if e.Event? then U64Bytes(e.sequence) else Prefixed(e.key)) + Prefixed(e.raw) }

  function FrameEntries(entries: seq<Entry>): Bytes {
    if entries == [] then [] else FrameEntry(entries[0]) + FrameEntries(entries[1..])
  }

  // Reads one entry of the given kind from the front.
  function TakeEntry(b: Bytes, event: bool): Option<(Entry, Bytes)> {
    if event then
      if |b| < 8 then None
      else
        var raw := TakePrefixed(b[8..]);
        if raw.None? then None else Some((Event(Number(b[..8]), raw.value.0), raw.value.1))
    else
      var key := TakePrefixed(b);
      if key.None? then None
      else
        var raw := TakePrefixed(key.value.1);
        if raw.None? then None else Some((Receipt(key.value.0, raw.value.0), raw.value.1))
  }

  lemma TakesEntry(e: Entry, rest: Bytes)
    requires Fits(e)
    ensures TakeEntry(FrameEntry(e) + rest, e.Event?) == Some((e, rest))
    ensures |FrameEntry(e) + rest| > |rest|
  {
    if e.Event? {
      assert FrameEntry(e) + rest == U64Bytes(e.sequence) + (Prefixed(e.raw) + rest);
      U64RoundTrip(e.sequence, Prefixed(e.raw) + rest);
    } else {
      assert FrameEntry(e) + rest == Prefixed(e.key) + (Prefixed(e.raw) + rest);
      TakesPrefixed(e.key, Prefixed(e.raw) + rest);
    }
    TakesPrefixed(e.raw, rest);
  }

  // Reads entries until the bytes are used up.
  function Decode(b: Bytes, event: bool): Option<seq<Entry>>
    decreases |b|
  {
    if b == [] then Some([])
    else
      var first := TakeEntry(b, event);
      if first.None? || |first.value.1| >= |b| then None
      else
        var rest := Decode(first.value.1, event);
        if rest.None? then None else Some([first.value.0] + rest.value)
  }

  // The decoder recovers every sequence number, key and payload.
  lemma {:induction false} DecodeRoundTrip(entries: seq<Entry>, event: bool)
    requires forall i | 0 <= i < |entries| :: Fits(entries[i]) && entries[i].Event? == event
    ensures Decode(FrameEntries(entries), event) == Some(entries)
  {
    hide FrameEntry, TakeEntry;
    if entries != [] {
      DecodeRoundTrip(entries[1..], event);
      TakesEntry(entries[0], FrameEntries(entries[1..]));
      assert entries == [entries[0]] + entries[1..];
    }
  }

  // ---- the two framings ----

  // The bytes of a text; its characters are all ASCII.
  function Ascii(text: string): Bytes {
    seq(|text|, i requires 0 <= i < |text| => text[i] as int % 256)
  }

  const JOURNAL_HEADER: Bytes := Ascii("NIGHTSHIFT-FOREMAN-JOURNAL-FRAMING-V1\0")
  const RECEIPTS_HEADER: Bytes := Ascii("NIGHTSHIFT-FOREMAN-ACCEPTED-RECEIPTS-FRAMING-V1\0")

  function JournalFraming(events: seq<Entry>): Bytes { JOURNAL_HEADER + FrameEntries(events) }
  function ReceiptsFraming(receipts: seq<Entry>): Bytes { RECEIPTS_HEADER + FrameEntries(receipts) }

  lemma HeaderStrips(header: Bytes, x: Bytes, y: Bytes)
    requires header + x == header + y
    ensures x == y
  {
    assert x == (header + x)[|header|..] && y == (header + y)[|header|..];
  }

  predicate AllEvents(entries: seq<Entry>) { forall i | 0 <= i < |entries| :: Fits(entries[i]) && entries[i].Event? }
  predicate AllReceipts(entries: seq<Entry>) { forall i | 0 <= i < |entries| :: Fits(entries[i]) && entries[i].Receipt? }

  // Different journals never frame to the same bytes.
  lemma JournalFramingInjective(x: seq<Entry>, y: seq<Entry>)
    requires AllEvents(x) && AllEvents(y) && JournalFraming(x) == JournalFraming(y)
    ensures x == y
  {
    HeaderStrips(JOURNAL_HEADER, FrameEntries(x), FrameEntries(y));
    DecodeRoundTrip(x, true);
    DecodeRoundTrip(y, true);
  }

  // The entries list the map: each key once, with its bytes.
  ghost predicate Lists(entries: seq<Entry>, m: map<Bytes, Bytes>) {
    && AllReceipts(entries)
    && (forall i | 0 <= i < |entries| :: entries[i].key in m && m[entries[i].key] == entries[i].raw)
    && (forall k | k in m :: exists i :: 0 <= i < |entries| && entries[i].key == k)
  }

  lemma ListsOneMap(entries: seq<Entry>, m: map<Bytes, Bytes>, n: map<Bytes, Bytes>)
    requires Lists(entries, m) && Lists(entries, n)
    ensures m == n
  {
  }

  // Different receipt maps never frame to the same bytes, in whatever order they are listed.
  lemma ReceiptsFramingInjective(x: seq<Entry>, m: map<Bytes, Bytes>, y: seq<Entry>, n: map<Bytes, Bytes>)
    requires Lists(x, m) && Lists(y, n) && ReceiptsFraming(x) == ReceiptsFraming(y)
    ensures x == y && m == n
  {
    ReceiptListsAgree(x, y);
    ListsOneMap(x, m, n);
  }

  lemma ReceiptListsAgree(x: seq<Entry>, y: seq<Entry>)
    requires AllReceipts(x) && AllReceipts(y) && ReceiptsFraming(x) == ReceiptsFraming(y)
    ensures x == y
  {
    HeaderStrips(RECEIPTS_HEADER, FrameEntries(x), FrameEntries(y));
    DecodeRoundTrip(x, false);
    DecodeRoundTrip(y, false);
  }

  // A journal framing is never a receipts framing.
  lemma FramingsAreSeparate(x: seq<Entry>, y: seq<Entry>)
    ensures JournalFraming(x) != ReceiptsFraming(y)
  {
    assert JournalFraming(x)[19] == 'J' as int;
    assert ReceiptsFraming(y)[19] == 'A' as int;
  }

  // ---- the framing loops ----

  lemma {:induction false} FrameAppend(entries: seq<Entry>, e: Entry)
    ensures FrameEntries(entries + [e]) == FrameEntries(entries) + FrameEntry(e)
  {
    if entries == [] {
      assert [e][1..] == [];
    } else {
      FrameAppend(entries[1..], e);
      assert (entries + [e])[1..] == entries[1..] + [e];
    }
  }

  method Append(framed: Bytes, e: Entry) returns (after: Bytes)
    ensures after == framed + FrameEntry(e)
  {
    after := framed;
    if e.Event? {
      after := after + U64Bytes(e.sequence);
    } else {
      after := after + U64Bytes(|e.key|);
      after := after + e.key;
    }
    after := after + U64Bytes(|e.raw|);
    after := after + e.raw;
  }

  // journal_framing and accepted_receipts_framing
  method Frame(header: Bytes, entries: seq<Entry>) returns (framed: Bytes)
    ensures framed == header + FrameEntries(entries)
  {
    hide FrameEntry;
    framed := header;
    for i := 0 to |entries|
      invariant framed == header + FrameEntries(entries[..i])
    {
      assert entries[..i + 1] == entries[..i] + [entries[i]];
      FrameAppend(entries[..i], entries[i]);
      framed := Append(framed, entries[i]);
    }
    assert entries[..|entries|] == entries;
  }
}
