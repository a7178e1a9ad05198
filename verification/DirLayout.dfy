/** The bytes of the FILE_INFO and FILE_INFO_SHARE packets at their offsets, in the numbers of the protocol. */
module DirLayout {
  import opened DirTable
  import opened DirWire

  /** The four bytes at this offset are x in base 256, the most significant digit first. */
  predicate WordAt(bytes: seq<int>, at: nat, x: nat) {
    && at + 4 <= |bytes|
    && (forall i :: at <= i < at + 4 ==> 0 <= bytes[i] < 256)
    && bytes[at] * 16777216 + bytes[at + 1] * 65536 + bytes[at + 2] * 256 + bytes[at + 3] == x
  }

  /** The bytes at this offset are the text and a NUL. */
  predicate TextAt(bytes: seq<int>, at: nat, text: seq<int>) {
    at + |text| < |bytes| && bytes[at..at + |text|] == text && bytes[at + |text|] == 0
  }

  lemma HtonlIsWord(x: nat)
    requires x < WORD
    ensures WordAt(Htonl(x), 0, x)
  {
    WordRoundTrip(x);
  }

  /** What is at an offset of a part is at the sum of the offsets in the whole. */
  lemma WordInside(bytes: seq<int>, part: seq<int>, from: nat, at: nat, x: nat)
    requires from + |part| <= |bytes| && bytes[from..from + |part|] == part && WordAt(part, at, x)
    ensures WordAt(bytes, from + at, x)
  {
    forall i | at <= i < at + 4
      ensures bytes[from + i] == part[i]
    {
      assert bytes[from..from + |part|][i] == bytes[from + i];
    }
    forall i | from + at <= i < from + at + 4
      ensures 0 <= bytes[i] < 256
    {
      assert bytes[i] == part[i - from];
    }
  }

  lemma TextInside(bytes: seq<int>, part: seq<int>, from: nat, at: nat, text: seq<int>)
    requires from + |part| <= |bytes| && bytes[from..from + |part|] == part && TextAt(part, at, text)
    ensures TextAt(bytes, from + at, text)
  {
    forall i | 0 <= i < |part|
      ensures bytes[from + i] == part[i]
    {
      assert bytes[from..from + |part|][i] == bytes[from + i];
    }
    assert bytes[from + at..from + at + |text|] == part[at..at + |text|];
  }

  // ---------- header ----------

  /** Total length, id, type and count. */
  predicate HeaderAt(bytes: seq<int>, total: nat, id: nat, msgType: nat, count: nat) {
    WordAt(bytes, 0, total) && WordAt(bytes, 4, id) && WordAt(bytes, 8, msgType) && WordAt(bytes, 12, count)
  }

  lemma FourWords(a: seq<int>, b: seq<int>, c: seq<int>, d: seq<int>)
    requires |a| == |b| == |c| == |d| == 4
    ensures var all := a + b + c + d;
      all[0..4] == a && all[4..8] == b && all[8..12] == c && all[12..16] == d
  {
  }

  lemma WordsLayout(header: seq<int>, total: nat, id: nat, msgType: nat, count: nat)
    requires total < WORD && id < WORD && msgType < WORD && count < WORD
    requires header == Htonl(total) + Htonl(id) + Htonl(msgType) + Htonl(count)
    ensures HeaderAt(header, total, id, msgType, count)
  {
    FourWords(Htonl(total), Htonl(id), Htonl(msgType), Htonl(count));
    HeaderWord(header, Htonl(total), 0, total);
    HeaderWord(header, Htonl(id), 4, id);
    HeaderWord(header, Htonl(msgType), 8, msgType);
    HeaderWord(header, Htonl(count), 12, count);
  }

  lemma HeaderLayout(id: nat, msgType: nat, width: nat, count: nat)
    requires id < WORD && msgType < WORD && 16 + width * count < WORD && count < WORD
    ensures HeaderAt(Header(id, msgType, width, count), 16 + width * count, id, msgType, count)
  {
    WordsLayout(Header(id, msgType, width, count), 16 + width * count, id, msgType, count);
  }

  lemma HeaderWord(header: seq<int>, word: seq<int>, at: nat, x: nat)
    requires x < WORD && word == Htonl(x) && at + 4 <= |header| && header[at..at + 4] == word
    ensures WordAt(header, at, x)
  {
    HtonlIsWord(x);
    WordInside(header, word, at, 0, x);
  }

  /** Distances in a sequence of items of one width. */
  lemma Distances(width: nat, i: nat, count: nat)
    requires i < count
    ensures width * i + width <= width * count
    ensures i > 0 ==> width * i == width + width * (i - 1)
  {
    assert width * count == width * i + width + width * (count - 1 - i);
    assert width * (count - 1 - i) >= 0;
  }

  lemma TailSlice(head: seq<int>, tail: seq<int>, from: nat, to: nat)
    requires from <= to <= |tail|
    ensures (head + tail)[|head| + from..|head| + to] == tail[from..to]
  {
  }

  lemma {:induction false} FlattenAt(items: seq<seq<int>>, width: nat, i: nat)
    requires AllOfWidth(items, width) && i < |items|
    ensures width * i + width <= |Flatten(items)|
    ensures Flatten(items)[width * i..width * i + width] == items[i]
  {
    FlattenLength(items, width);
    Distances(width, i, |items|);
    if i > 0 {
      FlattenAt(items[1..], width, i - 1);
      TailSlice(items[0], Flatten(items[1..]), width * (i - 1), width * (i - 1) + width);
    }
  }

  lemma ItemLayout(id: nat, msgType: nat, width: nat, items: seq<seq<int>>, i: nat)
    requires id < WORD && msgType < WORD && 16 + width * |items| < WORD && |items| < WORD
    requires AllOfWidth(items, width) && i < |items|
    ensures var bytes := Packet(id, msgType, width, items);
      16 + width * i + width <= |bytes| && bytes[16 + width * i..16 + width * i + width] == items[i]
  {
    FlattenAt(items, width, i);
    TailSlice(Header(id, msgType, width, |items|), Flatten(items), width * i, width * i + width);
  }

  lemma PacketHeader(id: nat, msgType: nat, width: nat, items: seq<seq<int>>)
    requires id < WORD && msgType < WORD && 16 + width * |items| < WORD && |items| < WORD
    requires AllOfWidth(items, width)
    ensures var bytes := Packet(id, msgType, width, items);
      |bytes| == 16 + width * |items| && HeaderAt(bytes, 16 + width * |items|, id, msgType, |items|)
  {
    var header, total := Header(id, msgType, width, |items|), 16 + width * |items|;
    var bytes := Packet(id, msgType, width, items);
    FlattenLength(items, width);
    HeaderLayout(id, msgType, width, |items|);
    assert bytes[0..16] == header;
    WordInside(bytes, header, 0, 0, total);
    WordInside(bytes, header, 0, 4, id);
    WordInside(bytes, header, 0, 8, msgType);
    WordInside(bytes, header, 0, 12, |items|);
  }

  // ---------- items ----------

  /** 100 bytes: the name in 96, the size. */
  predicate EntryAt(bytes: seq<int>, at: nat, e: FileEntry) {
    TextAt(bytes, at, e.name) && |e.name| < 96 && WordAt(bytes, at + 96, e.size)
  }

  /** 124 bytes: the name in 96, the size, the address in 20, the port. */
  predicate RecordAt(bytes: seq<int>, at: nat, r: Record) {
    && TextAt(bytes, at, r.name) && |r.name| < 96 && WordAt(bytes, at + 96, r.size)
    && TextAt(bytes, at + 100, r.ip) && |r.ip| < 20 && WordAt(bytes, at + 120, r.port)
  }

  lemma FieldIsText(text: Name, junk: seq<int>)
    requires |text| < |junk|
    ensures TextAt(Field(text, junk), 0, text)
  {
  }

  lemma EntryLayout(e: FileEntry, junk: seq<int>)
    requires FitsEntry(e) && |junk| == 100
    ensures |EncodeEntry(e, junk)| == 100 && EntryAt(EncodeEntry(e, junk), 0, e)
  {
    var item := EncodeEntry(e, junk);
    var field := Field(e.name, junk[..96]);
    FieldIsText(e.name, junk[..96]);
    HtonlIsWord(e.size);
    assert item[0..96] == field && item[96..100] == Htonl(e.size);
    TextInside(item, field, 0, 0, e.name);
    WordInside(item, Htonl(e.size), 96, 0, e.size);
  }

  lemma RecordLayout(r: Record, junk: seq<int>)
    requires FitsRecord(r) && |junk| == 124
    ensures |EncodeRecord(r, junk)| == 124 && RecordAt(EncodeRecord(r, junk), 0, r)
  {
    var item := EncodeRecord(r, junk);
    var name, ip := Field(r.name, junk[..96]), Field(r.ip, junk[100..120]);
    FieldIsText(r.name, junk[..96]);
    FieldIsText(r.ip, junk[100..120]);
    HtonlIsWord(r.size);
    HtonlIsWord(r.port);
    assert item[0..96] == name && item[96..100] == Htonl(r.size);
    assert item[100..120] == ip && item[120..124] == Htonl(r.port);
    TextInside(item, name, 0, 0, r.name);
    WordInside(item, Htonl(r.size), 96, 0, r.size);
    TextInside(item, ip, 100, 0, r.ip);
    WordInside(item, Htonl(r.port), 120, 0, r.port);
  }

  lemma EntryInside(bytes: seq<int>, item: seq<int>, from: nat, e: FileEntry)
    requires from + 100 <= |bytes| && |item| == 100 && bytes[from..from + 100] == item && EntryAt(item, 0, e)
    ensures EntryAt(bytes, from, e)
  {
    TextInside(bytes, item, from, 0, e.name);
    WordInside(bytes, item, from, 96, e.size);
  }

  lemma RecordInside(bytes: seq<int>, item: seq<int>, from: nat, r: Record)
    requires from + 124 <= |bytes| && |item| == 124 && bytes[from..from + 124] == item && RecordAt(item, 0, r)
    ensures RecordAt(bytes, from, r)
  {
    TextInside(bytes, item, from, 0, r.name);
    WordInside(bytes, item, from, 96, r.size);
    TextInside(bytes, item, from, 100, r.ip);
    WordInside(bytes, item, from, 120, r.port);
  }

  lemma EntryPlaced(bytes: seq<int>, e: FileEntry, junk: seq<int>, from: nat)
    requires FitsEntry(e) && |junk| == 100
    requires from + 100 <= |bytes| && bytes[from..from + 100] == EncodeEntry(e, junk)
    ensures EntryAt(bytes, from, e)
  {
    EntryLayout(e, junk);
    EntryInside(bytes, EncodeEntry(e, junk), from, e);
  }

  lemma RecordPlaced(bytes: seq<int>, r: Record, junk: seq<int>, from: nat)
    requires FitsRecord(r) && |junk| == 124
    requires from + 124 <= |bytes| && bytes[from..from + 124] == EncodeRecord(r, junk)
    ensures RecordAt(bytes, from, r)
  {
    RecordLayout(r, junk);
    RecordInside(bytes, EncodeRecord(r, junk), from, r);
  }

  // ---------- the two packets ----------

  /** A report on the wire: 16 bytes of header with type 0x20, then 100 bytes for each file. */
  lemma ReportLayout(id: nat, files: seq<FileEntry>, junk: seq<seq<int>>)
    requires id < WORD && |files| <= MAX_FILES && JunkFor(junk, ENTRY_LEN, |files|)
    requires forall i :: 0 <= i < |files| ==> FitsEntry(files[i])
    ensures var bytes := Report(id, files, junk);
      && |bytes| == 16 + 100 * |files|
      && HeaderAt(bytes, 16 + 100 * |files|, id, 0x20, |files|)
      && forall i :: 0 <= i < |files| ==> EntryAt(bytes, 16 + 100 * i, files[i])
  {
    var items, bytes := EncodeEntries(files, junk), Report(id, files, junk);
    PacketHeader(id, FILE_INFO, 100, items);
    forall i | 0 <= i < |files|
      ensures EntryAt(bytes, 16 + 100 * i, files[i])
    {
      ItemLayout(id, FILE_INFO, 100, items, i);
      EntryPlaced(bytes, files[i], junk[i], 16 + 100 * i);
    }
  }

  /** A share on the wire: 16 bytes of header with type 0x50, then 124 bytes for each record. */
  lemma ShareLayout(id: nat, files: seq<Record>, junk: seq<seq<int>>)
    requires id < WORD && |files| <= MAX_FILES && JunkFor(junk, RECORD_LEN, |files|)
    requires forall i :: 0 <= i < |files| ==> FitsRecord(files[i])
    ensures var bytes := Share(id, files, junk);
      && |bytes| == 16 + 124 * |files|
      && HeaderAt(bytes, 16 + 124 * |files|, id, 0x50, |files|)
      && forall i :: 0 <= i < |files| ==> RecordAt(bytes, 16 + 124 * i, files[i])
  {
    var items, bytes := EncodeRecords(files, junk), Share(id, files, junk);
    PacketHeader(id, FILE_INFO_SHARE, 124, items);
    forall i | 0 <= i < |files|
      ensures RecordAt(bytes, 16 + 124 * i, files[i])
    {
      ItemLayout(id, FILE_INFO_SHARE, 124, items, i);
      RecordPlaced(bytes, files[i], junk[i], 16 + 124 * i);
    }
  }
}
