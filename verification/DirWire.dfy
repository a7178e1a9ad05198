/**
 The FILE_INFO and FILE_INFO_SHARE packets as bytes: header, file count, then one fixed-size item
 per file. Integers travel in network order; strings sit NUL-terminated in fixed fields whose tail is
 whatever the sender's memory held. The receiver reads at most RECV_BUFFER bytes.
 */
module DirWire {
  import opened Wrappers
  import opened CStrings
  import opened DirTable

  const FILE_INFO: nat := 0x20
  const FILE_INFO_SHARE: nat := 0x50
  const RECV_BUFFER: nat := 1020
  const HEADER_LEN: nat := 12
  const COUNTED_HEADER: nat := HEADER_LEN + 4
  const FILE_NAME_LEN: nat := 96
  const IP_ADDR_LEN: nat := 20
  const WORD: nat := 0x1_0000_0000

  // ---------- integers and strings ----------

  /** htonl: the four bytes of x, most significant first. */
  function Htonl(x: nat): (bytes: seq<int>)
    requires x < WORD
    ensures |bytes| == 4 && forall i :: 0 <= i < 4 ==> 0 <= bytes[i] < 256
  {
    [x / 0x100_0000, (x / 0x1_0000) % 0x100, (x / 0x100) % 0x100, x % 0x100]
  }

  function Ntohl(bytes: seq<int>): int
    requires |bytes| == 4
  {
    bytes[0] * 0x100_0000 + bytes[1] * 0x1_0000 + bytes[2] * 0x100 + bytes[3]
  }

  lemma WordRoundTrip(x: nat)
    requires x < WORD
    ensures Ntohl(Htonl(x)) == x
  {
    var a := x / 0x100;
    var b := a / 0x100;
    assert x / 0x1_0000 == b && x / 0x100_0000 == b / 0x100;
  }

  /** strcpy into a field whose bytes were `junk`. */
  function Field(text: Name, junk: seq<int>): (f: seq<int>)
    requires |text| < |junk|
    ensures |f| == |junk|
  {
    text + [0] + junk[|text| + 1..]
  }

  lemma FieldRoundTrip(text: Name, junk: seq<int>)
    requires |text| < |junk| && NulFree(text)
    ensures CString(Field(text, junk)) == text
  {
    TerminatedText(text, junk[|text| + 1..]);
  }

  // ---------- items ----------

  /** fileInformation: what a child reports. */
  datatype FileEntry = FileEntry(name: Name, size: nat)

  ghost predicate FitsEntry(e: FileEntry) {
    |e.name| < FILE_NAME_LEN && NulFree(e.name) && e.size < WORD
  }

  /** fileInfoStoreStruct: what the super nodes keep and share. */
  ghost predicate FitsRecord(r: Record) {
    && |r.name| < FILE_NAME_LEN && NulFree(r.name) && r.size < WORD
    && |r.ip| < IP_ADDR_LEN && NulFree(r.ip) && r.port < WORD
  }

  const ENTRY_LEN: nat := FILE_NAME_LEN + 4
  const RECORD_LEN: nat := FILE_NAME_LEN + 4 + IP_ADDR_LEN + 4

  /** `junk` is the memory the item is written into. */
  function EncodeEntry(e: FileEntry, junk: seq<int>): (item: seq<int>)
    requires FitsEntry(e) && |junk| == ENTRY_LEN
    ensures |item| == ENTRY_LEN
  {
    Field(e.name, junk[..FILE_NAME_LEN]) + Htonl(e.size)
  }

  function DecodeEntry(item: seq<int>): FileEntry
    requires |item| == ENTRY_LEN
  {
    var size := Ntohl(item[FILE_NAME_LEN..]);
    FileEntry(CString(item[..FILE_NAME_LEN]), if size < 0 then 0 else size)
  }

  function EncodeRecord(r: Record, junk: seq<int>): (item: seq<int>)
    requires FitsRecord(r) && |junk| == RECORD_LEN
    ensures |item| == RECORD_LEN
  {
    Field(r.name, junk[..FILE_NAME_LEN]) + Htonl(r.size)
    + Field(r.ip, junk[FILE_NAME_LEN + 4..FILE_NAME_LEN + 4 + IP_ADDR_LEN]) + Htonl(r.port)
  }

  function DecodeRecord(item: seq<int>): Record
    requires |item| == RECORD_LEN
  {
    var ipAt := FILE_NAME_LEN + 4;
    var size, port := Ntohl(item[FILE_NAME_LEN..ipAt]), Ntohl(item[ipAt + IP_ADDR_LEN..]);
    Record(CString(item[..FILE_NAME_LEN]), if size < 0 then 0 else size,
           CString(item[ipAt..ipAt + IP_ADDR_LEN]), if port < 0 then 0 else port)
  }

  lemma EntryRoundTrip(e: FileEntry, junk: seq<int>)
    requires FitsEntry(e) && |junk| == ENTRY_LEN
    ensures DecodeEntry(EncodeEntry(e, junk)) == e
  {
    var item := EncodeEntry(e, junk);
    assert item[..FILE_NAME_LEN] == Field(e.name, junk[..FILE_NAME_LEN]);
    assert item[FILE_NAME_LEN..] == Htonl(e.size);
    FieldRoundTrip(e.name, junk[..FILE_NAME_LEN]);
    WordRoundTrip(e.size);
  }

  lemma RecordRoundTrip(r: Record, junk: seq<int>)
    requires FitsRecord(r) && |junk| == RECORD_LEN
    ensures DecodeRecord(EncodeRecord(r, junk)) == r
  {
    var item := EncodeRecord(r, junk);
    var ipAt := FILE_NAME_LEN + 4;
    var ipJunk := junk[ipAt..ipAt + IP_ADDR_LEN];
    assert item[..FILE_NAME_LEN] == Field(r.name, junk[..FILE_NAME_LEN]);
    assert item[FILE_NAME_LEN..ipAt] == Htonl(r.size);
    assert item[ipAt..ipAt + IP_ADDR_LEN] == Field(r.ip, ipJunk);
    assert item[ipAt + IP_ADDR_LEN..] == Htonl(r.port);
    FieldRoundTrip(r.name, junk[..FILE_NAME_LEN]);
    FieldRoundTrip(r.ip, ipJunk);
    WordRoundTrip(r.size);
    WordRoundTrip(r.port);
  }

  // ---------- packets ----------

  function Flatten(items: seq<seq<int>>): seq<int> {
    if items == [] then [] else items[0] + Flatten(items[1..])
  }

  ghost predicate AllOfWidth(items: seq<seq<int>>, width: nat) {
    forall i :: 0 <= i < |items| ==> |items[i]| == width
  }

  lemma {:induction false} FlattenLength(items: seq<seq<int>>, width: nat)
    requires AllOfWidth(items, width)
    ensures |Flatten(items)| == width * |items|
  {
    if items != [] {
      FlattenLength(items[1..], width);
      assert width * |items| == width + width * (|items| - 1);
    }
  }

  /** The header of a packet with these items. */
  function Header(id: nat, msgType: nat, width: nat, count: nat): (header: seq<int>)
    requires id < WORD && msgType < WORD && COUNTED_HEADER + width * count < WORD && count < WORD
    ensures |header| == COUNTED_HEADER
  {
    Htonl(COUNTED_HEADER + width * count) + Htonl(id) + Htonl(msgType) + Htonl(count)
  }

  function Packet(id: nat, msgType: nat, width: nat, items: seq<seq<int>>): seq<int>
    requires id < WORD && msgType < WORD && COUNTED_HEADER + width * |items| < WORD && |items| < WORD
  {
    Header(id, msgType, width, |items|) + Flatten(items)
  }

  /** One read into the receive buffer. */
  function Delivered(packet: seq<int>): (bytes: seq<int>)
    ensures |bytes| <= RECV_BUFFER && bytes <= packet
  {
    if |packet| <= RECV_BUFFER then packet else packet[..RECV_BUFFER]
  }

  /** `count` items of this width, as long as the bytes last. */
  function Items(bytes: seq<int>, width: nat, count: int): (items: seq<seq<int>>)
    ensures AllOfWidth(items, width)
    decreases count
  {
    if count <= 0 || |bytes| < width then []
    else [bytes[..width]] + Items(bytes[width..], width, count - 1)
  }

  /** The receiver: an error when the header announces more bytes than were read. */
  function Receive(bytes: seq<int>, width: nat): (r: Option<seq<seq<int>>>)
    ensures r.Some? ==> AllOfWidth(r.value, width)
  {
    if |bytes| < COUNTED_HEADER || Ntohl(bytes[..4]) > |bytes| then None
    else Some(Items(bytes[COUNTED_HEADER..], width, Ntohl(bytes[HEADER_LEN..COUNTED_HEADER])))
  }

  lemma {:induction false} ItemsOfFlatten(items: seq<seq<int>>, width: nat)
    requires AllOfWidth(items, width)
    ensures Items(Flatten(items), width, |items|) == items
    decreases |items|
  {
    if items != [] {
      var bytes := Flatten(items);
      assert bytes[..width] == items[0] && bytes[width..] == Flatten(items[1..]);
      ItemsOfFlatten(items[1..], width);
    }
  }

  /** A packet gets through unchanged exactly when it fits into the receive buffer; otherwise the
      receiver reports an error. */
  lemma PacketDelivered(id: nat, msgType: nat, width: nat, items: seq<seq<int>>)
    requires id < WORD && msgType < WORD && COUNTED_HEADER + width * |items| < WORD && |items| < WORD
    requires AllOfWidth(items, width)
    ensures Receive(Delivered(Packet(id, msgType, width, items)), width) ==
      if 16 + width * |items| <= 1020 then Some(items) else None
  {
    var packet := Packet(id, msgType, width, items);
    var total := COUNTED_HEADER + width * |items|;
    FlattenLength(items, width);
    assert |packet| == total;
    assert packet[..4] == Htonl(total);
    WordRoundTrip(total);
    assert Delivered(packet)[..4] == packet[..4];
    if total <= RECV_BUFFER {
      assert packet[HEADER_LEN..COUNTED_HEADER] == Htonl(|items|);
      WordRoundTrip(|items|);
      assert packet[COUNTED_HEADER..] == Flatten(items);
      ItemsOfFlatten(items, width);
    }
  }

  // ---------- the two packets ----------

  const MAX_FILES: nat := 100

  /** The memory a packet of this many items is written into. */
  ghost predicate JunkFor(junk: seq<seq<int>>, width: nat, count: nat) {
    |junk| == count && AllOfWidth(junk, width)
  }

  function EncodeEntries(files: seq<FileEntry>, junk: seq<seq<int>>): (items: seq<seq<int>>)
    requires JunkFor(junk, ENTRY_LEN, |files|) && forall i :: 0 <= i < |files| ==> FitsEntry(files[i])
    ensures |items| == |files| && AllOfWidth(items, ENTRY_LEN)
  {
    seq(|files|, i requires 0 <= i < |files| => EncodeEntry(files[i], junk[i]))
  }

  function DecodeEntries(items: seq<seq<int>>): seq<FileEntry>
    requires AllOfWidth(items, ENTRY_LEN)
  {
    seq(|items|, i requires 0 <= i < |items| => DecodeEntry(items[i]))
  }

  function EncodeRecords(files: seq<Record>, junk: seq<seq<int>>): (items: seq<seq<int>>)
    requires JunkFor(junk, RECORD_LEN, |files|) && forall i :: 0 <= i < |files| ==> FitsRecord(files[i])
    ensures |items| == |files| && AllOfWidth(items, RECORD_LEN)
  {
    seq(|files|, i requires 0 <= i < |files| => EncodeRecord(files[i], junk[i]))
  }

  function DecodeRecords(items: seq<seq<int>>): seq<Record>
    requires AllOfWidth(items, RECORD_LEN)
  {
    seq(|items|, i requires 0 <= i < |items| => DecodeRecord(items[i]))
  }

  lemma EntriesRoundTrip(files: seq<FileEntry>, junk: seq<seq<int>>)
    requires JunkFor(junk, ENTRY_LEN, |files|) && forall i :: 0 <= i < |files| ==> FitsEntry(files[i])
    ensures DecodeEntries(EncodeEntries(files, junk)) == files
  {
    forall i | 0 <= i < |files|
      ensures DecodeEntry(EncodeEntry(files[i], junk[i])) == files[i]
    {
      EntryRoundTrip(files[i], junk[i]);
    }
  }

  lemma RecordsRoundTrip(files: seq<Record>, junk: seq<seq<int>>)
    requires JunkFor(junk, RECORD_LEN, |files|) && forall i :: 0 <= i < |files| ==> FitsRecord(files[i])
    ensures DecodeRecords(EncodeRecords(files, junk)) == files
  {
    forall i | 0 <= i < |files|
      ensures DecodeRecord(EncodeRecord(files[i], junk[i])) == files[i]
    {
      RecordRoundTrip(files[i], junk[i]);
    }
  }

  function Report(id: nat, files: seq<FileEntry>, junk: seq<seq<int>>): seq<int>
    requires id < WORD && |files| <= MAX_FILES && JunkFor(junk, ENTRY_LEN, |files|)
    requires forall i :: 0 <= i < |files| ==> FitsEntry(files[i])
  {
    Packet(id, FILE_INFO, ENTRY_LEN, EncodeEntries(files, junk))
  }

  function ReceiveReport(bytes: seq<int>): Option<seq<FileEntry>> {
    match Receive(bytes, ENTRY_LEN)
    case None => None
    case Some(items) => Some(DecodeEntries(items))
  }

  function Share(id: nat, files: seq<Record>, junk: seq<seq<int>>): seq<int>
    requires id < WORD && |files| <= MAX_FILES && JunkFor(junk, RECORD_LEN, |files|)
    requires forall i :: 0 <= i < |files| ==> FitsRecord(files[i])
  {
    Packet(id, FILE_INFO_SHARE, RECORD_LEN, EncodeRecords(files, junk))
  }

  function ReceiveShare(bytes: seq<int>): Option<seq<Record>> {
    match Receive(bytes, RECORD_LEN)
    case None => None
    case Some(items) => Some(DecodeRecords(items))
  }

  lemma EntriesFit(count: nat)
    ensures COUNTED_HEADER + ENTRY_LEN * count <= RECV_BUFFER <==> count <= 10
  {
  }

  lemma RecordsFit(count: nat)
    ensures COUNTED_HEADER + RECORD_LEN * count <= RECV_BUFFER <==> count <= 8
  {
  }

  /** A report of up to 100 files is understood exactly when it has at most 10. */
  lemma ReportArrives(id: nat, files: seq<FileEntry>, junk: seq<seq<int>>)
    requires id < WORD && |files| <= MAX_FILES && JunkFor(junk, ENTRY_LEN, |files|)
    requires forall i :: 0 <= i < |files| ==> FitsEntry(files[i])
    ensures ReceiveReport(Delivered(Report(id, files, junk))) == if |files| <= 10 then Some(files) else None
  {
    PacketDelivered(id, FILE_INFO, ENTRY_LEN, EncodeEntries(files, junk));
    EntriesRoundTrip(files, junk);
    EntriesFit(|files|);
  }

  /** A share is understood, with every record intact, exactly when it has at most 8 files. */
  lemma ShareArrives(id: nat, files: seq<Record>, junk: seq<seq<int>>)
    requires id < WORD && |files| <= MAX_FILES && JunkFor(junk, RECORD_LEN, |files|)
    requires forall i :: 0 <= i < |files| ==> FitsRecord(files[i])
    ensures ReceiveShare(Delivered(Share(id, files, junk))) == if |files| <= 8 then Some(files) else None
  {
    PacketDelivered(id, FILE_INFO_SHARE, RECORD_LEN, EncodeRecords(files, junk));
    RecordsRoundTrip(files, junk);
    RecordsFit(|files|);
  }
}
