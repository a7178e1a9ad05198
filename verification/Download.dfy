/**
 The chunked download between two children of p4: the sender's loop in p4/src/child_lib.c and the
 receiver's loop in p4/src/child.c. The receiver's buffer has the size that the super node advertised.
 */
module Download {
  import opened Wrappers

  const DATA_SIZE: nat := 10000
  const HEADER_LEN: nat := 12

  /** A FILE_RES_SUCCESS packet. */
  datatype Packet = Packet(totalLen: nat, data: seq<int>)

  datatype Message = FileResSuccess(packet: Packet) | FileResFail | Unexpected

  /** The pieces that full reads cut a file into. */
  function Pieces(file: seq<int>): (pieces: seq<seq<int>>)
    ensures forall i :: 0 <= i < |pieces| ==> 0 < |pieces[i]| <= DATA_SIZE
    decreases |file|
  {
    if file == [] then []
    else if |file| <= DATA_SIZE then [file]
    else [file[..DATA_SIZE]] + Pieces(file[DATA_SIZE..])
  }

  function Join(pieces: seq<seq<int>>): seq<int> {
    if pieces == [] then [] else pieces[0] + Join(pieces[1..])
  }

  function AsPacket(piece: seq<int>): Packet {
    Packet(HEADER_LEN + |piece|, piece)
  }

  function AsPackets(pieces: seq<seq<int>>): (packets: seq<Packet>)
    ensures |packets| == |pieces|
  {
    seq(|pieces|, i requires 0 <= i < |pieces| => AsPacket(pieces[i]))
  }

  /** The sender's loop: read up to DATA_SIZE bytes, send them, until the end of the file. */
  method SendFile(file: seq<int>) returns (packets: seq<Packet>)
    ensures packets == AsPackets(Pieces(file))
  {
    packets := [];
    var at := 0;
    ghost var sent: seq<seq<int>> := [];
    while true
      invariant 0 <= at <= |file|
      invariant packets == AsPackets(sent)
      invariant sent + Pieces(file[at..]) == Pieces(file)
      decreases |file| - at
    {
      var bytesRead := if |file| - at < DATA_SIZE then |file| - at else DATA_SIZE;
      if bytesRead == 0 {
        break;
      }
      var data := file[at..at + bytesRead];
      PiecesHead(file[at..], bytesRead);
      assert file[at..][..bytesRead] == data && file[at..][bytesRead..] == file[at + bytesRead..];
      packets := packets + [Packet(HEADER_LEN + bytesRead, data)];
      sent := sent + [data];
      at := at + bytesRead;
    }
    assert file[at..] == [];
  }

  const WORD: nat := 0x1_0000_0000
  const INT_LIMIT: nat := 0x8000_0000

  /** A file size stored into a C int. */
  function AsInt(size: nat): int {
    (size + INT_LIMIT) % WORD - INT_LIMIT
  }

  function AsMessages(packets: seq<Packet>): (messages: seq<Message>)
    ensures |messages| == |packets|
  {
    seq(|packets|, i requires 0 <= i < |packets| => FileResSuccess(packets[i]))
  }

  /** FILE_REQ: refused when there is no such file, when its size, kept in an int, looks negative, or when
      it cannot be opened. */
  method ServeRequest(file: Option<seq<int>>, openOk: bool) returns (messages: seq<Message>)
    ensures file.None? || |file.value| % WORD >= INT_LIMIT || !openOk ==> messages == [FileResFail]
    ensures file.Some? && |file.value| % WORD < INT_LIMIT && openOk ==>
      messages == AsMessages(AsPackets(Pieces(file.value)))
  {
    if file.None? || AsInt(|file.value|) < 0 {
      return [FileResFail];
    }
    if !openOk {
      return [FileResFail];
    }
    var sent := SendFile(file.value);
    messages := AsMessages(sent);
  }

  lemma PiecesHead(file: seq<int>, count: nat)
    requires file != [] && count == if |file| < DATA_SIZE then |file| else DATA_SIZE
    ensures Pieces(file) == [file[..count]] + Pieces(file[count..])
  {
    if |file| <= DATA_SIZE {
      assert file[..count] == file && file[count..] == [];
    }
  }

  /** What the receiver has after some packets, before it looks whether that is enough. */
  function Collected(packets: seq<Packet>): seq<int> {
    if packets == [] then []
    else Collected(packets[..|packets| - 1]) + packets[|packets| - 1].data
  }

  ghost predicate Consistent(packets: seq<Packet>) {
    forall i :: 0 <= i < |packets| ==> packets[i].totalLen == HEADER_LEN + |packets[i].data|
  }

  /** The receiver stops after this many packets: the first time it has exactly the advertised size. */
  ghost predicate StopsAfter(packets: seq<Packet>, fileSize: nat, k: nat) {
    && 0 < k <= |packets| && |Collected(packets[..k])| == fileSize
    && forall j :: 0 < j < k ==> |Collected(packets[..j])| != fileSize
  }

  ghost predicate OverrunsAt(packets: seq<Packet>, fileSize: nat, k: nat) {
    && 0 < k <= |packets| && |Collected(packets[..k])| > fileSize
    && forall j :: 0 < j < k ==> |Collected(packets[..j])| != fileSize
  }

  /** The packets before the first message of another kind. */
  function Successes(messages: seq<Message>): (packets: seq<Packet>)
    ensures |packets| <= |messages|
    ensures forall i :: 0 <= i < |packets| ==> messages[i] == FileResSuccess(packets[i])
    ensures |packets| < |messages| ==> !messages[|packets|].FileResSuccess?
  {
    if messages == [] || !messages[0].FileResSuccess? then []
    else [messages[0].packet] + Successes(messages[1..])
  }

  lemma {:induction false} SuccessesOf(packets: seq<Packet>)
    ensures Successes(AsMessages(packets)) == packets
  {
    if packets != [] {
      SuccessesOf(packets[1..]);
      assert AsMessages(packets)[1..] == AsMessages(packets[1..]);
    }
  }

  /** Complete: the advertised size has been reached. Overrun: the next memcpy would pass the end of the
      buffer. Failed: a message of another kind has come. Starved: still waiting for the next message. */
  datatype Received = Complete(buffer: seq<int>, used: nat) | Overrun(used: nat) | Failed(used: nat) | Starved

  ghost predicate NeverThere(packets: seq<Packet>, fileSize: nat, k: nat)
    requires k <= |packets|
  {
    forall j :: 0 < j <= k ==> |Collected(packets[..j])| != fileSize
  }

  /** What the receiver makes of `count` messages, of which the first are these packets. */
  ghost predicate Result(packets: seq<Packet>, count: nat, fileSize: nat, r: Received) {
    match r
    case Complete(buffer, used) => StopsAfter(packets, fileSize, used) && buffer == Collected(packets[..used])
    case Overrun(used) => OverrunsAt(packets, fileSize, used)
    case Failed(used) => used == |packets| + 1 <= count && NeverThere(packets, fileSize, |packets|)
    case Starved => |packets| == count && NeverThere(packets, fileSize, |packets|)
  }

  /** One more packet: it overruns the buffer, completes it or leaves it incomplete. */
  lemma NextPacket(packets: seq<Packet>, count: nat, fileSize: nat, i: nat)
    requires i < |packets| <= count && NeverThere(packets, fileSize, i)
    ensures Collected(packets[..i + 1]) == Collected(packets[..i]) + packets[i].data
    ensures var now := Collected(packets[..i + 1]);
      && (|now| > fileSize ==> Result(packets, count, fileSize, Overrun(i + 1)))
      && (|now| == fileSize ==> Result(packets, count, fileSize, Complete(now, i + 1)))
      && (|now| < fileSize ==> NeverThere(packets, fileSize, i + 1))
  {
    assert packets[..i + 1][..i] == packets[..i];
  }

  /** The receiver's loop. */
  method ReceiveFile(messages: seq<Message>, fileSize: nat) returns (r: Received)
    requires Consistent(Successes(messages))
    ensures Result(Successes(messages), |messages|, fileSize, r)
  {
    var fileBuffer := [];
    var bytesStored := 0;
    ghost var packets := Successes(messages);
    var i := 0;
    while i < |messages|
      invariant 0 <= i <= |packets|
      invariant fileBuffer == Collected(packets[..i]) && bytesStored == |fileBuffer|
      invariant NeverThere(packets, fileSize, i)
    {
      if !messages[i].FileResSuccess? {
        return Failed(i + 1);
      }
      var packet := messages[i].packet;
      var dataLen := packet.totalLen - HEADER_LEN;
      assert packets[i] == packet;
      NextPacket(packets, |messages|, fileSize, i);
      if bytesStored + dataLen > fileSize {
        return Overrun(i + 1);
      }
      fileBuffer := fileBuffer + packet.data;
      bytesStored := bytesStored + dataLen;
      i := i + 1;
      if bytesStored == fileSize {
        return Complete(fileBuffer, i);
      }
    }
    r := Starved;
  }

  // ---------- the round trip ----------

  function PacketCount(n: nat): nat {
    (n + DATA_SIZE - 1) / DATA_SIZE
  }

  lemma {:induction false} PiecesCount(file: seq<int>)
    ensures |Pieces(file)| == PacketCount(|file|)
    decreases |file|
  {
    if |file| > DATA_SIZE {
      PiecesCount(file[DATA_SIZE..]);
    }
  }

  lemma {:induction false} PiecesJoin(file: seq<int>)
    ensures Join(Pieces(file)) == file
    decreases |file|
  {
    if |file| > DATA_SIZE {
      PiecesJoin(file[DATA_SIZE..]);
    } else if file != [] {
      assert [file][1..] == [];
    }
  }

  lemma {:induction false} JoinAppend(pieces: seq<seq<int>>, last: seq<int>)
    ensures Join(pieces + [last]) == Join(pieces) + last
  {
    if pieces == [] {
      assert [last][1..] == [];
    } else {
      assert (pieces + [last])[1..] == pieces[1..] + [last];
      JoinAppend(pieces[1..], last);
    }
  }

  lemma {:induction false} CollectedIsJoin(pieces: seq<seq<int>>)
    ensures Collected(AsPackets(pieces)) == Join(pieces)
  {
    if pieces != [] {
      var front, last := pieces[..|pieces| - 1], pieces[|pieces| - 1];
      assert pieces == front + [last];
      assert AsPackets(pieces)[..|pieces| - 1] == AsPackets(front);
      CollectedIsJoin(front);
      JoinAppend(front, last);
    }
  }

  /** Each packet brings data, so what is collected grows strictly. */
  lemma {:induction false} CollectedGrows(packets: seq<Packet>, j: nat, k: nat)
    requires j <= k <= |packets| && forall i :: 0 <= i < |packets| ==> packets[i].data != []
    ensures Collected(packets[..j]) <= Collected(packets[..k])
    ensures j < k ==> |Collected(packets[..j])| < |Collected(packets[..k])|
    decreases k
  {
    if j < k {
      CollectedGrows(packets, j, k - 1);
      assert packets[..k][..k - 1] == packets[..k - 1];
    }
  }

  /** The download of an unchanged file: the receiver stops after exactly ceil(n / 10000) packets
      with the file in its buffer, and no earlier packet would have passed the end of the buffer. An
      empty file is never completed. */
  lemma DownloadRoundTrip(file: seq<int>)
    ensures var packets := AsPackets(Pieces(file));
      && |packets| == PacketCount(|file|) && Consistent(packets)
      && Collected(packets) == file
      && (StopsAfter(packets, |file|, |packets|) <==> file != [])
      && (forall k :: 0 <= k < |packets| ==> |Collected(packets[..k])| < |file|)
      && (forall k :: 0 <= k < |packets| ==>
           packets[k].totalLen == 12 + |packets[k].data| && 0 < |packets[k].data| <= 10000)
  {
    var packets := AsPackets(Pieces(file));
    PiecesCount(file);
    PiecesJoin(file);
    CollectedIsJoin(Pieces(file));
    assert packets[..|packets|] == packets;
    forall k | 0 <= k < |packets|
      ensures |Collected(packets[..k])| < |file|
    {
      CollectedGrows(packets, k, |packets|);
    }
  }

  /** The two loops together, for every file whose size fits the 32-bit size field. */
  method DownloadFile(file: seq<int>, openOk: bool) returns (r: Received)
    requires |file| < 0x1_0000_0000
    ensures r == if |file| >= 0x8000_0000 || !openOk then Failed(1)
                 else if file == [] then Starved
                 else Complete(file, (|file| + 9999) / 10000)
  {
    SmallSize(|file|);
    var messages := ServeRequest(Some(file), openOk);
    ServedConsistent(file, messages);
    r := ReceiveFile(messages, |file|);
    if messages == [FileResFail] {
      RefusedResult(|file|, r);
    } else {
      UnchangedResult(file, r);
    }
  }

  lemma ServedConsistent(file: seq<int>, messages: seq<Message>)
    requires messages == [FileResFail] || messages == AsMessages(AsPackets(Pieces(file)))
    ensures Consistent(Successes(messages))
    ensures messages != [FileResFail] ==> Successes(messages) == AsPackets(Pieces(file)) && |messages| == |Pieces(file)|
    ensures messages == AsMessages(AsPackets(Pieces(file))) ==> messages != [FileResFail]
  {
    SuccessesOf(AsPackets(Pieces(file)));
    DownloadRoundTrip(file);
    assert messages == [FileResFail] ==> Successes(messages) == [];
    assert messages == AsMessages(AsPackets(Pieces(file))) && messages != [] ==> messages[0].FileResSuccess?;
  }

  lemma RefusedResult(fileSize: nat, r: Received)
    requires Result(Successes([FileResFail]), 1, fileSize, r)
    ensures r == Failed(1)
  {
    assert Successes([FileResFail]) == [];
  }

  lemma SmallSize(n: nat)
    requires n < WORD
    ensures n % WORD == n && WORD == 0x1_0000_0000 && INT_LIMIT == 0x8000_0000
  {
  }

  lemma UnchangedResult(file: seq<int>, r: Received)
    requires Result(AsPackets(Pieces(file)), |Pieces(file)|, |file|, r)
    ensures r == if file == [] then Starved else Complete(file, (|file| + 9999) / 10000)
  {
    var packets := AsPackets(Pieces(file));
    DownloadRoundTrip(file);
    assert packets[..|packets|] == packets;
  }

  /** The advertised size is the end of a packet of the file. */
  predicate OnBoundary(advertised: nat, size: nat) {
    0 < advertised && (advertised == size || (advertised < size && advertised % 10000 == 0))
  }

  /** If the file has changed size since it was reported, the receiver completes exactly when the
      advertised size falls on a packet boundary of the new contents. */
  method DownloadChangedFile(file: seq<int>, advertised: nat) returns (r: Received)
    requires |file| < INT_LIMIT
    ensures r.Complete? <==> OnBoundary(advertised, |file|)
    ensures r.Complete? ==> r.buffer == file[..advertised]
  {
    DownloadRoundTrip(file);
    var packets := SendFile(file);
    SuccessesOf(packets);
    r := ReceiveFile(AsMessages(packets), advertised);
    ChangedResult(file, advertised, r);
  }

  lemma ChangedResult(file: seq<int>, advertised: nat, r: Received)
    requires Result(AsPackets(Pieces(file)), |Pieces(file)|, advertised, r)
    ensures r.Complete? <==> OnBoundary(advertised, |file|)
    ensures r.Complete? ==> r.buffer == file[..advertised]
  {
    var packets := AsPackets(Pieces(file));
    if OnBoundary(advertised, |file|) {
      BoundaryExists(file, advertised);
    }
    if r.Complete? {
      BoundaryOnly(file, r.used);
    } else if r.Overrun? {
      NoBoundaryBehind(packets, advertised, r.used);
    }
  }

  /** After k < |packets| packets exactly k * DATA_SIZE bytes have been collected. */
  lemma {:induction false} BoundaryAt(file: seq<int>, k: nat)
    requires k < |Pieces(file)|
    ensures k * 10000 < |file| && Collected(AsPackets(Pieces(file))[..k]) == file[..k * 10000]
  {
    var packets := AsPackets(Pieces(file));
    PiecesCount(file);
    if k > 0 {
      BoundaryAt(file, k - 1);
      PieceAt(file, k - 1);
      assert packets[..k][..k - 1] == packets[..k - 1];
      assert file[..(k - 1) * DATA_SIZE] + file[(k - 1) * DATA_SIZE..k * DATA_SIZE] == file[..k * DATA_SIZE];
    }
  }

  lemma SliceOfTail(file: seq<int>, from: nat, a: nat, b: nat)
    requires from <= |file| && a <= b <= |file| - from
    ensures file[from..][a..b] == file[from + a..from + b]
  {
  }

  lemma {:induction false} PieceAt(file: seq<int>, k: nat)
    requires k + 1 < |Pieces(file)|
    ensures (k + 1) * DATA_SIZE < |file|
    ensures Pieces(file)[k] == file[k * DATA_SIZE..(k + 1) * DATA_SIZE]
    decreases k
  {
    if k > 0 {
      PieceAt(file[DATA_SIZE..], k - 1);
      SliceOfTail(file, DATA_SIZE, (k - 1) * DATA_SIZE, k * DATA_SIZE);
    } else {
      PiecesCount(file);
    }
  }

  lemma BoundaryOnly(file: seq<int>, k: nat)
    requires 0 < k <= |Pieces(file)|
    ensures var got := Collected(AsPackets(Pieces(file))[..k]);
      && got <= file && 0 < |got|
      && (|got| == |file| || |got| % DATA_SIZE == 0)
  {
    var packets := AsPackets(Pieces(file));
    DownloadRoundTrip(file);
    CollectedGrows(packets, 0, k);
    if k < |packets| {
      BoundaryAt(file, k);
    } else {
      assert packets[..k] == packets;
    }
  }

  lemma BoundaryExists(file: seq<int>, size: nat)
    requires OnBoundary(size, |file|)
    ensures exists k :: 0 < k <= |Pieces(file)| && |Collected(AsPackets(Pieces(file))[..k])| == size
  {
    var packets := AsPackets(Pieces(file));
    DownloadRoundTrip(file);
    if size == |file| {
      assert packets[..|packets|] == packets;
    } else {
      PiecesCount(file);
      BoundaryAt(file, size / DATA_SIZE);
    }
  }

  lemma NoBoundaryBehind(packets: seq<Packet>, size: nat, used: nat)
    requires forall i :: 0 <= i < |packets| ==> packets[i].data != []
    requires 0 < used <= |packets| && |Collected(packets[..used])| > size
    requires forall j :: 0 < j < used ==> |Collected(packets[..j])| != size
    ensures forall j :: 0 < j <= |packets| ==> |Collected(packets[..j])| != size
  {
    forall j | used <= j <= |packets|
      ensures |Collected(packets[..j])| != size
    {
      CollectedGrows(packets, used, j);
    }
  }
}
