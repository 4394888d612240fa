/** The four byte loops of the file system, under every behaviour of read and write that does
    not fail: each call may move fewer bytes than it was asked to. A schedule lists what each
    call of one loop moved. */
module Transfer {
  import opened CStrings

  const MAXBUF: nat := 8192

  /** All four loops count down the same way: while more than MAXBUF bytes are left a call moves
      1..MAXBUF of them and they are subtracted; the last call ends the loop whatever it moved. */
  predicate IsSchedule(left: nat, counts: seq<nat>)
    decreases left
  {
    if left == 0 then counts == []
    else if left > MAXBUF then
      counts != [] && 1 <= counts[0] <= MAXBUF && IsSchedule(left - counts[0], counts[1..])
    else |counts| == 1 && counts[0] <= left
  }

  predicate LastFull(left: nat, counts: seq<nat>)
    requires IsSchedule(left, counts)
    decreases left
  {
    if left == 0 then true
    else if left > MAXBUF then LastFull(left - counts[0], counts[1..])
    else counts[0] == left
  }

  predicate AllFull(left: nat, counts: seq<nat>)
    requires IsSchedule(left, counts)
    decreases left
  {
    if left == 0 then true
    else if left > MAXBUF then counts[0] == MAXBUF && AllFull(left - counts[0], counts[1..])
    else counts[0] == left
  }

  /** Full calls: 8192 bytes each, and what is left in the last. */
  lemma {:induction false} AllFullIff(left: nat, counts: seq<nat>)
    requires IsSchedule(left, counts)
    ensures AllFull(left, counts) <==>
            |counts| == (left + 8191) / 8192 &&
            forall i | 0 <= i < |counts| :: counts[i] == if i < |counts| - 1 then 8192 else left - 8192 * i
    decreases left
  {
    if left > MAXBUF && counts[0] == 8192 {
      var later := counts[1..];
      AllFullIff(left - 8192, later);
      assert (left - 8192 + 8191) / 8192 == (left + 8191) / 8192 - 1;
      assert forall i | 1 <= i < |counts| :: counts[i] == later[i - 1];
      assert forall i | 0 <= i < |later| :: later[i] == counts[i + 1];
    } else if 0 < left <= MAXBUF {
      assert (left + 8191) / 8192 == 1;
    }
  }

  /** The next call of a loop, and the schedule of the calls behind it. */
  lemma NextCall(left: nat, counts: seq<nat>, call: nat)
    requires call <= |counts| && left > 0 && IsSchedule(left, counts[call..])
    ensures call < |counts| && counts[call..][0] == counts[call] <= left && counts[call..][1..] == counts[call + 1..]
    ensures left > MAXBUF ==> 1 <= counts[call] <= MAXBUF && IsSchedule(left - counts[call], counts[call + 1..])
  {
    assert counts[call..] != [];
    assert counts[call..][1..] == counts[call + 1..];
  }

  // ----- the client's send loop -----

  function ClientSent(data: string, counts: seq<nat>): string
    requires IsSchedule(|data|, counts)
    decreases |data|
  {
    if data == "" then ""
    else if |data| > MAXBUF then data[..counts[0]] + ClientSent(data[counts[0]..], counts[1..])
    else data[..counts[0]]
  }

  lemma NothingSent(data: string, counts: seq<nat>)
    requires IsSchedule(|data|, counts)
    ensures data == "" ==> ClientSent(data, counts) == ""
  {
  }

  lemma SentNext(data: string, at: nat, counts: seq<nat>, call: nat)
    requires at < |data| && call <= |counts| && IsSchedule(|data| - at, counts[call..])
    ensures call < |counts| && counts[call] <= |data| - at
    ensures |data| - at > MAXBUF ==>
              IsSchedule(|data| - at - counts[call], counts[call + 1..]) &&
              ClientSent(data[at..], counts[call..])
              == data[at..at + counts[call]] + ClientSent(data[at + counts[call]..], counts[call + 1..])
    ensures |data| - at <= MAXBUF ==> ClientSent(data[at..], counts[call..]) == data[at..at + counts[call]]
  {
    NextCall(|data| - at, counts, call);
    assert data[at..][counts[call]..] == data[at + counts[call]..];
    assert data[at..][..counts[call]] == data[at..at + counts[call]];
  }

  method ClientSend(data: string, counts: seq<nat>) returns (sent: string)
    requires IsSchedule(|data|, counts)
    ensures sent == ClientSent(data, counts)
  {
    hide IsSchedule, ClientSent;
    sent := "";
    var bytesLeft, bytesRead, call := |data|, 0, 0;
    assert data[0..] == data && counts[0..] == counts;
    NothingSent(data, counts);
    while bytesLeft != 0
      invariant 0 <= bytesRead && 0 <= bytesLeft && call <= |counts|
      invariant bytesLeft > 0 ==> bytesRead + bytesLeft == |data|
      invariant bytesLeft > 0 ==> IsSchedule(bytesLeft, counts[call..])
      invariant bytesLeft > 0 ==> sent + ClientSent(data[bytesRead..], counts[call..]) == ClientSent(data, counts)
      invariant bytesLeft == 0 ==> sent == ClientSent(data, counts)
      decreases bytesLeft
    {
      NextCall(bytesLeft, counts, call);
      SentNext(data, bytesRead, counts, call);
      var n := counts[call];
      ghost var before := sent;
      if bytesLeft > MAXBUF {
        var buf := data[bytesRead..bytesRead + MAXBUF];
        sent := sent + buf[..n];
        assert data[bytesRead..bytesRead + n] == buf[..n];
        Associates(before, buf[..n], ClientSent(data[bytesRead + n..], counts[call + 1..]));
        bytesRead := bytesRead + n;
        bytesLeft := bytesLeft - n;
      } else {
        var buf := data[bytesRead..bytesRead + bytesLeft];
        sent := sent + buf[..n];
        assert data[bytesRead..bytesRead + n] == buf[..n];
        bytesLeft := 0;
      }
      call := call + 1;
    }
  }

  /** The client's send loop emits a prefix of the part in every case, and the whole part exactly
      when the last write takes all it is given: earlier short writes do no harm. */
  lemma {:induction false} ClientSendExact(data: string, counts: seq<nat>)
    requires IsSchedule(|data|, counts)
    ensures ClientSent(data, counts) <= data
    ensures ClientSent(data, counts) == data <==> LastFull(|data|, counts)
    decreases |data|
  {
    if |data| > MAXBUF {
      var n := counts[0];
      ClientSendExact(data[n..], counts[1..]);
      assert data == data[..n] + data[n..];
    }
  }

  // ----- the client's receive loop -----

  /** What the loop rebuilds from the stream, and what it leaves unread. */
  function ClientReceived(stream: string, left: nat, counts: seq<nat>): (string, string)
    requires IsSchedule(left, counts) && left <= |stream|
    decreases left
  {
    if left == 0 then ("", stream)
    else if left > MAXBUF then
      var (data, rest) := ClientReceived(stream[counts[0]..], left - counts[0], counts[1..]);
      (stream[..counts[0]] + data, rest)
    else (stream[..counts[0]] + Zeros(left - counts[0]), stream[counts[0]..])
  }

  /** memcpy of a whole buffer into the part at an offset. */
  method CopyInto(part: array<char>, at: nat, buf: string)
    requires at + |buf| <= part.Length
    modifies part
    ensures forall n | 0 <= n <= |buf| :: part[..at + n] == old(part[..at]) + buf[..n]
  {
    forall i | 0 <= i < |buf| {
      part[at + i] := buf[i];
    }
  }

  /** A zeroed buffer with what a read delivered, copied whole. */
  method CopyBuffer(part: array<char>, at: nat, read: string, size: nat)
    requires |read| <= size && at + size <= part.Length
    modifies part
    ensures part[..at + |read|] == old(part[..at]) + read
    ensures part[..at + size] == old(part[..at]) + (read + Zeros(size - |read|))
  {
    var buf := read + Zeros(size - |read|);
    CopyInto(part, at, buf);
    assert buf[..|read|] == read && buf[..size] == buf;
  }

  lemma NothingReceived(stream: string, counts: seq<nat>)
    ensures IsSchedule(0, counts) ==> ClientReceived(stream, 0, counts) == ("", stream)
  {
  }

  lemma ReceivedNext(stream: string, left: nat, counts: seq<nat>, call: nat)
    requires 0 < left <= |stream| && call <= |counts| && IsSchedule(left, counts[call..])
    ensures call < |counts| && counts[call] <= left
    ensures left > MAXBUF ==>
              IsSchedule(left - counts[call], counts[call + 1..]) &&
              var (data, rest) := ClientReceived(stream[counts[call]..], left - counts[call], counts[call + 1..]);
              ClientReceived(stream, left, counts[call..]) == (stream[..counts[call]] + data, rest)
    ensures left <= MAXBUF ==>
              ClientReceived(stream, left, counts[call..])
              == (stream[..counts[call]] + Zeros(left - counts[call]), stream[counts[call]..])
  {
    NextCall(left, counts, call);
  }

  /** Every pass copies a whole zeroed buffer of MAXBUF bytes, past what the read delivered; the
      extra bytes stay inside the part and the next pass overwrites them. */
  method ClientReceive(stream: string, size: nat, counts: seq<nat>) returns (part: array<char>, rest: string)
    requires IsSchedule(size, counts) && size <= |stream|
    ensures fresh(part)
    ensures var (data, after) := ClientReceived(stream, size, counts); part[..] == data && rest == after
  {
    hide IsSchedule, ClientReceived;
    part := new char[size](_ => NUL);
    rest := stream;
    var bytesLeft, bytesRead, call := size, 0, 0;
    ghost var result := ClientReceived(stream, size, counts);
    assert counts[0..] == counts;
    NothingReceived(stream, counts);
    while bytesLeft != 0
      invariant 0 <= bytesLeft && bytesRead + bytesLeft == size && call <= |counts|
      invariant bytesLeft > 0 ==> bytesLeft <= |rest| && IsSchedule(bytesLeft, counts[call..])
      invariant bytesLeft > 0 ==>
                  var (data, after) := ClientReceived(rest, bytesLeft, counts[call..]);
                  part[..bytesRead] + data == result.0 && after == result.1
      invariant bytesLeft == 0 ==> part[..] == result.0 && rest == result.1
      decreases bytesLeft
    {
      NextCall(bytesLeft, counts, call);
      ReceivedNext(rest, bytesLeft, counts, call);
      var n := counts[call];
      ghost var before := part[..bytesRead];
      if bytesLeft > MAXBUF {
        CopyBuffer(part, bytesRead, rest[..n], MAXBUF);
        Associates(before, rest[..n], ClientReceived(rest[n..], bytesLeft - n, counts[call + 1..]).0);
        rest := rest[n..];
        bytesRead := bytesRead + n;
        bytesLeft := bytesLeft - n;
      } else {
        CopyBuffer(part, bytesRead, rest[..n], bytesLeft);
        assert part[..] == part[..size];
        rest := rest[n..];
        bytesRead := bytesRead + bytesLeft;
        bytesLeft := 0;
      }
      call := call + 1;
    }
  }

  /** The receive loop rebuilds exactly the next `left` bytes and stops right behind them if and
      only if the last read is full. */
  lemma {:induction false} ClientReceiveExact(stream: string, left: nat, counts: seq<nat>)
    requires IsSchedule(left, counts) && left <= |stream|
    ensures |ClientReceived(stream, left, counts).0| == left
    ensures var (data, rest) := ClientReceived(stream, left, counts);
            data == stream[..left] && rest == stream[left..] <==> LastFull(left, counts)
    decreases left
  {
    if left > MAXBUF {
      var n := counts[0];
      ClientReceiveExact(stream[n..], left - n, counts[1..]);
      var (data, rest) := ClientReceived(stream[n..], left - n, counts[1..]);
      assert stream[n..][..left - n] == stream[n..left] && stream[n..][left - n..] == stream[left..];
      assert stream[..left] == stream[..n] + stream[n..left];
      assert (stream[..n] + data)[n..] == data;
    } else if left > 0 {
      assert |stream[counts[0]..]| == |stream[left..]| <==> counts[0] == left;
    }
  }

  // ----- the server's put loop -----

  /** It appends a whole buffer to the file for every read above MAXBUF, but counts what it read. */
  function ServerStored(stream: string, left: nat, counts: seq<nat>): (string, string)
    requires IsSchedule(left, counts) && left <= |stream|
    decreases left
  {
    if left == 0 then ("", stream)
    else if left > MAXBUF then
      var (data, rest) := ServerStored(stream[counts[0]..], left - counts[0], counts[1..]);
      (stream[..counts[0]] + Zeros(MAXBUF - counts[0]) + data, rest)
    else (stream[..counts[0]] + Zeros(left - counts[0]), stream[counts[0]..])
  }

  lemma NothingStored(stream: string, counts: seq<nat>)
    ensures IsSchedule(0, counts) ==> ServerStored(stream, 0, counts) == ("", stream)
  {
  }

  lemma StoredNext(stream: string, left: nat, counts: seq<nat>, call: nat)
    requires 0 < left <= |stream| && call <= |counts| && IsSchedule(left, counts[call..])
    ensures call < |counts| && counts[call] <= left
    ensures left > MAXBUF ==>
              counts[call] <= MAXBUF && IsSchedule(left - counts[call], counts[call + 1..]) &&
              var (data, rest) := ServerStored(stream[counts[call]..], left - counts[call], counts[call + 1..]);
              ServerStored(stream, left, counts[call..])
              == (stream[..counts[call]] + Zeros(MAXBUF - counts[call]) + data, rest)
    ensures left <= MAXBUF ==>
              ServerStored(stream, left, counts[call..])
              == (stream[..counts[call]] + Zeros(left - counts[call]), stream[counts[call]..])
  {
    NextCall(left, counts, call);
  }

  /** What a short read does to the file: zeros up to a whole buffer stand between the bytes that came
      and those that come next. */
  lemma ShortRead(stream: string, size: nat, counts: seq<nat>)
    requires IsSchedule(size, counts) && 8192 < size <= |stream|
    ensures var n, stored := counts[0], ServerStored(stream, size, counts).0;
            n <= 8192 <= |stored| && stored[..n] == stream[..n] && forall i | n <= i < 8192 :: stored[i] == NUL
  {
    var n, stored := counts[0], ServerStored(stream, size, counts).0;
    var data := ServerStored(stream[n..], size - n, counts[1..]).0;
    assert stored == stream[..n] + Zeros(8192 - n) + data;
    hide ServerStored, IsSchedule;
    assert forall i | 0 <= i < 8192 :: stored[i] == (stream[..n] + Zeros(8192 - n))[i];
  }

  method ServerStore(stream: string, size: nat, counts: seq<nat>) returns (file: string, rest: string)
    requires IsSchedule(size, counts) && size <= |stream|
    ensures var (data, after) := ServerStored(stream, size, counts); file == data && rest == after
  {
    hide IsSchedule, ServerStored;
    file, rest := "", stream;
    var bytesLeft, call := size, 0;
    ghost var result := ServerStored(stream, size, counts);
    assert counts[0..] == counts;
    NothingStored(stream, counts);
    while bytesLeft != 0
      invariant 0 <= bytesLeft && call <= |counts|
      invariant bytesLeft > 0 ==> bytesLeft <= |rest| && IsSchedule(bytesLeft, counts[call..])
      invariant bytesLeft > 0 ==>
                  var (data, after) := ServerStored(rest, bytesLeft, counts[call..]);
                  file + data == result.0 && after == result.1
      invariant bytesLeft == 0 ==> file == result.0 && rest == result.1
      decreases bytesLeft
    {
      NextCall(bytesLeft, counts, call);
      StoredNext(rest, bytesLeft, counts, call);
      var n := counts[call];
      if bytesLeft > MAXBUF {
        Associates(file, rest[..n] + Zeros(MAXBUF - n),
                   ServerStored(rest[n..], bytesLeft - n, counts[call + 1..]).0);
        file := file + (rest[..n] + Zeros(MAXBUF - n));
        bytesLeft := bytesLeft - n;
      } else {
        file := file + (rest[..n] + Zeros(bytesLeft - n));
        bytesLeft := 0;
      }
      rest := rest[n..];
      call := call + 1;
    }
  }

  /** The server's put loop stores the payload and stops at the next header if and only if
      every read is full, so one short read damages a part longer than a buffer. */
  lemma {:induction false} ServerStoreExact(stream: string, left: nat, counts: seq<nat>)
    requires IsSchedule(left, counts) && left <= |stream|
    ensures |ServerStored(stream, left, counts).0| >= left
    ensures var (data, rest) := ServerStored(stream, left, counts);
            data == stream[..left] && rest == stream[left..] <==> AllFull(left, counts)
    decreases left
  {
    if left > MAXBUF {
      var n := counts[0];
      ServerStoreExact(stream[n..], left - n, counts[1..]);
      var (data, rest) := ServerStored(stream[n..], left - n, counts[1..]);
      assert stream[n..][..left - n] == stream[n..left] && stream[n..][left - n..] == stream[left..];
      assert stream[..left] == stream[..n] + stream[n..left];
      var file := stream[..n] + Zeros(MAXBUF - n) + data;
      assert |file| == MAXBUF + |data|;
      if n == MAXBUF {
        assert file == stream[..n] + data;
        assert file[n..] == data;
      }
    } else if left > 0 {
      assert |stream[counts[0]..]| == |stream[left..]| <==> counts[0] == left;
    }
  }

  // ----- the server's get loop -----

  /** fread into a zeroed buffer: up to n bytes at the file position, short at the end. */
  function FileChunk(file: string, position: nat, n: nat): (chunk: string)
    ensures |chunk| == n
  {
    if position >= |file| then Zeros(n)
    else if position + n <= |file| then file[position..position + n]
    else file[position..] + Zeros(position + n - |file|)
  }

  /** The file position moves by MAXBUF per chunk while the count goes down by what was written. */
  function ServerSent(file: string, position: nat, left: nat, counts: seq<nat>): string
    requires IsSchedule(left, counts)
    decreases left
  {
    if left == 0 then ""
    else if left > MAXBUF then
      FileChunk(file, position, MAXBUF)[..counts[0]]
        + ServerSent(file, position + MAXBUF, left - counts[0], counts[1..])
    else FileChunk(file, position, left)[..counts[0]]
  }

  lemma NothingToSend(file: string, counts: seq<nat>)
    ensures IsSchedule(0, counts) ==> ServerSent(file, 0, 0, counts) == ""
  {
  }

  lemma SentByServerNext(file: string, position: nat, left: nat, counts: seq<nat>, call: nat)
    requires 0 < left && call <= |counts| && IsSchedule(left, counts[call..])
    ensures call < |counts| && counts[call] <= left
    ensures left > MAXBUF ==>
              counts[call] <= MAXBUF && IsSchedule(left - counts[call], counts[call + 1..]) &&
              ServerSent(file, position, left, counts[call..])
              == FileChunk(file, position, MAXBUF)[..counts[call]]
                 + ServerSent(file, position + MAXBUF, left - counts[call], counts[call + 1..])
    ensures left <= MAXBUF ==>
              ServerSent(file, position, left, counts[call..]) == FileChunk(file, position, left)[..counts[call]]
  {
    hide FileChunk;
    NextCall(left, counts, call);
  }

  method ServerSend(file: string, counts: seq<nat>) returns (sent: string)
    requires IsSchedule(|file|, counts)
    ensures sent == ServerSent(file, 0, |file|, counts)
  {
    hide IsSchedule, ServerSent, FileChunk;
    sent := "";
    var bytesLeft, position, call := |file|, 0, 0;
    assert counts[0..] == counts;
    NothingToSend(file, counts);
    while bytesLeft != 0
      invariant 0 <= bytesLeft && 0 <= position && call <= |counts|
      invariant bytesLeft > 0 ==> IsSchedule(bytesLeft, counts[call..])
      invariant bytesLeft > 0 ==>
                  sent + ServerSent(file, position, bytesLeft, counts[call..]) == ServerSent(file, 0, |file|, counts)
      invariant bytesLeft == 0 ==> sent == ServerSent(file, 0, |file|, counts)
      decreases bytesLeft
    {
      NextCall(bytesLeft, counts, call);
      SentByServerNext(file, position, bytesLeft, counts, call);
      var n := counts[call];
      if bytesLeft > MAXBUF {
        Associates(sent, FileChunk(file, position, MAXBUF)[..n],
                   ServerSent(file, position + MAXBUF, bytesLeft - n, counts[call + 1..]));
        sent := sent + FileChunk(file, position, MAXBUF)[..n];
        position := position + MAXBUF;
        bytesLeft := bytesLeft - n;
      } else {
        sent := sent + FileChunk(file, position, bytesLeft)[..n];
        bytesLeft := 0;
      }
      call := call + 1;
    }
  }

  lemma {:induction false} ServerSendFull(file: string, position: nat, counts: seq<nat>)
    requires position <= |file| && IsSchedule(|file| - position, counts) && AllFull(|file| - position, counts)
    ensures ServerSent(file, position, |file| - position, counts) == file[position..]
    decreases |file| - position
  {
    if |file| - position > MAXBUF {
      ServerSendFull(file, position + MAXBUF, counts[1..]);
      assert file[position..] == file[position..position + MAXBUF] + file[position + MAXBUF..];
    }
  }

  /** A file on which a schedule with a short write loses bytes: blank but for one mark, which
      the loop skips. */
  lemma {:induction false} ServerSendLoses(position: nat, left: nat, counts: seq<nat>)
    returns (file: string)
    requires IsSchedule(left, counts) && !AllFull(left, counts)
    ensures |file| == position + left
    ensures ServerSent(file, position, left, counts) != file[position..]
    decreases left
  {
    if left > MAXBUF && counts[0] == MAXBUF {
      file := ServerSendLoses(position + MAXBUF, left - MAXBUF, counts[1..]);
      var sent := ServerSent(file, position + MAXBUF, left - MAXBUF, counts[1..]);
      assert ServerSent(file, position, left, counts) == FileChunk(file, position, MAXBUF) + sent;
      assert (FileChunk(file, position, MAXBUF) + sent)[MAXBUF..] == sent;
      assert file[position..][MAXBUF..] == file[position + MAXBUF..];
    } else {
      file := MarkLost(position, left, counts);
    }
  }

  lemma MarkLost(position: nat, left: nat, counts: seq<nat>) returns (file: string)
    requires IsSchedule(left, counts) && left > 0
    requires if left > MAXBUF then counts[0] < MAXBUF else counts[0] < left
    ensures |file| == position + left
    ensures ServerSent(file, position, left, counts) != file[position..]
  {
    var n := counts[0];
    file := Zeros(position + n) + "x" + Zeros(left - n - 1);
    assert file[position..][n] == file[position + n] == 'x';
    if left > MAXBUF {
      var first := FileChunk(file, position, MAXBUF)[..n];
      var sent := ServerSent(file, position + MAXBUF, left - n, counts[1..]);
      BlankAfterMark(file, position + MAXBUF, left - n, counts[1..]);
      assert ServerSent(file, position, left, counts) == first + sent;
      if |sent| > 0 {
        assert (first + sent)[n] == sent[0];
      } else {
        assert |first + sent| == n;
      }
    } else {
      assert |ServerSent(file, position, left, counts)| == n < |file[position..]|;
    }
  }

  predicate IsBlank(s: string) {
    forall i | 0 <= i < |s| :: s[i] == NUL
  }

  lemma {:induction false} BlankAfterMark(file: string, position: nat, left: nat, counts: seq<nat>)
    requires IsSchedule(left, counts)
    requires forall i | position <= i < |file| :: file[i] == NUL
    ensures IsBlank(ServerSent(file, position, left, counts))
    decreases left
  {
    var chunk := FileChunk(file, position, if left > MAXBUF then MAXBUF else left);
    assert IsBlank(chunk);
    if left > MAXBUF {
      BlankAfterMark(file, position + MAXBUF, left - counts[0], counts[1..]);
    }
  }

  /** The server's get loop sends every file of a given length intact if and only if every
      write is full. */
  lemma ServerSendExact(size: nat, counts: seq<nat>)
    requires IsSchedule(size, counts)
    ensures (forall file: string | |file| == size :: ServerSent(file, 0, size, counts) == file)
            <==> AllFull(size, counts)
  {
    if AllFull(size, counts) {
      forall file: string | |file| == size
        ensures ServerSent(file, 0, size, counts) == file
      {
        ServerSendFull(file, 0, counts);
        assert file[0..] == file;
      }
    } else {
      var file := ServerSendLoses(0, size, counts);
      assert file[0..] == file;
    }
  }

  // ----- the network a client meets -----

  /** Some schedule with a full last transfer; its contract is all a caller may rely on, so it
      stands for every such network. */
  method NetworkCounts(size: nat) returns (counts: seq<nat>)
    ensures IsSchedule(size, counts) && LastFull(size, counts)
    decreases size
  {
    if size == 0 {
      counts := [];
    } else if size > MAXBUF {
      var later := NetworkCounts(size - MAXBUF);
      counts := [MAXBUF] + later;
    } else {
      counts := [size];
    }
  }

  /** The schedule of a network that always moves what it is asked to, which the server's
      loops rely on. */
  method FullCounts(size: nat) returns (counts: seq<nat>)
    ensures IsSchedule(size, counts) && AllFull(size, counts)
    decreases size
  {
    if size == 0 {
      counts := [];
    } else if size > MAXBUF {
      var later := FullCounts(size - MAXBUF);
      counts := [MAXBUF] + later;
    } else {
      counts := [size];
    }
  }
}
