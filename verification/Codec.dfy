/** Names and messages that carry parts: the directory entry ".name.k", the 100-byte header
    "size k" in front of every payload, and the terminator "0 0". */
module Codec {
  import opened CStrings

  // A part as it travels: the text of the header's second word, and the payload.
  datatype Piece = Piece(tag: string, data: string)

  /** The part number 1..4 as text, for part index 0..3. */
  function Label(k: nat): string
    requires k < 4
  {
    [DigitChar(k + 1)]
  }

  lemma LabelIsNumber(k: nat)
    requires k < 4
    ensures Label(k) == Itoa(k + 1) && Atoi(Label(k)) == k + 1 && IsWord(Label(k))
  {
    AtoiOfItoa(k + 1);
    ItoaShape(k + 1);
  }

  // ----- directory entries -----

  function EntryName(name: string, tag: string): string {
    "." + name + "." + tag
  }

  /** What the server's get compares: the name after the first character, and the length. */
  predicate NameMatches(entry: string, name: string) {
    |entry| == |name| + 3 && entry[1..1 + |name|] == name
  }

  function LastChar(entry: string): char
    requires entry != ""
  {
    entry[|entry| - 1]
  }

  /** Every file that a put creates has such a name. */
  predicate IsPartName(entry: string) {
    3 <= |entry| && entry[0] == '.' && entry[|entry| - 2] == '.' && '1' <= LastChar(entry) <= '4'
  }

  lemma EntryNameShape(name: string, k: nat)
    requires k < 4
    ensures var e := EntryName(name, Label(k));
            IsPartName(e) && NameMatches(e, name) && LastChar(e) == DigitChar(k + 1)
  {
  }

  /** Among part names the server's comparison identifies one file: the part asked for of the
      name asked for, even when names contain dots and digits. */
  lemma MatchIsExact(entry: string, name: string, k: nat)
    requires k < 4 && IsPartName(entry)
    ensures NameMatches(entry, name) && LastChar(entry) == DigitChar(k + 1)
            <==> entry == EntryName(name, Label(k))
  {
    EntryNameShape(name, k);
    if NameMatches(entry, name) && LastChar(entry) == DigitChar(k + 1) {
      assert entry == [entry[0]] + entry[1..1 + |name|] + [entry[|entry| - 2]] + [LastChar(entry)];
    }
  }

  lemma EntryNameInjective(n1: string, k1: nat, n2: string, k2: nat)
    requires k1 < 4 && k2 < 4
    ensures EntryName(n1, Label(k1)) == EntryName(n2, Label(k2)) <==> n1 == n2 && k1 == k2
  {
    EntryNameShape(n1, k1);
    EntryNameShape(n2, k2);
    if EntryName(n1, Label(k1)) == EntryName(n2, Label(k2)) {
      assert EntryName(n1, Label(k1))[1..1 + |n1|] == n1;
    }
  }

  // ----- headers and payloads -----

  function Header(piece: Piece): string {
    Block(Line([Itoa(|piece.data|), piece.tag]), FIELD)
  }

  function Message(piece: Piece): string {
    Header(piece) + piece.data
  }

  function Encode(pieces: seq<Piece>): string {
    if pieces == [] then "" else Message(pieces[0]) + Encode(pieces[1..])
  }

  function Terminator(): string {
    Block("0 0", FIELD)
  }

  function HeaderSize(block: string): int { Atoi(Token(CStr(block), 0)) }
  function HeaderLabel(block: string): string { Token(CStr(block), 1) }

  /** The client's test for "no more parts". */
  predicate IsTerminator(block: string)
    requires |block| == FIELD
  {
    block[0] == '0' && block[2] == '0'
  }

  /** The pieces a sender may put on the wire. */
  predicate Sendable(piece: Piece) {
    |piece.data| < INT_LIMIT && exists k: nat :: k < 4 && piece.tag == Label(k)
  }

  predicate AllSendable(pieces: seq<Piece>) {
    forall p | p in pieces :: Sendable(p)
  }

  /** A header gives back the size and the tag, and no header is taken for the terminator,
      not even the header of an empty part. */
  lemma HeaderRoundTrip(piece: Piece)
    requires Sendable(piece)
    ensures HeaderSize(Header(piece)) == |piece.data| && HeaderLabel(Header(piece)) == piece.tag
    ensures !IsTerminator(Header(piece))
  {
    var k: nat :| k < 4 && piece.tag == Label(k);
    LabelIsNumber(k);
    var size := Itoa(|piece.data|);
    ItoaShape(|piece.data|);
    IntLength(|piece.data|);
    AtoiOfItoa(|piece.data|);
    var words := [size, piece.tag];
    assert Spaced([piece.tag]) == " " + piece.tag by {
      assert Spaced([piece.tag]) == " " + piece.tag + Spaced([]);
    }
    assert Line(words) == size + (" " + piece.tag) by {
      assert words[1..] == [piece.tag];
    }
    BlockRoundTrip(words);
    assert Header(piece)[0] == size[0];
    assert size == "0" ==> Header(piece)[2] == piece.tag[0];
    assert |piece.data| == 0 ==> size == "0";
  }

  lemma TerminatorIsRecognised()
    ensures IsTerminator(Terminator())
  {
    assert Terminator()[0] == "0 0"[0] && Terminator()[2] == "0 0"[2];
  }

  lemma Slices(block: string, data: string, later: string)
    requires |block| == FIELD
    ensures var stream := block + data + later;
            stream[..FIELD] == block && stream[FIELD..FIELD + |data|] == data
            && stream[FIELD + |data|..] == later
  {
  }

  // ----- the put receiver -----

  /** The stream holds n headers, each followed by as many bytes as it announces. */
  predicate HoldsPieces(stream: string, n: nat) {
    n == 0 ||
    (FIELD <= |stream| &&
     0 <= HeaderSize(stream[..FIELD]) <= |stream| - FIELD &&
     HoldsPieces(stream[FIELD + HeaderSize(stream[..FIELD])..], n - 1))
  }

  function DecodePut(stream: string, n: nat): (pieces: seq<Piece>)
    requires HoldsPieces(stream, n)
    ensures |pieces| == n
  {
    if n == 0 then []
    else
      var size := HeaderSize(stream[..FIELD]);
      [Piece(HeaderLabel(stream[..FIELD]), stream[FIELD..FIELD + size])]
        + DecodePut(stream[FIELD + size..], n - 1)
  }

  /** The put stream round trip: whatever bytes the payloads hold, also ones that read like
      headers, the receiver recovers exactly the labelled pieces that were sent. */
  lemma {:induction false} PutRoundTrip(pieces: seq<Piece>, rest: string)
    requires AllSendable(pieces)
    ensures HoldsPieces(Encode(pieces) + rest, |pieces|)
    ensures DecodePut(Encode(pieces) + rest, |pieces|) == pieces
  {
    if pieces != [] {
      var p, later := pieces[0], Encode(pieces[1..]) + rest;
      PutRoundTrip(pieces[1..], rest);
      DecodePutStep(p, later, |pieces| - 1);
      Associates(Message(p), Encode(pieces[1..]), rest);
      assert [p] + pieces[1..] == pieces;
    }
  }

  lemma DecodePutStep(p: Piece, later: string, n: nat)
    requires Sendable(p) && HoldsPieces(later, n)
    ensures HoldsPieces(Message(p) + later, n + 1)
    ensures DecodePut(Message(p) + later, n + 1) == [p] + DecodePut(later, n)
  {
    HeaderRoundTrip(p);
    Slices(Header(p), p.data, later);
  }

  // ----- the get receiver -----

  /** A server's answer to a get that may send n parts: the pieces it has, and the terminator
      when there are fewer than n. */
  function EncodeReply(pieces: seq<Piece>, n: nat): string
    requires |pieces| <= n
  {
    if n == 0 then ""
    else if pieces == [] then Terminator()
    else Message(pieces[0]) + EncodeReply(pieces[1..], n - 1)
  }

  /** The client reads up to n headers and stops early at a terminator. */
  predicate HoldsReply(stream: string, n: nat) {
    n == 0 ||
    (FIELD <= |stream| &&
     (IsTerminator(stream[..FIELD]) ||
      (0 <= HeaderSize(stream[..FIELD]) <= |stream| - FIELD &&
       HoldsReply(stream[FIELD + HeaderSize(stream[..FIELD])..], n - 1))))
  }

  function DecodeReply(stream: string, n: nat): (pieces: seq<Piece>)
    requires HoldsReply(stream, n)
    ensures |pieces| <= n
  {
    if n == 0 || IsTerminator(stream[..FIELD]) then []
    else
      var size := HeaderSize(stream[..FIELD]);
      [Piece(HeaderLabel(stream[..FIELD]), stream[FIELD..FIELD + size])]
        + DecodeReply(stream[FIELD + size..], n - 1)
  }

  /** The get reply round trip: the client recovers the pieces and stops where the server did. */
  lemma {:induction false} ReplyRoundTrip(pieces: seq<Piece>, n: nat)
    requires AllSendable(pieces) && |pieces| <= n
    ensures HoldsReply(EncodeReply(pieces, n), n) && DecodeReply(EncodeReply(pieces, n), n) == pieces
  {
    hide Message, DecodeReply, HoldsReply, Sendable;
    if pieces != [] {
      var p, later := pieces[0], EncodeReply(pieces[1..], n - 1);
      assert Sendable(p);
      ReplyRoundTrip(pieces[1..], n - 1);
      assert EncodeReply(pieces, n) == Message(p) + later;
      assert [p] + pieces[1..] == pieces;
      DecodeReplyStep(p, later, n - 1);
    } else {
      EmptyReply(n);
    }
  }

  lemma EmptyReply(n: nat)
    ensures HoldsReply(EncodeReply([], n), n) && DecodeReply(EncodeReply([], n), n) == []
  {
    if n > 0 {
      var end := Terminator();
      TerminatorIsRecognised();
      assert end[..FIELD] == end;
    }
  }

  /** In the bytes: the messages, and a terminator exactly when a part is missing. */
  lemma {:induction false} ReplyShape(pieces: seq<Piece>, n: nat)
    requires |pieces| <= n
    ensures EncodeReply(pieces, n) == Encode(pieces) + if |pieces| < n then Terminator() else ""
  {
    if pieces != [] {
      ReplyShape(pieces[1..], n - 1);
      Associates(Message(pieces[0]), Encode(pieces[1..]), if |pieces| < n then Terminator() else "");
    }
  }

  lemma DecodeReplyStep(p: Piece, later: string, n: nat)
    requires Sendable(p) && HoldsReply(later, n)
    ensures HoldsReply(Message(p) + later, n + 1)
    ensures DecodeReply(Message(p) + later, n + 1) == [p] + DecodeReply(later, n)
  {
    HeaderRoundTrip(p);
    Slices(Header(p), p.data, later);
  }

}
