// search-app/kosher_search/server.py `_chunk` and `_page_in_two`: a page sent as two
// chunks, and the chunked body's reader of section 7.1 of RFC 9112.
module Chunked {
  import opened Options
  import opened Numerals

  const CRLF: seq<byte> := [0x0d, 0x0a]

  // ---- writing ----

  function ChunkBytes(raw: seq<byte>): seq<byte> {
    Hex(|raw|) + CRLF + raw + CRLF
  }

  const LAST_CHUNK: seq<byte> := [0x30] + CRLF + CRLF

  function Written(chunks: seq<seq<byte>>): seq<byte> {
    if chunks == [] then LAST_CHUNK else ChunkBytes(chunks[0]) + Written(chunks[1..])
  }

  // What the browser has been sent on this connection.
  class Connection {
    var sent: seq<byte>

    constructor ()
      ensures sent == []
    {
      sent := [];
    }

    method Chunk(raw: seq<byte>)
      modifies this
      ensures sent == old(sent) + ChunkBytes(raw)
    {
      sent := sent + (Hex(|raw|) + CRLF + raw + CRLF);
    }

    // The head and the pending note go out at once; the results, or the apology when
    // building them raised, follow with the tail. Only a constant makes the second
    // chunk sure not to be empty.
    method PageInTwo(head: seq<byte>, pending: seq<byte>, style: seq<byte>, results: Option<seq<byte>>,
                     apology: seq<byte>, tail: seq<byte>)
      modifies this
      ensures sent == old(sent) + Written([head + pending, style + (if results.Some? then results.value else apology) + tail])
    {
      Chunk(head + pending);
      ghost var first := ChunkBytes(head + pending);
      var text;
      match results {
        case Some(bytes) => text := bytes;
        case None => text := apology;
      }
      Chunk(style + text + tail);
      sent := sent + LAST_CHUNK;
      WrittenTwo(head + pending, style + text + tail);
      assert sent == old(sent) + (first + (ChunkBytes(style + text + tail) + LAST_CHUNK));
    }
  }

  lemma WrittenTwo(a: seq<byte>, b: seq<byte>)
    ensures Written([a, b]) == ChunkBytes(a) + (ChunkBytes(b) + LAST_CHUNK)
  {
    assert [a, b][1..] == [b] && [b][1..] == [];
    assert Written([b]) == ChunkBytes(b) + Written([]);
  }

  // ---- reading ----

  function HexPrefix(bs: seq<byte>): (k: nat)
    ensures k <= |bs|
    ensures IsHex(bs[..k])
    ensures k < |bs| ==> HexDigit(bs[k]) < 0
  {
    if bs == [] || HexDigit(bs[0]) < 0 then 0
    else
      var k := HexPrefix(bs[1..]);
      assert bs[..k + 1] == [bs[0]] + bs[1..][..k];
      k + 1
  }

  // The offset of the first CRLF, or the length.
  function FindCrlf(bs: seq<byte>): (k: nat)
    ensures k <= |bs|
    ensures k < |bs| ==> k + 2 <= |bs| && bs[k..k + 2] == CRLF
  {
    if |bs| >= 2 && bs[..2] == CRLF then 0
    else if bs == [] then 0
    else
      var k := FindCrlf(bs[1..]);
      assert k < |bs[1..]| ==> bs[k + 1..k + 3] == bs[1..][k..k + 2];
      k + 1
  }

  // A chunk-size line: hexadecimal digits, then whatever extensions up to the CRLF.
  function ReadSize(bs: seq<byte>): (r: Option<(nat, seq<byte>)>)
    ensures r.Some? ==> |r.value.1| < |bs|
  {
    var k := HexPrefix(bs);
    var end := FindCrlf(bs);
    if k == 0 || end == |bs| || end < k then None
    else if end > k && bs[k] != 0x3b then None
    else Some((HexValue(bs[..k]), bs[end + 2..]))
  }

  // Trailer fields up to the empty line.
  function SkipTrailer(bs: seq<byte>): Option<seq<byte>>
    decreases |bs|
  {
    var end := FindCrlf(bs);
    if end == |bs| then None
    else if end == 0 then Some(bs[2..])
    else SkipTrailer(bs[end + 2..])
  }

  // Decoding a chunked body: the data, and the bytes after it.
  function Read(bs: seq<byte>): Option<(seq<byte>, seq<byte>)>
    decreases |bs|
  {
    match ReadSize(bs)
    case None => None
    case Some((0, rest)) =>
      (match SkipTrailer(rest)
       case Some(after) => Some(([], after))
       case None => None)
    case Some((size, rest)) =>
      if |rest| < size + 2 || rest[size..size + 2] != CRLF then None
      else match Read(rest[size + 2..])
        case Some((data, after)) => Some((rest[..size] + data, after))
        case None => None
  }

  // ---- the round trip ----

  function Joined(chunks: seq<seq<byte>>): seq<byte> {
    if chunks == [] then [] else chunks[0] + Joined(chunks[1..])
  }

  lemma {:induction false} HexPrefixOf(digits: seq<byte>, rest: seq<byte>)
    requires IsHex(digits) && (rest == [] || HexDigit(rest[0]) < 0)
    ensures HexPrefix(digits + rest) == |digits|
  {
    var bs := digits + rest;
    if digits == [] {
      assert bs == rest;
    } else {
      assert bs[1..] == digits[1..] + rest;
      HexPrefixOf(digits[1..], rest);
    }
  }

  lemma {:induction false} FindCrlfOf(digits: seq<byte>, rest: seq<byte>)
    requires IsHex(digits)
    ensures FindCrlf(digits + CRLF + rest) == |digits|
  {
    var bs := digits + CRLF + rest;
    if digits == [] {
      assert bs[..2] == CRLF;
    } else {
      assert HexDigit(digits[0]) >= 0;
      assert bs[0] == digits[0] && bs[..2][0] == digits[0];
      assert bs[1..] == digits[1..] + CRLF + rest;
      FindCrlfOf(digits[1..], rest);
    }
  }

  // A size line is read back whole, whatever follows it.
  lemma ReadSizeOf(n: nat, rest: seq<byte>)
    ensures ReadSize(Hex(n) + CRLF + rest) == Some((n, rest))
  {
    var digits := Hex(n);
    var bs := digits + CRLF + rest;
    HexRoundTrip(n);
    assert bs == digits + (CRLF + rest);
    HexPrefixOf(digits, CRLF + rest);
    FindCrlfOf(digits, rest);
    assert bs[..|digits|] == digits && bs[|digits| + 2..] == rest;
  }

  lemma ReadLast(rest: seq<byte>)
    ensures Read(LAST_CHUNK + rest) == Some(([], rest))
  {
    assert Hex(0) == [0x30] by { assert Digits(0, 16) == [0]; }
    ReadSizeOf(0, CRLF + rest);
    assert LAST_CHUNK + rest == Hex(0) + CRLF + (CRLF + rest);
    assert (CRLF + rest)[..2] == CRLF && (CRLF + rest)[2..] == rest;
    assert SkipTrailer(CRLF + rest) == Some(rest);
  }

  lemma ReadChunk(raw: seq<byte>, rest: seq<byte>)
    requires raw != []
    ensures Read(ChunkBytes(raw) + rest) ==
      match Read(rest)
      case Some((data, after)) => Some((raw + data, after))
      case None => None
  {
    var tail := raw + CRLF + rest;
    assert ChunkBytes(raw) + rest == Hex(|raw|) + CRLF + tail;
    ReadSizeOf(|raw|, tail);
    assert tail[..|raw|] == raw && tail[|raw|..|raw| + 2] == CRLF && tail[|raw| + 2..] == rest;
  }

  // Non-empty chunks, with any bytes in them, read back as their data in order with
  // nothing lost of what follows the body.
  lemma {:induction false} ReadWritten(chunks: seq<seq<byte>>, rest: seq<byte>)
    requires forall c <- chunks :: c != []
    ensures Read(Written(chunks) + rest) == Some((Joined(chunks), rest))
  {
    if chunks == [] {
      ReadLast(rest);
    } else {
      assert chunks[0] in chunks;
      forall c <- chunks[1..] ensures c != [] { assert c in chunks; }
      ReadWritten(chunks[1..], rest);
      assert Written(chunks) + rest == ChunkBytes(chunks[0]) + (Written(chunks[1..]) + rest);
      ReadChunk(chunks[0], Written(chunks[1..]) + rest);
    }
  }

  // An empty chunk would end the body early: what follows it is read as trailers.
  lemma EmptyChunkEndsBody(rest: seq<byte>)
    ensures Read(ChunkBytes([]) + rest) == Some(([], rest))
  {
    assert Hex(0) == [0x30] by { assert Digits(0, 16) == [0]; }
    assert ChunkBytes([]) == LAST_CHUNK;
    ReadLast(rest);
  }

  // The page read back is the head, the results and the tail in order, with nothing
  // left over, whatever bytes the results are.
  lemma PageReadsBack(head: seq<byte>, pending: seq<byte>, style: seq<byte>, text: seq<byte>, tail: seq<byte>)
    requires pending != [] && style != []
    ensures Read(Written([head + pending, style + text + tail])) == Some((head + pending + style + text + tail, []))
  {
    TwoReadBack(head + pending, style + text + tail);
    assert head + pending + (style + text + tail) == head + pending + style + text + tail;
  }

  lemma TwoReadBack(first: seq<byte>, second: seq<byte>)
    requires first != [] && second != []
    ensures Read(Written([first, second])) == Some((first + second, []))
  {
    var chunks: seq<seq<byte>> := [first, second];
    assert chunks[0] == first && chunks[1] == second;
    ReadWritten(chunks, []);
    assert Written(chunks) + [] == Written(chunks);
    JoinedTwo(first, second);
  }

  lemma JoinedTwo(first: seq<byte>, second: seq<byte>)
    ensures Joined([first, second]) == first + second
  {
    var chunks: seq<seq<byte>> := [first, second];
    var rest := chunks[1..];
    assert rest == [second] && rest[1..] == [];
    assert Joined(rest) == second;
  }
}
