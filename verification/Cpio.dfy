// scripts/brand-iso.py `cpio_newc`: a directory tree written as a `newc` archive, and the
// reader the New ASCII Format section of cpio(5) asks for.
module Cpio {
  import opened Options
  import opened Numerals
  import opened Sorting

  const WORD := 0x1_0000_0000
  type word = n: nat | n < WORD

  // ---- the tree and the order it is written in ----

  const SLASH: byte := 0x2f
  const NUL: byte := 0

  type Part = seq<byte>
  type Path = seq<Part>

  // A directory or a file found under the root.
  datatype Node =
    | Dir(path: Path)
    | File(path: Path, data: seq<byte>)

  function Joined(path: Path): seq<byte> {
    if path == [] then [] else if |path| == 1 then path[0] else path[0] + [SLASH] + Joined(path[1..])
  }

  predicate PartLe(a: Part, b: Part) { LexLe(a, b, (x: byte, y: byte) => x <= y) }
  predicate PathLe(a: Path, b: Path) { LexLe(a, b, (x: Part, y: Part) => PartLe(x, y)) }
  predicate NodeLe(a: Node, b: Node) { PathLe(a.path, b.path) }

  function Only(nodes: seq<Node>, dirs: bool): (r: seq<Node>)
    ensures forall n :: n in r <==> n in nodes && n.Dir? == dirs
    ensures multiset(r) <= multiset(nodes)
  {
    if nodes == [] then []
    else
      assert nodes == [nodes[0]] + nodes[1..];
      if nodes[0].Dir? == dirs then [nodes[0]] + Only(nodes[1..], dirs) else Only(nodes[1..], dirs)
  }

  function SortedNodes(nodes: seq<Node>): seq<Node> { Sort(nodes, (a: Node, b: Node) => NodeLe(a, b)) }

  lemma SortedOnly(nodes: seq<Node>, dirs: bool)
    ensures forall n :: n in SortedNodes(Only(nodes, dirs)) <==> n in nodes && n.Dir? == dirs
  {
    var only, sorted := Only(nodes, dirs), SortedNodes(Only(nodes, dirs));
    SortKeeps(only, (a: Node, b: Node) => NodeLe(a, b));
    assert multiset(sorted) == multiset(only);
    forall n
      ensures n in sorted <==> n in only
    {
      assert n in multiset(sorted) <==> n in multiset(only);
    }
  }

  // Directories first, then files, each in the order of their paths.
  function Listing(nodes: seq<Node>): seq<Node> {
    SortedNodes(Only(nodes, true)) + SortedNodes(Only(nodes, false))
  }

  // ---- writing ----

  datatype Entry = Entry(name: seq<byte>, mode: word, data: seq<byte>)

  const DIR_MODE: word := 0x41ed  // 0o040755
  const FILE_MODE: word := 0x81a4 // 0o100644

  function EntryOf(node: Node): Entry {
    match node
    case Dir(path) => Entry(Joined(path), DIR_MODE, [])
    case File(path, data) => Entry(Joined(path), FILE_MODE, data)
  }

  // "070701" and "TRAILER!!!"
  const MAGIC: seq<byte> := [0x30, 0x37, 0x30, 0x37, 0x30, 0x31]
  const TRAILER: seq<byte> := [0x54, 0x52, 0x41, 0x49, 0x4c, 0x45, 0x52, 0x21, 0x21, 0x21]

  const HEADER := 110

  function Padding(n: nat): (k: nat)
    ensures k < 4 && (n + k) % 4 == 0
  {
    (4 - n % 4) % 4
  }

  function Nuls(n: nat): seq<byte> { seq(n, _ => NUL) }

  function Concat(fields: seq<nat>, write: nat -> seq<byte>): seq<byte> {
    if fields == [] then [] else write(fields[0]) + Concat(fields[1..], write)
  }

  function HexFields(fields: seq<nat>): seq<byte> { Concat(fields, (n: nat) => Hex8(n)) }

  // ino, mode, uid, gid, nlink, mtime, filesize, devmajor, devminor, rdevmajor,
  // rdevminor, namesize, check
  function Fields(ino: nat, e: Entry, mtime: nat): seq<nat> {
    [ino, e.mode, 0, 0, 1, mtime, |e.data|, 0, 0, 0, 0, |e.name| + 1, 0]
  }

  function EntryBytes(ino: nat, e: Entry, mtime: nat): seq<byte> {
    var header := MAGIC + HexFields(Fields(ino, e, mtime));
    header + (e.name + [NUL]) + Nuls(Padding(HEADER + |e.name| + 1)) + e.data + Nuls(Padding(|e.data|))
  }

  const LAST := Entry(TRAILER, 0, [])

  // An entry and the time of day it is written at.
  datatype Stamped = Stamped(e: Entry, mtime: word)

  // Inode numbers count up from 1.
  function Blocks(entries: seq<Stamped>): seq<seq<byte>> {
    seq(|entries|, i requires 0 <= i < |entries| => EntryBytes(1 + i, entries[i].e, entries[i].mtime))
  }

  function StampedBy(entries: seq<Entry>, clock: nat -> word): seq<Stamped> {
    seq(|entries|, i requires 0 <= i < |entries| => Stamped(entries[i], clock(1 + i)))
  }

  function EntriesOf(nodes: seq<Node>): seq<Entry> { seq(|nodes|, i requires 0 <= i < |nodes| => EntryOf(nodes[i])) }

  function Archive(nodes: seq<Node>, clock: nat -> word): seq<byte> {
    Flatten(Blocks(StampedBy(EntriesOf(Listing(nodes)) + [LAST], clock)))
  }

  lemma InParts(out: seq<byte>, a: seq<byte>, b: seq<byte>, c: seq<byte>, d: seq<byte>, e: seq<byte>)
    ensures out + a + b + c + d + e == out + (a + b + c + d + e)
  {
  }

  class Writer {
    var out: seq<byte>
    var ino: nat
    ghost var written: seq<Stamped>

    ghost predicate Valid()
      reads this
    {
      out == Flatten(Blocks(written)) && ino == 1 + |written|
    }

    constructor ()
      ensures Valid() && written == []
    {
      out, ino, written := [], 1, [];
    }

    method Write(name: seq<byte>, mode: word, data: seq<byte>, mtime: word)
      requires Valid()
      modifies this
      ensures Valid() && written == old(written) + [Stamped(Entry(name, mode, data), mtime)]
    {
      var nameBytes := name + [NUL];
      var header := MAGIC + HexFields([ino, mode, 0, 0, 1, mtime, |data|, 0, 0, 0, 0, |nameBytes|, 0]);
      ghost var block := EntryBytes(ino, Entry(name, mode, data), mtime);
      InParts(out, header, nameBytes, Nuls(Padding(HEADER + |nameBytes|)), data, Nuls(Padding(|data|)));
      NextBlock(written, Stamped(Entry(name, mode, data), mtime));
      ino := ino + 1;
      out := out + header;
      out := out + nameBytes;
      out := out + Nuls(Padding(HEADER + |nameBytes|));
      out := out + data;
      out := out + Nuls(Padding(|data|));
      written := written + [Stamped(Entry(name, mode, data), mtime)];
    }
  }

  lemma NextBlock(written: seq<Stamped>, next: Stamped)
    ensures Flatten(Blocks(written + [next])) == Flatten(Blocks(written)) + EntryBytes(1 + |written|, next.e, next.mtime)
  {
    var block := EntryBytes(1 + |written|, next.e, next.mtime);
    assert Blocks(written + [next]) == Blocks(written) + [block];
    FlattenOneMore(Blocks(written), block);
  }

  lemma FlattenOneMore(blocks: seq<seq<byte>>, block: seq<byte>)
    ensures Flatten(blocks + [block]) == Flatten(blocks) + block
  {
    var last: seq<seq<byte>> := [block];
    assert last[1..] == [] && Flatten(last) == block;
    FlattenJoin(blocks, last);
  }

  function AllOf(dirs: seq<Node>, files: seq<Node>, clock: nat -> word): seq<Stamped> {
    StampedBy(EntriesOf(dirs + files) + [LAST], clock)
  }

  lemma NextDir(dirs: seq<Node>, files: seq<Node>, clock: nat -> word, i: nat)
    requires i < |dirs| && forall n :: n in dirs ==> n.Dir?
    ensures var all := AllOf(dirs, files, clock);
            i < |all| && all[..i + 1] == all[..i] + [Stamped(Entry(Joined(dirs[i].path), DIR_MODE, []), clock(1 + i))]
  {
    assert dirs[i] in dirs;
  }

  lemma NextFile(dirs: seq<Node>, files: seq<Node>, clock: nat -> word, i: nat)
    requires i < |files| && forall n :: n in files ==> n.File?
    ensures files[i].File?
    ensures var all, k := AllOf(dirs, files, clock), |dirs| + i;
            k < |all| && all[..k + 1] == all[..k] + [Stamped(Entry(Joined(files[i].path), FILE_MODE, files[i].data), clock(1 + k))]
  {
    assert files[i] in files;
  }

  lemma NextTrailer(dirs: seq<Node>, files: seq<Node>, clock: nat -> word)
    ensures var all, k := AllOf(dirs, files, clock), |dirs| + |files|;
            |all| == k + 1 && all == all[..k] + [Stamped(Entry(TRAILER, 0, []), clock(1 + k))]
  {
  }

  method CpioNewc(nodes: seq<Node>, clock: nat -> word) returns (out: seq<byte>)
    ensures out == Archive(nodes, clock)
  {
    var dirs, files := SortedNodes(Only(nodes, true)), SortedNodes(Only(nodes, false));
    SortedOnly(nodes, true);
    SortedOnly(nodes, false);
    out := WriteAll(dirs, files, clock);
  }

  method WriteAll(dirs: seq<Node>, files: seq<Node>, clock: nat -> word) returns (out: seq<byte>)
    requires forall n :: n in dirs ==> n.Dir?
    requires forall n :: n in files ==> n.File?
    ensures out == Flatten(Blocks(AllOf(dirs, files, clock)))
  {
    var w := new Writer();
    WriteDirs(w, dirs, files, clock);
    WriteFiles(w, dirs, files, clock);
    ghost var all := AllOf(dirs, files, clock);
    NextTrailer(dirs, files, clock);
    assert |w.written| == |dirs| + |files|;
    w.Write(TRAILER, 0, [], clock(w.ino));
    assert w.written == all;
    return w.out;
  }

  method WriteDirs(w: Writer, dirs: seq<Node>, ghost files: seq<Node>, clock: nat -> word)
    requires w.Valid() && w.written == [] && forall n :: n in dirs ==> n.Dir?
    modifies w
    ensures w.Valid() && |dirs| <= |AllOf(dirs, files, clock)| && w.written == AllOf(dirs, files, clock)[..|dirs|]
  {
    ghost var all := AllOf(dirs, files, clock);
    for i := 0 to |dirs|
      invariant w.Valid() && w.written == all[..i]
    {
      NextDir(dirs, files, clock, i);
      w.Write(Joined(dirs[i].path), DIR_MODE, [], clock(w.ino));
    }
  }

  method WriteFiles(w: Writer, ghost dirs: seq<Node>, files: seq<Node>, clock: nat -> word)
    requires w.Valid() && forall n :: n in files ==> n.File?
    requires |dirs| <= |AllOf(dirs, files, clock)| && w.written == AllOf(dirs, files, clock)[..|dirs|]
    modifies w
    ensures w.Valid() && |dirs| + |files| <= |AllOf(dirs, files, clock)|
    ensures w.written == AllOf(dirs, files, clock)[..|dirs| + |files|]
  {
    ghost var all := AllOf(dirs, files, clock);
    for i := 0 to |files|
      invariant w.Valid() && w.written == all[..|dirs| + i]
    {
      NextFile(dirs, files, clock, i);
      w.Write(Joined(files[i].path), FILE_MODE, files[i].data, clock(w.ino));
    }
  }

  // ---- reading, by cpio(5) ----

  datatype Record = Record(ino: nat, mode: nat, mtime: nat, name: seq<byte>, data: seq<byte>)

  // A number in eight hexadecimal digits.
  function ReadWord(bs: seq<byte>): Option<nat> {
    if |bs| < 8 || !IsHex(bs[..8]) then None else Some(HexValue(bs[..8]))
  }

  function ReadMany(bs: seq<byte>, k: nat, read: seq<byte> -> Option<nat>): (r: Option<seq<nat>>)
    ensures r.Some? ==> |r.value| == k
  {
    if k == 0 then Some([])
    else if |bs| < 8 || read(bs).None? then None
    else
      var rest := ReadMany(bs[8..], k - 1, read);
      if rest.None? then None else Some([read(bs).value] + rest.value)
  }

  function ReadFields(bs: seq<byte>): (r: Option<seq<nat>>)
    ensures r.Some? ==> |r.value| == 13
  {
    ReadMany(bs, 13, (word: seq<byte>) => ReadWord(word))
  }

  // One record off the front, and what follows it.
  function ReadRecord(bs: seq<byte>): (r: Option<(Record, seq<byte>)>)
    ensures r.Some? ==> |r.value.1| < |bs|
  {
    if |bs| < HEADER || bs[..6] != MAGIC then None
    else
      var fields := ReadFields(bs[6..]);
      if fields.None? then None
      else
        var fileSize, nameSize := fields.value[6], fields.value[11];
        var nameEnd := HEADER + nameSize;
        var dataAt := nameEnd + Padding(nameEnd);
        var dataEnd := dataAt + fileSize;
        var next := dataEnd + Padding(fileSize);
        if nameSize == 0 || |bs| < next || bs[nameEnd - 1] != NUL || NUL in bs[HEADER..nameEnd - 1] then None
        else Some((Record(fields.value[0], fields.value[1], fields.value[5], bs[HEADER..nameEnd - 1], bs[dataAt..dataEnd]), bs[next..]))
  }

  type Reader = seq<byte> -> Option<(Record, seq<byte>)>

  ghost predicate Shortens(one: Reader) { forall bs :: one(bs).Some? ==> |one(bs).value.1| < |bs| }

  // Every record up to the trailer, and the bytes after it.
  ghost function ReadAll(bs: seq<byte>, one: Reader): Option<(seq<Record>, seq<byte>)>
    requires Shortens(one)
    decreases |bs|
  {
    var record := one(bs);
    if record.None? then None
    else if record.value.0.name == TRAILER then Some(([], record.value.1))
    else
      var rest := ReadAll(record.value.1, one);
      if rest.None? then None else Some(([record.value.0] + rest.value.0, rest.value.1))
  }

  function RecordReader(): (one: Reader)
    ensures Shortens(one)
  {
    (bs: seq<byte>) => ReadRecord(bs)
  }

  ghost function Read(bs: seq<byte>): Option<(seq<Record>, seq<byte>)> { ReadAll(bs, RecordReader()) }

  // ---- what was written is read back ----

  lemma WordReadBack(n: nat, rest: seq<byte>)
    requires n < WORD
    ensures |Hex8(n)| == 8 && ReadWord(Hex8(n) + rest) == Some(n)
  {
    Hex8RoundTrip(n);
    assert (Hex8(n) + rest)[..8] == Hex8(n);
  }

  ghost predicate Codes(n: nat, write: nat -> seq<byte>, read: seq<byte> -> Option<nat>) {
    |write(n)| == 8 && forall tail: seq<byte> :: read(write(n) + tail) == Some(n)
  }

  lemma {:induction false} ManyReadBack(fields: seq<nat>, rest: seq<byte>, write: nat -> seq<byte>, read: seq<byte> -> Option<nat>)
    requires forall n :: n in fields ==> Codes(n, write, read)
    ensures |Concat(fields, write)| == 8 * |fields|
    ensures ReadMany(Concat(fields, write) + rest, |fields|, read) == Some(fields)
  {
    if fields != [] {
      var others := fields[1..];
      ManyReadBack(others, rest, write, read);
      var tail := Concat(others, write) + rest;
      var bs := Concat(fields, write) + rest;
      assert Codes(fields[0], write, read);
      assert bs == write(fields[0]) + tail && bs[8..] == tail;
      assert fields == [fields[0]] + others;
    }
  }

  lemma FieldsReadBack(fields: seq<nat>, rest: seq<byte>)
    requires |fields| == 13 && forall n :: n in fields ==> n < WORD
    ensures |HexFields(fields)| == 104 && ReadFields(HexFields(fields) + rest) == Some(fields)
  {
    var write, read := (n: nat) => Hex8(n), (word: seq<byte>) => ReadWord(word);
    forall n | n in fields
      ensures Codes(n, write, read)
    {
      WordReadBack(n, []);
      forall tail: seq<byte>
        ensures read(write(n) + tail) == Some(n)
      {
        WordReadBack(n, tail);
      }
    }
    ManyReadBack(fields, rest, write, read);
  }

  // What an archive can carry: a name without a NUL in it, lengths that fit eight digits.
  predicate Fits(e: Entry) { NUL !in e.name && |e.name| + 1 < WORD && |e.data| < WORD }

  function RecordOf(ino: nat, e: Entry, mtime: nat): Record { Record(ino, e.mode, mtime, e.name, e.data) }

  lemma Layout(header: seq<byte>, name: seq<byte>, gap: seq<byte>, data: seq<byte>, end: seq<byte>, rest: seq<byte>)
    ensures var bs := header + (name + [NUL]) + gap + data + end + rest;
            var nameEnd := |header| + |name| + 1;
            var dataAt := nameEnd + |gap|;
            var next := dataAt + |data| + |end|;
            && |bs| == next + |rest| && bs[..|header|] == header
            && bs[|header|..nameEnd - 1] == name && bs[nameEnd - 1] == NUL
            && bs[dataAt..dataAt + |data|] == data && bs[next..] == rest
  {
  }

  lemma HeaderReadBack(fields: seq<nat>, tail: seq<byte>)
    requires |fields| == 13 && forall n :: n in fields ==> n < WORD
    ensures var bs := MAGIC + HexFields(fields) + tail;
            |HexFields(fields)| == 104 && bs[..6] == MAGIC && ReadFields(bs[6..]) == Some(fields)
  {
    FieldsReadBack(fields, tail);
    assert (MAGIC + HexFields(fields) + tail)[6..] == HexFields(fields) + tail;
  }

  lemma PartsReadBack(bs: seq<byte>, fields: seq<nat>, name: seq<byte>, data: seq<byte>, rest: seq<byte>)
    requires |bs| >= HEADER && bs[..6] == MAGIC && ReadFields(bs[6..]) == Some(fields)
    requires fields[6] == |data| && fields[11] == |name| + 1 && NUL !in name
    requires var nameEnd := HEADER + |name| + 1;
             var dataAt := nameEnd + Padding(nameEnd);
             var next := dataAt + |data| + Padding(|data|);
             && |bs| == next + |rest| && bs[HEADER..nameEnd - 1] == name && bs[nameEnd - 1] == NUL
             && bs[dataAt..dataAt + |data|] == data && bs[next..] == rest
    ensures ReadRecord(bs) == Some((Record(fields[0], fields[1], fields[5], name, data), rest))
  {
  }

  lemma AssembledReadBack(bs: seq<byte>, header: seq<byte>, fields: seq<nat>, name: seq<byte>, gap: seq<byte>,
                          data: seq<byte>, end: seq<byte>, rest: seq<byte>)
    requires bs == header + (name + [NUL]) + gap + data + end + rest
    requires |header| == HEADER && bs[..6] == MAGIC && ReadFields(bs[6..]) == Some(fields)
    requires |gap| == Padding(HEADER + |name| + 1) && |end| == Padding(|data|)
    requires fields[6] == |data| && fields[11] == |name| + 1 && NUL !in name
    ensures ReadRecord(bs) == Some((Record(fields[0], fields[1], fields[5], name, data), rest))
  {
    Layout(header, name, gap, data, end, rest);
    PartsReadBack(bs, fields, name, data, rest);
  }

  lemma RecordReadBack(ino: nat, e: Entry, mtime: nat, rest: seq<byte>)
    requires Fits(e) && ino < WORD && mtime < WORD
    ensures ReadRecord(EntryBytes(ino, e, mtime) + rest) == Some((RecordOf(ino, e, mtime), rest))
  {
    var fields := Fields(ino, e, mtime);
    var header := MAGIC + HexFields(fields);
    var gap, end := Nuls(Padding(HEADER + |e.name| + 1)), Nuls(Padding(|e.data|));
    var tail := e.name + [NUL] + gap + e.data + end + rest;
    HeaderReadBack(fields, tail);
    var bs := EntryBytes(ino, e, mtime) + rest;
    assert bs == header + tail;
    AssembledReadBack(bs, header, fields, e.name, gap, e.data, end, rest);
  }

  // ---- alignment ----

  function DataAt(e: Entry): nat { HEADER + |e.name| + 1 + Padding(HEADER + |e.name| + 1) }

  // An entry is a whole number of words long, and its data start at one.
  lemma EntriesAlign(ino: nat, e: Entry, mtime: nat)
    requires Fits(e) && ino < WORD && mtime < WORD
    ensures DataAt(e) % 4 == 0 && |EntryBytes(ino, e, mtime)| % 4 == 0
    ensures DataAt(e) + |e.data| <= |EntryBytes(ino, e, mtime)|
    ensures EntryBytes(ino, e, mtime)[DataAt(e)..DataAt(e) + |e.data|] == e.data
  {
    HeaderReadBack(Fields(ino, e, mtime), []);
    var header := MAGIC + HexFields(Fields(ino, e, mtime));
    Layout(header, e.name, Nuls(Padding(HEADER + |e.name| + 1)), e.data, Nuls(Padding(|e.data|)), []);
    assert EntryBytes(ino, e, mtime) + [] == EntryBytes(ino, e, mtime);
    assert |EntryBytes(ino, e, mtime)| == DataAt(e) + (|e.data| + Padding(|e.data|));
    WholeWords(DataAt(e), |e.data| + Padding(|e.data|));
  }

  lemma {:induction false} BlocksAlign(blocks: seq<seq<byte>>, k: nat)
    requires k <= |blocks| && forall i :: 0 <= i < |blocks| ==> |blocks[i]| % 4 == 0
    ensures |Flatten(blocks[..k])| % 4 == 0
  {
    if k > 0 {
      BlocksAlign(blocks, k - 1);
      assert blocks[..k] == blocks[..k - 1] + [blocks[k - 1]];
      FlattenOneMore(blocks[..k - 1], blocks[k - 1]);
    }
  }

  ghost predicate AllFit(entries: seq<Stamped>) {
    |entries| < WORD - 1 && forall s :: s in entries ==> Fits(s.e)
  }

  // Where the k-th header starts in the archive.
  function HeaderAt(entries: seq<Stamped>, k: nat): nat
    requires k < |entries|
  {
    |Flatten(Blocks(entries)[..k])|
  }

  lemma HeadersAlign(entries: seq<Stamped>, k: nat)
    requires k < |entries| && AllFit(entries)
    ensures HeaderAt(entries, k) % 4 == 0 && (HeaderAt(entries, k) + DataAt(entries[k].e)) % 4 == 0
  {
    BlocksAreWhole(entries);
    BlocksAlign(Blocks(entries), k);
    WholeWords(HeaderAt(entries, k), DataAt(entries[k].e));
  }

  lemma WholeWords(a: nat, b: nat)
    requires a % 4 == 0 && b % 4 == 0
    ensures (a + b) % 4 == 0
  {
  }

  lemma BlocksAreWhole(entries: seq<Stamped>)
    requires AllFit(entries)
    ensures forall i :: 0 <= i < |entries| ==> |Blocks(entries)[i]| % 4 == 0
  {
    forall i | 0 <= i < |entries|
      ensures |Blocks(entries)[i]| % 4 == 0
    {
      EntriesAlign(1 + i, entries[i].e, entries[i].mtime);
    }
  }

  // ---- the whole archive ----

  function RecordsOf(entries: seq<Stamped>): seq<Record> {
    seq(|entries|, i requires 0 <= i < |entries| => RecordOf(1 + i, entries[i].e, entries[i].mtime))
  }

  ghost predicate ReadsAs(block: seq<byte>, record: Record, one: Reader) {
    forall rest: seq<byte> :: one(block + rest) == Some((record, rest))
  }

  lemma EntryReadsAs(ino: nat, e: Entry, mtime: nat)
    requires Fits(e) && ino < WORD && mtime < WORD
    ensures ReadsAs(EntryBytes(ino, e, mtime), RecordOf(ino, e, mtime), RecordReader())
  {
    forall rest: seq<byte>
      ensures ReadRecord(EntryBytes(ino, e, mtime) + rest) == Some((RecordOf(ino, e, mtime), rest))
    {
      RecordReadBack(ino, e, mtime, rest);
    }
  }

  // Reading from the k-th block on gives the records from there to the first that bears
  // the trailer's name.
  lemma {:induction false} BlocksReadBack(blocks: seq<seq<byte>>, records: seq<Record>, k: nat, stop: nat, one: Reader)
    requires Shortens(one) && k <= stop < |blocks| == |records|
    requires forall i :: 0 <= i < |blocks| ==> ReadsAs(blocks[i], records[i], one)
    requires records[stop].name == TRAILER && forall i :: k <= i < stop ==> records[i].name != TRAILER
    ensures ReadAll(Flatten(blocks[k..]), one) == Some((records[k..stop], Flatten(blocks[stop + 1..])))
    decreases stop - k
  {
    FlattenFrom(blocks, k);
    var rest := Flatten(blocks[k + 1..]);
    assert one(blocks[k] + rest) == Some((records[k], rest));
    if k < stop {
      BlocksReadBack(blocks, records, k + 1, stop, one);
      assert records[k..stop] == [records[k]] + records[k + 1..stop];
    } else {
      assert records[k..stop] == [];
    }
  }

  lemma FlattenFrom(blocks: seq<seq<byte>>, k: nat)
    requires k < |blocks|
    ensures Flatten(blocks[k..]) == blocks[k] + Flatten(blocks[k + 1..])
  {
    assert blocks[k..][0] == blocks[k] && blocks[k..][1..] == blocks[k + 1..];
  }

  lemma EntriesReadAs(entries: seq<Stamped>)
    requires AllFit(entries)
    ensures forall i :: 0 <= i < |entries| ==> ReadsAs(Blocks(entries)[i], RecordsOf(entries)[i], RecordReader())
  {
    forall i | 0 <= i < |entries|
      ensures ReadsAs(Blocks(entries)[i], RecordsOf(entries)[i], RecordReader())
    {
      EntryReadsAs(1 + i, entries[i].e, entries[i].mtime);
    }
  }

  lemma EntriesReadBack(entries: seq<Stamped>, stop: nat)
    requires AllFit(entries) && stop < |entries|
    requires entries[stop].e.name == TRAILER && forall i :: 0 <= i < stop ==> entries[i].e.name != TRAILER
    ensures Read(Flatten(Blocks(entries))) == Some((RecordsOf(entries[..stop]), Flatten(Blocks(entries)[stop + 1..])))
  {
    var blocks, records := Blocks(entries), RecordsOf(entries);
    EntriesReadAs(entries);
    BlocksReadBack(blocks, records, 0, stop, RecordReader());
    assert blocks[0..] == blocks && records[0..stop] == RecordsOf(entries[..stop]);
  }

  // What is read back is what was written, in order and with nothing left over, if and
  // only if no entry bears the trailer's name.
  lemma WrittenReadsBack(written: seq<Stamped>, last: Stamped)
    requires AllFit(written + [last]) && last.e == LAST
    ensures Read(Flatten(Blocks(written + [last]))) == Some((RecordsOf(written), []))
       <==> forall s :: s in written ==> s.e.name != TRAILER
  {
    var entries := written + [last];
    assert entries[|written|] == last;
    var stop := FirstTrailer(entries, 0);
    EntriesReadBack(entries, stop);
    assert forall i :: 0 <= i < |written| ==> entries[i] == written[i] && written[i] in written;
    if stop < |written| {
      assert |RecordsOf(entries[..stop])| < |RecordsOf(written)|;
    } else {
      assert entries[..stop] == written && Blocks(entries)[stop + 1..] == [];
    }
  }

  // The archive of a tree reads back as exactly the tree's listing, if and only if no
  // path in it is the trailer's name.
  lemma {:induction false} ArchiveReadsBack(nodes: seq<Node>, clock: nat -> word)
    requires |Listing(nodes)| < WORD - 2 && forall n :: n in Listing(nodes) ==> Fits(EntryOf(n))
    ensures Read(Archive(nodes, clock)) == Some((RecordsOf(StampedBy(EntriesOf(Listing(nodes)), clock)), []))
       <==> forall n :: n in Listing(nodes) ==> Joined(n.path) != TRAILER
  {
    ListingReadsBack(Listing(nodes), clock);
  }

  lemma ListingReadsBack(listing: seq<Node>, clock: nat -> word)
    requires |listing| < WORD - 2 && forall n :: n in listing ==> Fits(EntryOf(n))
    ensures Read(Flatten(Blocks(StampedBy(EntriesOf(listing) + [LAST], clock)))) == Some((RecordsOf(StampedBy(EntriesOf(listing), clock)), []))
       <==> forall n :: n in listing ==> Joined(n.path) != TRAILER
  {
    var written, last := StampedBy(EntriesOf(listing), clock), Stamped(LAST, clock(1 + |listing|));
    ListingFits(listing, clock);
    ListingNames(listing, clock);
    assert StampedBy(EntriesOf(listing) + [LAST], clock) == written + [last];
    WrittenReadsBack(written, last);
  }

  lemma ListingFits(listing: seq<Node>, clock: nat -> word)
    requires |listing| < WORD - 2 && forall n :: n in listing ==> Fits(EntryOf(n))
    ensures AllFit(StampedBy(EntriesOf(listing), clock) + [Stamped(LAST, clock(1 + |listing|))])
  {
    var written, last := StampedBy(EntriesOf(listing), clock), Stamped(LAST, clock(1 + |listing|));
    forall s | s in written + [last]
      ensures Fits(s.e)
    {
      if s != last {
        var i :| 0 <= i < |written| && written[i] == s;
        assert listing[i] in listing && s.e == EntryOf(listing[i]);
      }
    }
  }

  lemma ListingNames(listing: seq<Node>, clock: nat -> word)
    ensures (forall s :: s in StampedBy(EntriesOf(listing), clock) ==> s.e.name != TRAILER)
       <==> forall n :: n in listing ==> Joined(n.path) != TRAILER
  {
    var written := StampedBy(EntriesOf(listing), clock);
    forall s | s in written && s.e.name == TRAILER
      ensures exists n :: n in listing && Joined(n.path) == TRAILER
    {
      var i :| 0 <= i < |written| && written[i] == s;
      assert listing[i] in listing && s.e == EntryOf(listing[i]);
    }
    forall n | n in listing && Joined(n.path) == TRAILER
      ensures exists s :: s in written && s.e.name == TRAILER
    {
      var i :| 0 <= i < |listing| && listing[i] == n;
      assert written[i] in written && written[i].e == EntryOf(n);
    }
  }

  lemma {:induction false} FirstTrailer(entries: seq<Stamped>, from: nat) returns (stop: nat)
    requires exists i :: from <= i < |entries| && entries[i].e.name == TRAILER
    ensures from <= stop < |entries| && entries[stop].e.name == TRAILER
    ensures forall i :: from <= i < stop ==> entries[i].e.name != TRAILER
    decreases |entries| - from
  {
    if entries[from].e.name == TRAILER {
      stop := from;
    } else {
      stop := FirstTrailer(entries, from + 1);
    }
  }

  // ---- the order of the listing ----

  lemma PathsAreOrdered()
    ensures TotalOrder((a: Path, b: Path) => PathLe(a, b))
  {
    var bytes := (x: byte, y: byte) => x <= y;
    var parts := (x: Part, y: Part) => PartLe(x, y);
    LexOrders(bytes, parts);
    LexOrders(parts, (a: Path, b: Path) => PathLe(a, b));
  }

  lemma NodesAreOrdered()
    ensures TotalPreorder((a: Node, b: Node) => NodeLe(a, b))
  {
    var paths := (a: Path, b: Path) => PathLe(a, b);
    PathsAreOrdered();
    forall a: Node, b: Node, c: Node
      ensures NodeLe(a, b) || NodeLe(b, a)
      ensures NodeLe(a, b) && NodeLe(b, c) ==> NodeLe(a, c)
    {
      assert paths(a.path, b.path) || paths(b.path, a.path);
      assert paths(a.path, b.path) && paths(b.path, c.path) ==> paths(a.path, c.path);
    }
  }

  lemma {:induction false} ParentPrecedes<T>(parent: seq<T>, child: seq<T>, le: (T, T) -> bool)
    requires parent < child
    ensures !LexLe(child, parent, le)
  {
    if parent != [] {
      ParentPrecedes(parent[1..], child[1..], le);
    }
  }

  function ParentOf(path: Path): Path
    requires path != []
  {
    path[..|path| - 1]
  }

  // A walk under a root: what is found below another directory comes with that directory.
  ghost predicate Rooted(nodes: seq<Node>) {
    forall n :: n in nodes ==> n.path != [] && (|n.path| >= 2 ==> Dir(ParentOf(n.path)) in nodes)
  }

  lemma ParentAmongDirs(dirs: seq<Node>, n: Node, i: nat)
    requires SortedBy(dirs, (a: Node, b: Node) => NodeLe(a, b))
    requires n.path != [] && Dir(ParentOf(n.path)) in dirs && (i < |dirs| ==> dirs[i] == n)
    ensures exists j: nat :: j < i && j < |dirs| && dirs[j] == Dir(ParentOf(n.path))
  {
    var parent := Dir(ParentOf(n.path));
    var j :| 0 <= j < |dirs| && dirs[j] == parent;
    ParentPrecedes(parent.path, n.path, (x: Part, y: Part) => PartLe(x, y));
    assert !NodeLe(n, parent);
    assert parent.path != n.path;
  }

  lemma DirsAreSorted(nodes: seq<Node>)
    ensures SortedBy(SortedNodes(Only(nodes, true)), (a: Node, b: Node) => NodeLe(a, b))
  {
    NodesAreOrdered();
    SortKeeps(Only(nodes, true), (a: Node, b: Node) => NodeLe(a, b));
  }

  // Each directory comes before what is in it.
  lemma ParentsComeFirst(nodes: seq<Node>, i: nat)
    requires Rooted(nodes) && i < |Listing(nodes)| && |Listing(nodes)[i].path| >= 2
    ensures exists j: nat :: j < i && Listing(nodes)[j] == Dir(ParentOf(Listing(nodes)[i].path))
  {
    SortedOnly(nodes, true);
    SortedOnly(nodes, false);
    DirsAreSorted(nodes);
    ParentInFront(SortedNodes(Only(nodes, true)), SortedNodes(Only(nodes, false)), nodes, i);
  }

  lemma ParentInFront(dirs: seq<Node>, files: seq<Node>, nodes: seq<Node>, i: nat)
    requires Rooted(nodes) && SortedBy(dirs, (a: Node, b: Node) => NodeLe(a, b))
    requires forall n :: n in dirs <==> n in nodes && n.Dir?
    requires forall n :: n in files <==> n in nodes && n.File?
    requires i < |dirs + files| && |(dirs + files)[i].path| >= 2
    ensures exists j: nat :: j < i && (dirs + files)[j] == Dir(ParentOf((dirs + files)[i].path))
  {
    var n := (dirs + files)[i];
    assert n in dirs || n in files;
    ParentAmongDirs(dirs, n, i);
    var j: nat :| j < i && j < |dirs| && dirs[j] == Dir(ParentOf(n.path));
    assert (dirs + files)[j] == Dir(ParentOf(n.path));
  }

  // Directories come before files.
  lemma DirectoriesComeFirst(nodes: seq<Node>, i: nat, j: nat)
    requires i < |Listing(nodes)| && j < |Listing(nodes)| && Listing(nodes)[i].Dir? && Listing(nodes)[j].File?
    ensures i < j
  {
    SortedOnly(nodes, true);
    SortedOnly(nodes, false);
    InFront(SortedNodes(Only(nodes, true)), SortedNodes(Only(nodes, false)), i, j);
  }

  lemma InFront(dirs: seq<Node>, files: seq<Node>, i: nat, j: nat)
    requires forall n :: n in dirs ==> n.Dir?
    requires forall n :: n in files ==> n.File?
    requires i < |dirs + files| && j < |dirs + files| && (dirs + files)[i].Dir? && (dirs + files)[j].File?
    ensures i < |dirs| <= j
  {
    assert forall k :: 0 <= k < |dirs| ==> dirs[k] in dirs && (dirs + files)[k] == dirs[k];
    assert forall k :: 0 <= k < |files| ==> files[k] in files && (dirs + files)[|dirs| + k] == files[k];
  }

  lemma {:induction false} OnlyParts(nodes: seq<Node>)
    ensures multiset(Only(nodes, true)) + multiset(Only(nodes, false)) == multiset(nodes)
  {
    if nodes != [] {
      OnlyParts(nodes[1..]);
      assert nodes == [nodes[0]] + nodes[1..];
    }
  }

  // The listing is the walk, every node of it once.
  lemma ListingIsTheWalk(nodes: seq<Node>)
    ensures multiset(Listing(nodes)) == multiset(nodes)
  {
    OnlyParts(nodes);
    SortKeeps(Only(nodes, true), (a: Node, b: Node) => NodeLe(a, b));
    SortKeeps(Only(nodes, false), (a: Node, b: Node) => NodeLe(a, b));
  }

  // ---- from records back to the tree ----

  function Split(name: seq<byte>): (path: Path)
    ensures path != []
  {
    if name == [] then [[]]
    else
      var rest := Split(name[1..]);
      if name[0] == SLASH then [[]] + rest else [[name[0]] + rest[0]] + rest[1..]
  }

  lemma {:induction false} SplitPart(part: Part)
    requires SLASH !in part
    ensures Split(part) == [part]
  {
    if part != [] {
      SplitPart(part[1..]);
      assert part == [part[0]] + part[1..];
    }
  }

  lemma {:induction false} SplitFirst(part: Part, name: seq<byte>)
    requires SLASH !in part
    ensures Split(part + [SLASH] + name) == [part] + Split(name)
  {
    var all := part + [SLASH] + name;
    if part == [] {
      assert all[1..] == name;
    } else {
      SplitFirst(part[1..], name);
      assert all[1..] == part[1..] + [SLASH] + name;
      assert part == [part[0]] + part[1..];
    }
  }

  ghost predicate IsPath(path: Path) { path != [] && forall part :: part in path ==> SLASH !in part }

  lemma {:induction false} SplitJoined(path: Path)
    requires IsPath(path)
    ensures Split(Joined(path)) == path
  {
    assert path[0] in path;
    if |path| == 1 {
      SplitPart(path[0]);
    } else {
      SplitJoined(path[1..]);
      SplitFirst(path[0], Joined(path[1..]));
      assert path == [path[0]] + path[1..];
    }
  }

  function NodeOf(r: Record): Node {
    if r.mode == DIR_MODE then Dir(Split(r.name)) else File(Split(r.name), r.data)
  }

  // Unpacking gives back the tree, as long as nothing at the top of it is named as the
  // trailer is.
  lemma {:induction false} UnpacksToTheTree(nodes: seq<Node>, clock: nat -> word)
    requires |Listing(nodes)| < WORD - 2 && forall n :: n in Listing(nodes) ==> IsPath(n.path) && Fits(EntryOf(n))
    requires Dir([TRAILER]) !in Listing(nodes) && forall data :: File([TRAILER], data) !in Listing(nodes)
    ensures Read(Archive(nodes, clock)).Some?
    ensures var (records, left) := Read(Archive(nodes, clock)).value;
            && left == [] && |records| == |Listing(nodes)|
            && forall i :: 0 <= i < |records| ==> NodeOf(records[i]) == Listing(nodes)[i]
  {
    NotTheTrailer(Listing(nodes));
    ArchiveReadsBack(nodes, clock);
    RecordsAreTheListing(Listing(nodes), clock);
  }

  lemma NotTheTrailer(listing: seq<Node>)
    requires forall n :: n in listing ==> IsPath(n.path)
    requires Dir([TRAILER]) !in listing && forall data :: File([TRAILER], data) !in listing
    ensures forall n :: n in listing ==> Joined(n.path) != TRAILER
  {
    forall n | n in listing
      ensures Joined(n.path) != TRAILER
    {
      SplitJoined(n.path);
      SplitPart(TRAILER);
    }
  }

  lemma RecordsAreTheListing(listing: seq<Node>, clock: nat -> word)
    requires forall n :: n in listing ==> IsPath(n.path)
    ensures var records := RecordsOf(StampedBy(EntriesOf(listing), clock));
            |records| == |listing| && forall i :: 0 <= i < |records| ==> NodeOf(records[i]) == listing[i]
  {
    var records := RecordsOf(StampedBy(EntriesOf(listing), clock));
    forall i | 0 <= i < |listing|
      ensures NodeOf(records[i]) == listing[i]
    {
      assert listing[i] in listing;
      assert records[i] == RecordOf(1 + i, EntryOf(listing[i]), clock(1 + i));
      SplitJoined(listing[i].path);
    }
  }
}
