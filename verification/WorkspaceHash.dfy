/** The byte stream `workspace_sha256` hashes: it determines the workspace's files, and is determined by them. */
module WorkspaceHash {
  import opened Base
  import opened Lines
  import opened PatchModels
  import Utf8
  import PatchPaths

  /** What a directory walk yields: a path below the root, and whether it is a regular file with what content. */
  datatype Entry = Entry(path: Path, isFile: bool, data: Bytes)

  predicate InGit(path: Path) {
    ".git" in SplitOn(path, '/')
  }

  predicate Hashed(e: Entry) {
    e.isFile && !InGit(e.path)
  }

  // ---------------------------------------------------------------- order of paths

  /** Strings are compared character by character, a proper prefix coming first. */
  predicate Less(a: string, b: string) {
    b != [] && (a == [] || a[0] < b[0] || (a[0] == b[0] && Less(a[1..], b[1..])))
  }

  lemma {:induction false} LessAsymmetric(a: string, b: string)
    requires Less(a, b)
    ensures a != b && !Less(b, a)
  {
    if a != [] && a[0] == b[0] {
      LessAsymmetric(a[1..], b[1..]);
    }
  }

  predicate Sorted(entries: seq<Entry>) {
    forall i, j :: 0 <= i < j < |entries| ==> Less(entries[i].path, entries[j].path)
  }

  // ---------------------------------------------------------------- the stream

  const LENGTH_LIMIT: nat := 0x1_0000_0000_0000_0000

  /** `n.to_bytes(k, "big")`. */
  function BigEndian(n: nat, k: nat): (bs: Bytes)
    ensures |bs| == k
  {
    if k == 0 then [] else BigEndian(n / 256, k - 1) + [n % 256]
  }

  function FromBigEndian(bs: Bytes): nat {
    if bs == [] then 0 else FromBigEndian(bs[..|bs| - 1]) * 256 + bs[|bs| - 1]
  }

  function Power256(k: nat): nat {
    if k == 0 then 1 else 256 * Power256(k - 1)
  }

  lemma {:induction false} FromBigEndianOf(n: nat, k: nat)
    requires n < Power256(k)
    ensures FromBigEndian(BigEndian(n, k)) == n
  {
    if k > 0 {
      FromBigEndianOf(n / 256, k - 1);
      assert BigEndian(n, k)[..k - 1] == BigEndian(n / 256, k - 1);
    }
  }

  lemma EightBytes(n: nat)
    requires n < LENGTH_LIMIT
    ensures FromBigEndian(BigEndian(n, 8)) == n
  {
    assert Power256(2) == 0x1_0000 by { assert Power256(1) == 256; }
    assert Power256(4) == 0x1_0000_0000 by { assert Power256(3) == 0x100_0000; }
    assert Power256(6) == 0x1_0000_0000_0000 by { assert Power256(5) == 0x100_0000_0000; }
    assert Power256(8) == LENGTH_LIMIT by { assert Power256(7) == 0x100_0000_0000_0000; }
    FromBigEndianOf(n, 8);
  }

  /** A length-prefixed string of bytes; `None` when the length does not fit in eight bytes. */
  function Prefixed(bs: Bytes): Option<Bytes> {
    if |bs| < LENGTH_LIMIT then Some(BigEndian(|bs|, 8) + bs) else None
  }

  function Unprefixed(stream: Bytes): Option<(Bytes, Bytes)> {
    if |stream| < 8 then None
    else
      var n := FromBigEndian(stream[..8]);
      if |stream| < 8 + n then None else Some((stream[8..8 + n], stream[8 + n..]))
  }

  datatype Record = Record(name: Bytes, data: Bytes)

  function RecordStream(r: Record): Option<Bytes> {
    match (Prefixed(r.name), Prefixed(r.data))
    case (Some(name), Some(data)) => Some(name + data)
    case _ => None
  }

  function Stream(records: seq<Record>): Option<Bytes> {
    if records == [] then Some([])
    else
      match (RecordStream(records[0]), Stream(records[1..]))
      case (Some(first), Some(later)) => Some(first + later)
      case _ => None
  }

  /** Reads the records back from a stream. */
  function Unstream(stream: Bytes): Option<seq<Record>>
    decreases |stream|
  {
    if stream == [] then Some([])
    else
      match Unprefixed(stream)
      case None => None
      case Some((name, rest)) =>
        match Unprefixed(rest)
        case None => None
        case Some((data, rest')) =>
          match Unstream(rest')
          case None => None
          case Some(records) => Some([Record(name, data)] + records)
  }

  lemma UnprefixedPrefixed(bs: Bytes, rest: Bytes)
    requires Prefixed(bs).Some?
    ensures Unprefixed(Prefixed(bs).value + rest) == Some((bs, rest))
  {
    EightBytes(|bs|);
    var stream := BigEndian(|bs|, 8) + bs + rest;
    assert stream[..8] == BigEndian(|bs|, 8);
    assert stream[8..8 + |bs|] == bs && stream[8 + |bs|..] == rest;
  }

  /** The stream is uniquely decodable. */
  lemma {:induction false} UnstreamStream(records: seq<Record>)
    requires Stream(records).Some?
    ensures Unstream(Stream(records).value) == Some(records)
  {
    hide Prefixed, Unprefixed;
    if records != [] {
      var r, later := records[0], Stream(records[1..]).value;
      var name, data := Prefixed(r.name).value, Prefixed(r.data).value;
      UnstreamStream(records[1..]);
      UnprefixedPrefixed(r.name, data + later);
      UnprefixedPrefixed(r.data, later);
      assert Stream(records).value == name + (data + later);
      PrefixedNonempty(r.name);
      assert [Record(r.name, r.data)] + records[1..] == records;
    }
  }

  lemma PrefixedNonempty(bs: Bytes)
    requires Prefixed(bs).Some?
    ensures Prefixed(bs).value != []
  {
  }

  // ---------------------------------------------------------------- the walk

  function RecordOf(e: Entry): Record {
    Record(Utf8.Encode(e.path), e.data)
  }

  function RecordsOf(entries: seq<Entry>): seq<Record> {
    if entries == [] then []
    else (if Hashed(entries[0]) then [RecordOf(entries[0])] else []) + RecordsOf(entries[1..])
  }

  /** The files the hash speaks about: regular files outside any `.git` directory. */
  function FilesOf(entries: seq<Entry>): Files {
    if entries == [] then map[]
    else if Hashed(entries[0]) then FilesOf(entries[1..])[entries[0].path := entries[0].data]
    else FilesOf(entries[1..])
  }

  lemma {:induction false} StreamAppend(records: seq<Record>, r: Record)
    ensures Stream(records + [r]) ==
            if Stream(records).Some? && RecordStream(r).Some?
              then Some(Stream(records).value + RecordStream(r).value) else None
  {
    hide RecordStream;
    if records == [] {
      assert [r][1..] == [];
      assert [] + [r] == [r];
      assert Stream([]) == Some([]);
      if RecordStream(r).Some? {
        assert RecordStream(r).value + [] == [] + RecordStream(r).value;
      }
    } else {
      assert (records + [r])[1..] == records[1..] + [r];
      StreamAppend(records[1..], r);
      if Stream(records).Some? && RecordStream(r).Some? {
        assert RecordStream(records[0]).value + (Stream(records[1..]).value + RecordStream(r).value)
            == RecordStream(records[0]).value + Stream(records[1..]).value + RecordStream(r).value;
      }
    }
  }

  lemma {:induction false} RecordsAppend(entries: seq<Entry>, e: Entry)
    ensures RecordsOf(entries + [e]) == RecordsOf(entries) + (if Hashed(e) then [RecordOf(e)] else [])
  {
    RecordsSplit(entries, [e]);
    assert [e][1..] == [];
  }

  lemma {:induction false} StreamOfPrefix(records: seq<Record>, more: seq<Record>)
    requires Stream(records) == None
    ensures Stream(records + more) == None
  {
    if records != [] {
      assert (records + more)[1..] == records[1..] + more;
      if Stream(records[1..]) == None {
        StreamOfPrefix(records[1..], more);
      }
    }
  }

  lemma Assoc<T>(x: seq<T>, y: seq<T>, z: seq<T>)
    ensures x + (y + z) == x + y + z
  {
  }

  lemma {:induction false} RecordsSplit(a: seq<Entry>, b: seq<Entry>)
    ensures RecordsOf(a + b) == RecordsOf(a) + RecordsOf(b)
  {
    hide Hashed, RecordOf;
    if a == [] {
      assert a + b == b;
    } else {
      assert (a + b)[1..] == a[1..] + b && (a + b)[0] == a[0];
      RecordsSplit(a[1..], b);
      Assoc(if Hashed(a[0]) then [RecordOf(a[0])] else [], RecordsOf(a[1..]), RecordsOf(b));
    }
  }

  /** What is hashed of a workspace at `root`: below a `.git` directory, nothing. */
  function StreamBelow(root: Path, entries: seq<Entry>): Option<Bytes> {
    if InGit(root) then Some([]) else Stream(RecordsOf(entries))
  }

  /** The loop of `workspace_sha256` over the sorted walk; it raises when a length needs more than eight bytes. */
  method WorkspaceStream(root: Path, listing: seq<Entry>) returns (stream: Option<Bytes>)
    ensures stream == StreamBelow(root, listing)
  {
    var digest: Bytes := [];
    for i := 0 to |listing|
      invariant StreamBelow(root, listing[..i]) == Some(digest)
    {
      assert listing[..i + 1] == listing[..i] + [listing[i]];
      RecordsAppend(listing[..i], listing[i]);
      if !listing[i].isFile || InGit(root) || InGit(listing[i].path) {
        assert RecordsOf(listing[..i]) + [] == RecordsOf(listing[..i]);
        continue;
      }
      StreamAppend(RecordsOf(listing[..i]), RecordOf(listing[i]));
      var name, data := Prefixed(Utf8.Encode(listing[i].path)), Prefixed(listing[i].data);
      if name == None || data == None {
        assert listing == listing[..i + 1] + listing[i + 1..];
        RecordsSplit(listing[..i + 1], listing[i + 1..]);
        StreamOfPrefix(RecordsOf(listing[..i + 1]), RecordsOf(listing[i + 1..]));
        return None;
      }
      digest := digest + (name.value + data.value);
    }
    assert listing[..|listing|] == listing;
    stream := Some(digest);
  }

  // ---------------------------------------------------------------- streams and files

  function Visible(entries: seq<Entry>): seq<Entry> {
    if entries == [] then []
    else (if Hashed(entries[0]) then [entries[0]] else []) + Visible(entries[1..])
  }

  ghost predicate AllHashed(entries: seq<Entry>) {
    forall i :: 0 <= i < |entries| ==> Hashed(entries[i])
  }

  lemma {:induction false} VisibleMembers(entries: seq<Entry>)
    ensures forall e :: e in Visible(entries) <==> e in entries && Hashed(e)
  {
    hide Hashed;
    if entries != [] {
      VisibleMembers(entries[1..]);
      assert entries == [entries[0]] + entries[1..];
    }
  }

  lemma {:induction false} VisibleSorted(entries: seq<Entry>)
    requires Sorted(entries)
    ensures Sorted(Visible(entries))
  {
    hide Hashed, Less;
    if entries != [] {
      var later := entries[1..];
      VisibleSorted(later);
      VisibleMembers(later);
      var all := [entries[0]] + Visible(later);
      forall i, j | 0 <= i < j < |all| ensures Less(all[i].path, all[j].path) {
        assert all[j] == Visible(later)[j - 1];
        assert all[j] in later;
        var k :| 0 <= k < |later| && later[k] == all[j];
        assert entries[k + 1] == all[j];
        if i > 0 {
          assert all[i] == Visible(later)[i - 1];
        }
      }
      assert [] + Visible(later) == Visible(later);
    }
  }

  lemma {:induction false} VisibleRecords(entries: seq<Entry>)
    ensures RecordsOf(Visible(entries)) == RecordsOf(entries)
  {
    hide Hashed, RecordOf;
    if entries != [] {
      var later := entries[1..];
      VisibleRecords(later);
      VisibleMembers(later);
      if Hashed(entries[0]) {
        assert ([entries[0]] + Visible(later))[1..] == Visible(later);
      } else {
        assert [] + Visible(later) == Visible(later);
        assert [] + RecordsOf(later) == RecordsOf(later);
      }
    }
  }

  /** Leaving out what is not hashed changes neither the order nor the records. */
  lemma VisibleEntries(entries: seq<Entry>)
    requires Sorted(entries)
    ensures Sorted(Visible(entries)) && AllHashed(Visible(entries))
    ensures RecordsOf(Visible(entries)) == RecordsOf(entries)
  {
    hide Hashed, Sorted;
    VisibleSorted(entries);
    VisibleRecords(entries);
    VisibleMembers(entries);
    assert forall i :: 0 <= i < |Visible(entries)| ==> Visible(entries)[i] in Visible(entries);
  }

  lemma {:induction false} FilesOfVisible(entries: seq<Entry>)
    ensures FilesOf(Visible(entries)) == FilesOf(entries)
  {
    hide Hashed;
    if entries != [] {
      FilesOfVisible(entries[1..]);
      if Hashed(entries[0]) {
        assert ([entries[0]] + Visible(entries[1..]))[1..] == Visible(entries[1..]);
      } else {
        assert [] + Visible(entries[1..]) == Visible(entries[1..]);
      }
    }
  }

  /** In a sorted listing of hashed files, the map holds exactly the listed paths, each with its own content. */
  lemma {:induction false} FilesOfSorted(v: seq<Entry>)
    requires Sorted(v) && AllHashed(v)
    ensures forall i :: 0 <= i < |v| ==> v[i].path in FilesOf(v) && FilesOf(v)[v[i].path] == v[i].data
    ensures forall p :: p in FilesOf(v) ==> exists i :: 0 <= i < |v| && v[i].path == p
  {
    hide Hashed;
    if v != [] {
      var later := v[1..];
      FilesOfSorted(later);
      assert Hashed(v[0]);
      forall i | 0 <= i < |v| ensures v[i].path in FilesOf(v) && FilesOf(v)[v[i].path] == v[i].data {
        if i > 0 {
          assert v[i] == later[i - 1];
          LessAsymmetric(v[0].path, v[i].path);
        }
      }
      forall p | p in FilesOf(v) ensures exists i :: 0 <= i < |v| && v[i].path == p {
        if p != v[0].path {
          var i :| 0 <= i < |later| && later[i].path == p;
          assert v[i + 1].path == p;
        }
      }
    }
  }

  /** The first path of a sorted listing is the least in its map. */
  lemma SameFirst(v: seq<Entry>, w: seq<Entry>)
    requires Sorted(v) && Sorted(w) && AllHashed(v) && AllHashed(w)
    requires v != [] && w != [] && FilesOf(v) == FilesOf(w)
    ensures v[0] == w[0]
  {
    FilesOfSorted(v);
    FilesOfSorted(w);
    assert v[0].path in FilesOf(w) && w[0].path in FilesOf(v);
    var i :| 0 <= i < |w| && w[i].path == v[0].path;
    var j :| 0 <= j < |v| && v[j].path == w[0].path;
    if i > 0 && j > 0 {
      LessAsymmetric(w[0].path, v[0].path);
      assert false;
    }
    assert Hashed(v[0]) && Hashed(w[0]);
  }

  /** A sorted listing of hashed files is determined by their map. */
  lemma {:induction false} SortedUnique(v: seq<Entry>, w: seq<Entry>)
    requires Sorted(v) && Sorted(w) && AllHashed(v) && AllHashed(w)
    requires FilesOf(v) == FilesOf(w)
    ensures v == w
  {
    hide Hashed, AllHashed, FilesOf, Sorted;
    FilesOfSorted(v);
    FilesOfSorted(w);
    assert v != [] ==> v[0].path in FilesOf(v);
    assert w != [] ==> w[0].path in FilesOf(w);
    NothingListed();
    if v == [] || w == [] {
      assert v == w;
    } else {
      SameFirst(v, w);
      DropFirst(v);
      DropFirst(w);
      SortedUnique(v[1..], w[1..]);
      assert v == [v[0]] + v[1..] && w == [w[0]] + w[1..];
    }
  }

  lemma NothingListed()
    ensures FilesOf([]) == map[]
  {
  }

  lemma TailSorted(v: seq<Entry>)
    requires v != [] && Sorted(v) && AllHashed(v)
    ensures Sorted(v[1..]) && AllHashed(v[1..])
  {
  }

  lemma FirstNotLater(v: seq<Entry>)
    requires v != [] && Sorted(v) && AllHashed(v)
    ensures v[0].path !in FilesOf(v[1..])
  {
    hide Hashed, FilesOf;
    TailSorted(v);
    var later := v[1..];
    FilesOfSorted(later);
    if v[0].path in FilesOf(later) {
      var i :| 0 <= i < |later| && later[i].path == v[0].path;
      LessAsymmetric(v[0].path, v[i + 1].path);
      assert false;
    }
  }

  lemma DropFirst(v: seq<Entry>)
    requires v != [] && Sorted(v) && AllHashed(v)
    ensures Sorted(v[1..]) && AllHashed(v[1..])
    ensures FilesOf(v[1..]) == FilesOf(v) - {v[0].path}
  {
    hide Sorted, Hashed;
    TailSorted(v);
    FirstNotLater(v);
    assert Hashed(v[0]);
    PutDrop(FilesOf(v[1..]), v[0].path, v[0].data);
  }

  lemma PutDrop(files: Files, p: Path, data: Bytes)
    requires p !in files
    ensures files[p := data] - {p} == files
  {
  }

  lemma {:induction false} RecordsInjective(v: seq<Entry>, w: seq<Entry>)
    requires AllHashed(v) && AllHashed(w) && RecordsOf(v) == RecordsOf(w)
    ensures v == w
  {
    hide Utf8.Encode;
    if v != [] {
      assert Hashed(v[0]);
    }
    if w != [] {
      assert Hashed(w[0]);
    }
    if v != [] && w != [] {
      assert RecordsOf(v)[0] == RecordOf(v[0]) && RecordsOf(w)[0] == RecordOf(w[0]);
      Utf8.EncodeInjective(v[0].path, w[0].path);
      assert RecordsOf(v)[1..] == RecordsOf(v[1..]) && RecordsOf(w)[1..] == RecordsOf(w[1..]);
      assert AllHashed(v[1..]) && AllHashed(w[1..]);
      RecordsInjective(v[1..], w[1..]);
      assert v == [v[0]] + v[1..] && w == [w[0]] + w[1..];
    }
  }

  /**
   * Two states of a workspace hash alike exactly when they hold the same files outside `.git`, or the workspace itself
   * lies below a directory named `.git`.
   */
  lemma SameHashSameFiles(root: Path, a: seq<Entry>, b: seq<Entry>)
    requires Sorted(a) && Sorted(b)
    requires StreamBelow(root, a).Some? && StreamBelow(root, b).Some?
    ensures Sha(StreamBelow(root, a)) == Sha(StreamBelow(root, b)) <==> InGit(root) || FilesOf(a) == FilesOf(b)
  {
    if !InGit(root) {
      SameStreamSameFiles(a, b);
    }
  }

  lemma SameStreamSameFiles(a: seq<Entry>, b: seq<Entry>)
    requires Sorted(a) && Sorted(b)
    requires Stream(RecordsOf(a)).Some? && Stream(RecordsOf(b)).Some?
    ensures Sha(Stream(RecordsOf(a))) == Sha(Stream(RecordsOf(b))) <==> FilesOf(a) == FilesOf(b)
  {
    hide Stream, RecordsOf, FilesOf, Sorted, AllHashed, Hashed;
    VisibleEntries(a);
    VisibleEntries(b);
    FilesOfVisible(a);
    FilesOfVisible(b);
    if FilesOf(a) == FilesOf(b) {
      SortedUnique(Visible(a), Visible(b));
    }
    if Sha(Stream(RecordsOf(a))) == Sha(Stream(RecordsOf(b))) {
      UnstreamStream(RecordsOf(a));
      UnstreamStream(RecordsOf(b));
      RecordsInjective(Visible(a), Visible(b));
    }
  }

  // ---------------------------------------------------------------- the bytes

  /** A length takes eight bytes, the most significant first. */
  lemma EightBytesExactly(n: nat)
    requires n < LENGTH_LIMIT
    ensures var b: seq<int> := BigEndian(n, 8);
            n == 0x100_0000_0000_0000 * b[0] + 0x1_0000_0000_0000 * b[1] + 0x100_0000_0000 * b[2]
                 + 0x1_0000_0000 * b[3] + 0x100_0000 * b[4] + 0x1_0000 * b[5] + 0x100 * b[6] + b[7]
  {
    var b: seq<int> := BigEndian(n, 8);
    EightBytes(n);
    assert b[..7][..6] == b[..6] && b[..6][..5] == b[..5] && b[..5][..4] == b[..4] && b[..4][..3] == b[..3];
    assert b[..3][..2] == b[..2] && b[..2][..1] == b[..1] && b[..1][..0] == [];
    assert FromBigEndian(b[..1]) == b[0];
    assert FromBigEndian(b[..2]) == 256 * b[0] + b[1];
    assert FromBigEndian(b[..3]) == 256 * FromBigEndian(b[..2]) + b[2];
    assert FromBigEndian(b[..4]) == 256 * FromBigEndian(b[..3]) + b[3];
    assert FromBigEndian(b[..5]) == 256 * FromBigEndian(b[..4]) + b[4];
    assert FromBigEndian(b[..6]) == 256 * FromBigEndian(b[..5]) + b[5];
    assert FromBigEndian(b[..7]) == 256 * FromBigEndian(b[..6]) + b[6];
    assert FromBigEndian(b) == 256 * FromBigEndian(b[..7]) + b[7];
  }

  /** The name `.git` stands at `i`, between two separators or ends of the path. */
  predicate GitAt(path: Path, i: nat) {
    && i + 4 <= |path| && path[i..i + 4] == ".git"
    && (i == 0 || path[i - 1] == '/') && (i + 4 == |path| || path[i + 4] == '/')
  }

  /** A path lies below `.git`, or is it, if that name stands somewhere in it. */
  lemma InGitExactly(path: Path)
    ensures InGit(path) <==> exists i: nat :: GitAt(path, i)
  {
    hide SplitOn;
    var parts := SplitOn(path, '/');
    PatchPaths.SplitOnExactly(path, '/');
    assert ".git" in parts <==> parts[0] == ".git" || ".git" in parts[1..];
    if parts[0] == ".git" {
      assert path[0..4] == ".git";
      assert GitAt(path, 0);
    }
    if ".git" in parts[1..] {
      var i, j :| 0 < i <= j <= |path| && PatchPaths.Delimited(path, '/', i, j) && path[i..j] == ".git";
      assert path[i..i + 4] == ".git";
      assert GitAt(path, i);
    }
    if i: nat :| GitAt(path, i) {
      DelimitedGit(path, i);
      if i == 0 {
        PatchPaths.SameEnd(path, '/', 4, |parts[0]|);
      } else {
        assert PatchPaths.LaterPart(path, '/', ".git");
      }
    }
  }

  lemma DelimitedGit(path: Path, i: nat)
    requires GitAt(path, i)
    ensures PatchPaths.Delimited(path, '/', i, i + 4)
  {
    forall m | i <= m < i + 4 ensures path[m] != '/' {
      assert path[m] == ".git"[m - i];
    }
  }

  /**
   * What each entry of the walk adds to the stream: a regular file outside `.git` the length of its path and the path,
   * then the length of its content and the content; anything else nothing.
   */
  lemma StreamOfEntry(root: Path, before: seq<Entry>, e: Entry)
    requires !InGit(root) && StreamBelow(root, before).Some?
    requires |Utf8.Encode(e.path)| < LENGTH_LIMIT && |e.data| < LENGTH_LIMIT
    ensures StreamBelow(root, []) == Some([])
    ensures var name := Utf8.Encode(e.path);
            StreamBelow(root, before + [e]) ==
            if e.isFile && !InGit(e.path)
            then Some(StreamBelow(root, before).value + BigEndian(|name|, 8) + name + BigEndian(|e.data|, 8) + e.data)
            else StreamBelow(root, before)
  {
    hide InGit, Utf8.Encode, BigEndian;
    RecordsAppend(before, e);
    if Hashed(e) {
      StreamAppend(RecordsOf(before), RecordOf(e));
      var first, name := StreamBelow(root, before).value, Utf8.Encode(e.path);
      assert first + (BigEndian(|name|, 8) + name + (BigEndian(|e.data|, 8) + e.data))
          == first + BigEndian(|name|, 8) + name + BigEndian(|e.data|, 8) + e.data;
    } else {
      assert RecordsOf(before) + [] == RecordsOf(before);
    }
  }

  /** The files that the hash speaks about: each regular file outside `.git`, with its content. */
  lemma FilesExactly(entries: seq<Entry>)
    requires Sorted(entries)
    ensures forall p: Path, data: Bytes :: (p in FilesOf(entries) && FilesOf(entries)[p] == data) <==>
                     Entry(p, true, data) in entries && !InGit(p)
  {
    hide InGit, FilesOf, Sorted;
    var v := Visible(entries);
    VisibleEntries(entries);
    VisibleMembers(entries);
    FilesOfVisible(entries);
    FilesOfSorted(v);
    forall p: Path, data: Bytes
      ensures (p in FilesOf(v) && FilesOf(v)[p] == data) <==> Entry(p, true, data) in entries && !InGit(p)
    {
      if p in FilesOf(v) && FilesOf(v)[p] == data {
        var i :| 0 <= i < |v| && v[i].path == p;
        assert v[i] in v && v[i] == Entry(p, true, data);
      }
      if Entry(p, true, data) in entries && !InGit(p) {
        assert Entry(p, true, data) in v;
      }
    }
  }
}
