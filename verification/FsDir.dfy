/** Directories: fixed-size entries of a name and an inode number, and the kernel's linear
    lookup (include/fs.h, kernel/fs/fs.c). */
module FsDir {
  import opened FsFormat
  import opened FsTree
  import opened FsFile
  import opened FsRead
  import opened MachineWords

  const DIRSIZ := 14
  const DESIZE := 16
  const T_DIR := 1

  datatype Dirent = Dirent(inum: nat, name: seq<Byte>)

  predicate DirentOk(e: Dirent) { e.inum < 0x1_0000 && |e.name| == DIRSIZ }

  function EncodeDirent(e: Dirent): (b: seq<Byte>)
    requires DirentOk(e)
    ensures |b| == DESIZE
  {
    [e.inum % 256, e.inum / 256] + e.name
  }

  function DecodeDirent(b: seq<Byte>): (e: Dirent)
    requires |b| == DESIZE
    ensures |e.name| == DIRSIZ
  {
    var lo: int, hi: int := b[0], b[1];
    Dirent(lo + 256 * hi, b[2..])
  }

  lemma DirentRoundTrip(e: Dirent)
    requires DirentOk(e)
    ensures DecodeDirent(EncodeDirent(e)) == e
  {
    assert EncodeDirent(e)[2..] == e.name;
  }

  ghost predicate AllOk(es: seq<Dirent>) { forall i :: 0 <= i < |es| ==> DirentOk(es[i]) }

  function Encode(es: seq<Dirent>): (b: seq<Byte>)
    requires AllOk(es)
    ensures |b| == DESIZE * |es|
  {
    if es == [] then [] else Encode(es[..|es| - 1]) + EncodeDirent(es[|es| - 1])
  }

  lemma {:induction false} EncodeAt(es: seq<Dirent>, i: nat)
    requires AllOk(es) && i < |es|
    ensures Encode(es)[DESIZE * i..DESIZE * (i + 1)] == EncodeDirent(es[i])
    decreases |es|
  {
    var m := |es| - 1;
    if i < m {
      EncodeAt(es[..m], i);
      assert Encode(es)[DESIZE * i..DESIZE * (i + 1)] == Encode(es[..m])[DESIZE * i..DESIZE * (i + 1)];
    }
  }

  /** strncmp(s, t, DIRSIZ) == 0, from position `i`. */
  predicate Namecmp(s: seq<Byte>, t: seq<Byte>, i: nat)
    requires |s| == |t| == DIRSIZ && i <= DIRSIZ
    decreases DIRSIZ - i
  {
    i == DIRSIZ || (s[i] == t[i] && (s[i] == 0 || Namecmp(s, t, i + 1)))
  }

  /** The characters of a name: up to the first NUL, if it has one. */
  function Chars(s: seq<Byte>): seq<Byte> { if s == [] || s[0] == 0 then [] else [s[0]] + Chars(s[1..]) }

  /** Two name fields compare equal just when they spell the same name. */
  lemma {:induction false} NamecmpIsSame(s: seq<Byte>, t: seq<Byte>, i: nat)
    requires |s| == |t| == DIRSIZ && i <= DIRSIZ
    ensures Namecmp(s, t, i) <==> Chars(s[i..]) == Chars(t[i..])
    decreases DIRSIZ - i
  {
    if i < DIRSIZ {
      NamecmpIsSame(s, t, i + 1);
      assert s[i..][1..] == s[i + 1..] && t[i..][1..] == t[i + 1..];
      if s[i] != 0 && t[i] != 0 {
        assert Chars(s[i..])[1..] == Chars(s[i + 1..]) && Chars(t[i..])[1..] == Chars(t[i + 1..]);
      }
    }
  }

  /** The directory's first `n` blocks, and no others, are there and hold entries `es` and zeros. */
  ghost predicate ShowsDir(disk: Disk, node: Node, es: seq<Dirent>, n: nat) {
    Readable(disk, node) && AllOk(es) && n <= MAXFILE &&
    DESIZE * |es| <= n * BSIZE && DESIZE * |es| <= node.size && node.size % DESIZE == 0 &&
    (forall f :: 0 <= f < MAXFILE ==> (Bmap(disk, node.addrs, f).There? <==> f < n)) &&
    forall k :: 0 <= k < n * BSIZE && k < node.size ==> ByteOf(disk, node, k) == Padded(Encode(es), k)
  }

  datatype Look = Panic | Missing | Found(inum: nat, off: nat)

  predicate Matches(e: Dirent, name: seq<Byte>)
    requires |name| == DIRSIZ
  {
    e.inum != 0 && |e.name| == DIRSIZ && Namecmp(name, e.name, 0)
  }

  /** The first matching entry; without one, a directory with a missing block panics. */
  ghost predicate LookIs(es: seq<Dirent>, name: seq<Byte>, whole: bool, r: Look)
    requires |name| == DIRSIZ
  {
    match r
    case Found(inum, off) =>
      exists i :: 0 <= i < |es| && off == DESIZE * i && Matches(es[i], name) && inum == es[i].inum &&
        forall j :: 0 <= j < i ==> !Matches(es[j], name)
    case Missing => whole && forall j :: 0 <= j < |es| ==> !Matches(es[j], name)
    case Panic => !whole && forall j :: 0 <= j < |es| ==> !Matches(es[j], name)
  }

  /** An entry is read whole, or not at all if its block is missing. */
  lemma EntryLength(disk: Disk, node: Node, es: seq<Dirent>, n: nat, i: nat, end: End, r: seq<Byte>)
    requires ShowsDir(disk, node, es, n) && DESIZE * i < node.size
    requires ReadIs(disk, node, DESIZE * i, DESIZE, DESIZE, end, r)
    ensures end.Returned? && Holds(disk, node, DESIZE * i, r) && |r| == if DESIZE * i < n * BSIZE then DESIZE else 0
  {
    hide Bmap, Encode, Padded, ByteOf;
    var off := DESIZE * i;
    assert Clip(node.size, off, DESIZE) == DESIZE;
    if off >= n * BSIZE {
      assert !HasByte(disk, node, off);
    } else {
      SameBlock(i, n);
      forall k | off <= k < off + DESIZE ensures HasByte(disk, node, k) {
      }
    }
  }

  /** What the kernel reads for entry `i`. */
  lemma EntryRead(disk: Disk, node: Node, es: seq<Dirent>, n: nat, i: nat, r: seq<Byte>)
    requires ShowsDir(disk, node, es, n) && DESIZE * i < node.size && Holds(disk, node, DESIZE * i, r)
    requires DESIZE * i < n * BSIZE && |r| == DESIZE
    ensures i < |es| ==> DecodeDirent(r) == es[i]
    ensures i >= |es| ==> DecodeDirent(r).inum == 0
  {
    hide Bmap, Encode, EncodeDirent, DecodeDirent, HasByte, ByteOf, Clip;
    var off := DESIZE * i;
    SameBlock(i, n);
    forall k | 0 <= k < DESIZE ensures r[k] == Padded(Encode(es), off + k) {
      assert r[off + k - off] == ByteOf(disk, node, off + k);
    }
    if i < |es| {
      EncodeAt(es, i);
      assert r == Encode(es)[DESIZE * i..DESIZE * (i + 1)];
      DirentRoundTrip(es[i]);
    } else {
      ZeroEntry(r);
    }
  }

  lemma ZeroEntry(r: seq<Byte>)
    requires |r| == DESIZE && r[0] == 0 && r[1] == 0
    ensures DecodeDirent(r).inum == 0
  {
  }

  /** No entry crosses a block boundary. */
  lemma SameBlock(i: nat, n: nat)
    requires DESIZE * i < n * BSIZE
    ensures DESIZE * (i + 1) <= n * BSIZE
    ensures forall k :: DESIZE * i <= k < DESIZE * (i + 1) ==> k / BSIZE < n
  {
    assert i < 64 * n;
    forall k | DESIZE * i <= k < DESIZE * (i + 1) ensures k / BSIZE < n {
      assert k < 1024 * n;
    }
  }

  method Dirlookup(disk: Disk, node: Node, name: seq<Byte>, ghost es: seq<Dirent>, ghost n: nat) returns (r: Look)
    requires ShowsDir(disk, node, es, n) && |name| == DIRSIZ
    ensures if node.head0 % 0x1_0000 == T_DIR then LookIs(es, name, node.size <= n * BSIZE, r) else r == Panic
  {
    hide Bmap, Encode, ReadIs, Namecmp, DecodeDirent;
    if node.head0 % 0x1_0000 != T_DIR { return Panic; }
    var i := 0;
    while DESIZE * i < node.size
      invariant DESIZE * i <= node.size && forall j :: 0 <= j < i && j < |es| ==> !Matches(es[j], name)
      invariant DESIZE * i <= n * BSIZE
    {
      var end, b := Readi(disk, node, DESIZE * i, DESIZE, DESIZE);
      EntryLength(disk, node, es, n, i, end, b);
      if |b| != DESIZE { return Panic; }
      EntryRead(disk, node, es, n, i, b);
      SameBlock(i, n);
      var de := DecodeDirent(b);
      if de.inum != 0 && Namecmp(name, de.name, 0) {
        return Found(de.inum, DESIZE * i);
      }
      i := i + 1;
    }
    return Missing;
  }
}
