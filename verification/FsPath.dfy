/** Path names, one element at a time, and the walk along a path over a finished image
    (kernel/fs/fs.c, skipelem and namex). */
module FsPath {
  import opened FsFormat
  import opened FsTree
  import opened FsFile
  import opened FsBitmap
  import opened FsDir
  import opened Mkfs
  import opened FsBuild
  import opened MachineWords

  const SLASH := 47

  /** The characters before the first slash. */
  function Span(p: seq<Byte>): (n: nat)
    ensures n <= |p| && (forall i :: 0 <= i < n ==> p[i] != SLASH) && (n < |p| ==> p[n] == SLASH)
  {
    if p == [] || p[0] == SLASH then 0 else 1 + Span(p[1..])
  }

  /** The elements of a path: what lies between its slashes, where there is anything. */
  function Elements(p: seq<Byte>): seq<seq<Byte>>
    decreases |p|
  {
    if p == [] then []
    else if p[0] == SLASH then Elements(p[1..])
    else [p[..Span(p)]] + Elements(p[Span(p)..])
  }

  /** An element as it is put into a name field: cut to its size, or ended by NUL. */
  ghost predicate NameIs(name: seq<Byte>, e: seq<Byte>) {
    |name| == DIRSIZ && if |e| >= DIRSIZ then name == e[..DIRSIZ] else name[..|e|] == e && name[|e|] == 0
  }

  lemma SkipSlash(path: seq<Byte>, i: nat)
    requires i < |path| && path[i] == SLASH
    ensures Elements(path[i..]) == Elements(path[i + 1..])
  {
    assert path[i..][1..] == path[i + 1..];
  }

  lemma SpanIs(p: seq<Byte>, n: nat)
    requires n <= |p| && (forall i :: 0 <= i < n ==> p[i] != SLASH) && (n < |p| ==> p[n] == SLASH)
    ensures Span(p) == n
  {
  }

  lemma ElementAt(path: seq<Byte>, i: nat, j: nat)
    requires i < j <= |path| && (forall k :: i <= k < j ==> path[k] != SLASH) && (j < |path| ==> path[j] == SLASH)
    ensures Elements(path[i..]) == [path[i..j]] + Elements(path[j..])
  {
    SpanIs(path[i..], j - i);
    assert path[i..][..j - i] == path[i..j] && path[i..][j - i..] == path[j..];
  }

  /** Takes the first element off a path; fails just when it has none. What is left has the other
      elements and starts with none of its slashes. `buf` is what the name field held before. */
  method Skipelem(path: seq<Byte>, buf: seq<Byte>) returns (ok: bool, name: seq<Byte>, rest: seq<Byte>)
    requires |buf| == DIRSIZ
    ensures ok == (Elements(path) != [])
    ensures ok ==> NameIs(name, Elements(path)[0]) && Elements(rest) == Elements(path)[1..]
    ensures ok ==> |rest| < |path| && (rest != [] ==> rest[0] != SLASH) && forall b :: b in rest ==> b in path
    ensures |name| == DIRSIZ
  {
    hide Elements, Span;
    name, rest := buf, [];
    var i := SkipSlashes(path, 0);
    assert path[0..] == path;
    if i == |path| {
      NoElements(path);
      return false, name, rest;
    }
    var s := i;
    while i < |path| && path[i] != SLASH
      invariant s <= i <= |path| && forall k :: s <= k < i ==> path[k] != SLASH
    {
      i := i + 1;
    }
    ElementAt(path, s, i);
    var e := path[s..i];
    if |e| >= DIRSIZ {
      name := e[..DIRSIZ];
    } else {
      name := (e + buf[|e|..])[|e| := 0];
      assert name[..|e|] == e;
    }
    var j := SkipSlashes(path, i);
    rest := path[j..];
    ok := true;
  }

  method SkipSlashes(path: seq<Byte>, i0: nat) returns (i: nat)
    requires i0 <= |path|
    ensures i0 <= i <= |path| && (i < |path| ==> path[i] != SLASH) && Elements(path[i0..]) == Elements(path[i..])
  {
    hide Elements;
    i := i0;
    while i < |path| && path[i] == SLASH
      invariant i0 <= i <= |path| && Elements(path[i0..]) == Elements(path[i..])
    {
      SkipSlash(path, i);
      i := i + 1;
    }
  }

  lemma NoElements(path: seq<Byte>)
    ensures Elements(path[|path|..]) == []
  {
  }

  /** An element as far as a directory entry can hold it. */
  function Cut(e: seq<Byte>): (c: seq<Byte>)
    ensures |c| <= DIRSIZ
  {
    if |e| >= DIRSIZ then e[..DIRSIZ] else e
  }

  lemma {:induction false} CleanElements(p: seq<Byte>)
    requires 0 !in p
    ensures forall e :: e in Elements(p) ==> 0 !in e
    decreases |p|
  {
    if p != [] { CleanElements(if p[0] == SLASH then p[1..] else p[Span(p)..]); }
  }

  lemma {:induction false} CharsFull(s: seq<Byte>)
    requires 0 !in s
    ensures Chars(s) == s
    decreases |s|
  {
    if s != [] { CharsFull(s[1..]); }
  }

  lemma {:induction false} CharsEnd(s: seq<Byte>, e: seq<Byte>)
    requires |e| < |s| && s[..|e|] == e && s[|e|] == 0 && 0 !in e
    ensures Chars(s) == e
    decreases |e|
  {
    if e != [] {
      assert s[0] == e[0] && s[1..][..|e| - 1] == e[1..];
      CharsEnd(s[1..], e[1..]);
    }
  }

  /** Whatever else is left in the name field, dirlookup takes it for the cut element. */
  lemma FieldMatches(d: Dirent, name: seq<Byte>, e: seq<Byte>)
    requires NameIs(name, e) && 0 !in e
    ensures Matches(d, name) <==> Matches(d, NameField(Cut(e)))
  {
    hide NameField, Chars, Namecmp;
    assert Chars(name) == Cut(e) by {
      if |e| >= DIRSIZ { CharsFull(name); } else { CharsEnd(name, e); }
    }
    var c := Cut(e);
    CharsPadded(c, DIRSIZ - |c|);
    assert Chars(NameField(c)) == c by { FieldIs(c); }
    if |d.name| == DIRSIZ {
      NamecmpIsSame(name, d.name, 0);
      NamecmpIsSame(NameField(c), d.name, 0);
      assert name[0..] == name && NameField(c)[0..] == NameField(c);
    }
  }

  lemma FieldIs(c: seq<Byte>)
    requires |c| <= DIRSIZ
    ensures NameField(c) == c + seq(DIRSIZ - |c|, _ => 0)
  {
  }

  lemma FieldLooks(es: seq<Dirent>, name: seq<Byte>, e: seq<Byte>, whole: bool, r: Look)
    requires NameIs(name, e) && 0 !in e && LookIs(es, name, whole, r)
    ensures LookIs(es, NameField(Cut(e)), whole, r)
  {
    assert |name| == DIRSIZ;
    hide NameField, Matches, NameIs, Cut;
    forall i | 0 <= i < |es| ensures Matches(es[i], name) <==> Matches(es[i], NameField(Cut(e))) {
      FieldMatches(es[i], name, e);
    }
  }

  /** The inode the root directory has for a name, 0 if none. */
  function FirstFrom(inputs: seq<Input>, name: seq<Byte>, k: nat): (i: nat)
    requires k <= |inputs|
    ensures i == 0 || (3 + k <= i < 3 + |inputs| && inputs[i - 3].name == name)
    ensures forall j :: k <= j < |inputs| && (i == 0 || j < i - 3) ==> inputs[j].name != name
    decreases |inputs| - k
  {
    if k == |inputs| then 0 else if inputs[k].name == name then 3 + k else FirstFrom(inputs, name, k + 1)
  }

  function InodeOf(inputs: seq<Input>, name: seq<Byte>): (i: nat)
    ensures i < 3 + |inputs|
  {
    if name == DOT then ROOTINO else if name == CONSOLENAME then 2 else FirstFrom(inputs, name, 0)
  }

  /** It is the least of those with that name. */
  lemma InodeOfIs(inputs: seq<Input>, name: seq<Byte>)
    ensures InodeOf(inputs, name) == 0 ==> forall i: nat :: !Names(inputs, name, i)
    ensures InodeOf(inputs, name) != 0 ==> Names(inputs, name, InodeOf(inputs, name))
    ensures InodeOf(inputs, name) != 0 ==> forall j: nat :: Names(inputs, name, j) ==> InodeOf(inputs, name) <= j
  {
  }

  datatype Goal = Panics | Nowhere | Inum(i: nat)

  /** Where a path of these elements leads from inode `inum` of an image of these files. The only
      directory is the root. */
  function Resolve(inputs: seq<Input>, inum: nat, elements: seq<seq<Byte>>): Goal
    decreases |elements|
  {
    if elements == [] then Inum(inum)
    else if inum != ROOTINO then Nowhere
    else
      var i := InodeOf(inputs, Cut(elements[0]));
      if i != 0 then Resolve(inputs, i, elements[1..])
      else if (2 + |inputs|) % 64 == 0 then Panics
      else Nowhere
  }

  /** One lookup of the walk. */
  method Find(disk: Disk, name: seq<Byte>, ghost e: seq<Byte>, ghost inputs: seq<Input>) returns (r: Look)
    requires NamesOk(inputs) && DiskOk(disk) && ShowsRoot(disk, Entries(inputs)) && NameIs(name, e) && 0 !in e
    ensures r.Found? <==> InodeOf(inputs, Cut(e)) != 0
    ensures r.Found? ==> r.inum == InodeOf(inputs, Cut(e))
    ensures r == Panic <==> InodeOf(inputs, Cut(e)) == 0 && (2 + |inputs|) % 64 == 0
  {
    assert |name| == DIRSIZ;
    hide Entries, NodeAt, Names, NameField, LookIs, InodeOf, NameIs, Cut;
    ghost var n := Blocks(DESIZE * (2 + |inputs|));
    r := Dirlookup(disk, NodeAt(disk, ROOTINO), name, Entries(inputs), n);
    FieldLooks(Entries(inputs), name, e, NodeAt(disk, ROOTINO).size <= n * BSIZE, r);
    ghost var c := Cut(e);
    assert 0 !in c by { CutClean(e); }
    RootLookup(inputs, disk, c, r);
    InodeOfIs(inputs, c);
  }

  lemma CutClean(e: seq<Byte>)
    requires 0 !in e
    ensures 0 !in Cut(e)
  {
  }

  /** namei on a finished image, for a process whose working directory is the root: from the
      characters of a path to the inode. */
  method Namei(disk: Disk, path: seq<Byte>, ghost inputs: seq<Input>, ghost used: nat, ghost owner: Owners,
               ghost nodes: Nodes)
    returns (r: Goal)
    requires NamesOk(inputs) && |inputs| <= MAXFILES && Made(disk, inputs, used, owner, nodes) && 0 !in path
    ensures r == Resolve(inputs, ROOTINO, Elements(path))
  {
    hide Elements, Entries, NodeAt, InodeOf, NameIs, ShowsRoot, Tree, InUse, Bits, FileOn, Cut;
    var inum, rest, name := ROOTINO, path, seq(DIRSIZ, _ => 0);
    while true
      invariant 1 <= inum < 3 + |inputs| && 0 !in rest && |name| == DIRSIZ
      invariant Resolve(inputs, ROOTINO, Elements(path)) == Resolve(inputs, inum, Elements(rest))
      decreases |rest|
    {
      ghost var elements := Elements(rest);
      CleanElements(rest);
      var ok;
      ok, name, rest := Skipelem(rest, name);
      if !ok { return Inum(inum); }
      var ty := NodeAt(disk, inum).head0 % 0x1_0000;
      if ty == 0 { return Panics; }
      if ty != T_DIR { return Nowhere; }
      assert elements[0] in elements;
      var look := Find(disk, name, elements[0], inputs);
      match look {
        case Panic => return Panics;
        case Missing => return Nowhere;
        case Found(next, _) => inum := next;
      }
    }
  }

  lemma OneElement(name: seq<Byte>)
    requires name != [] && SLASH !in name
    ensures Elements([SLASH] + name) == [name]
  {
    var p: seq<Byte> := [SLASH] + name;
    assert p[1..] == name;
    SpanIs(name, |name|);
    assert name[..|name|] == name && name[|name|..] == [];
    assert Elements(name) == [name] + Elements([]);
  }

  lemma OneStep(inputs: seq<Input>, i: nat)
    requires i < |inputs| && |inputs[i].name| <= DIRSIZ && inputs[i].name != DOT && inputs[i].name != CONSOLENAME
    requires forall j :: 0 <= j < i ==> inputs[j].name != inputs[i].name
    ensures Resolve(inputs, ROOTINO, [inputs[i].name]) == Inum(3 + i)
  {
    var name := inputs[i].name;
    assert Cut(name) == name;
    assert InodeOf(inputs, name) == 3 + i;
    assert Resolve(inputs, 3 + i, [name][1..]) == Inum(3 + i);
  }

  /** From a path string to a file's bytes: on the finished image "/name" leads to the first file
      given by that name, and what can be read there is what was given. */
  lemma PathFinds(inputs: seq<Input>, disk: Disk, used: nat, owner: Owners, nodes: Nodes, i: nat)
    requires NamesOk(inputs) && Made(disk, inputs, used, owner, nodes) && i < |inputs| && i < MAXFILES
    requires inputs[i].name !in [[], DOT, CONSOLENAME] && SLASH !in inputs[i].name
    requires forall j :: 0 <= j < i ==> inputs[j].name != inputs[i].name
    ensures Resolve(inputs, ROOTINO, Elements([SLASH] + inputs[i].name)) == Inum(3 + i)
    ensures DiskOk(disk) && 3 + i < IMAX && FileOn(disk, 3 + i, inputs[i].data)
  {
    hide Elements, FileOn, Tree, ShowsRoot, InUse, Bits, NodeAt, Resolve;
    var name := inputs[i].name;
    assert name != [] && name != DOT && name != CONSOLENAME;
    OneElement(name);
    OneStep(inputs, i);
  }
}
