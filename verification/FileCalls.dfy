/** The file calls on a finished image: the table of names that the walk of FileRefs uses is the one
    that the bytes of the image show (kernel/fs/fs.c, tools/mkfs.c). */
module FileCalls {
  import opened FsFormat
  import opened FsDir
  import opened FsBuild
  import FsPath
  import FileRefs
  import opened MachineWords

  function AllNames(inputs: seq<Input>): set<FileRefs.Name> {
    {DOT, CONSOLENAME} + set i | 0 <= i < |inputs| :: inputs[i].name
  }

  /** What an inode of the image is. */
  function TypeOf(i: nat): FileRefs.Type {
    if i == ROOTINO then FileRefs.Dir else if i == 2 then FileRefs.Device(CONSOLE) else FileRefs.Plain
  }

  /** The inode the root directory has for a name, 0 if none. */
  function NumberOf(inputs: seq<Input>, name: FileRefs.Name): nat {
    if forall k :: 0 <= k < |name| ==> 0 <= name[k] < 256 then FsPath.InodeOf(inputs, name) else 0
  }

  function EntriesOf(inputs: seq<Input>): map<(nat, FileRefs.Name), nat> {
    map name | name in AllNames(inputs) :: (ROOTINO, name) := NumberOf(inputs, name)
  }

  /** The image of these files as a table. */
  function ImageOf(inputs: seq<Input>): FileRefs.Image {
    FileRefs.Image(map i: nat | 1 <= i < 3 + |inputs| :: TypeOf(i), EntriesOf(inputs),
                   if (2 + |inputs|) % 64 == 0 then {ROOTINO} else {})
  }

  function Goal(found: FileRefs.Found): FsPath.Goal {
    match found
    case Missing => FsPath.Nowhere
    case Halts => FsPath.Panics
    case At(inum) => FsPath.Inum(inum)
  }

  function Cuts(elements: seq<seq<Byte>>): (names: seq<FileRefs.Name>)
    ensures |names| == |elements|
  {
    if elements == [] then [] else [FsPath.Cut(elements[0])] + Cuts(elements[1..])
  }

  /** The root has a name just when there is an inode for it. */
  lemma Known(inputs: seq<Input>, name: seq<Byte>)
    ensures (ROOTINO, name) in EntriesOf(inputs) <==> FsPath.InodeOf(inputs, name) != 0
    ensures FsPath.InodeOf(inputs, name) != 0 ==> EntriesOf(inputs)[(ROOTINO, name)] == FsPath.InodeOf(inputs, name)
  {
    assert NumberOf(inputs, name) == FsPath.InodeOf(inputs, name);
    var i := FsPath.InodeOf(inputs, name);
    if i >= 3 { assert inputs[i - 3].name == name; }
    if k :| 0 <= k < |inputs| && inputs[k].name == name { assert i != 0; }
  }

  /** A path leads to the same place over the table as over the bytes of the image. */
  lemma {:induction false} SameWalk(inputs: seq<Input>, inum: nat, elements: seq<seq<Byte>>)
    requires 1 <= inum < 3 + |inputs|
    ensures Goal(FileRefs.Resolve(ImageOf(inputs), inum, Cuts(elements))) == FsPath.Resolve(inputs, inum, elements)
    decreases |elements|
  {
    hide EntriesOf, FsPath.InodeOf;
    if elements != [] && inum == ROOTINO {
      var name := FsPath.Cut(elements[0]);
      Known(inputs, name);
      assert Cuts(elements)[0] == name && Cuts(elements)[1..] == Cuts(elements[1..]);
      if FsPath.InodeOf(inputs, name) != 0 { SameWalk(inputs, FsPath.InodeOf(inputs, name), elements[1..]); }
    }
  }

  /** The numbers from 1 to `n`. */
  ghost function Numbers(n: nat): (s: set<nat>)
    ensures |s| == n && forall i: nat :: i in s <==> 1 <= i <= n
  {
    if n == 0 then {} else Numbers(n - 1) + {n}
  }

  lemma EntryTyped(inputs: seq<Input>, d: (nat, FileRefs.Name))
    requires d in EntriesOf(inputs)
    ensures 1 <= EntriesOf(inputs)[d] < 3 + |inputs|
  {
    var name: FileRefs.Name :| name in AllNames(inputs) && d == (ROOTINO, name);
    assert forall k :: 0 <= k < |name| ==> 0 <= name[k] < 256;
    var b: seq<Byte> := name;
    Known(inputs, b);
  }

  /** Every path over the image can be followed just when the root's entries do not fill their last
      block. */
  lemma SoundImage(inputs: seq<Input>)
    ensures FileRefs.Sound(ImageOf(inputs)) <==> (2 + |inputs|) % 64 != 0
    ensures |ImageOf(inputs).types| == 2 + |inputs|
  {
    var g := ImageOf(inputs);
    forall d | d in g.entries ensures g.entries[d] in g.types {
      EntryTyped(inputs, d);
    }
    assert g.types.Keys == Numbers(2 + |inputs|);
  }

  /** On an image of at most 48 files no file call of any process ever panics. */
  method NeverPanics(inputs: seq<Input>, n: nat, init: nat, calls: seq<FileRefs.Call>)
    returns (t: FileRefs.Tables, halted: bool, rs: seq<int>, ghost states: seq<FileRefs.State>)
    requires init < n
    ensures |inputs| <= FileRefs.NINODE - 2 ==> !halted && FileRefs.Settled(t.St())
    ensures |rs| <= |calls| && (halted <==> |rs| < |calls|)
    ensures FileRefs.IsRun(calls[..|rs|], rs, states, ImageOf(inputs)) && FileRefs.OnlyInit(states[0], n, init)
    ensures !halted ==> states[|rs|] == t.St() && FileRefs.Kinds(t.files, t.inodes, ImageOf(inputs))
    ensures halted ==>
              FileRefs.Breaks(calls[|rs|], ImageOf(inputs)) || FileRefs.Crowded(t.inodes, ImageOf(inputs))
  {
    hide ImageOf, FileRefs.Breaks, FileRefs.Crowded, FileRefs.Sound, FileRefs.Effect, FileRefs.Settled,
         FileRefs.OnlyInit, FileRefs.Kinds;
    SoundImage(inputs);
    t, halted, rs, states := FileRefs.Boot(n, init, calls, ImageOf(inputs));
  }
}
