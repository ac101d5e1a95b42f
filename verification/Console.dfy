/** The console's input ring: editing, committing and reading lines (kernel/dev/console.c). The
    indices count without end here; what the code compares is their value in 32 bits. */
module Console {
  import opened MachineWords

  const SIZE := 128
  const NEWLINE := 10
  const RETURN := 13
  const CTRL_D := 4
  const CTRL_H := 8
  const CTRL_P := 16
  const CTRL_U := 21
  const DELETE := 127

  /** What happens to the console while nobody reads: a key, or consolesetraw. */
  datatype Event = Key(c: Byte) | Mode(raw: bool)

  /** How a read ends. */
  datatype End = Returned | Killed | Hung

  /** An index as the code holds it. */
  function U(i: nat): nat { i % UINT32 }

  /** The ring entry of index `i`. */
  function Slot(i: nat): (s: nat)
    ensures s < SIZE
  {
    U(i) % SIZE
  }

  /** The ring's size divides the range of the indices, so cutting an index to 32 bits first makes no
      difference. */
  lemma SlotIs(i: nat)
    ensures Slot(i) == i % SIZE
  {
    var q, u := i / UINT32 * 0x200_0000, U(i);
    assert i == SIZE * q + u;
    Multiple(q, u);
  }

  lemma Multiple(q: nat, u: nat)
    ensures (SIZE * q + u) % SIZE == u % SIZE
  {
  }

  lemma SlotsApart(i: nat, j: nat)
    requires i < j
    ensures j < i + SIZE ==> Slot(i) != Slot(j)
  {
    hide Slot, U;
    SlotIs(i);
    SlotIs(j);
    if i % SIZE == j % SIZE { assert j - i == SIZE * (j / SIZE - i / SIZE); }
  }

  /** The line being edited lies across the end of the 32-bit indices. */
  predicate Across(w: nat, e: nat) { w / UINT32 != e / UINT32 }

  /** Comparing two indices less than a ring apart in 32 bits goes wrong just then. */
  lemma Compares(i: nat, j: nat)
    requires i <= j <= i + SIZE
    ensures U(j) <= U(i) <==> i == j || Across(i, j)
    ensures U(i) == U(j) <==> i == j
    ensures (U(j) - U(i)) % UINT32 == j - i
  {
    assert i == i / UINT32 * UINT32 + U(i) && j == j / UINT32 * UINT32 + U(j);
    if i / UINT32 != j / UINT32 {
      assert j / UINT32 == i / UINT32 + 1;
    }
  }

  lemma SameEpoch(w: nat, i: nat, e: nat)
    requires w <= i <= e && !Across(w, e)
    ensures !Across(w, i) && !Across(i, e)
  {
  }

  lemma SameIndex(i: nat)
    ensures !Across(i, i)
  {
  }

  /** A committed stream as reads take it. */
  function WithoutEof(s: seq<Byte>): (r: seq<Byte>) {
    if s == [] then [] else WithoutEof(s[..|s| - 1]) + if s[|s| - 1] == CTRL_D then [] else [s[|s| - 1]]
  }

  lemma WithoutEofAdd(s: seq<Byte>, c: Byte)
    ensures WithoutEof(s + [c]) == WithoutEof(s) + if c == CTRL_D then [] else [c]
  {
    assert (s + [c])[..|s|] == s;
  }

  /** The ring between the indices: `log` is all that was ever committed, `pending` the line being
      edited, `out` all that reads took. */
  ghost predicate RingOk(buf: seq<Byte>, r: nat, w: nat, e: nat, log: seq<Byte>, pending: seq<Byte>, out: seq<Byte>) {
    && |buf| == SIZE && r <= w <= e <= r + SIZE && w == |log| && |pending| == e - w
    && (forall i :: r <= i < w ==> buf[Slot(i)] == log[i])
    && (forall i :: w <= i < e ==> buf[Slot(i)] == pending[i - w])
    && (forall i :: 0 <= i < |pending| ==> pending[i] != NEWLINE && pending[i] != CTRL_D)
    && out == WithoutEof(log[..r])
  }

  /** Bytes that continue a multi-byte character. */
  predicate Continues(c: Byte) { 128 <= c < 192 }

  /** The number of bytes to erase from the end of the line. */
  ghost function EraseLen(pending: seq<Byte>): (n: nat)
    ensures n <= |pending| && (pending != [] ==> n >= 1)
  {
    if pending == [] then 0
    else if |pending| > 1 && Continues(pending[|pending| - 1]) then 1 + EraseLen(pending[..|pending| - 1])
    else 1
  }

  lemma AddByte(buf: seq<Byte>, r: nat, w: nat, e: nat, log: seq<Byte>, pending: seq<Byte>, out: seq<Byte>, c: Byte)
    requires RingOk(buf, r, w, e, log, pending, out) && e - r < SIZE
    ensures c != NEWLINE && c != CTRL_D ==> RingOk(buf[Slot(e) := c], r, w, e + 1, log, pending + [c], out)
    ensures RingOk(buf[Slot(e) := c], r, e + 1, e + 1, log + pending + [c], [], out)
  {
    hide Slot, WithoutEof;
    var buf' := buf[Slot(e) := c];
    forall i | r <= i < e ensures buf'[Slot(i)] == buf[Slot(i)] { SlotsApart(i, e); }
    var log' := log + pending + [c];
    assert log'[..r] == log[..r];
  }

  lemma TakeByte(buf: seq<Byte>, r: nat, w: nat, e: nat, log: seq<Byte>, pending: seq<Byte>, out: seq<Byte>)
    requires RingOk(buf, r, w, e, log, pending, out) && r < w
    ensures var c := buf[Slot(r)];
            RingOk(buf, r + 1, w, e, log, pending, if c == CTRL_D then out else out + [c])
  {
    hide Slot, WithoutEof;
    var c := buf[Slot(r)];
    assert log[..r + 1] == log[..r] + [c];
    WithoutEofAdd(log[..r], c);
  }

  lemma Indices(buf: seq<Byte>, r: nat, w: nat, e: nat, log: seq<Byte>, pending: seq<Byte>, out: seq<Byte>)
    requires RingOk(buf, r, w, e, log, pending, out)
    ensures |buf| == SIZE && r <= w == |log| && w <= e <= r + SIZE && |pending| == e - w
    ensures r < w ==> buf[Slot(r)] == log[r]
  {
  }

  /** The line being edited has no newline. */
  lemma LastPending(buf: seq<Byte>, r: nat, w: nat, e: nat, log: seq<Byte>, pending: seq<Byte>, out: seq<Byte>)
    requires RingOk(buf, r, w, e, log, pending, out)
    ensures e != w ==> |buf| == SIZE && e > 0 && buf[Slot(e - 1)] != NEWLINE
  {
    hide Slot;
  }

  /** A read of up to `n` bytes from index `r` on, into a destination that takes `room` bytes, comes to
      a byte it cannot deliver. */
  predicate Loses(log: seq<Byte>, r: nat, n: nat, room: nat) {
    && room < n && r + room < |log| && log[r + room] != CTRL_D
    && (forall i :: r <= i < r + room ==> log[i] != NEWLINE && log[i] != CTRL_D)
  }

  /** What a read from index `r0` to index `r` delivered: the stream from `r0` on, but for the lost
      byte and a ^D that ended the read with nothing to return. */
  ghost predicate Delivered(log: seq<Byte>, r0: nat, r: nat, bytes: seq<Byte>, lost: seq<Byte>) {
    && r0 <= r <= |log| && bytes + lost <= log[r0..r]
    && (log[r0..r] == bytes + lost || (bytes == lost == [] && log[r0..r] == [CTRL_D]))
  }

  /** The stream has `bytes` from index `r` on, and nothing among them ends a read. */
  ghost predicate Plain(log: seq<Byte>, r: nat, bytes: seq<Byte>) {
    && r + |bytes| <= |log|
    && (forall i :: r <= i < r + |bytes| ==> bytes[i - r] == log[i] && log[i] != CTRL_D && log[i] != NEWLINE)
  }

  lemma PlainNone(log: seq<Byte>, r: nat)
    requires r <= |log|
    ensures Plain(log, r, [])
  {
  }

  lemma PlainGrows(log: seq<Byte>, log': seq<Byte>, r: nat, bytes: seq<Byte>)
    requires Plain(log, r, bytes) && log <= log'
    ensures Plain(log', r, bytes)
  {
  }

  /** How a read that has taken `bytes` can go on. */
  lemma Waits(log: seq<Byte>, r: nat, bytes: seq<Byte>, n: nat, room: nat)
    requires Plain(log, r, bytes) && |bytes| <= room
    ensures Delivered(log, r, r + |bytes|, bytes, [])
    ensures r + |bytes| == |log| || |bytes| == n ==> !Loses(log, r, n, room)
    ensures forall i :: 0 <= i < |bytes| ==> bytes[i] != CTRL_D && bytes[i] != NEWLINE
  {
    assert log[r..r + |bytes|] == bytes;
  }

  lemma Takes(log: seq<Byte>, r: nat, bytes: seq<Byte>, n: nat, room: nat)
    requires Plain(log, r, bytes) && r + |bytes| < |log| && |bytes| <= room && |bytes| < n
    ensures var c := log[r + |bytes|];
            && (c == CTRL_D && bytes == [] ==> Delivered(log, r, r + 1, [], []))
            && (c == CTRL_D ==> !Loses(log, r, n, room))
            && (|bytes| == room && c != CTRL_D ==> Loses(log, r, n, room))
            && (c != CTRL_D ==> Delivered(log, r, r + |bytes| + 1, bytes, [c]))
            && (c != CTRL_D ==> Delivered(log, r, r + |bytes| + 1, bytes + [c], []))
            && (c == NEWLINE && |bytes| < room ==> !Loses(log, r, n, room))
            && (c != CTRL_D && c != NEWLINE ==> Plain(log, r, bytes + [c]))
  {
    var c := log[r + |bytes|];
    assert log[r..r + |bytes| + 1] == bytes + [c];
  }

  lemma Soon(log: seq<Byte>, log': seq<Byte>, r: nat, n: nat, room: nat)
    requires Loses(log, r, n, room) && log <= log'
    ensures Loses(log', r, n, room)
  {
  }

  /** The bytes of one UTF-8 character. */
  predicate Utf8(ch: seq<Byte>) {
    || (|ch| == 1 && ch[0] < 0x80)
    || (2 <= |ch| <= 4 && 0xC0 <= ch[0] < 0xF8 && forall k :: 1 <= k < |ch| ==> 0x80 <= ch[k] < 0xC0)
  }

  lemma {:induction false} EraseTail(line: seq<Byte>, ch: seq<Byte>)
    requires ch != [] && !(0x80 <= ch[0] < 0xC0) && forall k :: 1 <= k < |ch| ==> 0x80 <= ch[k] < 0xC0
    ensures EraseLen(line + ch) == |ch|
    decreases |ch|
  {
    var all := line + ch;
    assert all[|all| - 1] == ch[|ch| - 1];
    if |ch| > 1 {
      EraseTail(line, ch[..|ch| - 1]);
      assert all[..|all| - 1] == line + ch[..|ch| - 1];
    }
  }

  predicate Special(c: Byte) { c in {0, CTRL_P, CTRL_U, CTRL_H, CTRL_D, DELETE, NEWLINE, RETURN} }

  /** After a whole character, erasing leaves exactly the line before it. */
  lemma EraseWhole(line: seq<Byte>, ch: seq<Byte>)
    requires Utf8(ch)
    ensures EraseLen(line + ch) == |ch| && (line + ch)[..|line + ch| - EraseLen(line + ch)] == line
  {
    EraseTail(line, ch);
  }

  /** The console without its ring: the mode, what is committed, the line being typed, and whether
      the handler loops for ever. */
  datatype Line = Line(raw: bool, log: seq<Byte>, pending: seq<Byte>, stuck: bool)

  predicate LineAcross(l: Line) { Across(|l.log|, |l.log| + |l.pending|) }

  /** Storing a character: it is dropped when the ring is full, else added to the line, which is
      committed at its end, at ^D, when the ring is full, and always in raw mode. */
  ghost function Stored(l: Line, c: Byte, r: nat): Line {
    var e := |l.log| + |l.pending|;
    if e - r >= SIZE then l
    else if l.raw || c == NEWLINE || c == CTRL_D || e + 1 - r == SIZE then
      l.(log := l.log + l.pending + [c], pending := [])
    else l.(pending := l.pending + [c])
  }

  /** One typed character, with the reader at index `r`. */
  ghost function OnKey(l: Line, c: Byte, r: nat): Line {
    if c == 0 || c == CTRL_P then l
    else if !l.raw && c == CTRL_U then if LineAcross(l) then l.(stuck := true) else l.(pending := [])
    else if !l.raw && (c == CTRL_H || c == DELETE) then
      if LineAcross(l) then l else l.(pending := l.pending[..|l.pending| - EraseLen(l.pending)])
    else Stored(l, if c == RETURN then NEWLINE else c, r)
  }

  lemma PlainKey(l: Line, c: Byte, r: nat)
    requires !l.raw && !Special(c) && |l.log| + |l.pending| + 1 - r < SIZE
    ensures OnKey(l, c, r) == l.(pending := l.pending + [c])
  {
  }

  lemma EraseKey(l: Line, r: nat)
    requires !l.raw && !LineAcross(l)
    ensures OnKey(l, DELETE, r) == l.(pending := l.pending[..|l.pending| - EraseLen(l.pending)])
  {
  }

  /** Several events, up to one at which the handler does not return. */
  ghost function OnEvents(l: Line, events: seq<Event>, r: nat): Line
    decreases |events|
  {
    if events == [] then l
    else
      var before := OnEvents(l, events[..|events| - 1], r);
      if before.stuck then before
      else
        match events[|events| - 1]
        case Key(c) => OnKey(before, c, r)
        case Mode(on) => before.(raw := on)
  }

  lemma NextEvent(l: Line, events: seq<Event>, i: nat, r: nat)
    requires i < |events| && !OnEvents(l, events[..i], r).stuck
    ensures OnEvents(l, events[..i + 1], r) ==
            match events[i]
            case Key(c) => OnKey(OnEvents(l, events[..i], r), c, r)
            case Mode(on) => OnEvents(l, events[..i], r).(raw := on)
  {
    hide OnKey;
    assert events[..i + 1][..i] == events[..i];
  }

  lemma {:induction false} StuckStays(l: Line, events: seq<Event>, i: nat, r: nat)
    requires i <= |events| && OnEvents(l, events[..i], r).stuck
    ensures OnEvents(l, events, r) == OnEvents(l, events[..i], r)
    decreases |events|
  {
    if i < |events| {
      assert events[..|events| - 1][..i] == events[..i];
      StuckStays(l, events[..|events| - 1], i, r);
    } else {
      assert events[..i] == events;
    }
  }

  class Cons {
    var buf: seq<Byte>
    var r: nat
    var w: nat
    var e: nat
    var raw: bool
    ghost var log: seq<Byte>
    ghost var pending: seq<Byte>
    ghost var out: seq<Byte>
    // the handler loops for ever, with the lock held
    ghost var stuck: bool

    ghost predicate Valid()
      reads this
    {
      RingOk(buf, r, w, e, log, pending, out)
    }

    ghost function TheLine(): Line
      reads this
    {
      Line(raw, log, pending, stuck)
    }

    constructor ()
      ensures Valid() && log == [] && pending == [] && out == [] && !raw && r == 0 && !stuck
    {
      buf, r, w, e, raw := seq(SIZE, _ => 0), 0, 0, 0, false;
      log, pending, out, stuck := [], [], [], false;
    }

    /** The bytes of the last character of the line; none if the comparison goes wrong. */
    method CharLen() returns (n: nat)
      requires Valid()
      ensures n == if Across(w, e) then 0 else EraseLen(pending)
    {
      hide Slot, U;
      Compares(w, e);
      if U(e) <= U(w) { return 0; }
      var idx := e - 1;
      n := 1;
      assert pending[..e - w] == pending;
      Compares(w, idx);
      assert !Across(w, idx) by { SameEpoch(w, idx, e); }
      while U(idx) > U(w) && Continues(buf[Slot(idx)])
        invariant w <= idx < e && n == e - idx && EraseLen(pending) == n - 1 + EraseLen(pending[..idx - w + 1])
        invariant U(idx) > U(w) <==> idx > w
        decreases idx
      {
        assert pending[..idx - w + 1][..idx - w] == pending[..idx - w];
        idx := idx - 1;
        n := n + 1;
        SameEpoch(w, idx, e);
        Compares(w, idx);
      }
    }

    /** Erases the last character of the line, never a committed byte. */
    method Erase()
      requires Valid() && pending != []
      modifies this`e, this`pending
      ensures Valid() && e <= old(e)
      ensures pending == if Across(w, old(e)) then old(pending) else old(pending[..|pending| - EraseLen(pending)])
      ensures Across(w, old(e)) ==> e == old(e)
      ensures !Across(w, old(e)) ==> |pending| < |old(pending)| && !Across(w, e)
    {
      hide Slot;
      Indices(buf, r, w, e, log, pending, out);
      var len := CharLen();
      if !Across(w, e) { SameEpoch(w, e - len, e); }
      pending := pending[..|pending| - len];
      e := e - len;
    }

    /** ^U: the line goes; across the end of the indices the handler loops for ever. */
    method KillLine() returns (hung: bool)
      requires Valid()
      modifies this`e, this`pending
      ensures Valid() && e <= old(e) && hung == Across(w, old(e))
      ensures pending == if hung then old(pending) else []
    {
      hide RingOk, Slot, U, Across;
      Indices(buf, r, w, e, log, pending, out);
      SameIndex(w);
      while e != w && buf[Slot(e - 1)] != NEWLINE
        invariant Valid() && e <= old(e) && |buf| == SIZE && w <= e && |pending| == e - w
        invariant if Across(w, old(e)) then e == old(e) && pending == old(pending) else !Across(w, e)
        decreases |pending|
      {
        var before := e;
        Erase();
        Indices(buf, r, w, e, log, pending, out);
        if e == before { return true; }
      }
      LastPending(buf, r, w, e, log, pending, out);
      hung := false;
    }

    /** Stores a character if there is room, and commits the line if it ends there. */
    method Store(c: Byte)
      requires Valid()
      modifies this`buf, this`w, this`e, this`log, this`pending
      ensures Valid() && old(log) <= log && TheLine() == Stored(old(TheLine()), c, r)
    {
      hide RingOk, Slot, U, Across;
      Indices(buf, r, w, e, log, pending, out);
      Compares(r, e);
      if (U(e) - U(r)) % UINT32 < SIZE {
        AddByte(buf, r, w, e, log, pending, out, c);
        buf := buf[Slot(e) := c];
        e := e + 1;
        Compares(r, e);
        if raw || c == NEWLINE || c == CTRL_D || (U(e) - U(r)) % UINT32 == SIZE {
          w := e;
          log, pending := log + pending + [c], [];
        } else {
          pending := pending + [c];
        }
      }
    }

    /** One typed character. */
    method Intr(c0: Byte) returns (hung: bool)
      requires Valid() && !stuck
      modifies this`buf, this`w, this`e, this`log, this`pending, this`stuck
      ensures Valid() && old(log) <= log && stuck == hung
      ensures TheLine() == OnKey(old(TheLine()), c0, r)
    {
      hide RingOk, Slot, U, Across, Stored;
      hung := false;
      if c0 == CTRL_P { return; }
      Indices(buf, r, w, e, log, pending, out);
      if !raw && c0 == CTRL_U {
        hung := KillLine();
        stuck := hung;
        return;
      }
      if !raw && (c0 == CTRL_H || c0 == DELETE) {
        if e != w { Erase(); }
        return;
      }
      if c0 != 0 { Store(if c0 == RETURN then NEWLINE else c0); }
    }

    /** Characters that stand for themselves, with room for them. */
    method TypeAll(ch: seq<Byte>)
      requires Valid() && !stuck && !raw && e + |ch| - r < SIZE && forall k :: 0 <= k < |ch| ==> !Special(ch[k])
      modifies this`buf, this`w, this`e, this`log, this`pending, this`stuck
      ensures Valid() && TheLine() == old(TheLine()).(pending := old(pending) + ch)
    {
      hide RingOk, Slot, U, Across, OnKey, Special;
      Indices(buf, r, w, e, log, pending, out);
      assert e == |log| + |pending| && pending + ch[..0] == pending;
      var k := 0;
      while k < |ch|
        invariant 0 <= k <= |ch| && Valid() && TheLine() == old(TheLine()).(pending := old(pending) + ch[..k])
      {
        Indices(buf, r, w, e, log, pending, out);
        assert old(pending) + ch[..k] + [ch[k]] == old(pending) + ch[..k + 1];
        PlainKey(TheLine(), ch[k], r);
        var _ := Intr(ch[k]);
        k := k + 1;
      }
      assert ch[..k] == ch;
    }

    /** Typing a character and erasing it leaves the line as it was. */
    method TypeAndErase(ch: seq<Byte>)
      requires Valid() && !stuck && !raw && Utf8(ch) && !Special(ch[0])
      requires e + |ch| - r < SIZE && !Across(w, e + |ch|)
      modifies this`buf, this`w, this`e, this`log, this`pending, this`stuck
      ensures Valid() && TheLine() == old(TheLine())
    {
      Indices(buf, r, w, e, log, pending, out);
      assert forall k :: 0 <= k < |ch| ==> !Special(ch[k]);
      hide RingOk, Slot, U, Across, OnKey, Special, Utf8, EraseLen;
      TypeAll(ch);
      Indices(buf, r, w, e, log, pending, out);
      EraseWhole(old(pending), ch);
      EraseKey(TheLine(), r);
      var _ := Intr(DELETE);
    }

    /** consolesetraw. */
    method SetRaw(on: bool)
      requires Valid() && !stuck
      modifies this`raw
      ensures Valid() && raw == on
    {
      raw := on;
    }

    /** One turn of the reader's loop, with input there: `got` bytes were returned before it. The
        byte goes to the reader unless it is ^D, which is left for the next read if this one has
        something to return. */
    method ReadStep(got: nat) returns (c: Byte, stop: bool)
      requires Valid() && r < w && !stuck
      modifies this`r, this`out
      ensures Valid() && old(r) < |log| && c == log[old(r)] && stop == (c == CTRL_D || c == NEWLINE)
      ensures c != CTRL_D ==> out == old(out) + [c] && r == old(r) + 1
      ensures c == CTRL_D ==> out == old(out) && r == if got > 0 then old(r) else old(r) + 1
    {
      hide RingOk, Slot;
      Indices(buf, r, w, e, log, pending, out);
      TakeByte(buf, r, w, e, log, pending, out);
      c := buf[Slot(r)];
      r := r + 1;
      if c == CTRL_D {
        if got > 0 { r := r - 1; }
        return c, true;
      }
      out := out + [c];
      stop := c == NEWLINE;
    }

    /** A read of up to `n` bytes. `events` are the batches of events that arrive while it waits; if
        they run out with nothing to return, the reader is killed. `room` is how many bytes the
        destination takes. What is delivered is the next part of the committed stream; a byte that
        cannot be delivered is lost. */
    method Read(n: nat, room: nat, events: seq<seq<Event>>) returns (end: End, bytes: seq<Byte>, lost: seq<Byte>)
      requires Valid() && !stuck
      modifies this
      ensures Valid() && |bytes| <= n && |bytes| <= room && out == old(out) + bytes + lost && old(log) <= log
      ensures Delivered(log, old(r), r, bytes, lost)
      ensures forall i :: 0 <= i < |bytes| ==> bytes[i] != CTRL_D && (i < |bytes| - 1 ==> bytes[i] != NEWLINE)
      ensures end.Killed? ==> r == w && |bytes| < n
      ensures end.Hung? <==> stuck
      ensures |lost| <= 1 && (lost != [] <==> end.Returned? && Loses(log, old(r), n, room))
      ensures Loses(old(log), old(r), n, room) ==> lost != [] && |bytes| == room
      ensures end.Returned? && |bytes| < n && lost == [] ==>
                if bytes != [] && bytes[|bytes| - 1] == NEWLINE then true
                else old(r) + |bytes| < |log| && log[old(r) + |bytes|] == CTRL_D
    {
      hide RingOk, Slot;
      bytes, lost, end := [], [], Returned;
      hide Loses, Delivered, Plain;
      var batches := events;
      Indices(buf, r, w, e, log, pending, out);
      PlainNone(log, r);
      while |bytes| < n
        invariant Valid() && |bytes| <= n && |bytes| <= room && out == old(out) + bytes && old(log) <= log && !stuck
        invariant r == old(r) + |bytes| <= |log| && Plain(log, old(r), bytes)
        decreases n - |bytes|, |batches|
      {
        Indices(buf, r, w, e, log, pending, out);
        Waits(log, old(r), bytes, n, room);
        if Loses(old(log), old(r), n, room) { Soon(old(log), log, old(r), n, room); }
        if r == w {
          if batches == [] { return Killed, bytes, lost; }
          ghost var log1 := log;
          var hung := Handle(batches[0]);
          PlainGrows(log1, log, old(r), bytes);
          Waits(log, old(r), bytes, n, room);
          if hung { return Hung, bytes, lost; }
          batches := batches[1..];
        } else {
          var c, stop := ReadStep(|bytes|);
          Takes(log, old(r), bytes, n, room);
          if c == CTRL_D { return; }
          if |bytes| == room {
            lost := [c];
            return;
          }
          bytes := bytes + [c];
          if stop { return; }
        }
      }
      Waits(log, old(r), bytes, n, room);
      if Loses(old(log), old(r), n, room) { Soon(old(log), log, old(r), n, room); }
    }

    /** Several events. */
    method Handle(events: seq<Event>) returns (hung: bool)
      requires Valid() && !stuck
      modifies this`buf, this`w, this`e, this`log, this`pending, this`raw, this`stuck
      ensures Valid() && old(log) <= log && stuck == hung
      ensures TheLine() == OnEvents(old(TheLine()), events, r)
    {
      hide RingOk, Across, OnKey;
      ghost var l := TheLine();
      for i := 0 to |events|
        invariant Valid() && old(log) <= log && !stuck && TheLine() == OnEvents(l, events[..i], r)
      {
        NextEvent(l, events, i, r);
        match events[i] {
          case Key(c) =>
            hung := Intr(c);
            if hung {
              StuckStays(l, events, i + 1, r);
              return;
            }
          case Mode(on) => SetRaw(on);
        }
      }
      assert events[..|events|] == events;
      hung := false;
    }
  }

  lemma FirstTwo(log: seq<Byte>, log': seq<Byte>, r: nat, bytes: seq<Byte>, lost: seq<Byte>)
    requires |log| == 3 && log <= log' && Delivered(log', 0, r, bytes, lost) && |bytes| == |lost| == 1
    ensures bytes == [log[0]] && lost == [log[1]]
  {
    assert (bytes + lost)[0] == log'[0] && (bytes + lost)[1] == log'[1];
  }

  /** A real loss: "ab" and a newline are typed, and a read of three bytes finds room for one. */
  method LossHappens() returns (bytes: seq<Byte>, lost: seq<Byte>)
    ensures bytes == [97] && lost == [98]
  {
    hide RingOk, Slot, U, Across;
    var c := new Cons();
    Indices(c.buf, c.r, c.w, c.e, c.log, c.pending, c.out);
    var hung := c.Intr(97);
    Indices(c.buf, c.r, c.w, c.e, c.log, c.pending, c.out);
    hung := c.Intr(98);
    Indices(c.buf, c.r, c.w, c.e, c.log, c.pending, c.out);
    hung := c.Intr(NEWLINE);
    assert c.log == [97, 98, NEWLINE];
    assert Loses(c.log, 0, 3, 1);
    ghost var log := c.log;
    var end;
    end, bytes, lost := c.Read(3, 1, []);
    FirstTwo(log, c.log, c.r, bytes, lost);
  }

  lemma AtTheEnd()
    ensures Across(UINT32 - 1, UINT32)
  {
  }

  /** A real hang: lines are typed and read until the indices are one short of 2^32, and then a
      character is typed and ^U. */
  method HangHappens() returns (hung: bool)
    ensures hung
  {
    hide RingOk, Slot, U, Across;
    var c := new Cons();
    Indices(c.buf, c.r, c.w, c.e, c.log, c.pending, c.out);
    var n := 0;
    while n < UINT32 - 1
      invariant 0 <= n <= UINT32 - 1 && c.Valid() && c.r == c.w == c.e == n && !c.raw && !c.stuck && fresh(c)
    {
      var ch, stop;
      Indices(c.buf, c.r, c.w, c.e, c.log, c.pending, c.out);
      hung := c.Intr(NEWLINE);
      Indices(c.buf, c.r, c.w, c.e, c.log, c.pending, c.out);
      ch, stop := c.ReadStep(0);
      n := n + 1;
    }
    Indices(c.buf, c.r, c.w, c.e, c.log, c.pending, c.out);
    hung := c.Intr(97);
    Indices(c.buf, c.r, c.w, c.e, c.log, c.pending, c.out);
    AtTheEnd();
    hung := c.Intr(CTRL_U);
  }
}
