/** The shell's command line, cut into arguments in place (user/bin/sh.c, parsecmd). */
module Shell {
  import opened MachineWords

  const MAXARGS := 10

  predicate Blank(c: Byte) { c == 32 || c == 9 || c == 13 || c == 10 }

  predicate Quote(c: Byte) { c == 39 || c == 34 }

  /** Text up to the closing quote or the end, and what follows. */
  function Quoted(s: seq<Byte>, q: Byte): (r: (seq<Byte>, seq<Byte>))
    ensures |r.0| + |r.1| <= |s|
  {
    if s == [] then ([], [])
    else if s[0] == q then ([], s[1..])
    else
      var (w, rest) := Quoted(s[1..], q);
      ([s[0]] + w, rest)
  }

  /** One argument up to a blank outside quotes or the end, without its quotes, and what follows. */
  function Word(s: seq<Byte>): (r: (seq<Byte>, seq<Byte>))
    ensures |r.0| + |r.1| <= |s| && (r.1 != [] ==> Blank(r.1[0]))
    decreases |s|
  {
    if s == [] || Blank(s[0]) then ([], s)
    else if Quote(s[0]) then
      var (q, rest) := Quoted(s[1..], s[0]);
      var (w, rest1) := Word(rest);
      (q + w, rest1)
    else
      var (w, rest) := Word(s[1..]);
      ([s[0]] + w, rest)
  }

  function SkipBlanks(s: seq<Byte>): (r: seq<Byte>)
    ensures |r| <= |s| && (r != [] ==> !Blank(r[0]))
  {
    if s != [] && Blank(s[0]) then SkipBlanks(s[1..]) else s
  }

  /** The arguments of a line. */
  function Words(s: seq<Byte>): seq<seq<Byte>>
    decreases |s|
  {
    var s1 := SkipBlanks(s);
    if s1 == [] then []
    else
      var (w, rest) := Word(s1);
      WordTakes(s1);
      [w] + Words(if rest == [] then [] else rest[1..])
  }

  /** An argument uses up some of the line. */
  lemma WordTakes(s: seq<Byte>)
    requires s != [] && !Blank(s[0])
    ensures |Word(s).1| < |s|
  {
  }

  /** A command line as its writer sees it: arguments made of bare pieces and pieces in quotes, with
      blanks before and between them. */
  datatype Piece = Bare(text: seq<Byte>) | Inside(q: Byte, text: seq<Byte>)

  datatype Item = Item(gap: seq<Byte>, arg: seq<Piece>)

  predicate Ordinary(text: seq<Byte>) { forall i :: 0 <= i < |text| ==> text[i] !in {9, 10, 13, 32, 34, 39} }

  predicate PieceOk(p: Piece) {
    match p
    case Bare(text) => text != [] && Ordinary(text)
    case Inside(q, text) => q in {34, 39} && q !in text
  }

  predicate ArgOk(arg: seq<Piece>) { forall i :: 0 <= i < |arg| ==> PieceOk(arg[i]) }

  predicate GapOk(gap: seq<Byte>) { forall i :: 0 <= i < |gap| ==> gap[i] in {9, 10, 13, 32} }

  function Shown(p: Piece): seq<Byte> { if p.Bare? then p.text else [p.q] + p.text + [p.q] }

  /** An argument as it is written, and what it stands for. */
  function Written(arg: seq<Piece>): seq<Byte> { if arg == [] then [] else Shown(arg[0]) + Written(arg[1..]) }

  function Meant(arg: seq<Piece>): seq<Byte> { if arg == [] then [] else arg[0].text + Meant(arg[1..]) }

  function LineOf(items: seq<Item>, tail: seq<Byte>): seq<Byte> {
    if items == [] then tail else items[0].gap + Written(items[0].arg) + LineOf(items[1..], tail)
  }

  predicate LineOk(items: seq<Item>, tail: seq<Byte>) {
    && GapOk(tail)
    && forall i :: 0 <= i < |items| ==>
         GapOk(items[i].gap) && ArgOk(items[i].arg) && items[i].arg != [] && (i > 0 ==> items[i].gap != [])
  }

  function Meanings(items: seq<Item>): seq<seq<Byte>> {
    if items == [] then [] else [Meant(items[0].arg)] + Meanings(items[1..])
  }

  lemma {:induction false} QuotedIs(text: seq<Byte>, q: Byte, rest: seq<Byte>)
    requires q !in text
    ensures Quoted(text + [q] + rest, q) == (text, rest)
    decreases |text|
  {
    var all := text + [q] + rest;
    if text == [] {
      assert all == [q] + rest;
    } else {
      QuotedIs(text[1..], q, rest);
      assert all[1..] == text[1..] + [q] + rest && text[0] in text;
      assert [text[0]] + text[1..] == text;
    }
  }

  lemma {:induction false} BareIs(text: seq<Byte>, rest: seq<Byte>)
    requires Ordinary(text)
    ensures Word(text + rest) == (text + Word(rest).0, Word(rest).1)
    decreases |text|
  {
    var w := Word(rest).0;
    if text == [] {
      assert text + rest == rest && text + w == w;
    } else {
      BareIs(text[1..], rest);
      assert (text + rest)[1..] == text[1..] + rest;
      assert [text[0]] + (text[1..] + w) == text + w;
    }
  }

  lemma InsideIs(p: Piece, more: seq<Byte>)
    requires PieceOk(p) && p.Inside?
    ensures Word(Shown(p) + more) == (p.text + Word(more).0, Word(more).1)
  {
    var all := Shown(p) + more;
    QuotedIs(p.text, p.q, more);
    assert all[1..] == p.text + [p.q] + more;
  }

  /** An argument is read back as what it stands for, up to the blank after it. */
  lemma {:induction false} WordIs(arg: seq<Piece>, rest: seq<Byte>)
    requires ArgOk(arg) && (rest != [] ==> rest[0] in {9, 10, 13, 32})
    ensures Word(Written(arg) + rest) == (Meant(arg), rest)
    decreases |arg|
  {
    if arg == [] {
      assert Written(arg) + rest == rest;
    } else {
      var p, more := arg[0], Written(arg[1..]) + rest;
      assert Written(arg) + rest == Shown(p) + more;
      WordIs(arg[1..], rest);
      hide Word;
      if p.Bare? { BareIs(p.text, more); } else { InsideIs(p, more); }
    }
  }

  lemma {:induction false} SkipIs(gap: seq<Byte>, s: seq<Byte>)
    requires GapOk(gap)
    ensures SkipBlanks(gap + s) == SkipBlanks(s)
    decreases |gap|
  {
    if gap == [] {
      assert gap + s == s;
    } else {
      assert (gap + s)[1..] == gap[1..] + s;
      SkipIs(gap[1..], s);
    }
  }

  /** The first byte of an argument is no blank. */
  lemma FirstByte(arg: seq<Piece>)
    requires ArgOk(arg) && arg != []
    ensures Written(arg) != [] && Written(arg)[0] !in {9, 10, 13, 32}
  {
    assert PieceOk(arg[0]);
  }

  lemma BlankSkipped(s: seq<Byte>)
    requires s != [] && s[0] in {9, 10, 13, 32}
    ensures Words(s[1..]) == Words(s)
  {
    hide Word;
    assert s == [s[0]] + s[1..];
    SkipIs([s[0]], s[1..]);
  }

  lemma OneMoreWord(gap: seq<Byte>, arg: seq<Piece>, rest: seq<Byte>)
    requires GapOk(gap) && ArgOk(arg) && arg != [] && (rest != [] ==> rest[0] in {9, 10, 13, 32})
    ensures Words(gap + Written(arg) + rest) == [Meant(arg)] + Words(rest)
  {
    var s, t := gap + Written(arg) + rest, Written(arg) + rest;
    assert s == gap + t;
    FirstByte(arg);
    assert SkipBlanks(t) == t;
    hide Written, Meant, Word, ArgOk;
    SkipIs(gap, t);
    WordIs(arg, rest);
    if rest != [] { BlankSkipped(rest); }
    hide SkipBlanks;
  }

  /** Every command line of that form is cut into what its arguments stand for. */
  lemma {:induction false} LineWords(items: seq<Item>, tail: seq<Byte>)
    requires LineOk(items, tail)
    ensures Words(LineOf(items, tail)) == Meanings(items)
    decreases |items|
  {
    if items == [] {
      SkipIs(tail, []);
      assert tail + [] == tail;
    } else {
      var rest := LineOf(items[1..], tail);
      LineWords(items[1..], tail);
      assert items[1..] != [] ==> items[1..][0] == items[1];
      OneMoreWord(items[0].gap, items[0].arg, rest);
    }
  }

  /** An argument as the string found at its address. */
  ghost predicate StringAt(buf: seq<Byte>, at: nat, w: seq<Byte>) {
    at + |w| < |buf| && buf[at..at + |w|] == w && buf[at + |w|] == 0 && 0 !in w
  }

  /** The rest of the line, from `src`, is still as typed. */
  ghost predicate Unread(buf: seq<Byte>, text: seq<Byte>, src: nat) {
    src <= |text| < |buf| && buf[src..|text|] == text[src..] && buf[|text|] == 0
  }

  /** The arguments found so far are in place below `dst`. */
  ghost predicate Placed(buf: seq<Byte>, argv: seq<nat>, ws: seq<seq<Byte>>, dst: nat) {
    |argv| == |ws| && forall i :: 0 <= i < |ws| ==> StringAt(buf, argv[i], ws[i]) && argv[i] + |ws[i]| < dst
  }

  lemma UnreadAt(buf: seq<Byte>, text: seq<Byte>, src: nat)
    requires Unread(buf, text, src) && 0 !in text
    ensures buf[src] == 0 <==> src == |text|
    ensures src < |text| ==>
              buf[src] == text[src] && Unread(buf, text, src + 1) && text[src..] == [text[src]] + text[src + 1..]
  {
    if src < |text| { assert buf[src..|text|][0] == text[src..][0]; }
  }

  /** Writing at or below the read position disturbs neither the unread text nor what is placed. */
  lemma WriteKeeps(buf: seq<Byte>, text: seq<Byte>, src: nat, argv: seq<nat>, ws: seq<seq<Byte>>, dst: nat, at: nat,
                   c: Byte)
    requires Unread(buf, text, src) && Placed(buf, argv, ws, dst) && dst <= at < src
    ensures Unread(buf[at := c], text, src) && Placed(buf[at := c], argv, ws, dst)
  {
    var buf' := buf[at := c];
    assert buf'[src..|text|] == buf[src..|text|];
    forall i | 0 <= i < |ws| ensures StringAt(buf', argv[i], ws[i]) {
      assert StringAt(buf, argv[i], ws[i]);
      assert buf'[argv[i]..argv[i] + |ws[i]|] == buf[argv[i]..argv[i] + |ws[i]|];
    }
  }

  /** The part from `src0` is `done` followed by the part from `src`. */
  ghost predicate QuotedSoFar(text: seq<Byte>, src0: nat, src: nat, q: Byte, done: seq<Byte>) {
    src0 <= |text| && src <= |text| &&
    Quoted(text[src0..], q).0 == done + Quoted(text[src..], q).0 &&
    Quoted(text[src0..], q).1 == Quoted(text[src..], q).1
  }

  lemma QuotedOf(text: seq<Byte>, src: nat, q: Byte)
    requires src <= |text|
    ensures src == |text| ==> Quoted(text[src..], q) == ([], [])
    ensures src < |text| && text[src] == q ==> Quoted(text[src..], q) == ([], text[src + 1..])
    ensures src < |text| && text[src] != q ==>
      Quoted(text[src..], q) == ([text[src]] + Quoted(text[src + 1..], q).0, Quoted(text[src + 1..], q).1)
  {
    if src < |text| { assert text[src..][1..] == text[src + 1..]; }
  }

  lemma QuotedStep(text: seq<Byte>, src0: nat, src: nat, q: Byte, done: seq<Byte>)
    requires QuotedSoFar(text, src0, src, q, done)
    ensures src < |text| && text[src] != q ==> QuotedSoFar(text, src0, src + 1, q, done + [text[src]])
    ensures src < |text| && text[src] == q ==> Quoted(text[src0..], q) == (done, text[src + 1..])
    ensures src == |text| ==> Quoted(text[src0..], q) == (done, [])
  {
    hide Quoted;
    QuotedOf(text, src, q);
    assert done + [] == done;
    if src < |text| && text[src] != q {
      assert done + ([text[src]] + Quoted(text[src + 1..], q).0) == done + [text[src]] + Quoted(text[src + 1..], q).0;
    }
  }

  lemma QuotedStart(text: seq<Byte>, src0: nat, q: Byte)
    requires src0 <= |text|
    ensures QuotedSoFar(text, src0, src0, q, [])
  {
    assert [] + Quoted(text[src0..], q).0 == Quoted(text[src0..], q).0;
  }

  /** One character moved down. */
  method Move(buf: array<Byte>, src: nat, dst: nat, ghost text: seq<Byte>, ghost argv: seq<nat>,
              ghost ws: seq<seq<Byte>>, ghost start: nat)
    requires 0 !in text && Unread(buf[..], text, src) && src < |text| && Placed(buf[..], argv, ws, start) &&
             start <= dst <= src
    modifies buf
    ensures Unread(buf[..], text, src + 1) && Placed(buf[..], argv, ws, start)
    ensures buf[start..dst + 1] == old(buf[start..dst]) + [text[src]]
  {
    UnreadAt(buf[..], text, src);
    WriteKeeps(buf[..], text, src + 1, argv, ws, start, dst, buf[src]);
    ghost var was := buf[..];
    buf[dst] := buf[src];
    assert buf[..] == was[dst := text[src]];
    assert buf[start..dst + 1] == buf[start..dst] + [buf[dst]];
    assert buf[start..dst] == was[start..dst];
  }

  /** Copies a quoted part down to `dst`. */
  method CopyQuoted(buf: array<Byte>, src0: nat, dst0: nat, q: Byte, ghost text: seq<Byte>, ghost argv: seq<nat>,
                    ghost ws: seq<seq<Byte>>, ghost start: nat)
      returns (src: nat, dst: nat)
    requires 0 !in text && Unread(buf[..], text, src0) && Placed(buf[..], argv, ws, start) && start <= dst0 < src0 &&
             q != 0
    modifies buf
    ensures Unread(buf[..], text, src) && Placed(buf[..], argv, ws, start) && src0 <= src && dst0 <= dst < src
    ensures buf[start..dst] == old(buf[start..dst0]) + Quoted(text[src0..], q).0 &&
            text[src..] == Quoted(text[src0..], q).1
  {
    hide Quoted, QuotedSoFar, Placed;
    src, dst := src0, dst0;
    ghost var done: seq<Byte> := [];
    QuotedStart(text, src0, q);
    while true
      invariant Unread(buf[..], text, src) && Placed(buf[..], argv, ws, start) && src0 <= src &&
                dst == dst0 + |done| < src
      invariant buf[start..dst] == old(buf[start..dst0]) + done && QuotedSoFar(text, src0, src, q, done)
      decreases |text| - src
    {
      UnreadAt(buf[..], text, src);
      QuotedStep(text, src0, src, q, done);
      if buf[src] == 0 || buf[src] == q { break; }
      Move(buf, src, dst, text, argv, ws, start);
      done := done + [text[src]];
      dst, src := dst + 1, src + 1;
    }
    if buf[src] == q {
      src := src + 1;
    }
  }

  /** The argument from `src0` is `done` followed by the argument from `src`. */
  ghost predicate WordSoFar(text: seq<Byte>, src0: nat, src: nat, done: seq<Byte>) {
    src0 <= |text| && src <= |text| && Word(text[src0..]).0 == done + Word(text[src..]).0 &&
    Word(text[src0..]).1 == Word(text[src..]).1
  }

  lemma WordOf(text: seq<Byte>, src: nat)
    requires src <= |text|
    ensures src == |text| || Blank(text[src]) ==> Word(text[src..]) == ([], text[src..])
    ensures src < |text| && !Blank(text[src]) && !Quote(text[src]) ==>
      Word(text[src..]) == ([text[src]] + Word(text[src + 1..]).0, Word(text[src + 1..]).1)
    ensures src < |text| && Quote(text[src]) ==>
      var (q, rest) := Quoted(text[src + 1..], text[src]); Word(text[src..]) == (q + Word(rest).0, Word(rest).1)
  {
    if src < |text| { assert text[src..][1..] == text[src + 1..]; }
  }

  lemma WordStep(text: seq<Byte>, src0: nat, src: nat, done: seq<Byte>)
    requires WordSoFar(text, src0, src, done)
    ensures src == |text| || Blank(text[src]) ==> Word(text[src0..]) == (done, text[src..])
    ensures src < |text| && !Blank(text[src]) && !Quote(text[src]) ==>
              WordSoFar(text, src0, src + 1, done + [text[src]])
  {
    hide Word;
    WordOf(text, src);
    assert done + [] == done;
    if src < |text| && !Blank(text[src]) && !Quote(text[src]) {
      assert done + ([text[src]] + Word(text[src + 1..]).0) == done + [text[src]] + Word(text[src + 1..]).0;
    }
  }

  lemma WordQuote(text: seq<Byte>, src0: nat, src: nat, done: seq<Byte>, q: seq<Byte>, src1: nat)
    requires WordSoFar(text, src0, src, done) && src < |text| && Quote(text[src]) && src1 <= |text|
    requires Quoted(text[src + 1..], text[src]) == (q, text[src1..])
    ensures WordSoFar(text, src0, src1, done + q)
  {
    hide Word, Quoted;
    WordOf(text, src);
    assert done + (q + Word(text[src1..]).0) == done + q + Word(text[src1..]).0;
  }

  lemma WordStart(text: seq<Byte>, src0: nat)
    requires src0 <= |text|
    ensures WordSoFar(text, src0, src0, [])
  {
    assert [] + Word(text[src0..]).0 == Word(text[src0..]).0;
  }

  /** Copies one argument down to `start`, without its quotes. */
  method CopyWord(buf: array<Byte>, src0: nat, start: nat, ghost text: seq<Byte>, ghost argv: seq<nat>,
                  ghost ws: seq<seq<Byte>>)
      returns (src: nat, dst: nat)
    requires 0 !in text && Unread(buf[..], text, src0) && Placed(buf[..], argv, ws, start) && start <= src0
    modifies buf
    ensures Unread(buf[..], text, src) && Placed(buf[..], argv, ws, start) && src0 <= src && start <= dst <= src
    ensures buf[start..dst] == Word(text[src0..]).0 && text[src..] == Word(text[src0..]).1 &&
            (src < |text| ==> Blank(text[src]))
  {
    hide Word, WordSoFar, Quoted, Placed;
    src, dst := src0, start;
    ghost var done: seq<Byte> := [];
    WordStart(text, src0);
    while true
      invariant Unread(buf[..], text, src) && Placed(buf[..], argv, ws, start) && src0 <= src &&
                dst == start + |done| <= src
      invariant buf[start..dst] == done && WordSoFar(text, src0, src, done)
      decreases |text| - src
    {
      UnreadAt(buf[..], text, src);
      WordStep(text, src0, src, done);
      if buf[src] == 0 || Blank(buf[src]) { break; }
      if Quote(buf[src]) {
        ghost var at := src;
        var q := buf[src];
        src, dst := CopyQuoted(buf, src + 1, dst, q, text, argv, ws, start);
        WordQuote(text, src0, at, done, Quoted(text[at + 1..], q).0, src);
        done := done + Quoted(text[at + 1..], q).0;
      } else {
        Move(buf, src, dst, text, argv, ws, start);
        done := done + [text[src]];
        dst, src := dst + 1, src + 1;
      }
    }
  }

  lemma SkipOf(text: seq<Byte>, src: nat)
    requires src <= |text|
    ensures src == |text| || !Blank(text[src]) ==> SkipBlanks(text[src..]) == text[src..]
    ensures src < |text| && Blank(text[src]) ==> SkipBlanks(text[src..]) == SkipBlanks(text[src + 1..])
  {
    if src < |text| { assert text[src..][1..] == text[src + 1..]; }
  }

  /** What the outer loop adds: one argument, and the rest after at most one blank. */
  lemma WordsOf(text: seq<Byte>, src: nat, src1: nat, src2: nat)
    requires src <= src1 <= |text| && SkipBlanks(text[src..]) == text[src1..] && src2 <= |text|
    requires src1 < |text| ==> text[src2..] == Word(text[src1..]).1
    ensures src1 == |text| ==> Words(text[src..]) == []
    ensures src1 < |text| ==>
              Words(text[src..]) == [Word(text[src1..]).0] + Words(text[if src2 < |text| then src2 + 1 else src2..])
  {
    hide Word, SkipBlanks;
    if src1 < |text| && src2 < |text| { assert text[src2..][1..] == text[src2 + 1..]; }
  }

  lemma WordsSome(s: seq<Byte>)
    ensures SkipBlanks(s) != [] ==> |Words(s)| >= 1
    ensures s == [] ==> Words(s) == []
  {
  }

  lemma {:induction false} QuotedNoNul(s: seq<Byte>, q: Byte)
    requires 0 !in s
    ensures 0 !in Quoted(s, q).0 && 0 !in Quoted(s, q).1
  {
    if s != [] { QuotedNoNul(s[1..], q); }
  }

  lemma {:induction false} WordNoNul(s: seq<Byte>)
    requires 0 !in s
    ensures 0 !in Word(s).0
    decreases |s|
  {
    if s != [] && !Blank(s[0]) {
      if Quote(s[0]) {
        QuotedNoNul(s[1..], s[0]);
        WordNoNul(Quoted(s[1..], s[0]).1);
      } else {
        WordNoNul(s[1..]);
      }
    }
  }

  /** Ends the argument copied to `at`. */
  method Terminate(buf: array<Byte>, src: nat, dst: nat, at: nat, ghost text: seq<Byte>, ghost argv: seq<nat>,
                   ghost ws: seq<seq<Byte>>, ghost w: seq<Byte>)
    requires Unread(buf[..], text, src) && Placed(buf[..], argv, ws, at) && at <= dst < buf.Length &&
             (dst < src || src == dst == |text|)
    requires buf[at..dst] == w && 0 !in w
    modifies buf
    ensures Unread(buf[..], text, src) && Placed(buf[..], argv + [at], ws + [w], dst + 1)
  {
    ghost var was := buf[..];
    if dst < src { WriteKeeps(was, text, src, argv, ws, at, dst, 0); }
    buf[dst] := 0;
    assert buf[..] == was[dst := 0];
    assert dst == src ==> buf[..] == was;
    assert StringAt(buf[..], at, w) by { assert buf[..][at..dst] == was[at..dst]; }
  }

  method Skip(buf: array<Byte>, src0: nat, ghost text: seq<Byte>) returns (src: nat)
    requires Unread(buf[..], text, src0) && 0 !in text
    ensures src0 <= src <= |text| && Unread(buf[..], text, src) && SkipBlanks(text[src0..]) == text[src..] &&
            (buf[src] == 0 <==> src == |text|)
  {
    hide SkipBlanks;
    src := src0;
    while true
      invariant src0 <= src && Unread(buf[..], text, src) && SkipBlanks(text[src0..]) == SkipBlanks(text[src..])
      decreases |text| - src
    {
      UnreadAt(buf[..], text, src);
      SkipOf(text, src);
      if !Blank(buf[src]) { break; }
      src := src + 1;
    }
  }

  /** The arguments of a line: each argument's address holds that argument as a string, because
      writing never overtakes reading. It panics just when there are too many. */
  method Parsecmd(buf: array<Byte>, ghost text: seq<Byte>) returns (ok: bool, argv: seq<nat>)
    requires 0 !in text && |text| < buf.Length && buf[..|text|] == text && buf[|text|] == 0
    modifies buf
    ensures ok == (|Words(text)| <= MAXARGS - 1)
    ensures ok ==> |argv| == |Words(text)| && forall i :: 0 <= i < |argv| ==> StringAt(buf[..], argv[i], Words(text)[i])
  {
    hide Words, Word, SkipBlanks, StringAt;
    argv := [];
    ghost var ws: seq<seq<Byte>> := [];
    var src, dst := 0, 0;
    assert text[0..] == text;
    while true
      invariant Unread(buf[..], text, src) && Placed(buf[..], argv, ws, dst) && (dst <= src || src == |text|)
      invariant Words(text) == ws + Words(text[src..]) && |ws| <= MAXARGS - 1
      decreases |text| - src
    {
      UnreadAt(buf[..], text, src);
      if buf[src] == 0 { break; }
      ghost var src0 := src;
      assert dst <= src0;
      src := Skip(buf, src, text);
      ghost var src1 := src;
      if buf[src] == 0 {
        WordsOf(text, src0, src1, src1);
        break;
      }
      if |argv| >= MAXARGS - 1 {
        WordsSome(text[src0..]);
        return false, argv;
      }
      ghost var w := Word(text[src..]).0;
      WordNoNul(text[src..]);
      var at := dst;
      src, dst := CopyWord(buf, src, dst, text, argv, ws);
      WordsOf(text, src0, src1, src);
      UnreadAt(buf[..], text, src);
      if Blank(buf[src]) { src := src + 1; }
      Terminate(buf, src, dst, at, text, argv, ws, w);
      argv := argv + [at];
      ws := ws + [w];
      dst := dst + 1;
    }
    WordsSome(text[src..]);
    assert ws + [] == ws;
    ok := true;
  }
}
