/** Turning text into tokens: special pieces and bytes first, then pair merges in the token array
    until none applies (user/lib/llm.c, llm_encode). */
module Bpe {
  import opened MachineWords

  datatype Merge = Merge(left: int, right: int, out: int)

  /** A loaded tokenizer; identifiers below zero mean there is none. */
  datatype Tokenizer = Tokenizer(pieces: seq<seq<Byte>>, initial: seq<int>, specials: seq<int>, merges: seq<Merge>,
                                 bos: int, eos: int, unk: int)

  /** There is an entry for every byte. */
  predicate TokenizerOk(t: Tokenizer) { |t.initial| == 256 }

  /** No special piece holds a NUL, so matching one stops at the end of the text. */
  ghost predicate SpecialsClean(t: Tokenizer) {
    forall j :: 0 <= j < |t.specials| && 0 <= t.specials[j] < |t.pieces| ==> 0 !in t.pieces[t.specials[j]]
  }

  /** The first merge for a pair, or the number of merges if there is none. */
  function Rank(ms: seq<Merge>, a: int, b: int): (r: nat)
    ensures r <= |ms| && (r < |ms| ==> ms[r].left == a && ms[r].right == b)
    ensures forall q :: 0 <= q < r ==> !(ms[q].left == a && ms[q].right == b)
  {
    if ms == [] then 0
    else
      var n := |ms| - 1;
      var r := Rank(ms[..n], a, b);
      if r < n then r else if ms[n].left == a && ms[n].right == b then n else n + 1
  }

  /** Pair `i` can be merged and no pair before position `k` has a lower rank, nor one to its left
      the same rank. */
  ghost predicate IsBest(ms: seq<Merge>, ts: seq<int>, k: nat, i: nat)
    requires k < |ts|
  {
    i < k && RankAt(ms, ts, i) < |ms| && (forall j :: 0 <= j < k ==> RankAt(ms, ts, i) <= RankAt(ms, ts, j)) &&
    forall j :: 0 <= j < i ==> RankAt(ms, ts, i) < RankAt(ms, ts, j)
  }

  function RankAt(ms: seq<Merge>, ts: seq<int>, i: nat): nat
    requires i + 1 < |ts|
  {
    Rank(ms, ts[i], ts[i + 1])
  }

  lemma OneBest(ms: seq<Merge>, ts: seq<int>, k: nat, i: nat, j: nat)
    requires k < |ts| && IsBest(ms, ts, k, i) && IsBest(ms, ts, k, j)
    ensures i == j
  {
    assert RankAt(ms, ts, i) <= RankAt(ms, ts, j) && RankAt(ms, ts, j) <= RankAt(ms, ts, i);
  }

  ghost predicate NoneLeft(ms: seq<Merge>, ts: seq<int>) {
    forall i :: 0 <= i < |ts| - 1 ==> RankAt(ms, ts, i) == |ms|
  }

  /** The pair at `i` replaced by its merge. */
  function MergeAt(ms: seq<Merge>, ts: seq<int>, i: nat): seq<int>
    requires i + 1 < |ts| && RankAt(ms, ts, i) < |ms|
  {
    ts[..i] + [ms[RankAt(ms, ts, i)].out] + ts[i + 2..]
  }

  /** Greedy merging: some number of merges from `ts`, each of the lowest-ranked leftmost pair, gives
      `us`. */
  ghost predicate Merges(ms: seq<Merge>, ts: seq<int>, us: seq<int>)
    decreases |ts|
  {
    ts == us || (exists i :: IsBestOf(ms, ts, i) && Merges(ms, MergeAt(ms, ts, i), us))
  }

  ghost predicate IsBestOf(ms: seq<Merge>, ts: seq<int>, i: nat) { |ts| >= 2 && IsBest(ms, ts, |ts| - 1, i) }

  /** The result of greedy merging is unique. */
  lemma {:induction false} GreedyUnique(ms: seq<Merge>, ts: seq<int>, us: seq<int>, vs: seq<int>)
    requires Merges(ms, ts, us) && Merges(ms, ts, vs) && NoneLeft(ms, us) && NoneLeft(ms, vs)
    ensures us == vs
    decreases |ts|
  {
    if i :| IsBestOf(ms, ts, i) && ts != us && Merges(ms, MergeAt(ms, ts, i), us) {
      assert !NoneLeft(ms, ts) by { assert RankAt(ms, ts, i) < |ms|; }
      var j :| IsBestOf(ms, ts, j) && Merges(ms, MergeAt(ms, ts, j), vs);
      OneBest(ms, ts, |ts| - 1, i, j);
      GreedyUnique(ms, MergeAt(ms, ts, i), us, vs);
    }
  }

  lemma {:induction false} MergesStep(ms: seq<Merge>, ts: seq<int>, us: seq<int>, i: nat)
    requires Merges(ms, ts, us) && IsBestOf(ms, us, i)
    ensures Merges(ms, ts, MergeAt(ms, us, i))
    decreases |ts|
  {
    if ts == us {
      assert Merges(ms, MergeAt(ms, us, i), MergeAt(ms, us, i));
    } else {
      var j :| IsBestOf(ms, ts, j) && Merges(ms, MergeAt(ms, ts, j), us);
      MergesStep(ms, MergeAt(ms, ts, j), us, i);
    }
  }

  /** The piece of a token. */
  function PieceOf(t: Tokenizer, id: int): seq<Byte> { if 0 <= id < |t.pieces| then t.pieces[id] else [] }

  /** The text that tokens stand for. */
  function Flat(t: Tokenizer, ts: seq<int>): seq<Byte> { if ts == [] then [] else PieceOf(t, ts[0]) + Flat(t, ts[1..]) }

  lemma {:induction false} FlatConcat(t: Tokenizer, a: seq<int>, b: seq<int>)
    ensures Flat(t, a + b) == Flat(t, a) + Flat(t, b)
    decreases |a|
  {
    if a == [] {
      assert a + b == b;
    } else {
      FlatConcat(t, a[1..], b);
      assert (a + b)[1..] == a[1..] + b;
    }
  }

  lemma FlatCons(t: Tokenizer, x: int, rest: seq<int>)
    ensures Flat(t, [x] + rest) == PieceOf(t, x) + Flat(t, rest)
  {
    assert ([x] + rest)[1..] == rest;
  }

  /** The `j`-th special piece is there and starts the text. */
  predicate Candidate(t: Tokenizer, text: seq<Byte>, j: nat)
    requires j < |t.specials|
  {
    0 <= t.specials[j] < |t.pieces| && |t.pieces[t.specials[j]]| > 0 && t.pieces[t.specials[j]] <= text
  }

  function SpecialLen(t: Tokenizer, j: nat): nat
    requires j < |t.specials|
  {
    |PieceOf(t, t.specials[j])|
  }

  /** The longest special piece that starts the text, the first listed of the longest. */
  function Pick(t: Tokenizer, text: seq<Byte>, k: nat): (b: int)
    requires k <= |t.specials|
    ensures -1 <= b < k && (b == -1 ==> forall j :: 0 <= j < k ==> !Candidate(t, text, j))
    ensures b >= 0 ==> Candidate(t, text, b) && SpecialLen(t, b) > 0
    ensures b >= 0 ==> forall j :: 0 <= j < k && Candidate(t, text, j) ==> SpecialLen(t, j) <= SpecialLen(t, b)
    ensures b >= 0 ==> forall j :: 0 <= j < b && Candidate(t, text, j) ==> SpecialLen(t, j) < SpecialLen(t, b)
  {
    if k == 0 then -1
    else
      var b := Pick(t, text, k - 1);
      if Candidate(t, text, k - 1) && (b < 0 || SpecialLen(t, b) < SpecialLen(t, k - 1)) then k - 1 else b
  }

  /** The token of a byte outside special pieces. */
  function ByteToken(t: Tokenizer, b: Byte): int
    requires TokenizerOk(t)
  {
    if t.initial[b] < 0 then t.unk else t.initial[b]
  }

  datatype Split = Stuck | Tokens(ts: seq<int>)

  function Before(ts: seq<int>, s: Split): Split { if s.Stuck? then Stuck else Tokens(ts + s.ts) }

  /** The text cut into special pieces and bytes. */
  function SplitText(t: Tokenizer, text: seq<Byte>): (s: Split)
    requires TokenizerOk(t)
    ensures s.Tokens? ==> |s.ts| <= |text|
    decreases |text|
  {
    if text == [] then Tokens([])
    else
      var b := Pick(t, text, |t.specials|);
      if b >= 0 then Before([t.specials[b]], SplitText(t, text[SpecialLen(t, b)..]))
      else if ByteToken(t, text[0]) < 0 then Stuck
      else Before([ByteToken(t, text[0])], SplitText(t, text[1..]))
  }

  /** Every byte of the text has a token of its own. */
  ghost predicate BytesKnown(t: Tokenizer, text: seq<Byte>)
    requires TokenizerOk(t)
  {
    forall i :: 0 <= i < |text| ==> 0 <= t.initial[text[i]] < |t.pieces| && t.pieces[t.initial[text[i]]] == [text[i]]
  }

  /** Merging two tokens joins their pieces. */
  ghost predicate MergesJoin(t: Tokenizer) {
    forall r :: 0 <= r < |t.merges| ==>
      PieceOf(t, t.merges[r].out) == PieceOf(t, t.merges[r].left) + PieceOf(t, t.merges[r].right)
  }

  /** The marker is never merged. */
  ghost predicate MarkerFree(ms: seq<Merge>, bos: int) {
    forall r :: 0 <= r < |ms| ==> ms[r].left != bos && ms[r].right != bos
  }

  lemma {:induction false} SplitFlat(t: Tokenizer, text: seq<Byte>)
    requires TokenizerOk(t) && BytesKnown(t, text)
    ensures SplitText(t, text).Tokens? && Flat(t, SplitText(t, text).ts) == text
    decreases |text|
  {
    hide Pick, Flat;
    if text == [] {
      assert Flat(t, []) == [] by { FlatNone(t); }
    } else {
      var b := Pick(t, text, |t.specials|);
      var n := if b >= 0 then SpecialLen(t, b) else 1;
      var id := if b >= 0 then t.specials[b] else ByteToken(t, text[0]);
      assert PieceOf(t, id) == text[..n];
      SplitFlat(t, text[n..]);
      FlatCons(t, id, SplitText(t, text[n..]).ts);
      assert text == text[..n] + text[n..];
    }
  }

  lemma FlatNone(t: Tokenizer)
    ensures Flat(t, []) == []
  {
  }

  /** One merge keeps the text. */
  lemma MergeFlat(t: Tokenizer, ts: seq<int>, i: nat)
    requires MergesJoin(t) && i + 1 < |ts| && RankAt(t.merges, ts, i) < |t.merges|
    ensures Flat(t, MergeAt(t.merges, ts, i)) == Flat(t, ts)
  {
    hide Flat, PieceOf, Rank;
    var a, c, x, y, z := ts[..i], ts[i + 2..], ts[i], ts[i + 1], t.merges[RankAt(t.merges, ts, i)].out;
    assert ts == a + ([x] + ([y] + c));
    assert MergeAt(t.merges, ts, i) == a + ([z] + c);
    FlatConcat(t, a, [x] + ([y] + c));
    FlatConcat(t, a, [z] + c);
    FlatCons(t, x, [y] + c);
    FlatCons(t, y, c);
    FlatCons(t, z, c);
    assert PieceOf(t, z) + Flat(t, c) == PieceOf(t, x) + (PieceOf(t, y) + Flat(t, c));
  }

  /** Greedy merging keeps the text, and a leading marker. */
  lemma {:induction false} MergesFlat(t: Tokenizer, ts: seq<int>, us: seq<int>, marked: bool)
    requires MergesJoin(t) && Merges(t.merges, ts, us)
    requires marked ==> |ts| > 0 && ts[0] == t.bos && MarkerFree(t.merges, t.bos)
    ensures Flat(t, us) == Flat(t, ts) && |us| <= |ts| && (marked ==> |us| > 0 && us[0] == t.bos)
    decreases |ts|
  {
    if ts != us {
      var i :| IsBestOf(t.merges, ts, i) && Merges(t.merges, MergeAt(t.merges, ts, i), us);
      MergeFlat(t, ts, i);
      MergesFlat(t, MergeAt(t.merges, ts, i), us, marked);
    }
  }

  lemma NotPrefix(a: seq<Byte>, b: seq<Byte>, i: nat)
    requires i < |a| && (i >= |b| || a[i] != b[i])
    ensures !(a <= b)
  {
  }

  /** A character of the text in memory, where a NUL follows it. */
  function CharAt(text: seq<Byte>, i: nat): Byte
    requires i <= |text|
  {
    if i < |text| then text[i] else 0
  }

  method StartsWith(text: seq<Byte>, p: nat, piece: seq<Byte>) returns (b: bool)
    requires p <= |text| && 0 !in piece
    ensures b == (piece <= text[p..])
  {
    var i := 0;
    while i < |piece|
      invariant 0 <= i <= |piece| && p + i <= |text| && piece[..i] == text[p..p + i]
    {
      if CharAt(text, p + i) != piece[i] {
        NotPrefix(piece, text[p..], i);
        return false;
      }
      assert piece[i] != 0 && p + i < |text|;
      assert piece[..i + 1] == piece[..i] + [piece[i]] && text[p..p + i + 1] == text[p..p + i] + [text[p + i]];
      i := i + 1;
    }
    assert piece[..i] == piece && text[p..p + i] == text[p..][..i];
    return true;
  }

  method PickSpecial(t: Tokenizer, text: seq<Byte>, p: nat) returns (special: int, len: nat)
    requires p <= |text| && SpecialsClean(t)
    ensures var b := Pick(t, text[p..], |t.specials|);
            if b < 0 then len == 0 else special == t.specials[b] && len == SpecialLen(t, b) > 0
  {
    special, len := -1, 0;
    ghost var b := -1;
    for i := 0 to |t.specials|
      invariant b == Pick(t, text[p..], i)
      invariant if b < 0 then len == 0 else special == t.specials[b] && len == SpecialLen(t, b) > 0
    {
      var id := t.specials[i];
      if 0 <= id < |t.pieces| && |t.pieces[id]| > len && |t.pieces[id]| > 0 {
        var starts := StartsWith(text, p, t.pieces[id]);
        if starts {
          special, len := id, |t.pieces[id]|;
          b := i;
        }
      }
    }
  }

  /** The next token of the text from `p` on, and how much of it that takes. */
  method NextToken(t: Tokenizer, text: seq<Byte>, p: nat) returns (id: int, len: nat)
    requires TokenizerOk(t) && SpecialsClean(t) && p < |text|
    ensures id < 0 ==> SplitText(t, text[p..]).Stuck?
    ensures id >= 0 ==> 1 <= len <= |text| - p && SplitText(t, text[p..]) == Before([id], SplitText(t, text[p + len..]))
  {
    hide Pick;
    ghost var rest := text[p..];
    id, len := PickSpecial(t, text, p);
    if len == 0 {
      id := t.initial[text[p]];
      if id < 0 { id := t.unk; }
      len := 1;
    }
    assert len <= |rest| ==> rest[len..] == text[p + len..];
  }

  lemma BeforeBefore(a: seq<int>, b: seq<int>, s: Split)
    ensures Before(a, Before(b, s)) == Before(a + b, s)
  {
  }

  lemma SplitEnd(t: Tokenizer, text: seq<Byte>)
    requires TokenizerOk(t)
    ensures text[0..] == text && SplitText(t, text[|text|..]) == Tokens([])
  {
  }

  /** The first loop: the cut text goes into the array after the `n0` tokens already there. */
  method FillTokens(t: Tokenizer, text: seq<Byte>, tokens: array<int>, n0: nat) returns (n: int)
    requires TokenizerOk(t) && SpecialsClean(t) && n0 <= tokens.Length
    modifies tokens
    ensures var s := SplitText(t, text);
            if s.Stuck? || n0 + |s.ts| > tokens.Length then n == -1
            else n == n0 + |s.ts| && tokens[..n] == old(tokens[..n0]) + s.ts
  {
    hide SplitText;
    n := n0;
    var p := 0;
    ghost var done: seq<int> := [];
    SplitEnd(t, text);
    while p < |text|
      invariant 0 <= p <= |text| && n == n0 + |done| <= tokens.Length && tokens[..n] == old(tokens[..n0]) + done
      invariant SplitText(t, text) == Before(done, SplitText(t, text[p..]))
      decreases |text| - p
    {
      var id, len := NextToken(t, text, p);
      if id < 0 || n >= tokens.Length {
        return -1;
      }
      BeforeBefore(done, [id], SplitText(t, text[p + len..]));
      tokens[n] := id;
      done := done + [id];
      n := n + 1;
      p := p + len;
    }
  }

  method RankOf(ms: seq<Merge>, a: int, b: int) returns (rank: nat)
    ensures rank == Rank(ms, a, b)
  {
    rank := 0;
    while rank < |ms|
      invariant 0 <= rank <= |ms| && forall q :: 0 <= q < rank ==> !(ms[q].left == a && ms[q].right == b)
    {
      if ms[rank].left == a && ms[rank].right == b { return; }
      rank := rank + 1;
    }
  }

  /** The lowest-ranked leftmost pair, if any can be merged. */
  method FindBest(ms: seq<Merge>, tokens: array<int>, n: nat) returns (best: int)
    requires n <= tokens.Length
    ensures best < 0 ==> NoneLeft(ms, tokens[..n])
    ensures best >= 0 ==> IsBestOf(ms, tokens[..n], best)
  {
    hide Rank;
    best := -1;
    var bestRank := |ms| + 1;
    ghost var ts := tokens[..n];
    var i := 0;
    while i + 1 < n
      invariant 0 <= i && (n > 0 ==> i < n) && (n == 0 ==> i == 0) && -1 <= best < i
      invariant best < 0 ==> bestRank == |ms| + 1 && forall j :: 0 <= j < i ==> RankAt(ms, ts, j) == |ms|
      invariant best >= 0 ==> bestRank == RankAt(ms, ts, best) < |ms| && IsBest(ms, ts, i, best)
    {
      var rank := RankOf(ms, tokens[i], tokens[i + 1]);
      assert rank == RankAt(ms, ts, i);
      if rank < |ms| && rank < bestRank {
        best, bestRank := i, rank;
      }
      i := i + 1;
    }
  }

  /** Removes the pair at `i` from the array, with its merge in its place. */
  method Replace(tokens: array<int>, n: nat, i: nat, out: int)
    requires i + 1 < n <= tokens.Length
    modifies tokens
    ensures tokens[..n - 1] == old(tokens[..i]) + [out] + old(tokens[i + 2..n])
  {
    tokens[i] := out;
    var j := i + 1;
    while j < n - 1
      invariant i + 1 <= j <= n - 1
      invariant forall k :: 0 <= k < j ==>
                  tokens[k] == if k < i then old(tokens[k]) else if k == i then out else old(tokens[k + 1])
      invariant forall k :: j <= k < n ==> tokens[k] == old(tokens[k])
    {
      tokens[j] := tokens[j + 1];
      j := j + 1;
    }
  }

  /** The merge loop: it ends, with the tokens that greedy merging gives and no pair left. */
  method MergeAll(ms: seq<Merge>, tokens: array<int>, n0: nat) returns (n: nat)
    requires n0 <= tokens.Length
    modifies tokens
    ensures n <= n0 && Merges(ms, old(tokens[..n0]), tokens[..n]) && NoneLeft(ms, tokens[..n])
  {
    hide RankAt, IsBest;
    n := n0;
    ghost var ts := tokens[..n0];
    while true
      invariant n <= n0 && Merges(ms, ts, tokens[..n])
      decreases n
    {
      var best := FindBest(ms, tokens, n);
      if best < 0 { return; }
      BestPair(ms, tokens[..n], best);
      MergesStep(ms, ts, tokens[..n], best);
      var rank := RankOf(ms, tokens[best], tokens[best + 1]);
      ghost var us := tokens[..n];
      Replace(tokens, n, best, ms[rank].out);
      n := n - 1;
      MergedIs(ms, us, best, rank);
      assert tokens[..n] == MergeAt(ms, us, best);
    }
  }

  lemma BestPair(ms: seq<Merge>, ts: seq<int>, i: nat)
    requires IsBestOf(ms, ts, i)
    ensures i + 1 < |ts| && RankAt(ms, ts, i) == Rank(ms, ts[i], ts[i + 1]) < |ms|
  {
  }

  lemma MergedIs(ms: seq<Merge>, ts: seq<int>, i: nat, r: nat)
    requires i + 1 < |ts| && r == Rank(ms, ts[i], ts[i + 1]) < |ms|
    ensures RankAt(ms, ts, i) == r && MergeAt(ms, ts, i) == ts[..i] + [ms[r].out] + ts[i + 2..]
  {
  }

  function Marker(t: Tokenizer, add: bool): seq<int> { if add && t.bos >= 0 then [t.bos] else [] }

  function End(t: Tokenizer, add: bool): seq<int> { if add && t.eos >= 0 then [t.eos] else [] }

  /** The tokens the text is cut into, with the leading marker. */
  function Start(t: Tokenizer, text: seq<Byte>, addBos: bool): seq<int>
    requires TokenizerOk(t) && SplitText(t, text).Tokens?
  {
    Marker(t, addBos) + SplitText(t, text).ts
  }

  /** The whole encoder. `us` are the tokens before the end marker: what greedy merging makes of the
      cut text, with no mergeable pair left. It fails just when some byte has no token or the array
      is too short. */
  method Encode(t: Tokenizer, text: seq<Byte>, addBos: bool, addEos: bool, tokens: array<int>)
    returns (n: int, ghost us: seq<int>)
    requires TokenizerOk(t) && SpecialsClean(t)
    modifies tokens
    ensures n >= -1 && (SplitText(t, text).Stuck? ==> n == -1)
    ensures SplitText(t, text).Tokens? && |Start(t, text, addBos)| > tokens.Length ==> n == -1
    ensures SplitText(t, text).Tokens? && |Start(t, text, addBos)| <= tokens.Length ==>
      Merges(t.merges, Start(t, text, addBos), us) && NoneLeft(t.merges, us) && |us| <= |Start(t, text, addBos)| &&
      (n == -1 <==> |us| + |End(t, addEos)| > tokens.Length)
    ensures n >= 0 ==> n <= tokens.Length && tokens[..n] == us + End(t, addEos)
  {
    hide SplitText, Merges, NoneLeft;
    us := [];
    n := 0;
    if addBos && t.bos >= 0 {
      if n >= tokens.Length { return -1, us; }
      tokens[n] := t.bos;
      n := n + 1;
    }
    assert tokens[..n] == Marker(t, addBos);
    n := FillTokens(t, text, tokens, n);
    if n < 0 { return; }
    n := MergeAll(t.merges, tokens, n);
    us := tokens[..n];
    if addEos && t.eos >= 0 {
      if n >= tokens.Length { return -1, us; }
      tokens[n] := t.eos;
      n := n + 1;
    }
  }

  /** Room for the text and two markers always suffices. */
  lemma RoomSuffices(t: Tokenizer, text: seq<Byte>, addBos: bool, addEos: bool, us: seq<int>, room: nat)
    requires TokenizerOk(t) && SplitText(t, text).Tokens? && |us| <= |Start(t, text, addBos)|
    requires room >= |text| + |Marker(t, addBos)| + |End(t, addEos)|
    ensures |Start(t, text, addBos)| <= room && |us| + |End(t, addEos)| <= room
  {
  }

  /** When merging joins pieces and every byte has its token, the tokens spell the text. */
  lemma SpellsText(t: Tokenizer, text: seq<Byte>, addBos: bool, us: seq<int>)
    requires TokenizerOk(t) && BytesKnown(t, text) && MergesJoin(t) && MarkerFree(t.merges, t.bos)
    requires SplitText(t, text).Tokens? && Merges(t.merges, Start(t, text, addBos), us)
    ensures var m := |Marker(t, addBos)|; m <= |us| && us[..m] == Marker(t, addBos) && Flat(t, us[m..]) == text
  {
    hide SplitText, Merges, Flat;
    SplitFlat(t, text);
    var ts, m := SplitText(t, text).ts, |Marker(t, addBos)|;
    MergesFlat(t, Start(t, text, addBos), us, m > 0);
    FlatConcat(t, Marker(t, addBos), ts);
    FlatConcat(t, us[..m], us[m..]);
    assert us == us[..m] + us[m..] && us[..m] == Marker(t, addBos);
    var lead := Flat(t, us[..m]);
    assert (lead + Flat(t, us[m..]))[|lead|..] == (lead + text)[|lead|..];
  }
}
