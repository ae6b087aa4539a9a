/** The allocator's memory: an array of 16-byte granules.

    A granule is four 32-bit words.  The same granule is, at different times, a block header
    of the TLSF tier, the two list links that the buddy tier keeps at the start of a free block,
    sixteen bytes of a sheet's block-start bitmap, or caller data.  Positions are counted in
    granules from the base of the region; a stored position never reaches `NULL`. */
module Granules {
  import opened Bits

  const NULL: nat := 0xFFFF_FFFF

  datatype Granule = Granule(w0: nat, w1: nat, w2: nat, w3: nat)

  /** Which tier's links are meant: the buddy tier links through the first two words,
      the TLSF tier through the last two. */
  datatype LinkKind = BuddyLinks | TlsfLinks

  function Next(k: LinkKind, g: Granule): nat {
    if k.BuddyLinks? then g.w0 else g.w2
  }

  function Prev(k: LinkKind, g: Granule): nat {
    if k.BuddyLinks? then g.w1 else g.w3
  }

  function WithNext(k: LinkKind, g: Granule, v: nat): Granule {
    if k.BuddyLinks? then g.(w0 := v) else g.(w2 := v)
  }

  function WithPrev(k: LinkKind, g: Granule, v: nat): Granule {
    if k.BuddyLinks? then g.(w1 := v) else g.(w3 := v)
  }

  function WordOf(g: Granule, i: nat): nat {
    if i == 0 then g.w0 else if i == 1 then g.w1 else if i == 2 then g.w2 else g.w3
  }

  function WithWord(g: Granule, i: nat, v: nat): Granule {
    if i == 0 then g.(w0 := v) else if i == 1 then g.(w1 := v) else if i == 2 then g.(w2 := v) else g.(w3 := v)
  }

  /** Bit `k` of the sixteen bytes of a granule. */
  predicate GranuleBit(g: Granule, k: nat) {
    Bit(WordOf(g, k / 32), k % 32)
  }

  function SetGranuleBit(g: Granule, k: nat): Granule {
    WithWord(g, k / 32, SetBit(WordOf(g, k / 32), k % 32))
  }

  function ClearGranuleBit(g: Granule, k: nat): Granule {
    WithWord(g, k / 32, ClearBit(WordOf(g, k / 32), k % 32))
  }

  lemma GranuleBits(g: Granule, k: nat, j: nat)
    requires k < 128 && j < 128
    ensures GranuleBit(SetGranuleBit(g, k), j) == (j == k || GranuleBit(g, j))
    ensures GranuleBit(ClearGranuleBit(g, k), j) == (j != k && GranuleBit(g, j))
  {
    hide Bit, SetBit, ClearBit;
    BitOfSetBit(WordOf(g, k / 32), k % 32, j % 32);
    BitOfClearBit(WordOf(g, k / 32), k % 32, j % 32);
  }
}

/** Bytes of a granule, as callers see their memory. */
module Bytes {
  import opened Bits
  import opened Granules

  function Place(i: nat): nat { if i == 0 then 1 else if i == 1 then 0x100 else if i == 2 then 0x1_0000
      else 0x100_0000 }

  /** Byte `i` of a word. */
  function ByteOf(w: nat, i: nat): (b: nat)
    ensures b < 256
  {
    w / Place(i) % 256
  }

  function WithByte(w: nat, i: nat, v: nat): nat {
    w - ByteOf(w, i) * Place(i) + v * Place(i)
  }

  /** Byte `k` of a granule. */
  function GetByte(g: Granule, k: nat): (b: nat)
    ensures b < 256
  {
    ByteOf(WordOf(g, k / 4), k % 4)
  }

  function PutByte(g: Granule, k: nat, v: nat): Granule {
    WithWord(g, k / 4, WithByte(WordOf(g, k / 4), k % 4, v))
  }

  /** Four low bytes and the rest make up a word. */
  lemma Digits(w: nat)
    ensures w == ByteOf(w, 0) + 0x100 * ByteOf(w, 1) + 0x1_0000 * ByteOf(w, 2) + 0x100_0000 * (w / 0x100_0000)
    ensures ByteOf(w, 3) == w / 0x100_0000 % 256
  {
    var w1 := w / 0x100;
    var w2 := w1 / 0x100;
    var w3 := w2 / 0x100;
    assert w == 0x1_0000 * w2 + 0x100 * (w1 % 0x100) + w % 0x100;
    assert w / 0x1_0000 == w2 && w / 0x100_0000 == w3;
  }

  lemma FromDigits(a: nat, b: nat, c: nat, q: nat)
    requires a < 256 && b < 256 && c < 256
    ensures var w := a + 0x100 * b + 0x1_0000 * c + 0x100_0000 * q;
            ByteOf(w, 0) == a && ByteOf(w, 1) == b && ByteOf(w, 2) == c && ByteOf(w, 3) == q % 256
  {
    var w := a + 0x100 * b + 0x1_0000 * c + 0x100_0000 * q;
    var r2 := c + 0x100 * q;
    var r1 := b + 0x100 * r2;
    DivUnique(w, 0x100, r1);
    DivUnique(w, 0x1_0000, r2);
    DivUnique(w, 0x100_0000, q);
    LowDigit(a, r1);
    LowDigit(b, r2);
    LowDigit(c, q);
  }

  lemma LowDigit(a: nat, r: nat)
    requires a < 256
    ensures (a + 0x100 * r) % 256 == a
  {
  }

  lemma WordBytes(w: nat, i: nat, v: nat, j: nat)
    requires i < 4 && j < 4 && v < 256
    ensures ByteOf(WithByte(w, i, v), j) == if j == i then v else ByteOf(w, j)
  {
    hide ByteOf;
    Digits(w);
    var a, b, c, q := ByteOf(w, 0), ByteOf(w, 1), ByteOf(w, 2), w / 0x100_0000;
    if i == 0 {
      FromDigits(v, b, c, q);
    } else if i == 1 {
      FromDigits(a, v, c, q);
    } else if i == 2 {
      FromDigits(a, b, v, q);
    } else {
      TopDigit(q, v);
      FromDigits(a, b, c, q - q % 256 + v);
    }
  }

  lemma TopDigit(q: nat, v: nat)
    requires v < 256
    ensures (q - q % 256 + v) % 256 == v
  {
    assert q - q % 256 == 256 * (q / 256);
  }

  lemma GranuleBytes(g: Granule, k: nat, v: nat, j: nat)
    requires k < 16 && j < 16 && v < 256
    ensures GetByte(PutByte(g, k, v), j) == if j == k then v else GetByte(g, j)
  {
    hide ByteOf, WithByte;
    WordBytes(WordOf(g, k / 4), k % 4, v, j % 4);
  }
}

/** Doubly linked lists threaded through free memory, shared by both tiers.

    The `prev` link of a list head is left unconstrained: both tiers pop heads without
    repairing it.  `lists` is the ghost content of an array of list heads. */
module Links {
  import opened Granules

  predicate InList(lists: seq<seq<nat>>, o: nat, g: nat) {
    o < |lists| && g in lists[o]
  }

  predicate NonEmpty(lists: seq<seq<nat>>, o: nat) {
    o < |lists| && lists[o] != []
  }

  /** The element after position `i`, or `NULL`. */
  function Succ(l: seq<nat>, i: nat): nat
    requires i < |l|
  {
    if i + 1 < |l| then l[i + 1] else NULL
  }

  /** `l` is the list that starts at `head`. */
  ghost predicate Chain(k: LinkKind, mem: seq<Granule>, head: nat, l: seq<nat>)
    decreases |l|
  {
    if l == [] then head == NULL else
      && head == l[0] && head < |mem| && head != NULL && head !in l[1..]
      && Chain(k, mem, Next(k, mem[head]), l[1..])
      && (|l| > 1 ==> Prev(k, mem[l[1]]) == head)
  }

  ghost predicate Linked(k: LinkKind, mem: seq<Granule>, heads: seq<nat>, lists: seq<seq<nat>>) {
    && |heads| == |lists|
    && (forall o :: 0 <= o < |lists| ==> Chain(k, mem, heads[o], lists[o]))
    && (forall o, p, x :: 0 <= o < |lists| && 0 <= p < |lists| && o != p && x in lists[o] ==> x !in lists[p])
  }

  /** The links of the node at position `i`. */
  lemma {:induction false} ChainAt(k: LinkKind, mem: seq<Granule>, head: nat, l: seq<nat>, i: nat)
    requires Chain(k, mem, head, l) && i < |l|
    ensures l[i] < |mem| && l[i] != NULL && Next(k, mem[l[i]]) == Succ(l, i)
    ensures i > 0 ==> l[i] != head && l[i - 1] < |mem| && Prev(k, mem[l[i]]) == l[i - 1]
    ensures i + 1 < |l| ==> l[i + 1] < |mem| && l[i + 1] != NULL && l[i + 1] != head && Prev(k, mem[l[i + 1]]) == l[i]
    ensures forall j :: 0 <= j < |l| && j != i ==> l[j] != l[i]
    decreases |l|
  {
    var r := l[1..];
    assert forall j :: 0 < j < |l| ==> l[j] == r[j - 1] && l[j] in r;
    if i > 0 {
      ChainAt(k, mem, Next(k, mem[head]), r, i - 1);
      assert Succ(l, i) == Succ(r, i - 1);
    } else if |l| > 1 {
      ChainAt(k, mem, Next(k, mem[head]), r, 0);
    }
  }

  /** A list does not depend on its head's `prev`, nor on anything off the list. */
  lemma {:induction false} ChainFrame(k: LinkKind, mem: seq<Granule>, mem': seq<Granule>, head: nat, l: seq<nat>)
    requires Chain(k, mem, head, l) && |mem'| == |mem|
    requires forall x :: x in l && x < |mem| ==> Next(k, mem'[x]) == Next(k, mem[x])
    requires forall x :: x in l && x < |mem| && x != head ==> Prev(k, mem'[x]) == Prev(k, mem[x])
    ensures Chain(k, mem', head, l)
    decreases |l|
  {
    if l != [] {
      if |l| > 1 {
        ChainAt(k, mem, head, l, 1);
      }
      ChainFrame(k, mem, mem', Next(k, mem[head]), l[1..]);
    }
  }

  lemma {:induction false} ChainNull(k: LinkKind, mem: seq<Granule>, head: nat, l: seq<nat>)
    requires Chain(k, mem, head, l)
    ensures NULL !in l && forall x :: x in l ==> x < |mem|
    decreases |l|
  {
    if l != [] {
      ChainNull(k, mem, Next(k, mem[head]), l[1..]);
      assert l == [head] + l[1..];
    }
  }

  lemma PushChain(k: LinkKind, mem: seq<Granule>, mem': seq<Granule>, head: nat, l: seq<nat>, n: nat)
    requires Chain(k, mem, head, l) && |mem'| == |mem|
    requires n < |mem| && n != NULL && n !in l
    requires Next(k, mem'[n]) == head
    requires l != [] ==> Next(k, mem'[head]) == Next(k, mem[head]) && Prev(k, mem'[head]) == n
    requires forall x :: 0 <= x < |mem| && x != n && x != head ==> mem'[x] == mem[x]
    ensures Chain(k, mem', n, [n] + l)
  {
    ChainFrame(k, mem, mem', head, l);
    assert ([n] + l)[1..] == l;
  }

  function Without(l: seq<nat>, i: nat): seq<nat>
    requires i < |l|
  {
    l[..i] + l[i + 1..]
  }

  lemma {:induction false} WithoutMembers(l: seq<nat>, i: nat)
    requires i < |l|
    requires forall j :: 0 <= j < |l| && j != i ==> l[j] != l[i]
    ensures forall x :: x in Without(l, i) <==> x in l && x != l[i]
  {
    var l' := Without(l, i);
    forall x | x in l && x != l[i] ensures x in l' {
      var j :| 0 <= j < |l| && l[j] == x;
      assert x == (if j < i then l'[j] else l'[j - 1]);
    }
    forall x | x in l' ensures x in l && x != l[i] {
      var j :| 0 <= j < |l'| && l'[j] == x;
      assert x == (if j < i then l[j] else l[j + 1]);
    }
  }

  /** Joining the neighbours of node `i > 0`. */
  lemma {:induction false} RemoveChain(k: LinkKind, mem: seq<Granule>, mem': seq<Granule>, head: nat, l: seq<nat>,
      i: nat)
    requires Chain(k, mem, head, l) && 0 < i < |l| && |mem'| == |mem|
    requires l[i - 1] < |mem| && Next(k, mem'[l[i - 1]]) == Succ(l, i)
             && Prev(k, mem'[l[i - 1]]) == Prev(k, mem[l[i - 1]])
    requires i + 1 < |l| ==>
               l[i + 1] < |mem| && Next(k, mem'[l[i + 1]]) == Next(k, mem[l[i + 1]])
                   && Prev(k, mem'[l[i + 1]]) == l[i - 1]
    requires forall x :: 0 <= x < |mem| && x != l[i - 1] && (i + 1 < |l| ==> x != l[i + 1]) ==> mem'[x] == mem[x]
    ensures Chain(k, mem', head, Without(l, i))
    decreases i
  {
    var r := l[1..];
    ChainAt(k, mem, head, l, 0);
    if i == 1 {
      assert Without(l, 1)[1..] == l[2..] == r[1..];
      ChainAt(k, mem, Next(k, mem[head]), r, 0);
      assert forall x :: x in l[2..] ==> x in r;
      ChainFrame(k, mem, mem', Succ(l, 1), l[2..]);
    } else {
      RemoveChain(k, mem, mem', Next(k, mem[head]), r, i - 1);
      assert Without(l, i)[1..] == Without(r, i - 1);
      assert Without(l, i)[0] == head && Without(l, i)[1] == l[1];
      assert forall x :: x in Without(r, i - 1) ==> x in r;
    }
  }

  /** Replacing list `o` by one whose nodes come from it, plus at most one fresh node. */
  lemma LinkedUpdate(k: LinkKind, mem: seq<Granule>, mem': seq<Granule>, heads: seq<nat>, lists: seq<seq<nat>>,
                     o: nat, h: nat, l: seq<nat>)
    requires Linked(k, mem, heads, lists) && o < |lists|
    requires Chain(k, mem', h, l)
    requires forall x, p :: x in l && 0 <= p < |lists| && p != o ==> x !in lists[p]
    requires forall p :: 0 <= p < |lists| && p != o ==> Chain(k, mem', heads[p], lists[p])
    ensures Linked(k, mem', heads[o := h], lists[o := l])
  {
  }

  lemma LinkedFrame(k: LinkKind, mem: seq<Granule>, mem': seq<Granule>, heads: seq<nat>, lists: seq<seq<nat>>)
    requires Linked(k, mem, heads, lists) && |mem'| == |mem|
    requires forall o, x :: 0 <= o < |lists| && x in lists[o] && x < |mem| ==>
               Next(k, mem'[x]) == Next(k, mem[x]) && Prev(k, mem'[x]) == Prev(k, mem[x])
    ensures Linked(k, mem', heads, lists)
  {
    forall o | 0 <= o < |lists| ensures Chain(k, mem', heads[o], lists[o]) {
      ChainFrame(k, mem, mem', heads[o], lists[o]);
    }
  }

  /** Pushing `n` in front of list `o`. */
  lemma LinkedPush(k: LinkKind, mem: seq<Granule>, mem': seq<Granule>, heads: seq<nat>, lists: seq<seq<nat>>,
                   o: nat, n: nat)
    requires Linked(k, mem, heads, lists) && o < |lists| && |mem'| == |mem|
    requires n < |mem| && n != NULL
    requires forall p :: 0 <= p < |lists| ==> n !in lists[p]
    requires Next(k, mem'[n]) == heads[o]
    requires heads[o] != NULL ==> (
               && heads[o] < |mem|
               && Next(k, mem'[heads[o]]) == Next(k, mem[heads[o]]) && Prev(k, mem'[heads[o]]) == n)
    requires forall x :: 0 <= x < |mem| && x != n && x != heads[o] ==> mem'[x] == mem[x]
    ensures Linked(k, mem', heads[o := n], lists[o := [n] + lists[o]])
  {
    var l := lists[o];
    PushChain(k, mem, mem', heads[o], l, n);
    forall p | 0 <= p < |lists| && p != o ensures Chain(k, mem', heads[p], lists[p]) {
      assert l != [] ==> heads[o] in l;
      ChainNull(k, mem, heads[p], lists[p]);
      ChainFrame(k, mem, mem', heads[p], lists[p]);
    }
    LinkedUpdate(k, mem, mem', heads, lists, o, n, [n] + l);
  }

  /** Popping the head of list `o`: no link is written. */
  lemma LinkedPop(k: LinkKind, mem: seq<Granule>, heads: seq<nat>, lists: seq<seq<nat>>, o: nat)
    requires Linked(k, mem, heads, lists) && o < |lists| && lists[o] != []
    ensures heads[o] == lists[o][0] < |mem| && heads[o] != NULL
    ensures Linked(k, mem, heads[o := Next(k, mem[heads[o]])], lists[o := lists[o][1..]])
    ensures forall x :: x in lists[o][1..] <==> x in lists[o] && x != lists[o][0]
    ensures (Next(k, mem[heads[o]]) == NULL) == (lists[o][1..] == [])
  {
    var l := lists[o];
    assert Chain(k, mem, heads[o], l);
    LinkedUpdate(k, mem, mem, heads, lists, o, Next(k, mem[heads[o]]), l[1..]);
  }

  /** Taking node `i > 0` out of list `o` by joining its neighbours. */
  lemma LinkedRemove(k: LinkKind, mem: seq<Granule>, mem': seq<Granule>, heads: seq<nat>, lists: seq<seq<nat>>,
                     o: nat, i: nat)
    requires Linked(k, mem, heads, lists) && o < |lists| && 0 < i < |lists[o]| && |mem'| == |mem|
    requires var l := lists[o];
             && l[i - 1] < |mem| && Next(k, mem'[l[i - 1]]) == Succ(l, i)
             && Prev(k, mem'[l[i - 1]]) == Prev(k, mem[l[i - 1]])
             && (i + 1 < |l| ==> l[i + 1] < |mem| && Next(k, mem'[l[i + 1]]) == Next(k, mem[l[i + 1]])
                                 && Prev(k, mem'[l[i + 1]]) == l[i - 1])
             && (forall x :: 0 <= x < |mem| && x != l[i - 1] && (i + 1 < |l| ==> x != l[i + 1]) ==> mem'[x] == mem[x])
    ensures Linked(k, mem', heads, lists[o := Without(lists[o], i)])
    ensures forall x :: x in Without(lists[o], i) <==> x in lists[o] && x != lists[o][i]
  {
    var l := lists[o];
    ChainAt(k, mem, heads[o], l, i);
    WithoutMembers(l, i);
    RemoveChain(k, mem, mem', heads[o], l, i);
    forall p | 0 <= p < |lists| && p != o ensures Chain(k, mem', heads[p], lists[p]) {
      assert l[i - 1] in l && (i + 1 < |l| ==> l[i + 1] in l);
      ChainFrame(k, mem, mem', heads[p], lists[p]);
    }
    LinkedUpdate(k, mem, mem', heads, lists, o, heads[o], Without(l, i));
    assert heads[o := heads[o]] == heads;
  }

  /** What a list head says about its list. */
  lemma HeadOf(k: LinkKind, mem: seq<Granule>, heads: seq<nat>, lists: seq<seq<nat>>, o: nat)
    requires Linked(k, mem, heads, lists) && o < |lists|
    ensures |heads| == |lists|
    ensures heads[o] == NULL <==> lists[o] == []
    ensures lists[o] != [] ==> heads[o] == lists[o][0] && heads[o] < |mem|
  {
    assert Chain(k, mem, heads[o], lists[o]);
  }

  /** The position and the links of a node. */
  lemma NodeAt(k: LinkKind, mem: seq<Granule>, heads: seq<nat>, lists: seq<seq<nat>>, o: nat, g: nat) returns (i: nat)
    requires Linked(k, mem, heads, lists) && o < |lists| && g in lists[o]
    ensures i < |lists[o]| && lists[o][i] == g < |mem| && |heads| == |lists|
    ensures heads[o] == g <==> i == 0
    ensures Next(k, mem[g]) == Succ(lists[o], i)
    ensures i > 0 ==> lists[o][i - 1] < |mem| && lists[o][i - 1] != NULL && lists[o][i - 1] != g
                      && Prev(k, mem[g]) == lists[o][i - 1] && Next(k, mem[lists[o][i - 1]]) == g
    ensures i + 1 < |lists[o]| ==> lists[o][i + 1] < |mem| && lists[o][i + 1] != NULL && lists[o][i + 1] != g
                                   && (i > 0 ==> lists[o][i + 1] != lists[o][i - 1])
                                   && Prev(k, mem[lists[o][i + 1]]) == g
    ensures |lists[o]| > 1 <==> Without(lists[o], i) != []
  {
    var l := lists[o];
    assert Chain(k, mem, heads[o], l);
    i :| 0 <= i < |l| && l[i] == g;
    ChainAt(k, mem, heads[o], l, i);
    if i > 0 {
      ChainAt(k, mem, heads[o], l, i - 1);
    }
  }
}
