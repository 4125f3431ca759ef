/**
 The walk over a page cache's radix tree in memory/list_buffer.c: every index from 0 to the
 largest one is looked up by its base-64 digits. Pointers to interior nodes carry a tag that
 indirect_to_ptr strips; here the tree's constructors tell nodes from pages. Shifts of unsigned
 longs are division and multiplication by powers of two.
 */
module RadixWalk {

  const MAP_SHIFT: nat := 6
  const MAP_SIZE: nat := 64
  const BITS_PER_LONG: nat := 64
  const UINT_LIMIT: nat := 0x1_0000_0000
  const MAX_PATH: nat := 11

  /** A page with its ring of buffer heads: buffer i is followed by buffer next[i], the head is 0. */
  datatype Page = Page(next: seq<nat>)

  /** An absent slot, a page at height 0, or a node with 64 slots. */
  datatype Tree = Empty | Leaf(page: Page) | Node(slots: seq<Tree>)

  predicate IsRing(p: Page) {
    forall i :: 0 <= i < |p.next| ==> p.next[i] == if i + 1 == |p.next| then 0 else i + 1
  }

  predicate Shaped(t: Tree, h: nat)
    decreases h
  {
    match t
    case Empty => true
    case Leaf(p) => h == 0 && IsRing(p)
    case Node(slots) => h > 0 && |slots| == MAP_SIZE && forall i :: 0 <= i < MAP_SIZE ==> Shaped(slots[i], h - 1)
  }

  function Pow2(n: nat): (p: nat)
    ensures p >= 1
  {
    if n == 0 then 1 else 2 * Pow2(n - 1)
  }

  function Pow64(h: nat): (p: nat)
    ensures p >= 1
  {
    if h == 0 then 1 else MAP_SIZE * Pow64(h - 1)
  }

  // ---- the largest index of a tree of height h ----

  /** ~0UL >> shift. */
  function OnesShifted(shift: nat): nat {
    (Pow2(BITS_PER_LONG) - 1) / Pow2(shift)
  }

  function MaxIndex(height: nat): nat {
    var shift := BITS_PER_LONG - height * MAP_SHIFT;
    if shift < 0 then OnesShifted(0)
    else if shift >= BITS_PER_LONG then 0
    else OnesShifted(shift)
  }

  lemma {:induction false} Pow2Add(a: nat, b: nat)
    ensures Pow2(a + b) == Pow2(a) * Pow2(b)
  {
    if a > 0 {
      Pow2Add(a - 1, b);
      assert Pow2(a + b) == 2 * Pow2(a + b - 1);
    }
  }

  lemma {:induction false} Pow64IsPow2(h: nat)
    ensures Pow64(h) == Pow2(MAP_SHIFT * h)
  {
    if h > 0 {
      Pow64IsPow2(h - 1);
      Pow2Add(MAP_SHIFT, MAP_SHIFT * (h - 1));
      assert Pow2(6) == 64;
    }
  }

  lemma ShiftedOnes(a: nat, b: nat)
    requires a >= 1 && b >= 1
    ensures (a * b - 1) / a == b - 1
  {
    assert a * b - 1 == a * (b - 1) + (a - 1);
    DivUnique(a * b - 1, a, b - 1, a - 1);
  }

  lemma LessThanOne(a: nat, d: int)
    requires a >= 1 && 0 - a < a * d < a
    ensures d == 0
  {
  }

  lemma DivUnique(x: nat, a: nat, q: nat, r: nat)
    requires a >= 1 && x == a * q + r && r < a
    ensures x / a == q && x % a == r
  {
    var k := x / a;
    assert x == a * k + x % a;
    assert a * (k - q) == r - x % a;
    LessThanOne(a, k - q);
  }

  /** The table entry for height h is 64^h - 1, as far as that fits an unsigned long. */
  lemma MaxIndexIs(h: nat)
    requires h <= MAX_PATH
    ensures MaxIndex(h) == if h <= 10 then Pow64(h) - 1 else Pow2(BITS_PER_LONG) - 1
  {
    if 1 <= h <= 10 {
      var shift := BITS_PER_LONG - h * MAP_SHIFT;
      Pow64IsPow2(h);
      Pow2Add(shift, MAP_SHIFT * h);
      ShiftedOnes(Pow2(shift), Pow64(h));
    } else if h == 0 {
    } else {
      assert Pow2(0) == 1;
    }
  }

  // ---- looking up one index ----

  function Digit(index: nat, level: nat): nat {
    index / Pow64(level) % MAP_SIZE
  }

  function Lookup(t: Tree, h: nat, index: nat): Tree
    requires Shaped(t, h)
    decreases h
  {
    if h == 0 || t.Empty? then t else Lookup(t.slots[Digit(index, h - 1)], h - 1, index)
  }

  lemma {:induction false} Pow64Add(a: nat, b: nat)
    ensures Pow64(a + b) == Pow64(a) * Pow64(b)
  {
    if a > 0 {
      Pow64Add(a - 1, b);
      assert Pow64(a + b) == 64 * Pow64(a + b - 1);
    }
  }

  lemma Regroup(a: nat, m: nat, p: nat, q: nat, r: nat)
    ensures a * (64 * m * p) + (p * q + r) == p * (64 * (a * m) + q) + r
  {
    assert a * (64 * m * p) == 64 * (a * m) * p;
    assert p * (64 * (a * m) + q) == p * (64 * (a * m)) + p * q;
  }

  lemma ShiftOut(x: nat, p: nat, b: nat, q: nat, r: nat)
    requires r < p && x == p * (64 * b + q) + r
    ensures x / p % 64 == q % 64
  {
    DivUnique(x, p, 64 * b + q, r);
    DropMultiple(b, q);
  }

  lemma DropMultiple(b: nat, q: nat)
    ensures (64 * b + q) % 64 == q % 64
  {
  }

  lemma ShiftOutMultiple(a: nat, m: nat, p: nat, j: nat)
    requires p >= 1
    ensures (a * (64 * m * p) + j) / p % 64 == j / p % 64
  {
    Regroup(a, m, p, j / p, j % p);
    ShiftOut(a * (64 * m * p) + j, p, a * m, j / p, j % p);
  }

  lemma Pow64Split(h: nat, level: nat)
    requires level < h
    ensures Pow64(h) == 64 * Pow64(h - level - 1) * Pow64(level)
  {
    Pow64Add(h - level - 1, level);
  }

  /** Digits below level h ignore multiples of 64^h. */
  lemma DigitIgnoresHigh(a: nat, h: nat, j: nat, level: nat)
    requires level < h
    ensures Digit(a * Pow64(h) + j, level) == Digit(j, level)
  {
    ShiftOutMultiple(a, Pow64(h - level - 1), Pow64(level), j);
    Pow64Split(h, level);
  }

  lemma {:induction false} LookupIgnoresHigh(t: Tree, h: nat, a: nat, top: nat, j: nat)
    requires Shaped(t, h) && h <= top
    ensures Lookup(t, h, a * Pow64(top) + j) == Lookup(t, h, j)
    decreases h
  {
    if h > 0 && !t.Empty? {
      DigitIgnoresHigh(a, top, j, h - 1);
      LookupIgnoresHigh(t.slots[Digit(j, h - 1)], h - 1, a, top, j);
    }
  }

  /** In a node, index k * 64^(h-1) + j is index j of slot k. */
  lemma LookupInSlot(t: Tree, h: nat, k: nat, j: nat)
    requires Shaped(t, h) && t.Node? && k < MAP_SIZE && j < Pow64(h - 1)
    ensures Lookup(t, h, k * Pow64(h - 1) + j) == Lookup(t.slots[k], h - 1, j)
  {
    DivUnique(k * Pow64(h - 1) + j, Pow64(h - 1), k, j);
    LookupIgnoresHigh(t.slots[k], h - 1, k, h - 1, j);
  }

  // ---- the walk and the fold ----

  type Entry = (nat, Page)

  /** What looking up 0..n-1 finds, each entry with its index counted from `base`. */
  function Scan(t: Tree, h: nat, base: nat, n: nat): seq<Entry>
    requires Shaped(t, h)
    decreases n
  {
    if n == 0 then []
    else
      var found := Lookup(t, h, n - 1);
      Scan(t, h, base, n - 1) + if found.Leaf? then [(base + n - 1, found.page)] else []
  }

  /** The pages of the tree from left to right, by its structure alone. */
  function Leaves(t: Tree, h: nat, base: nat): seq<Entry>
    requires Shaped(t, h)
    decreases h, 0
  {
    match t
    case Empty => []
    case Leaf(p) => [(base, p)]
    case Node(slots) => SlotLeaves(slots, h - 1, base, MAP_SIZE)
  }

  function SlotLeaves(slots: seq<Tree>, h: nat, base: nat, k: nat): seq<Entry>
    requires |slots| == MAP_SIZE && k <= MAP_SIZE && forall i :: 0 <= i < MAP_SIZE ==> Shaped(slots[i], h)
    decreases h, 1, k
  {
    if k == 0 then [] else SlotLeaves(slots, h, base, k - 1) + Leaves(slots[k - 1], h, base + (k - 1) * Pow64(h))
  }

  lemma {:induction false} ScanEmpty(h: nat, base: nat, n: nat)
    ensures Scan(Empty, h, base, n) == []
  {
    if n > 0 { ScanEmpty(h, base, n - 1); }
  }

  /** Looking up every index of the tree finds exactly its pages, each once, in order. */
  lemma {:induction false} ScanIsLeaves(t: Tree, h: nat, base: nat)
    requires Shaped(t, h)
    ensures Scan(t, h, base, Pow64(h)) == Leaves(t, h, base)
    decreases h, 1, 0, 0
  {
    if t.Empty? {
      ScanEmpty(h, base, Pow64(h));
    } else if h == 0 {
      assert Pow64(0) == 1 && Scan(t, 0, base, 0) == [];
      assert Scan(t, 0, base, 1) == [] + [(base, t.page)];
    } else {
      ScanSlots(t, h, base, MAP_SIZE - 1, Pow64(h - 1));
      ScanIsLeaves(t.slots[MAP_SIZE - 1], h - 1, base + (MAP_SIZE - 1) * Pow64(h - 1));
      assert Pow64(h) == (MAP_SIZE - 1) * Pow64(h - 1) + Pow64(h - 1);
    }
  }

  lemma ShapedSlots(t: Tree, h: nat)
    requires Shaped(t, h) && t.Node?
    ensures h > 0 && |t.slots| == MAP_SIZE && forall i :: 0 <= i < MAP_SIZE ==> Shaped(t.slots[i], h - 1)
  {
  }

  /** The scan of a node up to j entries into slot k: all earlier slots, then j entries of slot k. */
  lemma {:induction false} ScanSlots(t: Tree, h: nat, base: nat, k: nat, j: nat)
    requires Shaped(t, h) && t.Node? && k < MAP_SIZE && j <= Pow64(h - 1)
    ensures Scan(t, h, base, k * Pow64(h - 1) + j) ==
            SlotLeaves(t.slots, h - 1, base, k) + Scan(t.slots[k], h - 1, base + k * Pow64(h - 1), j)
    decreases h, 0, k, j
  {
    hide Lookup, Shaped, Scan, Leaves;
    ShapedSlots(t, h);
    var p := Pow64(h - 1);
    if j > 0 {
      ScanSlots(t, h, base, k, j - 1);
      ScanOneMore(t, h, base, k, j, k * p);
    } else if k > 0 {
      ScanSlots(t, h, base, k - 1, p);
      ScanIsLeaves(t.slots[k - 1], h - 1, base + (k - 1) * p);
      ScanCarry(t, h, base, k, (k - 1) * p, k * p);
    } else {
      ScanNothing(t, h, base);
      ScanNothing(t.slots[0], h - 1, base);
    }
  }

  /** At the end of slot k - 1 the scan has all leaves of the first k slots. */
  lemma ScanCarry(t: Tree, h: nat, base: nat, k: nat, prev: nat, first: nat)
    requires Shaped(t, h) && t.Node? && 0 < k < MAP_SIZE && prev == (k - 1) * Pow64(h - 1) && first == k * Pow64(h - 1)
    requires Scan(t, h, base, prev + Pow64(h - 1)) ==
             SlotLeaves(t.slots, h - 1, base, k - 1) + Leaves(t.slots[k - 1], h - 1, base + prev)
    ensures Scan(t, h, base, first) ==
            SlotLeaves(t.slots, h - 1, base, k) + Scan(t.slots[k], h - 1, base + first, 0)
  {
    hide Lookup, Leaves, Scan;
    assert first == prev + Pow64(h - 1);
    ScanNothing(t.slots[k], h - 1, base + first);
  }

  lemma ScanNothing(t: Tree, h: nat, base: nat)
    requires Shaped(t, h)
    ensures Scan(t, h, base, 0) == []
  {
  }

  /** The next index of a node and the next index of its slot find the same thing. */
  lemma ScanOneMore(t: Tree, h: nat, base: nat, k: nat, j: nat, first: nat)
    requires Shaped(t, h) && t.Node? && k < MAP_SIZE && 0 < j <= Pow64(h - 1) && first == k * Pow64(h - 1)
    requires Scan(t, h, base, first + j - 1) ==
             SlotLeaves(t.slots, h - 1, base, k) + Scan(t.slots[k], h - 1, base + first, j - 1)
    ensures Scan(t, h, base, first + j) ==
            SlotLeaves(t.slots, h - 1, base, k) + Scan(t.slots[k], h - 1, base + first, j)
  {
    hide Lookup, Leaves, SlotLeaves;
    LookupInSlot(t, h, k, j - 1);
    var found := Lookup(t.slots[k], h - 1, j - 1);
    assert found == Lookup(t, h, first + j - 1);
  }

  /** The entries found are those of the indices below n, in strictly increasing order. */
  lemma {:induction false} ScanFinds(t: Tree, h: nat, n: nat)
    requires Shaped(t, h)
    ensures var s := Scan(t, h, 0, n);
            && (forall e: Entry :: e in s <==> e.0 < n && Lookup(t, h, e.0) == Leaf(e.1))
            && (forall x, y :: 0 <= x < y < |s| ==> s[x].0 < s[y].0)
  {
    hide Lookup, Shaped;
    if n > 0 {
      ScanFinds(t, h, n - 1);
      var s, found := Scan(t, h, 0, n - 1), Lookup(t, h, n - 1);
      assert forall x :: 0 <= x < |s| ==> s[x] in s;
      var last := if found.Leaf? then [(n - 1, found.page)] else [];
      forall e: Entry ensures e in s + last <==> e.0 < n && Lookup(t, h, e.0) == Leaf(e.1) {
        assert e in s + last <==> e in s || e in last;
      }
    }
  }

  /** A shorter scan finds as much as a longer one exactly if the longer finds nothing further up. */
  lemma {:induction false} ScanGrows(t: Tree, h: nat, n: nat, m: nat)
    requires Shaped(t, h) && n <= m
    ensures Scan(t, h, 0, n) <= Scan(t, h, 0, m)
    ensures |Scan(t, h, 0, n)| == |Scan(t, h, 0, m)| <==> forall i: nat :: n <= i < m ==> !Lookup(t, h, i).Leaf?
    decreases m
  {
    hide Lookup, Shaped;
    if n < m {
      ScanGrows(t, h, n, m - 1);
      assert |Scan(t, h, 0, n)| <= |Scan(t, h, 0, m - 1)|;
      assert |Scan(t, h, 0, m)| == |Scan(t, h, 0, m - 1)| + if Lookup(t, h, m - 1).Leaf? then 1 else 0;
      assert (forall i: nat :: n <= i < m ==> !Lookup(t, h, i).Leaf?) <==>
             !Lookup(t, h, m - 1).Leaf? && forall i: nat :: n <= i < m - 1 ==> !Lookup(t, h, i).Leaf?;
    }
  }

  // ---- the loops ----

  /** The loop bound is an unsigned int, so the table entry loses its high half. */
  function LastIndex(h: nat): nat {
    MaxIndex(h) % UINT_LIMIT
  }

  lemma LastIndexIs(h: nat)
    requires h <= MAX_PATH
    ensures LastIndex(h) + 1 == if h <= 5 then Pow64(h) else UINT_LIMIT
  {
    hide Pow2, Pow64, MaxIndex;
    MaxIndexIs(h);
    HeightFits(h);
    if h > 5 { HighBitsAreLost(h); }
  }

  lemma HighBitsAreLost(h: nat)
    requires 5 < h <= MAX_PATH
    ensures (if h <= 10 then Pow64(h) - 1 else Pow2(BITS_PER_LONG) - 1) % UINT_LIMIT == UINT_LIMIT - 1
  {
    hide Pow2, Pow64;
    if h <= 10 {
      Pow64IsPow2(h);
      Pow2Add(32, MAP_SHIFT * h - 32);
      LowHalfIsOnes(Pow2(MAP_SHIFT * h - 32));
    } else {
      Pow2Add(32, 32);
      LowHalfIsOnes(Pow2(32));
    }
  }

  lemma TwoTo32()
    ensures Pow2(32) == UINT_LIMIT
  {
    Pow2Add(16, 16);
    Pow2Add(8, 8);
    assert Pow2(8) == 256;
  }

  lemma LowHalfIsOnes(b: nat)
    requires b >= 1
    ensures (Pow2(32) * b - 1) % UINT_LIMIT == UINT_LIMIT - 1
  {
    TwoTo32();
    assert UINT_LIMIT * b - 1 == UINT_LIMIT * (b - 1) + (UINT_LIMIT - 1);
    DivUnique(UINT_LIMIT * b - 1, UINT_LIMIT, b - 1, UINT_LIMIT - 1);
  }

  function Buffers(s: seq<Entry>): nat
    decreases |s|
  {
    if s == [] then 0 else Buffers(s[..|s| - 1]) + |s[|s| - 1].1.next|
  }

  /** Counting a page's buffers by going once round the ring. */
  method RadixNodeHasBuffer(page: Page) returns (count: nat)
    requires IsRing(page)
    ensures count == |page.next|
  {
    count := 0;
    if |page.next| > 0 {
      var bh := page.next[0];
      count := 1;
      while bh != 0
        invariant 1 <= count <= |page.next| && bh == if count == |page.next| then 0 else count
        decreases |page.next| - count
      {
        count := count + 1;
        bh := page.next[bh];
      }
    }
  }

  method InitMaxIndex(table: array<nat>)
    requires table.Length == MAX_PATH + 1
    modifies table
    ensures forall h :: 0 <= h <= MAX_PATH ==> table[h] == MaxIndex(h)
  {
    for i := 0 to table.Length
      invariant forall h :: 0 <= h < i ==> table[h] == MaxIndex(h)
    {
      table[i] := MaxIndex(i);
    }
  }

  /** The inner loop: from the root down, one digit a level. */
  method Find(root: Tree, h: nat, index: nat) returns (node: Tree)
    requires Shaped(root, h) && root.Node?
    ensures node == Lookup(root, h, index)
  {
    node := root;
    var height: nat, shift: nat := h, (h - 1) * MAP_SHIFT;
    while height > 0 && !node.Empty?
      invariant height <= h && Shaped(node, height) && (height > 0 ==> shift == (height - 1) * MAP_SHIFT)
      invariant Lookup(node, height, index) == Lookup(root, h, index)
      decreases height
    {
      Pow64IsPow2(height - 1);
      node := node.slots[index / Pow2(shift) % MAP_SIZE];
      shift := if shift >= MAP_SHIFT then shift - MAP_SHIFT else 0;
      height := height - 1;
    }
  }

  method WalkThrough(root: Tree, h: nat, table: array<nat>) returns (pageCount: nat, bufferHeadCount: nat)
    requires Shaped(root, h) && root.Node? && h <= MAX_PATH && table.Length == MAX_PATH + 1
    modifies table
    ensures pageCount == |Scan(root, h, 0, LastIndex(h) + 1)|
    ensures bufferHeadCount == Buffers(Scan(root, h, 0, LastIndex(h) + 1))
    ensures h <= 5 ==> pageCount == |Leaves(root, h, 0)| && bufferHeadCount == Buffers(Leaves(root, h, 0))
  {
    hide Lookup, Scan, Leaves, Shaped, Buffers, Pow2, Pow64, MaxIndex;
    InitMaxIndex(table);
    if h <= 5 { WalkIsFold(root, h); }
    ScanStart(root, h);
    var maxIndex := table[h] % UINT_LIMIT;
    pageCount, bufferHeadCount := 0, 0;
    var index := 0;
    while index <= maxIndex
      invariant index <= maxIndex + 1
      invariant pageCount == |Scan(root, h, 0, index)| && bufferHeadCount == Buffers(Scan(root, h, 0, index))
    {
      var node := Find(root, h, index);
      if node.Leaf? {
        FoundIsRing(root, h, index);
        var temp := RadixNodeHasBuffer(node.page);
        if temp != 0 {
          bufferHeadCount := bufferHeadCount + temp;
        }
        pageCount := pageCount + 1;
      }
      ScanStep(root, h, index);
      index := index + 1;
    }
  }

  lemma {:induction false} LookupIsShaped(t: Tree, h: nat, index: nat)
    requires Shaped(t, h)
    ensures Shaped(Lookup(t, h, index), 0)
    decreases h
  {
    if h > 0 && !t.Empty? {
      LookupIsShaped(t.slots[Digit(index, h - 1)], h - 1, index);
    }
  }

  lemma FoundIsRing(t: Tree, h: nat, index: nat)
    requires Shaped(t, h) && Lookup(t, h, index).Leaf?
    ensures IsRing(Lookup(t, h, index).page)
  {
    LookupIsShaped(t, h, index);
  }

  lemma ScanStart(t: Tree, h: nat)
    requires Shaped(t, h)
    ensures |Scan(t, h, 0, 0)| == 0 == Buffers(Scan(t, h, 0, 0))
  {
  }

  lemma ScanStep(t: Tree, h: nat, n: nat)
    requires Shaped(t, h)
    ensures var s, s', found := Scan(t, h, 0, n), Scan(t, h, 0, n + 1), Lookup(t, h, n);
            if found.Leaf? then |s'| == |s| + 1 && Buffers(s') == Buffers(s) + |found.page.next|
            else s' == s
  {
    var s, s' := Scan(t, h, 0, n), Scan(t, h, 0, n + 1);
    if Lookup(t, h, n).Leaf? {
      assert s'[..|s'| - 1] == s;
    }
  }

  // ---- the walk agrees with the fold ----

  /** Up to height 5 the walk visits exactly the tree's pages, in order. */
  lemma WalkIsFold(t: Tree, h: nat)
    requires Shaped(t, h) && h <= 5
    ensures Scan(t, h, 0, LastIndex(h) + 1) == Leaves(t, h, 0)
  {
    LastIndexIs(h);
    ScanIsLeaves(t, h, 0);
  }

  /** For any height, the walk finds all pages exactly if none sits at an index of 2^32 or more. */
  lemma WalkIsFoldExactly(t: Tree, h: nat)
    requires Shaped(t, h) && h <= MAX_PATH
    ensures Scan(t, h, 0, LastIndex(h) + 1) == Leaves(t, h, 0) <==>
            forall e: Entry :: e in Leaves(t, h, 0) ==> e.0 < UINT_LIMIT
    ensures Scan(t, h, 0, LastIndex(h) + 1) <= Leaves(t, h, 0)
  {
    hide Leaves, Scan, Lookup, Shaped;
    var n, m := LastIndex(h) + 1, Pow64(h);
    LastIndexIs(h);
    HeightFits(h);
    ScanIsLeaves(t, h, 0);
    ScanFinds(t, h, m);
    ScanGrows(t, h, n, m);
    ScanFinds(t, h, n);
    var all, some := Leaves(t, h, 0), Scan(t, h, 0, n);
    if forall e: Entry :: e in all ==> e.0 < UINT_LIMIT {
      forall i: nat | i < m && Lookup(t, h, i).Leaf? ensures i < UINT_LIMIT {
        assert (i, Lookup(t, h, i).page) in all;
      }
      assert n == m || n == UINT_LIMIT;
      assert |some| == |all|;
    }
  }

  lemma HeightFits(h: nat)
    ensures if h <= 5 then Pow64(h) <= UINT_LIMIT else Pow64(h) >= UINT_LIMIT
  {
    assert Pow64(1) == 64 && Pow64(2) == 64 * 64 && Pow64(3) == 64 * 64 * 64;
    Pow64Add(3, 1);
    Pow64Add(3, 2);
    Pow64Add(3, 3);
    if h > 6 { Pow64Add(h - 6, 6); }
  }

  // ---- a page the walk misses ----

  /** A chain of nodes down to one page in slot 0. */
  function Chain(h: nat): (t: Tree)
    ensures Shaped(t, h) && !t.Empty?
  {
    if h == 0 then Leaf(Page([])) else Node([Chain(h - 1)] + seq(MAP_SIZE - 1, _ => Empty))
  }

  /** A tree of height 6 with its only page at index 2^32, in slot 4 of the root. */
  function HighPage(): (t: Tree)
    ensures Shaped(t, 6) && t.Node? && |t.slots| == MAP_SIZE && t.slots[4] == Chain(5)
  {
    Node(seq(4, _ => Empty) + [Chain(5)] + seq(MAP_SIZE - 5, _ => Empty))
  }

  lemma {:induction false} ChainHasPageAtZero(h: nat)
    ensures Lookup(Chain(h), h, 0).Leaf?
  {
    if h > 0 {
      DivUnique(0, Pow64(h - 1), 0, 0);
      ChainHasPageAtZero(h - 1);
    }
  }

  /** From height 6 on a page can be out of the walk's reach: the walk of this tree misses its page. */
  lemma WalkMissesHighPage()
    ensures Scan(HighPage(), 6, 0, LastIndex(6) + 1) != Leaves(HighPage(), 6, 0)
  {
    hide Leaves, Scan, Lookup, Shaped, Pow64, HighPage, Chain;
    var t := HighPage();
    ChainHasPageAtZero(5);
    LookupInSlot(t, 6, 4, 0);
    FourTimes64ToThe5();
    ScanIsLeaves(t, 6, 0);
    ScanFinds(t, 6, Pow64(6));
    var page := Lookup(t, 6, UINT_LIMIT).page;
    assert (UINT_LIMIT, page) in Leaves(t, 6, 0);
    WalkIsFoldExactly(t, 6);
  }

  lemma FourTimes64ToThe5()
    ensures 4 * Pow64(5) == UINT_LIMIT && Pow64(6) > UINT_LIMIT
  {
    assert Pow64(1) == 64 && Pow64(2) == 64 * 64 && Pow64(3) == 64 * 64 * 64;
    Pow64Add(3, 2);
    Pow64Add(3, 3);
  }
}
