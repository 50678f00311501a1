/**
 * The flash-range check of firmware images (tools/verify_uf2_range.py): one scan over the
 * blocks, then a sort and a comparison of neighbours.
 */
module Uf2 {
  import opened Bytes

  const BLOCK_BYTES: nat := 512
  const END_OFFSET: nat := 508
  const MAX_PAYLOAD: nat := 476
  const MAGIC_START0: u32 := 0x0A32_4655
  const MAGIC_START1: u32 := 0x9E5D_5157
  const MAGIC_END: u32 := 0x0AB1_6F30
  const UINT32_LIMIT: nat := 0x1_0000_0000

  // ----- blocks -----

  datatype Block = Block(magic0: u32, magic1: u32, target: u32, size: u32, number: u32, count: u32, endMagic: u32)

  /** A little-endian word. */
  function WordAt(data: seq<byte>, at: nat): u32
    requires at + 4 <= |data|
  {
    ReadU32([data[at + 3], data[at + 2], data[at + 1], data[at]])
  }

  function BlockAt(data: seq<byte>, at: nat): Block
    requires at + BLOCK_BYTES <= |data|
  {
    Block(WordAt(data, at), WordAt(data, at + 4), WordAt(data, at + 12), WordAt(data, at + 16),
          WordAt(data, at + 20), WordAt(data, at + 24), WordAt(data, at + END_OFFSET))
  }

  /** The first `n` blocks of an image. */
  function Blocks(data: seq<byte>, n: nat): (blocks: seq<Block>)
    requires n * BLOCK_BYTES <= |data|
    ensures |blocks| == n
  {
    seq(n, i requires 0 <= i < n => BlockAt(data, i * BLOCK_BYTES))
  }

  datatype Range = Range(start: int, end: int)

  function Target(b: Block): Range {
    Range(b.target, b.target + b.size)
  }

  // ----- what is accepted -----

  /** What one block must satisfy by itself in an image of `n` blocks. */
  predicate WellFormed(b: Block, n: nat, allowed: Range) {
    && b.magic0 == MAGIC_START0 && b.magic1 == MAGIC_START1 && b.endMagic == MAGIC_END
    && 0 < b.size <= MAX_PAYLOAD
    && b.count == n && b.number < n
    && allowed.start <= b.target && b.target + b.size <= allowed.end
  }

  predicate Apart(a: Range, b: Range) {
    a.end <= b.start || b.end <= a.start
  }

  predicate AllApart(r: Range, ranges: seq<Range>) {
    forall i :: 0 <= i < |ranges| ==> Apart(r, ranges[i])
  }

  predicate Disjoint(ranges: seq<Range>) {
    ranges == [] || (AllApart(ranges[0], ranges[1..]) && Disjoint(ranges[1..]))
  }

  /** ... which is to say, any two of them. */
  lemma {:induction false} DisjointPairs(ranges: seq<Range>)
    ensures Disjoint(ranges) <==> forall i, j :: 0 <= i < j < |ranges| ==> Apart(ranges[i], ranges[j])
    decreases |ranges|
  {
    if ranges != [] {
      var rest := ranges[1..];
      DisjointPairs(rest);
      assert forall i :: 0 <= i < |rest| ==> rest[i] == ranges[i + 1];
      if Disjoint(ranges) {
        forall i, j | 0 <= i < j < |ranges| ensures Apart(ranges[i], ranges[j]) {
          if i == 0 {
            assert Apart(ranges[0], rest[j - 1]);
          } else {
            assert Apart(rest[i - 1], rest[j - 1]);
          }
        }
      }
    }
  }

  function Targets(blocks: seq<Block>): (ranges: seq<Range>)
    ensures |ranges| == |blocks|
  {
    seq(|blocks|, i requires 0 <= i < |blocks| => Target(blocks[i]))
  }

  predicate Distinct(blocks: seq<Block>) {
    forall i, j :: 0 <= i < j < |blocks| ==> blocks[i].number != blocks[j].number
  }

  /** Well-formed blocks, numbered apart, writing apart, inside the allowed range. */
  predicate AcceptableBlocks(blocks: seq<Block>, allowed: Range) {
    && (forall i :: 0 <= i < |blocks| ==> WellFormed(blocks[i], |blocks|, allowed))
    && Distinct(blocks)
    && Disjoint(Targets(blocks))
  }

  predicate Acceptable(data: seq<byte>, allowed: Range) {
    && 0 <= allowed.start < allowed.end <= UINT32_LIMIT
    && data != [] && |data| % BLOCK_BYTES == 0
    && AcceptableBlocks(Blocks(data, |data| / BLOCK_BYTES), allowed)
  }

  // ----- sorting -----

  predicate Before(a: Range, b: Range) {
    a.start < b.start || (a.start == b.start && a.end <= b.end)
  }

  predicate Ordered(s: seq<Range>) {
    forall i, j :: 0 <= i < j < |s| ==> Before(s[i], s[j])
  }

  function Insert(r: Range, s: seq<Range>): (t: seq<Range>)
    ensures |t| == |s| + 1
  {
    if s == [] || Before(r, s[0]) then [r] + s else [s[0]] + Insert(r, s[1..])
  }

  /** `ranges.sort()`. */
  function Sorted(s: seq<Range>): (t: seq<Range>)
    ensures |t| == |s|
  {
    if s == [] then [] else Insert(s[0], Sorted(s[1..]))
  }

  lemma {:induction false} InsertMembers(r: Range, s: seq<Range>)
    ensures multiset(Insert(r, s)) == multiset(s) + multiset{r}
    decreases |s|
  {
    if s != [] && !Before(r, s[0]) {
      InsertMembers(r, s[1..]);
      assert s == [s[0]] + s[1..];
    }
  }

  lemma OrderedCons(r: Range, s: seq<Range>)
    requires Ordered(s) && forall i :: 0 <= i < |s| ==> Before(r, s[i])
    ensures Ordered([r] + s)
  {
  }

  lemma {:induction false} InsertOrdered(r: Range, s: seq<Range>)
    requires Ordered(s)
    ensures Ordered(Insert(r, s))
    decreases |s|
  {
    if s == [] || Before(r, s[0]) {
      OrderedCons(r, s);
    } else {
      var t := Insert(r, s[1..]);
      InsertOrdered(r, s[1..]);
      InsertMembers(r, s[1..]);
      forall j | 0 <= j < |t| ensures Before(s[0], t[j]) {
        assert t[j] in multiset(t);
        assert t[j] == r || t[j] in s[1..];
      }
      OrderedCons(s[0], t);
    }
  }

  /** The sort orders the ranges and neither loses nor invents one. */
  lemma {:induction false} SortedKeeps(s: seq<Range>)
    ensures multiset(Sorted(s)) == multiset(s) && Ordered(Sorted(s))
    decreases |s|
  {
    if s != [] {
      SortedKeeps(s[1..]);
      InsertMembers(s[0], Sorted(s[1..]));
      InsertOrdered(s[0], Sorted(s[1..]));
      assert s == [s[0]] + s[1..];
    }
  }

  lemma {:induction false} InsertApart(q: Range, r: Range, s: seq<Range>)
    ensures AllApart(q, Insert(r, s)) <==> Apart(q, r) && AllApart(q, s)
    decreases |s|
  {
    if s == [] || Before(r, s[0]) {
      assert Insert(r, s)[0] == r && Insert(r, s)[1..] == s;
      assert forall i :: 0 <= i < |s| ==> Insert(r, s)[i + 1] == s[i];
    } else {
      InsertApart(q, r, s[1..]);
      Cons(q, s[0], s[1..]);
      Cons(q, s[0], Insert(r, s[1..]));
      assert s == [s[0]] + s[1..];
    }
  }

  lemma Cons(q: Range, r: Range, s: seq<Range>)
    ensures AllApart(q, [r] + s) <==> Apart(q, r) && AllApart(q, s)
  {
    var t := [r] + s;
    assert t[0] == r && forall i :: 0 <= i < |s| ==> t[i + 1] == s[i];
    if AllApart(q, s) && Apart(q, r) {
      forall i | 0 <= i < |t| ensures Apart(q, t[i]) {
        if i > 0 {
          assert t[i] == s[i - 1];
        }
      }
    }
  }

  lemma {:induction false} InsertDisjoint(r: Range, s: seq<Range>)
    ensures Disjoint(Insert(r, s)) <==> AllApart(r, s) && Disjoint(s)
    decreases |s|
  {
    var t := Insert(r, s);
    if s == [] || Before(r, s[0]) {
      assert t[1..] == s;
    } else {
      InsertDisjoint(r, s[1..]);
      InsertApart(s[0], r, s[1..]);
      assert t[1..] == Insert(r, s[1..]);
      Cons(r, s[0], s[1..]);
      assert s == [s[0]] + s[1..];
    }
  }

  lemma {:induction false} SortedApart(q: Range, s: seq<Range>)
    ensures AllApart(q, Sorted(s)) <==> AllApart(q, s)
    decreases |s|
  {
    if s != [] {
      SortedApart(q, s[1..]);
      InsertApart(q, s[0], Sorted(s[1..]));
      Cons(q, s[0], s[1..]);
      assert s == [s[0]] + s[1..];
    }
  }

  /** Sorting does not matter to disjointness. */
  lemma {:induction false} SortedDisjoint(s: seq<Range>)
    ensures Disjoint(Sorted(s)) <==> Disjoint(s)
    decreases |s|
  {
    if s != [] {
      SortedDisjoint(s[1..]);
      SortedApart(s[0], s[1..]);
      InsertDisjoint(s[0], Sorted(s[1..]));
    }
  }

  predicate NonEmpty(s: seq<Range>) {
    forall i :: 0 <= i < |s| ==> s[i].start < s[i].end
  }

  /** No range starts before its predecessor ends. */
  predicate Chained(s: seq<Range>) {
    forall i :: 0 < i < |s| ==> s[i - 1].end <= s[i].start
  }

  lemma {:induction false} ChainReaches(s: seq<Range>, i: nat, j: nat)
    requires Chained(s) && NonEmpty(s) && i < j < |s|
    ensures s[i].end <= s[j].start
    decreases j
  {
    if i < j - 1 {
      ChainReaches(s, i, j - 1);
    }
    assert s[j - 1].end <= s[j].start;
  }

  /** Comparing neighbours is enough: for ordered, non-empty ranges it is the same as comparing all pairs. */
  lemma {:induction false} NeighboursSuffice(s: seq<Range>)
    requires Ordered(s) && NonEmpty(s)
    ensures Chained(s) <==> Disjoint(s)
    decreases |s|
  {
    if s != [] {
      var t := s[1..];
      assert forall i :: 0 <= i < |t| ==> t[i] == s[i + 1];
      NeighboursSuffice(t);
      if Chained(s) {
        assert Chained(t);
        forall i | 0 <= i < |t| ensures Apart(s[0], t[i]) {
          ChainReaches(s, 0, i + 1);
        }
      }
      if Disjoint(s) {
        forall i | 0 < i < |s| ensures s[i - 1].end <= s[i].start {
          if i == 1 {
            assert Apart(s[0], t[0]) && Before(s[0], s[1]);
          } else {
            assert t[i - 2].end <= t[i - 1].start;
          }
        }
      }
    }
  }

  // ----- what acceptance gives -----

  function Numbers(blocks: seq<Block>): set<nat> {
    set i | 0 <= i < |blocks| :: blocks[i].number
  }

  function Below(n: nat): (s: set<nat>)
    ensures forall x :: x in s <==> 0 <= x < n
  {
    if n == 0 then {} else Below(n - 1) + {n - 1}
  }

  lemma {:induction false} BelowSize(n: nat)
    ensures |Below(n)| == n
  {
    if n != 0 {
      BelowSize(n - 1);
    }
  }

  lemma {:induction false} SubsetSize(a: set<nat>, b: set<nat>)
    requires a <= b
    ensures |a| <= |b|
    decreases |a|
  {
    if a != {} {
      var x :| x in a;
      SubsetSize(a - {x}, b - {x});
    }
  }

  /** Pigeonhole: as many distinct numbers below `n` as there are, are all of them. */
  lemma FullSet(a: set<nat>, n: nat)
    requires a <= Below(n) && |a| == n
    ensures a == Below(n)
  {
    BelowSize(n);
    if x :| x in Below(n) && x !in a {
      SubsetSize(a, Below(n) - {x});
    }
  }

  lemma {:induction false} DistinctNumbers(blocks: seq<Block>)
    requires Distinct(blocks)
    ensures |Numbers(blocks)| == |blocks|
    decreases |blocks|
  {
    if blocks != [] {
      var k := |blocks| - 1;
      DistinctNumbers(blocks[..k]);
      assert Numbers(blocks) == Numbers(blocks[..k]) + {blocks[k].number};
    } else {
      assert Numbers(blocks) == {};
    }
  }

  function Total(s: seq<Range>): int {
    if s == [] then 0 else s[0].end - s[0].start + Total(s[1..])
  }

  lemma {:induction false} InsertTotal(r: Range, s: seq<Range>)
    ensures Total(Insert(r, s)) == r.end - r.start + Total(s)
    decreases |s|
  {
    if s != [] && !Before(r, s[0]) {
      InsertTotal(r, s[1..]);
      assert Insert(r, s)[1..] == Insert(r, s[1..]);
    } else {
      assert Insert(r, s)[1..] == s;
    }
  }

  lemma {:induction false} SortedTotal(s: seq<Range>)
    ensures Total(Sorted(s)) == Total(s)
    decreases |s|
  {
    if s != [] {
      SortedTotal(s[1..]);
      InsertTotal(s[0], Sorted(s[1..]));
    }
  }

  lemma {:induction false} ChainTotal(s: seq<Range>)
    requires s != [] && Chained(s) && NonEmpty(s)
    ensures Total(s) <= s[|s| - 1].end - s[0].start
    decreases |s|
  {
    if |s| > 1 {
      assert s[1].start >= s[0].end;
      assert Chained(s[1..]) && NonEmpty(s[1..]);
      ChainTotal(s[1..]);
    }
  }

  // ----- the check -----

  datatype Error =
    | BadAllowedRange | BadLength | BadMagic | BadPayloadSize | BadBlockCount | BadBlockNumber
    | TargetWraps | OutsideRange | MissingNumber | Overlapping

  datatype Outcome = Verified(blockCount: nat, targetStart: int, targetEnd: int) | Refused(error: Error)

  /** The first complaint about a block, given the numbers seen before it. */
  function Complaint(b: Block, n: nat, allowed: Range, seen: set<nat>): Option<Error> {
    if b.magic0 != MAGIC_START0 || b.magic1 != MAGIC_START1 || b.endMagic != MAGIC_END then Some(BadMagic)
    else if b.size == 0 || b.size > MAX_PAYLOAD then Some(BadPayloadSize)
    else if b.count == 0 || b.count != n then Some(BadBlockCount)
    else if b.number >= b.count || b.number in seen then Some(BadBlockNumber)
    else if b.target > UINT32_LIMIT - b.size then Some(TargetWraps)
    else if b.target < allowed.start || b.target + b.size > allowed.end then Some(OutsideRange)
    else None
  }

  lemma NoComplaint(b: Block, n: nat, allowed: Range, seen: set<nat>)
    requires allowed.end <= UINT32_LIMIT
    ensures Complaint(b, n, allowed, seen).None? <==> WellFormed(b, n, allowed) && b.number !in seen
  {
  }

  /** The blocks before `k` pass. */
  predicate Passed(blocks: seq<Block>, k: nat, allowed: Range)
    requires k <= |blocks|
  {
    (forall i :: 0 <= i < k ==> WellFormed(blocks[i], |blocks|, allowed)) && Distinct(blocks[..k])
  }

  lemma PassedNext(blocks: seq<Block>, k: nat, allowed: Range)
    requires k < |blocks| && Passed(blocks, k, allowed)
    ensures Passed(blocks, k + 1, allowed)
            <==> WellFormed(blocks[k], |blocks|, allowed) && blocks[k].number !in Numbers(blocks[..k])
    ensures Numbers(blocks[..k + 1]) == Numbers(blocks[..k]) + {blocks[k].number}
    ensures Targets(blocks[..k + 1]) == Targets(blocks[..k]) + [Target(blocks[k])]
  {
    assert blocks[..k + 1] == blocks[..k] + [blocks[k]];
    if blocks[k].number in Numbers(blocks[..k]) {
      var i :| 0 <= i < k && blocks[..k][i].number == blocks[k].number;
      assert blocks[..k + 1][i].number == blocks[..k + 1][k].number;
    }
  }

  lemma PassedBefore(blocks: seq<Block>, j: nat, k: nat, allowed: Range)
    requires j <= k <= |blocks| && Passed(blocks, k, allowed)
    ensures Passed(blocks, j, allowed)
  {
    forall a, b | 0 <= a < b < j ensures blocks[..j][a].number != blocks[..j][b].number {
      assert blocks[..k][a].number != blocks[..k][b].number;
    }
  }

  /** The scan over the blocks, with the check for missing numbers, which never fires. */
  method Scan(blocks: seq<Block>, allowed: Range) returns (error: Option<Error>, ranges: seq<Range>)
    requires allowed.end <= UINT32_LIMIT
    ensures error.None? <==> Passed(blocks, |blocks|, allowed)
    ensures error.None? ==> ranges == Targets(blocks)
    ensures error != Some(MissingNumber)
  {
    var seen: set<nat> := {};
    error, ranges := None, [];
    var k := 0;
    while k < |blocks| && error.None?
      invariant 0 <= k <= |blocks|
      invariant error.None? ==> Passed(blocks, k, allowed)
      invariant error.None? ==> seen == Numbers(blocks[..k]) && ranges == Targets(blocks[..k])
      invariant error.Some? ==> !Passed(blocks, |blocks|, allowed) && error != Some(MissingNumber)
      decreases |blocks| - k, error.None?
    {
      error := Complaint(blocks[k], |blocks|, allowed, seen);
      NoComplaint(blocks[k], |blocks|, allowed, seen);
      PassedNext(blocks, k, allowed);
      if error.None? {
        seen := seen + {blocks[k].number};
        ranges := ranges + [Target(blocks[k])];
        k := k + 1;
      } else if Passed(blocks, |blocks|, allowed) {
        PassedBefore(blocks, k + 1, |blocks|, allowed);
        assert false;
      }
    }
    if error.None? {
      assert blocks[..k] == blocks;
      if seen != Below(|blocks|) {
        DistinctNumbers(blocks);
        FullSet(seen, |blocks|);
        assert false;
      }
    }
  }

  /** The comparison of neighbours after the sort. */
  method CheckNeighbours(s: seq<Range>) returns (ok: bool)
    ensures ok <==> Chained(s)
  {
    ok := true;
    var i := 1;
    while i < |s|
      invariant i >= 1
      invariant ok <==> forall k :: 0 < k < i && k < |s| ==> s[k - 1].end <= s[k].start
    {
      if s[i].start < s[i - 1].end {
        ok := false;
      }
      i := i + 1;
    }
  }

  method LargestEnd(s: seq<Range>) returns (end: int)
    requires s != []
    ensures IsLargestEnd(end, s)
  {
    end := s[0].end;
    for i := 1 to |s|
      invariant exists k :: 0 <= k < |s| && s[k].end == end
      invariant forall k :: 0 <= k < i ==> s[k].end <= end
    {
      if s[i].end > end {
        end := s[i].end;
      }
    }
  }

  /** `[start, end)` is the smallest range around all the given ones, and has room for all of them. */
  predicate Covers(start: int, end: int, ranges: seq<Range>) {
    && (forall i :: 0 <= i < |ranges| ==> start <= ranges[i].start && ranges[i].end <= end)
    && (exists i :: 0 <= i < |ranges| && start == ranges[i].start)
    && (exists i :: 0 <= i < |ranges| && end == ranges[i].end)
    && Total(ranges) <= end - start
  }

  /** What the summary of an accepted image means. */
  predicate Describes(r: Outcome, blocks: seq<Block>)
    requires r.Verified?
  {
    && r.blockCount == |blocks| && Numbers(blocks) == Below(|blocks|)
    && Covers(r.targetStart, r.targetEnd, Targets(blocks))
  }

  lemma PassedNumbers(blocks: seq<Block>, allowed: Range)
    requires Passed(blocks, |blocks|, allowed)
    ensures Numbers(blocks) == Below(|blocks|)
  {
    assert blocks[..|blocks|] == blocks;
    DistinctNumbers(blocks);
    FullSet(Numbers(blocks), |blocks|);
  }

  lemma SameMembers(s: seq<Range>, t: seq<Range>)
    requires multiset(s) == multiset(t)
    ensures forall i :: 0 <= i < |s| ==> s[i] in t
  {
    forall i | 0 <= i < |s| ensures s[i] in t {
      assert s[i] in multiset(s);
      assert s[i] in multiset(t);
    }
  }

  lemma PassedRanges(blocks: seq<Block>, allowed: Range)
    requires Passed(blocks, |blocks|, allowed)
    ensures var s := Sorted(Targets(blocks));
            Ordered(s) && NonEmpty(s) && (Chained(s) <==> Disjoint(Targets(blocks)))
  {
    var ranges := Targets(blocks);
    var s := Sorted(ranges);
    SortedKeeps(ranges);
    SameMembers(s, ranges);
    assert NonEmpty(ranges);
    forall i | 0 <= i < |s| ensures s[i].start < s[i].end {
      assert s[i] in ranges;
    }
    NeighboursSuffice(s);
    SortedDisjoint(ranges);
  }

  predicate IsLargestEnd(end: int, s: seq<Range>) {
    && (exists i :: 0 <= i < |s| && s[i].end == end)
    && (forall i :: 0 <= i < |s| ==> s[i].end <= end)
  }

  lemma OrderedCovers(s: seq<Range>, end: int)
    requires s != [] && Ordered(s) && NonEmpty(s) && Chained(s) && IsLargestEnd(end, s)
    ensures Covers(s[0].start, end, s)
  {
    ChainTotal(s);
    forall i | 0 <= i < |s| ensures s[0].start <= s[i].start {
      assert i > 0 ==> Before(s[0], s[i]);
    }
  }

  lemma CoversSame(start: int, end: int, s: seq<Range>, t: seq<Range>)
    requires Covers(start, end, s) && multiset(s) == multiset(t) && Total(s) == Total(t)
    ensures Covers(start, end, t)
  {
    SameMembers(s, t);
    SameMembers(t, s);
    var i :| 0 <= i < |s| && start == s[i].start;
    assert s[i] in t;
    var j :| 0 <= j < |s| && end == s[j].end;
    assert s[j] in t;
    forall k | 0 <= k < |t| ensures start <= t[k].start && t[k].end <= end {
      assert t[k] in s;
    }
  }

  lemma SortedCovers(ranges: seq<Range>, end: int)
    requires var s := Sorted(ranges); s != [] && Ordered(s) && NonEmpty(s) && Chained(s) && IsLargestEnd(end, s)
    ensures Covers(Sorted(ranges)[0].start, end, ranges)
  {
    var s := Sorted(ranges);
    OrderedCovers(s, end);
    SortedKeeps(ranges);
    SortedTotal(ranges);
    CoversSame(s[0].start, end, s, ranges);
  }

  /** `verify_uf2_range` after its checks of the arguments. */
  method VerifyBlocks(blocks: seq<Block>, allowed: Range) returns (r: Outcome)
    requires blocks != [] && allowed.end <= UINT32_LIMIT
    ensures r.Verified? <==> AcceptableBlocks(blocks, allowed)
    ensures r.Verified? ==> Describes(r, blocks)
  {
    assert blocks[..|blocks|] == blocks;
    var error, ranges := Scan(blocks, allowed);
    if error.Some? {
      r := Refused(error.value);
    } else {
      PassedRanges(blocks, allowed);
      var s := Sorted(ranges);
      var ok := CheckNeighbours(s);
      if !ok {
        r := Refused(Overlapping);
      } else {
        var end := LargestEnd(s);
        PassedNumbers(blocks, allowed);
        SortedCovers(ranges, end);
        r := Verified(|blocks|, s[0].start, end);
      }
    }
  }

  /** `verify_uf2_range`: it accepts exactly the acceptable images, and its summary is right. */
  method Verify(data: seq<byte>, allowed: Range) returns (r: Outcome)
    ensures r.Verified? <==> Acceptable(data, allowed)
    ensures r.Verified? ==> Describes(r, Blocks(data, |data| / BLOCK_BYTES))
  {
    if !(0 <= allowed.start < allowed.end <= UINT32_LIMIT) {
      r := Refused(BadAllowedRange);
    } else if data == [] || |data| % BLOCK_BYTES != 0 {
      r := Refused(BadLength);
    } else {
      r := VerifyBlocks(Blocks(data, |data| / BLOCK_BYTES), allowed);
    }
  }
}
