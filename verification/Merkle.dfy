/** Merkle commitments (labeling/commitments.py): the recursive tree of section 2.1 of RFC 6962,
    its audit paths, and the iterative inclusion check of section 2.1.3.2 of RFC 9162. */
module Merkle {
  import opened Arithmetic
  import opened Common

  /** A SHA-256 digest. Hashing two digests together is a free constructor: no collisions. */
  datatype Digest = Leaf(id: nat) | Node(left: Digest, right: Digest)

  /** What a caller may pass where a hex digest is expected; hashing a Malformed one raises. */
  datatype Hex = Valid(digest: Digest) | Malformed(text: string)

  /** Number of bits of n, as Python's int.bit_length. */
  function BitLength(n: nat): nat {
    if n == 0 then 0 else 1 + BitLength(n / 2)
  }

  /** The split point of a tree with more than one leaf. */
  function Split(size: nat): nat
    requires size > 1
  {
    Pow2(BitLength(size - 1) - 1)
  }

  lemma {:induction false} BitLengthBounds(n: nat)
    requires n > 0
    ensures BitLength(n) > 0 && Pow2(BitLength(n) - 1) <= n < Pow2(BitLength(n)) == 2 * Pow2(BitLength(n) - 1)
  {
    if n > 1 {
      BitLengthBounds(n / 2);
    }
  }

  /** With size - 1 between two neighbouring powers of two, the lower one is the largest below size. */
  lemma LargestPowerBelow(size: nat, bits: nat, e: nat)
    requires size > 1 && bits > 0 && Pow2(bits - 1) <= size - 1 < Pow2(bits)
    ensures Pow2(e) < size <==> Pow2(e) <= Pow2(bits - 1)
  {
    Pow2Monotone(e, bits - 1);
    Pow2Monotone(bits, e);
  }

  /** The split is the largest power of two strictly below the size. */
  lemma SplitIsLargestPowerOfTwo(size: nat, e: nat)
    requires size > 1
    ensures Split(size) < size <= 2 * Split(size)
    ensures Pow2(e) < size <==> Pow2(e) <= Split(size)
  {
    BitLengthBounds(size - 1);
    LargestPowerBelow(size, BitLength(size - 1), e);
  }

  lemma {:induction false} Pow2Monotone(a: nat, b: nat)
    ensures a <= b ==> Pow2(a) <= Pow2(b)
    decreases b
  {
    if a < b {
      Pow2Monotone(a, b - 1);
    }
  }

  function TreeRoot(leaves: seq<Digest>): Digest
    requires |leaves| > 0
    decreases |leaves|
  {
    if |leaves| == 1 then leaves[0]
    else
      SplitIsLargestPowerOfTwo(|leaves|, 0);
      var k := Split(|leaves|);
      Node(TreeRoot(leaves[..k]), TreeRoot(leaves[k..]))
  }

  function MerkleRoot(leaves: seq<Digest>): Result<Digest> {
    if leaves == [] then Err("A Merkle tree requires at least one leaf") else Ok(TreeRoot(leaves))
  }

  function TreePath(leaves: seq<Digest>, index: nat): seq<Digest>
    requires index < |leaves|
    decreases |leaves|
  {
    if |leaves| == 1 then []
    else
      SplitIsLargestPowerOfTwo(|leaves|, 0);
      var k := Split(|leaves|);
      if index < k then TreePath(leaves[..k], index) + [TreeRoot(leaves[k..])]
      else TreePath(leaves[k..], index - k) + [TreeRoot(leaves[..k])]
  }

  function AuditPath(leaves: seq<Digest>, index: int): Result<seq<Digest>> {
    if 0 <= index < |leaves| then Ok(TreePath(leaves, index)) else Err("Leaf index is outside the tree")
  }

  function AllHex(path: seq<Digest>): (texts: seq<Hex>)
    ensures |texts| == |path| && forall i :: 0 <= i < |path| ==> texts[i] == Valid(path[i])
  {
    seq(|path|, i requires 0 <= i < |path| => Valid(path[i]))
  }

  /* ---- the same root, level by level ---- */

  /** Hashes neighbours together; an odd one out at the end is carried up as it is. */
  function PairUp(level: seq<Digest>): (above: seq<Digest>)
    ensures |above| == (|level| + 1) / 2
    decreases |level|
  {
    if |level| < 2 then level else [Node(level[0], level[1])] + PairUp(level[2..])
  }

  function LevelRoot(level: seq<Digest>): Digest
    requires |level| > 0
    decreases |level|
  {
    if |level| == 1 then level[0] else LevelRoot(PairUp(level))
  }

  lemma {:induction false} PairUpConcat(a: seq<Digest>, b: seq<Digest>)
    requires |a| % 2 == 0
    ensures PairUp(a + b) == PairUp(a) + PairUp(b)
    decreases |a|
  {
    if a == [] {
      assert a + b == b;
    } else {
      assert (a + b)[2..] == a[2..] + b;
      PairUpConcat(a[2..], b);
    }
  }

  /** A full level of 2^k nodes next to at most as many joins in one node at the top. */
  lemma {:induction false} LevelsJoin(a: seq<Digest>, b: seq<Digest>, k: nat)
    requires |a| == Pow2(k) && 0 < |b| <= |a|
    ensures LevelRoot(a + b) == Node(LevelRoot(a), LevelRoot(b))
    decreases k
  {
    if k == 0 {
      assert PairUp((a + b)[2..]) == [];
      assert PairUp(a + b) == [Node(a[0], b[0])];
    } else {
      PairUpConcat(a, b);
      LevelsJoin(PairUp(a), PairUp(b), k - 1);
      assert |b| == 1 ==> PairUp(b) == b;
    }
  }

  /** The recursive tree has the root one gets by hashing neighbours level by level. */
  lemma {:induction false} RootIsLevelByLevel(leaves: seq<Digest>)
    requires |leaves| > 0
    ensures TreeRoot(leaves) == LevelRoot(leaves)
    decreases |leaves|
  {
    if |leaves| > 1 {
      SplitIsLargestPowerOfTwo(|leaves|, 0);
      var k := Split(|leaves|);
      RootIsLevelByLevel(leaves[..k]);
      RootIsLevelByLevel(leaves[k..]);
      LevelsJoin(leaves[..k], leaves[k..], BitLength(|leaves| - 1) - 1);
      assert leaves[..k] + leaves[k..] == leaves;
    }
  }

  /* ---- the verifier's loop as a run over states ---- */

  datatype Cursor = Cursor(fn: nat, sn: nat, result: Hex)

  /** Drops trailing zero bits of fn, the same number from sn. */
  function SkipRightEdge(fn: nat, sn: nat): (r: (nat, nat))
    ensures r.1 <= sn
    decreases fn
  {
    if fn % 2 == 0 && fn != 0 then SkipRightEdge(fn / 2, sn / 2) else (fn, sn)
  }

  /** Does the next sibling stand to the left of the running hash? */
  predicate SiblingOnLeft(fn: nat, sn: nat) {
    fn % 2 == 1 || fn == sn
  }

  /** The two counters after one path element. */
  function Advance(fn: nat, sn: nat): (nat, nat) {
    var (f, s) := if SiblingOnLeft(fn, sn) then SkipRightEdge(fn, sn) else (fn, sn);
    (f / 2, s / 2)
  }

  function NodeHash(left: Hex, right: Hex): Result<Hex> {
    if left.Valid? && right.Valid? then Ok(Valid(Node(left.digest, right.digest)))
    else Err("non-hexadecimal number found")
  }

  function Absorb(c: Cursor, sibling: Hex): Result<Cursor> {
    var hashed := if SiblingOnLeft(c.fn, c.sn) then NodeHash(sibling, c.result) else NodeHash(c.result, sibling);
    var (fn, sn) := Advance(c.fn, c.sn);
    if c.sn == 0 then Err("path too long")
    else if hashed.Err? then Err(hashed.error)
    else Ok(Cursor(fn, sn, hashed.value))
  }

  function AbsorbAll(c: Cursor, path: seq<Hex>): Result<Cursor>
    decreases |path|
  {
    if path == [] then Ok(c)
    else
      var next := Absorb(c, path[0]);
      if next.Err? then next else AbsorbAll(next.value, path[1..])
  }

  predicate Accepts(leaf: Hex, index: int, size: int, path: seq<Hex>, root: Hex) {
    0 <= index < size &&
    var end := AbsorbAll(Cursor(index, size - 1, leaf), path);
    end.Ok? && end.value.sn == 0 && end.value.result == root
  }

  /** The check as the source runs it: two counters shifted in place. */
  method VerifyPath(leaf: Hex, index: int, size: int, path: seq<Hex>, root: Hex) returns (ok: bool)
    ensures ok == Accepts(leaf, index, size, path, root)
  {
    if !(0 <= index < size) {
      return false;
    }
    var fn: nat, sn: nat, result := index, size - 1, leaf;
    ghost var start := Cursor(fn, sn, result);
    for i := 0 to |path|
      invariant AbsorbAll(start, path) == AbsorbAll(Cursor(fn, sn, result), path[i..])
    {
      var sibling := path[i];
      assert path[i..][0] == sibling && path[i..][1..] == path[i + 1..];
      if sn == 0 {
        return false;
      }
      if fn % 2 == 1 || fn == sn {
        var hashed := NodeHash(sibling, result);
        if hashed.Err? {
          return false;
        }
        ghost var f0, s0, r0 := fn, sn, result;
        result := hashed.value;
        while fn % 2 != 1 && fn != 0
          invariant SkipRightEdge(fn, sn) == SkipRightEdge(f0, s0)
          decreases fn
        {
          fn, sn := fn / 2, sn / 2;
        }
        assert Absorb(Cursor(f0, s0, r0), sibling) == Ok(Cursor(fn / 2, sn / 2, result));
      } else {
        var hashed := NodeHash(result, sibling);
        if hashed.Err? {
          return false;
        }
        result := hashed.value;
      }
      fn, sn := fn / 2, sn / 2;
    }
    assert path[|path|..] == [];
    ok := sn == 0 && result == root;
  }

  /* ---- completeness ---- */

  lemma {:induction false} AbsorbAllSnoc(c: Cursor, path: seq<Hex>, last: Hex)
    ensures AbsorbAll(c, path + [last]) ==
            var mid := AbsorbAll(c, path); if mid.Err? then mid else Absorb(mid.value, last)
    decreases |path|
  {
    var whole := path + [last];
    if path == [] {
      assert whole[1..] == [];
    } else {
      var next := Absorb(c, path[0]);
      assert whole[1..] == path[1..] + [last];
      if next.Ok? {
        AbsorbAllSnoc(next.value, path[1..], last);
      }
    }
  }

  /** A path for a full subtree of 2^m leaves, replayed with more bits above: the subtree lies to
      the left of the edge, so only the top bit of sn is left over. */
  lemma {:induction false} ReplayLeft(fn: nat, m: nat, sn: nat, r: Hex, path: seq<Hex>)
    requires fn < Pow2(m) <= sn < Pow2(m + 1)
    requires var end := AbsorbAll(Cursor(fn, Pow2(m) - 1, r), path); end.Ok? && end.value.sn == 0
    ensures AbsorbAll(Cursor(fn, Pow2(m) - 1, r), path).value.fn == 0
    ensures AbsorbAll(Cursor(fn, sn, r), path) ==
            Ok(Cursor(0, 1, AbsorbAll(Cursor(fn, Pow2(m) - 1, r), path).value.result))
    decreases |path|
  {
    if path != [] {
      var inner := Absorb(Cursor(fn, Pow2(m) - 1, r), path[0]);
      assert inner.Ok? && m > 0;
      assert Advance(fn, Pow2(m) - 1) == (fn / 2, Pow2(m - 1) - 1);
      assert Advance(fn, sn) == (fn / 2, sn / 2);
      assert Absorb(Cursor(fn, sn, r), path[0]) == Ok(Cursor(fn / 2, sn / 2, inner.value.result));
      ReplayLeft(fn / 2, m - 1, sn / 2, inner.value.result, path[1..]);
    }
  }

  /** Halving under an extra top bit. */
  lemma HalfUnderBit(x: nat, e: nat)
    requires e > 0
    ensures (x + Pow2(e)) / 2 == x / 2 + Pow2(e - 1) && (x + Pow2(e)) % 2 == x % 2
    ensures x < Pow2(e) ==> x / 2 < Pow2(e - 1)
  {
  }

  /** The same shift on both counters with one more bit above them. */
  lemma {:induction false} SkipUnderBit(fn: nat, sn: nat, e: nat) returns (e': nat)
    requires 0 < fn <= sn < Pow2(e)
    ensures var (f, s) := SkipRightEdge(fn, sn);
            0 < f && f % 2 == 1 && f <= s < Pow2(e')
                && SkipRightEdge(fn + Pow2(e), sn + Pow2(e)) == (f + Pow2(e'), s + Pow2(e'))
    decreases fn
  {
    assert e > 0;
    HalfUnderBit(fn, e);
    HalfUnderBit(sn, e);
    if fn % 2 == 0 {
      e' := SkipUnderBit(fn / 2, sn / 2, e - 1);
    } else {
      e' := e;
    }
  }

  lemma SiblingUnderBit(fn: nat, sn: nat, e: nat)
    requires e > 0
    ensures SiblingOnLeft(fn + Pow2(e), sn + Pow2(e)) == SiblingOnLeft(fn, sn)
  {
    HalfUnderBit(fn, e);
  }

  lemma PositiveBit(x: nat, e: nat)
    requires 0 < x < Pow2(e)
    ensures e > 0
  {
  }

  /** One path element read under an extra top bit on both counters: the bit moves down with them. */
  lemma AdvanceUnderBit(fn: nat, sn: nat, e: nat) returns (e': nat)
    requires fn <= sn < Pow2(e) && sn > 0
    ensures var (f, s) := Advance(fn, sn);
            f <= s < Pow2(e') && Advance(fn + Pow2(e), sn + Pow2(e)) == (f + Pow2(e'), s + Pow2(e'))
    ensures SiblingOnLeft(fn + Pow2(e), sn + Pow2(e)) == SiblingOnLeft(fn, sn)
  {
    hide SkipRightEdge, Pow2;
    PositiveBit(sn, e);
    SiblingUnderBit(fn, sn, e);
    if SiblingOnLeft(fn, sn) {
      var d := SkipUnderBit(fn, sn, e);
      var (f, s) := SkipRightEdge(fn, sn);
      PositiveBit(s, d);
      HalfUnderBit(f, d);
      HalfUnderBit(s, d);
      e' := d - 1;
    } else {
      HalfUnderBit(fn, e);
      HalfUnderBit(sn, e);
      e' := e - 1;
    }
  }

  lemma AbsorbUnderBit(fn: nat, sn: nat, e: nat, r: Hex, x: Hex) returns (e': nat)
    requires fn <= sn < Pow2(e)
    requires Absorb(Cursor(fn, sn, r), x).Ok?
    ensures var c := Absorb(Cursor(fn, sn, r), x).value;
            c.fn <= c.sn < Pow2(e') &&
            Absorb(Cursor(fn + Pow2(e), sn + Pow2(e), r), x) == Ok(Cursor(c.fn + Pow2(e'), c.sn + Pow2(e'), c.result))
  {
    e' := AdvanceUnderBit(fn, sn, e);
  }

  /** Reading the first element of a path. */
  lemma AbsorbFirst(c: Cursor, path: seq<Hex>)
    requires path != []
    ensures AbsorbAll(c, path) ==
        if Absorb(c, path[0]).Ok? then AbsorbAll(Absorb(c, path[0]).value, path[1..]) else Absorb(c, path[0])
  {
  }

  /** A path for the right subtree, replayed with the bit of the left subtree above: both counters
      end on the same power of two. */
  lemma {:induction false} ReplayRight(fn: nat, sn: nat, e: nat, r: Hex, path: seq<Hex>, end: Cursor) returns (t: nat)
    requires fn <= sn < Pow2(e)
    requires AbsorbAll(Cursor(fn, sn, r), path) == Ok(end) && end.sn == 0
    ensures AbsorbAll(Cursor(fn + Pow2(e), sn + Pow2(e), r), path) == Ok(Cursor(Pow2(t), Pow2(t), end.result))
    decreases |path|
  {
    hide Absorb;
    if path == [] {
      t := e;
    } else {
      AbsorbFirst(Cursor(fn, sn, r), path);
      AbsorbFirst(Cursor(fn + Pow2(e), sn + Pow2(e), r), path);
      var inner := Absorb(Cursor(fn, sn, r), path[0]).value;
      var e' := AbsorbUnderBit(fn, sn, e, r, path[0]);
      t := ReplayRight(inner.fn, inner.sn, e', inner.result, path[1..], end);
    }
  }

  lemma {:induction false} SkipPowerOfTwo(t: nat)
    ensures SkipRightEdge(Pow2(t), Pow2(t)) == (1, 1)
  {
    if t > 0 {
      SkipPowerOfTwo(t - 1);
    }
  }

  /** The step that joins the right subtree to its left sibling ends the walk. */
  lemma AbsorbAtPower(t: nat, r: Hex, x: Hex)
    requires r.Valid? && x.Valid?
    ensures Absorb(Cursor(Pow2(t), Pow2(t), r), x) == Ok(Cursor(0, 0, Valid(Node(x.digest, r.digest))))
  {
    SkipPowerOfTwo(t);
  }

  /** From the counters of a leaf, the path ends at the root with sn == 0. */
  ghost predicate WalkLands(size: nat, index: nat, leaf: Hex, path: seq<Hex>, root: Digest)
    requires index < size
  {
    exists fn :: AbsorbAll(Cursor(index, size - 1, leaf), path) == Ok(Cursor(fn, 0, Valid(root)))
  }

  /** A walk in the left subtree goes on to the root of the whole tree. */
  lemma LeftWalkGoesOn(size: nat, m: nat, index: nat, leaf: Hex, path: seq<Hex>, root: Digest, sibling: Digest)
    requires index < Pow2(m) < size <= 2 * Pow2(m)
    requires WalkLands(Pow2(m), index, leaf, path, root)
    ensures WalkLands(size, index, leaf, path + [Valid(sibling)], Node(root, sibling))
  {
    ReplayLeft(index, m, size - 1, leaf, path);
    AbsorbAllSnoc(Cursor(index, size - 1, leaf), path, Valid(sibling));
  }

  /** So does a walk in the right subtree. */
  lemma RightWalkGoesOn(size: nat, m: nat, index: nat, leaf: Hex, path: seq<Hex>, root: Digest, sibling: Digest)
    requires index < size <= Pow2(m)
    requires WalkLands(size, index, leaf, path, root)
    ensures WalkLands(size + Pow2(m), index + Pow2(m), leaf, path + [Valid(sibling)], Node(sibling, root))
  {
    var t := ReplayRight(index, size - 1, m, leaf, path, AbsorbAll(Cursor(index, size - 1, leaf), path).value);
    AbsorbAllSnoc(Cursor(index + Pow2(m), size - 1 + Pow2(m), leaf), path, Valid(sibling));
    AbsorbAtPower(t, Valid(root), Valid(sibling));
  }

  ghost predicate Lands(leaves: seq<Digest>, index: nat)
    requires index < |leaves|
  {
    WalkLands(|leaves|, index, Valid(leaves[index]), AllHex(TreePath(leaves, index)), TreeRoot(leaves))
  }

  /** The path of a leaf in either subtree, and the root of the other one. */
  lemma PathOfSubtree(leaves: seq<Digest>, index: nat)
    requires |leaves| > 1 && index < |leaves| && Split(|leaves|) < |leaves|
    ensures var k := Split(|leaves|);
            && TreeRoot(leaves) == Node(TreeRoot(leaves[..k]), TreeRoot(leaves[k..]))
            && AllHex(TreePath(leaves, index))
               == if index < k then AllHex(TreePath(leaves[..k], index)) + [Valid(TreeRoot(leaves[k..]))]
                  else AllHex(TreePath(leaves[k..], index - k)) + [Valid(TreeRoot(leaves[..k]))]
  {
  }

  lemma LandsFromLeft(leaves: seq<Digest>, index: nat)
    requires |leaves| > 1 && index < Split(|leaves|) < |leaves|
    requires Lands(leaves[..Split(|leaves|)], index)
    ensures Lands(leaves, index)
  {
    hide AbsorbAll;
    var n, k, m := |leaves|, Split(|leaves|), BitLength(|leaves| - 1) - 1;
    SplitIsLargestPowerOfTwo(n, 0);
    LeftWalkGoesOn(n, m, index, Valid(leaves[index]), AllHex(TreePath(leaves[..k], index)), TreeRoot(leaves[..k]),
                   TreeRoot(leaves[k..]));
    PathOfSubtree(leaves, index);
  }

  lemma LandsFromRight(leaves: seq<Digest>, index: nat)
    requires |leaves| > 1 && Split(|leaves|) <= index < |leaves|
    requires Lands(leaves[Split(|leaves|)..], index - Split(|leaves|))
    ensures Lands(leaves, index)
  {
    hide AbsorbAll;
    var n, k, m := |leaves|, Split(|leaves|), BitLength(|leaves| - 1) - 1;
    SplitIsLargestPowerOfTwo(n, 0);
    RightWalkGoesOn(n - k, m, index - k, Valid(leaves[index]), AllHex(TreePath(leaves[k..], index - k)),
                    TreeRoot(leaves[k..]), TreeRoot(leaves[..k]));
    PathOfSubtree(leaves, index);
  }

  /** Walking a leaf's audit path up from its counters ends at the root with sn == 0. */
  lemma {:induction false} PathReachesRoot(leaves: seq<Digest>, index: nat)
    requires index < |leaves|
    ensures Lands(leaves, index)
    decreases |leaves|
  {
    if |leaves| > 1 {
      SplitIsLargestPowerOfTwo(|leaves|, 0);
      var k := Split(|leaves|);
      if index < k {
        PathReachesRoot(leaves[..k], index);
        LandsFromLeft(leaves, index);
      } else {
        PathReachesRoot(leaves[k..], index - k);
        LandsFromRight(leaves, index);
      }
    }
  }

  /* ---- soundness ---- */

  /** The counters alone fix how many siblings are read and on which side each stands, so two
      complete walks with one outcome started from the same hash and read the same siblings. */
  lemma {:induction false} WalkIsInjective(fn: nat, sn: nat, r1: Hex, p1: seq<Hex>, r2: Hex, p2: seq<Hex>)
    requires var end := AbsorbAll(Cursor(fn, sn, r1), p1); end.Ok? && end.value.sn == 0
    requires AbsorbAll(Cursor(fn, sn, r1), p1) == AbsorbAll(Cursor(fn, sn, r2), p2)
    ensures r1 == r2 && p1 == p2
    decreases |p1|
  {
    if p1 != [] && p2 != [] {
      var n1, n2 := Absorb(Cursor(fn, sn, r1), p1[0]).value, Absorb(Cursor(fn, sn, r2), p2[0]).value;
      WalkIsInjective(n1.fn, n1.sn, n1.result, p1[1..], n2.result, p2[1..]);
      assert p1 == [p1[0]] + p1[1..] && p2 == [p2[0]] + p2[1..];
    }
  }

  /** Against the root of a tree, the verifier accepts exactly the leaf at a valid index with
      exactly its audit path: completeness and soundness in one statement. */
  lemma VerifierAcceptsExactlyAuditPaths(leaves: seq<Digest>, leaf: Hex, index: int, path: seq<Hex>)
    requires leaves != []
    ensures Accepts(leaf, index, |leaves|, path, Valid(TreeRoot(leaves))) <==>
            0 <= index < |leaves| && leaf == Valid(leaves[index]) && path == AllHex(TreePath(leaves, index))
  {
    if 0 <= index < |leaves| {
      PathReachesRoot(leaves, index);
      if Accepts(leaf, index, |leaves|, path, Valid(TreeRoot(leaves))) {
        var audit := AllHex(TreePath(leaves, index));
        SameLanding(index, |leaves| - 1, leaf, path, Valid(leaves[index]), audit);
        WalkIsInjective(index, |leaves| - 1, leaf, path, Valid(leaves[index]), audit);
      }
    }
  }

  /** The counters after a complete walk do not depend on what was hashed. */
  lemma {:induction false} SameLanding(fn: nat, sn: nat, r1: Hex, p1: seq<Hex>, r2: Hex, p2: seq<Hex>)
    requires var end := AbsorbAll(Cursor(fn, sn, r1), p1); end.Ok? && end.value.sn == 0
    requires var end := AbsorbAll(Cursor(fn, sn, r2), p2); end.Ok? && end.value.sn == 0
    ensures AbsorbAll(Cursor(fn, sn, r1), p1).value.fn == AbsorbAll(Cursor(fn, sn, r2), p2).value.fn
    ensures |p1| == |p2|
    decreases |p1|
  {
    if p1 != [] && p2 != [] {
      var n1, n2 := Absorb(Cursor(fn, sn, r1), p1[0]).value, Absorb(Cursor(fn, sn, r2), p2[0]).value;
      SameLanding(n1.fn, n1.sn, n1.result, p1[1..], n2.result, p2[1..]);
    }
  }
}
