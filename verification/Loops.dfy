/** The emitted graph is reducible: its blocks have an order in which loops are
    entered at their first block only. */
module Loops {
  import opened Ir
  import opened Source
  import opened Skeleton
  import opened Shape
  import opened Statements
  import opened SsaState

  predicate Edge(fin: seq<VBlock>, x: Block, y: Block) {
    x < |fin| && Leads(fin[x].term, y)
  }

  type Order = map<Block, nat>

  predicate Crossing(fin: seq<VBlock>, x: Block, y: Block, u: Block, z: Block) {
    Edge(fin, x, y) && Edge(fin, u, z)
  }

  /** No edge from outside leads into the blocks a back edge x -> y spans,
      except to y; e has not got its edges yet. */
  ghost predicate SingleEntry(fin: seq<VBlock>, ord: Order, e: Block) {
    forall x: Block, y: Block, u: Block, z: Block {:trigger Crossing(fin, x, y, u, z)} ::
      (x in ord && y in ord && u in ord && z in ord && x != e && u != e && Crossing(fin, x, y, u, z)
       && ord[y] < ord[z] <= ord[x]) ==> ord[y] <= ord[u]
  }

  predicate SameNumber(ord: Order, x: Block, y: Block) { x in ord && y in ord && ord[x] == ord[y] }

  ghost predicate Injective(ord: Order) {
    forall x: Block, y: Block :: SameNumber(ord, x, y) ==> x == y
  }

  /** Every block from n on has an edge from an earlier one or, unless fed,
      none at all. */
  ghost predicate Fed(fin: seq<VBlock>, ord: Order, e: Block, n: nat, fed: bool) {
    forall z: Block {:trigger FedOk(fin, ord, e, fed, z)} :: z in ord && z >= n ==> FedOk(fin, ord, e, fed, z)
  }

  ghost predicate FedOk(fin: seq<VBlock>, ord: Order, e: Block, fed: bool, z: Block)
    requires z in ord
  {
    FedBy(fin, ord, e, z) || (!fed && NoIn(fin, ord, e, z))
  }

  ghost predicate FedBy(fin: seq<VBlock>, ord: Order, e: Block, z: Block)
    requires z in ord
  {
    exists u: Block :: u in ord && u != e && Edge(fin, u, z) && ord[u] < ord[z]
  }

  ghost predicate NoIn(fin: seq<VBlock>, ord: Order, e: Block, z: Block) {
    forall u: Block {:trigger Edge(fin, u, z)} :: u in ord && u != e ==> !Edge(fin, u, z)
  }

  ghost predicate Includes(all: Order, ord: Order) {
    forall x: Block :: x in ord ==> x in all && all[x] == ord[x]
  }

  /** What feeds z in a part of the graph feeds it in the whole. */
  lemma FedThrough(fin: seq<VBlock>, ord: Order, e: Block, fed: bool, all: Order, e1: Block, fed1: bool, z: Block)
    requires z in ord && FedOk(fin, ord, e, fed, z) && Includes(all, ord) && (e1 !in ord || e1 == e) && (fed1 ==> fed)
    requires forall u: Block {:trigger Edge(fin, u, z)} :: u in all && u != e1 && Edge(fin, u, z) ==> u in ord && u != e
    ensures FedOk(fin, all, e1, fed1, z)
  {
    if FedBy(fin, ord, e, z) {
      var u: Block :| u in ord && u != e && Edge(fin, u, z) && ord[u] < ord[z];
      assert all[u] < all[z] && u != e1;
    }
  }

  /** The blocks a and n .. m-1 of fin, numbered lo to hi from a to e. */
  ghost predicate Numbered(a: Block, n: nat, e: Block, m: nat, ord: Order, lo: nat, hi: nat) {
    && (forall x: Block :: x in ord <==> x == a || n <= x < m)
    && a < n <= m && e in ord && ord[a] == lo && ord[e] == hi
    && (forall x: Block :: x in ord && x != a ==> lo < ord[x] <= hi)
  }

  ghost predicate Laid(fin: seq<VBlock>, a: Block, n: nat, e: Block, m: nat, ord: Order, lo: nat, hi: nat) {
    && Numbered(a, n, e, m, ord, lo, hi)
    && (forall x: Block, y: Block {:trigger Edge(fin, x, y)} :: x in ord && x != e && Edge(fin, x, y) ==> n <= y < m)
    && SingleEntry(fin, ord, e)
  }

  lemma Nothing(fin: seq<VBlock>, a: Block, n: nat, lo: nat)
    requires a < n
    ensures Laid(fin, a, n, a, n, map[a := lo], lo, lo) && Fed(fin, map[a := lo], a, n, true)
  {
  }

  /** One region after the other. */
  lemma Joined(fin: seq<VBlock>, a: Block, n: nat, e: Block, m: nat, ord: Order, lo: nat, mid: nat,
               e1: Block, m1: nat, ord1: Order, hi: nat)
    requires Laid(fin, a, n, e, m, ord, lo, mid) && Laid(fin, e, m, e1, m1, ord1, mid, hi)
    ensures Laid(fin, a, n, e1, m1, ord + ord1, lo, hi)
  {
    var all := ord + ord1;
    assert forall x: Block :: x in ord ==> all[x] == ord[x];
    assert forall x: Block :: x in ord1 ==> all[x] == ord1[x];
    forall x: Block, y: Block, u: Block, z: Block
      | x in all && y in all && u in all && z in all && x != e1 && u != e1 && Crossing(fin, x, y, u, z)
        && all[y] < all[z] <= all[x]
      ensures all[y] <= all[u]
    {
      if x in ord1 {
        assert u in ord1;
      } else {
        assert z in ord && y in ord;
        assert u in ord && u != e;
      }
    }
  }

  lemma JoinedFed(fin: seq<VBlock>, a: Block, n: nat, e: Block, m: nat, ord: Order, lo: nat, mid: nat,
                  e1: Block, m1: nat, ord1: Order, hi: nat, fed: bool, fed1: bool)
    requires Laid(fin, a, n, e, m, ord, lo, mid) && Laid(fin, e, m, e1, m1, ord1, mid, hi)
    requires Fed(fin, ord, e, n, fed) && Fed(fin, ord1, e1, m, fed1)
    ensures Fed(fin, ord + ord1, e1, n, fed && fed1)
  {
    var all := ord + ord1;
    assert Includes(all, ord) && Includes(all, ord1);
    forall z: Block | z in all && z >= n ensures FedOk(fin, all, e1, fed && fed1, z) {
      if z < m {
        FedThrough(fin, ord, e, fed, all, e1, fed && fed1, z);
      } else {
        FedThrough(fin, ord1, e1, fed1, all, e1, fed && fed1, z);
      }
    }
  }

  /** The two edges of a block that ends with a condition. */
  ghost predicate Branches(fin: seq<VBlock>, b: Block, n: nat) {
    forall y: Block {:trigger Edge(fin, b, y)} :: Edge(fin, b, y) <==> y == n || y == n + 1
  }

  ghost predicate LeadsOnlyTo(fin: seq<VBlock>, e: Block, to: Block) {
    forall y: Block {:trigger Edge(fin, e, y)} :: Edge(fin, e, y) ==> y == to
  }

  function LoopOrder(ord: Order, b: Block, lo: nat, n: nat, hi: nat): Order {
    ord[b := lo][n := lo + 1][n + 2 := hi + 1]
  }

  ghost predicate LoopEdges(fin: seq<VBlock>, b: Block, n: nat, e: Block) {
    && (forall y: Block {:trigger Edge(fin, b, y)} :: Edge(fin, b, y) <==> y == n)
    && (forall y: Block {:trigger Edge(fin, n, y)} :: Edge(fin, n, y) <==> y == n + 1 || y == n + 2)
    && (forall y: Block {:trigger Edge(fin, e, y)} :: Edge(fin, e, y) <==> y == n)
  }

  /** A loop: b branches to its condition block n, which chooses between the
      body, starting at n + 1, and the block n + 2 behind the loop. */
  ghost predicate LoopedBlocks(fin: seq<VBlock>, b: Block, n: nat, e: Block, m: nat, ord: Order, lo: nat, hi: nat,
                               all: Order) {
    && b < n && Laid(fin, n + 1, n + 3, e, m, ord, lo + 2, hi) && LoopEdges(fin, b, n, e) && Includes(all, ord)
    && b in all && n in all && n + 2 in all && all[b] == lo && all[n] == lo + 1 && all[n + 2] == hi + 1
    && (forall x: Block :: x in all ==> x == b || x == n || x == n + 2 || x in ord)
  }

  lemma LoopedMap(fin: seq<VBlock>, b: Block, n: nat, e: Block, m: nat, ord: Order, lo: nat, hi: nat)
    requires b < n && Laid(fin, n + 1, n + 3, e, m, ord, lo + 2, hi) && LoopEdges(fin, b, n, e)
    ensures LoopedBlocks(fin, b, n, e, m, ord, lo, hi, LoopOrder(ord, b, lo, n, hi))
  {
  }

  lemma LoopedNumbers(fin: seq<VBlock>, b: Block, n: nat, e: Block, m: nat, ord: Order, lo: nat, hi: nat, all: Order)
    requires LoopedBlocks(fin, b, n, e, m, ord, lo, hi, all)
    ensures Numbered(b, n, n + 2, m, all, lo, hi + 1)
  {
    forall x: Block ensures x in all <==> x == b || n <= x < m {
      if x !in all { assert x !in ord; }
    }
    forall x: Block | x in all && x != b ensures lo < all[x] <= hi + 1 {
      assert x == n || x == n + 2 || x in ord;
    }
  }

  lemma Looped(fin: seq<VBlock>, b: Block, n: nat, e: Block, m: nat, ord: Order, lo: nat, hi: nat, all: Order)
    requires LoopedBlocks(fin, b, n, e, m, ord, lo, hi, all)
    ensures Laid(fin, b, n, n + 2, m, all, lo, hi + 1)
  {
    LoopedNumbers(fin, b, n, e, m, ord, lo, hi, all);
    forall x: Block, y: Block | x in all && x != n + 2 && Edge(fin, x, y) ensures n <= y < m {
      assert x == b || x == n || x in ord;
    }
    forall x: Block, y: Block, u: Block, z: Block
      | x in all && y in all && u in all && z in all && x != n + 2 && u != n + 2 && Crossing(fin, x, y, u, z)
        && all[y] < all[z] <= all[x]
      ensures all[y] <= all[u]
    {
      LoopedEntry(fin, b, n, e, m, ord, lo, hi, all, x, y, u, z);
    }
  }

  lemma LoopedEntry(fin: seq<VBlock>, b: Block, n: nat, e: Block, m: nat, ord: Order, lo: nat, hi: nat, all: Order,
                    x: Block, y: Block, u: Block, z: Block)
    requires LoopedBlocks(fin, b, n, e, m, ord, lo, hi, all)
    requires x in all && y in all && u in all && z in all && x != n + 2 && u != n + 2 && Crossing(fin, x, y, u, z)
    requires all[y] < all[z] <= all[x]
    ensures all[y] <= all[u]
  {
    assert x != b && x != n;
    assert x in ord;
    if x != e {
      assert n + 3 <= y < m;
      assert z in ord && z != n + 1;
      assert u in ord && u != e;
    } else {
      assert u != b;
    }
  }

  lemma LoopedFed(fin: seq<VBlock>, b: Block, n: nat, e: Block, m: nat, ord: Order, lo: nat, hi: nat, all: Order,
                  fed: bool)
    requires LoopedBlocks(fin, b, n, e, m, ord, lo, hi, all) && Fed(fin, ord, e, n + 3, fed)
    ensures Fed(fin, all, n + 2, n, fed)
  {
    forall z: Block | z in all && z >= n ensures FedOk(fin, all, n + 2, fed, z) {
      if z == n {
        assert all[b] < all[n];
      } else if z < n + 3 {
        assert all[n] < all[z];
      } else {
        FedThrough(fin, ord, e, fed, all, n + 2, fed, z);
      }
    }
  }

  function IfOrder(ord: Order, b: Block, lo: nat, n: nat, hi: nat): Order {
    ord[b := lo][n + 1 := hi + 1]
  }

  ghost predicate IfEdges(fin: seq<VBlock>, b: Block, n: nat, e: Block) {
    Branches(fin, b, n) && LeadsOnlyTo(fin, e, n + 1)
  }

  /** An IF without ELSE: b branches to the arm at n or to the block n + 1. */
  lemma Chosen(fin: seq<VBlock>, b: Block, n: nat, e: Block, m: nat, ord: Order, lo: nat, hi: nat)
    requires b < n && Laid(fin, n, n + 2, e, m, ord, lo + 1, hi)
    requires IfEdges(fin, b, n, e)
    ensures Laid(fin, b, n, n + 1, m, IfOrder(ord, b, lo, n, hi), lo, hi + 1)
  {
    var all := IfOrder(ord, b, lo, n, hi);
    forall x: Block, y: Block, u: Block, z: Block
      | x in all && y in all && u in all && z in all && x != n + 1 && u != n + 1 && Crossing(fin, x, y, u, z)
        && all[y] < all[z] <= all[x]
      ensures all[y] <= all[u]
    {
    }
  }

  lemma ChosenFed(fin: seq<VBlock>, b: Block, n: nat, e: Block, m: nat, ord: Order, lo: nat, hi: nat, fed: bool)
    requires b < n && Laid(fin, n, n + 2, e, m, ord, lo + 1, hi) && Fed(fin, ord, e, n + 2, fed)
    requires IfEdges(fin, b, n, e)
    ensures Fed(fin, IfOrder(ord, b, lo, n, hi), n + 1, n, fed)
  {
    var all := IfOrder(ord, b, lo, n, hi);
    assert Includes(all, ord);
    forall z: Block | z in all && z >= n ensures FedOk(fin, all, n + 1, fed, z) {
      if z >= n + 2 {
        FedThrough(fin, ord, e, fed, all, n + 1, fed, z);
      } else {
        assert all[b] < all[z];
      }
    }
  }

  /** Two arms between b and j. */
  function Around(ord: Order, ord1: Order, b: Block, lo: nat, j: Block, hi: nat): Order {
    (ord + ord1)[b := lo][j := hi]
  }

  /** The blocks of an IF with ELSE: b, the arms from n and n + 1, and n + 2. */
  ghost predicate ForkedBlocks(fin: seq<VBlock>, b: Block, n: nat, e: Block, m: nat, ord: Order, lo: nat, mid: nat,
                               e1: Block, m1: nat, ord1: Order, hi: nat, all: Order) {
    && b < n && Laid(fin, n, n + 3, e, m, ord, lo + 1, mid) && Laid(fin, n + 1, m, e1, m1, ord1, mid + 1, hi)
    && Includes(all, ord) && Includes(all, ord1)
    && b in all && n + 2 in all && all[b] == lo && all[n + 2] == hi + 1
    && (forall x: Block :: x in all ==> x == b || x == n + 2 || x in ord || x in ord1)
  }

  lemma ForkedMap(fin: seq<VBlock>, b: Block, n: nat, e: Block, m: nat, ord: Order, lo: nat, mid: nat,
                  e1: Block, m1: nat, ord1: Order, hi: nat)
    requires b < n && Laid(fin, n, n + 3, e, m, ord, lo + 1, mid) && Laid(fin, n + 1, m, e1, m1, ord1, mid + 1, hi)
    ensures ForkedBlocks(fin, b, n, e, m, ord, lo, mid, e1, m1, ord1, hi, Around(ord, ord1, b, lo, n + 2, hi + 1))
  {
    assert b !in ord && b !in ord1 && n + 2 !in ord && n + 2 !in ord1;
    assert forall x: Block :: x in ord ==> x !in ord1;
  }

  ghost predicate ForkedEdges(fin: seq<VBlock>, b: Block, n: nat, e: Block, e1: Block) {
    Branches(fin, b, n) && LeadsOnlyTo(fin, e, n + 2) && LeadsOnlyTo(fin, e1, n + 2)
  }

  /** b branches to the arms, which meet at n + 2. */
  lemma Forked(fin: seq<VBlock>, b: Block, n: nat, e: Block, m: nat, ord: Order, lo: nat, mid: nat,
               e1: Block, m1: nat, ord1: Order, hi: nat, all: Order)
    requires ForkedBlocks(fin, b, n, e, m, ord, lo, mid, e1, m1, ord1, hi, all) && ForkedEdges(fin, b, n, e, e1)
    ensures Laid(fin, b, n, n + 2, m1, all, lo, hi + 1)
  {
    forall x: Block, y: Block, u: Block, z: Block
      | x in all && y in all && u in all && z in all && x != n + 2 && u != n + 2 && Crossing(fin, x, y, u, z)
        && all[y] < all[z] <= all[x]
      ensures all[y] <= all[u]
    {
      ForkedEntry(fin, b, n, e, m, ord, lo, mid, e1, m1, ord1, hi, all, x, y, u, z);
    }
    ForkedNumbers(fin, b, n, e, m, ord, lo, mid, e1, m1, ord1, hi, all);
    forall x: Block, y: Block | x in all && x != n + 2 && Edge(fin, x, y) ensures n <= y < m1 {
      assert x == b || x in ord || x in ord1;
    }
  }

  lemma ForkedNumbers(fin: seq<VBlock>, b: Block, n: nat, e: Block, m: nat, ord: Order, lo: nat, mid: nat,
                      e1: Block, m1: nat, ord1: Order, hi: nat, all: Order)
    requires ForkedBlocks(fin, b, n, e, m, ord, lo, mid, e1, m1, ord1, hi, all)
    ensures Numbered(b, n, n + 2, m1, all, lo, hi + 1)
  {
    forall x: Block ensures x in all <==> x == b || n <= x < m1 {
      if x in all {
        assert x == b || x == n + 2 || x in ord || x in ord1;
      } else {
        assert x !in ord && x !in ord1;
      }
    }
    forall x: Block | x in all && x != b ensures lo < all[x] <= hi + 1 {
      assert x == n + 2 || x in ord || x in ord1;
    }
  }

  lemma ForkedEntry(fin: seq<VBlock>, b: Block, n: nat, e: Block, m: nat, ord: Order, lo: nat, mid: nat,
                    e1: Block, m1: nat, ord1: Order, hi: nat, all: Order, x: Block, y: Block, u: Block, z: Block)
    requires ForkedBlocks(fin, b, n, e, m, ord, lo, mid, e1, m1, ord1, hi, all) && ForkedEdges(fin, b, n, e, e1)
    requires x in all && y in all && u in all && z in all && x != n + 2 && u != n + 2 && Crossing(fin, x, y, u, z)
    requires all[y] < all[z] <= all[x]
    ensures all[y] <= all[u]
  {
    assert x != b;
    assert x != e;
    assert x != e1;
    if x in ord {
      assert n + 3 <= y < m;
      assert n + 3 <= z < m;
      assert u in ord && u != e;
    } else {
      assert m <= y < m1;
      assert m <= z < m1;
      assert u in ord1 && u != e1;
    }
  }

  lemma ForkedFed(fin: seq<VBlock>, b: Block, n: nat, e: Block, m: nat, ord: Order, lo: nat, mid: nat,
                  e1: Block, m1: nat, ord1: Order, hi: nat, all: Order, fed1: bool, fed2: bool, fed: bool)
    requires ForkedBlocks(fin, b, n, e, m, ord, lo, mid, e1, m1, ord1, hi, all) && ForkedEdges(fin, b, n, e, e1)
    requires Fed(fin, ord, e, n + 3, fed1) && Fed(fin, ord1, e1, m, fed2) && (fed ==> fed1 && fed2)
    requires fed ==> Edge(fin, e, n + 2) || Edge(fin, e1, n + 2)
    ensures Fed(fin, all, n + 2, n, fed)
  {
    forall z: Block | z in all && z >= n ensures FedOk(fin, all, n + 2, fed, z) {
      assert z == n + 2 || z in ord || z in ord1;
      if z in ord && z >= n + 3 {
        ForkedFrom(fin, b, n, e, m, ord, lo, mid, e1, m1, ord1, hi, all, z);
        FedThrough(fin, ord, e, fed1, all, n + 2, fed, z);
      } else if z in ord1 && z >= m {
        ForkedFrom(fin, b, n, e, m, ord, lo, mid, e1, m1, ord1, hi, all, z);
        FedThrough(fin, ord1, e1, fed2, all, n + 2, fed, z);
      } else if z == n + 2 {
        ForkedMeet(fin, b, n, e, m, ord, lo, mid, e1, m1, ord1, hi, all, fed);
      } else {
        assert Edge(fin, b, z) && all[b] < all[z];
      }
    }
  }

  /** Edges into an arm come from that arm. */
  lemma ForkedFrom(fin: seq<VBlock>, b: Block, n: nat, e: Block, m: nat, ord: Order, lo: nat, mid: nat,
                   e1: Block, m1: nat, ord1: Order, hi: nat, all: Order, z: Block)
    requires ForkedBlocks(fin, b, n, e, m, ord, lo, mid, e1, m1, ord1, hi, all) && ForkedEdges(fin, b, n, e, e1)
    ensures n + 3 <= z < m ==> forall u: Block {:trigger Edge(fin, u, z)} ::
            u in all && u != n + 2 && Edge(fin, u, z) ==> u in ord && u != e
    ensures m <= z ==> forall u: Block {:trigger Edge(fin, u, z)} ::
            u in all && u != n + 2 && Edge(fin, u, z) ==> u in ord1 && u != e1
  {
    forall u: Block | u in all && u != n + 2 && Edge(fin, u, z)
      ensures (n + 3 <= z < m ==> u in ord && u != e) && (m <= z ==> u in ord1 && u != e1)
    {
      assert u == b || u in ord || u in ord1;
    }
  }

  lemma ForkedMeet(fin: seq<VBlock>, b: Block, n: nat, e: Block, m: nat, ord: Order, lo: nat, mid: nat,
                   e1: Block, m1: nat, ord1: Order, hi: nat, all: Order, fed: bool)
    requires ForkedBlocks(fin, b, n, e, m, ord, lo, mid, e1, m1, ord1, hi, all) && ForkedEdges(fin, b, n, e, e1)
    requires fed ==> Edge(fin, e, n + 2) || Edge(fin, e1, n + 2)
    ensures FedOk(fin, all, n + 2, fed, n + 2)
  {
    assert all[e] < all[n + 2] && all[e1] < all[n + 2];
    if !Edge(fin, e, n + 2) && !Edge(fin, e1, n + 2) {
      forall u: Block | u in all && u != n + 2 ensures !Edge(fin, u, n + 2) {
        assert u == b || u in ord || u in ord1;
      }
    }
  }

  // ----- different blocks have different numbers -----

  lemma JoinedInjective(a: Block, n: nat, e: Block, m: nat, ord: Order, lo: nat, mid: nat, e1: Block, m1: nat,
                        ord1: Order, hi: nat)
    requires Numbered(a, n, e, m, ord, lo, mid) && Numbered(e, m, e1, m1, ord1, mid, hi) && Injective(ord) &&
             Injective(ord1)
    ensures Injective(ord + ord1)
  {
    var all := ord + ord1;
    assert forall x: Block :: x in ord ==> all[x] == ord[x];
    assert forall x: Block :: x in ord1 ==> all[x] == ord1[x];
    forall x: Block, y: Block | SameNumber(all, x, y) ensures x == y {
      assert x in ord && y in ord ==> SameNumber(ord, x, y);
      assert x in ord1 && y in ord1 ==> SameNumber(ord1, x, y);
    }
  }

  lemma AddedInjective(a: Block, n: nat, e: Block, m: nat, ord: Order, lo: nat, hi: nat, x: Block, y: Block, i: nat,
                       j: nat)
    requires Numbered(a, n, e, m, ord, lo, hi) && Injective(ord) && x !in ord && y !in ord && x != y && i < lo <= hi < j
    ensures Injective(ord[x := i][y := j])
  {
    var all := ord[x := i][y := j];
    forall z: Block, z1: Block | SameNumber(all, z, z1) ensures z == z1 {
      assert z in ord && z1 in ord ==> SameNumber(ord, z, z1);
    }
  }

  lemma LoopedInjective(a: Block, n: nat, e: Block, m: nat, ord: Order, b: Block, lo: nat, h: Block, hi: nat)
    requires Numbered(a, n, e, m, ord, lo + 2, hi) && Injective(ord) && b < h && a == h + 1 && n == h + 3
    ensures Injective(LoopOrder(ord, b, lo, h, hi))
  {
    forall x: Block, y: Block | SameNumber(LoopOrder(ord, b, lo, h, hi), x, y) ensures x == y {
      assert x in ord && y in ord ==> SameNumber(ord, x, y);
    }
  }

  lemma ForkedInjective(fin: seq<VBlock>, b: Block, n: nat, e: Block, m: nat, ord: Order, lo: nat, mid: nat,
                        e1: Block, m1: nat, ord1: Order, hi: nat, all: Order)
    requires ForkedBlocks(fin, b, n, e, m, ord, lo, mid, e1, m1, ord1, hi, all) && Injective(ord) && Injective(ord1)
    ensures Injective(all)
  {
    forall x: Block, y: Block | SameNumber(all, x, y) ensures x == y {
      assert x == b || x == n + 2 || x in ord || x in ord1;
      assert y == b || y == n + 2 || y in ord || y in ord1;
      assert x in ord && y in ord ==> SameNumber(ord, x, y);
      assert x in ord1 && y in ord1 ==> SameNumber(ord1, x, y);
    }
  }

  // ----- the blocks of statements -----

  /** Of the two arms of an IF with ELSE one gets to the block behind it. */
  predicate NoDeadJoin(ss: seq<Stmt>)
    decreases ss, 1
  {
    ss == [] || (NoDeadJoinStmt(ss[0]) && NoDeadJoin(ss[1..]))
  }

  predicate NoDeadJoinStmt(st: Stmt)
    decreases st, 0
  {
    match st
    case If(_, thn, els) => NoDeadJoin(thn) && NoDeadJoin(els) && !(EndsInReturn(thn) && EndsInReturn(els))
    case While(_, body) => NoDeadJoin(body)
    case _ => true
  }

  /** What is between sk and sk1, which ends in a return or not. */
  ghost predicate Between(fin: seq<VBlock>, sk: Skel, sk1: Skel, ord: Order, lo: nat, hi: nat, fed: bool,
                          returns_: bool) {
    && Laid(fin, sk.curr, |sk.blocks|, sk1.curr, |sk1.blocks|, ord, lo, hi) && Injective(ord)
    && Fed(fin, ord, sk1.curr, |sk.blocks|, fed)
    && (returns_ ==> forall y: Block :: !Edge(fin, sk1.curr, y))
  }

  lemma MakeBetween(fin: seq<VBlock>, sk: Skel, sk1: Skel, b: Block, n: nat, e: Block, m: nat, ord: Order, lo: nat,
                    hi: nat, fed: bool)
    requires sk.curr == b && |sk.blocks| == n && sk1.curr == e && |sk1.blocks| == m
    requires Laid(fin, b, n, e, m, ord, lo, hi) && Injective(ord) && Fed(fin, ord, e, n, fed)
    ensures Between(fin, sk, sk1, ord, lo, hi, fed, false)
  {
  }

  lemma {:induction false} StmtsLaid(c: Ctx, ss: seq<Stmt>, sk: Skel, fin: seq<VBlock>, lo: nat)
    returns (ord: Order, hi: nat)
    requires ReturnsLast(ss) && Writable(sk) && Frozen(EmitStmts(c, ss, sk), fin)
    ensures Between(fin, sk, EmitStmts(c, ss, sk), ord, lo, hi, NoDeadJoin(ss), EndsInReturn(ss))
    decreases ss, 1
  {
    if ss == [] {
      Nothing(fin, sk.curr, |sk.blocks|, lo);
      ord, hi := map[sk.curr := lo], lo;
    } else {
      var sk1 := EmitStmt(c, ss[0], sk);
      StmtAdvances(c, ss[0], sk);
      if ss[0].Return? {
        assert ss[1..] == [];
        assert EmitStmts(c, ss, sk) == sk1;
        ord, hi := StmtLaid(c, ss[0], sk, fin, lo);
      } else {
        EmitAdvances(c, ss[1..], sk1);
        FrozenBefore(sk1, EmitStmts(c, ss[1..], sk1), fin);
        var ord1, mid := StmtLaid(c, ss[0], sk, fin, lo);
        var ord2;
        ord2, hi := StmtsLaid(c, ss[1..], sk1, fin, mid);
        ord := ord1 + ord2;
        BetweenJoined(fin, sk, sk1, EmitStmts(c, ss[1..], sk1), ord1, lo, mid, ord2, hi,
                      NoDeadJoinStmt(ss[0]), NoDeadJoin(ss[1..]), EndsInReturn(ss[1..]));
      }
    }
  }

  lemma BetweenJoined(fin: seq<VBlock>, sk: Skel, sk1: Skel, sk2: Skel, ord: Order, lo: nat, mid: nat, ord1: Order,
                      hi: nat, fed: bool, fed1: bool, returns_: bool)
    requires Between(fin, sk, sk1, ord, lo, mid, fed, false) && Between(fin, sk1, sk2, ord1, mid, hi, fed1, returns_)
    ensures Between(fin, sk, sk2, ord + ord1, lo, hi, fed && fed1, returns_)
  {
    var a, n, e, m, e1, m1 := sk.curr, |sk.blocks|, sk1.curr, |sk1.blocks|, sk2.curr, |sk2.blocks|;
    Joined(fin, a, n, e, m, ord, lo, mid, e1, m1, ord1, hi);
    JoinedInjective(a, n, e, m, ord, lo, mid, e1, m1, ord1, hi);
    JoinedFed(fin, a, n, e, m, ord, lo, mid, e1, m1, ord1, hi, fed, fed1);
  }

  lemma {:induction false} StmtLaid(c: Ctx, st: Stmt, sk: Skel, fin: seq<VBlock>, lo: nat) returns (ord: Order, hi: nat)
    requires ReturnsLastStmt(st) && Writable(sk) && Frozen(EmitStmt(c, st, sk), fin)
    ensures Between(fin, sk, EmitStmt(c, st, sk), ord, lo, hi, NoDeadJoinStmt(st), st.Return?)
    decreases st, 2
  {
    if st.While? {
      ord, hi := WhileLaid(c, st, sk, fin, lo);
    } else if st.If? && st.els == [] {
      ord, hi := IfLaid(c, st, sk, fin, lo);
    } else if st.If? {
      ord, hi := IfElseLaid(c, st, sk, fin, lo);
    } else {
      StmtAdvances(c, st, sk);
      Nothing(fin, sk.curr, |sk.blocks|, lo);
      ord, hi := map[sk.curr := lo], lo;
    }
  }

  /** An arm of an IF; it leads to `to` unless it returns. */
  lemma ArmLaid(c: Ctx, ss: seq<Stmt>, sk: Skel, to: Block, fin: seq<VBlock>, lo: nat) returns (ord: Order, hi: nat)
    requires ReturnsLast(ss) && Writable(sk) && Frozen(Fall(EmitStmts(c, ss, sk), to), fin)
    ensures var sk1 := EmitStmts(c, ss, sk);
            && Between(fin, sk, sk1, ord, lo, hi, NoDeadJoin(ss), false)
            && LeadsOnlyTo(fin, sk1.curr, to)
            && (!EndsInReturn(ss) ==> Edge(fin, sk1.curr, to))
    decreases ss, 2
  {
    var sk1 := EmitStmts(c, ss, sk);
    EmitAdvances(c, ss, sk);
    assert Frozen(sk1, fin);
    ord, hi := StmtsLaid(c, ss, sk, fin, lo);
    assert EndsInReturn(ss) || fin[sk1.curr].term == Br(to);
  }

  lemma LoopBetween(fin: seq<VBlock>, b: Block, n: nat, e: Block, m: nat, ord: Order, lo: nat, hi: nat, fed: bool,
                    sk: Skel, sk1: Skel)
    requires var all := LoopOrder(ord, b, lo, n, hi); LoopedBlocks(fin, b, n, e, m, ord, lo, hi, all)
    requires Injective(ord) && Fed(fin, ord, e, n + 3, fed)
    requires sk.curr == b && |sk.blocks| == n && sk1.curr == n + 2 && |sk1.blocks| == m
    ensures Between(fin, sk, sk1, LoopOrder(ord, b, lo, n, hi), lo, hi + 1, fed, false)
  {
    var all := LoopOrder(ord, b, lo, n, hi);
    Looped(fin, b, n, e, m, ord, lo, hi, all);
    LoopedInjective(n + 1, n + 3, e, m, ord, b, lo, n, hi);
    LoopedFed(fin, b, n, e, m, ord, lo, hi, all, fed);
    MakeBetween(fin, sk, sk1, b, n, n + 2, m, all, lo, hi + 1, fed);
  }

  lemma LoopEdgesAre(c: Ctx, st: Stmt, sk: Skel, fin: seq<VBlock>)
    requires st.While? && ReturnsLastStmt(st) && Writable(sk) && Frozen(EmitStmt(c, st, sk), fin)
    ensures LoopEdges(fin, sk.curr, |sk.blocks|, EmitStmts(c, st.body, LoopHead(c, st.cond, sk)).curr)
  {
    var b, n, head := sk.curr, |sk.blocks|, LoopHead(c, st.cond, sk);
    LoopFrozen(c, st, sk, fin);
    LoopHeadShape(c, st.cond, sk);
    EmitAdvances(c, st.body, head);
    assert fin[b] == head.blocks[b];
  }

  lemma LoopSize(c: Ctx, st: Stmt, sk: Skel)
    requires st.While? && ReturnsLastStmt(st) && Writable(sk)
    ensures var n, head := |sk.blocks|, LoopHead(c, st.cond, sk);
            && head.curr == n + 1 && |head.blocks| == n + 3 && Writable(head)
            && EmitStmt(c, st, sk).curr == n + 2 && |EmitStmt(c, st, sk).blocks| == |EmitStmts(c, st.body, head).blocks|
  {
    LoopHeadShape(c, st.cond, sk);
    EmitAdvances(c, st.body, LoopHead(c, st.cond, sk));
  }

  lemma WhileLaid(c: Ctx, st: Stmt, sk: Skel, fin: seq<VBlock>, lo: nat) returns (ord: Order, hi: nat)
    requires st.While? && ReturnsLastStmt(st) && Writable(sk) && Frozen(EmitStmt(c, st, sk), fin)
    ensures Between(fin, sk, EmitStmt(c, st, sk), ord, lo, hi, NoDeadJoin(st.body), false)
    decreases st, 0
  {
    var n, head := |sk.blocks|, LoopHead(c, st.cond, sk);
    LoopFrozen(c, st, sk, fin);
    LoopEdgesAre(c, st, sk, fin);
    LoopSize(c, st, sk);
    var ord1, hi1 := StmtsLaid(c, st.body, head, fin, lo + 2);
    var sk1 := EmitStmts(c, st.body, head);
    LoopedMap(fin, sk.curr, n, sk1.curr, |sk1.blocks|, ord1, lo, hi1);
    LoopBetween(fin, sk.curr, n, sk1.curr, |sk1.blocks|, ord1, lo, hi1, NoDeadJoin(st.body), sk, EmitStmt(c, st, sk));
    ord, hi := LoopOrder(ord1, sk.curr, lo, n, hi1), hi1 + 1;
  }

  lemma IfBetween(fin: seq<VBlock>, sk: Skel, head: Skel, sk1: Skel, sk2: Skel, ord: Order, lo: nat, hi: nat, fed: bool)
    requires var n := |sk.blocks|; head.curr == n && |head.blocks| == n + 2 && sk.curr < n
    requires Between(fin, head, sk1, ord, lo + 1, hi, fed, false)
    requires sk2.curr == |sk.blocks| + 1 && |sk2.blocks| == |sk1.blocks|
    requires IfEdges(fin, sk.curr, |sk.blocks|, sk1.curr)
    ensures Between(fin, sk, sk2, IfOrder(ord, sk.curr, lo, |sk.blocks|, hi), lo, hi + 1, fed, false)
  {
    var b, n, e, m := sk.curr, |sk.blocks|, sk1.curr, |sk1.blocks|;
    Chosen(fin, b, n, e, m, ord, lo, hi);
    AddedInjective(n, n + 2, e, m, ord, lo + 1, hi, b, n + 1, lo, hi + 1);
    ChosenFed(fin, b, n, e, m, ord, lo, hi, fed);
    MakeBetween(fin, sk, sk2, b, n, n + 1, m, IfOrder(ord, b, lo, n, hi), lo, hi + 1, fed);
  }

  /** The two edges of the block with the condition. */
  lemma CondEdges(c: Ctx, cond: Expr, thn: seq<Stmt>, sk: Skel, k: nat, to: Block, fin: seq<VBlock>)
    requires Writable(sk) && 2 <= k && ReturnsLast(thn) &&
             Frozen(Fall(EmitStmts(c, thn, IfHead(c, cond, sk, k)), to), fin)
    ensures var b, n, head := sk.curr, |sk.blocks|, IfHead(c, cond, sk, k);
            && Branches(fin, b, n)
            && Writable(head) && head.curr == n && |head.blocks| == n + k
  {
    CondFrozen(c, cond, thn, sk, k, to, fin);
    IfHeadShape(c, cond, sk, k);
  }

  lemma IfSize(c: Ctx, st: Stmt, sk: Skel)
    requires st.If? && st.els == []
    ensures var n, sk1 := |sk.blocks|, EmitStmts(c, st.thn, IfHead(c, st.cond, sk, 2));
            && EmitStmt(c, st, sk) == Enter(Fall(sk1, n + 1), n + 1) && |EmitStmt(c, st, sk).blocks| == |sk1.blocks|
  {
  }

  lemma IfLaid(c: Ctx, st: Stmt, sk: Skel, fin: seq<VBlock>, lo: nat) returns (ord: Order, hi: nat)
    requires st.If? && st.els == [] && ReturnsLastStmt(st) && Writable(sk) && Frozen(EmitStmt(c, st, sk), fin)
    ensures Between(fin, sk, EmitStmt(c, st, sk), ord, lo, hi, NoDeadJoinStmt(st), false)
    decreases st, 1
  {
    var n, head := |sk.blocks|, IfHead(c, st.cond, sk, 2);
    IfSize(c, st, sk);
    CondEdges(c, st.cond, st.thn, sk, 2, n + 1, fin);
    var ord1, hi1 := ArmLaid(c, st.thn, head, n + 1, fin, lo + 1);
    IfBetween(fin, sk, head, EmitStmts(c, st.thn, head), EmitStmt(c, st, sk), ord1, lo, hi1, NoDeadJoin(st.thn));
    ord, hi := IfOrder(ord1, sk.curr, lo, n, hi1), hi1 + 1;
  }

  lemma ForkBetween(fin: seq<VBlock>, b: Block, n: nat, e: Block, m: nat, ord: Order, lo: nat, hi: nat, e1: Block,
                    m1: nat, ord1: Order, hi1: nat, all: Order, fed: bool, fed1: bool, fed2: bool, sk: Skel, sk1: Skel)
    requires ForkedBlocks(fin, b, n, e, m, ord, lo, hi, e1, m1, ord1, hi1, all) && ForkedEdges(fin, b, n, e, e1)
    requires Injective(ord) && Injective(ord1)
    requires Fed(fin, ord, e, n + 3, fed1) && Fed(fin, ord1, e1, m, fed2) && (fed ==> fed1 && fed2)
    requires fed ==> Edge(fin, e, n + 2) || Edge(fin, e1, n + 2)
    requires sk.curr == b && |sk.blocks| == n && sk1.curr == n + 2 && |sk1.blocks| == m1
    ensures Between(fin, sk, sk1, all, lo, hi1 + 1, fed, false)
  {
    Forked(fin, b, n, e, m, ord, lo, hi, e1, m1, ord1, hi1, all);
    ForkedInjective(fin, b, n, e, m, ord, lo, hi, e1, m1, ord1, hi1, all);
    ForkedFed(fin, b, n, e, m, ord, lo, hi, e1, m1, ord1, hi1, all, fed1, fed2, fed);
    MakeBetween(fin, sk, sk1, b, n, n + 2, m1, all, lo, hi1 + 1, fed);
  }

  lemma IfElseSize(c: Ctx, st: Stmt, sk: Skel)
    requires st.If? && st.els != []
    ensures var n, sk1, mid := |sk.blocks|, EmitStmts(c, st.thn, IfHead(c, st.cond, sk, 3)), ElseHead(c, st, sk);
            && mid == Enter(Fall(sk1, n + 2), n + 1) && |mid.blocks| == |sk1.blocks|
            && EmitStmt(c, st, sk).curr == n + 2 && |EmitStmt(c, st, sk).blocks| == |EmitStmts(c, st.els, mid).blocks|
  {
  }

  lemma IfElseParts(c: Ctx, st: Stmt, sk: Skel, fin: seq<VBlock>)
    requires st.If? && st.els != [] && ReturnsLastStmt(st) && Writable(sk) && Frozen(EmitStmt(c, st, sk), fin)
    ensures var n, head, mid := |sk.blocks|, IfHead(c, st.cond, sk, 3), ElseHead(c, st, sk);
            && Writable(head) && head.curr == n && |head.blocks| == n + 3 && Writable(mid)
            && Frozen(Fall(EmitStmts(c, st.thn, head), n + 2), fin) &&
              Frozen(Fall(EmitStmts(c, st.els, mid), n + 2), fin)
            && Branches(fin, sk.curr, n)
  {
    ElseFrozen(c, st, sk, fin);
    ThenFrozen(c, st, sk, fin);
    CondEdges(c, st.cond, st.thn, sk, 3, |sk.blocks| + 2, fin);
  }

  lemma IfElseLaid(c: Ctx, st: Stmt, sk: Skel, fin: seq<VBlock>, lo: nat) returns (ord: Order, hi: nat)
    requires st.If? && st.els != [] && ReturnsLastStmt(st) && Writable(sk) && Frozen(EmitStmt(c, st, sk), fin)
    ensures Between(fin, sk, EmitStmt(c, st, sk), ord, lo, hi, NoDeadJoinStmt(st), false)
    decreases st, 1
  {
    IfElseParts(c, st, sk, fin);
    IfElseSize(c, st, sk);
    ord, hi := ArmsLaid(c, st, st.thn, st.els, sk, IfHead(c, st.cond, sk, 3), ElseHead(c, st, sk), EmitStmt(c, st, sk),
                        fin, lo);
  }

  lemma ArmsLaid(c: Ctx, st: Stmt, thn: seq<Stmt>, els: seq<Stmt>, sk: Skel, head: Skel, mid: Skel, end: Skel,
                 fin: seq<VBlock>, lo: nat)
      returns (ord: Order, hi: nat)
    requires st.If? && st.thn == thn && st.els == els
    requires ReturnsLast(thn) && ReturnsLast(els) && sk.curr < |sk.blocks| && Writable(head) && Writable(mid)
    requires head.curr == |sk.blocks| && |head.blocks| == |sk.blocks| + 3 && mid.curr == |sk.blocks| + 1
    requires Frozen(Fall(EmitStmts(c, thn, head), |sk.blocks| + 2), fin) &&
             Frozen(Fall(EmitStmts(c, els, mid), |sk.blocks| + 2), fin)
    requires Branches(fin, sk.curr, |sk.blocks|) && |mid.blocks| == |EmitStmts(c, thn, head).blocks|
    requires end.curr == |sk.blocks| + 2 && |end.blocks| == |EmitStmts(c, els, mid).blocks|
    ensures Between(fin, sk, end, ord, lo, hi,
                    NoDeadJoin(thn) && NoDeadJoin(els) && !(EndsInReturn(thn) && EndsInReturn(els)), false)
    decreases st, 0
  {
    var n := |sk.blocks|;
    var ord1, hi1 := ArmLaid(c, thn, head, n + 2, fin, lo + 1);
    var ord2, hi2 := ArmLaid(c, els, mid, n + 2, fin, hi1 + 1);
    ord, hi := ArmsBetween(fin, sk, head, EmitStmts(c, thn, head), mid, EmitStmts(c, els, mid), end, lo, ord1, hi1,
                           ord2, hi2, NoDeadJoin(thn), NoDeadJoin(els), !(EndsInReturn(thn) && EndsInReturn(els)));
  }

  /** Both arms, from sk to end. */
  lemma ArmsBetween(fin: seq<VBlock>, sk: Skel, head: Skel, sk1: Skel, mid: Skel, sk2: Skel, end: Skel, lo: nat,
                    ord1: Order, hi1: nat, ord2: Order, hi2: nat, fed1: bool, fed2: bool, meets: bool)
    returns (ord: Order, hi: nat)
    requires sk.curr < |sk.blocks| && head.curr == |sk.blocks| && |head.blocks| == |sk.blocks| + 3
    requires mid.curr == |sk.blocks| + 1 && |mid.blocks| == |sk1.blocks|
    requires end.curr == |sk.blocks| + 2 && |end.blocks| == |sk2.blocks|
    requires Between(fin, head, sk1, ord1, lo + 1, hi1, fed1, false) &&
             Between(fin, mid, sk2, ord2, hi1 + 1, hi2, fed2, false)
    requires var n := |sk.blocks|;
             && ForkedEdges(fin, sk.curr, n, sk1.curr, sk2.curr)
             && (meets ==> Edge(fin, sk1.curr, n + 2) || Edge(fin, sk2.curr, n + 2))
    ensures Between(fin, sk, end, ord, lo, hi, fed1 && fed2 && meets, false)
  {
    var n, m, m1 := |sk.blocks|, |sk1.blocks|, |sk2.blocks|;
    ord, hi := Around(ord1, ord2, sk.curr, lo, n + 2, hi2 + 1), hi2 + 1;
    ForkedMap(fin, sk.curr, n, sk1.curr, m, ord1, lo, hi1, sk2.curr, m1, ord2, hi2);
    ForkBetween(fin, sk.curr, n, sk1.curr, m, ord1, lo, hi1, sk2.curr, m1, ord2, hi2, ord,
                fed1 && fed2 && meets, fed1, fed2, sk, end);
  }

  // ----- a whole procedure -----

  /** All blocks of fin are numbered, block 0 first; loops have one entry; and
      every other block has an edge from an earlier one or, unless fed, none. */
  ghost predicate Reducible(fin: seq<VBlock>, ord: Order, fed: bool) {
    && (forall b: Block :: b in ord <==> b < |fin|) && Injective(ord)
    && (forall b: Block :: b in ord && b != 0 ==> ord[0] < ord[b]) && 0 in ord
    && SingleEntry(fin, ord, |fin|) && Fed(fin, ord, |fin|, 1, fed)
  }

  lemma ProcReducible(c: Ctx, p: Proc) returns (ord: Order)
    requires ReturnsLast(p.body) && AddDecls(c, p.locals, AddDecls(c, p.params, FRESH)).term.Open?
    ensures Reducible(EmitProc(c, p).blocks, ord, NoDeadJoin(p.body))
  {
    var sk := Skel([AddDecls(c, p.locals, AddDecls(c, p.params, FRESH))], 0);
    var sk1 := EmitStmts(c, p.body, sk);
    var fin := CloseBody(sk1).blocks;
    EmitAdvances(c, p.body, sk);
    var hi;
    ord, hi := StmtsLaid(c, p.body, sk, fin, 0);
    WholeGraph(fin, sk, sk1, ord, hi, NoDeadJoin(p.body));
  }

  /** Where the last block has no edges, the numbering is one of the graph. */
  lemma WholeGraph(fin: seq<VBlock>, sk: Skel, sk1: Skel, ord: Order, hi: nat, fed: bool)
    requires Between(fin, sk, sk1, ord, 0, hi, fed, false) && sk.curr == 0 && |sk.blocks| == 1 && |sk1.blocks| == |fin|
    requires forall y: Block :: !Edge(fin, sk1.curr, y)
    ensures Reducible(fin, ord, fed)
  {
    var e := sk1.curr;
    forall z: Block | z in ord && z >= 1 ensures FedOk(fin, ord, |fin|, fed, z) {
      FedThrough(fin, ord, e, fed, ord, |fin|, fed, z);
    }
    forall x: Block, y: Block, u: Block, z: Block
      | x in ord && y in ord && u in ord && z in ord && Crossing(fin, x, y, u, z) && ord[y] < ord[z] <= ord[x]
      ensures ord[y] <= ord[u]
    {
      assert x != e && u != e;
    }
  }
}
