/**
 * The ping-chain walk of the client's ping store (client/src/stores/ping.ts):
 * following `parent_ping` links from a ping up to its top-most known ancestor,
 * and grouping a list of pings into such chains.
 *
 * The source's `while` loop at ping.ts:10 only ends when the walk reaches a ping
 * whose parent link is falsy or unknown. The walk is therefore specified with an
 * explicit step budget (`EndsWithin`), and `WalkEnds` asks that the walk ends
 * within `|pings|` steps. `EndsIfEverEnds` shows that this is no stronger than
 * asking that it ends at all, and `CycleNeverEnds` that a cycle of links makes
 * the walk run forever.
 */
module PingChain {
  import opened Wrappers
  import opened Seqs

  /**
   * A ping as the client receives it. `parentPing` is `null` (None) or an id;
   * the coordinates, timestamp and owner are carried along untouched.
   */
  datatype Ping = Ping(
    id: int,
    parentPing: Option<int>,
    latitude: real,
    longitude: real,
    timestamp: string,
    user: int)

  /** JavaScript truthiness of `ping.parent_ping`: `null` and `0` are falsy. */
  predicate HasParentLink(p: Ping) {
    p.parentPing.Some? && p.parentPing.value != 0
  }

  /**
   * Index of the first ping with the given id, or `|pings|` when there is none:
   * the position `pings.find((p) => p.id === id)` stops at.
   */
  function FirstIndexWithId(pings: seq<Ping>, id: int): (k: nat)
    ensures k <= |pings|
    ensures k < |pings| ==> pings[k].id == id
    ensures forall j :: 0 <= j < k ==> pings[j].id != id
  {
    if pings == [] then 0
    else if pings[0].id == id then 0
    else 1 + FirstIndexWithId(pings[1..], id)
  }

  /** `pings.find((p) => p.id === id) || null`. */
  function FindById(pings: seq<Ping>, id: int): Option<Ping> {
    var k := FirstIndexWithId(pings, id);
    if k < |pings| then Some(pings[k]) else None
  }

  /**
   * The ping one iteration of the walk moves to from `p`: the first ping whose
   * id is `p`'s parent link, or None when the link is falsy or matches nothing.
   */
  function ParentIn(p: Ping, pings: seq<Ping>): Option<Ping> {
    if HasParentLink(p) then FindById(pings, p.parentPing.value) else None
  }

  /** The walk from `p` stops after at most `n` parent steps. */
  predicate EndsWithin(p: Ping, pings: seq<Ping>, n: nat)
    decreases n
  {
    match ParentIn(p, pings)
    case None => true
    case Some(q) => n > 0 && EndsWithin(q, pings, n - 1)
  }

  /** The walk from `p` ends; by `EndsIfEverEnds`, exactly when it ends at all. */
  predicate WalkEnds(p: Ping, pings: seq<Ping>) {
    EndsWithin(p, pings, |pings|)
  }

  /** The walk ends from every ping of the list. */
  predicate AllWalksEnd(pings: seq<Ping>) {
    forall i :: 0 <= i < |pings| ==> WalkEnds(pings[i], pings)
  }

  /** The pings the walk visits, `p` first, within a budget of `n` steps. */
  function ChainWithin(p: Ping, pings: seq<Ping>, n: nat): seq<Ping>
    requires EndsWithin(p, pings, n)
    decreases n
  {
    match ParentIn(p, pings)
    case None => [p]
    case Some(q) => [p] + ChainWithin(q, pings, n - 1)
  }

  /** The chain from `p` to its top-most known ancestor. */
  function ChainOf(p: Ping, pings: seq<Ping>): seq<Ping>
    requires WalkEnds(p, pings)
  {
    ChainWithin(p, pings, |pings|)
  }

  /**
   * An independent description of a chain: it starts at `p`, each element is
   * followed by the ping the walk moves to from it, and the walk moves nowhere
   * from the last one.
   */
  predicate IsChainFrom(c: seq<Ping>, p: Ping, pings: seq<Ping>) {
    && |c| > 0
    && c[0] == p
    && (forall i :: 0 <= i < |c| - 1 ==> ParentIn(c[i], pings) == Some(c[i + 1]))
    && ParentIn(c[|c| - 1], pings) == None
  }

  /** `getPingChain` (ping.ts:6-20). */
  method GetPingChain(ping: Ping, pings: seq<Ping>) returns (result: seq<Ping>)
    requires WalkEnds(ping, pings)
    ensures result == ChainOf(ping, pings)
  {
    var chain := [ping];
    var currentPing := ping;
    ghost var budget: nat := |pings|;
    while HasParentLink(currentPing)
      invariant |chain| > 0 && chain[0] == currentPing
      invariant EndsWithin(currentPing, pings, budget)
      invariant Reverse(chain) + ChainWithin(currentPing, pings, budget)[1..] == ChainOf(ping, pings)
      decreases budget
    {
      var found := FindById(pings, currentPing.parentPing.value);
      if found.Some? {
        ghost var rest := ChainWithin(found.value, pings, budget - 1);
        assert ChainWithin(currentPing, pings, budget) == [currentPing] + rest;
        ChainWithinShape(found.value, pings, budget - 1);
        assert rest == [found.value] + rest[1..];
        currentPing := found.value;
        chain := [currentPing] + chain;
        assert Reverse(chain) == Reverse(chain[1..]) + [currentPing];
        budget := budget - 1;
      } else {
        break;
      }
    }
    result := Reverse(chain);
  }

  /** `pingIsInChain` (ping.ts:22-24): some chain holds a ping with `p`'s id. */
  predicate PingIsInChain(p: Ping, chains: seq<seq<Ping>>) {
    HasIdIn(chains, p.id)
  }

  /** `chain.some((p) => p.id === id)`. */
  predicate HasId(chain: seq<Ping>, id: int) {
    exists j :: 0 <= j < |chain| && chain[j].id == id
  }

  /** `chains.some((chain) => chain.some((p) => p.id === id))`. */
  predicate HasIdIn(chains: seq<seq<Ping>>, id: int) {
    exists i :: 0 <= i < |chains| && HasId(chains[i], id)
  }

  /**
   * The chains the `pingChains` getter has built after the first `k` pings of
   * `all` (ping.ts:37-45): a ping already in a chain is skipped, any other one
   * adds its own chain.
   */
  function Grouped(all: seq<Ping>, k: nat): seq<seq<Ping>>
    requires AllWalksEnd(all)
    requires k <= |all|
  {
    if k == 0 then []
    else
      var before := Grouped(all, k - 1);
      if PingIsInChain(all[k - 1], before) then before
      else before + [ChainOf(all[k - 1], all)]
  }

  /** The value of the `pingChains` getter for the ping list `all`. */
  function ChainsOf(all: seq<Ping>): seq<seq<Ping>>
    requires AllWalksEnd(all)
  {
    Grouped(all, |all|)
  }

  /** Index of the first chain holding a ping with the given id, or `|chains|`. */
  function FirstChainWithId(chains: seq<seq<Ping>>, id: int): (k: nat)
    ensures k <= |chains|
    ensures k < |chains| ==> HasId(chains[k], id)
    ensures forall j :: 0 <= j < k ==> !HasId(chains[j], id)
  {
    if chains == [] then 0
    else if HasId(chains[0], id) then 0
    else 1 + FirstChainWithId(chains[1..], id)
  }

  /** `chains.find((c) => c.find((p) => p.id === id)) || []`. */
  function FindChain(chains: seq<seq<Ping>>, id: int): seq<Ping> {
    var k := FirstChainWithId(chains, id);
    if k < |chains| then chains[k] else []
  }

  /** The value of the `activePingChains` getter (ping.ts:46-52). */
  function ActiveChainsOf(chains: seq<seq<Ping>>, activated: seq<int>): (r: seq<seq<Ping>>)
    ensures |r| == |activated|
    ensures forall i :: 0 <= i < |activated| ==> r[i] == FindChain(chains, activated[i])
  {
    if activated == [] then []
    else [FindChain(chains, activated[0])] + ActiveChainsOf(chains, activated[1..])
  }

  // ---------------------------------------------------------------------------
  // Lookup

  /** `find` by id yields a ping of the list with that id, and the first one. */
  lemma FindByIdFirstMatch(pings: seq<Ping>, id: int)
    ensures FindById(pings, id).None? <==> forall j :: 0 <= j < |pings| ==> pings[j].id != id
    ensures FindById(pings, id).Some? ==>
      exists k :: 0 <= k < |pings| && FindById(pings, id).value == pings[k] && pings[k].id == id
             && forall j :: 0 <= j < k ==> pings[j].id != id
  {
    var k := FirstIndexWithId(pings, id);
    if k < |pings| {
      assert FindById(pings, id).value == pings[k];
    }
  }

  // ---------------------------------------------------------------------------
  // Properties of the walk

  /** A chain is non-empty, starts at `p` and has at most one element per step. */
  lemma {:induction false} ChainWithinShape(p: Ping, pings: seq<Ping>, n: nat)
    requires EndsWithin(p, pings, n)
    ensures 1 <= |ChainWithin(p, pings, n)| <= n + 1
    ensures ChainWithin(p, pings, n)[0] == p
    decreases n
  {
    match ParentIn(p, pings)
    case None =>
    case Some(q) => ChainWithinShape(q, pings, n - 1);
  }

  /** A larger budget is still enough and yields the same chain. */
  lemma {:induction false} MoreBudget(p: Ping, pings: seq<Ping>, n: nat, m: nat)
    requires EndsWithin(p, pings, n) && n <= m
    ensures EndsWithin(p, pings, m)
    ensures ChainWithin(p, pings, m) == ChainWithin(p, pings, n)
    decreases n
  {
    match ParentIn(p, pings)
    case None =>
    case Some(q) => MoreBudget(q, pings, n - 1, m - 1);
  }

  /** The chain does not depend on the budget, as long as the budget suffices. */
  lemma ChainIgnoresBudget(p: Ping, pings: seq<Ping>, n: nat, m: nat)
    requires EndsWithin(p, pings, n) && EndsWithin(p, pings, m)
    ensures ChainWithin(p, pings, n) == ChainWithin(p, pings, m)
  {
    if n <= m { MoreBudget(p, pings, n, m); } else { MoreBudget(p, pings, m, n); }
  }

  /** The walk needs exactly as many steps as the chain has links. */
  lemma {:induction false} EndsAtChainLength(p: Ping, pings: seq<Ping>, n: nat)
    requires EndsWithin(p, pings, n)
    ensures |ChainWithin(p, pings, n)| >= 1
    ensures EndsWithin(p, pings, |ChainWithin(p, pings, n)| - 1)
    decreases n
  {
    match ParentIn(p, pings)
    case None =>
    case Some(q) =>
      EndsAtChainLength(q, pings, n - 1);
      ChainWithinShape(q, pings, n - 1);
  }

  /** Every suffix of a chain is the chain of its first element. */
  lemma {:induction false} ChainSuffix(p: Ping, pings: seq<Ping>, n: nat, k: nat)
    requires EndsWithin(p, pings, n)
    requires k < |ChainWithin(p, pings, n)|
    ensures k <= n
    ensures EndsWithin(ChainWithin(p, pings, n)[k], pings, n - k)
    ensures ChainWithin(ChainWithin(p, pings, n)[k], pings, n - k) == ChainWithin(p, pings, n)[k..]
    decreases n
  {
    ChainWithinShape(p, pings, n);
    if k > 0 {
      match ParentIn(p, pings)
      case Some(q) =>
        var c := ChainWithin(p, pings, n);
        assert c == [p] + ChainWithin(q, pings, n - 1);
        ChainSuffix(q, pings, n - 1, k - 1);
        assert c[k] == ChainWithin(q, pings, n - 1)[k - 1];
        assert c[k..] == ChainWithin(q, pings, n - 1)[k - 1..];
    }
  }

  /** A walk that ends never visits a ping twice. */
  lemma ChainDistinct(p: Ping, pings: seq<Ping>, n: nat)
    requires EndsWithin(p, pings, n)
    ensures Distinct(ChainWithin(p, pings, n))
  {
    var c := ChainWithin(p, pings, n);
    forall i, j | 0 <= i < j < |c|
      ensures c[i] != c[j]
    {
      if c[i] == c[j] {
        ChainSuffix(p, pings, n, i);
        ChainSuffix(p, pings, n, j);
        ChainIgnoresBudget(c[i], pings, n - i, n - j);
        assert false;
      }
    }
  }

  /** Every element after the first was found in `pings`. */
  lemma {:induction false} ChainAncestorsListed(p: Ping, pings: seq<Ping>, n: nat)
    requires EndsWithin(p, pings, n)
    ensures forall i :: 1 <= i < |ChainWithin(p, pings, n)| ==> ChainWithin(p, pings, n)[i] in pings
    decreases n
  {
    match ParentIn(p, pings)
    case None =>
    case Some(q) =>
      FindByIdFirstMatch(pings, p.parentPing.value);
      ChainAncestorsListed(q, pings, n - 1);
      ChainWithinShape(q, pings, n - 1);
      var c := ChainWithin(p, pings, n);
      assert c == [p] + ChainWithin(q, pings, n - 1);
      forall i | 1 <= i < |c| ensures c[i] in pings {
        assert c[i] == ChainWithin(q, pings, n - 1)[i - 1];
      }
  }

  /**
   * Termination: if the walk from `p` ends within any number of steps, it ends
   * within `|pings|` steps, so `WalkEnds` is exactly the condition under which
   * the loop at ping.ts:10 exits.
   */
  lemma EndsIfEverEnds(p: Ping, pings: seq<Ping>, n: nat)
    requires EndsWithin(p, pings, n)
    ensures WalkEnds(p, pings)
    ensures ChainOf(p, pings) == ChainWithin(p, pings, n)
  {
    var c := ChainWithin(p, pings, n);
    ChainWithinShape(p, pings, n);
    ChainDistinct(p, pings, n);
    ChainAncestorsListed(p, pings, n);
    var ancestors := c[1..];
    forall i, j | 0 <= i < j < |ancestors| ensures ancestors[i] != ancestors[j] {
      assert ancestors[i] == c[i + 1] && ancestors[j] == c[j + 1];
    }
    forall i | 0 <= i < |ancestors| ensures ancestors[i] in pings {
      assert ancestors[i] == c[i + 1];
    }
    DistinctNoLonger(ancestors, pings);
    EndsAtChainLength(p, pings, n);
    MoreBudget(p, pings, |c| - 1, |pings|);
    ChainIgnoresBudget(p, pings, |c| - 1, n);
  }

  /** On a cycle of parent links the walk never ends, whatever the budget. */
  lemma {:induction false} CycleNeverEnds(cycle: seq<Ping>, pings: seq<Ping>, n: nat)
    requires |cycle| > 0
    requires forall i :: 0 <= i < |cycle| - 1 ==> ParentIn(cycle[i], pings) == Some(cycle[i + 1])
    requires ParentIn(cycle[|cycle| - 1], pings) == Some(cycle[0])
    ensures forall i :: 0 <= i < |cycle| ==> !EndsWithin(cycle[i], pings, n)
    decreases n
  {
    if n > 0 {
      CycleNeverEnds(cycle, pings, n - 1);
    }
    forall i | 0 <= i < |cycle| ensures !EndsWithin(cycle[i], pings, n) {
      var next := if i < |cycle| - 1 then i + 1 else 0;
      assert ParentIn(cycle[i], pings) == Some(cycle[next]);
    }
  }

  /** The chain satisfies the chain description (`ChainUnique` shows that nothing else does). */
  lemma {:induction false} ChainLinks(p: Ping, pings: seq<Ping>, n: nat)
    requires EndsWithin(p, pings, n)
    ensures IsChainFrom(ChainWithin(p, pings, n), p, pings)
    decreases n
  {
    ChainWithinShape(p, pings, n);
    match ParentIn(p, pings)
    case None =>
    case Some(q) =>
      ChainLinks(q, pings, n - 1);
      ChainWithinShape(q, pings, n - 1);
      var rest := ChainWithin(q, pings, n - 1);
      var c := [p] + rest;
      assert c == ChainWithin(p, pings, n);
      forall i | 0 <= i < |c| - 1 ensures ParentIn(c[i], pings) == Some(c[i + 1]) {
        if i > 0 {
          assert c[i] == rest[i - 1] && c[i + 1] == rest[i];
        }
      }
      assert c[|c| - 1] == rest[|rest| - 1];
  }

  /** Any sequence meeting the chain description is the walk's chain, which then ends. */
  lemma {:induction false} ChainUnique(c: seq<Ping>, p: Ping, pings: seq<Ping>)
    requires IsChainFrom(c, p, pings)
    ensures EndsWithin(p, pings, |c| - 1)
    ensures ChainWithin(p, pings, |c| - 1) == c
    decreases |c|
  {
    if |c| > 1 {
      var rest := c[1..];
      assert IsChainFrom(rest, c[1], pings) by {
        forall i | 0 <= i < |rest| - 1 ensures ParentIn(rest[i], pings) == Some(rest[i + 1]) {
          assert rest[i] == c[i + 1] && rest[i + 1] == c[i + 2];
        }
      }
      ChainUnique(rest, c[1], pings);
      assert ParentIn(p, pings) == Some(c[1]);
      assert [p] + rest == c;
    }
  }

  /**
   * `getPingChain(p, pings)` is non-empty, starts with `p`, is linked by
   * `parent_ping` with the first match in `pings`, stops where the walk stops,
   * lists no ping twice and is at most `|pings| + 1` long (ping.ts:6-20).
   */
  lemma ChainOfProperties(p: Ping, pings: seq<Ping>)
    requires WalkEnds(p, pings)
    ensures IsChainFrom(ChainOf(p, pings), p, pings)
    ensures |ChainOf(p, pings)| <= |pings| + 1
    ensures Distinct(ChainOf(p, pings))
    ensures forall i :: 1 <= i < |ChainOf(p, pings)| ==> ChainOf(p, pings)[i] in pings
  {
    ChainLinks(p, pings, |pings|);
    ChainWithinShape(p, pings, |pings|);
    ChainDistinct(p, pings, |pings|);
    ChainAncestorsListed(p, pings, |pings|);
  }

  // ---------------------------------------------------------------------------
  // Properties of the grouping

  /** Processing more pings only appends chains. */
  lemma {:induction false} GroupedGrows(all: seq<Ping>, j: nat, k: nat)
    requires AllWalksEnd(all)
    requires j <= k <= |all|
    ensures |Grouped(all, j)| <= |Grouped(all, k)|
    ensures Grouped(all, k)[..|Grouped(all, j)|] == Grouped(all, j)
    decreases k
  {
    if j < k {
      GroupedGrows(all, j, k - 1);
      var before := Grouped(all, k - 1);
      if !PingIsInChain(all[k - 1], before) {
        assert (before + [ChainOf(all[k - 1], all)])[..|before|] == before;
      }
      assert Grouped(all, k)[..|before|] == before;
      assert Grouped(all, k)[..|Grouped(all, j)|] == before[..|Grouped(all, j)|];
    }
  }

  /** An id found in some chains is still found after more chains are appended. */
  lemma HasIdInPrefix(chains: seq<seq<Ping>>, longer: seq<seq<Ping>>, id: int)
    requires |chains| <= |longer| && longer[..|chains|] == chains
    requires HasIdIn(chains, id)
    ensures HasIdIn(longer, id)
  {
    var i :| 0 <= i < |chains| && HasId(chains[i], id);
    assert longer[i] == chains[i];
  }

  /** Every one of the first `k` pings is in (has its id in) some chain. */
  lemma {:induction false} GroupedCovers(all: seq<Ping>, k: nat)
    requires AllWalksEnd(all)
    requires k <= |all|
    ensures forall j :: 0 <= j < k ==> PingIsInChain(all[j], Grouped(all, k))
    decreases k
  {
    if k > 0 {
      GroupedCovers(all, k - 1);
      var before := Grouped(all, k - 1);
      GroupedGrows(all, k - 1, k);
      forall j | 0 <= j < k ensures PingIsInChain(all[j], Grouped(all, k)) {
        if j < k - 1 {
          HasIdInPrefix(before, Grouped(all, k), all[j].id);
        } else if !PingIsInChain(all[k - 1], before) {
          var c := ChainOf(all[k - 1], all);
          ChainWithinShape(all[k - 1], all, |all|);
          assert Grouped(all, k)[|before|] == c;
          assert HasId(c, all[k - 1].id) by { assert c[0].id == all[k - 1].id; }
        }
      }
    }
  }

  /**
   * There are at most `k` chains; each is the chain of one of the first `k`
   * pings, and starts with a ping that no earlier chain contains.
   */
  lemma {:induction false} GroupedChains(all: seq<Ping>, k: nat)
    requires AllWalksEnd(all)
    requires k <= |all|
    ensures |Grouped(all, k)| <= k
    ensures forall m :: 0 <= m < |Grouped(all, k)| ==>
      exists j :: 0 <= j < k && Grouped(all, k)[m] == ChainOf(all[j], all)
    ensures forall m :: 0 <= m < |Grouped(all, k)| ==>
      |Grouped(all, k)[m]| > 0 && !PingIsInChain(Grouped(all, k)[m][0], Grouped(all, k)[..m])
    decreases k
  {
    if k > 0 {
      GroupedChains(all, k - 1);
      var before := Grouped(all, k - 1);
      var g := Grouped(all, k);
      if !PingIsInChain(all[k - 1], before) {
        var c := ChainOf(all[k - 1], all);
        ChainWithinShape(all[k - 1], all, |all|);
        assert g == before + [c];
        forall m | 0 <= m < |g|
          ensures exists j :: 0 <= j < k && g[m] == ChainOf(all[j], all)
          ensures |g[m]| > 0 && !PingIsInChain(g[m][0], g[..m])
        {
          if m < |before| {
            assert g[m] == before[m];
            assert g[..m] == before[..m];
          } else {
            assert g[m] == c && c[0] == all[k - 1];
            assert g[..m] == before;
          }
        }
      }
    }
  }

  /**
   * The `pingChains` getter covers every ping, builds at most one chain per
   * ping, and every chain it builds is a ping's chain whose first ping was in no
   * earlier chain (ping.ts:37-45).
   */
  lemma ChainsOfProperties(all: seq<Ping>)
    requires AllWalksEnd(all)
    ensures |ChainsOf(all)| <= |all|
    ensures forall j :: 0 <= j < |all| ==> PingIsInChain(all[j], ChainsOf(all))
    ensures forall m :: 0 <= m < |ChainsOf(all)| ==>
      exists j :: 0 <= j < |all| && ChainsOf(all)[m] == ChainOf(all[j], all)
    ensures forall m :: 0 <= m < |ChainsOf(all)| ==>
      |ChainsOf(all)[m]| > 0 && !PingIsInChain(ChainsOf(all)[m][0], ChainsOf(all)[..m])
  {
    GroupedCovers(all, |all|);
    GroupedChains(all, |all|);
  }

  // ---------------------------------------------------------------------------
  // Finding chains by id

  /** `FindChain` yields the first chain holding the id, and `[]` exactly when none does. */
  lemma FindChainFirstMatch(chains: seq<seq<Ping>>, id: int)
    ensures FindChain(chains, id) == [] <==> !HasIdIn(chains, id)
    ensures HasIdIn(chains, id) ==>
      exists k :: 0 <= k < |chains| && FindChain(chains, id) == chains[k] && HasId(chains[k], id)
             && forall j :: 0 <= j < k ==> !HasId(chains[j], id)
  {
    var k := FirstChainWithId(chains, id);
    if k < |chains| {
      assert FindChain(chains, id) == chains[k];
      var j :| 0 <= j < |chains[k]| && chains[k][j].id == id;
    }
  }
}
