/**
 * The state, the getters and the actions that make no request of the client's
 * Pinia ping store (client/src/stores/ping.ts:27-133). `setActivePing` is
 * declared `async` but awaits nothing, so its assignment is modelled as an
 * immediate update. The request-handling actions, `clearError` and the
 * `processing`/`error` flags are not part of this model.
 */
module PingStore {
  import opened Wrappers
  import opened Seqs
  import opened PingChain

  /** `ids.filter((x) => x !== id)`. */
  function RemoveAll(ids: seq<int>, id: int): seq<int> {
    if ids == [] then []
    else (if ids[0] == id then [] else [ids[0]]) + RemoveAll(ids[1..], id)
  }

  /**
   * `deactivateChain` removes every occurrence of the id and keeps the other
   * ids, each as often as before and in their order.
   */
  lemma {:induction false} RemoveAllProperties(ids: seq<int>, id: int)
    ensures id !in RemoveAll(ids, id)
    ensures multiset(RemoveAll(ids, id)) == multiset(ids)[id := 0]
    ensures IsSubsequence(RemoveAll(ids, id), ids)
    ensures forall x :: x != id ==> (x in RemoveAll(ids, id) <==> x in ids)
  {
    if ids != [] {
      var rest := RemoveAll(ids[1..], id);
      RemoveAllProperties(ids[1..], id);
      assert ids == [ids[0]] + ids[1..];
      assert multiset(ids) == multiset{ids[0]} + multiset(ids[1..]);
      if ids[0] == id {
        assert RemoveAll(ids, id) == rest;
      } else {
        assert RemoveAll(ids, id) == [ids[0]] + rest;
        assert multiset(RemoveAll(ids, id)) == multiset{ids[0]} + multiset(rest);
      }
    }
  }

  /** Removing an id from a duplicate-free list leaves it duplicate-free. */
  lemma {:induction false} RemoveAllKeepsDistinct(ids: seq<int>, id: int)
    requires Distinct(ids)
    ensures Distinct(RemoveAll(ids, id))
  {
    if ids != [] {
      var rest := RemoveAll(ids[1..], id);
      assert Distinct(ids[1..]) by {
        forall i, j | 0 <= i < j < |ids[1..]| ensures ids[1..][i] != ids[1..][j] {
          assert ids[1..][i] == ids[i + 1] && ids[1..][j] == ids[j + 1];
        }
      }
      RemoveAllKeepsDistinct(ids[1..], id);
      if ids[0] != id {
        RemoveAllProperties(ids[1..], id);
        assert ids[0] !in ids[1..];
        assert ids[0] !in rest;
        var r := RemoveAll(ids, id);
        assert r == [ids[0]] + rest;
        forall i, j | 0 <= i < j < |r| ensures r[i] != r[j] {
          if i == 0 {
            assert r[j] == rest[j - 1];
          } else {
            assert r[i] == rest[i - 1] && r[j] == rest[j - 1];
          }
        }
      }
    }
  }

  /** The client-side ping store. */
  class PingStore {
    /** The pings last fetched from the server. */
    var pings: seq<Ping>
    /** The latest pings last fetched from the server. */
    var latestPings: seq<Ping>
    /** The selected ping, if any. */
    var activePing: Option<Ping>
    /** The ids whose chains are selected. */
    var activatedChains: seq<int>

    /** `state: () => ({...})` (ping.ts:28-35). */
    constructor ()
      ensures pings == [] && latestPings == []
      ensures activePing == None && activatedChains == []
    {
      pings, latestPings := [], [];
      activePing, activatedChains := None, [];
    }

    /** The `pingChains` getter (ping.ts:37-45). */
    method PingChains() returns (chains: seq<seq<Ping>>)
      requires AllWalksEnd(pings)
      ensures chains == ChainsOf(pings)
    {
      chains := [];
      for i := 0 to |pings|
        invariant chains == Grouped(pings, i)
      {
        var ping := pings[i];
        if PingIsInChain(ping, chains) {
          continue;
        }
        var chain := PingChain.GetPingChain(ping, pings);
        chains := chains + [chain];
      }
    }

    /**
     * The `activePingChains` getter (ping.ts:46-52). `pingChains` is read only
     * inside the `forEach` callback, so with nothing selected it is never
     * evaluated and the walk need not end.
     */
    method ActivePingChains() returns (chains: seq<seq<Ping>>)
      requires activatedChains != [] ==> AllWalksEnd(pings)
      ensures activatedChains == [] ==> chains == []
      ensures activatedChains != [] ==> chains == ActiveChainsOf(ChainsOf(pings), activatedChains)
    {
      chains := [];
      if activatedChains == [] {
        return;
      }
      var all := PingChains();
      for i := 0 to |activatedChains|
        invariant |chains| == i
        invariant forall k :: 0 <= k < i ==> chains[k] == FindChain(all, activatedChains[k])
      {
        chains := chains + [FindChain(all, activatedChains[i])];
      }
    }

    /** `setActivePing` (ping.ts:105-107). */
    method SetActivePing(ping: Option<Ping>)
      modifies this`activePing
      ensures activePing == if ping.None? then None else FindById(pings, ping.value.id)
      ensures activePing.None? || (activePing.value in pings && activePing.value.id == ping.value.id)
    {
      if ping.Some? {
        activePing := FindById(pings, ping.value.id);
        FindByIdFirstMatch(pings, ping.value.id);
      } else {
        activePing := None;
      }
    }

    /** `activateChain` (ping.ts:111-115). */
    method ActivateChain(pingId: int)
      modifies this`activatedChains
      ensures activatedChains == if pingId in old(activatedChains) then old(activatedChains)
                                 else old(activatedChains) + [pingId]
      ensures pingId in activatedChains
      ensures Distinct(old(activatedChains)) ==> Distinct(activatedChains)
    {
      if pingId !in activatedChains {
        activatedChains := activatedChains + [pingId];
      }
    }

    /** `deactivateChain` (ping.ts:116-118). */
    method DeactivateChain(pingId: int)
      modifies this`activatedChains
      ensures activatedChains == RemoveAll(old(activatedChains), pingId)
      ensures pingId !in activatedChains
      ensures Distinct(old(activatedChains)) ==> Distinct(activatedChains)
    {
      RemoveAllProperties(activatedChains, pingId);
      if Distinct(activatedChains) {
        RemoveAllKeepsDistinct(activatedChains, pingId);
      }
      activatedChains := RemoveAll(activatedChains, pingId);
    }

    /** `toggleChain` (ping.ts:119-125): flips whether the id is selected. */
    method ToggleChain(pingId: int)
      modifies this`activatedChains
      ensures activatedChains == if pingId in old(activatedChains) then RemoveAll(old(activatedChains), pingId)
                                 else old(activatedChains) + [pingId]
      ensures pingId in activatedChains <==> pingId !in old(activatedChains)
      ensures forall x :: x != pingId ==> (x in activatedChains <==> x in old(activatedChains))
      ensures Distinct(old(activatedChains)) ==> Distinct(activatedChains)
    {
      if pingId in activatedChains {
        RemoveAllProperties(activatedChains, pingId);
        DeactivateChain(pingId);
      } else {
        ActivateChain(pingId);
      }
    }

    /** `isInActiveChain` (ping.ts:126-128); with nothing selected it is false for any ping list. */
    function IsInActiveChain(pingId: int): (r: bool)
      reads this
      requires activatedChains != [] ==> AllWalksEnd(pings)
      ensures activatedChains == [] ==> !r
      ensures activatedChains != [] ==>
        (r <==> exists k :: 0 <= k < |activatedChains| && HasIdIn(ChainsOf(pings), activatedChains[k])
                         && HasId(FindChain(ChainsOf(pings), activatedChains[k]), pingId))
      ensures pingId in activatedChains && HasIdIn(ChainsOf(pings), pingId) ==> r
    {
      if activatedChains == [] then false
      else
        ActiveChainMembership(pings, activatedChains, pingId);
        HasIdIn(ActiveChainsOf(ChainsOf(pings), activatedChains), pingId)
    }

    /** The `getPingChain` action (ping.ts:129-131). */
    function GetPingChain(pingId: int): (chain: seq<Ping>)
      reads this
      requires AllWalksEnd(pings)
      ensures chain == [] <==> !HasIdIn(ChainsOf(pings), pingId)
      ensures chain != [] ==> HasId(chain, pingId) && chain in ChainsOf(pings)
      ensures chain != [] ==> exists k :: 0 <= k < |ChainsOf(pings)| && chain == ChainsOf(pings)[k]
                                       && forall j :: 0 <= j < k ==> !HasId(ChainsOf(pings)[j], pingId)
      ensures (exists i :: 0 <= i < |pings| && pings[i].id == pingId) ==> chain != []
    {
      FindChainFirstMatch(ChainsOf(pings), pingId);
      ChainsOfProperties(pings);
      FindChain(ChainsOf(pings), pingId)
    }
  }

  /**
   * A ping is highlighted exactly when it shares a chain with a selected id:
   * highlighted ids lie in the first chain of some selected id, and a selected
   * id that some chain holds is highlighted itself.
   */
  lemma ActiveChainMembership(pings: seq<Ping>, activated: seq<int>, id: int)
    requires AllWalksEnd(pings)
    ensures HasIdIn(ActiveChainsOf(ChainsOf(pings), activated), id) <==>
      exists k :: 0 <= k < |activated| && HasIdIn(ChainsOf(pings), activated[k])
               && HasId(FindChain(ChainsOf(pings), activated[k]), id)
    ensures id in activated && HasIdIn(ChainsOf(pings), id) ==>
      HasIdIn(ActiveChainsOf(ChainsOf(pings), activated), id)
  {
    var chains := ChainsOf(pings);
    var active := ActiveChainsOf(chains, activated);
    forall k | 0 <= k < |activated| ensures FindChain(chains, activated[k]) != [] <==> HasIdIn(chains, activated[k]) {
      FindChainFirstMatch(chains, activated[k]);
    }
    if HasIdIn(active, id) {
      var k :| 0 <= k < |active| && HasId(active[k], id);
      assert active[k] == FindChain(chains, activated[k]);
    }
    if id in activated && HasIdIn(chains, id) {
      var k :| 0 <= k < |activated| && activated[k] == id;
      FindChainFirstMatch(chains, id);
      assert HasId(active[k], id);
    }
  }

  /**
   * Every selected id that belongs to a fetched ping is highlighted, because
   * the chains cover every fetched ping.
   */
  lemma SelectedPingIsHighlighted(pings: seq<Ping>, activated: seq<int>, i: nat)
    requires AllWalksEnd(pings)
    requires i < |pings| && pings[i].id in activated
    ensures HasIdIn(ActiveChainsOf(ChainsOf(pings), activated), pings[i].id)
  {
    ChainsOfProperties(pings);
    ActiveChainMembership(pings, activated, pings[i].id);
  }
}
