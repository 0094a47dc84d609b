/** The flood of one search over any topology: a node forwards a request the first time it sees it, with
    the budget split over its neighbours of that moment. Requests may be lost, duplicated and reordered. */
module SearchFlood {
  import opened Budgets

  /** A search request on its way to a node. */
  datatype Request = Request(from: nat, to: nat, budget: uint64)

  /** The unsigned subtraction before forwarding wraps around at zero. */
  function MinusOne(budget: uint64): (less: uint64)
    ensures (less + 1) % UINT_LIMIT == budget
  {
    if budget == 0 then UINT_LIMIT - 1 else budget - 1
  }

  /** The requests that a node sends for a split, in some order. */
  function Requests(from: nat, order: seq<nat>, shares: map<nat, uint64>): (rs: seq<Request>)
    requires forall n :: n in order ==> n in shares
    ensures |rs| == |order| && forall i :: 0 <= i < |rs| ==> rs[i] == Request(from, order[i], shares[order[i]])
  {
    if order == [] then []
    else
      var n := order[|order| - 1];
      Requests(from, order[..|order| - 1], shares) + [Request(from, n, shares[n])]
  }

  ghost predicate ListsOnce(order: seq<nat>, keys: set<nat>) {
    (forall n :: n in order <==> n in keys) && forall i, j :: 0 <= i < j < |order| ==> order[i] != order[j]
  }

  /** The requests carry a split of the budget over the neighbours; without neighbours there are none. */
  ghost predicate Forwards(from: nat, budget: uint64, neighbors: set<nat>, rs: seq<Request>) {
    if neighbors == {} then rs == []
    else
      exists order: seq<nat>, shares: map<nat, uint64> ::
        GoSplit(budget, neighbors, shares) && ListsOnce(order, shares.Keys) && rs == Requests(from, order, shares)
  }

  class SearchNode {
    const address: nat
    var processedSearchRequests: set<string>

    constructor (address: nat)
      ensures this.address == address && processedSearchRequests == {}
    {
      this.address, processedSearchRequests := address, {};
    }

    /** Handles a request that a node relayed, and returns the requests to send on. */
    method HandleSearchRequest(requestID: string, budget: uint64, relayedBy: nat, allNeighbors: set<nat>)
      returns (forwarded: seq<Request>)
      modifies this
      ensures processedSearchRequests == old(processedSearchRequests) + {requestID}
      ensures requestID in old(processedSearchRequests) ==> forwarded == []
      ensures requestID !in old(processedSearchRequests) ==>
                Forwards(address, MinusOne(budget), allNeighbors - {relayedBy}, forwarded)
    {
      if requestID in processedSearchRequests {
        return [];
      }
      processedSearchRequests := processedSearchRequests + {requestID};
      var budgetMap := DistributeBudget(MinusOne(budget), allNeighbors - {relayedBy});
      forwarded := SendShares(address, budgetMap);
    }

    /** Starts a search of this node: it marks the request as its own and asks all neighbours. */
    method StartSearch(requestID: string, budget: uint64, neighbors: set<nat>) returns (sent: seq<Request>)
      modifies this
      ensures processedSearchRequests == old(processedSearchRequests) + {requestID}
      ensures Forwards(address, budget, neighbors, sent)
    {
      var budgetMap := DistributeBudget(budget, neighbors);
      processedSearchRequests := processedSearchRequests + {requestID};
      sent := SendShares(address, budgetMap);
    }
  }

  /** Sends the shares in an arbitrary order. */
  method SendShares(from: nat, budgetMap: map<nat, uint64>) returns (sent: seq<Request>)
    ensures exists order :: ListsOnce(order, budgetMap.Keys) && sent == Requests(from, order, budgetMap)
  {
    sent := [];
    ghost var order: seq<nat> := [];
    var left := budgetMap.Keys;
    while left != {}
      invariant left <= budgetMap.Keys && ListsOnce(order, budgetMap.Keys - left)
      invariant sent == Requests(from, order, budgetMap)
    {
      var neighbor :| neighbor in left;
      assert (order + [neighbor])[..|order|] == order;
      order := order + [neighbor];
      sent := sent + [Request(from, neighbor, budgetMap[neighbor])];
      left := left - {neighbor};
    }
    assert budgetMap.Keys - left == budgetMap.Keys;
  }

  // Runs of one search.

  /** All requests sent so far, which of them were acted on, and the nodes that know the search. */
  datatype Flood = Flood(sent: seq<Request>, handled: set<nat>, processed: set<nat>)

  /** Request number i arrives, possibly again; the other two say what its receiver sends on. */
  datatype Arrival = Arrival(i: nat, neighbors: set<nat>, forwarded: seq<Request>)

  ghost predicate Starts(f: Flood, initiator: nat, budget: uint64, neighbors: set<nat>) {
    f.handled == {} && f.processed == {initiator} && Forwards(initiator, budget, neighbors, f.sent)
  }

  ghost predicate CanArrive(f: Flood, a: Arrival) {
    && a.i < |f.sent|
    && var r := f.sent[a.i];
       if r.to in f.processed then a.forwarded == []
       else Forwards(r.to, MinusOne(r.budget), a.neighbors - {r.from}, a.forwarded)
  }

  function Arrived(f: Flood, a: Arrival): Flood {
    if a.i >= |f.sent| || f.sent[a.i].to in f.processed then f
    else Flood(f.sent + a.forwarded, f.handled + {a.i}, f.processed + {f.sent[a.i].to})
  }

  function After(f: Flood, schedule: seq<Arrival>): Flood {
    if schedule == [] then f else Arrived(After(f, schedule[..|schedule| - 1]), schedule[|schedule| - 1])
  }

  ghost predicate Schedule(f: Flood, schedule: seq<Arrival>) {
    schedule == [] ||
    (&& Schedule(f, schedule[..|schedule| - 1])
     && CanArrive(After(f, schedule[..|schedule| - 1]), schedule[|schedule| - 1]))
  }

  /** The budgets of the requests that were not acted on. */
  function Open(sent: seq<Request>, handled: set<nat>): nat {
    if sent == [] then 0
    else Open(sent[..|sent| - 1], handled) + if |sent| - 1 in handled then 0 else sent[|sent| - 1].budget
  }

  ghost predicate WithinBudget(f: Flood, budget: nat) {
    && (forall i :: i in f.handled ==> i < |f.sent| && f.sent[i].to in f.processed)
    && (forall i :: 0 <= i < |f.sent| ==> 1 <= f.sent[i].budget)
    && |f.handled| + Open(f.sent, f.handled) <= budget
  }

  lemma {:induction false} OpenAppend(sent: seq<Request>, more: seq<Request>, handled: set<nat>)
    requires forall i :: i in handled ==> i < |sent|
    ensures Open(sent + more, handled) == Open(sent, handled) + Open(more, {})
  {
    if more == [] {
      assert sent + more == sent;
    } else {
      var init := more[..|more| - 1];
      OpenAppend(sent, init, handled);
      assert (sent + more)[..|sent + more| - 1] == sent + init;
      assert |sent + more| - 1 !in handled;
    }
  }

  lemma {:induction false} OpenHandled(sent: seq<Request>, handled: set<nat>, i: nat)
    requires i < |sent| && i !in handled
    ensures Open(sent, handled) == Open(sent, handled + {i}) + sent[i].budget
  {
    var init := sent[..|sent| - 1];
    if i < |sent| - 1 {
      OpenHandled(init, handled, i);
    } else {
      OpenSame(init, handled, i);
    }
  }

  lemma {:induction false} OpenSame(sent: seq<Request>, handled: set<nat>, i: nat)
    requires |sent| <= i
    ensures Open(sent, handled) == Open(sent, handled + {i})
  {
    if sent != [] {
      OpenSame(sent[..|sent| - 1], handled, i);
    }
  }

  lemma {:induction false} OpenCount(sent: seq<Request>, handled: set<nat>)
    requires forall i :: i in handled ==> i < |sent|
    requires forall i :: 0 <= i < |sent| ==> 1 <= sent[i].budget
    ensures |sent| <= |handled| + Open(sent, handled)
  {
    if sent != [] {
      var last := |sent| - 1;
      OpenCount(sent[..last], handled - {last});
      OpenSame(sent[..last], handled - {last}, last);
      if last in handled {
        assert handled - {last} + {last} == handled;
      } else {
        assert handled - {last} == handled;
        assert handled + {last} - {last} == handled;
        OpenSame(sent[..last], handled, last);
      }
    }
  }

  lemma {:induction false} OpenOfMore(rs: seq<Request>, r: Request)
    ensures Open(rs + [r], {}) == Open(rs, {}) + r.budget
  {
    assert (rs + [r])[..|rs|] == rs;
  }

  lemma {:induction false} RequestsOfMore(from: nat, order: seq<nat>, n: nat, shares: map<nat, uint64>)
    requires n in shares && forall m :: m in order ==> m in shares
    ensures Requests(from, order + [n], shares) == Requests(from, order, shares) + [Request(from, n, shares[n])]
  {
    assert (order + [n])[..|order|] == order;
  }

  lemma {:induction false} OpenOfSplit(from: nat, order: seq<nat>, shares: map<nat, uint64>)
    requires ListsOnce(order, shares.Keys)
    ensures Open(Requests(from, order, shares), {}) == Sum(shares)
    decreases |order|
  {
    if order == [] {
      assert shares.Keys == {};
    } else {
      var init, n := order[..|order| - 1], order[|order| - 1];
      var fewer := shares - {n};
      assert order == init + [n];
      assert ListsOnce(init, fewer.Keys);
      hide ListsOnce, Requests, Open, Sum;
      OpenOfSplit(from, init, fewer);
      SumWithout(shares, n);
      SameRequests(from, init, shares, fewer);
      RequestsOfMore(from, init, n, shares);
      OpenOfMore(Requests(from, init, shares), Request(from, n, shares[n]));
    }
  }

  lemma {:induction false} SameRequests(from: nat, order: seq<nat>, shares: map<nat, uint64>, fewer: map<nat, uint64>)
    requires forall n :: n in order ==> n in shares && n in fewer && shares[n] == fewer[n]
    ensures Requests(from, order, shares) == Requests(from, order, fewer)
  {
  }

  /** Forwarded requests have non-zero budgets, which sum up to no more than the budget split. */
  lemma {:induction false} ForwardedBudget(from: nat, budget: uint64, neighbors: set<nat>, rs: seq<Request>)
    requires Forwards(from, budget, neighbors, rs) && budget < INT_LIMIT
    ensures Open(rs, {}) <= budget
    ensures forall i :: 0 <= i < |rs| ==> 1 <= rs[i].budget
  {
    if neighbors != {} {
      hide Sum, FirstShares, LowShare, HighShare, Open;
      var order: seq<nat>, shares: map<nat, uint64> :|
        GoSplit(budget, neighbors, shares) && ListsOnce(order, shares.Keys) && rs == Requests(from, order, shares);
      GoSplitFair(budget, neighbors, shares);
      OpenOfSplit(from, order, shares);
    }
  }

  lemma {:induction false} BudgetStep(f: Flood, a: Arrival, budget: nat)
    requires WithinBudget(f, budget) && CanArrive(f, a) && budget < INT_LIMIT
    ensures WithinBudget(Arrived(f, a), budget)
  {
    hide Open, Forwards;
    var r := f.sent[a.i];
    if r.to !in f.processed {
      OpenHandled(f.sent, f.handled, a.i);
      assert Open(f.sent, f.handled) >= r.budget;
      ForwardedBudget(r.to, MinusOne(r.budget), a.neighbors - {r.from}, a.forwarded);
      OpenAppend(f.sent, a.forwarded, f.handled + {a.i});
    }
  }

  lemma {:induction false} AlwaysWithinBudget(f: Flood, schedule: seq<Arrival>, initiator: nat, budget: uint64,
                                              neighbors: set<nat>)
    requires Starts(f, initiator, budget, neighbors) && Schedule(f, schedule) && budget < INT_LIMIT
    ensures WithinBudget(After(f, schedule), budget)
    decreases |schedule|
  {
    if schedule == [] {
      ForwardedBudget(initiator, budget, neighbors, f.sent);
    } else {
      var init, a := schedule[..|schedule| - 1], schedule[|schedule| - 1];
      var mid := After(f, init);
      AlwaysWithinBudget(f, init, initiator, budget, neighbors);
      BudgetStep(mid, a, budget);
    }
  }

  /** Over every topology and schedule, a search started with a budget within the signed range sends at
      most that many requests, each with a budget of at least one, so that the subtraction never wraps. */
  lemma {:induction false} SearchFloodBound(f: Flood, schedule: seq<Arrival>, initiator: nat, budget: uint64,
                                            neighbors: set<nat>)
    requires Starts(f, initiator, budget, neighbors) && Schedule(f, schedule) && budget < INT_LIMIT
    ensures var sent := After(f, schedule).sent;
            |sent| <= budget
            && forall i :: 0 <= i < |sent| ==>
                 1 <= sent[i].budget <= budget && MinusOne(sent[i].budget) == sent[i].budget - 1
  {
    var f' := After(f, schedule);
    AlwaysWithinBudget(f, schedule, initiator, budget, neighbors);
    OpenCount(f'.sent, f'.handled);
    BudgetsBounded(f, schedule, initiator, budget, neighbors);
  }

  lemma {:induction false} ShareBounded(shares: map<nat, uint64>, n: nat)
    requires n in shares
    ensures shares[n] <= Sum(shares)
  {
    SumWithout(shares, n);
  }

  lemma {:induction false} BudgetsBounded(f: Flood, schedule: seq<Arrival>, initiator: nat, budget: uint64,
                                          neighbors: set<nat>)
    requires Starts(f, initiator, budget, neighbors) && Schedule(f, schedule) && budget < INT_LIMIT
    ensures forall i :: 0 <= i < |After(f, schedule).sent| ==> After(f, schedule).sent[i].budget <= budget
    decreases |schedule|
  {
    if schedule == [] {
      SharesBounded(initiator, budget, neighbors, f.sent);
    } else {
      var init, a := schedule[..|schedule| - 1], schedule[|schedule| - 1];
      var mid := After(f, init);
      BudgetsBounded(f, init, initiator, budget, neighbors);
      AlwaysWithinBudget(f, init, initiator, budget, neighbors);
      var r := mid.sent[a.i];
      if r.to !in mid.processed {
        SharesBounded(r.to, MinusOne(r.budget), a.neighbors - {r.from}, a.forwarded);
      }
    }
  }

  lemma {:induction false} SharesBounded(from: nat, budget: uint64, neighbors: set<nat>, rs: seq<Request>)
    requires Forwards(from, budget, neighbors, rs) && budget < INT_LIMIT
    ensures forall i :: 0 <= i < |rs| ==> rs[i].budget <= budget
  {
    if neighbors != {} {
      var order: seq<nat>, shares: map<nat, uint64> :|
        GoSplit(budget, neighbors, shares) && ListsOnce(order, shares.Keys) && rs == Requests(from, order, shares);
      GoSplitFair(budget, neighbors, shares);
      forall i | 0 <= i < |rs|
        ensures rs[i].budget <= budget
      {
        ShareBounded(shares, order[i]);
      }
    }
  }

  // Every search ends.

  /** The arrivals that a node acted on; all others change nothing. */
  ghost predicate Effective(f: Flood, a: Arrival) {
    a.i < |f.sent| && f.sent[a.i].to !in f.processed
  }

  /** At most as many arrivals are acted on as the budget has units, and every other arrival changes nothing:
      the flood dies out. */
  lemma {:induction false} EffectiveArrivals(f: Flood, schedule: seq<Arrival>, initiator: nat, budget: uint64,
                                             neighbors: set<nat>)
    requires Starts(f, initiator, budget, neighbors) && Schedule(f, schedule) && budget < INT_LIMIT
    ensures var f' := After(f, schedule);
            && |f'.handled| <= budget && |f'.processed| == |f'.handled| + 1
            && forall a :: CanArrive(f', a) ==>
                 if Effective(f', a) then |Arrived(f', a).handled| == |f'.handled| + 1 else Arrived(f', a) == f'
  {
    var f' := After(f, schedule);
    AlwaysWithinBudget(f, schedule, initiator, budget, neighbors);
    OneEach(f, schedule, initiator, budget, neighbors);
    forall a | CanArrive(f', a) && Effective(f', a)
      ensures |Arrived(f', a).handled| == |f'.handled| + 1
    {
      assert a.i !in f'.handled;
    }
  }

  /** Every node but the initiator acts on exactly one request. */
  lemma {:induction false} OneEach(f: Flood, schedule: seq<Arrival>, initiator: nat, budget: uint64,
                                   neighbors: set<nat>)
    requires Starts(f, initiator, budget, neighbors) && Schedule(f, schedule) && budget < INT_LIMIT
    ensures |After(f, schedule).processed| == |After(f, schedule).handled| + 1
    decreases |schedule|
  {
    if schedule != [] {
      var init, a := schedule[..|schedule| - 1], schedule[|schedule| - 1];
      var mid := After(f, init);
      OneEach(f, init, initiator, budget, neighbors);
      AlwaysWithinBudget(f, init, initiator, budget, neighbors);
    }
  }
}
