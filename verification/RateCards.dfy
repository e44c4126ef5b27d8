/** Rate-card inheritance: the depth-first check of a catalog, and the walks that rely on it. */
module RateCards {
  import opened Decimals

  /** A card may extend another and prices some operations itself. */
  datatype Card<+P> = Card(parent: Option<string>, operations: map<string, P>)

  type Cards<P> = map<string, Card<P>>

  datatype WalkError = CycleDetected | UnknownCard(key: string) | NoPrice

  // ----- Reference definitions -----

  /** The chain of `extends` from a key ends after exactly n links, all inside the catalog. */
  ghost predicate EndsAfter<P>(cards: Cards<P>, key: string, n: nat)
    decreases n
  {
    && key in cards
    && match cards[key].parent
       case None => n == 0
       case Some(parent) => n > 0 && EndsAfter(cards, parent, n - 1)
  }

  ghost predicate Grounded<P>(cards: Cards<P>, key: string) {
    exists n: nat :: EndsAfter(cards, key, n)
  }

  /** Every inheritance chain is finite and stays inside the catalog. */
  ghost predicate Acyclic<P>(cards: Cards<P>) {
    forall key | key in cards :: Grounded(cards, key)
  }

  /** The price of the nearest card on the chain that has one. */
  ghost function Nearest<P>(cards: Cards<P>, key: string, operation: string, n: nat): Option<P>
    requires EndsAfter(cards, key, n)
    decreases n
  {
    if operation in cards[key].operations then Some(cards[key].operations[operation])
    else if cards[key].parent.None? then None
    else Nearest(cards, cards[key].parent.value, operation, n - 1)
  }

  lemma {:induction false} LengthUnique<P>(cards: Cards<P>, key: string, m: nat, n: nat)
    requires EndsAfter(cards, key, m) && EndsAfter(cards, key, n)
    ensures m == n
    decreases m
  {
    if cards[key].parent.Some? { LengthUnique(cards, cards[key].parent.value, m - 1, n - 1); }
  }

  ghost predicate EndsBefore<P>(cards: Cards<P>, key: string, n: nat) {
    exists m: nat :: m < n && EndsAfter(cards, key, m)
  }

  /** A finite chain from `above` is always longer than one from `key`. */
  ghost predicate Deeper<P>(cards: Cards<P>, above: string, key: string) {
    forall n: nat | EndsAfter(cards, above, n) :: EndsBefore(cards, key, n)
  }

  lemma {:induction false} NotBeforeItself<P>(cards: Cards<P>, key: string, n: nat)
    requires EndsAfter(cards, key, n)
    ensures !EndsBefore(cards, key, n)
  {
    forall m: nat | EndsAfter(cards, key, m) ensures m == n {
      LengthUnique(cards, key, m, n);
    }
  }

  /** A key further down its own chain has no finite chain. */
  lemma DeeperThanItself<P>(cards: Cards<P>, key: string)
    requires Deeper(cards, key, key)
    ensures !Grounded(cards, key)
  {
    hide EndsBefore;
    forall n: nat ensures !EndsAfter(cards, key, n) {
      if EndsAfter(cards, key, n) { NotBeforeItself(cards, key, n); }
    }
  }

  lemma DeeperStep<P>(cards: Cards<P>, above: string, key: string)
    requires key in cards && cards[key].parent.Some? && (above == key || Deeper(cards, above, key))
    ensures Deeper(cards, above, cards[key].parent.value)
  {
    var parent := cards[key].parent.value;
    forall n: nat | EndsAfter(cards, above, n)
      ensures EndsBefore(cards, parent, n)
    {
      if above == key {
        assert EndsAfter(cards, parent, n - 1);
      } else {
        var m: nat :| m < n && EndsAfter(cards, key, m);
        assert EndsAfter(cards, parent, m - 1);
      }
    }
  }

  // ----- The depth-first check -----

  class InheritanceCheck<P> {
    const cards: Cards<P>
    var visiting: set<string>
    var visited: set<string>

    constructor (cards: Cards<P>)
      ensures this.cards == cards && visiting == {} && visited == {}
    {
      this.cards := cards;
      visiting, visited := {}, {};
    }

    /** Finished keys are grounded, and each key still being visited has a chain only as long as
        one that would pass through the key visited next. */
    ghost predicate Valid()
      reads this
    {
      visiting <= cards.Keys && forall key | key in visited :: Grounded(cards, key)
    }

    /** `key` comes further down the chain of everything being visited. */
    ghost predicate Below(key: string)
      reads this
    {
      forall above | above in visiting :: Deeper(cards, above, key)
    }

    method Visit(key: string) returns (ok: bool)
      requires Valid() && Below(key)
      modifies this
      ensures Valid()
      ensures ok ==> visiting == old(visiting) && visited >= old(visited) + {key}
      ensures ok <==> Grounded(cards, key)
      decreases cards.Keys - visiting
    {
      if key in visiting {
        DeeperThanItself(cards, key);
        return false;
      }
      if key in visited { return true; }
      if key !in cards { return false; }
      visiting := visiting + {key};
      if cards[key].parent.Some? {
        var parent := cards[key].parent.value;
        forall above | above in visiting ensures Deeper(cards, above, parent) {
          DeeperStep(cards, above, key);
        }
        ok := Visit(parent);
        ParentGrounds(cards, key);
        if !ok { return; }
      } else {
        assert EndsAfter(cards, key, 0);
      }
      visiting := visiting - {key};
      visited := visited + {key};
      return true;
    }
  }

  lemma ParentGrounds<P>(cards: Cards<P>, key: string)
    requires key in cards && cards[key].parent.Some?
    ensures Grounded(cards, key) <==> Grounded(cards, cards[key].parent.value)
  {
    var parent := cards[key].parent.value;
    if Grounded(cards, key) {
      var n: nat :| EndsAfter(cards, key, n);
      assert EndsAfter(cards, parent, n - 1);
    }
    if Grounded(cards, parent) {
      var n: nat :| EndsAfter(cards, parent, n);
      assert EndsAfter(cards, key, n + 1);
    }
  }

  /** The check accepts, whatever order the keys are taken in, exactly the catalogs whose chains
      are all finite and inside the catalog. */
  method ValidateInheritance<P>(cards: Cards<P>) returns (ok: bool)
    ensures ok <==> Acyclic(cards)
  {
    var check := new InheritanceCheck(cards);
    var keys := cards.Keys;
    while keys != {}
      invariant keys <= cards.Keys && check.cards == cards && check.Valid() && check.visiting == {}
      invariant forall key | key in cards && key !in keys :: Grounded(cards, key)
      decreases |keys|
    {
      var key :| key in keys;
      var grounded := check.Visit(key);
      if !grounded { return false; }
      keys := keys - {key};
    }
    return true;
  }

  // ----- The walks at pricing time -----

  /** The pricing walk as it runs on any catalog: it stops at a price, at a key it has already
      seen, at a key outside the catalog, or at a root without a price. */
  ghost function Walk<P>(cards: Cards<P>, key: string, operation: string, seen: set<string>): Result<P, WalkError>
    decreases cards.Keys - seen
  {
    if key in seen then Failure(CycleDetected)
    else if key !in cards then Failure(UnknownCard(key))
    else if operation in cards[key].operations then Success(cards[key].operations[operation])
    else if cards[key].parent.None? then Failure(NoPrice)
    else Walk(cards, cards[key].parent.value, operation, seen + {key})
  }

  method OperationPricing<P>(cards: Cards<P>, cardKey: string, operation: string) returns (r: Result<P, WalkError>)
    ensures r == Walk(cards, cardKey, operation, {})
  {
    var seen: set<string> := {};
    var key := cardKey;
    while true
      invariant Walk(cards, cardKey, operation, {}) == Walk(cards, key, operation, seen)
      decreases cards.Keys - seen
    {
      if key in seen { return Failure(CycleDetected); }
      if key !in cards { return Failure(UnknownCard(key)); }
      var card := cards[key];
      seen := seen + {key};
      if operation in card.operations { return Success(card.operations[operation]); }
      if card.parent.None? { return Failure(NoPrice); }
      key := card.parent.value;
    }
  }

  /** Whether the plan check finds a price for the operation. It stops at an empty key, as if the
      catalog had no card of that name. */
  method ResolvesOperation<P>(cards: Cards<P>, cardKey: string, operation: string) returns (resolves: bool)
    ensures resolves <==> Walk(cards - {""}, cardKey, operation, {}).Success?
  {
    ghost var named := cards - {""};
    var seen: set<string> := {};
    var key := cardKey;
    while key != ""
      invariant Walk(named, cardKey, operation, {}) == Walk(named, key, operation, seen)
      decreases named.Keys - seen
    {
      if key in seen { return false; }
      if key !in cards { return false; }
      var card := cards[key];
      seen := seen + {key};
      if operation in card.operations { return true; }
      if card.parent.None? { return false; }
      key := card.parent.value;
    }
    return false;
  }

  /** From a grounded key nothing seen lies ahead, so the walk is the nearest-ancestor search. */
  lemma {:induction false} WalkIsNearest<P>(cards: Cards<P>, key: string, operation: string, seen: set<string>, n: nat)
    requires EndsAfter(cards, key, n)
    requires forall v, m: nat | v in seen && EndsAfter(cards, v, m) :: m > n
    requires forall v | v in seen :: Grounded(cards, v)
    ensures var r := Walk(cards, key, operation, seen);
            match Nearest(cards, key, operation, n)
            case Some(p) => r == Success(p)
            case None => r == Failure(NoPrice)
    decreases n
  {
    if operation !in cards[key].operations && cards[key].parent.Some? {
      forall v, m: nat | v in seen + {key} && EndsAfter(cards, v, m) ensures m > n - 1 {
        if v == key { LengthUnique(cards, key, m, n); }
      }
      WalkIsNearest(cards, cards[key].parent.value, operation, seen + {key}, n - 1);
    }
  }

  /** On an accepted catalog the walk never reports a cycle or an unknown card: it finds the price
      of the nearest card that has one, or there is none on the chain. */
  lemma AcceptedWalk<P>(cards: Cards<P>, key: string, operation: string) returns (n: nat)
    requires Acyclic(cards) && key in cards
    ensures EndsAfter(cards, key, n)
    ensures var r := Walk(cards, key, operation, {});
            match Nearest(cards, key, operation, n)
            case Some(p) => r == Success(p)
            case None => r == Failure(NoPrice)
  {
    n :| EndsAfter(cards, key, n);
    WalkIsNearest(cards, key, operation, {}, n);
  }

  ghost predicate OnChain<P>(cards: Cards<P>, key: string, ancestor: string, links: nat)
    decreases links
  {
    if links == 0 then key == ancestor
    else key in cards && cards[key].parent.Some? && OnChain(cards, cards[key].parent.value, ancestor, links - 1)
  }

  ghost predicate PricedAt<P>(cards: Cards<P>, key: string, operation: string, ancestor: string, links: nat) {
    OnChain(cards, key, ancestor, links) && ancestor in cards && operation in cards[ancestor].operations
  }

  /** Some card on the chain prices the operation: the nearest price, said without a search. */
  ghost predicate PricedOnChain<P>(cards: Cards<P>, key: string, operation: string) {
    exists ancestor, links: nat :: PricedAt(cards, key, operation, ancestor, links)
  }

  lemma PricedStep<P>(cards: Cards<P>, key: string, operation: string)
    requires key in cards
    ensures PricedOnChain(cards, key, operation) <==>
            operation in cards[key].operations
            || (cards[key].parent.Some? && PricedOnChain(cards, cards[key].parent.value, operation))
  {
    if operation in cards[key].operations {
      assert PricedAt(cards, key, operation, key, 0);
    } else {
      if cards[key].parent.Some? && PricedOnChain(cards, cards[key].parent.value, operation) {
        var a, l: nat :| PricedAt(cards, cards[key].parent.value, operation, a, l);
        assert PricedAt(cards, key, operation, a, l + 1);
      }
      if PricedOnChain(cards, key, operation) {
        var a, l: nat :| PricedAt(cards, key, operation, a, l);
        assert PricedAt(cards, cards[key].parent.value, operation, a, l - 1);
      }
    }
  }

  lemma {:induction false} NearestExists<P>(cards: Cards<P>, key: string, operation: string, n: nat)
    requires EndsAfter(cards, key, n)
    ensures Nearest(cards, key, operation, n).Some? <==> PricedOnChain(cards, key, operation)
    decreases n
  {
    hide PricedOnChain;
    PricedStep(cards, key, operation);
    if cards[key].parent.Some? { NearestExists(cards, cards[key].parent.value, operation, n - 1); }
  }

  /** An operation is priced on an accepted catalog exactly when a card on the chain prices it. */
  lemma PricedIffOnChain<P>(cards: Cards<P>, key: string, operation: string)
    requires Acyclic(cards) && key in cards
    ensures Walk(cards, key, operation, {}).Success? <==> PricedOnChain(cards, key, operation)
  {
    var n := AcceptedWalk(cards, key, operation);
    NearestExists(cards, key, operation, n);
  }

  /** What a failing walk means, on any catalog: a card it names as unknown is not in the catalog, a cycle
      is reported only on an endless chain, and a missing price only on one that ends. */
  lemma WalkFailuresMean<P>(cards: Cards<P>, key: string, operation: string)
    ensures var r := Walk(cards, key, operation, {});
            r.Failure? ==>
              match r.error
              case UnknownCard(missing) => missing !in cards && !Grounded(cards, key)
              case CycleDetected => key in cards && !Grounded(cards, key)
              case NoPrice => Grounded(cards, key)
  {
    WalkFailuresFrom(cards, key, operation, {});
    if Grounded(cards, key) {
      var n: nat :| EndsAfter(cards, key, n);
      WalkIsNearest(cards, key, operation, {}, n);
    }
  }

  lemma {:induction false} WalkFailuresFrom<P>(cards: Cards<P>, key: string, operation: string, seen: set<string>)
    requires seen <= cards.Keys
    ensures var r := Walk(cards, key, operation, seen);
            r.Failure? ==>
              match r.error
              case UnknownCard(missing) => missing !in cards
              case CycleDetected => key in cards
              case NoPrice => Grounded(cards, key)
    decreases cards.Keys - seen
  {
    hide Grounded;
    if key !in seen && key in cards && operation !in cards[key].operations {
      if cards[key].parent.Some? {
        WalkFailuresFrom(cards, cards[key].parent.value, operation, seen + {key});
        ParentGrounds(cards, key);
      } else {
        RootGrounded(cards, key);
      }
    }
  }

  lemma RootGrounded<P>(cards: Cards<P>, key: string)
    requires key in cards && cards[key].parent.None?
    ensures Grounded(cards, key)
  {
    assert EndsAfter(cards, key, 0);
  }
}
