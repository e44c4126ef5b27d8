/** Low-balance alerts: a bounded memory of which users are already below which thresholds, and
    how it compares with an unbounded one. */
module LowBalance {
  import opened Decimals

  // ----- One scan of the thresholds -----

  /** The text key of a threshold, as the whole number of millionths it spells. */
  function Key(threshold: Amount): int {
    HalfAway(ScaleUp(threshold, MONEY_SCALE))
  }

  lemma KeyMonotone(a: Amount, b: Amount)
    requires a <= b
    ensures Key(a) <= Key(b)
  {
    hide Pow10;
    MulMonotone(a, b, MONEY_SCALE as real);
    HalfAwayMonotone(ScaleUp(a, MONEY_SCALE), ScaleUp(b, MONEY_SCALE));
  }

  ghost predicate Descending(ts: seq<Amount>) {
    forall i, j :: 0 <= i < j < |ts| ==> ts[i] >= ts[j]
  }

  type Keys = set<int>

  function Lower(fire: Option<Amount>, t: Amount): Option<Amount> {
    if fire.None? || t < fire.value then Some(t) else fire
  }

  /** The keys below and the threshold to fire after scanning the thresholds in order. */
  function Scan(ts: seq<Amount>, below: Keys, balance: Amount, fire: Option<Amount>): (Keys, Option<Amount>) {
    if ts == [] then (below, fire)
    else if balance > ts[0] then Scan(ts[1..], below - {Key(ts[0])}, balance, fire)
    else if Key(ts[0]) in below then Scan(ts[1..], below, balance, fire)
    else Scan(ts[1..], below + {Key(ts[0])}, balance, Lower(fire, ts[0]))
  }

  /** What a recovered balance leaves of the keys below. */
  function Rearmed(ts: seq<Amount>, below: Keys, balance: Amount): Keys {
    if ts == [] then below
    else Rearmed(ts[1..], if balance > ts[0] then below - {Key(ts[0])} else below, balance)
  }

  ghost predicate IsKey(ts: seq<Amount>, k: int) {
    exists t :: t in ts && Key(t) == k
  }

  /** The balance is at or under every threshold with this key. */
  ghost predicate Under(ts: seq<Amount>, balance: Amount, k: int) {
    forall t | t in ts && Key(t) == k :: balance <= t
  }

  /** The alert a scan must raise: the highest threshold of the lowest key that the balance has
      newly gone under. */
  ghost predicate FireIs(ts: seq<Amount>, below: Keys, balance: Amount, fire: Option<Amount>) {
    match fire
    case None => forall t | t in ts && balance <= t :: Key(t) in below
    case Some(x) =>
      && x in ts && balance <= x && Key(x) !in below
      && (forall t | t in ts && Key(t) == Key(x) :: t <= x)
      && (forall t | t in ts && balance <= t && Key(t) !in below :: Key(t) >= Key(x))
  }

  ghost predicate Scanned(ts: seq<Amount>, below: Keys, balance: Amount, r: (Keys, Option<Amount>)) {
    && (forall k :: k in r.0 <==> if IsKey(ts, k) then Under(ts, balance, k) else k in below)
    && FireIs(ts, below, balance, r.1)
  }

  lemma ScanStepKeys(done: seq<Amount>, t: Amount, below: Keys, balance: Amount, b: Keys, k: int)
    requires Descending(done + [t])
    requires k in b <==> if IsKey(done, k) then Under(done, balance, k) else k in below
    ensures k in (if balance > t then b - {Key(t)} else b + {Key(t)}) <==>
            if IsKey(done + [t], k) then Under(done + [t], balance, k) else k in below
  {
    hide Key;
    var all := done + [t];
    assert forall u | u in done :: u >= t by {
      forall u | u in done ensures u >= t {
        var i :| 0 <= i < |done| && done[i] == u;
        assert all[i] >= all[|done|];
      }
    }
    assert t in all;
    if k == Key(t) {
      assert IsKey(all, k);
    } else {
      if IsKey(done, k) {
        var u :| u in done && Key(u) == k;
        assert u in all;
      }
      assert forall u | u in all && Key(u) == k :: u in done;
      assert forall u | u in done :: u in all;
      assert IsKey(all, k) <==> IsKey(done, k);
    }
  }

  lemma ScanStepFire(done: seq<Amount>, t: Amount, below: Keys, balance: Amount, b: Keys, fire: Option<Amount>)
    requires Descending(done + [t]) && Scanned(done, below, balance, (b, fire))
    ensures FireIs(done + [t], below, balance, if balance <= t && Key(t) !in b then Lower(fire, t) else fire)
  {
    var all := done + [t];
    forall u | u in done ensures u >= t && Key(u) >= Key(t) {
      var i :| 0 <= i < |done| && done[i] == u;
      assert all[i] >= all[|done|];
      KeyMonotone(t, u);
    }
    hide Key, MONEY_SCALE;
    var k := Key(t);
    assert (k in b) == if IsKey(done, k) then Under(done, balance, k) else k in below;
    if balance <= t {
      if k in b {
        if IsKey(done, k) { var u :| u in done && Key(u) == k; }
      } else {
        assert !IsKey(done, k);
        assert forall u | u in done :: Key(u) != k;
      }
    }
  }

  lemma {:induction false} ScanFrom(ts: seq<Amount>, i: nat, below: Keys, balance: Amount, b: Keys, fire: Option<Amount>)
    requires Descending(ts) && i <= |ts| && Scanned(ts[..i], below, balance, (b, fire))
    ensures Scanned(ts, below, balance, Scan(ts[i..], b, balance, fire))
    decreases |ts| - i
  {
    hide FireIs, Key;
    if i == |ts| {
      assert ts[..i] == ts;
    } else {
      var t := ts[i];
      assert ts[..i + 1] == ts[..i] + [t];
      assert ts[i..][0] == t && ts[i..][1..] == ts[i + 1..];
      var c := if balance > t then b - {Key(t)} else b + {Key(t)};
      forall k ensures k in c <==> if IsKey(ts[..i + 1], k) then Under(ts[..i + 1], balance, k) else k in below {
        ScanStepKeys(ts[..i], t, below, balance, b, k);
      }
      ScanStepFire(ts[..i], t, below, balance, b, fire);
      if balance <= t && Key(t) in b { assert c == b; }
      ScanFrom(ts, i + 1, below, balance, c, if balance <= t && Key(t) !in b then Lower(fire, t) else fire);
    }
  }

  /** A whole scan, characterised. */
  lemma ScanResult(ts: seq<Amount>, below: Keys, balance: Amount)
    requires Descending(ts)
    ensures Scanned(ts, below, balance, Scan(ts, below, balance, None))
  {
    assert ts[..0] == [] && ts[0..] == ts;
    ScanFrom(ts, 0, below, balance, below, None);
  }

  lemma {:induction false} RearmedKeys(ts: seq<Amount>, below: Keys, balance: Amount, k: int)
    ensures k in Rearmed(ts, below, balance) <==> k in below && Under(ts, balance, k)
  {
    hide Key;
    if ts != [] {
      RearmedKeys(ts[1..], if balance > ts[0] then below - {Key(ts[0])} else below, balance, k);
      assert forall t :: t in ts <==> t == ts[0] || t in ts[1..];
    }
  }

  // ----- Alerts repeat exactly when rounding merges thresholds across the balance -----

  /** A second report of the same balance raises a second alert exactly when two thresholds that
      round to the same six places lie on either side of it. */
  lemma RepeatedAlertIffStraddled(ts: seq<Amount>, below: Keys, balance: Amount)
    requires Descending(ts)
    ensures var first := Scan(ts, below, balance, None);
            Scan(ts, first.0, balance, None).1.Some? <==>
            exists low, high :: low in ts && high in ts && Key(low) == Key(high) && low < balance <= high
  {
    hide Key;
    var first := Scan(ts, below, balance, None);
    var second := Scan(ts, first.0, balance, None);
    ScanResult(ts, below, balance);
    ScanResult(ts, first.0, balance);
    if second.1.Some? {
      var high := second.1.value;
      assert IsKey(ts, Key(high)) && !Under(ts, balance, Key(high));
    }
    forall low, high | low in ts && high in ts && Key(low) == Key(high) && low < balance <= high
      ensures second.1.Some?
    {
      assert IsKey(ts, Key(high)) && !Under(ts, balance, Key(high));
    }
  }

  /** Thresholds 5.0000003 and 4.9999996 are one key, so a balance of 5 alerts each time. */
  lemma MergedThresholdsRepeat()
    ensures var ts := [5.0000003, 4.9999996];
            forall below: Keys :: Scan(ts, Scan(ts, below, 5.0, None).0, 5.0, None).1.Some?
  {
    var ts := [5.0000003, 4.9999996];
    HalfAwayUnique(ScaleUp(5.0000003, MONEY_SCALE), 5000000);
    HalfAwayUnique(ScaleUp(4.9999996, MONEY_SCALE), 5000000);
    assert ts[0] in ts && ts[1] in ts && Key(ts[0]) == Key(ts[1]);
    forall below: Keys ensures Scan(ts, Scan(ts, below, 5.0, None).0, 5.0, None).1.Some? {
      RepeatedAlertIffStraddled(ts, below, 5.0);
      assert ts[1] < 5.0 <= ts[0];
    }
  }

  // ----- The bounded tracker -----

  /** Keys below per tracked user, and the users in order of last use. */
  datatype Tracker = Tracker(state: map<string, Keys>, order: seq<string>)

  function Without(order: seq<string>, user: string): seq<string> {
    if order == [] then []
    else if order[0] == user then order[1..]
    else [order[0]] + Without(order[1..], user)
  }

  function Evict(t: Tracker, limit: nat): Tracker
    decreases |t.order|
  {
    if |t.order| <= limit then t
    else Evict(Tracker(t.state - {t.order[0]}, t.order[1..]), limit)
  }

  function Touch(t: Tracker, limit: nat, user: string): Tracker {
    if user in t.state then t.(order := Without(t.order, user) + [user])
    else Evict(Tracker(t.state[user := {}], t.order + [user]), limit)
  }

  function KeysOf(state: map<string, Keys>, user: string): Keys {
    if user in state then state[user] else {}
  }

  /** One balance report: the new tracker and the alert. Without thresholds the alert is the
      balance running out. */
  function Emitted(ts: seq<Amount>, limit: nat, t: Tracker, user: string, before: Amount, after: Amount): (Tracker, Option<Amount>) {
    if ts == [] then (t, if before > 0.0 && after <= 0.0 then Some(0.0) else None)
    else
      var touched := Touch(t, limit, user);
      var r := Scan(ts, KeysOf(touched.state, user), after, None);
      (touched.(state := touched.state[user := r.0]), r.1)
  }

  function Recovered(ts: seq<Amount>, t: Tracker, user: string, balance: Amount): Tracker {
    if user !in t.state then t
    else
      var below := Rearmed(ts, t.state[user], balance);
      if below == {} then Tracker(t.state - {user}, Without(t.order, user))
      else t.(state := t.state[user := below])
  }

  /** A user who recovers is remembered exactly if still under some threshold they were under, with just
      those keys; nobody else's memory changes. */
  lemma RecoveryForgetsIff(ts: seq<Amount>, t: Tracker, user: string, balance: Amount)
    ensures var after := Recovered(ts, t, user, balance);
            && (user in after.state <==> user in t.state && exists k :: k in t.state[user] && Under(ts, balance, k))
            && (forall k :: k in KeysOf(after.state, user) <==> k in KeysOf(t.state, user) && Under(ts, balance, k))
            && (forall u | u != user :: (u in after.state <==> u in t.state) && KeysOf(after.state, u) == KeysOf(t.state, u))
  {
    hide Under, Rearmed;
    if user in t.state {
      var below := Rearmed(ts, t.state[user], balance);
      forall k ensures k in below <==> k in t.state[user] && Under(ts, balance, k) {
        RearmedKeys(ts, t.state[user], balance, k);
      }
      if forall k :: k !in below { assert below == {}; }
      assert below != {} <==> exists k :: k in t.state[user] && Under(ts, balance, k);
    }
  }

  ghost predicate NoDuplicates(s: seq<string>) {
    forall i, j :: 0 <= i < j < |s| ==> s[i] != s[j]
  }

  /** The map and the list hold the same users, each once, and no more than the limit. */
  ghost predicate Tight(t: Tracker, limit: nat) {
    && NoDuplicates(t.order)
    && (forall user :: user in t.order <==> user in t.state)
    && |t.order| <= limit
  }

  lemma FreshInFront(first: string, rest: seq<string>)
    requires NoDuplicates(rest) && first !in rest
    ensures NoDuplicates([first] + rest)
  {
    var all := [first] + rest;
    assert forall i | 1 <= i < |all| :: all[i] == rest[i - 1];
  }

  lemma {:induction false} WithoutFacts(order: seq<string>, user: string)
    requires NoDuplicates(order)
    ensures var r := Without(order, user);
            && NoDuplicates(r) && (forall u :: u in r <==> u in order && u != user)
            && |r| == |order| - (if user in order then 1 else 0)
  {
    if order != [] {
      var first, others := order[0], order[1..];
      assert order == [first] + others;
      assert NoDuplicates(others) && first !in others;
      hide NoDuplicates;
      WithoutFacts(others, user);
      if first != user { FreshInFront(first, Without(others, user)); }
    }
  }

  lemma WithoutSkips(order: seq<string>, i: nat, user: string)
    requires i < |order| && order[i] != user
    ensures order[..i] + Without(order[i..], user) == order[..i + 1] + Without(order[i + 1..], user)
  {
    assert order[i..][0] == order[i] && order[i..][1..] == order[i + 1..];
    assert order[..i + 1] == order[..i] + [order[i]];
  }

  lemma MovedToBack(t: Tracker, limit: nat, user: string)
    requires Tight(t, limit) && user in t.state
    ensures Tight(t.(order := Without(t.order, user) + [user]), limit)
  {
    WithoutFacts(t.order, user);
    hide Without;
    var rest := Without(t.order, user);
    assert forall i | 0 <= i < |rest| :: rest[i] in rest;
  }

  lemma PushedBack(t: Tracker, limit: nat, user: string)
    requires Tight(t, limit) && user !in t.state
    ensures Tight(Tracker(t.state[user := {}], t.order + [user]), limit + 1)
  {
    var pushed := Tracker(t.state[user := {}], t.order + [user]);
    assert forall u :: u in pushed.order <==> u in t.order || u == user;
  }

  lemma FrontEvicted(t: Tracker, limit: nat)
    requires Tight(t, limit + 1) && |t.order| == limit + 1
    ensures Tight(Tracker(t.state - {t.order[0]}, t.order[1..]), limit)
  {
    var r := t.order[1..];
    assert t.order == [t.order[0]] + r;
    assert forall i | 0 <= i < |r| :: r[i] == t.order[i + 1];
  }

  /** Touching a user keeps the map and the list tight, tracks the user without changing any keys,
      and drops at most the user longest untouched, only to make room for a new one. */
  lemma TouchFacts(t: Tracker, limit: nat, user: string)
    requires limit >= 1 && Tight(t, limit)
    ensures var r := Touch(t, limit, user);
            && Tight(r, limit) && user in r.state
            && KeysOf(r.state, user) == KeysOf(t.state, user)
            && (forall u | u in r.state && u != user :: u in t.state && r.state[u] == t.state[u])
            && (forall u | u in t.state && u !in r.state :: u == t.order[0] && |t.order| == limit && user !in t.state)
  {
    hide NoDuplicates, Without;
    if user in t.state {
      MovedToBack(t, limit, user);
    } else {
      PushedBack(t, limit, user);
      var pushed := Tracker(t.state[user := {}], t.order + [user]);
      if |pushed.order| > limit {
        assert pushed.order[0] == t.order[0] && t.order[0] in t.order;
        FrontEvicted(pushed, limit);
        var kept := Tracker(pushed.state - {pushed.order[0]}, pushed.order[1..]);
        assert Evict(kept, limit) == kept;
      }
    }
  }

  lemma RecoveredTight(ts: seq<Amount>, t: Tracker, limit: nat, user: string, balance: Amount)
    requires Tight(t, limit)
    ensures Tight(Recovered(ts, t, user, balance), limit)
  {
    WithoutFacts(t.order, user);
    hide NoDuplicates, Without, Rearmed;
  }

  /** The tracker as the service keeps it: two maps and a list, changed under one lock. */
  class LowBalanceTracker {
    const thresholds: seq<Amount>
    const maxTracked: nat
    var state: map<string, Keys>
    var users: set<string>
    var order: seq<string>

    constructor (thresholds: seq<Amount>, maxTracked: nat)
      requires Descending(thresholds) && maxTracked >= 1
      ensures Valid() && this.thresholds == thresholds && this.maxTracked == maxTracked
      ensures Model() == Tracker(map[], [])
    {
      this.thresholds, this.maxTracked := thresholds, maxTracked;
      state, users, order := map[], {}, [];
    }

    ghost function Model(): Tracker
      reads this
    {
      Tracker(state, order)
    }

    ghost predicate Valid()
      reads this
    {
      maxTracked >= 1 && users == state.Keys && Tight(Model(), maxTracked)
    }

    method Remove(user: string)
      modifies this`order
      ensures order == Without(old(order), user)
    {
      var i := 0;
      while i < |order| && order[i] != user
        invariant i <= |order| && order == old(order)
        invariant Without(order, user) == order[..i] + Without(order[i..], user)
      {
        WithoutSkips(order, i, user);
        i := i + 1;
      }
      if i < |order| {
        assert order[i..][0] == user && order[i..][1..] == order[i + 1..];
        order := order[..i] + order[i + 1..];
      } else {
        assert order[..i] + Without(order[i..], user) == order;
      }
    }

    method StateForUser(user: string) returns (below: Keys)
      requires Valid()
      modifies this
      ensures Valid() && Model() == Touch(old(Model()), maxTracked, user)
      ensures user in state && below == state[user] == KeysOf(old(state), user)
    {
      hide Tight, Without;
      TouchFacts(Model(), maxTracked, user);
      if user in users {
        Remove(user);
        order := order + [user];
        return state[user];
      }
      state := state[user := {}];
      users := users + {user};
      order := order + [user];
      ghost var pushed := Model();
      assert Touch(old(Model()), maxTracked, user) == Evict(pushed, maxTracked);
      while |order| > maxTracked
        invariant Evict(pushed, maxTracked) == Evict(Model(), maxTracked)
        invariant users == state.Keys
        decreases |order|
      {
        var oldest := order[0];
        order := order[1..];
        users := users - {oldest};
        state := state - {oldest};
      }
      return state[user];
    }

    method Emit(user: string, before: Amount, after: Amount) returns (fire: Option<Amount>)
      requires Valid()
      modifies this
      ensures Valid() && (Model(), fire) == Emitted(thresholds, maxTracked, old(Model()), user, before, after)
    {
      if |thresholds| == 0 {
        return if before > 0.0 && after <= 0.0 then Some(0.0) else None;
      }
      hide Key;
      var below := StateForUser(user);
      fire := None;
      ghost var start := below;
      for i := 0 to |thresholds|
        invariant Scan(thresholds, start, after, None) == Scan(thresholds[i..], below, after, fire)
      {
        var threshold := thresholds[i];
        assert thresholds[i..][0] == threshold && thresholds[i..][1..] == thresholds[i + 1..];
        var key := Key(threshold);
        if after <= threshold {
          if key !in below {
            below := below + {key};
            if fire.None? || threshold < fire.value { fire := Some(threshold); }
          }
        } else {
          below := below - {key};
        }
      }
      state := state[user := below];
    }

    method Rearm(user: string, balance: Amount)
      requires Valid()
      modifies this
      ensures Valid()
      ensures Model() == if thresholds == [] then old(Model()) else Recovered(thresholds, old(Model()), user, balance)
    {
      if |thresholds| == 0 { return; }
      if user !in state { return; }
      hide Key, Tight, Without;
      RecoveredTight(thresholds, Model(), maxTracked, user, balance);
      var below := state[user];
      ghost var start := below;
      for i := 0 to |thresholds|
        invariant Rearmed(thresholds, start, balance) == Rearmed(thresholds[i..], below, balance)
      {
        assert thresholds[i..][0] == thresholds[i] && thresholds[i..][1..] == thresholds[i + 1..];
        if balance > thresholds[i] { below := below - {Key(thresholds[i])}; }
      }
      state := state[user := below];
      if below == {} {
        state := state - {user};
        assert state == old(state) - {user};
        if user in users {
          Remove(user);
          users := users - {user};
        }
      }
    }
  }

  // ----- Runs: the bounded tracker against an unbounded one -----

  datatype Event =
    | Report(user: string, before: Amount, after: Amount)
    | Recovery(user: string, balance: Amount)

  /** The bounded tracker, an unbounded one fed the same events, and the users whose memory the
      bounded one has dropped and not rebuilt since. */
  datatype World = World(bounded: Tracker, unbounded: map<string, Keys>, lost: set<string>)

  const START := World(Tracker(map[], []), map[], {})

  /** The alerts the two trackers raise on one event. */
  datatype Alerts = Alerts(bounded: Option<Amount>, unbounded: Option<Amount>)

  function Step(ts: seq<Amount>, limit: nat, w: World, e: Event): (World, Alerts) {
    match e
    case Report(user, before, after) =>
      var (t, fire) := Emitted(ts, limit, w.bounded, user, before, after);
      if ts == [] then (w.(bounded := t), Alerts(fire, fire))
      else
        var (keys, expected) := Scan(ts, KeysOf(w.unbounded, user), after, None);
        var dropped := set u | u in w.bounded.state && u !in t.state;
        (World(t, w.unbounded[user := keys], w.lost + dropped - {user}), Alerts(fire, expected))
    case Recovery(user, balance) =>
      if ts == [] then (w, Alerts(None, None))
      else
        var keys := Rearmed(ts, KeysOf(w.unbounded, user), balance);
        (World(Recovered(ts, w.bounded, user, balance), w.unbounded[user := keys], w.lost), Alerts(None, None))
  }

  function Run(ts: seq<Amount>, limit: nat, events: seq<Event>): World {
    if events == [] then START
    else Step(ts, limit, Run(ts, limit, events[..|events| - 1]), events[|events| - 1]).0
  }

  /** Below one key, a balance is below every higher one. */
  ghost predicate UpClosed(ts: seq<Amount>, keys: Keys) {
    && (forall k | k in keys :: IsKey(ts, k))
    && forall k, higher | k in keys && IsKey(ts, higher) && higher >= k :: higher in keys
  }

  ghost predicate Agree(ts: seq<Amount>, limit: nat, w: World) {
    && Tight(w.bounded, limit)
    && w.lost !! w.bounded.state.Keys
    && forall user :: UserAgrees(ts, w, user)
  }

  /** Nothing but a dropped memory makes the two trackers differ about a user. */
  ghost predicate UserAgrees(ts: seq<Amount>, w: World, user: string) {
    && UpClosed(ts, KeysOf(w.unbounded, user))
    && (user !in w.lost ==> KeysOf(w.bounded.state, user) == KeysOf(w.unbounded, user))
  }

  lemma UnderUpward(ts: seq<Amount>, balance: Amount, k: int, higher: int)
    requires Under(ts, balance, k) && IsKey(ts, k) && k <= higher
    ensures Under(ts, balance, higher)
  {
    var t :| t in ts && Key(t) == k;
    forall h | h in ts && Key(h) == higher ensures balance <= h {
      if h < t { KeyMonotone(h, t); }
    }
    hide Key;
  }

  lemma ScanUpClosed(ts: seq<Amount>, keys: Keys, balance: Amount)
    requires Descending(ts) && UpClosed(ts, keys)
    ensures UpClosed(ts, Scan(ts, keys, balance, None).0)
  {
    hide Key, FireIs;
    ScanResult(ts, keys, balance);
    var r := Scan(ts, keys, balance, None).0;
    forall k, higher | k in r && IsKey(ts, higher) && higher >= k ensures higher in r {
      hide Scan;
      UnderUpward(ts, balance, k, higher);
    }
  }

  lemma RearmUpClosed(ts: seq<Amount>, keys: Keys, balance: Amount)
    requires UpClosed(ts, keys)
    ensures UpClosed(ts, Rearmed(ts, keys, balance))
  {
    hide Key;
    var r := Rearmed(ts, keys, balance);
    forall k ensures k in r <==> k in keys && Under(ts, balance, k) {
      RearmedKeys(ts, keys, balance, k);
    }
    forall k, higher | k in r && IsKey(ts, higher) && higher >= k ensures higher in r {
      hide Rearmed;
      UnderUpward(ts, balance, k, higher);
    }
  }

  /** Forgetting what was below leaves the same keys afterwards and can only add an alert: where
      the full memory raises one, it is the same one. */
  lemma ForgettingScan(ts: seq<Amount>, keys: Keys, balance: Amount)
    requires Descending(ts) && UpClosed(ts, keys)
    ensures var kept, blank := Scan(ts, keys, balance, None), Scan(ts, {}, balance, None);
            kept.0 == blank.0 && (kept.1.Some? ==> blank.1 == kept.1)
  {
    hide Key, Scan;
    ScanResult(ts, keys, balance);
    ScanResult(ts, {}, balance);
    var kept, blank := Scan(ts, keys, balance, None), Scan(ts, {}, balance, None);
    forall k ensures k in kept.0 <==> k in blank.0 {
      if k in keys { assert IsKey(ts, k); }
    }
    if kept.1.Some? {
      var x := kept.1.value;
      assert blank.1.Some?;
      var y := blank.1.value;
      assert Key(y) <= Key(x);
      assert IsKey(ts, Key(x)) && Key(y) !in keys;
    }
  }

  lemma ReportKeepsAgreement(ts: seq<Amount>, limit: nat, w: World, user: string, before: Amount, after: Amount)
    requires Descending(ts) && ts != [] && limit >= 1 && Agree(ts, limit, w)
    ensures var (next, alerts) := Step(ts, limit, w, Report(user, before, after));
            && Agree(ts, limit, next)
            && (alerts.unbounded.Some? ==> alerts.bounded == alerts.unbounded)
            && (alerts.bounded != alerts.unbounded ==> user in w.lost)
            && user !in next.lost
  {
    var touched := Touch(w.bounded, limit, user);
    TouchFacts(w.bounded, limit, user);
    var keys := KeysOf(w.unbounded, user);
    assert UserAgrees(ts, w, user);
    ScanUpClosed(ts, keys, after);
    ForgettingScan(ts, keys, after);
    assert user in w.lost ==> KeysOf(touched.state, user) == {};
    hide Touch, Scan, UpClosed, NoDuplicates;
    var next := Step(ts, limit, w, Report(user, before, after)).0;
    forall u ensures UserAgrees(ts, next, u) {
      if u != user {
        assert UserAgrees(ts, w, u);
        assert KeysOf(next.unbounded, u) == KeysOf(w.unbounded, u);
      }
    }
  }

  lemma RecoveryKeepsAgreement(ts: seq<Amount>, limit: nat, w: World, user: string, balance: Amount)
    requires Descending(ts) && ts != [] && limit >= 1 && Agree(ts, limit, w)
    ensures Agree(ts, limit, Step(ts, limit, w, Recovery(user, balance)).0)
  {
    RecoveredTight(ts, w.bounded, limit, user, balance);
    var keys := KeysOf(w.unbounded, user);
    assert UserAgrees(ts, w, user);
    RearmUpClosed(ts, keys, balance);
    NothingToRearm(ts, balance);
    hide Rearmed, UpClosed, Tight, Without;
    var next := Step(ts, limit, w, Recovery(user, balance)).0;
    forall u ensures UserAgrees(ts, next, u) {
      assert UserAgrees(ts, w, u);
      if u != user {
        assert KeysOf(next.unbounded, u) == KeysOf(w.unbounded, u);
        assert KeysOf(next.bounded.state, u) == KeysOf(w.bounded.state, u);
      }
    }
  }

  lemma NothingToRearm(ts: seq<Amount>, balance: Amount)
    ensures Rearmed(ts, {}, balance) == {}
  {
    forall k ensures k !in Rearmed(ts, {}, balance) { RearmedKeys(ts, {}, balance, k); }
  }

  /** After every run the two trackers agree on every user not lost, and the bounded one is tight. */
  lemma {:induction false} RunAgrees(ts: seq<Amount>, limit: nat, events: seq<Event>)
    requires Descending(ts) && limit >= 1
    ensures Agree(ts, limit, Run(ts, limit, events))
  {
    if events != [] {
      var before := events[..|events| - 1];
      RunAgrees(ts, limit, before);
      var w := Run(ts, limit, before);
      assert Run(ts, limit, events) == Step(ts, limit, w, events[|events| - 1]).0;
      hide Agree, Run;
      if ts != [] {
        match events[|events| - 1]
        case Report(user, b, a) => ReportKeepsAgreement(ts, limit, w, user, b, a);
        case Recovery(user, b) => RecoveryKeepsAgreement(ts, limit, w, user, b);
      }
    }
  }

  /** Refinement over whole runs: at every event, where the unbounded tracker alerts, the bounded
      one raises the same alert; an alert of its own comes only for a user whose memory it has
      dropped and not rebuilt, and that report rebuilds it. */
  lemma BoundedRefinesUnbounded(ts: seq<Amount>, limit: nat, events: seq<Event>, e: Event)
    requires Descending(ts) && limit >= 1
    ensures var w := Run(ts, limit, events);
            var (next, alerts) := Step(ts, limit, w, e);
            && (alerts.unbounded.Some? ==> alerts.bounded == alerts.unbounded)
            && (alerts.bounded != alerts.unbounded ==> e.user in w.lost && e.user !in next.lost)
  {
    RunAgrees(ts, limit, events);
    hide Agree, Run, Emitted, Recovered;
    if ts != [] && e.Report? {
      ReportKeepsAgreement(ts, limit, Run(ts, limit, events), e.user, e.before, e.after);
    }
  }

  function Users(events: seq<Event>): set<string> {
    set i | 0 <= i < |events| :: events[i].user
  }

  lemma {:induction false} NobodyLost(ts: seq<Amount>, limit: nat, events: seq<Event>)
    requires Descending(ts) && limit >= 1 && |Users(events)| <= limit
    ensures var w := Run(ts, limit, events);
            w.lost == {} && w.bounded.state.Keys <= Users(events)
  {
    if events != [] {
      var before := events[..|events| - 1];
      var e := events[|events| - 1];
      assert events == before + [e];
      assert Users(before) <= Users(events);
      SubsetSize(Users(before), Users(events));
      NobodyLost(ts, limit, before);
      RunAgrees(ts, limit, before);
      var w := Run(ts, limit, before);
      if ts != [] && e.Report? {
        TouchFacts(w.bounded, limit, e.user);
        if e.user !in w.bounded.state {
          OrderSize(w.bounded, limit);
          SubsetSize(w.bounded.state.Keys + {e.user}, Users(events));
        }
      }
    }
  }

  lemma {:induction false} SubsetSize(a: set<string>, b: set<string>)
    requires a <= b
    ensures |a| <= |b|
  {
    assert |a| + |b - a| == |b| by { assert a + (b - a) == b; }
  }

  lemma OrderSize(t: Tracker, limit: nat)
    requires Tight(t, limit)
    ensures |t.order| == |t.state.Keys|
  {
    CountDistinct(t.order, t.state.Keys);
  }

  lemma {:induction false} CountDistinct(s: seq<string>, elements: set<string>)
    requires NoDuplicates(s) && forall u :: u in s <==> u in elements
    ensures |s| == |elements|
  {
    if s != [] {
      assert s == [s[0]] + s[1..];
      CountDistinct(s[1..], elements - {s[0]});
    }
  }

  /** With no more users than the limit, bounded and unbounded raise exactly the same alerts. */
  lemma EnoughRoomIsExact(ts: seq<Amount>, limit: nat, events: seq<Event>, e: Event)
    requires Descending(ts) && limit >= 1 && |Users(events + [e])| <= limit
    ensures var alerts := Step(ts, limit, Run(ts, limit, events), e).1;
            alerts.bounded == alerts.unbounded
  {
    assert Users(events) <= Users(events + [e]) by {
      forall i | 0 <= i < |events| ensures events[i].user in Users(events + [e]) {
        assert (events + [e])[i] == events[i];
      }
    }
    SubsetSize(Users(events), Users(events + [e]));
    NobodyLost(ts, limit, events);
    BoundedRefinesUnbounded(ts, limit, events, e);
  }

  // ----- Who is forgotten first -----

  /** The position of the user's latest report, or -1. */
  function LastReport(events: seq<Event>, user: string): int {
    if events == [] then -1
    else
      var e := events[|events| - 1];
      if e.Report? && e.user == user then |events| - 1 else LastReport(events[..|events| - 1], user)
  }

  lemma {:induction false} LastReportBounds(events: seq<Event>, user: string)
    ensures -1 <= LastReport(events, user) < |events|
  {
    if events != [] { LastReportBounds(events[..|events| - 1], user); }
  }

  /** The list goes from the user reported on longest ago to the one reported on last. */
  ghost predicate ByRecency(order: seq<string>, events: seq<Event>) {
    forall i, j | 0 <= i < j < |order| :: LastReport(events, order[i]) < LastReport(events, order[j])
  }

  lemma {:induction false} WithoutKeepsOrder(order: seq<string>, user: string, events: seq<Event>)
    requires ByRecency(order, events)
    ensures ByRecency(Without(order, user), events)
    ensures forall u | u in Without(order, user) :: u in order
  {
    if order != [] {
      var rest := order[1..];
      assert forall i | 0 <= i < |rest| :: rest[i] == order[i + 1];
      WithoutKeepsOrder(rest, user, events);
      if order[0] != user {
        var kept := Without(rest, user);
        forall j | 0 <= j < |kept| ensures LastReport(events, order[0]) < LastReport(events, kept[j]) {
          assert kept[j] in rest;
          var k :| 0 <= k < |rest| && rest[k] == kept[j];
          assert order[k + 1] == kept[j];
        }
      }
    }
  }

  /** One more event leaves the order by recency of everybody it is not a report on. */
  lemma RecencySurvives(order: seq<string>, events: seq<Event>, e: Event)
    requires ByRecency(order, events) && (e.Report? ==> e.user !in order)
    ensures ByRecency(order, events + [e])
  {
    assert (events + [e])[..|events|] == events;
    forall i | 0 <= i < |order| ensures LastReport(events + [e], order[i]) == LastReport(events, order[i]) {
      assert order[i] in order;
    }
  }

  lemma ReportedLast(order: seq<string>, events: seq<Event>, e: Event)
    requires ByRecency(order, events) && e.Report? && e.user !in order
    ensures ByRecency(order + [e.user], events + [e])
  {
    RecencySurvives(order, events, e);
    assert (events + [e])[..|events|] == events;
    forall i | 0 <= i < |order| ensures LastReport(events + [e], order[i]) < |events| {
      assert order[i] in order;
      LastReportBounds(events, order[i]);
    }
  }

  lemma TouchKeepsRecency(t: Tracker, limit: nat, events: seq<Event>, e: Event)
    requires limit >= 1 && Tight(t, limit) && ByRecency(t.order, events) && e.Report?
    ensures ByRecency(Touch(t, limit, e.user).order, events + [e])
  {
    if e.user in t.state {
      WithoutFacts(t.order, e.user);
      WithoutKeepsOrder(t.order, e.user, events);
      ReportedLast(Without(t.order, e.user), events, e);
    } else {
      assert e.user !in t.order;
      ReportedLast(t.order, events, e);
      var pushed := Tracker(t.state[e.user := {}], t.order + [e.user]);
      hide LastReport, NoDuplicates;
      if |pushed.order| > limit {
        var kept := Tracker(pushed.state - {pushed.order[0]}, pushed.order[1..]);
        assert Evict(kept, limit) == kept;
        assert forall i | 0 <= i < |kept.order| :: kept.order[i] == pushed.order[i + 1];
      }
    }
  }

  /** After every run the list is ordered by latest report. */
  lemma {:induction false} RunKeepsRecency(ts: seq<Amount>, limit: nat, events: seq<Event>)
    requires Descending(ts) && limit >= 1
    ensures ByRecency(Run(ts, limit, events).bounded.order, events)
    ensures ts == [] ==> Run(ts, limit, events).bounded.order == []
  {
    if events != [] {
      var before, e := events[..|events| - 1], events[|events| - 1];
      assert events == before + [e];
      RunKeepsRecency(ts, limit, before);
      RunAgrees(ts, limit, before);
      var w := Run(ts, limit, before);
      assert Run(ts, limit, events) == Step(ts, limit, w, e).0;
      assert Tight(w.bounded, limit);
      StepKeepsRecency(ts, limit, w, before, e);
    }
  }

  lemma StepKeepsRecency(ts: seq<Amount>, limit: nat, w: World, events: seq<Event>, e: Event)
    requires limit >= 1 && Tight(w.bounded, limit) && ByRecency(w.bounded.order, events)
    requires ts == [] ==> w.bounded.order == []
    ensures ByRecency(Step(ts, limit, w, e).0.bounded.order, events + [e])
  {
    if ts != [] {
      match e {
        case Report(user, before, after) =>
          TouchKeepsRecency(w.bounded, limit, events, e);
        case Recovery(user, balance) =>
          WithoutKeepsOrder(w.bounded.order, user, events);
          RecencySurvives(w.bounded.order, events, e);
          RecencySurvives(Without(w.bounded.order, user), events, e);
      }
    }
  }

  /** Memory is dropped only to make room for a user not remembered, when the limit is reached, and
      then it is that of the remembered user reported on longest ago. */
  lemma LeastRecentIsDropped(ts: seq<Amount>, limit: nat, events: seq<Event>, user: string, before: Amount, after: Amount,
                             victim: string, other: string)
    requires Descending(ts) && limit >= 1
    ensures var w := Run(ts, limit, events);
            var next := Step(ts, limit, w, Report(user, before, after)).0;
            victim in w.bounded.state && victim !in next.bounded.state ==>
              && user !in w.bounded.state && |w.bounded.order| == limit
              && (other in w.bounded.state && other != victim ==> LastReport(events, victim) < LastReport(events, other))
  {
    RunAgrees(ts, limit, events);
    RunKeepsRecency(ts, limit, events);
    var w := Run(ts, limit, events);
    TouchFacts(w.bounded, limit, user);
    hide Run, Scan, Touch, LastReport, NoDuplicates;
    var next := Step(ts, limit, w, Report(user, before, after)).0;
    if victim in w.bounded.state && victim !in next.bounded.state && other in w.bounded.state && other != victim {
      assert victim == w.bounded.order[0];
      assert other in w.bounded.order;
      var i :| 0 <= i < |w.bounded.order| && w.bounded.order[i] == other;
    }
  }

  // ----- What the unbounded tracker remembers -----

  predicate Concerns(e: Event, user: string) {
    e.user == user
  }

  function BalanceOf(e: Event): Amount {
    if e.Report? then e.after else e.balance
  }

  /** Some report put the user's balance under the key, and no event since has lifted it. */
  ghost predicate StillUnder(ts: seq<Amount>, events: seq<Event>, user: string, k: int) {
    exists i | 0 <= i < |events| ::
      && events[i].Report? && Concerns(events[i], user)
      && forall j | i <= j < |events| && Concerns(events[j], user) :: Under(ts, BalanceOf(events[j]), k)
  }

  lemma StillUnderStep(ts: seq<Amount>, before: seq<Event>, e: Event, user: string, k: int)
    ensures StillUnder(ts, before + [e], user, k) <==>
            if !Concerns(e, user) then StillUnder(ts, before, user, k)
            else Under(ts, BalanceOf(e), k) && (e.Report? || StillUnder(ts, before, user, k))
  {
    hide Under;
    var events := before + [e];
    var n := |before|;
    assert events[n] == e && forall i | 0 <= i < n :: events[i] == before[i];
    if StillUnder(ts, before, user, k) && (Concerns(e, user) ==> Under(ts, BalanceOf(e), k)) {
      var i :| 0 <= i < n && before[i].Report? && Concerns(before[i], user)
               && forall j | i <= j < n && Concerns(before[j], user) :: Under(ts, BalanceOf(before[j]), k);
      assert events[i].Report? && Concerns(events[i], user);
      assert forall j | i <= j < n :: events[j] == before[j];
    }
    if StillUnder(ts, events, user, k) {
      var i :| 0 <= i < |events| && events[i].Report? && Concerns(events[i], user)
               && forall j | i <= j < |events| && Concerns(events[j], user) :: Under(ts, BalanceOf(events[j]), k);
      if i < n {
        assert before[i].Report? && Concerns(before[i], user);
        assert forall j | i <= j < n && Concerns(before[j], user) :: Under(ts, BalanceOf(before[j]), k) by {
          forall j | i <= j < n && Concerns(before[j], user) ensures Under(ts, BalanceOf(before[j]), k) {
            assert events[j] == before[j];
          }
        }
      }
    }
  }

  /** The unbounded memory, said as history: a key is below exactly when some report put the
      balance under it and nothing since has lifted it. */
  lemma {:induction false} MemoryIsHistory(ts: seq<Amount>, limit: nat, events: seq<Event>, user: string, k: int)
    requires Descending(ts) && ts != [] && limit >= 1 && IsKey(ts, k)
    ensures k in KeysOf(Run(ts, limit, events).unbounded, user) <==> StillUnder(ts, events, user, k)
  {
    if events != [] {
      var before := events[..|events| - 1];
      var e := events[|events| - 1];
      assert events == before + [e];
      MemoryIsHistory(ts, limit, before, user, k);
      StillUnderStep(ts, before, e, user, k);
      hide StillUnder, Under, IsKey, Emitted, Recovered;
      var keys := KeysOf(Run(ts, limit, before).unbounded, user);
      ScanKeys(ts, keys, BalanceOf(e), k);
      RearmedKeys(ts, keys, BalanceOf(e), k);
      hide Scan, Rearmed;
    }
  }

  lemma ScanKeys(ts: seq<Amount>, keys: Keys, balance: Amount, k: int)
    requires Descending(ts) && IsKey(ts, k)
    ensures k in Scan(ts, keys, balance, None).0 <==> Under(ts, balance, k)
  {
    hide FireIs, Scan;
    ScanResult(ts, keys, balance);
  }

  // ----- Without thresholds -----

  /** Without thresholds a report alerts exactly when the balance runs out with it, and nothing is
      remembered. */
  lemma RunningOutAlerts(limit: nat, t: Tracker, user: string, before: Amount, after: Amount)
    ensures var r := Emitted([], limit, t, user, before, after);
            && r.0 == t
            && (r.1.Some? <==> after <= 0.0 < before)
            && (r.1.Some? ==> r.1.value == 0.0)
  {
  }
}
