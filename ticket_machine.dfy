/**
 * The ticket machine block: a start station, one output slot that printed
 * tickets go into, and a store of coins by coin id.
 */
module TicketMachine {
  import opened Wrappers
  import opened Nbt
  import opened Gate
  import opened Text
  import LineData
  import RouteGraph

  /** getOrDefault(k, 0). */
  function Count(m: map<string, int>, k: string): int
  {
    if k in m then m[k] else 0
  }

  /** The store after depositing `coins`: every coin id of either map, its counts added. */
  function Deposited(stored: map<string, int>, coins: map<string, int>): (r: map<string, int>)
    ensures r.Keys == stored.Keys + coins.Keys
    ensures forall k :: k in r ==> r[k] == Count(stored, k) + Count(coins, k)
  {
    map k | k in stored.Keys + coins.Keys :: Count(stored, k) + Count(coins, k)
  }

  /** The entries of `m` whose keys are among `keys`. */
  function Restrict(m: map<string, int>, keys: seq<string>): (r: map<string, int>)
    ensures r.Keys == m.Keys * set k | k in keys
    ensures forall k :: k in r ==> r[k] == m[k]
  {
    map k | k in m && k in keys :: m[k]
  }

  /** Some key of a non-empty map. */
  ghost function Pick(m: map<string, int>): (k: string)
    requires m != map[]
    ensures k in m
  {
    var k :| k in m; k
  }

  /** The copper value of the coins in `m`, each coin id priced by `value`, in no particular order. */
  ghost function Worth(m: map<string, int>, value: string -> int): int
    decreases |m|
  {
    if m == map[] then 0
    else
      var k := Pick(m);
      assert |m - {k}| < |m| by { assert (m - {k}).Keys == m.Keys - {k}; }
      value(k) * m[k] + Worth(m - {k}, value)
  }

  /** Any coin id may be the one taken out first: the worth does not depend on the order. */
  lemma {:induction false} WorthRemove(m: map<string, int>, value: string -> int, k: string)
    requires k in m
    ensures Worth(m, value) == value(k) * m[k] + Worth(m - {k}, value)
    decreases |m|
  {
    var j := Pick(m);
    assert (m - {j}).Keys == m.Keys - {j};
    if j != k {
      assert (m - {k}).Keys == m.Keys - {k};
      WorthRemove(m - {j}, value, k);
      WorthRemove(m - {k}, value, j);
      assert m - {j} - {k} == m - {k} - {j};
    }
  }

  /** Raising one coin id's count by `n` raises the worth by that coin's value times `n`. */
  lemma Bump(stored: map<string, int>, value: string -> int, k: string, n: int)
    ensures Worth(stored[k := Count(stored, k) + n], value) == Worth(stored, value) + value(k) * n
  {
    var stored' := stored[k := Count(stored, k) + n];
    WorthRemove(stored', value, k);
    if k in stored {
      WorthRemove(stored, value, k);
      assert stored' - {k} == stored - {k};
      assert value(k) * (stored[k] + n) == value(k) * stored[k] + value(k) * n;
    } else {
      assert stored' - {k} == stored;
    }
  }

  /** A deposit is its first coin id moved into the store, then the rest deposited. */
  lemma DepositFirst(stored: map<string, int>, coins: map<string, int>, k: string)
    requires k in coins
    ensures Deposited(stored, coins) == Deposited(stored[k := Count(stored, k) + coins[k]], coins - {k})
  {
  }

  /** Depositing no coins leaves the store as it is. */
  lemma DepositNothing(stored: map<string, int>)
    ensures Deposited(stored, map[]) == stored
  {
  }

  /** One induction step of DepositWorth: the first coin id moved into the store, given the claim for the rest. */
  lemma DepositWorthStep(stored: map<string, int>, coins: map<string, int>, value: string -> int, k: string)
    requires k in coins
    requires var moved := stored[k := Count(stored, k) + coins[k]];
             Worth(Deposited(moved, coins - {k}), value) == Worth(moved, value) + Worth(coins - {k}, value)
    ensures Worth(Deposited(stored, coins), value) == Worth(stored, value) + Worth(coins, value)
  {
    var moved := stored[k := Count(stored, k) + coins[k]];
    DepositFirst(stored, coins, k);
    Bump(stored, value, k, coins[k]);
    WorthRemove(coins, value, k);
  }

  /** Depositing coins raises the copper value of the store by the copper value of the deposit. */
  lemma {:induction false} DepositWorth(stored: map<string, int>, coins: map<string, int>, value: string -> int)
    ensures Worth(Deposited(stored, coins), value) == Worth(stored, value) + Worth(coins, value)
    decreases |coins|
  {
    if coins != map[] {
      var k := Pick(coins);
      assert (coins - {k}).Keys == coins.Keys - {k};
      DepositWorth(stored[k := Count(stored, k) + coins[k]], coins - {k}, value);
      DepositWorthStep(stored, coins, value, k);
    } else {
      DepositNothing(stored);
    }
  }

  /** One more key of an enumeration order taken into a restriction. */
  lemma RestrictStep(m: map<string, int>, order: seq<string>, i: int)
    requires RouteGraph.Enumerates(order, m) && 0 <= i < |order|
    ensures order[i] in m && order[i] !in Restrict(m, order[..i])
    ensures Restrict(m, order[..i + 1]) == Restrict(m, order[..i])[order[i] := m[order[i]]]
  {
    assert order[..i + 1] == order[..i] + [order[i]];
    assert order[i] !in order[..i] by {
      forall j | 0 <= j < i ensures order[j] != order[i] {
        assert NoDup(order);
      }
    }
  }

  /** The coins of no key of an order are worth nothing. */
  lemma WorthNone(m: map<string, int>, order: seq<string>, value: string -> int)
    ensures Worth(Restrict(m, order[..0]), value) == 0
  {
    assert Restrict(m, order[..0]) == map[];
  }

  /** Counting one more key of an enumeration order adds that coin's value times its count. */
  lemma WorthNext(m: map<string, int>, order: seq<string>, i: int, value: string -> int)
    requires RouteGraph.Enumerates(order, m) && 0 <= i < |order|
    ensures order[i] in m
    ensures Worth(Restrict(m, order[..i + 1]), value) == Worth(Restrict(m, order[..i]), value) + value(order[i]) * m[order[i]]
  {
    var id := order[i];
    RestrictStep(m, order, i);
    var next := Restrict(m, order[..i + 1]);
    WorthRemove(next, value, id);
    assert next - {id} == Restrict(m, order[..i]);
  }

  /** The coins of every key of an enumeration order are worth what the whole map is. */
  lemma WorthAll(m: map<string, int>, order: seq<string>, value: string -> int)
    requires RouteGraph.Enumerates(order, m)
    ensures Worth(Restrict(m, order[..|order|]), value) == Worth(m, value)
  {
    RestrictAll(m, order);
  }

  /** A restriction to a whole enumeration order is the map itself. */
  lemma RestrictAll(m: map<string, int>, order: seq<string>)
    requires RouteGraph.Enumerates(order, m)
    ensures Restrict(m, order[..|order|]) == m
  {
    assert order[..|order|] == order;
  }

  /** Depositing the coins of one more key of an enumeration order, one coin id at a time. */
  lemma DepositNext(stored: map<string, int>, coins: map<string, int>, order: seq<string>, i: int, d: map<string, int>)
    requires RouteGraph.Enumerates(order, coins) && 0 <= i < |order|
    requires d == Deposited(stored, Restrict(coins, order[..i]))
    ensures order[i] in coins
    ensures Deposited(stored, Restrict(coins, order[..i + 1])) == d[order[i] := Count(d, order[i]) + coins[order[i]]]
  {
    RestrictStep(coins, order, i);
    DepositStep(stored, Restrict(coins, order[..i]), order[i], coins[order[i]]);
  }

  /** Depositing the coins of no key of an order leaves the store as it is. */
  lemma DepositNone(stored: map<string, int>, coins: map<string, int>, order: seq<string>)
    ensures Deposited(stored, Restrict(coins, order[..0])) == stored
  {
    assert Restrict(coins, order[..0]) == map[];
    DepositNothing(stored);
  }

  /** Depositing the coins of a whole enumeration order is depositing them all. */
  lemma DepositAll(stored: map<string, int>, coins: map<string, int>, order: seq<string>)
    requires RouteGraph.Enumerates(order, coins)
    ensures Deposited(stored, Restrict(coins, order[..|order|])) == Deposited(stored, coins)
  {
    RestrictAll(coins, order);
  }

  /** Depositing one more coin id adds its amount to the deposited store. */
  lemma DepositStep(stored: map<string, int>, coins: map<string, int>, k: string, n: int)
    requires k !in coins
    ensures Deposited(stored, coins[k := n]) == Deposited(stored, coins)[k := Count(Deposited(stored, coins), k) + n]
  {
  }

  /** A printed ticket's NBT: the machine's start station, the destination, the issue time, the price and status UNUSED. */
  function TicketTag(ticketId: string, start: string, destination: string, now: int, price: int): Tag
  {
    map["TicketId" := StrV(ticketId), "StartStation" := StrV(start), "Destination" := StrV(destination),
        "IssueTime" := LongV(now), "Price" := IntV(price), "Status" := StrV(Unused)]
  }

  /** The NBT saved for a machine's start station and coin store. */
  function Saved(start: string, coins: map<string, int>): Tag
  {
    map["StartStation" := StrV(start), "StoredCoins" := IntsV(coins)]
  }

  class Machine {
    var startStation: string
    /** The single output slot. */
    var slot: Stack
    var storedCoins: map<string, int>

    constructor ()
      ensures startStation == "" && storedCoins == map[] && slot.count == 0
    {
      startStation := "";
      storedCoins := map[];
      slot := Stack(false, 0, None);
    }

    /** setStartStation: a missing, empty or unchanged station changes nothing. */
    method SetStartStation(station: Option<string>)
      modifies this
      ensures startStation == if station.Some? && station.value != "" then station.value else old(startStation)
      ensures slot == old(slot) && storedCoins == old(storedCoins)
    {
      if station.Some? && station.value != "" && station.value != startStation {
        startStation := station.value;
      }
    }

    /** canPrintTicket: the output slot is empty. */
    function CanPrintTicket(): (r: bool)
      reads this
      ensures r <==> slot.count == 0
    {
      slot.count == 0
    }

    /**
     * printTicket: with a start station and a destination, puts one fresh
     * ticket into the output slot, replacing whatever was there; otherwise
     * nothing happens. The ticket id, the clock and the price are parameters.
     */
    method PrintTicket(destination: string, ticketId: string, now: int, price: int)
      modifies this
      ensures startStation == old(startStation) && storedCoins == old(storedCoins)
      ensures old(startStation) == "" || destination == "" ==> slot == old(slot)
      ensures old(startStation) != "" && destination != "" ==>
                slot == Stack(true, 1, Some(TicketTag(ticketId, old(startStation), destination, now, price)))
    {
      if startStation == "" || destination == "" {
        return;
      }
      slot := Stack(true, 1, Some(TicketTag(ticketId, startStation, destination, now, price)));
    }

    /** addCoins: each coin id's count rises by its amount, visiting the deposit in the map's iteration order. */
    method AddCoins(coins: map<string, int>, order: seq<string>)
      requires RouteGraph.Enumerates(order, coins)
      modifies this
      ensures storedCoins == Deposited(old(storedCoins), coins)
      ensures startStation == old(startStation) && slot == old(slot)
    {
      ghost var s0 := storedCoins;
      DepositNone(s0, coins, order);
      for i := 0 to |order|
        invariant storedCoins == Deposited(s0, Restrict(coins, order[..i]))
        invariant startStation == old(startStation) && slot == old(slot)
      {
        var id := order[i];
        DepositNext(s0, coins, order, i, storedCoins);
        storedCoins := storedCoins[id := Count(storedCoins, id) + coins[id]];
      }
      DepositAll(s0, coins, order);
    }

    /** withdrawCoins: hands over a copy of the store and empties it. */
    method WithdrawCoins() returns (coins: map<string, int>)
      modifies this
      ensures coins == old(storedCoins) && storedCoins == map[]
      ensures startStation == old(startStation) && slot == old(slot)
    {
      coins := storedCoins;
      storedCoins := map[];
    }

    /** getTotalCopperValue: sums value × count over the store, in its iteration order. */
    method TotalCopperValue(order: seq<string>, value: string -> int) returns (total: int)
      requires RouteGraph.Enumerates(order, storedCoins)
      ensures total == Worth(storedCoins, value)
    {
      total := 0;
      WorthNone(storedCoins, order, value);
      for i := 0 to |order|
        invariant total == Worth(Restrict(storedCoins, order[..i]), value)
      {
        var id := order[i];
        WorthNext(storedCoins, order, i, value);
        total := total + value(id) * storedCoins[id];
      }
      WorthAll(storedCoins, order, value);
    }

    /** saveAdditional: the start station and the coin store, copied entry by entry in the store's iteration order. */
    method Save(order: seq<string>) returns (t: Tag)
      requires RouteGraph.Enumerates(order, storedCoins)
      ensures t == Saved(startStation, storedCoins)
    {
      var coinsTag: map<string, int> := map[];
      var i := 0;
      while i < |order|
        invariant 0 <= i <= |order|
        invariant coinsTag == Restrict(storedCoins, order[..i])
      {
        RestrictStep(storedCoins, order, i);
        coinsTag := coinsTag[order[i] := storedCoins[order[i]]];
        i := i + 1;
      }
      RestrictAll(storedCoins, order);
      t := map["StartStation" := StrV(startStation), "StoredCoins" := IntsV(coinsTag)];
    }

    /** load: the start station, and the coin store cleared and refilled from the saved compound in its key order. */
    method Load(t: Tag, order: seq<string>)
      requires RouteGraph.Enumerates(order, GetInts(t, "StoredCoins"))
      modifies this
      ensures startStation == GetString(t, "StartStation")
      ensures storedCoins == GetInts(t, "StoredCoins")
      ensures slot == old(slot)
    {
      startStation := GetString(t, "StartStation");
      var coinsTag := GetInts(t, "StoredCoins");
      storedCoins := map[];
      var i := 0;
      while i < |order|
        invariant 0 <= i <= |order|
        invariant storedCoins == Restrict(coinsTag, order[..i])
        invariant slot == old(slot) && startStation == GetString(t, "StartStation")
      {
        RestrictStep(coinsTag, order, i);
        storedCoins := storedCoins[order[i] := coinsTag[order[i]]];
        i := i + 1;
      }
      RestrictAll(coinsTag, order);
    }
  }

  /** Saving then loading restores the start station and the coin store exactly. */
  lemma SaveLoad(start: string, coins: map<string, int>)
    ensures GetString(Saved(start, coins), "StartStation") == start
    ensures GetInts(Saved(start, coins), "StoredCoins") == coins
  {
  }

  /**
   * A freshly printed ticket carries none of the marks the same-gate checks
   * read, and it passes an entry gate at its start station within its
   * travel time, then an exit gate at its destination, ending COMPLETED.
   */
  lemma {:induction false} PrintedTicketJourney(ticketId: string, start: string, destination: string, issued: int, price: int,
                                                entry: GateConfig, exit: GateConfig, t1: int, t2: int, parsesAsUuid: string -> bool)
    requires start != "" && destination != "" && parsesAsUuid(ticketId)
    requires entry.gateType != Out && entry.stationId == start
    requires exit.gateType != In && exit.stationId == destination
    requires JavaDiv(t1 - issued, 60000) <= entry.maxTravelMinutes
    requires JavaDiv(t2 - issued, 60000) <= exit.maxTravelMinutes
    ensures var ticket := Stack(true, 1, Some(TicketTag(ticketId, start, destination, issued, price)));
            Unmarked(ticket.tag.value)
            && CheckTicket(entry, ticket, t1, parsesAsUuid) == Pass
            && var inside := Passed(entry, ticket, t1);
               GetString(inside.tag.value, "Status") == InUse
               && CheckTicket(exit, inside, t2, parsesAsUuid) == Pass
               && GetString(Passed(exit, inside, t2).tag.value, "Status") == Completed
  {
    var tag := TicketTag(ticketId, start, destination, issued, price);
    var ticket := Stack(true, 1, Some(tag));
    assert GetString(tag, "Status") == Unused;
    assert GetString(tag, "TicketId") == ticketId;
    assert GetNumber(tag, "IssueTime") == issued;
    assert IsEntry(entry, tag);
    var inside := Passed(entry, ticket, t1);
    var tag1 := inside.tag.value;
    assert GetString(tag1, "StartStation") == start && GetString(tag1, "Destination") == destination;
    assert GetString(tag1, "TicketId") == ticketId && GetNumber(tag1, "IssueTime") == issued;
    assert !IsEntry(exit, tag1);
    SameGateNeverFires(entry, ticket, t1, parsesAsUuid);
  }
}
