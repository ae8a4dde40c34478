/**
 * The database the handlers share through one connection pool, held in memory:
 * the four tables and the value `NOW()` returns, an abstract clock that only
 * moves forward.
 */
module Database {
  import opened Tables

  class Db {
    var users: seq<User>
    var resources: seq<Resource>
    var orders: map<int, Order>
    var nextOrderId: int       // the AUTO_INCREMENT counter of `orders`
    var history: seq<Visit>
    var clock: nat             // NOW()

    /** Each order is stored under its own id, below the auto-increment counter, and was not updated before it was created. */
    ghost predicate Valid()
      reads this
    {
      && 1 <= nextOrderId
      && forall k :: k in orders ==>
           && orders[k].id == k
           && k < nextOrderId
           && orders[k].createdAt <= orders[k].updatedAt <= clock
    }

    constructor (users: seq<User>, resources: seq<Resource>, history: seq<Visit>, clock: nat)
      ensures Valid()
      ensures this.users == users && this.resources == resources && this.history == history
      ensures this.orders == map[] && this.nextOrderId == 1 && this.clock == clock
    {
      this.users := users;
      this.resources := resources;
      this.orders := map[];
      this.nextOrderId := 1;
      this.history := history;
      this.clock := clock;
    }

    /** Time passes between requests. */
    method Tick(elapsed: nat)
      requires Valid()
      modifies this`clock
      ensures Valid() && clock == old(clock) + elapsed
    {
      clock := clock + elapsed;
    }
  }
}
