/**
 * The server's in-memory store: users kept in a map keyed by an
 * auto-incremented id, and the collectibles scattered around a fixed list
 * of cities when the store is created.
 */
module Storage {
  import opened Wrappers
  import opened Shared

  /** A stored user; balances start at zero. */
  datatype User = User(id: int, username: string, password: string, credits: int, gamecoins: int)

  datatype CollectibleKind = Credit | GameCoin

  /** A collectible; its map coordinates are not part of this model. */
  datatype Collectible = Collectible(kind: CollectibleKind, amount: nat)

  /** A city around which collectibles are placed, by its population. */
  datatype City = City(population: nat)

  /** Rome, Milan, Naples, Paris, London, New York, Tokyo. */
  const MajorCities: seq<City> := [
    City(4_300_000), City(1_300_000), City(3_100_000), City(2_100_000),
    City(8_900_000), City(8_400_000), City(9_300_000)
  ]

  /** One collectible per this many inhabitants, between the two bounds below. */
  const PeoplePerCollectible: nat := 100_000
  const MinPerCity: nat := 3
  const MaxPerCity: nat := 20

  /**
   * A random draw in [0, 1) is modelled as `d % RandomScale` divided by
   * `RandomScale`, so the floors and comparisons become exact integer ones.
   */
  const RandomScale: nat := 1_000_000

  /** How many collectibles a city gets: population / 100000 clamped to [3, 20]. */
  function CollectibleCount(population: nat): (n: nat)
    ensures MinPerCity <= n <= MaxPerCity
    ensures MinPerCity <= population / PeoplePerCollectible <= MaxPerCity ==>
              n == population / PeoplePerCollectible
    ensures population / PeoplePerCollectible < MinPerCity ==> n == MinPerCity
    ensures population / PeoplePerCollectible > MaxPerCity ==> n == MaxPerCity
  {
    Min(MaxPerCity, Max(MinPerCity, population / PeoplePerCollectible))
  }

  /**
   * One collectible near a city: a gamecoin when the first draw is below
   * population / 10^7, worth 1; otherwise credits worth
   * floor(draw * population / 10^6) + 1.
   */
  function MakeCollectible(population: nat, coinDraw: nat, amountDraw: nat): (c: Collectible)
    ensures c.kind == GameCoin <==> 10 * (coinDraw % RandomScale) < population
    ensures c.kind == GameCoin ==> c.amount == 1
    ensures c.kind == Credit ==> 1 <= c.amount <= population / RandomScale + 1
  {
    var isGameCoin := 10 * (coinDraw % RandomScale) < population;
    if isGameCoin then Collectible(GameCoin, 1)
    else
      var d := amountDraw % RandomScale;
      CreditBound(d, population);
      Collectible(Credit, d * population / (RandomScale * RandomScale) + 1)
  }

  /** A credit draw below 1 scales the population down to at most its millions. */
  lemma CreditBound(d: nat, population: nat)
    requires d < RandomScale
    ensures d * population / (RandomScale * RandomScale) <= population / RandomScale
  {
    var q := population / RandomScale;
    assert population < (q + 1) * RandomScale;
    assert d * population < RandomScale * ((q + 1) * RandomScale);
    assert d * population < (q + 1) * (RandomScale * RandomScale);
  }

  /**
   * For a credit (the coin draw not below population / 10^7), the amount
   * is floor(draw * (population / 10^6)) + 1 computed over the reals, with
   * the draw read as d / 10^6.
   */
  lemma CreditAmountIsFlooredProduct(population: nat, coinDraw: nat, amountDraw: nat)
    requires population <= 10 * (coinDraw % RandomScale)
    ensures MakeCollectible(population, coinDraw, amountDraw).amount
            == (((amountDraw % RandomScale) as real / RandomScale as real)
                * (population as real / 1000000.0)).Floor + 1
  {
  }

  lemma MulIsMonotone(a: nat, b: nat, c: nat, d: nat)
    requires a <= b && c <= d
    ensures a * c <= b * d
  {
  }

  lemma DivIsMonotone(x: nat, y: nat, m: nat)
    requires x <= y && 0 < m
    ensures x / m <= y / m
  {
    var q1, q2 := x / m, y / m;
    if q1 > q2 {
      MulIsMonotone(q2 + 1, q1, m, m);
    }
  }

  /** More population, or a larger draw, never gives fewer credits. */
  lemma CreditAmountIsMonotone(p1: nat, p2: nat, c1: nat, c2: nat, a1: nat, a2: nat)
    requires p1 <= p2 && a1 % RandomScale <= a2 % RandomScale
    requires p1 <= 10 * (c1 % RandomScale) && p2 <= 10 * (c2 % RandomScale)
    ensures MakeCollectible(p1, c1, a1).amount <= MakeCollectible(p2, c2, a2).amount
  {
    var d1, d2 := a1 % RandomScale, a2 % RandomScale;
    MulIsMonotone(d1, d2, p1, p2);
    DivIsMonotone(d1 * p1, d2 * p2, RandomScale * RandomScale);
  }

  predicate WellFormed(c: Collectible) {
    c.amount >= 1 && (c.kind == GameCoin ==> c.amount == 1)
  }

  /** The first `n` collectibles of city number `c`, in the order they are pushed. */
  function CityBatch(c: nat, population: nat, n: nat,
                     coinDraw: (nat, nat) -> nat, amountDraw: (nat, nat) -> nat): seq<Collectible>
  {
    if n == 0 then []
    else CityBatch(c, population, n - 1, coinDraw, amountDraw)
         + [MakeCollectible(population, coinDraw(c, n - 1), amountDraw(c, n - 1))]
  }

  /** The collectibles of all the cities, city by city. */
  function AllCollectibles(cities: seq<City>,
                           coinDraw: (nat, nat) -> nat, amountDraw: (nat, nat) -> nat): seq<Collectible>
  {
    if cities == [] then []
    else
      var k := |cities| - 1;
      AllCollectibles(cities[..k], coinDraw, amountDraw)
      + CityBatch(k, cities[k].population, CollectibleCount(cities[k].population), coinDraw, amountDraw)
  }

  lemma AllCollectiblesStep(cities: seq<City>, c: nat,
                            coinDraw: (nat, nat) -> nat, amountDraw: (nat, nat) -> nat)
    requires c < |cities|
    ensures AllCollectibles(cities[..c + 1], coinDraw, amountDraw)
            == AllCollectibles(cities[..c], coinDraw, amountDraw)
               + CityBatch(c, cities[c].population, CollectibleCount(cities[c].population), coinDraw, amountDraw)
  {
    assert cities[..c + 1][..c] == cities[..c];
  }

  /** The sum of the per-city counts. */
  function TotalCount(cities: seq<City>): nat {
    if cities == [] then 0
    else TotalCount(cities[..|cities| - 1]) + CollectibleCount(cities[|cities| - 1].population)
  }

  lemma {:induction false} CityBatchShape(c: nat, population: nat, n: nat,
                                          coinDraw: (nat, nat) -> nat, amountDraw: (nat, nat) -> nat)
    ensures |CityBatch(c, population, n, coinDraw, amountDraw)| == n
    ensures forall k :: 0 <= k < n ==> WellFormed(CityBatch(c, population, n, coinDraw, amountDraw)[k])
  {
    if n > 0 {
      CityBatchShape(c, population, n - 1, coinDraw, amountDraw);
    }
  }

  /**
   * Every generated collectible is worth at least 1, a gamecoin exactly 1,
   * and each city contributes between 3 and 20 of them.
   */
  lemma {:induction false} AllCollectiblesShape(cities: seq<City>,
                                                coinDraw: (nat, nat) -> nat, amountDraw: (nat, nat) -> nat)
    ensures |AllCollectibles(cities, coinDraw, amountDraw)| == TotalCount(cities)
    ensures MinPerCity * |cities| <= TotalCount(cities) <= MaxPerCity * |cities|
    ensures forall k :: 0 <= k < TotalCount(cities) ==> WellFormed(AllCollectibles(cities, coinDraw, amountDraw)[k])
  {
    if cities != [] {
      var k := |cities| - 1;
      AllCollectiblesShape(cities[..k], coinDraw, amountDraw);
      var n := CollectibleCount(cities[k].population);
      CityBatchShape(k, cities[k].population, n, coinDraw, amountDraw);
    }
  }

  /** The store: users by id, the next id to hand out, and the collectibles. */
  class MemStorage {
    var users: map<int, User>
    var collectibles: seq<Collectible>
    var currentId: int

    /**
     * Ids are handed out from 1 upwards and never removed, so the stored
     * ids are exactly 1 .. currentId - 1 and each user carries its key.
     */
    ghost predicate Valid()
      reads this
    {
      1 <= currentId
      && (forall id :: id in users ==> 1 <= id < currentId && users[id].id == id)
      && (forall id :: 1 <= id < currentId ==> id in users)
    }

    /** A new store: no users, ids from 1, collectibles generated from the draws. */
    constructor (coinDraw: (nat, nat) -> nat, amountDraw: (nat, nat) -> nat)
      ensures Valid()
      ensures users == map[] && currentId == 1
      ensures collectibles == AllCollectibles(MajorCities, coinDraw, amountDraw)
    {
      users := map[];
      collectibles := [];
      currentId := 1;
      new;
      GenerateCollectibles(coinDraw, amountDraw);
    }

    /** `generateCollectibles`: for each city, push its clamped number of collectibles. */
    method GenerateCollectibles(coinDraw: (nat, nat) -> nat, amountDraw: (nat, nat) -> nat)
      modifies this`collectibles
      ensures collectibles == AllCollectibles(MajorCities, coinDraw, amountDraw)
    {
      var cities := MajorCities;
      collectibles := [];
      var c := 0;
      assert cities[..0] == [];
      while c < |cities|
        invariant 0 <= c <= |cities|
        invariant collectibles == AllCollectibles(cities[..c], coinDraw, amountDraw)
      {
        PushCityCollectibles(c, cities[c], coinDraw, amountDraw);
        AllCollectiblesStep(cities, c, coinDraw, amountDraw);
        c := c + 1;
      }
      assert cities[..|cities|] == cities;
    }

    /** The body of the per-city callback: push the city's clamped number of collectibles. */
    method PushCityCollectibles(c: nat, city: City, coinDraw: (nat, nat) -> nat, amountDraw: (nat, nat) -> nat)
      modifies this`collectibles
      ensures collectibles
              == old(collectibles) + CityBatch(c, city.population, CollectibleCount(city.population), coinDraw, amountDraw)
    {
      var numCollectibles := CollectibleCount(city.population);
      var i := 0;
      while i < numCollectibles
        invariant 0 <= i <= numCollectibles
        invariant collectibles == old(collectibles) + CityBatch(c, city.population, i, coinDraw, amountDraw)
      {
        collectibles := collectibles + [MakeCollectible(city.population, coinDraw(c, i), amountDraw(c, i))];
        i := i + 1;
      }
    }

    /** `getUser`: the user stored under `id`; exactly the ids handed out so far resolve. */
    function GetUser(id: int): (r: Option<User>)
      reads this
      ensures r.Some? <==> id in users
      ensures r.Some? ==> r.value == users[id]
      ensures Valid() ==> (r.Some? <==> 1 <= id < currentId)
      ensures Valid() && r.Some? ==> r.value.id == id
    {
      if id in users then Some(users[id]) else None
    }

    /**
     * `getUserByUsername`: a linear search over the users in insertion
     * order, which is ascending id order since only `CreateUser` inserts
     * and it inserts ascending ids. Returns the first user with that name.
     */
    method GetUserByUsername(username: string) returns (r: Option<User>)
      requires Valid()
      ensures r.Some? ==> r.value.id in users && users[r.value.id] == r.value
      ensures r.Some? ==> r.value.username == username
      ensures r.Some? ==> forall id :: id in users && id < r.value.id ==> users[id].username != username
      ensures r.None? ==> forall id :: id in users ==> users[id].username != username
    {
      var id := 1;
      while id < currentId
        invariant 1 <= id <= currentId
        invariant forall k :: k in users && k < id ==> users[k].username != username
      {
        if users[id].username == username {
          return Some(users[id]);
        }
        id := id + 1;
      }
      return None;
    }

    /** `createUser`: the next id, zero balances; existing users are untouched. */
    method CreateUser(username: string, password: string) returns (user: User)
      requires Valid()
      modifies this`users, this`currentId
      ensures Valid()
      ensures user == User(old(currentId), username, password, 0, 0)
      ensures user.id !in old(users)
      ensures users == old(users)[user.id := user]
      ensures currentId == old(currentId) + 1
    {
      var id := currentId;
      currentId := currentId + 1;
      user := User(id, username, password, 0, 0);
      users := users[id := user];
    }

    /**
     * `updateUserBalance`: adds the amounts to the user's balances, or fails
     * with "User not found" and changes nothing.
     */
    method UpdateUserBalance(userId: int, credits: int, gamecoins: int) returns (r: Result<User>)
      requires Valid()
      modifies this`users
      ensures Valid()
      ensures userId !in old(users) ==> r == Failure("User not found") && users == old(users)
      ensures userId in old(users) ==>
                var u := old(users)[userId];
                r == Success(u.(credits := u.credits + credits, gamecoins := u.gamecoins + gamecoins))
                && users == old(users)[userId := r.value]
    {
      if userId !in users {
        return Failure("User not found");
      }
      var user := users[userId];
      var updatedUser := user.(credits := user.credits + credits, gamecoins := user.gamecoins + gamecoins);
      users := users[userId := updatedUser];
      return Success(updatedUser);
    }
  }
}
