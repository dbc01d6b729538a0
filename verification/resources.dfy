/**
 * The resource ledger (src/resources.ts): five resource counts, the list of
 * shortfalls for a set of requirements, and the deduction of requirements.
 */
module Resources {
  datatype ResourceName = Food | Wood | Stone | Iron | Gold

  function NameOf(r: ResourceName): string {
    match r
    case Food => "food"
    case Wood => "wood"
    case Stone => "stone"
    case Iron => "iron"
    case Gold => "gold"
  }

  /** A requirement list: (resource, count) pairs, in order. */
  type Requirements = seq<(ResourceName, int)>

  type Stock = map<ResourceName, int>

  ghost predicate IsTotal(stock: Stock) {
    forall r: ResourceName :: r in stock
  }

  /** food 0, wood 2, stone 10, iron 0, gold 0. */
  function InitialStock(): Stock {
    map[Food := 0, Wood := 2, Stone := 10, Iron := 0, Gold := 0]
  }

  lemma InitialStockTotal()
    ensures IsTotal(InitialStock())
  {
    forall r: ResourceName
      ensures r in InitialStock()
    {
      match r
      case Food =>
      case Wood =>
      case Stone =>
      case Iron =>
      case Gold =>
    }
  }

  function NotEnough(r: ResourceName): string {
    "Not enough " + NameOf(r)
  }

  /** requirements.filter(count > stock).map(name => `Not enough ${name}`). */
  function MissingInfo(stock: Stock, requirements: Requirements): seq<string>
    requires IsTotal(stock)
    decreases |requirements|
  {
    if requirements == [] then []
    else
      var (name, count) := requirements[0];
      (if count > stock[name] then [NotEnough(name)] else []) + MissingInfo(stock, requirements[1..])
  }

  /** The resources that fall short, in requirement order. */
  function ShortNames(stock: Stock, requirements: Requirements): seq<ResourceName>
    requires IsTotal(stock)
    decreases |requirements|
  {
    if requirements == [] then []
    else
      var (name, count) := requirements[0];
      (if count > stock[name] then [name] else []) + ShortNames(stock, requirements[1..])
  }

  /**
   * The shortfall list has one "Not enough <name>" line per requirement that
   * exceeds the stock, in order, and it is empty exactly when every
   * requirement is covered.
   */
  lemma {:induction false} MissingInfoMeaning(stock: Stock, requirements: Requirements)
    requires IsTotal(stock)
    ensures |MissingInfo(stock, requirements)| == |ShortNames(stock, requirements)| <= |requirements|
    ensures forall i :: 0 <= i < |ShortNames(stock, requirements)| ==>
      MissingInfo(stock, requirements)[i] == NotEnough(ShortNames(stock, requirements)[i])
    ensures MissingInfo(stock, requirements) == [] <==>
      forall i :: 0 <= i < |requirements| ==> requirements[i].1 <= stock[requirements[i].0]
    decreases |requirements|
  {
    if requirements != [] {
      var tail := requirements[1..];
      MissingInfoMeaning(stock, tail);
      if MissingInfo(stock, requirements) == [] {
        forall i | 0 <= i < |requirements|
          ensures requirements[i].1 <= stock[requirements[i].0]
        {
          if i > 0 {
            assert requirements[i] == tail[i - 1];
          }
        }
      }
    }
  }

  /** One requirement taken off the stock. */
  function Take(stock: Stock, requirement: (ResourceName, int)): (after: Stock)
    requires IsTotal(stock)
    ensures IsTotal(after)
  {
    stock[requirement.0 := stock[requirement.0] - requirement.1]
  }

  /** The development assertion of deduceResources, checked as each requirement is processed. */
  ghost predicate CanDeduct(stock: Stock, requirements: Requirements)
    requires IsTotal(stock)
    decreases |requirements|
  {
    requirements == [] ||
    (requirements[0].1 <= stock[requirements[0].0] && CanDeduct(Take(stock, requirements[0]), requirements[1..]))
  }

  function Deducted(stock: Stock, requirements: Requirements): (after: Stock)
    requires IsTotal(stock)
    ensures IsTotal(after)
    decreases |requirements|
  {
    if requirements == [] then stock else Deducted(Take(stock, requirements[0]), requirements[1..])
  }

  /** The total count that a requirement list asks of one resource. */
  function TotalFor(requirements: Requirements, r: ResourceName): int
    decreases |requirements|
  {
    if requirements == [] then 0
    else (if requirements[0].0 == r then requirements[0].1 else 0) + TotalFor(requirements[1..], r)
  }

  /** Deduction subtracts each resource's total requirement; unnamed resources are unchanged. */
  lemma {:induction false} DeductedAmounts(stock: Stock, requirements: Requirements, r: ResourceName)
    requires IsTotal(stock)
    ensures Deducted(stock, requirements)[r] == stock[r] - TotalFor(requirements, r)
    ensures (forall i :: 0 <= i < |requirements| ==> requirements[i].0 != r) ==> Deducted(stock, requirements)[r] == stock[r]
    decreases |requirements|
  {
    if requirements != [] {
      DeductedAmounts(Take(stock, requirements[0]), requirements[1..], r);
      if forall i :: 0 <= i < |requirements| ==> requirements[i].0 != r {
        assert forall i :: 0 <= i < |requirements[1..]| ==> requirements[1..][i].0 != r by {
          forall i | 0 <= i < |requirements[1..]| ensures requirements[1..][i].0 != r {
            assert requirements[1..][i] == requirements[i + 1];
          }
        }
        NoTotalForUnnamed(requirements, r);
      }
    }
  }

  lemma {:induction false} NoTotalForUnnamed(requirements: Requirements, r: ResourceName)
    requires forall i :: 0 <= i < |requirements| ==> requirements[i].0 != r
    ensures TotalFor(requirements, r) == 0
    decreases |requirements|
  {
    if requirements != [] {
      NoTotalForUnnamed(requirements[1..], r);
    }
  }

  ghost predicate DistinctNames(requirements: Requirements) {
    forall i, j :: 0 <= i < j < |requirements| ==> requirements[i].0 != requirements[j].0
  }

  /**
   * When every resource is named at most once, "nothing is missing" is
   * exactly what deduceResources needs: no assertion fails on the way.
   */
  lemma {:induction false} NothingMissingCanDeduct(stock: Stock, requirements: Requirements)
    requires IsTotal(stock)
    requires DistinctNames(requirements)
    requires MissingInfo(stock, requirements) == []
    ensures CanDeduct(stock, requirements)
    decreases |requirements|
  {
    MissingInfoMeaning(stock, requirements);
    if requirements != [] {
      var first := requirements[0];
      var tail := requirements[1..];
      var after := Take(stock, first);
      forall i | 0 <= i < |tail|
        ensures tail[i].1 <= after[tail[i].0]
      {
        assert tail[i] == requirements[i + 1];
      }
      MissingInfoMeaning(after, tail);
      assert DistinctNames(tail) by {
        forall i, j | 0 <= i < j < |tail| ensures tail[i].0 != tail[j].0 {
          assert tail[i] == requirements[i + 1] && tail[j] == requirements[j + 1];
        }
      }
      NothingMissingCanDeduct(after, tail);
    }
  }

  class Ledger {
    var stock: Stock

    ghost predicate Valid()
      reads this
    {
      IsTotal(stock)
    }

    constructor()
      ensures Valid() && stock == InitialStock()
    {
      InitialStockTotal();
      stock := InitialStock();
    }

    function GetMissingResourceInfo(requirements: Requirements): seq<string>
      requires Valid()
      reads this
    {
      MissingInfo(stock, requirements)
    }

    /** Subtracts each requirement in turn; each must be covered when it is reached. */
    method DeduceResources(requirements: Requirements)
      requires Valid()
      requires CanDeduct(stock, requirements)
      modifies this
      ensures Valid()
      ensures stock == Deducted(old(stock), requirements)
    {
      var index := 0;
      while index < |requirements|
        invariant 0 <= index <= |requirements|
        invariant IsTotal(stock)
        invariant CanDeduct(stock, requirements[index..])
        invariant Deducted(stock, requirements[index..]) == Deducted(old(stock), requirements)
      {
        var (name, count) := requirements[index];
        assert requirements[index..][1..] == requirements[index + 1..];
        stock := stock[name := stock[name] - count];
        index := index + 1;
      }
    }
  }
}
