/**
 * Building construction (src/buildings.ts): each building kind has a display
 * name, a count and a requirement list. Building either shows the shortfall
 * lines for five seconds or pays the requirements and counts the building.
 */
module Buildings {
  import opened Resources
  import opened Frame
  import opened EventQueue
  import JsBuiltins

  datatype BuildingName = TownCenter | LumberjackHut | Tower

  function DisplayName(name: BuildingName): string {
    match name
    case TownCenter => "town center"
    case LumberjackHut => "lumberjack's hut"
    case Tower => "tower"
  }

  function RequirementsOf(name: BuildingName): Requirements {
    match name
    case TownCenter => []
    case LumberjackHut => [(Wood, 2), (Stone, 2)]
    case Tower => [(Wood, 2), (Stone, 3)]
  }

  function InitialCounts(): map<BuildingName, int> {
    map[TownCenter := 1, LumberjackHut := 0, Tower := 0]
  }

  /** How long a shortfall message stays on screen, in milliseconds. */
  const MessageTime: real := 5000.0

  /** The queued callback that takes a shown message off the page again. */
  datatype Run = RemoveMessage(text: string)

  /** No building asks for the same resource twice, and every count asked for is positive. */
  lemma RequirementsWellFormed(name: BuildingName)
    ensures DistinctNames(RequirementsOf(name))
    ensures forall i :: 0 <= i < |RequirementsOf(name)| ==> RequirementsOf(name)[i].1 > 0
  {
  }

  /** Whenever nothing is missing, the deduction that follows never trips its assertion. */
  lemma BuildCanPay(stock: Stock, name: BuildingName)
    requires IsTotal(stock)
    requires MissingInfo(stock, RequirementsOf(name)) == []
    ensures CanDeduct(stock, RequirementsOf(name))
  {
    RequirementsWellFormed(name);
    NothingMissingCanDeduct(stock, RequirementsOf(name));
  }

  /** A town center needs nothing, so it can always be built. */
  lemma TownCenterAlwaysBuildable(stock: Stock)
    requires IsTotal(stock)
    ensures MissingInfo(stock, RequirementsOf(TownCenter)) == []
  {
  }

  /**
   * From the starting stock (wood 2, stone 10) a lumberjack's hut or a tower
   * can be built once; afterwards wood is 0, so a second one reports
   * exactly the missing wood.
   */
  lemma FirstBuildFromInitialStock(name: BuildingName)
    requires name != TownCenter
    ensures IsTotal(InitialStock())
    ensures MissingInfo(InitialStock(), RequirementsOf(name)) == []
    ensures Deducted(InitialStock(), RequirementsOf(name))[Wood] == 0
    ensures MissingInfo(Deducted(InitialStock(), RequirementsOf(name)), RequirementsOf(name)) == ["Not enough wood"]
  {
    InitialStockTotal();
    var requirements := RequirementsOf(name);
    var stone := requirements[1];
    assert requirements[1..] == [stone] && [stone][1..] == [];
    var stock := InitialStock();
    assert MissingInfo(stock, [stone]) == [];
    var afterWood := Take(stock, requirements[0]);
    assert afterWood == stock[Wood := 0];
    var after := Deducted(stock, requirements);
    assert after == Deducted(afterWood, [stone]) == Deducted(Take(afterWood, stone), []);
    assert after == stock[Wood := 0][Stone := 10 - stone.1];
    assert MissingInfo(after, [stone]) == [];
    assert requirements[0] == (Wood, 2) && after[Wood] == 0;
    assert MissingInfo(after, requirements) == [NotEnough(Wood)] + MissingInfo(after, [stone]);
    assert NotEnough(Wood) == "Not enough wood";
  }

  class Buildings {
    var counts: map<BuildingName, int>

    ghost predicate Valid()
      reads this
    {
      TownCenter in counts && LumberjackHut in counts && Tower in counts
    }

    constructor()
      ensures Valid() && counts == InitialCounts()
    {
      counts := InitialCounts();
    }

    /**
     * build: on a shortfall the stock and counts stay as they were and the
     * message's removal is queued five seconds after the next frame;
     * otherwise the requirements are paid and the count goes up by one.
     * Returns the lines shown (empty when the building was built).
     */
    method Build(name: BuildingName, ledger: Ledger, queue: EventQueue<Run>, clock: Clock)
      returns (message: seq<string>)
      requires Valid() && ledger.Valid() && queue.Valid()
      modifies this, ledger, queue
      ensures Valid() && ledger.Valid() && queue.Valid()
      ensures message == MissingInfo(old(ledger.stock), RequirementsOf(name))
      ensures message != [] ==>
        && ledger.stock == old(ledger.stock)
        && counts == old(counts)
        && queue.events == InsertByFrame(old(queue.events),
             QueuedEvent(clock.GetNextFrame(MessageTime), RemoveMessage(JsBuiltins.Join(message, "\n"))))
      ensures message == [] ==>
        && ledger.stock == Deducted(old(ledger.stock), RequirementsOf(name))
        && counts == old(counts)[name := old(counts)[name] + 1]
        && queue.events == old(queue.events)
    {
      var requirements := RequirementsOf(name);
      message := ledger.GetMissingResourceInfo(requirements);
      if |message| > 0 {
        var text := JsBuiltins.Join(message, "\n");
        queue.Push(QueuedEvent(clock.GetNextFrame(MessageTime), RemoveMessage(text)), clock.globalFrame);
      } else {
        BuildCanPay(ledger.stock, name);
        ledger.DeduceResources(requirements);
        counts := counts[name := counts[name] + 1];
      }
    }
  }
}
