/** The per-execution energy budget that the engine's helper debits. The helper class itself is
    not part of this model; this meter is passed explicitly instead of reached through a
    thread-local. */
module EnergyHelper {

  class EnergyMeter {
    var remaining: int

    constructor (limit: int)
      ensures remaining == limit
    {
      remaining := limit;
    }

    /** Debits `cost`; a debit larger than what remains fails (an OutOfEnergyError) and leaves
        the balance as it was. */
    method Charge(cost: int) returns (ok: bool)
      modifies this
      ensures ok <==> cost <= old(remaining)
      ensures remaining == if ok then old(remaining) - cost else old(remaining)
    {
      ok := cost <= remaining;
      if ok {
        remaining := remaining - cost;
      }
    }
  }
}
