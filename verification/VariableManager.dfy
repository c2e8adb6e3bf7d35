/** The source of fresh variables (src/pme/engine/variable_manager.cpp). */
module VariableManagers {
  import opened Ids

  class VariableManager {
    var nextID: ID

    ghost predicate Valid()
      reads this
    {
      MIN_ID <= nextID && nextID % 2 == 0
    }

    constructor ()
      ensures Valid() && nextID == MIN_ID
    {
      nextID := MIN_ID;
    }

    /** Hands out the next even ID. */
    method GetNewID() returns (id: ID)
      requires Valid()
      modifies this
      ensures Valid()
      ensures id == old(nextID) && nextID == old(nextID) + ID_INCR
    {
      id := nextID;
      nextID := nextID + ID_INCR;
    }
  }
}
