/** The SAT solver that the engines ask (src/pme/engine/sat_adaptor.cpp): a
    satisfiable query returns a model, an unsatisfiable one a subset of the
    assumptions that is already unsatisfiable. */
module SatAdaptors {
  import opened Ids
  import opened SatQueries
  import CoreAdaptors
  import Restarts

  class SatAdaptor {
    var clauses: seq<Clause>
    var isSat: bool
    var model: Valuation

    constructor ()
      ensures clauses == [[ID_TRUE]] && !isSat
    {
      clauses := [[ID_TRUE]];
      isSat := false;
      model := {};
    }

    method Reset()
      modifies this
      ensures clauses == [[ID_TRUE]] && !isSat
    {
      clauses := [[ID_TRUE]];
      isSat := false;
    }

    method AddClause(cls: Clause)
      requires cls != []
      modifies this
      ensures clauses == old(clauses) + [cls] && !isSat
    {
      clauses := clauses + [cls];
      isSat := false;
    }

    method AddClauses(vec: seq<Clause>)
      modifies this
      ensures clauses == old(clauses) + vec && !isSat
    {
      clauses := clauses + vec;
      isSat := false;
    }

    method Solve(assumps: set<ID>) returns (sat: bool, crits: set<ID>)
      modifies this
      ensures clauses == old(clauses) && isSat == sat
      ensures sat ==> Satisfies(model, clauses, assumps)
      ensures !sat ==> crits <= assumps && Unsat(clauses, crits)
      ensures sat <==> exists v: Valuation :: Satisfies(v, clauses, assumps)
    {
      var answer;
      ghost var e;
      sat, answer, crits, e := CoreAdaptors.Solve(clauses, assumps, i => Restarts.Limit(i));
      if sat {
        model := answer;
      }
      isSat := sat;
    }
  }
}
