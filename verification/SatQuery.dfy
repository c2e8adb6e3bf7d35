/** Queries to the SAT solver, and what an answer promises
    (src/pme/engine/sat_adaptor.cpp). */
module SatQueries {
  import opened Ids

  function VarsOf(lits: seq<ID>): set<ID> {
    set lit | lit in lits :: Strip(lit)
  }

  function VarsOfCnf(cnf: seq<Clause>): (vars: set<ID>)
    ensures forall cls, lit :: cls in cnf && lit in cls ==> Strip(lit) in vars
  {
    if cnf == [] then {} else VarsOf(cnf[0]) + VarsOfCnf(cnf[1..])
  }

  predicate Satisfies(v: Valuation, cnf: seq<Clause>, assumps: set<ID>) {
    Models(v, cnf) && SatAll(v, assumps)
  }

  /** No valuation satisfies the clauses and the assumptions. */
  ghost predicate Unsat(cnf: seq<Clause>, assumps: set<ID>) {
    forall v: Valuation :: !Satisfies(v, cnf, assumps)
  }
}
