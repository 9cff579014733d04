/** The audit worker on the mutable tables: one session measures, a second one corrects. */
module AuditWorker {
  import opened Wrappers
  import opened Sums
  import opened PixModel
  import opened PixConservation
  import opened PixDatabase
  import opened Audit
  import Fees

  ghost function Part(m: map<Id, int>, ids: set<Id>): map<Id, int> {
    map a | a in m && a in ids :: m[a]
  }

  lemma PartOneByOne(m: map<Id, int>, ids: set<Id>, a: Id)
    requires a in ids && ids <= m.Keys
    ensures MapSum(Part(m, ids)) == m[a] + MapSum(Part(m, ids - {a}))
  {
    assert Part(m, ids) - {a} == Part(m, ids - {a});
    MapSumRemove(Part(m, ids), a);
  }

  /** Sums the customers one by one, then adds the matrix account. */
  method MeasureBank(db: Database) returns (snap: Snapshot)
    requires db.Valid()
    ensures snap == Measured(db.State())
  {
    ghost var s := db.State();
    ghost var balances := Balances(s.accounts);
    var known := db.matrix.Some? && db.matrix.value in db.users;
    var rest := db.users.Keys;
    if known { rest := rest - {db.matrix.value}; }
    ghost var customers := rest;
    var sum := 0;
    while rest != {}
      invariant db.State() == s && rest <= db.users.Keys && db.users.Keys == balances.Keys
      invariant sum + MapSum(Part(balances, rest)) == MapSum(Part(balances, customers))
      decreases rest
    {
      var a :| a in rest;
      PartOneByOne(balances, rest, a);
      assert s.accounts[a] == db.users[a].Row();
      sum := sum + db.users[a].balance;
      rest := rest - {a};
    }
    assert Part(balances, {}) == map[];
    assert Part(balances, balances.Keys) == balances;
    if known {
      PartOneByOne(balances, balances.Keys, db.matrix.value);
      assert s.accounts[db.matrix.value] == db.users[db.matrix.value].Row();
      sum := sum + db.users[db.matrix.value].balance;
    }
    snap := Snapshot(sum, known);
  }

  method RunCorrection(db: Database, snap: Snapshot, gateway: Option<int>) returns (verdict: Verdict)
    requires db.Valid()
    modifies db.users.Values
    ensures db.Valid() && Report(db.State(), verdict) == Cycle(old(db.State()), snap, gateway)
  {
    if gateway.None? { return NoGateway; }
    var diff := snap.total - gateway.value;
    if diff == 0 { return Balanced; }
    var seeded := db.matrix.Some? && db.matrix.value in db.users;
    if 1 < diff <= AUTO_CORRECTION_MAX && snap.matrixKnown {
      if !seeded { return Error; }
      assert db.State().accounts[db.matrix.value] == db.users[db.matrix.value].Row();
      db.AddToBalance(db.matrix.value, -Min(diff, Fees.Max(0, db.users[db.matrix.value].balance)));
      return AutoCorrected;
    }
    if diff < -1 && snap.matrixKnown {
      if !seeded { return Warning; }
      db.AddToBalance(db.matrix.value, -diff);
      return AutoCorrected;
    }
    verdict := if Abs(diff) >= ERROR_FROM then Error else Warning;
  }
}
