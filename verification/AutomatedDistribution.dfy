/**
 The coordinator itself: vault rows that its methods overwrite in place, two loops over rows that are listed once, and
 a running flag. Each method is proved against the per-vault functions of VaultSteps, so that what is proved there
 about one vault's cycle holds of the loops for every vault at once.
 */
module AutomatedDistribution {
  import opened Wrappers
  import opened VaultSteps

  type VaultId = string

  /** What happens outside the coordinator during one cycle. */
  datatype World = World(firstQueryOk: bool, secondQueryOk: bool, script: VaultId -> Script)

  datatype Listed = Listed(id: VaultId, row: Vault)

  type Table = map<VaultId, State>

  /** The rows a query returns: every matching vault once, in any order, as it was at the time of the query. */
  ghost predicate Lists(rows: seq<Listed>, table: Table, p: Vault -> bool) {
    && (forall i :: 0 <= i < |rows| ==> rows[i].id in table && rows[i].row == table[rows[i].id].row && p(rows[i].row))
    && (forall i, j :: 0 <= i < j < |rows| ==> rows[i].id != rows[j].id)
    && (forall id :: id in table && p(table[id].row) ==> Among(id, rows))
  }

  ghost predicate Among(id: VaultId, rows: seq<Listed>) {
    exists i :: 0 <= i < |rows| && rows[i].id == id
  }

  lemma AmongNext(rows: seq<Listed>, i: nat)
    requires i < |rows|
    ensures forall id :: Among(id, rows[..i + 1]) <==> Among(id, rows[..i]) || id == rows[i].id
  {
    forall id ensures Among(id, rows[..i + 1]) <==> Among(id, rows[..i]) || id == rows[i].id {
      if Among(id, rows[..i]) {
        var k :| 0 <= k < i && rows[..i][k].id == id;
        assert rows[..i + 1][k].id == id;
      }
      if id == rows[i].id {
        assert rows[..i + 1][i].id == id;
      }
    }
  }

  /** A loop that gives each listed vault its turn, on a table the webhooks have already gone over: the vaults listed
      before position `i` had theirs, the others are untouched. */
  ghost predicate TurnsTaken(now: Table, reached: Table, rows: seq<Listed>, i: nat,
                             turn: (VaultId, State, Vault) -> State)
    requires i <= |rows|
  {
    && now.Keys == reached.Keys
    && (forall k :: 0 <= k < |rows| ==> rows[k].id in reached)
    && (forall k :: 0 <= k < i ==> now[rows[k].id] == turn(rows[k].id, reached[rows[k].id], rows[k].row))
    && (forall id :: id in reached && !Among(id, rows[..i]) ==> now[id] == reached[id])
  }

  lemma TurnTaken(now: Table, reached: Table, rows: seq<Listed>, i: nat, turn: (VaultId, State, Vault) -> State)
    requires i < |rows| && TurnsTaken(now, reached, rows, i, turn)
    requires forall i, j :: 0 <= i < j < |rows| ==> rows[i].id != rows[j].id
    ensures now[rows[i].id] == reached[rows[i].id]
    ensures var r := rows[i];
            TurnsTaken(now[r.id := turn(r.id, reached[r.id], r.row)], reached, rows, i + 1, turn)
  {
    AmongNext(rows, i);
  }

  /** A pass over the listed rows is the per-vault turn of each vault on its own: neither the order of the rows nor
      any other vault matters. */
  lemma PassIsPointwise(now: Table, before: Table, reached: Table, rows: seq<Listed>, p: Vault -> bool,
                        turn: (VaultId, State, Vault) -> State)
    requires Lists(rows, before, p) && before.Keys == reached.Keys
    requires TurnsTaken(now, reached, rows, |rows|, turn)
    ensures now.Keys == before.Keys
    ensures forall id :: id in before ==>
              now[id] == if p(before[id].row) then turn(id, reached[id], before[id].row) else reached[id]
  {
    assert rows[..|rows|] == rows;
    forall id | id in before
      ensures now[id] == if p(before[id].row) then turn(id, reached[id], before[id].row) else reached[id]
    {
      if Among(id, rows) {
        var k :| 0 <= k < |rows| && rows[k].id == id;
        assert p(rows[k].row);
      }
    }
  }

  class AutomatedDistributionService {
    var isRunning: bool
    var vaults: Table   // the vault table, each row with the external calls made for it so far

    constructor (rows: map<VaultId, Vault>)
      ensures !isRunning && vaults == map id | id in rows :: State(rows[id], [])
    {
      isRunning := false;
      vaults := map id | id in rows :: State(rows[id], []);
    }

    /** The cron entry point. A tick that finds a cycle in flight does nothing; otherwise every vault goes through
        exactly one cycle of its own, and the flag is down again afterwards even if a query throws. */
    method ProcessVaultDistributions(w: World)
      modifies this
      ensures vaults.Keys == old(vaults).Keys
      ensures old(isRunning) ==> isRunning && vaults == old(vaults)
      ensures !old(isRunning) ==>
                && !isRunning
                && forall id :: id in vaults ==>
                     vaults[id] == Step(old(vaults)[id], Cycle(w.firstQueryOk, w.secondQueryOk, w.script(id)))
    {
      if isRunning {
        return;
      }
      isRunning := true;
      Webhooks(id => w.script(id).confirmedBefore);
      var threw := ProcessLockedVaultsForDistribution(w);
      if !threw {
        Webhooks(id => w.script(id).confirmedBetween);
        threw := CheckExtractionsAndTriggerPayments(w);
      }
      isRunning := false;
    }

    /** Confirmations that arrive while the coordinator waits. */
    method Webhooks(which: VaultId -> Confirmed)
      modifies this`vaults
      ensures vaults == map id | id in old(vaults) :: Webhook(old(vaults)[id], which(id))
    {
      vaults := map id | id in vaults :: Webhook(vaults[id], which(id));
    }

    method Select(p: Vault -> bool) returns (rows: seq<Listed>)
      ensures Lists(rows, vaults, p)
    {
      rows := [];
      var left := vaults.Keys;
      while left != {}
        invariant left <= vaults.Keys
        invariant forall i :: 0 <= i < |rows| ==>
                    && rows[i].id in vaults && rows[i].id !in left
                    && rows[i].row == vaults[rows[i].id].row && p(rows[i].row)
        invariant forall i, j :: 0 <= i < j < |rows| ==> rows[i].id != rows[j].id
        invariant forall id :: id in vaults && p(vaults[id].row) ==> id in left || Among(id, rows)
        decreases |left|
      {
        var id :| id in left;
        left := left - {id};
        if p(vaults[id].row) {
          rows := rows + [Listed(id, vaults[id].row)];
          AmongNext(rows, |rows| - 1);
          assert rows[..|rows|] == rows && rows[..|rows| - 1] + [rows[|rows| - 1]] == rows;
        }
      }
    }

    method ProcessLockedVaultsForDistribution(w: World) returns (threw: bool)
      modifies this`vaults
      ensures vaults.Keys == old(vaults).Keys && threw == !w.firstQueryOk
      ensures threw ==> vaults == old(vaults)
      ensures !threw ==> forall id :: id in vaults ==> vaults[id] == FirstPass(old(vaults)[id], w.script(id))
    {
      if !w.firstQueryOk {
        return true;
      }
      var ready := Select(Ready);
      Webhooks(id => w.script(id).confirmedFirst);
      ghost var reached := vaults;
      ghost var turn := (id, st, row) => FirstTurn(st, row, w.script(id));
      for i := 0 to |ready|
        invariant TurnsTaken(vaults, reached, ready, i, turn)
      {
        TurnTaken(vaults, reached, ready, i, turn);
        StartVault(ready[i].id, ready[i].row, w.script(ready[i].id));
      }
      PassIsPointwise(vaults, old(vaults), reached, ready, Ready, turn);
      return false;
    }

    method CheckExtractionsAndTriggerPayments(w: World) returns (threw: bool)
      modifies this`vaults
      ensures vaults.Keys == old(vaults).Keys && threw == !w.secondQueryOk
      ensures threw ==> vaults == old(vaults)
      ensures !threw ==> forall id :: id in vaults ==> vaults[id] == SecondPass(old(vaults)[id], w.script(id))
    {
      if !w.secondQueryOk {
        return true;
      }
      var listed := Select(InDistribution);
      Webhooks(id => w.script(id).confirmedSecond);
      ghost var reached := vaults;
      ghost var turn := (id, st, row) => SecondTurn(st, row, w.script(id));
      for i := 0 to |listed|
        invariant TurnsTaken(vaults, reached, listed, i, turn)
      {
        TurnTaken(vaults, reached, listed, i, turn);
        CheckVault(listed[i].id, listed[i].row, w.script(listed[i].id));
      }
      PassIsPointwise(vaults, old(vaults), reached, listed, InDistribution, turn);
      return false;
    }

    /** The body of the first loop for one vault, with its catch. */
    method StartVault(id: VaultId, listed: Vault, s: Script)
      requires id in vaults
      modifies this`vaults
      ensures vaults == old(vaults)[id := FirstTurn(old(vaults)[id], listed, s)]
    {
      if !s.markOk {
        return;
      }
      Write(id, vaults[id].row.(inProgress := true));
      if listed.acquireOnly {
        var failed := CallMint(id, s);
        if !failed {
          failed := FinalizeVaultDistribution(id, s);
        }
        return;
      }
      var failed := EnsureDispatchParameterized(id, listed, s);
      if !failed && s.claimsQueryOk {
        StartExtraction(id, s);
      }
    }

    method StartExtraction(id: VaultId, s: Script)
      requires id in vaults
      modifies this`vaults
      ensures vaults == old(vaults)[id := VaultSteps.StartExtraction(old(vaults)[id], s)]
    {
      if OpenOf(vaults[id].row, ACQUIRERS) == {} {
        return;
      }
      var expansion, regular := OpenExpansionAcquirers(vaults[id].row), OpenRegularAcquirers(vaults[id].row);
      if expansion != {} && regular == {} {
        var failed := CallMint(id, s);
      } else if expansion == {} && regular != {} {
        vaults := vaults[id := ProcessAcquirerExtractions(vaults[id], s).state];
      } else if s.manualWriteOk {
        Write(id, vaults[id].row.(manual := true));
      }
    }

    method EnsureDispatchParameterized(id: VaultId, listed: Vault, s: Script) returns (threw: bool)
      requires id in vaults
      modifies this`vaults
      ensures var r := VaultSteps.EnsureDispatchParameterized(old(vaults)[id], listed, s);
              vaults == old(vaults)[id := r.state] && threw == r.threw
    {
      if Truthy(listed.dispatchHash) {
        return false;
      }
      Record(id, ParameterizeDispatch);
      if s.dispatchHash.None? || !s.dispatchWriteOk {
        return true;
      }
      Write(id, vaults[id].row.(dispatchHash := s.dispatchHash));
      return false;
    }

    /** The body of the second loop for one vault, with its catch. */
    method CheckVault(id: VaultId, listed: Vault, s: Script)
      requires id in vaults
      modifies this`vaults
      ensures vaults == old(vaults)[id := SecondTurn(old(vaults)[id], listed, s)]
    {
      if listed.acquireOnly || OpenOf(listed, ACQUIRERS) != {} {
        return;
      }
      var paid := ProcessContributorPayments(vaults[id], listed, s);
      vaults := vaults[id := paid.state];
      if paid.threw || !s.completeQueryOk {
        return;
      }
      if OpenOf(vaults[id].row, PAYEES) == {} {
        var failed := FinalizeVaultDistribution(id, s);
      }
    }

    method FinalizeVaultDistribution(id: VaultId, s: Script) returns (threw: bool)
      requires id in vaults
      modifies this`vaults
      ensures var r := VaultSteps.FinalizeVaultDistribution(old(vaults)[id], s);
              vaults == old(vaults)[id := r.state] && threw == r.threw
    {
      threw := !s.finalizeQueryOk;
      if !threw {
        threw := CreateLiquidityPool(id, s);
        threw := threw || !s.processedWriteOk;
      }
      if threw {
        if s.rollbackWriteOk {
          Write(id, vaults[id].row.(inProgress := false));
        }
      } else {
        Write(id, vaults[id].row.(inProgress := false, processed := true));
        Record(id, Snapshot);
      }
    }

    method CreateLiquidityPool(id: VaultId, s: Script) returns (threw: bool)
      requires id in vaults
      modifies this`vaults
      ensures var r := VaultSteps.CreateLiquidityPool(old(vaults)[id], s);
              vaults == old(vaults)[id := r.state] && threw == r.threw
    {
      if HasExpansionClaim(vaults[id].row) {
        return false;
      }
      var lp := FindLp(vaults[id].row.claims, 0);
      if vaults[id].row.lpPercent > 0.0 && lp.Some? {
        Record(id, CreateLp(s.lp));
        if !s.lp.Recorded? {
          return true;
        }
        var claims := vaults[id].row.claims;
        Write(id, vaults[id].row.(claims := claims[lp.value := claims[lp.value].(status := Claimed)]));
      }
      return false;
    }

    // ----- Table access -----

    method CallMint(id: VaultId, s: Script) returns (threw: bool)
      requires id in vaults
      modifies this`vaults
      ensures var r := ProcessAcquireOnlyExtractions(old(vaults)[id], s);
              vaults == old(vaults)[id := r.state] && threw == r.threw
    {
      var r := ProcessAcquireOnlyExtractions(vaults[id], s);
      vaults := vaults[id := r.state];
      return r.threw;
    }

    method Write(id: VaultId, row: Vault)
      requires id in vaults
      modifies this`vaults
      ensures vaults == old(vaults)[id := SetRow(old(vaults)[id], row)]
    {
      vaults := vaults[id := SetRow(vaults[id], row)];
    }

    method Record(id: VaultId, call: Call)
      requires id in vaults
      modifies this`vaults
      ensures vaults == old(vaults)[id := Note(old(vaults)[id], call)]
    {
      vaults := vaults[id := Note(vaults[id], call)];
    }
  }
}
