/** The journal and the budget in their own form, one caller at a time. */
module ModelBudget {
  import opened Wrappers
  import opened ModelSettlement

  datatype Failed = Conflict | DatabaseUnavailable

  class ModelSettlementJournal {
    var rows: Journal

    constructor ()
      ensures rows == map[]
    {
      rows := map[];
    }

    method Record(id: Id, outcome: Settlement) returns (ok: bool)
      modifies this
      ensures ok == Keep(old(rows), id, outcome).Some?
      ensures rows == if ok then Keep(old(rows), id, outcome).value else old(rows)
    {
      if id in rows {
        return !(rows[id].Known? && outcome.Known? && rows[id] != outcome);
      }
      rows := rows[id := outcome];
      ok := true;
    }

    /** Every row once; the order in which they are read does not matter here. */
    method Pending() returns (order: seq<Id>)
      ensures Lists(order, rows)
    {
      order := [];
      var left := rows.Keys;
      while left != {}
        invariant left <= rows.Keys
        invariant forall id :: id in order <==> id in rows && id !in left
        invariant forall i, j :: 0 <= i < j < |order| ==> order[i] != order[j]
        decreases left
      {
        var id :| id in left;
        order := order + [id];
        left := left - {id};
      }
    }

    method Remove(id: Id)
      modifies this
      ensures rows == old(rows) - {id}
    {
      rows := rows - {id};
    }
  }

  /** One charge after its pending outcome, if it has one, was written. */
  function AfterFlush(journal: Journal, ledger: Ledger, id: Id): (r: Charge)
    requires id in ledger
  {
    if id in journal && Project(ledger[id], journal[id]).Some? then Project(ledger[id], journal[id]).value
      else ledger[id]
  }

  predicate Conflicts(journal: Journal, ledger: Ledger, id: Id) {
    id in journal && (id !in ledger || Project(ledger[id], journal[id]).None?)
  }

  /**
   Every row is either still to be moved, or moved: in the ledger, and out of the
   journal unless the removal was lost.
   */
  ghost predicate Moved(journal: Journal, ledger: Ledger, nextJournal: Journal, nextLedger: Ledger) {
    nextLedger.Keys == ledger.Keys
    && (forall id :: id in nextJournal ==> id in journal && nextJournal[id] == journal[id])
    && (forall id :: id in ledger ==> nextLedger[id] == ledger[id] || nextLedger[id] == AfterFlush(journal, ledger, id))
    && (forall id :: id in ledger && id !in nextJournal ==> nextLedger[id] == AfterFlush(journal, ledger, id))
  }

  /** Rows not moved yet have their charges as they were, and no moved row conflicted. */
  ghost predicate Progress(rows: Journal, ledger: Ledger, journal: Journal, charges: Ledger) {
    Moved(rows, ledger, journal, charges)
    && (forall id :: id in journal && id in ledger ==> charges[id] == ledger[id])
    && (forall id :: id in rows && id !in journal ==> !Conflicts(rows, ledger, id))
  }

  ghost predicate Flushed(rows: Journal, ledger: Ledger, journal: Journal, charges: Ledger, failed: Option<Failed>,
      rest: nat) {
    Moved(rows, ledger, journal, charges)
    && (failed.None? ==> journal == map[] && forall id :: id in rows ==> !Conflicts(rows, ledger, id))
    && (failed == Some(Conflict) ==> exists id :: Conflicts(rows, ledger, id) && id !in journal)
    && (failed == Some(DatabaseUnavailable) ==> rest == 0 && journal != map[])
  }

  lemma RowMoved(rows: Journal, ledger: Ledger, journal: Journal, charges: Ledger, id: Id)
    requires Progress(rows, ledger, journal, charges) && id in journal && !Conflicts(journal, charges, id)
    ensures Progress(rows, ledger, journal - {id}, charges[id := AfterFlush(journal, charges, id)])
  {
  }

  lemma RowRefused(rows: Journal, ledger: Ledger, journal: Journal, charges: Ledger, id: Id, rest: nat)
    requires Progress(rows, ledger, journal, charges) && Conflicts(journal, charges, id)
    ensures Flushed(rows, ledger, journal - {id}, charges, Some(Conflict), rest)
  {
  }

  lemma DatabaseGone(rows: Journal, ledger: Ledger, journal: Journal, charges: Ledger, id: Id, next: Ledger)
    requires Progress(rows, ledger, journal, charges) && id in journal
    requires next == charges || (id in charges && next == charges[id := AfterFlush(journal, charges, id)])
    ensures Flushed(rows, ledger, journal, next, Some(DatabaseUnavailable), 0)
  {
  }

  lemma AllMoved(rows: Journal, ledger: Ledger, charges: Ledger, rest: nat)
    requires Progress(rows, ledger, map[], charges)
    ensures Flushed(rows, ledger, map[], charges, None, rest)
  {
  }

  class ModelBudget {
    const journal: ModelSettlementJournal
    var charges: Ledger

    constructor (journal: ModelSettlementJournal)
      ensures this.journal == journal && charges == map[]
    {
      this.journal := journal;
      charges := map[];
    }

    /** One row: the update, then the removal; or neither, or only the update when its answer was lost. */
    method MoveRow(id: Id, answers: bool, lost: bool) returns (failed: Option<Failed>)
      requires id in journal.rows
      modifies this, journal
      ensures answers && Conflicts(old(journal.rows), old(charges), id) ==>
        failed == Some(Conflict) && charges == old(charges)
      ensures answers && !Conflicts(old(journal.rows), old(charges), id) ==>
        failed == None && charges == old(charges)[id := AfterFlush(old(journal.rows), old(charges), id)]
      ensures answers ==> journal.rows == old(journal.rows) - {id}
      ensures !answers ==> failed == Some(DatabaseUnavailable) && journal.rows == old(journal.rows)
      ensures !answers ==>
        (charges == old(charges)
         || (id in old(charges) && charges == old(charges)[id := AfterFlush(old(journal.rows), old(charges), id)]))
    {
      var matched := id in charges && Project(charges[id], journal.rows[id]).Some?;
      if matched && (answers || lost) {
        charges := charges[id := Project(charges[id], journal.rows[id]).value];
      }
      if !answers {
        return Some(DatabaseUnavailable);
      }
      journal.Remove(id);
      failed := if matched then None else Some(Conflict);
    }

    /** The rows of one read of the journal, in order. */
    method FlushRows(pending: seq<Id>, queries: nat, lost: bool, ghost rows: Journal, ghost ledger: Ledger)
      returns (failed: Option<Failed>, rest: nat)
      requires Lists(pending, journal.rows) && Progress(rows, ledger, journal.rows, charges)
      modifies this, journal
      ensures rest <= queries
      ensures failed.None? ==> journal.rows == map[] && Progress(rows, ledger, journal.rows, charges)
      ensures Flushed(rows, ledger, journal.rows, charges, failed, rest)
    {
      hide AfterFlush, Progress, Flushed, Moved, Conflicts;
      rest := queries;
      var n := 0;
      while n < |pending|
        invariant 0 <= n <= |pending| && rest <= queries
        invariant Progress(rows, ledger, journal.rows, charges)
        invariant forall id :: id in journal.rows <==> id in pending[n..]
      {
        var id := pending[n];
        assert id in journal.rows;
        ghost var before, ledgerBefore := journal.rows, charges;
        failed := MoveRow(id, rest > 0, lost);
        if failed == Some(Conflict) {
          RowRefused(rows, ledger, before, ledgerBefore, id, rest - 1);
          return failed, rest - 1;
        }
        if failed == Some(DatabaseUnavailable) {
          DatabaseGone(rows, ledger, before, ledgerBefore, id, charges);
          return;
        }
        RowMoved(rows, ledger, before, ledgerBefore, id);
        rest := rest - 1;
        assert pending[n..] == [id] + pending[n + 1..];
        n := n + 1;
      }
      failed := None;
      assert journal.rows == map[];
      AllMoved(rows, ledger, charges, rest);
    }

    /**
     flush(), with a database that answers `queries` more queries and then is
     gone; `lost` says that its last answer was lost although the write was made.
     */
    method Flush(queries: nat, lost: bool) returns (failed: Option<Failed>, rest: nat)
      modifies this, journal
      ensures rest <= queries
      ensures Flushed(old(journal.rows), old(charges), journal.rows, charges, failed, rest)
    {
      rest := queries;
      ghost var rows, ledger := journal.rows, charges;
      while true
        invariant rest <= queries
        invariant Progress(rows, ledger, journal.rows, charges)
        decreases |journal.rows|
      {
        hide AfterFlush, Progress, Flushed, Moved, Conflicts;
        var pending := journal.Pending();
        if |pending| == 0 {
          assert journal.rows == map[];
          AllMoved(rows, ledger, charges, rest);
          return None, rest;
        }
        assert pending[0] in journal.rows;
        failed, rest := FlushRows(pending, rest, lost, rows, ledger);
        if failed.Some? {
          return;
        }
      }
    }

    /** settle() and absorb(): the outcome is durable before the flush, whose outages are deferred. */
    method Conclude(id: Id, outcome: Settlement, queries: nat, lost: bool) returns (failed: Option<Failed>)
      modifies this, journal
      ensures failed != Some(DatabaseUnavailable)
      ensures Keep(old(journal.rows), id, outcome).None? ==>
        failed == Some(Conflict) && journal.rows == old(journal.rows) && charges == old(charges)
      ensures Keep(old(journal.rows), id, outcome).Some? ==>
        Moved(Keep(old(journal.rows), id, outcome).value, old(charges), journal.rows, charges)
      ensures failed.None? && id in charges ==> id in journal.rows || !charges[id].Reserved?
    {
      var recorded := journal.Record(id, outcome);
      if !recorded {
        return Some(Conflict);
      }
      ghost var rows := journal.rows;
      assert id in rows;
      var rest;
      failed, rest := Flush(queries, lost);
      if failed == Some(DatabaseUnavailable) {
        failed := None;
      }
      if failed.None? && id in charges && id !in journal.rows {
        Told(rows, old(charges), id);
      }
    }

    /** On a successful recovery every charge is decided: journalled outcomes first, what nobody recorded absorbed. */
    method RecoverInterrupted(queries: nat, lost: bool) returns (failed: Option<Failed>)
      modifies this, journal
      ensures charges.Keys == old(charges).Keys
      ensures failed.None? ==>
        journal.rows == map[]
        && forall id :: id in charges ==>
             charges[id] == (if AfterFlush(old(journal.rows), old(charges), id).Reserved? then Absorbed
                             else AfterFlush(old(journal.rows), old(charges), id))
      ensures forall id :: id in charges && id in old(journal.rows) && old(charges)[id].Reserved? ==>
        charges[id].Reserved? || Tells(charges[id], old(journal.rows)[id])
    {
      hide Project;
      ghost var rows, ledger := journal.rows, charges;
      var rest;
      failed, rest := Flush(queries, lost);
      FirstFlush(rows, ledger, journal.rows, charges);
      if failed.Some? {
        return;
      }
      if rest == 0 {
        return Some(DatabaseUnavailable);
      }
      ghost var settled := charges;
      RecordReserved();
      ghost var recorded := journal.rows;
      failed, rest := Flush(rest - 1, lost);
      SecondFlush(recorded, settled, journal.rows, charges);
    }

    /** Records every charge that is still reserved as absorbed. */
    method RecordReserved()
      requires journal.rows == map[]
      modifies journal
      ensures journal.rows == map id | id in charges && charges[id].Reserved? :: Unknown
    {
      var left := set id | id in charges && charges[id].Reserved?;
      ghost var all := left;
      while left != {}
        invariant left <= all && charges == old(charges)
        invariant journal.rows == map id | id in all - left :: Unknown
        decreases left
      {
        var id :| id in left;
        var _ := journal.Record(id, Unknown);
        left := left - {id};
      }
    }
  }

  lemma Told(rows: Journal, ledger: Ledger, id: Id)
    requires id in rows && id in ledger
    ensures !AfterFlush(rows, ledger, id).Reserved?
    ensures ledger[id].Reserved? ==> Tells(AfterFlush(rows, ledger, id), rows[id])
  {
  }

  lemma FirstFlush(rows: Journal, ledger: Ledger, journal: Journal, charges: Ledger)
    requires Moved(rows, ledger, journal, charges)
    ensures forall id :: id in charges && id in rows && ledger[id].Reserved? ==>
      charges[id].Reserved? || Tells(charges[id], rows[id])
    ensures forall id :: id in charges && id in rows && id !in journal && ledger[id].Reserved? ==>
      Tells(charges[id], rows[id])
  {
  }

  /** Only what is still reserved is recorded and flushed the second time. */
  lemma SecondFlush(rows: Journal, ledger: Ledger, journal: Journal, charges: Ledger)
    requires Moved(rows, ledger, journal, charges)
    requires rows == map id | id in ledger && ledger[id].Reserved? :: Unknown
    ensures forall id :: id in ledger ==> !ledger[id].Reserved? ==> charges[id] == ledger[id]
    ensures journal == map[] ==> forall id :: id in ledger ==>
      charges[id] == if ledger[id].Reserved? then Absorbed else ledger[id]
  {
  }
}
