/** The edit by which a compaction's callback deletes files: it names no column family. */
module DeleteEdits {
  import opened Coding
  import opened VersionEdits
  import opened Collecting
  import Order
  import Accounting
  import Recovery

  function Removal(gone: seq<nat>, seqno: nat): Edit {
    Edit(None, Accounting.DEFAULT_CF, [], seq(|gone|, i requires 0 <= i < |gone| => Deletion(gone[i], seqno)), map[])
  }

  /** File numbers are unique across column families. */
  ghost predicate GlobalNumbers(open: map<nat, Storage>) {
    forall a, b, n :: a in open && b in open && n in open[a].files && n in open[b].files ==> a == b
  }

  lemma RemovalBatch(db: Recovery.Db, gone: seq<nat>, seqno: nat)
    requires Order.Distinct(gone)
    ensures var o, e := Recovery.Batch(Recovery.Stamped(db, Removal(gone, seqno))), Recovery.Stamped(db, Removal(gone, seqno));
      && o.status.Ok? && o.collector.cfs == map[Accounting.DEFAULT_CF := CfEdits(map[], Recovery.DeletedBy(e))]
      && forall n :: n in Recovery.DeletedBy(e) <==> n in gone
  {
    var e := Recovery.Stamped(db, Removal(gone, seqno));
    var items := DeletionItems(e.deleted);
    assert forall i :: 0 <= i < |items| ==> items[i].key == gone[i];
    Recovery.TakesThenAccepts(NEW_COLLECTOR, e);
    Recovery.AcceptedBatch(e);
    forall n ensures n in Recovery.DeletedBy(e) <==> n in gone {
      Recovery.FillKeys(items, n);
      if n in gone {
        var i :| 0 <= i < |gone| && gone[i] == n;
        assert items[i].key == n;
      }
    }
  }

  /** Deleting files of column family `cf` is accepted exactly if there is none, or `cf` is the default one and none is obsolete yet. */
  lemma RemovalIsAcceptedIff(db: Recovery.Db, cf: nat, gone: seq<nat>, seqno: nat)
    requires Accounting.DEFAULT_CF in db.open && cf in db.open && GlobalNumbers(db.open)
    requires Order.Distinct(gone) && forall n :: n in gone ==> n in db.open[cf].files
    ensures Recovery.Accepted(db, Removal(gone, seqno)) <==>
      gone == [] || (cf == Accounting.DEFAULT_CF && forall n :: n in gone ==> n !in db.open[cf].obsolete)
  {
    RemovalBatch(db, gone, seqno);
    if gone != [] {
      assert gone[0] in gone;
      assert cf != Accounting.DEFAULT_CF ==> gone[0] !in db.open[Accounting.DEFAULT_CF].files;
    }
  }

  lemma AppliedRemoval(d: map<nat, nat>, st: Storage)
    ensures Applied(CfEdits(map[], d), st) == Storage(st.files, st.obsolete + d.Keys)
  {
    assert Kept(CfEdits(map[], d)) == map[];
    assert map[] + st.files == st.files && d.Keys - {} == d.Keys;
  }

  lemma LoggedRemoval(db: Recovery.Db, gone: seq<nat>, seqno: nat)
    requires Accounting.DEFAULT_CF in db.open && Order.Distinct(gone)
    ensures var st := db.open[Accounting.DEFAULT_CF];
      Recovery.Logged(db, Removal(gone, seqno)).open == db.open[Accounting.DEFAULT_CF := Storage(st.files, st.obsolete + Order.Elements(gone))]
  {
    RemovalBatch(db, gone, seqno);
    var d := Recovery.DeletedBy(Recovery.Stamped(db, Removal(gone, seqno)));
    AppliedRemoval(d, db.open[Accounting.DEFAULT_CF]);
    assert d.Keys == Order.Elements(gone);
  }

  /** What the edit then does: in the default column family all the files become obsolete; in any other, an accepted edit names none. */
  lemma RemovalObsoletes(db: Recovery.Db, cf: nat, gone: seq<nat>, seqno: nat)
    requires Accounting.DEFAULT_CF in db.open && cf in db.open && GlobalNumbers(db.open)
    requires Order.Distinct(gone) && forall n :: n in gone ==> n in db.open[cf].files
    requires Recovery.Accepted(db, Removal(gone, seqno))
    ensures var open' := Recovery.Logged(db, Removal(gone, seqno)).open;
      if cf == Accounting.DEFAULT_CF then open'[cf] == Storage(db.open[cf].files, db.open[cf].obsolete + Order.Elements(gone))
      else open' == db.open
  {
    RemovalIsAcceptedIff(db, cf, gone, seqno);
    LoggedRemoval(db, gone, seqno);
    var st := db.open[Accounting.DEFAULT_CF];
    assert gone == [] ==> st.obsolete + Order.Elements(gone) == st.obsolete;
  }
}
