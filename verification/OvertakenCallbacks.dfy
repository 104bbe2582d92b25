/** Callbacks that come after one of a later installation, and what they do to the books. */
module OvertakenCallbacks {
  import opened Coding
  import opened Accounting
  import opened BlobFormat
  import opened CallbackLedger
  import C = CallbackRuns
  import F = ForgottenGarbage
  import T = TableBuilding
  import Ledger

  // Two installations whose callbacks have not run; the second is a compaction.

  /** `g` is a file that the first one wrote. */
  ghost predicate BothInstalled(s: Books, first: Ledger.Step, second: Ledger.Step, g: nat) {
    && CanInstall(s, first) && g in first.created
    && CanInstall(Installed(s, first), second) && second.Compact?
  }

  /** What both callbacks find: nothing of the new file is charged, and what the tables lost is owed by the second. */
  ghost predicate Ready(s: Books, b: Books, first: Callback, second: Callback, g: nat) {
    && Inv(b) && b.pending == s.pending + [first] + [second] && second.CompactDone? && second.novel <= b.core.files.Keys
    && g in first.created && g in b.core.files && b.core.files[g] == Account(first.created[g], 0, false)
    && AllBytes(b.core.tables, g) + Charge(second, g) == Payload(b.core.files[g]) > 0
  }

  lemma NewFile(s: Books, step: Ledger.Step, a: Books, g: nat)
    requires Inv(s) && CanInstall(s, step) && a == Installed(s, step) && g in step.created
    ensures Inv(a) && g in a.core.files && a.core.files[g] == Account(step.created[g], 0, false)
    ensures Total(a, g) == Payload(a.core.files[g]) > 0 && Owed(a.pending, g) == 0
  {
    InstallKeepsInv(s, step, a);
    InstalledFile(s, step, a, g);
    InstalledBytes(s, step, g);
    OwedMore(s.pending, CallbackOf(step), g);
  }

  lemma SecondInstalls(a: Books, second: Ledger.Step, b: Books, g: nat)
    requires Inv(a) && CanInstall(a, second) && b == Installed(a, second) && second.Compact?
    requires g in a.core.files && Owed(a.pending, g) == 0
    ensures Inv(b) && g in b.core.files && b.core.files[g] == a.core.files[g]
    ensures AllBytes(b.core.tables, g) + Charge(CallbackOf(second), g) == Total(a, g)
    ensures second.novel <= b.core.files.Keys
  {
    InstallKeepsInv(a, second, b);
    InstalledFile(a, second, b, g);
    OwedMore(a.pending, CallbackOf(second), g);
  }

  lemma BothAreReady(s: Books, first: Ledger.Step, second: Ledger.Step, g: nat)
    requires Inv(s) && BothInstalled(s, first, second, g)
    ensures Ready(s, Installed(Installed(s, first), second), CallbackOf(first), CallbackOf(second), g)
  {
    var a := Installed(s, first);
    NewFile(s, first, a, g);
    SecondIsReady(s, a, CallbackOf(first), second, g);
  }

  lemma SecondIsReady(s: Books, a: Books, first: Callback, second: Ledger.Step, g: nat)
    requires Inv(a) && CanInstall(a, second) && second.Compact? && a.pending == s.pending + [first]
    requires g in first.created && g in a.core.files && a.core.files[g] == Account(first.created[g], 0, false)
    requires Total(a, g) == Payload(a.core.files[g]) > 0 && Owed(a.pending, g) == 0
    ensures Ready(s, Installed(a, second), first, CallbackOf(second), g)
  {
    SecondInstalls(a, second, Installed(a, second), g);
  }

  /** The second one reports first. */
  lemma SecondReports(s: Books, b: Books, first: Callback, second: Callback, g: nat)
    requires Ready(s, b, first, second, g) && Charge(second, g) > 0
    ensures |b.pending| == |s.pending| + 2
    ensures var c := Called(b, |s.pending| + 1);
      && Inv(c) && c.pending == s.pending + [first] && g in c.core.files
      && c.core.files[g] == Account(first.created[g], Charge(second, g), AllBytes(b.core.tables, g) == 0)
  {
    var i := |s.pending| + 1;
    assert b.pending[i] == second;
    ReportedFile(b, i, g);
    CallbackKeepsLawIff(b, i);
    assert Without(b.pending, i) == s.pending + [first];
  }

  // A compaction's new file is deleted before the compaction reports.

  lemma GivenUp(p: Books, i: nat, g: nat)
    requires Inv(p) && i < |p.pending| && p.pending[i].CompactDone? && g in p.pending[i].novel && g !in p.core.files
    ensures Called(p, i).core.files == p.core.files
    ensures Balances(Called(p, i)) <==> forall f :: f in p.core.files ==> Get(p.pending[i].diff, f) >= 0
  {
    CallbackKeepsLawIff(p, i);
    var cb := p.pending[i];
    assert !(cb.novel <= p.core.files.Keys);
    assert OnTime(p.core.files, cb) <==> forall f :: f in p.core.files ==> OnTimeFor(p.core.files, cb, f);
  }

  lemma PurgedThenGivenUp(c: Books, i: nat, move: Callback, g: nat)
    requires Inv(c) && g in c.core.files && c.core.files[g].obsolete
    requires i < |c.pending| && c.pending[i] == move && move.CompactDone? && g in move.novel
    ensures var p := Purged(c, g);
      && Called(p, i).core.files == p.core.files
      && (Balances(Called(p, i)) <==> forall f :: f in p.core.files ==> Get(move.diff, f) >= 0)
  {
    PurgeKeepsInv(c, g);
    GivenUp(Purged(c, g), i, g);
  }

  /**
   * The second compaction drops the last reference to a file the first one wrote. If it reports first,
   * that file is deleted, and once it is purged the first callback gives up without charging anything:
   * the books balance exactly if it had nothing to charge.
   */
  lemma CompactionIsOvertaken(s: Books, move: Ledger.Step, drop: Ledger.Step, g: nat)
    requires Inv(s) && BothInstalled(s, move, drop, g) && move.Compact? && g in move.novel
    requires AllBytes(Installed(Installed(s, move), drop).core.tables, g) == 0
    ensures var b := Installed(Installed(s, move), drop);
      && |b.pending| == |s.pending| + 2
      && var c := Called(b, |s.pending| + 1);
      && g in c.core.files && c.core.files[g].obsolete && |c.pending| == |s.pending| + 1
      && var p := Purged(c, g);
      && Called(p, |s.pending|).core.files == p.core.files
      && (Balances(Called(p, |s.pending|)) <==> forall f :: f in p.core.files ==> Get(move.diff, f) >= 0)
  {
    var b := Installed(Installed(s, move), drop);
    BothAreReady(s, move, drop, g);
    SecondReports(s, b, CallbackOf(move), CallbackOf(drop), g);
    PurgedThenGivenUp(Called(b, |s.pending| + 1), |s.pending|, CallbackOf(move), g);
  }

  // A compaction reports before the flush whose table it read.

  lemma WrapsAround(a: Account)
    requires 0 < a.discardable < Payload(a) < U64
    ensures Flushed(a, Payload(a)).discardable == U64 - (Payload(a) - a.discardable)
  {
  }

  lemma FlushReportsLate(c: Books, i: nat, g: nat)
    requires Inv(c) && i < |c.pending| && c.pending[i].FlushDone? && g in c.pending[i].property
    requires g in c.core.files && !c.core.files[g].obsolete && 0 < c.core.files[g].discardable < Payload(c.core.files[g])
    ensures !Balances(Called(c, i))
    ensures g in Called(c, i).core.files
    ensures Called(c, i).core.files[g].discardable == U64 - (Payload(c.core.files[g]) - c.core.files[g].discardable)
  {
    assert !OnTimeFor(c.core.files, c.pending[i], g);
    CallbackKeepsLawIff(c, i);
    ReportedFile(c, i, g);
    assert CallbackOk(c.core.files, c.pending[i]);
    WrapsAround(c.core.files[g]);
  }

  /**
   * A compaction drops some of the bytes of a file that a flush wrote. If it reports first, the flush
   * takes the file's discardable bytes below zero by what is still referenced; they wrap around, and the
   * books do not balance.
   */
  lemma FlushIsOvertaken(s: Books, flush: Ledger.Step, drop: Ledger.Step, g: nat)
    requires Inv(s) && BothInstalled(s, flush, drop, g) && flush.Flush? && g in flush.property
    requires Get(drop.diff, g) < 0 < AllBytes(Installed(Installed(s, flush), drop).core.tables, g)
    ensures var b := Installed(Installed(s, flush), drop);
      && |b.pending| == |s.pending| + 2
      && var c := Called(b, |s.pending| + 1);
      && |c.pending| == |s.pending| + 1
      && var d := Called(c, |s.pending|);
      && !Balances(d) && g in d.core.files && d.core.files[g].discardable == U64 - AllBytes(b.core.tables, g)
  {
    var b := Installed(Installed(s, flush), drop);
    BothAreReady(s, flush, drop, g);
    SecondReports(s, b, CallbackOf(flush), CallbackOf(drop), g);
    FlushReportsLate(Called(b, |s.pending| + 1), |s.pending|, g);
  }

  // A run that gets there.

  lemma FlushIsInstalled(user: T.UserKey, s: C.State)
    requires C.Initial(s) && s.next == 0
    ensures C.Enabled(s, C.Install(F.FlushStep(user)))
    ensures var a := C.Next(s, C.Install(F.FlushStep(user)));
      && C.Inv(a) && a.next == 1 && a.books.core.tables == [F.TWO]
      && var low := C.Lower(s, F.FlushStep(user)); low.Flush? && 0 in low.created && 0 in low.property && CanInstall(s.books, low)
  {
    F.CanFlush(user, C.Core(s));
    F.FlushedProduct(user);
    C.InitialInv(s);
    C.StepKeepsInv(s, C.Install(F.FlushStep(user)));
    C.InstallAllowed(s, F.FlushStep(user));
  }

  lemma CopyIsInstalled(user: T.UserKey, a: C.State)
    requires C.Inv(a) && a.next == 1 && a.books.core.tables == [F.TWO]
    ensures C.Enabled(a, C.Install(F.CopyStep(user)))
    ensures var low := C.Lower(a, F.CopyStep(user));
      && low.Compact? && Get(low.diff, 0) == -10 && CanInstall(a.books, low) && Installed(a.books, low).core.tables == [F.ONE]
  {
    F.CanCopy(user, C.Core(a));
    F.CopyProducts(user);
    F.CopyLeaves(user, C.Core(a));
    C.InstallAllowed(a, F.CopyStep(user));
  }

  /** Two versions of a key are flushed, the older one is compacted away, and the compaction reports first. */
  lemma OvertakenRun(user: T.UserKey, s: C.State)
    requires C.Initial(s) && s.next == 0
    ensures C.Enabled(s, C.Install(F.FlushStep(user)))
    ensures var a := C.Next(s, C.Install(F.FlushStep(user)));
      && C.Enabled(a, C.Install(F.CopyStep(user)))
      && var b := C.Next(a, C.Install(F.CopyStep(user)));
      && C.Enabled(b, C.Callback(1)) && C.Enabled(C.Next(b, C.Callback(1)), C.Callback(0))
      && var d := C.Next(C.Next(b, C.Callback(1)), C.Callback(0));
      && 0 in d.books.core.files && d.books.core.files[0].discardable == U64 - 10 && !Balances(d.books)
  {
    C.InitialInv(s);
    FlushIsInstalled(user, s);
    var a := C.Next(s, C.Install(F.FlushStep(user)));
    CopyIsInstalled(user, a);
    F.TableSums(0);
    FlushIsOvertaken(s.books, C.Lower(s, F.FlushStep(user)), C.Lower(a, F.CopyStep(user)), 0);
  }
}
