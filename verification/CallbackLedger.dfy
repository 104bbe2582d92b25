/**
 * Accounts when a table and its callback are two steps: flushes and compactions install their
 * tables first, and report to the accounts later, in any order.
 */
module CallbackLedger {
  import opened Coding
  import opened Accounting
  import opened BlobFormat
  import opened Ledger

  /** What a flush or compaction has to report; `created` gives the files it wrote. */
  datatype Callback =
    | FlushDone(created: map<nat, nat>, property: map<nat, int>)
    | CompactDone(created: map<nat, nat>, diff: map<nat, int>, novel: set<nat>)

  datatype Books = Books(core: Ledger.State, pending: seq<Callback>)

  /** The bytes of a file that a callback is going to charge. */
  function Charge(cb: Callback, f: nat): nat {
    if cb.CompactDone? && Get(cb.diff, f) < 0 then -Get(cb.diff, f) else 0
  }

  function Owed(pending: seq<Callback>, f: nat): nat {
    if pending == [] then 0 else Owed(pending[..|pending| - 1], f) + Charge(pending[|pending| - 1], f)
  }

  /** Bytes of a file that tables reference or that are still to be charged. */
  function Total(s: Books, f: nat): nat {
    AllBytes(s.core.tables, f) + Owed(s.pending, f)
  }

  function CallbackOf(low: Ledger.Step): Callback
    requires low.Flush? || low.Compact?
  {
    if low.Flush? then FlushDone(low.created, low.property) else CompactDone(low.created, low.diff, low.novel)
  }

  /** File numbers are not reused, and sizes fit their 64 bits. */
  ghost predicate CanInstall(s: Books, low: Ledger.Step) {
    && (low.Flush? || low.Compact?) && Ledger.Enabled(s.core, low)
    && (forall f :: f in low.created ==> low.created[f] < U64)
    && (forall f, i :: f in low.created && 0 <= i < |s.pending| ==> f !in s.pending[i].created)
  }

  /** New files are known and new tables in place before the callback runs. */
  ghost function Installed(s: Books, low: Ledger.Step): Books
    requires low.Flush? || (low.Compact? && |low.picked| == |s.core.tables|)
  {
    Books(Ledger.State(Ledger.Next(s.core, low).tables, s.core.files + Opened(low.created),
                       s.core.base + Payloads(low.created), s.core.whole + low.created.Keys),
          s.pending + [CallbackOf(low)])
  }

  function Reported(files: map<nat, Account>, cb: Callback): map<nat, Account> {
    match cb
    case FlushDone(_, property) => AfterFlush(files, property)
    case CompactDone(_, diff, novel) => AfterCompaction(DEFAULT_CF, files, diff, novel)
  }

  function Without(pending: seq<Callback>, i: nat): seq<Callback>
    requires i < |pending|
  {
    pending[..i] + pending[i + 1..]
  }

  function Called(s: Books, i: nat): Books
    requires i < |s.pending|
  {
    Books(s.core.(files := Reported(s.core.files, s.pending[i])), Without(s.pending, i))
  }

  ghost function Purged(s: Books, f: nat): Books {
    s.(core := Ledger.Next(s.core, Purge(f)))
  }

  /** A restart forgets the callbacks that have not run. */
  ghost function Restarted(s: Books): Books {
    Books(Ledger.Next(s.core, Restart), [])
  }

  // Invariant.

  /** The law: discardable, referenced and not yet charged bytes add up. */
  ghost predicate Balances(s: Books) {
    && s.core.files.Keys == s.core.base.Keys && s.core.whole <= s.core.files.Keys
    && forall f :: f in s.core.files ==> Balanced(s.core.files[f], s.core.base[f], f in s.core.whole, Total(s, f))
  }

  ghost predicate Known(s: Books) {
    forall f :: Total(s, f) > 0 ==> f in s.core.files
  }

  /** A callback speaks of its new files at their full payload and charges none of them. */
  ghost predicate CallbackOk(files: map<nat, Account>, cb: Callback) {
    && (forall f :: f in cb.created && f in files ==> files[f].size == cb.created[f])
    && (forall f :: f in cb.created ==> Charge(cb, f) == 0)
    && (cb.FlushDone? ==> forall f :: f in cb.property ==> f in cb.created && cb.property[f] == cb.created[f] - HEADER_SIZE - FOOTER_SIZE > 0)
    && (cb.CompactDone? ==> cb.novel <= cb.created.Keys)
  }

  ghost predicate CallbacksOk(s: Books) {
    forall i :: 0 <= i < |s.pending| ==> CallbackOk(s.core.files, s.pending[i])
  }

  ghost predicate Fits(s: Books) {
    forall f :: f in s.core.files ==> s.core.files[f].size < U64
  }

  ghost predicate Inv(s: Books) {
    Balances(s) && Known(s) && CallbacksOk(s) && Fits(s)
  }

  /** The guard under which a callback finds things as its flush or compaction left them. */
  ghost predicate OnTime(files: map<nat, Account>, cb: Callback) {
    forall f :: f in files ==> OnTimeFor(files, cb, f)
  }

  /** No later callback has charged the new file, and the callback does not give up before it charges the old one. */
  ghost predicate OnTimeFor(files: map<nat, Account>, cb: Callback, f: nat)
    requires f in files
  {
    match cb
    case FlushDone(_, property) => f in property && !files[f].obsolete ==> files[f].discardable == 0
    case CompactDone(_, diff, novel) => novel <= files.Keys || Get(diff, f) >= 0
  }

  // Sums of what is owed.

  lemma OwedMore(pending: seq<Callback>, cb: Callback, f: nat)
    ensures Owed(pending + [cb], f) == Owed(pending, f) + Charge(cb, f)
  {
    assert (pending + [cb])[..|pending|] == pending;
  }

  lemma {:induction false} OwedWithout(pending: seq<Callback>, i: nat, f: nat)
    requires i < |pending|
    ensures Owed(pending, f) == Owed(Without(pending, i), f) + Charge(pending[i], f)
    decreases |pending|
  {
    var n := |pending| - 1;
    if i == n {
      assert Without(pending, i) == pending[..n];
    } else {
      OwedWithout(pending[..n], i, f);
      assert Without(pending, i) == Without(pending[..n], i) + [pending[n]];
      OwedMore(Without(pending[..n], i), pending[n], f);
    }
  }

  // Installing.

  lemma InstalledBytes(s: Books, low: Ledger.Step, f: nat)
    requires CanInstall(s, low)
    ensures AllBytes(Ledger.Next(s.core, low).tables, f) + Charge(CallbackOf(low), f) ==
      AllBytes(s.core.tables, f) + if f in low.created then low.created[f] - HEADER_SIZE - FOOTER_SIZE else 0
    ensures f in low.created ==> f !in s.core.files && AllBytes(s.core.tables, f) == 0 && Charge(CallbackOf(low), f) == 0
    ensures f in low.created ==> low.created[f] - HEADER_SIZE - FOOTER_SIZE > 0
  {
    if low.Flush? { FlushBytes(s.core, low, f); } else { CompactBytes(s.core, low, f); }
  }

  /** Referenced and owed bytes together grow by what was written. */
  lemma TotalGrows(s: Books, t: Books, cb: Callback, f: nat, gain: nat)
    requires t.pending == s.pending + [cb] && AllBytes(t.core.tables, f) + Charge(cb, f) == AllBytes(s.core.tables, f) + gain
    ensures Total(t, f) == Total(s, f) + gain
  {
    OwedMore(s.pending, cb, f);
  }

  lemma InstalledOk(s: Books, low: Ledger.Step)
    requires CanInstall(s, low)
    ensures CallbackOk(s.core.files + Opened(low.created), CallbackOf(low))
  {
    forall f ensures f in low.created ==> Charge(CallbackOf(low), f) == 0 { InstalledBytes(s, low, f); }
    if low.Flush? {
      forall f | f in low.property ensures f in low.created && low.property[f] == low.created[f] - HEADER_SIZE - FOOTER_SIZE > 0 {
        FlushBytes(s.core, low, f);
        assert Get(low.property, f) == TableBytes(low.table, f);
      }
    }
  }

  lemma InstalledFile(s: Books, low: Ledger.Step, t: Books, f: nat)
    requires Inv(s) && CanInstall(s, low) && t == Installed(s, low)
    ensures f in low.created ==> f !in s.core.files && Total(t, f) == low.created[f] - HEADER_SIZE - FOOTER_SIZE
    ensures f !in low.created ==> Total(t, f) == Total(s, f)
  {
    InstalledBytes(s, low, f);
    TotalGrows(s, t, CallbackOf(low), f, if f in low.created then low.created[f] - HEADER_SIZE - FOOTER_SIZE else 0);
  }

  lemma InstalledBalances(s: Books, low: Ledger.Step, t: Books)
    requires Inv(s) && CanInstall(s, low) && t == Installed(s, low)
    ensures Balances(t) && Known(t)
  {
    forall f
      ensures f in t.core.files ==> Balanced(t.core.files[f], t.core.base[f], f in t.core.whole, Total(t, f))
      ensures Total(t, f) > 0 ==> f in t.core.files
    {
      InstalledFile(s, low, t, f);
    }
  }

  lemma InstallKeepsInv(s: Books, low: Ledger.Step, t: Books)
    requires Inv(s) && CanInstall(s, low) && t == Installed(s, low)
    ensures Inv(t)
  {
    InstalledBalances(s, low, t);
    InstalledOk(s, low);
    AppendedOk(s, t, CallbackOf(low));
  }

  /** A callback is added, and its new files are known and mentioned by no other. */
  ghost predicate Appended(s: Books, t: Books, cb: Callback) {
    && t.pending == s.pending + [cb] && t.core.files == s.core.files + Opened(cb.created)
    && (forall f, i :: f in cb.created && 0 <= i < |s.pending| ==> f !in s.pending[i].created)
  }

  lemma AppendedOk(s: Books, t: Books, cb: Callback)
    requires CallbacksOk(s) && Appended(s, t, cb) && CallbackOk(t.core.files, cb)
    ensures CallbacksOk(t)
  {
    forall i | 0 <= i < |s.pending| ensures CallbackOk(t.core.files, s.pending[i]) { assert CallbackOk(s.core.files, s.pending[i]); }
  }

  // Reporting.

  /** Nothing that is to be charged is obsolete, so the delete edit is accepted. */
  lemma ReportedDeletions(s: Books, i: nat)
    requires Inv(s) && i < |s.pending| && s.pending[i].CompactDone?
    ensures EditAccepted(DEFAULT_CF, s.core.files, Deletions(s.core.files, s.pending[i].diff))
  {
    forall f | f in Deletions(s.core.files, s.pending[i].diff) ensures !s.core.files[f].obsolete {
      OwedWithout(s.pending, i, f);
    }
  }

  function ReportedFor(files: map<nat, Account>, cb: Callback, f: nat): Account
    requires f in files
  {
    match cb
    case FlushDone(_, property) => if f in property then Flushed(files[f], property[f]) else files[f]
    case CompactDone(_, diff, novel) => if novel <= files.Keys then AfterLoss(files[f], Get(diff, f)) else files[f]
  }

  lemma ReportedFile(s: Books, i: nat, f: nat)
    requires Inv(s) && i < |s.pending| && f in s.core.files
    ensures f in Reported(s.core.files, s.pending[i])
    ensures Reported(s.core.files, s.pending[i])[f] == ReportedFor(s.core.files, s.pending[i], f)
  {
    if s.pending[i].CompactDone? { ReportedDeletions(s, i); }
  }

  /** With `total` bytes referenced or owed, of which the callback charges some. */
  lemma FlushBalancesIff(a: Account, base: int, whole: bool, total: nat)
    requires Balanced(a, base, whole, total) && 0 < Payload(a) < U64
    ensures Balanced(Flushed(a, Payload(a)), base, whole, total) <==> a.obsolete || a.discardable == 0
  {
    var d := a.discardable;
    if 0 < d <= Payload(a) {
      assert Wrapped(d - Payload(a)) != d;
    }
  }

  lemma ForgottenBalancesIff(a: Account, base: int, whole: bool, total: nat, charge: nat)
    requires Balanced(a, base, whole, total) && charge <= total
    ensures Balanced(a, base, whole, total - charge) <==> charge == 0
  {
  }

  /** The same for one file and either kind of callback. */
  lemma ReportBalancesIff(files: map<nat, Account>, cb: Callback, f: nat, base: int, whole: bool, total: nat)
    requires f in files && CallbackOk(files, cb) && files[f].size < U64
    requires Balanced(files[f], base, whole, total) && Charge(cb, f) <= total
    ensures Balanced(ReportedFor(files, cb, f), base, whole, total - Charge(cb, f)) <==> OnTimeFor(files, cb, f)
  {
    var a := files[f];
    if cb.FlushDone? {
      if f in cb.property { FlushBalancesIff(a, base, whole, total); }
    } else if cb.novel <= files.Keys {
      if Get(cb.diff, f) < 0 { LossBalances(a, base, whole, total, Get(cb.diff, f)); }
    } else {
      ForgottenBalancesIff(a, base, whole, total, Charge(cb, f));
    }
  }

  lemma CalledBalancesIff(s: Books, i: nat, f: nat)
    requires Inv(s) && i < |s.pending| && f in s.core.files
    ensures f in Called(s, i).core.files
    ensures Balanced(Called(s, i).core.files[f], s.core.base[f], f in s.core.whole, Total(Called(s, i), f)) <==>
      OnTimeFor(s.core.files, s.pending[i], f)
  {
    ReportedFile(s, i, f);
    OwedWithout(s.pending, i, f);
    ReportBalancesIff(s.core.files, s.pending[i], f, s.core.base[f], f in s.core.whole, Total(s, f));
  }

  /** A callback keeps the law exactly if it is on time. */
  lemma CallbackKeepsLawIff(s: Books, i: nat)
    requires Inv(s) && i < |s.pending|
    ensures Balances(Called(s, i)) <==> OnTime(s.core.files, s.pending[i])
    ensures OnTime(s.core.files, s.pending[i]) ==> Inv(Called(s, i))
  {
    var t := Called(s, i);
    forall f | f in s.core.files
      ensures f in t.core.files && t.core.files[f].size == s.core.files[f].size
      ensures Balanced(t.core.files[f], s.core.base[f], f in s.core.whole, Total(t, f)) <==> OnTimeFor(s.core.files, s.pending[i], f)
    {
      ReportedFile(s, i, f);
      CalledBalancesIff(s, i, f);
    }
    ReportedKeys(s.core.files, s.pending[i]);
    forall f ensures Total(t, f) <= Total(s, f) { OwedWithout(s.pending, i, f); }
    forall j | 0 <= j < |t.pending| ensures CallbackOk(t.core.files, t.pending[j]) {
      assert CallbackOk(s.core.files, s.pending[if j < i then j else j + 1]);
    }
  }

  lemma ReportedKeys(files: map<nat, Account>, cb: Callback)
    ensures Reported(files, cb).Keys == files.Keys
  {
  }

  // Purge and restart.

  lemma PurgeKeepsInv(s: Books, f: nat)
    requires Inv(s) && f in s.core.files && s.core.files[f].obsolete
    ensures Inv(Purged(s, f))
  {
    var t := Purged(s, f);
    forall j | 0 <= j < |t.pending| ensures CallbackOk(t.core.files, t.pending[j]) { assert CallbackOk(s.core.files, s.pending[j]); }
  }

  lemma RestartKeepsInv(s: Books)
    requires Inv(s)
    ensures Inv(Restarted(s))
  {
  }

  // Callbacks in the order of their installations.

  /** New files are still untouched, and no earlier callback will charge them. */
  ghost predicate Untouched(s: Books) {
    && (forall i, f :: 0 <= i < |s.pending| && f in s.pending[i].created ==>
          f in s.core.files && !s.core.files[f].obsolete && s.core.files[f].discardable == 0)
    && (forall i, j, f :: 0 <= i < j < |s.pending| && f in s.pending[j].created ==> Charge(s.pending[i], f) == 0)
  }

  lemma FirstIsOnTime(s: Books)
    requires Inv(s) && Untouched(s) && s.pending != []
    ensures OnTime(s.core.files, s.pending[0])
  {
    assert CallbackOk(s.core.files, s.pending[0]);
  }

  lemma InstallKeepsUntouched(s: Books, low: Ledger.Step, t: Books)
    requires Inv(s) && Untouched(s) && CanInstall(s, low) && t == Installed(s, low)
    ensures Untouched(t)
  {
    forall f | f in low.created ensures f !in s.core.files { InstalledBytes(s, low, f); }
    forall i, f | 0 <= i < |s.pending| && f in low.created ensures Charge(s.pending[i], f) == 0 { OwedWithout(s.pending, i, f); }
    AppendedUntouched(s, t, CallbackOf(low));
  }

  lemma AppendedUntouched(s: Books, t: Books, cb: Callback)
    requires Untouched(s) && Appended(s, t, cb)
    requires forall i, f :: 0 <= i < |s.pending| && f in cb.created ==> Charge(s.pending[i], f) == 0
    ensures Untouched(t)
  {
    forall i, f | 0 <= i < |t.pending| && f in t.pending[i].created
      ensures f in t.core.files && !t.core.files[f].obsolete && t.core.files[f].discardable == 0
    {
      if i < |s.pending| { assert t.pending[i] == s.pending[i] && f !in cb.created; }
    }
  }

  lemma UnchargedStays(files: map<nat, Account>, cb: Callback, f: nat)
    requires f in files && files[f].discardable == 0 && CallbackOk(files, cb) && Charge(cb, f) == 0
    ensures ReportedFor(files, cb, f) == files[f]
  {
  }

  /** The first callback has run, file by file. */
  ghost predicate FirstRan(s: Books, t: Books) {
    && s.pending != [] && t.pending == s.pending[1..] && CallbackOk(s.core.files, s.pending[0])
    && forall f :: f in s.core.files ==> f in t.core.files && t.core.files[f] == ReportedFor(s.core.files, s.pending[0], f)
  }

  lemma CalledRanFirst(s: Books)
    requires Inv(s) && s.pending != []
    ensures FirstRan(s, Called(s, 0))
  {
    forall f | f in s.core.files
      ensures f in Called(s, 0).core.files && Called(s, 0).core.files[f] == ReportedFor(s.core.files, s.pending[0], f)
    {
      ReportedFile(s, 0, f);
    }
  }

  lemma FirstKeepsUntouched(s: Books, t: Books)
    requires Untouched(s) && FirstRan(s, t)
    ensures Untouched(t)
  {
    assert forall j :: 0 <= j < |t.pending| ==> t.pending[j] == s.pending[j + 1];
    forall j, f | 0 <= j < |t.pending| && f in t.pending[j].created
      ensures f in t.core.files && !t.core.files[f].obsolete && t.core.files[f].discardable == 0
    {
      assert f in s.pending[j + 1].created;
      UnchargedStays(s.core.files, s.pending[0], f);
    }
  }
}
