/**
 * Runs in which tables of the table builder are installed first and their callbacks come later, in
 * any order.
 */
module CallbackRuns {
  import opened Coding
  import opened Accounting
  import opened Products
  import opened CallbackLedger
  import R = AccountingRuns
  import Ledger

  datatype State = State(books: Books, next: nat)

  datatype Step =
    | Install(step: R.Step)
    | Callback(i: nat)
    | Purge(file: nat)
    | Restart

  function Core(st: State): R.State {
    R.State(st.books.core, st.next)
  }

  ghost function Lower(st: State, step: R.Step): Ledger.Step
    requires R.Enabled(Core(st), step)
  {
    R.Lower(Core(st), step)
  }

  ghost predicate Enabled(st: State, step: Step) {
    match step
    case Install(s) =>
      && (s.Flush? || s.Compact?) && R.Enabled(Core(st), s)
      && (forall f :: f in Lower(st, s).created ==> Lower(st, s).created[f] < U64)
    case Callback(i) => i < |st.books.pending|
    case Purge(f) => f in st.books.core.files && st.books.core.files[f].obsolete
    case Restart => true
  }

  ghost function Next(st: State, step: Step): State
    requires Enabled(st, step)
  {
    match step
    case Install(s) => State(Installed(st.books, Lower(st, s)), s.limit)
    case Callback(i) => st.(books := Called(st.books, i))
    case Purge(f) => st.(books := Purged(st.books, f))
    case Restart => st.(books := Restarted(st.books))
  }

  // Invariant.

  ghost predicate Numbered(st: State) {
    && R.Numbered(Core(st))
    && (forall i, f :: 0 <= i < |st.books.pending| && f in st.books.pending[i].created ==> f < st.next)
  }

  ghost predicate Inv(st: State) {
    CallbackLedger.Inv(st.books) && Numbered(st)
  }

  ghost predicate Initial(st: State) {
    Ledger.Initial(st.books.core) && st.books.pending == []
  }

  /** Files that a step creates have numbers from the counter on. */
  lemma CreatedAreNew(st: State, step: R.Step, f: nat)
    requires R.Numbered(Core(st)) && (step.Flush? || step.Compact?) && R.Enabled(Core(st), step) && f in Lower(st, step).created
    ensures st.next <= f < step.limit
  {
    if step.Flush? {
      R.FlushIsExact(Core(st), step);
    } else {
      R.CompactIsExact(Core(st), step);
      CreatedIsNew(R.ProductsOf(step.builds), st.next, f);
    }
  }

  lemma InstallAllowed(st: State, step: R.Step)
    requires Numbered(st) && Enabled(st, Install(step))
    ensures CanInstall(st.books, Lower(st, step))
  {
    R.EnabledBelow(Core(st), step);
    forall f, i | f in Lower(st, step).created && 0 <= i < |st.books.pending| ensures f !in st.books.pending[i].created {
      CreatedAreNew(st, step, f);
    }
  }

  /** A step of the accounts whose new files and references keep below `limit`. */
  ghost predicate Within(st: State, low: Ledger.Step, limit: nat) {
    && (low.Flush? || (low.Compact? && |low.picked| == |st.books.core.tables|)) && st.next <= limit
    && (forall f :: f in low.created ==> st.next <= f < limit)
    && (forall t :: t in Ledger.Next(st.books.core, low).tables ==> R.RefsBelow(t, limit))
  }

  lemma CreatedWithin(st: State, step: R.Step, low: Ledger.Step)
    requires R.Numbered(Core(st)) && (step.Flush? || step.Compact?) && R.Enabled(Core(st), step) && low == Lower(st, step)
    ensures forall f :: f in low.created ==> st.next <= f < step.limit
  {
    forall f | f in low.created ensures st.next <= f < step.limit { CreatedAreNew(st, step, f); }
  }

  lemma LimitGrows(st: State, step: R.Step)
    requires (step.Flush? || step.Compact?) && R.Enabled(Core(st), step)
    ensures st.next <= step.limit && (step.Compact? ==> |step.picked| == |st.books.core.tables|)
  {
  }

  lemma TablesWithin(st: State, step: R.Step, low: Ledger.Step)
    requires R.Numbered(Core(st)) && (step.Flush? || step.Compact?) && R.Enabled(Core(st), step) && low == Lower(st, step)
    ensures low.Flush? || (low.Compact? && |low.picked| == |st.books.core.tables|)
    ensures forall t :: t in Ledger.Next(st.books.core, low).tables ==> R.RefsBelow(t, step.limit)
  {
    LimitGrows(st, step);
    assert R.Next(Core(st), step).ledger == Ledger.Next(st.books.core, low);
    if step.Flush? { R.FlushKeepsNumbered(Core(st), step); } else { R.CompactTablesNumbered(Core(st), step); }
  }

  lemma InstallWithin(st: State, step: R.Step, low: Ledger.Step)
    requires R.Numbered(Core(st)) && (step.Flush? || step.Compact?) && R.Enabled(Core(st), step) && low == Lower(st, step)
    ensures Within(st, low, step.limit)
  {
    LimitGrows(st, step);
    CreatedWithin(st, step, low);
    TablesWithin(st, step, low);
  }

  lemma AppendedNumbered(st: State, t: State, cb: Callback)
    requires Numbered(st) && Appended(st.books, t.books, cb) && st.next <= t.next && forall f :: f in cb.created ==> f < t.next
    requires forall table :: table in t.books.core.tables ==> R.RefsBelow(table, t.next)
    ensures Numbered(t)
  {
    forall i, f | 0 <= i < |t.books.pending| && f in t.books.pending[i].created ensures f < t.next {
      if i < |st.books.pending| { assert f in st.books.pending[i].created; }
    }
  }

  lemma InstallKeepsNumbered(st: State, low: Ledger.Step, limit: nat)
    requires Numbered(st) && Within(st, low, limit)
    ensures Numbered(State(Installed(st.books, low), limit))
  {
    AppendedNumbered(st, State(Installed(st.books, low), limit), CallbackOf(low));
  }

  /** Steps other than a callback that comes too late keep the invariant. */
  ghost predicate Late(st: State, step: Step)
    requires Enabled(st, step)
  {
    step.Callback? && !OnTime(st.books.core.files, st.books.pending[step.i])
  }

  lemma CallbackKeepsNumbered(st: State, i: nat)
    requires Numbered(st) && Enabled(st, Callback(i))
    ensures Numbered(Next(st, Callback(i)))
  {
    var t := Next(st, Callback(i));
    ReportedKeys(st.books.core.files, st.books.pending[i]);
    forall j, f | 0 <= j < |t.books.pending| && f in t.books.pending[j].created ensures f < t.next {
      assert f in st.books.pending[if j < i then j else j + 1].created;
    }
  }

  lemma StepKeepsInv(st: State, step: Step)
    requires Inv(st) && Enabled(st, step) && !Late(st, step)
    ensures Inv(Next(st, step))
  {
    match step
    case Install(s) =>
      InstallAllowed(st, s);
      InstallWithin(st, s, Lower(st, s));
      InstallKeepsInv(st.books, Lower(st, s), Installed(st.books, Lower(st, s)));
      InstallKeepsNumbered(st, Lower(st, s), s.limit);
    case Callback(i) =>
      CallbackKeepsLawIff(st.books, i);
      CallbackKeepsNumbered(st, i);
    case Purge(f) => PurgeKeepsInv(st.books, f);
    case Restart => RestartKeepsInv(st.books);
  }

  // Runs.

  ghost predicate Legal(st: State, steps: seq<Step>)
    decreases |steps|
  {
    steps == [] || (Enabled(st, steps[0]) && Legal(Next(st, steps[0]), steps[1..]))
  }

  ghost function Run(st: State, steps: seq<Step>): State
    requires Legal(st, steps)
    decreases |steps|
  {
    if steps == [] then st else Run(Next(st, steps[0]), steps[1..])
  }

  ghost predicate AlwaysBalances(st: State, steps: seq<Step>)
    requires Legal(st, steps)
    decreases |steps|
  {
    Balances(st.books) && (steps == [] || AlwaysBalances(Next(st, steps[0]), steps[1..]))
  }

  /** Some callback of the run comes too late. */
  ghost predicate EverLate(st: State, steps: seq<Step>)
    requires Legal(st, steps)
    decreases |steps|
  {
    steps != [] && (Late(st, steps[0]) || EverLate(Next(st, steps[0]), steps[1..]))
  }

  lemma {:induction false} RunBalancesIff(st: State, steps: seq<Step>)
    requires Inv(st) && Legal(st, steps)
    ensures AlwaysBalances(st, steps) <==> !EverLate(st, steps)
    ensures !EverLate(st, steps) ==> Inv(Run(st, steps))
    decreases |steps|
  {
    if steps != [] {
      if Late(st, steps[0]) {
        CallbackKeepsLawIff(st.books, steps[0].i);
      } else {
        StepKeepsInv(st, steps[0]);
        RunBalancesIff(Next(st, steps[0]), steps[1..]);
      }
    }
  }

  lemma InitialInv(st: State)
    requires Initial(st)
    ensures Inv(st)
  {
  }

  /** In every run from an empty DB the books balance at every point, exactly if no callback comes too late. */
  lemma RunsBalanceIff(st: State, steps: seq<Step>)
    requires Initial(st) && Legal(st, steps)
    ensures AlwaysBalances(st, steps) <==> !EverLate(st, steps)
  {
    InitialInv(st);
    RunBalancesIff(st, steps);
  }

  // Callbacks in the order of their installations are never late.

  ghost predicate InOrder(steps: seq<Step>) {
    forall i :: 0 <= i < |steps| && steps[i].Callback? ==> steps[i].i == 0
  }

  lemma FirstCallback(st: State)
    requires Inv(st) && Untouched(st.books) && st.books.pending != []
    ensures OnTime(st.books.core.files, st.books.pending[0]) && Untouched(Called(st.books, 0))
  {
    FirstIsOnTime(st.books);
    CalledRanFirst(st.books);
    FirstKeepsUntouched(st.books, Called(st.books, 0));
  }

  lemma EndKeepsUntouched(books: Books, f: nat)
    requires Untouched(books) && f in books.core.files && books.core.files[f].obsolete
    ensures Untouched(Purged(books, f)) && Untouched(Restarted(books))
  {
  }

  lemma StepKeepsUntouched(st: State, step: Step)
    requires Inv(st) && Untouched(st.books) && Enabled(st, step) && (step.Callback? ==> step.i == 0)
    ensures !Late(st, step) && Untouched(Next(st, step).books)
  {
    match step
    case Install(s) =>
      InstallAllowed(st, s);
      InstallKeepsUntouched(st.books, Lower(st, s), Installed(st.books, Lower(st, s)));
    case Callback(i) => FirstCallback(st);
    case Purge(f) => EndKeepsUntouched(st.books, f);
    case Restart =>
  }

  lemma {:induction false} InOrderNeverLate(st: State, steps: seq<Step>)
    requires Inv(st) && Untouched(st.books) && Legal(st, steps) && InOrder(steps)
    ensures !EverLate(st, steps) && Inv(Run(st, steps))
    decreases |steps|
  {
    if steps != [] {
      StepKeepsUntouched(st, steps[0]);
      StepKeepsInv(st, steps[0]);
      InOrderNeverLate(Next(st, steps[0]), steps[1..]);
    }
  }

  /**
   * If callbacks run in the order of their installations, however far they lag behind, discardable,
   * referenced and not yet charged bytes of a live file never exceed its payload, and equal it until a restart.
   */
  lemma BytesAreConserved(st: State, steps: seq<Step>, f: nat)
    requires Initial(st) && Legal(st, steps) && InOrder(steps)
    ensures var b := Run(st, steps).books;
      f in b.core.files && !b.core.files[f].obsolete ==>
        && b.core.files[f].discardable + AllBytes(b.core.tables, f) + Owed(b.pending, f) <= Payload(b.core.files[f])
        && (f in b.core.whole ==> b.core.files[f].discardable + AllBytes(b.core.tables, f) + Owed(b.pending, f) == Payload(b.core.files[f]))
  {
    InitialInv(st);
    InOrderNeverLate(st, steps);
  }

  /** And a file that is obsolete or gone is referenced by no table and charged by no callback to come. */
  lemma DeletedIsUnreferenced(st: State, steps: seq<Step>, f: nat)
    requires Initial(st) && Legal(st, steps) && InOrder(steps)
    ensures var b := Run(st, steps).books;
      (f in b.core.files ==> b.core.files[f].obsolete) ==> AllBytes(b.core.tables, f) == 0 && Owed(b.pending, f) == 0 && !MentionedIn(b.core.tables, f)
  {
    InitialInv(st);
    InOrderNeverLate(st, steps);
    var t := Run(st, steps);
    if (f in t.books.core.files ==> t.books.core.files[f].obsolete) && MentionedIn(t.books.core.tables, f) {
      var i :| 0 <= i < |t.books.core.tables| && Mentions(t.books.core.tables[i], f);
      assert R.RefsBelow(t.books.core.tables[i], t.next);
      R.MentionCounts(t.books.core.tables, i, f);
    }
  }
}
