/** A run after which a blob file that no table references can never be deleted. */
module ForgottenGarbage {
  import opened Order
  import opened Coding
  import opened Accounting
  import opened Products
  import opened AccountingRuns
  import opened BlobFormat
  import FileStates
  import T = TableBuilding
  import P = TableBuildingProof
  import TableSizes
  import Ledger

  function Key(user: T.UserKey, sequence: nat, kind: T.Kind): T.InternalKey {
    T.InternalKey(user, sequence, kind)
  }

  /** Everything succeeds, and records take ten bytes. */
  function Fine(newFile: Option<nat>): T.Outside {
    T.Outside(None, FileStates.Normal, true, true, newFile, 10, true, true, true, true)
  }

  function Mode(mode: T.RunMode): T.Options {
    T.Options(mode, 0, true, false, 0, 1, 1000)
  }

  // The flush writes two versions of a key to blob file 0, the newer one first.

  function Written(user: T.UserKey): Build {
    Build([T.Input(Some(Key(user, 2, T.Value)), T.Raw([])), T.Input(Some(Key(user, 1, T.Value)), T.Raw([]))],
          [Fine(Some(0)), Fine(None)], Fine(None), map[], Mode(T.Normal))
  }

  function Pointing(user: T.UserKey, sequence: nat, offset: nat): T.Entry {
    T.Entry(Key(user, sequence, T.BlobIndex), T.Pointer(Index(0, offset, 10)))
  }

  function AfterOne(user: T.UserKey): T.State {
    T.State(true, true, [Pointing(user, 2, 8)], Some(T.Open(0, 18, true)), map[Index(0, 8, 10) := []], [], map[], map[], {})
  }

  function AfterTwo(user: T.UserKey): T.State {
    T.State(true, true, [Pointing(user, 2, 8), Pointing(user, 1, 18)], Some(T.Open(0, 28, true)),
            map[Index(0, 8, 10) := [], Index(0, 18, 10) := []], [], map[], map[], {})
  }

  lemma FirstValue(user: T.UserKey)
    ensures T.Add(NEW_BUILDER, Written(user).inputs[0], map[], Mode(T.Normal), Fine(Some(0))) == AfterOne(user)
  {
  }

  lemma SecondValue(user: T.UserKey)
    ensures T.Add(AfterOne(user), Written(user).inputs[1], map[], Mode(T.Normal), Fine(None)) == AfterTwo(user)
  {
  }

  lemma BothValues(user: T.UserKey)
    ensures var b := Written(user);
      && P.Built(NEW_BUILDER, b.inputs[..0], b.outs[..0], b.store, b.opts) == NEW_BUILDER
      && P.Built(NEW_BUILDER, b.inputs[..1], b.outs[..1], b.store, b.opts) == AfterOne(user)
      && BeforeFinish(b) == AfterTwo(user)
  {
    var b := Written(user);
    FirstValue(user);
    SecondValue(user);
    assert b.inputs[..1][..0] == b.inputs[..0] && b.outs[..1][..0] == b.outs[..0];
    assert P.Built(NEW_BUILDER, b.inputs[..0], b.outs[..0], b.store, b.opts) == NEW_BUILDER;
    assert P.Built(NEW_BUILDER, b.inputs[..1], b.outs[..1], b.store, b.opts) == AfterOne(user);
  }

  lemma FlushedState(user: T.UserKey)
    ensures var f := T.Finish(AfterTwo(user), Fine(None), true);
      T.Ok(AfterTwo(user)) && T.Ok(f) && f.base == AfterTwo(user).base && f.sizes == map[0 := 60]
  {
  }

  lemma FlushedTable(user: T.UserKey)
    ensures TableSizes.TableOf(AfterTwo(user).base) == [Ref(0, 10), Ref(0, 10)]
    ensures TableSizes.InputTable(Written(user).inputs) == [Inline, Inline]
  {
  }

  lemma FlushedProduct(user: T.UserKey)
    ensures ProductOf(Written(user)) == Product([Ref(0, 10), Ref(0, 10)], [Inline, Inline], map[0 := 60])
    ensures GoodBuild(Written(user), 0)
  {
    BothValues(user);
    FlushedState(user);
    FlushedTable(user);
  }

  // The first compaction keeps the newer version as it is and drops the older one.

  function Copied(user: T.UserKey): Build {
    Build([T.Input(Some(Key(user, 2, T.BlobIndex)), T.Pointer(Index(0, 8, 10)))], [Fine(None)], Fine(None), map[], Mode(T.ReadOnly))
  }

  lemma CopiedProduct(user: T.UserKey)
    ensures ProductOf(Copied(user)).table == [Ref(0, 10)]
    ensures ProductOf(Copied(user)).inputs == [Ref(0, 10)]
    ensures ProductOf(Copied(user)).sizes == map[]
    ensures GoodBuild(Copied(user), 1)
  {
    var b := Copied(user);
    assert P.Built(NEW_BUILDER, b.inputs[..0], b.outs[..0], b.store, b.opts) == NEW_BUILDER;
    assert BeforeFinish(b) == NEW_BUILDER.(base := [Pointing(user, 2, 8)]);
    assert TableSizes.TableOf(Result(b).base) == [Ref(0, 10)];
    assert TableSizes.InputTable(b.inputs) == [Ref(0, 10)];
  }

  const TWO: Table := [Ref(0, 10), Ref(0, 10)]
  const ONE: Table := [Ref(0, 10)]

  lemma TableSums(f: nat)
    ensures TableBytes(ONE, f) == (if f == 0 then 10 else 0) && TableBytes(TWO, f) == (if f == 0 then 20 else 0)
    ensures AllBytes([], f) == 0 && AllBytes([ONE], f) == TableBytes(ONE, f) && AllBytes([TWO], f) == TableBytes(TWO, f)
  {
    assert ONE[..0] == [] && TWO[..1] == ONE;
    assert [ONE][..0] == [] && [TWO][..0] == [];
  }

  lemma SelectAll(t: Table)
    ensures Ledger.Select([t], [true], true) == [t] && Ledger.Select([t], [true], false) == []
    ensures Flat([t]) == t
  {
    assert [t][..0] == [] && [true][..0] == [];
  }

  function FlushStep(user: T.UserKey): Step {
    Flush(Written(user), map[0 := 20], 1)
  }

  lemma CanFlush(user: T.UserKey, st: State)
    requires Initial(st) && st.next == 0
    ensures Enabled(st, FlushStep(user))
    ensures Next(st, FlushStep(user)).ledger.tables == [TWO] && Next(st, FlushStep(user)).next == 1
  {
    FlushedProduct(user);
    var p, property := ProductOf(Written(user)), map[0 := 20];
    forall f ensures Get(property, f) == TableBytes(p.table, f) && (f in property <==> Mentions(p.table, f)) {
      TableSums(f);
      assert p.table == TWO && p.table[0].Ref? && p.table[0].file == 0;
    }
    assert [] + [p.table] == [TWO];
  }

  function CopyStep(user: T.UserKey): Step {
    Compact([true], [Copied(user)], map[0 := -10], {}, 1)
  }

  lemma CopyProducts(user: T.UserKey)
    ensures var ps := ProductsOf([Copied(user)]); Tables(ps) == [ONE] && Inputs(ps) == [ONE] && Created(ps) == map[] && |ps| == 1
  {
    CopiedProduct(user);
    var ps := ProductsOf([Copied(user)]);
    assert ps == [Product(ONE, ONE, map[])] && ps[..0] == [];
  }

  lemma OneFromTwo()
    ensures Drawn(ONE, TWO)
  {
    assert multiset(TWO) == multiset(ONE) + multiset{Ref(0, 10)};
  }

  lemma CopyDiff(f: nat)
    ensures Get(map[0 := -10], f) == AllBytes([ONE], f) - AllBytes([TWO], f)
    ensures !(MentionedIn([ONE], f) && !MentionedIn([TWO], f))
  {
    TableSums(f);
    assert TWO[0].Ref? && TWO[0].file == 0;
    assert Mentions([TWO][0], 0);
  }

  lemma CanCopy(user: T.UserKey, st: State)
    requires st.ledger.tables == [TWO] && st.next == 1
    ensures Enabled(st, CopyStep(user))
  {
    CopiedProduct(user);
    CopyProducts(user);
    SelectAll(TWO);
    SelectAll(ONE);
    OneFromTwo();
    forall f
      ensures Get(map[0 := -10], f) == AllBytes([ONE], f) - AllBytes([TWO], f)
      ensures !(MentionedIn([ONE], f) && !MentionedIn([TWO], f))
    {
      CopyDiff(f);
    }
  }

  lemma CopyLeaves(user: T.UserKey, st: State)
    requires st.ledger.tables == [TWO] && st.next == 1
    requires Enabled(st, CopyStep(user))
    ensures Next(st, CopyStep(user)).ledger.tables == [ONE] && Next(st, CopyStep(user)).next == 1
  {
    CopyProducts(user);
    SelectAll(TWO);
    assert [] + [ONE] == [ONE];
  }

  const DROP_STEP: Step := Compact([true], [], map[0 := -10], {}, 1)

  lemma NoProducts()
    ensures ProductsOf([]) == [] && Tables([]) == [] && Inputs([]) == [] && Created([]) == map[] && Flat([]) == []
  {
  }

  lemma CanDrop(st: State)
    requires st.ledger.tables == [ONE] && st.next == 1
    ensures Enabled(st, DROP_STEP)
    ensures Next(st, DROP_STEP).ledger.tables == []
  {
    SelectAll(ONE);
    NoProducts();
    forall f ensures Get(map[0 := -10], f) == AllBytes([], f) - AllBytes([ONE], f) { TableSums(f); }
  }

  /** What the accounts say of file 0 along the run. */
  lemma FileZero(user: T.UserKey, s: State)
    requires Initial(s) && s.next == 0
    ensures Enabled(s, FlushStep(user))
    ensures var a := Next(s, FlushStep(user));
      Inv(a) && 0 in a.ledger.files && a.ledger.files[0] == Account(60, 0, false)
  {
    CanFlush(user, s);
    Ledger.InitialInv(s.ledger);
    StepKeepsInv(s, FlushStep(user));
    FlushedProduct(user);
    FlushEnabledBelow(s, FlushStep(user));
    Ledger.FlushFile(s.ledger, Lower(s, FlushStep(user)), 0);
  }

  lemma TenLost()
    ensures Ledger.AfterLoss(Account(60, 0, false), -10) == Account(60, 10, false)
  {
  }

  lemma GarbageAppears(user: T.UserKey, a: State)
    requires Inv(a) && a.ledger.tables == [TWO] && a.next == 1
    requires 0 in a.ledger.files && a.ledger.files[0] == Account(60, 0, false)
    ensures Enabled(a, CopyStep(user))
    ensures var b := Next(a, CopyStep(user));
      Inv(b) && 0 in b.ledger.files && b.ledger.files[0] == Account(60, 10, false)
  {
    CanCopy(user, a);
    StepKeepsInv(a, CopyStep(user));
    CompactedFile(a, CopyStep(user), 0);
    TenLost();
  }

  lemma GarbageForgotten(b: State)
    requires Inv(b) && b.ledger.tables == [ONE] && b.next == 1 && 0 in b.ledger.files && b.ledger.files[0] == Account(60, 10, false)
    ensures var c := Next(b, Restart); Ledger.Stuck(c.ledger, 0) && Inv(c) && c.ledger.tables == [ONE] && c.next == 1
  {
    StepKeepsInv(b, Restart);
    Ledger.RestartSticks(b.ledger, 0);
  }

  lemma LastReferenceDropped(c: State)
    requires Ledger.Stuck(c.ledger, 0) && Inv(c) && c.ledger.tables == [ONE] && c.next == 1
    ensures Enabled(c, DROP_STEP)
    ensures Ledger.Stuck(Next(c, DROP_STEP).ledger, 0) && Inv(Next(c, DROP_STEP)) && Next(c, DROP_STEP).ledger.tables == []
  {
    CanDrop(c);
    StepKeepsInv(c, DROP_STEP);
    EnabledBelow(c, DROP_STEP);
    Ledger.StepKeepsStuck(c.ledger, Lower(c, DROP_STEP), 0);
  }

  /** Flush, compact, restart, compact: the file has no reader left and is not obsolete, and stays so in every continuation. */
  lemma GarbageStaysForever(user: T.UserKey, s: State, more: seq<Step>, t: State)
    requires Initial(s) && s.next == 0
    ensures Enabled(s, FlushStep(user))
    ensures var a := Next(s, FlushStep(user));
      && Enabled(a, CopyStep(user))
      && var c := Next(Next(a, CopyStep(user)), Restart);
      && Enabled(c, DROP_STEP)
      && var d := Next(c, DROP_STEP);
      && d.ledger.tables == [] && 0 in d.ledger.files && !d.ledger.files[0].obsolete
      && (Reaches(d, more, t) ==> 0 in t.ledger.files && !t.ledger.files[0].obsolete)
  {
    FileZero(user, s);
    CanFlush(user, s);
    var a := Next(s, FlushStep(user));
    GarbageAppears(user, a);
    CopyLeaves(user, a);
    var b := Next(a, CopyStep(user));
    GarbageForgotten(b);
    var c := Next(b, Restart);
    LastReferenceDropped(c);
    var d := Next(c, DROP_STEP);
    if Reaches(d, more, t) {
      StuckForever(d, more, t, 0);
    }
  }
}
