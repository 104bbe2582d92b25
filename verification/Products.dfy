/** What several tables built together, and the blob files written with them, amount to. */
module Products {
  import opened Accounting
  import opened BlobFormat

  /** A built table, the references among its inputs, and the sizes of the blob files written for it. */
  datatype Product = Product(table: Table, inputs: Table, sizes: map<nat, nat>)

  /** New files, from `next` on, hold exactly what the table references in them; older references come from the inputs. */
  ghost predicate Exact(p: Product, next: nat) {
    && (forall f :: f in p.sizes ==> f >= next && TableBytes(p.table, f) > 0)
    && (forall f :: f in p.sizes ==> p.sizes[f] == HEADER_SIZE + TableBytes(p.table, f) + FOOTER_SIZE)
    && (forall i :: 0 <= i < |p.table| && p.table[i].Ref? && p.table[i].file >= next ==> p.table[i].file in p.sizes && p.table[i].size > 0)
    && (forall i :: 0 <= i < |p.table| && p.table[i].Ref? && p.table[i].file < next ==> p.table[i] in p.inputs)
    && (forall f: nat :: f < next ==> TableBytes(p.table, f) <= TableBytes(p.inputs, f))
  }

  ghost predicate AllExact(ps: seq<Product>, next: nat) {
    && (forall i :: 0 <= i < |ps| ==> Exact(ps[i], next))
    && (forall i, j, f :: 0 <= i < j < |ps| && f in ps[i].sizes ==> f !in ps[j].sizes)
  }

  function Tables(ps: seq<Product>): seq<Table> {
    seq(|ps|, i requires 0 <= i < |ps| => ps[i].table)
  }

  function Inputs(ps: seq<Product>): seq<Table> {
    seq(|ps|, i requires 0 <= i < |ps| => ps[i].inputs)
  }

  function Created(ps: seq<Product>): map<nat, nat> {
    if ps == [] then map[] else Created(ps[..|ps| - 1]) + ps[|ps| - 1].sizes
  }

  lemma {:induction false} Unmentioned(t: Table, f: nat)
    requires !Mentions(t, f)
    ensures TableBytes(t, f) == 0
  {
    if t != [] {
      var n := |t| - 1;
      assert t[n].Ref? ==> t[n].file != f;
      forall i | 0 <= i < n ensures t[..n][i] == t[i] {}
      Unmentioned(t[..n], f);
    }
  }

  lemma NotWritten(p: Product, next: nat, f: nat)
    requires Exact(p, next) && f >= next && f !in p.sizes
    ensures !Mentions(p.table, f) && TableBytes(p.table, f) == 0
  {
    Unmentioned(p.table, f);
  }

  lemma PrefixExact(ps: seq<Product>, next: nat)
    requires ps != [] && AllExact(ps, next)
    ensures AllExact(ps[..|ps| - 1], next) && Exact(ps[|ps| - 1], next)
    ensures Tables(ps)[..|ps| - 1] == Tables(ps[..|ps| - 1]) && Inputs(ps)[..|ps| - 1] == Inputs(ps[..|ps| - 1])
  {
  }

  lemma {:induction false} CreatedFrom(ps: seq<Product>, f: nat)
    ensures f in Created(ps) <==> exists i :: 0 <= i < |ps| && f in ps[i].sizes
  {
    if ps != [] {
      var n := |ps| - 1;
      CreatedFrom(ps[..n], f);
      assert f in ps[n].sizes ==> exists i :: 0 <= i < |ps| && f in ps[i].sizes;
      if exists i :: 0 <= i < n && f in ps[..n][i].sizes {
        var i :| 0 <= i < n && f in ps[..n][i].sizes;
        assert f in ps[i].sizes;
      }
      if exists i :: 0 <= i < |ps| && f in ps[i].sizes {
        var i :| 0 <= i < |ps| && f in ps[i].sizes;
        assert i < n ==> f in ps[..n][i].sizes;
      }
    }
  }

  /** New files together: each holds exactly what all the tables reference in it. */
  lemma {:induction false} CreatedBytes(ps: seq<Product>, next: nat, f: nat)
    requires AllExact(ps, next) && f >= next
    ensures f in Created(ps) ==>
      AllBytes(Tables(ps), f) > 0 && Created(ps)[f] == HEADER_SIZE + AllBytes(Tables(ps), f) + FOOTER_SIZE
    ensures f !in Created(ps) ==> AllBytes(Tables(ps), f) == 0
  {
    if ps != [] {
      var n := |ps| - 1;
      PrefixExact(ps, next);
      CreatedBytes(ps[..n], next, f);
      CreatedFrom(ps[..n], f);
      if f !in ps[n].sizes { NotWritten(ps[n], next, f); }
    }
  }

  lemma {:induction false} CreatedIsNew(ps: seq<Product>, next: nat, f: nat)
    requires AllExact(ps, next) && f in Created(ps)
    ensures f >= next
  {
    CreatedFrom(ps, f);
  }

  lemma {:induction false} OldBytes(ps: seq<Product>, next: nat, f: nat)
    requires AllExact(ps, next) && f < next
    ensures AllBytes(Tables(ps), f) <= AllBytes(Inputs(ps), f)
  {
    if ps != [] {
      PrefixExact(ps, next);
      OldBytes(ps[..|ps| - 1], next, f);
    }
  }

  // Inputs drawn from existing tables, each entry at most once.

  function Flat(ts: seq<Table>): Table {
    if ts == [] then [] else Flat(ts[..|ts| - 1]) + ts[|ts| - 1]
  }

  ghost predicate Drawn(inputs: Table, from: Table) {
    forall e: Entry :: e.Ref? ==> multiset(inputs)[e] <= multiset(from)[e]
  }

  lemma {:induction false} BytesAppend(a: Table, b: Table, f: nat)
    ensures TableBytes(a + b, f) == TableBytes(a, f) + TableBytes(b, f)
  {
    if b == [] {
      assert a + b == a;
    } else {
      var n := |b| - 1;
      assert (a + b)[..|a + b| - 1] == a + b[..n];
      BytesAppend(a, b[..n], f);
    }
  }

  lemma {:induction false} FlatBytes(ts: seq<Table>, f: nat)
    ensures TableBytes(Flat(ts), f) == AllBytes(ts, f)
  {
    if ts != [] {
      var n := |ts| - 1;
      FlatBytes(ts[..n], f);
      BytesAppend(Flat(ts[..n]), ts[n], f);
    }
  }

  lemma {:induction false} FlatMember(ts: seq<Table>, e: Entry)
    ensures e in Flat(ts) <==> exists i :: 0 <= i < |ts| && e in ts[i]
  {
    if ts != [] {
      var n := |ts| - 1;
      FlatMember(ts[..n], e);
      assert e in Flat(ts) <==> e in Flat(ts[..n]) || e in ts[n];
      if e in Flat(ts[..n]) {
        var i :| 0 <= i < n && e in ts[..n][i];
        assert e in ts[i];
      }
      if exists i :: 0 <= i < |ts| && e in ts[i] {
        var i :| 0 <= i < |ts| && e in ts[i];
        assert i < n ==> e in ts[..n][i];
      }
    }
  }

  lemma TakeOut(t: Table, k: nat, f: nat)
    requires k < |t|
    ensures var rest := t[..k] + t[k + 1..];
      TableBytes(t, f) == TableBytes(rest, f) + Bytes(t[k], f) && multiset(t) == multiset(rest) + multiset{t[k]}
  {
    assert t == t[..k] + ([t[k]] + t[k + 1..]);
    BytesAppend(t[..k], [t[k]] + t[k + 1..], f);
    BytesAppend([t[k]], t[k + 1..], f);
    BytesAppend(t[..k], t[k + 1..], f);
    assert [t[k]][..0] == [] && TableBytes([t[k]], f) == Bytes(t[k], f);
  }

  /** What is drawn from a table references no more bytes of any file. */
  lemma {:induction false} DrawnBytes(inputs: Table, from: Table, f: nat)
    requires Drawn(inputs, from)
    ensures TableBytes(inputs, f) <= TableBytes(from, f)
    decreases |inputs|
  {
    if inputs != [] {
      var n := |inputs| - 1;
      var e, rest := inputs[n], inputs[..n];
      assert inputs == rest + [e];
      if e.Ref? {
        assert multiset(inputs)[e] > 0 && e in multiset(from);
        var k :| 0 <= k < |from| && from[k] == e;
        TakeOut(from, k, f);
        DrawnBytes(rest, from[..k] + from[k + 1..], f);
      } else {
        DrawnBytes(rest, from, f);
      }
    }
  }

  lemma DrawnMember(inputs: Table, from: Table, e: Entry)
    requires Drawn(inputs, from) && e.Ref? && e in inputs
    ensures e in from
  {
    assert e in multiset(inputs) && e in multiset(from);
  }
}
