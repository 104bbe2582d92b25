/** Merging the records of several blob files by key. */
module MergeIterator {
  import opened Order
  import opened Coding

  /** Record `at` of input `input`. */
  datatype Place = Place(input: nat, at: nat)

  /** Every place before the given positions occurs exactly once. */
  ghost predicate EmittedOnce(emitted: seq<Place>, pos: seq<nat>) {
    && (forall p: Place :: p in emitted <==> p.input < |pos| && p.at < pos[p.input])
    && Distinct(emitted)
  }

  predicate InInputs<K>(inputs: seq<seq<K>>, p: Place) {
    p.input < |inputs| && p.at < |inputs[p.input]|
  }

  function KeyAt<K>(inputs: seq<seq<K>>, p: Place): K
    requires InInputs(inputs, p)
  {
    inputs[p.input][p.at]
  }

  ghost predicate AscendingInputs<K>(lt: (K, K) -> bool, inputs: seq<seq<K>>) {
    forall i, j, k :: 0 <= i < |inputs| && 0 <= j < k < |inputs[i]| ==> !lt(inputs[i][k], inputs[i][j])
  }

  ghost predicate Ascending<K>(lt: (K, K) -> bool, inputs: seq<seq<K>>, ps: seq<Place>) {
    && (forall i :: 0 <= i < |ps| ==> InInputs(inputs, ps[i]))
    && (forall i, j :: 0 <= i < j < |ps| ==> !lt(KeyAt(inputs, ps[j]), KeyAt(inputs, ps[i])))
  }

  /** The inputs that have a record left at their position. */
  ghost function Live<K>(inputs: seq<seq<K>>, pos: seq<nat>): set<nat>
    requires |pos| == |inputs|
  {
    set i: nat | i < |inputs| && pos[i] < |inputs[i]|
  }

  ghost predicate LeastHead<K>(lt: (K, K) -> bool, inputs: seq<seq<K>>, pos: seq<nat>, c: nat)
    requires |pos| == |inputs|
  {
    c in Live(inputs, pos) && forall i :: i in Live(inputs, pos) ==> !lt(inputs[i][pos[i]], inputs[c][pos[c]])
  }

  class BlobFileMergeIterator<K(!new)> {
    const lt: (K, K) -> bool
    const inputs: seq<seq<K>>
    var pos: seq<nat>
    var heap: multiset<nat>
    var current: Option<nat>
    var aborted: bool

    ghost predicate Positioned()
      reads this
    {
      |pos| == |inputs| && forall i :: 0 <= i < |pos| ==> pos[i] <= |inputs[i]|
    }

    /** The heap holds every live input except the current one, each once, and the current head is least. */
    ghost predicate Valid()
      reads this
    {
      && Positioned()
      && (current.None? ==> heap == multiset{} && Live(inputs, pos) == {})
      && (current.Some? ==> heap + multiset{current.value} == multiset(Live(inputs, pos)) && LeastHead(lt, inputs, pos, current.value))
    }

    /** What holds between any two calls. */
    ghost predicate Usable()
      reads this
    {
      Positioned() && forall i :: i in heap ==> i in Live(inputs, pos)
    }

    constructor (lt: (K, K) -> bool, inputs: seq<seq<K>>)
      ensures this.lt == lt && this.inputs == inputs && heap == multiset{} && current.None? && !aborted && Usable()
    {
      this.lt, this.inputs := lt, inputs;
      pos, heap, current, aborted := seq(|inputs|, _ => 0), multiset{}, None, false;
    }

    /** Takes an input with a least head out of the heap. */
    method PopLeast() returns (c: nat)
      requires heap != multiset{} && Usable() && StrictTotal(lt)
      modifies `heap
      ensures c in old(heap) && heap == old(heap) - multiset{c}
      ensures forall i :: i in old(heap) ==> !lt(inputs[i][pos[i]], inputs[c][pos[c]])
    {
      c :| c in heap;
      var todo := heap[c := 0];
      while todo != multiset{}
        invariant todo <= heap && c in heap && c !in todo
        invariant forall i :: i in heap && i !in todo ==> !lt(inputs[i][pos[i]], inputs[c][pos[c]])
        decreases |todo|
      {
        var i :| i in todo;
        assert |todo[i := 0]| < |todo|;
        todo := todo[i := 0];
        if lt(inputs[i][pos[i]], inputs[c][pos[c]]) { c := i; }
      }
      heap := heap - multiset{c};
    }

    /** Makes an input with a least head the current one, if any input is left. */
    method Choose()
      requires StrictTotal(lt) && Usable()
      modifies `heap, `current
      ensures Usable()
      ensures if current.None? then old(heap) == heap == multiset{} else heap + multiset{current.value} == old(heap)
      ensures old(heap) == multiset(Live(inputs, pos)) ==> Valid()
    {
      if heap != multiset{} {
        var c := PopLeast();
        current := Some(c);
      } else {
        current := None;
        assert forall i :: i in Live(inputs, pos) ==> i in multiset(Live(inputs, pos));
      }
    }

    /** Queues every input that has a record. */
    method PushAll()
      requires forall i :: 0 <= i < |pos| ==> pos[i] == 0
      requires |pos| == |inputs|
      modifies `heap
      ensures heap == old(heap) + multiset(Live(inputs, pos))
    {
      ghost var queued: set<nat> := {};
      for i := 0 to |inputs|
        invariant queued == (set j: nat | j < i && pos[j] < |inputs[j]|) && heap == old(heap) + multiset(queued)
      {
        if pos[i] < |inputs[i]| { queued, heap := queued + {i}, heap + multiset{i}; }
      }
      assert queued == Live(inputs, pos);
    }

    /** Starts over. Inputs that were still queued are then queued twice: a seek is right exactly if none was. */
    method SeekToFirst()
      requires StrictTotal(lt) && Usable()
      modifies this
      ensures Usable() && pos == seq(|inputs|, _ => 0)
      ensures Valid() <==> old(heap) == multiset{}
      ensures current.Some? ==> heap + multiset{current.value} == old(heap) + multiset(Live(inputs, pos))
      ensures aborted == (old(aborted) || Live(inputs, pos) == {})
    {
      StillLive(inputs, pos);
      pos := seq(|inputs|, _ => 0);
      PushAll();
      AllOrNothing(old(heap), Live(inputs, pos));
      Choose();
      if current.None? { aborted := true; }
    }

    method Next()
      requires StrictTotal(lt) && Valid() && current.Some?
      modifies `pos, `heap, `current
      ensures Valid() && Usable() && pos == old(pos)[old(current.value) := old(pos)[old(current.value)] + 1]
    {
      Advance(current.value);
      Choose();
    }

    /** Moves the current input on and queues it again unless it is at its end. */
    method Advance(c: nat)
      requires Positioned() && c in Live(inputs, pos) && heap + multiset{c} == multiset(Live(inputs, pos))
      modifies `pos, `heap
      ensures pos == old(pos)[c := old(pos)[c] + 1]
      ensures Usable() && heap == multiset(Live(inputs, pos))
    {
      QueueAfter(inputs, pos, heap, c);
      pos := pos[c := pos[c] + 1];
      if pos[c] < |inputs[c]| { heap := heap + multiset{c}; }
    }
  }

  lemma StillLive<K>(inputs: seq<seq<K>>, pos: seq<nat>)
    requires |pos| == |inputs|
    ensures Live(inputs, pos) <= Live(inputs, seq(|inputs|, _ => 0))
  {}

  lemma LiveAfter<K>(inputs: seq<seq<K>>, pos: seq<nat>, c: nat)
    requires |pos| == |inputs| && c in Live(inputs, pos)
    ensures Live(inputs, pos[c := pos[c] + 1]) == Live(inputs, pos) - if pos[c] + 1 < |inputs[c]| then {} else {c}
  {}

  lemma TakenOut(heap: multiset<nat>, live: set<nat>, c: nat)
    requires heap + multiset{c} == multiset(live)
    ensures c in live && heap == multiset(live - {c}) && heap + multiset{c} == multiset(live)
  {
    assert c in multiset(live);
    forall i ensures heap[i] == multiset(live - {c})[i] { assert (heap + multiset{c})[i] == multiset(live)[i]; }
  }

  lemma QueueAfter<K>(inputs: seq<seq<K>>, pos: seq<nat>, heap: multiset<nat>, c: nat)
    requires |pos| == |inputs| && c in Live(inputs, pos) && heap + multiset{c} == multiset(Live(inputs, pos))
    ensures (if pos[c] + 1 < |inputs[c]| then heap + multiset{c} else heap) == multiset(Live(inputs, pos[c := pos[c] + 1]))
  {
    TakenOut(heap, Live(inputs, pos), c);
    LiveAfter(inputs, pos, c);
  }

  /** Inputs queued on top of all live ones show up as a second copy. */
  lemma AllOrNothing(queued: multiset<nat>, live: set<nat>)
    ensures queued + multiset(live) == multiset(live) <==> queued == multiset{}
    ensures queued + multiset(live) == multiset{} <==> queued == multiset{} && live == {}
  {
    if queued != multiset{} {
      var i :| i in queued;
      assert (queued + multiset(live))[i] > multiset(live)[i];
    }
    if live != {} {
      var i :| i in live;
      assert (queued + multiset(live))[i] > 0;
    }
  }

  lemma EmitOne(emitted: seq<Place>, pos: seq<nat>, c: nat)
    requires EmittedOnce(emitted, pos) && c < |pos|
    ensures EmittedOnce(emitted + [Place(c, pos[c])], pos[c := pos[c] + 1])
  {
    var e := Place(c, pos[c]);
    assert e !in emitted;
    forall i | 0 <= i < |emitted| ensures emitted[i] != e { assert emitted[i] in emitted; }
  }

  /** Everything emitted is no greater than anything left. */
  ghost predicate LeftIsGreater<K>(lt: (K, K) -> bool, inputs: seq<seq<K>>, pos: seq<nat>, ps: seq<Place>)
    requires |pos| == |inputs|
  {
    forall i, p: Place :: 0 <= i < |ps| && InInputs(inputs, ps[i]) && InInputs(inputs, p) && p.at >= pos[p.input] ==>
      !lt(KeyAt(inputs, p), KeyAt(inputs, ps[i]))
  }

  /** In ascending inputs a least head is no greater than anything left. */
  lemma LeastIsLeast<K(!new)>(lt: (K, K) -> bool, inputs: seq<seq<K>>, pos: seq<nat>, c: nat, p: Place)
    requires StrictTotal(lt) && AscendingInputs(lt, inputs) && |pos| == |inputs| && LeastHead(lt, inputs, pos, c)
    requires InInputs(inputs, p) && p.at >= pos[p.input]
    ensures !lt(KeyAt(inputs, p), inputs[c][pos[c]])
  {
    assert p.input in Live(inputs, pos);
    var head := inputs[p.input][pos[p.input]];
    assert !lt(head, inputs[c][pos[c]]);
    if p.at > pos[p.input] { assert !lt(KeyAt(inputs, p), head); }
    NotLessTrans(lt, KeyAt(inputs, p), head, inputs[c][pos[c]]);
  }

  lemma NotLessTrans<K(!new)>(lt: (K, K) -> bool, x: K, y: K, z: K)
    requires StrictTotal(lt) && !lt(y, z) && (x == y || !lt(x, y))
    ensures !lt(x, z)
  {
    assert y != z ==> lt(z, y);
    assert x != y ==> lt(y, x);
  }

  lemma AscendOne<K(!new)>(lt: (K, K) -> bool, inputs: seq<seq<K>>, pos: seq<nat>, ps: seq<Place>, c: nat)
    requires StrictTotal(lt) && AscendingInputs(lt, inputs) && |pos| == |inputs| && LeastHead(lt, inputs, pos, c)
    requires Ascending(lt, inputs, ps) && LeftIsGreater(lt, inputs, pos, ps)
    ensures Ascending(lt, inputs, ps + [Place(c, pos[c])])
    ensures LeftIsGreater(lt, inputs, pos[c := pos[c] + 1], ps + [Place(c, pos[c])])
  {
    var e, after := Place(c, pos[c]), pos[c := pos[c] + 1];
    var more := ps + [e];
    forall i, p: Place | 0 <= i < |more| && InInputs(inputs, more[i]) && InInputs(inputs, p) && p.at >= after[p.input]
      ensures !lt(KeyAt(inputs, p), KeyAt(inputs, more[i]))
    {
      if i == |ps| { LeastIsLeast(lt, inputs, pos, c, p); }
    }
  }

  /** Before each emission the heads were at `positions[i]`, reached by the emissions so far, and a least head was taken. */
  ghost predicate TookLeast<K>(lt: (K, K) -> bool, inputs: seq<seq<K>>, out: seq<Place>, positions: seq<seq<nat>>) {
    && |positions| == |out|
    && (forall i :: 0 <= i < |out| ==> |positions[i]| == |inputs| && EmittedOnce(out[..i], positions[i]))
    && (forall i :: 0 <= i < |out| ==>
          LeastHead(lt, inputs, positions[i], out[i].input) && out[i].at == positions[i][out[i].input])
  }

  lemma TakeOne<K>(lt: (K, K) -> bool, inputs: seq<seq<K>>, out: seq<Place>, positions: seq<seq<nat>>, pos: seq<nat>, c: nat)
    requires TookLeast(lt, inputs, out, positions) && |pos| == |inputs| && LeastHead(lt, inputs, pos, c) && EmittedOnce(out, pos)
    ensures TookLeast(lt, inputs, out + [Place(c, pos[c])], positions + [pos])
  {
    var more := out + [Place(c, pos[c])];
    forall i | 0 <= i < |more| ensures more[..i] == out[..i] {}
    assert out[..|out|] == out;
  }

  lemma AllEmitted<K>(inputs: seq<seq<K>>, pos: seq<nat>, out: seq<Place>)
    requires |pos| == |inputs| && EmittedOnce(out, pos) && Live(inputs, pos) == {}
    requires forall i :: 0 <= i < |pos| ==> pos[i] <= |inputs[i]|
    ensures forall p: Place :: p in out <==> InInputs(inputs, p)
  {
    forall i | 0 <= i < |pos| ensures pos[i] == |inputs[i]| {
      assert i !in Live(inputs, pos);
    }
  }

  ghost predicate Merged<K>(lt: (K, K) -> bool, inputs: seq<seq<K>>, out: seq<Place>, positions: seq<seq<nat>>, pos: seq<nat>) {
    && |pos| == |inputs| && EmittedOnce(out, pos) && TookLeast(lt, inputs, out, positions)
    && (AscendingInputs(lt, inputs) ==> Ascending(lt, inputs, out) && LeftIsGreater(lt, inputs, pos, out))
  }

  lemma MergeOne<K(!new)>(lt: (K, K) -> bool, inputs: seq<seq<K>>, out: seq<Place>, positions: seq<seq<nat>>, pos: seq<nat>, c: nat)
    requires StrictTotal(lt) && Merged(lt, inputs, out, positions, pos) && LeastHead(lt, inputs, pos, c)
    ensures Merged(lt, inputs, out + [Place(c, pos[c])], positions + [pos], pos[c := pos[c] + 1])
  {
    TakeOne(lt, inputs, out, positions, pos, c);
    EmitOne(out, pos, c);
    if AscendingInputs(lt, inputs) { AscendOne(lt, inputs, pos, out, c); }
  }

  /** Emits the current record and moves on. */
  method EmitNext<K(!new)>(it: BlobFileMergeIterator<K>, out: seq<Place>, ghost positions: seq<seq<nat>>)
    returns (out': seq<Place>, ghost positions': seq<seq<nat>>)
    requires StrictTotal(it.lt) && it.Valid() && it.current.Some? && Merged(it.lt, it.inputs, out, positions, it.pos)
    modifies it
    ensures it.Valid() && Merged(it.lt, it.inputs, out', positions', it.pos)
    ensures |old(it.pos)| == |it.inputs| && 0 <= Remaining(it.inputs, it.pos) < Remaining(it.inputs, old(it.pos))
  {
    var c := it.current.value;
    MergeOne(it.lt, it.inputs, out, positions, it.pos, c);
    RemainingLess(it.inputs, it.pos, c);
    out', positions' := out + [Place(c, it.pos[c])], positions + [it.pos];
    it.Next();
  }

  /** Merging to the end. From ascending inputs the output ascends. */
  method MergeAll<K(!new)>(lt: (K, K) -> bool, inputs: seq<seq<K>>) returns (out: seq<Place>, ghost positions: seq<seq<nat>>)
    requires StrictTotal(lt)
    ensures forall p: Place :: p in out <==> InInputs(inputs, p)
    ensures Distinct(out)
    ensures TookLeast(lt, inputs, out, positions)
    ensures AscendingInputs(lt, inputs) ==> Ascending(lt, inputs, out)
  {
    var it := new BlobFileMergeIterator(lt, inputs);
    it.SeekToFirst();
    out, positions := [], [];
    while it.current.Some?
      invariant fresh(it) && it.Valid() && it.lt == lt && it.inputs == inputs
      invariant Merged(lt, inputs, out, positions, it.pos)
      decreases Remaining(inputs, it.pos)
    {
      out, positions := EmitNext(it, out, positions);
    }
    AllEmitted(inputs, it.pos, out);
  }

  function Remaining<K>(inputs: seq<seq<K>>, pos: seq<nat>): int
    requires |pos| == |inputs|
  {
    if inputs == [] then 0 else
    var n := |inputs| - 1;
    Remaining(inputs[..n], pos[..n]) + if pos[n] < |inputs[n]| then |inputs[n]| - pos[n] else 0
  }

  lemma {:induction false} RemainingLess<K>(inputs: seq<seq<K>>, pos: seq<nat>, c: nat)
    requires |pos| == |inputs| && c < |inputs| && pos[c] < |inputs[c]|
    ensures Remaining(inputs, pos[c := pos[c] + 1]) == Remaining(inputs, pos) - 1
    ensures Remaining(inputs, pos) > 0
  {
    var n := |inputs| - 1;
    if c < n {
      RemainingLess(inputs[..n], pos[..n], c);
      assert pos[c := pos[c] + 1][..n] == pos[..n][c := pos[c] + 1];
    } else {
      assert pos[c := pos[c] + 1][..n] == pos[..n];
      RemainingNatural(inputs[..n], pos[..n]);
    }
  }

  lemma {:induction false} RemainingNatural<K>(inputs: seq<seq<K>>, pos: seq<nat>)
    requires |pos| == |inputs|
    ensures Remaining(inputs, pos) >= 0
  {
    if inputs != [] { RemainingNatural(inputs[..|inputs| - 1], pos[..|inputs| - 1]); }
  }
}
