/** The heap of marshalled objects: what the budgets say about it, and how it grows. */
module PycGraph {
  import opened PycRecords

  /** What an object leads to. */
  function Below(o: Object): seq<Id> { o.items + (if o.code.Some? then o.code.value.fields else []) }

  predicate Inside(ids: seq<Id>, n: nat) { forall i | 0 <= i < |ids| :: ids[i] < n }

  predicate Closed(heap: seq<Object>) { forall j | 0 <= j < |heap| :: Inside(Below(heap[j]), |heap|) }

  // ---------------------------------------------------------------- what the heap holds

  /** An object, a code object, the bytes of a text, the bytecode of a code object. */
  function Share(heap: seq<Object>, o: Object): Usage {
    match o.code
    case Some(code) => Usage(1, 1, |o.bytes|, BytecodeSize(heap, code.fields))
    case None => Usage(1, 0, |o.bytes|, 0)
  }

  function HeldTo(heap: seq<Object>, n: nat): Usage
    requires n <= |heap|
  {
    if n == 0 then Usage(0, 0, 0, 0) else Plus(HeldTo(heap, n - 1), Share(heap, heap[n - 1]))
  }

  function Held(heap: seq<Object>): Usage { HeldTo(heap, |heap|) }

  lemma {:induction false} HeldSame(a: seq<Object>, b: seq<Object>, n: nat)
    requires n <= |a| && n <= |b| && forall j | 0 <= j < n :: Share(a, a[j]) == Share(b, b[j])
    ensures HeldTo(a, n) == HeldTo(b, n)
  {
    if n > 0 { HeldSame(a, b, n - 1); }
  }

  lemma {:induction false} HeldReplaced(a: seq<Object>, b: seq<Object>, id: nat, n: nat)
    requires id < n <= |a| && n <= |b|
    requires forall j | 0 <= j < n && j != id :: Share(a, a[j]) == Share(b, b[j])
    ensures Plus(HeldTo(a, n), Share(b, b[id])) == Plus(HeldTo(b, n), Share(a, a[id]))
  {
    if n == id + 1 { HeldSame(a, b, id); } else { HeldReplaced(a, b, id, n - 1); }
  }

  lemma Appended(heap: seq<Object>, o: Object)
    requires Closed(heap) && o.code.None?
    ensures Held(heap + [o]) == Plus(Held(heap), Usage(1, 0, |o.bytes|, 0))
  {
    var b := heap + [o];
    forall j | 0 <= j < |heap| ensures Share(heap, heap[j]) == Share(b, b[j]) {
      BytecodeStays(heap, b, heap[j]);
    }
    HeldSame(heap, b, |heap|);
    assert HeldTo(b, |b|) == Plus(HeldTo(b, |heap|), Share(b, b[|heap|]));
  }

  lemma BytecodeStays(heap: seq<Object>, after: seq<Object>, o: Object)
    requires Inside(Below(o), |heap|) && heap <= after
    ensures Share(heap, o) == Share(after, o)
  {
    if o.code.Some? && |o.code.value.fields| > 0 {
      assert Below(o)[|o.items|] == o.code.value.fields[0];
    }
  }

  /** A blank object is finished. */
  lemma Replaced(heap: seq<Object>, id: Id, o: Object)
    requires id < |heap| && heap[id] == Blank(o.kind) && o.bytes == []
    ensures Plus(Held(heap), Share(heap, o)) == Plus(Held(heap[id := o]), ONE_OBJECT)
  {
    HeldReplaced(heap, heap[id := o], id, |heap|);
  }

  // ---------------------------------------------------------------- states

  /** The budgets hold for what has been used, and for what is in the heap; references name
      objects, and no null record. */
  predicate Steady(s: State, c: Config) {
    && Within(s.used, c) && AtMost(Usage(0, 0, 0, 0), s.used) && AtMost(Held(s.heap), s.used)
    && |s.references| <= s.used.objects && Inside(s.references, |s.heap|) && Closed(s.heap)
    && forall i | 0 <= i < |s.references| :: s.heap[s.references[i]].kind != '0'
  }

  /** Objects are only added, budgets only used up, and no more is added to the heap than is
      paid for. */
  predicate Advanced(a: State, b: State) {
    && a.position <= b.position && a.heap <= b.heap && a.references <= b.references
    && AtMost(a.used, b.used) && AtMost(Plus(a.used, Held(b.heap)), Plus(b.used, Held(a.heap)))
  }

  lemma Further(a: State, b: State, d: State)
    requires Advanced(a, b) && Advanced(b, d)
    ensures Advanced(a, d)
  {
    hide Held;
  }

  lemma Entering(s: State, c: Config, k: char, flag: bool)
    requires Steady(s, c) && s.used.objects < c.maxObjects && (k == '0' ==> !flag)
    ensures Steady(Entered(s, k, flag), c) && Advanced(s, Entered(s, k, flag))
  {
    hide Held;
    Appended(s.heap, Blank(k));
    Widened(s.heap, Blank(k));
  }

  lemma Widened(heap: seq<Object>, o: Object)
    requires Closed(heap) && Inside(Below(o), |heap| + 1)
    ensures Closed(heap + [o])
  {
    forall j | 0 <= j < |heap| + 1 ensures Inside(Below((heap + [o])[j]), |heap| + 1) {
      if j < |heap| { assert Inside(Below(heap[j]), |heap|); }
    }
  }

  /** Bytes are skipped, and charged to the scalar budget. */
  lemma Charged(a: State, b: State, c: Config)
    requires Steady(a, c) && b.heap == a.heap && b.references == a.references
    requires a.used.scalar <= b.used.scalar <= c.maxScalar && b.used == a.used.(scalar := b.used.scalar)
    ensures Steady(b, c)
  {
    hide Held;
  }

  lemma Skipped(a: State, b: State, c: Config)
    requires Steady(a, c) && b == a.(position := b.position)
    ensures Steady(b, c)
  {
    hide Held;
  }

  lemma SteadyScalar(s: State, c: Config)
    requires Steady(s, c)
    ensures s.used.scalar <= c.maxScalar
  {}

  /** The object at `id` is finished. */
  function Placed(s: State, id: Id, o: Object): State
    requires id < |s.heap|
  {
    s.(heap := s.heap[id := o])
  }

  /** A leaf pays for its bytes. */
  lemma PlacingLeaf(start: State, now: State, c: Config, o: Object)
    requires Steady(start, c) && Steady(now, c) && start.position <= now.position
    requires start.references <= now.references
    requires now.heap == start.heap + [Blank(o.kind)] && o.items == [] && o.code.None?
    requires AtMost(Plus(start.used, Usage(1, 0, |o.bytes|, 0)), now.used)
    ensures Steady(Placed(now, |start.heap|, o), c) && Advanced(start, Placed(now, |start.heap|, o))
  {
    hide Held;
    Appended(start.heap, o);
    Widened(start.heap, o);
    assert now.heap[|start.heap| := o] == start.heap + [o];
    assert forall j | 0 <= j < |now.heap| :: now.heap[j].kind == (start.heap + [o])[j].kind;
  }

  /** Any other object holds nothing but what it leads to; code pays for its bytecode. */
  lemma Placing(start: State, now: State, c: Config, o: Object)
    requires Steady(start, c) && Steady(now, c) && start.position <= now.position
    requires start.references <= now.references && start.heap + [Blank(o.kind)] <= now.heap
    requires o.bytes == [] && Inside(Below(o), |now.heap|)
    requires AtMost(start.used, now.used)
    requires AtMost(Plus(Plus(start.used, Held(now.heap)), Share(now.heap, o)),
                    Plus(Plus(now.used, Held(start.heap)), ONE_OBJECT))
    ensures Steady(Placed(now, |start.heap|, o), c) && Advanced(start, Placed(now, |start.heap|, o))
  {
    hide Held, Share;
    var id := |start.heap|;
    Replaced(now.heap, id, o);
    var after := now.heap[id := o];
    forall j | 0 <= j < |after| ensures Inside(Below(after[j]), |after|) {
      if j != id { assert Inside(Below(now.heap[j]), |now.heap|); }
    }
  }
}
