/** Which payloads are accepted, told at one go: a payload is one code record after its header,
    its records are not too deep, too many or too long, refer only to flagged records before
    them, and each code object meets its rules at its moment. */
module PycAcceptance {
  import opened Counting
  import opened Words
  import opened PycRecords
  import opened PycLayout
  import opened PycReading
  import opened PycPreorder
  import opened PycMoments

  // ---------------------------------------------------------------- limits

  /** All records, references among them; all code objects; all bytes of texts and numbers with
      a length. */
  function Records(t: Record): nat
    decreases t, 1
  {
    match t
    case Reference(_) => 1
    case Leaf(_, _, _) => 1
    case Container(_, _, items) => 1 + AllRecords(items)
    case Dictionary(_, items) => 2 + AllRecords(items)
    case Code(_, _, fields, _, table) => 1 + AllRecords(fields) + Records(table)
  }

  function AllRecords(ts: seq<Record>): nat
    decreases ts, 0
  {
    if ts == [] then 0 else AllRecords(ts[..|ts| - 1]) + Records(ts[|ts| - 1])
  }

  function Codes(t: Record): nat
    decreases t, 1
  {
    match t
    case Reference(_) => 0
    case Leaf(_, _, _) => 0
    case Container(_, _, items) => AllCodes(items)
    case Dictionary(_, items) => AllCodes(items)
    case Code(_, _, fields, _, table) => 1 + AllCodes(fields) + Codes(table)
  }

  function AllCodes(ts: seq<Record>): nat
    decreases ts, 0
  {
    if ts == [] then 0 else AllCodes(ts[..|ts| - 1]) + Codes(ts[|ts| - 1])
  }

  function Scalars(t: Record): nat
    decreases t, 1
  {
    match t
    case Reference(_) => 0
    case Leaf(_, _, Short(b)) => |b|
    case Leaf(_, _, Pair(re, im)) => |re| + |im|
    case Leaf(_, _, Long(b)) => |b|
    case Leaf(_, _, Digits(_, b)) => |b|
    case Leaf(_, _, _) => 0
    case Container(_, _, items) => AllScalars(items)
    case Dictionary(_, items) => AllScalars(items)
    case Code(_, _, fields, _, table) => AllScalars(fields) + Scalars(table)
  }

  function AllScalars(ts: seq<Record>): nat
    decreases ts, 0
  {
    if ts == [] then 0 else AllScalars(ts[..|ts| - 1]) + Scalars(ts[|ts| - 1])
  }

  /** The bytes of the first field of a code object. */
  function Bytecode(heap: seq<Object>, o: Object): nat {
    if o.code.Some? && |o.code.value.fields| > 0 && o.code.value.fields[0] < |heap|
    then |heap[o.code.value.fields[0]].bytes| else 0
  }

  /** The bytecode of `n` objects from `base` on. */
  function Bytecodes(heap: seq<Object>, base: nat, n: nat): nat
    requires base + n <= |heap|
  {
    if n == 0 then 0 else Bytecodes(heap, base, n - 1) + Bytecode(heap, heap[base + n - 1])
  }

  // ---------------------------------------------------------------- budgets

  /** Code objects of the range have their bytecode in the heap. */
  predicate HasBytecode(heap: seq<Object>, base: nat, n: nat)
    requires base + n <= |heap|
  {
    forall i | base <= i < base + n && heap[i].code.Some? ::
      |heap[i].code.value.fields| > 0 && heap[i].code.value.fields[0] < |heap|
  }

  lemma {:induction false} BytecodesStill(a: seq<Object>, b: seq<Object>, base: nat, n: nat)
    requires base + n <= |a| <= |b| && HasBytecode(a, base, n)
    requires forall i | 0 <= i < |a| :: a[i].bytes == b[i].bytes
    requires forall i | base <= i < base + n :: a[i].code == b[i].code
    ensures HasBytecode(b, base, n) && Bytecodes(b, base, n) == Bytecodes(a, base, n)
  {
    if n > 0 { BytecodesStill(a, b, base, n - 1); }
  }

  lemma {:induction false} BytecodesParts(heap: seq<Object>, base: nat, a: nat, b: nat)
    requires base + a + b <= |heap|
    ensures Bytecodes(heap, base, a + b) == Bytecodes(heap, base, a) + Bytecodes(heap, base + a, b)
    ensures HasBytecode(heap, base, a) && HasBytecode(heap, base + a, b) ==> HasBytecode(heap, base, a + b)
  {
    if b > 0 { BytecodesParts(heap, base, a, b - 1); }
  }

  /** From one state to another, `n` objects were added at this price. */
  predicate Costs(s: State, r: State, n: nat, records: nat, codes: nat, scalars: nat) {
    && s.heap <= r.heap && |r.heap| == |s.heap| + n && HasBytecode(r.heap, |s.heap|, n)
    && r.used.objects == s.used.objects + records && r.used.codes == s.used.codes + codes
    && r.used.scalar == s.used.scalar + scalars
    && r.used.bytecode == s.used.bytecode + Bytecodes(r.heap, |s.heap|, n)
  }

  lemma CostsBoth(s: State, m: State, r: State, a: nat, b: nat, ra: nat, rb: nat, ca: nat, cb: nat, sa: nat, sb: nat)
    requires Costs(s, m, a, ra, ca, sa) && Costs(m, r, b, rb, cb, sb)
    ensures Costs(s, r, a + b, ra + rb, ca + cb, sa + sb)
  {
    hide Bytecodes, HasBytecode;
    BytecodesStill(m.heap, r.heap, |s.heap|, a);
    BytecodesParts(r.heap, |s.heap|, a, b);
  }

  /** A root that is no code object is put in place. */
  lemma RootCosts(s: State, e: State, f: State, o: Object, n: nat, records: nat, codes: nat, scalars: nat)
    requires Costs(e, f, n, records, codes, scalars)
    requires |e.heap| == |s.heap| + 1 && s.heap <= e.heap && e.heap[|s.heap|].bytes == o.bytes && o.code.None?
    requires e.used == Plus(s.used, ONE_OBJECT)
    ensures Costs(s, Placed(s, f, o), 1 + n, 1 + records, codes, scalars)
  {
    hide Bytecodes, HasBytecode;
    var r := Placed(s, f, o);
    BytecodesStill(f.heap, r.heap, |e.heap|, n);
    NoBytecode(r.heap, |s.heap|);
    BytecodesParts(r.heap, |s.heap|, 1, n);
    assert s.heap <= r.heap;
  }

  lemma NoBytecode(heap: seq<Object>, i: nat)
    requires i < |heap| && heap[i].code.None?
    ensures Bytecodes(heap, i, 1) == 0 && HasBytecode(heap, i, 1)
  {
    assert Bytecodes(heap, i, 1) == Bytecodes(heap, i, 0) + Bytecode(heap, heap[i]);
  }

  lemma {:induction false} Paid(c: Config, s: State, t: Record, depth: int)
    requires Allowed(t) && Sound(c, s, t, depth)
    ensures Costs(s, After(s, t), Objects(t), Records(t), Codes(t), Scalars(t))
    decreases t, 1
  {
    hide AllSound, AllAllowed, CodeOk, CodeOf, After, AfterAll, LeafAllowed, Costs, Filled, Finished, Values,
         AllObjects, AllRecords, AllCodes, AllScalars, Placed, Bytecodes;
    match t
    case Reference(i) => ReferencePaid(s, i);
    case Leaf(_, _, _) => LeafPaid(s, t);
    case Container(flag, k, items) =>
      var e := Opened(s, k, flag);
      ContainerFilled(s, flag, k, items);
      Shell(s, t);
      AllPaid(c, e, items, depth + 1);
      RootCosts(s, e, Filled(s, t), Finished(s, t), AllObjects(items), AllRecords(items), AllCodes(items), AllScalars(items));
    case Dictionary(flag, items) =>
      var e := Opened(s, '{', flag);
      DictionaryFilled(s, flag, items);
      Shell(s, t);
      AllPaid(c, e, items, depth + 1);
      var m := AfterAll(e, items);
      NullPaid(m);
      CostsBoth(e, m, Terminated(m), AllObjects(items), 1, AllRecords(items), 1, AllCodes(items), 0, AllScalars(items), 0);
      RootCosts(s, e, Filled(s, t), Finished(s, t), AllObjects(items) + 1, AllRecords(items) + 1, AllCodes(items),
          AllScalars(items));
    case Code(_, _, _, _, _) => CodePaid(c, s, t, depth);
  }

  lemma ReferencePaid(s: State, i: int)
    ensures Costs(s, After(s, Reference(i)), 0, 1, 0, 0)
  {}

  lemma LeafPaid(s: State, t: Record)
    requires t.Leaf? && Allowed(t)
    ensures Costs(s, After(s, t), 1, 1, 0, Scalars(t))
  {
    hide ContentBytes, Filled, Finished, After, Bytecodes, TextOf, TextOffset;
    Shell(s, t);
    LeafFilled(s, t.flag, t.kind, t.content);
    NoBytecode(After(s, t).heap, |s.heap|);
    assert s.heap <= After(s, t).heap;
    assert Charge(t.content) == Scalars(t);
  }

  lemma NullPaid(m: State)
    ensures Costs(m, Terminated(m), 1, 1, 0, 0)
  {
    NoBytecode(Terminated(m).heap, |m.heap|);
  }

  lemma {:induction false} AllPaid(c: Config, s: State, ts: seq<Record>, depth: int)
    requires AllAllowed(ts) && AllSound(c, s, ts, depth)
    ensures Costs(s, AfterAll(s, ts), AllObjects(ts), AllRecords(ts), AllCodes(ts), AllScalars(ts))
    decreases ts, 0
  {
    hide AllSound, Allowed, Sound, After, Costs, Objects, Records, Codes, Scalars;
    if ts == [] {
      NothingPaid(s);
    } else {
      var most, last := ts[..|ts| - 1], ts[|ts| - 1];
      LastSound(c, s, ts, depth);
      AllPaid(c, s, most, depth);
      Paid(c, AfterAll(s, most), last, depth);
      CostsBoth(s, AfterAll(s, most), AfterAll(s, ts), AllObjects(most), Objects(last), AllRecords(most), Records(last),
                AllCodes(most), Codes(last), AllScalars(most), Scalars(last));
    }
  }

  lemma NothingPaid(s: State)
    ensures Costs(s, s, 0, 0, 0, 0)
  {}

  lemma {:induction false} CodePaid(c: Config, s: State, t: Record, depth: int)
    requires t.Code? && Allowed(t) && Sound(c, s, t, depth)
    ensures Costs(s, After(s, t), Objects(t), Records(t), Codes(t), Scalars(t))
    decreases t, 0
  {
    hide AllSound, AllAllowed, CodeOk, CodeOf, After, AfterAll, Costs, Filled, Finished, Values, AllObjects, AllRecords,
         AllCodes, AllScalars, Placed, Bytecodes, Sound;
    var e := Opened(s, 'c', t.flag);
    CodeSound(c, s, t, depth);
    CodeAllowed(t);
    AllPaid(c, e, t.fields, depth + 1);
    var m, f := Skip(AfterAll(e, t.fields), 4), CodeRead(s, t);
    Paid(c, m, t.lineTable, depth + 1);
    SkipCosts(e, AfterAll(e, t.fields), AllObjects(t.fields), AllRecords(t.fields), AllCodes(t.fields), AllScalars(t.fields));
    CostsBoth(e, m, f, AllObjects(t.fields), Objects(t.lineTable), AllRecords(t.fields), Records(t.lineTable),
              AllCodes(t.fields), Codes(t.lineTable), AllScalars(t.fields), Scalars(t.lineTable));
    CodeCosts(c, s, t, AllObjects(t.fields) + Objects(t.lineTable), AllRecords(t.fields) + Records(t.lineTable),
              AllCodes(t.fields) + Codes(t.lineTable), AllScalars(t.fields) + Scalars(t.lineTable));
  }

  lemma SkipCosts(s: State, r: State, n: nat, records: nat, codes: nat, scalars: nat)
    requires Costs(s, r, n, records, codes, scalars)
    ensures Costs(s, Skip(r, 4), n, records, codes, scalars)
  {}

  /** A code object pays for its bytecode when it is put in place. */
  lemma CodeCosts(c: Config, s: State, t: Record, n: nat, records: nat, codes: nat, scalars: nat)
    requires t.Code? && CodeOk(CodeRead(s, t).heap, CodeOf(s, t), c)
    requires Costs(Opened(s, 'c', t.flag), CodeRead(s, t), n, records, codes, scalars)
    ensures Costs(s, After(s, t), 1 + n, 1 + records, 1 + codes, scalars)
  {
    hide Bytecodes, HasBytecode, CodeOf, CodeRead, After, Filled, Finished, CodeOk;
    CodeFilled(s, t);
    Shell(s, t);
    OpenedCode(s, t.flag);
    FirstField(CodeRead(s, t).heap, CodeOf(s, t), c);
    var f, r := CodeRead(s, t), After(s, t);
    assert f.heap[|s.heap|] == Blank('c');
    BytecodesStill(f.heap, r.heap, |s.heap| + 1, n);
    OwnBytecode(f.heap, r.heap, |s.heap|, CodeOf(s, t));
    BytecodesParts(r.heap, |s.heap|, 1, n);
    assert s.heap <= r.heap;
  }

  lemma FirstField(heap: seq<Object>, code: CodeObject, c: Config)
    requires CodeOk(heap, code, c)
    ensures |code.fields| > 0 && code.fields[0] < |heap|
  {}

  lemma OwnBytecode(heap: seq<Object>, after: seq<Object>, i: nat, code: CodeObject)
    requires i < |heap| == |after| && after[i].code == Some(code) && |code.fields| > 0 && code.fields[0] < |heap|
    requires forall j | 0 <= j < |heap| :: heap[j].bytes == after[j].bytes
    ensures HasBytecode(after, i, 1) && Bytecodes(after, i, 1) == BytecodeSize(heap, code.fields)
  {
    assert Bytecodes(after, i, 1) == Bytecodes(after, i, 0) + Bytecode(after, after[i]);
  }

  // ---------------------------------------------------------------- accepted payloads

  /** The objects of a payload whose records begin at `at`. */
  predicate IsGraph(t: Record, at: nat, heap: seq<Object>) {
    |heap| == Objects(t) && AllDescribed(Flagged(Nodes(t, at), 0), Nodes(t, at), 0, heap)
  }

  /** A payload, its one record, and the graph of that record. */
  ghost predicate Accepts(payload: Bytes, headerSize: nat, c: Config, t: Record, heap: seq<Object>) {
    && t.Code? && Allowed(t) && headerSize <= |payload| && payload[headerSize..] == Written(t)
    && Height(t) <= c.maxDepth && Counted(t, c.maxItems) && Resolved(t, 0)
    && Records(t) <= c.maxObjects && Codes(t) <= c.maxCodes && Scalars(t) <= c.maxScalar
    && IsGraph(t, headerSize, heap) && Bytecodes(heap, 0, |heap|) <= c.maxBytecode
    && CodesFine(c, [], heap, Nodes(t, headerSize))
  }

  lemma SameIds(references: seq<Id>, ts: seq<Record>, first: nat, a: seq<Id>, b: seq<Id>)
    requires AllDenote(references, ts, first, a) && AllDenote(references, ts, first, b)
    ensures a == b
  {
    hide AllObjects;
    assert forall j | 0 <= j < |ts| :: Denotes(references, ts[j], first + AllObjects(ts[..j]), a[j]);
  }

  /** A node describes one object. */
  lemma OneObject(references: seq<Id>, n: Node, own: nat, a: Object, b: Object)
    requires Described(references, n, own, a) && Described(references, n, own, b)
    ensures a == b
  {
    hide AllDenote, AllObjects, Denotes;
    match n.record
    case Leaf(_, _, _) =>
    case Container(_, _, items) => SameIds(references, items, own + 1, a.items, b.items);
    case Dictionary(_, items) => SameIds(references, items, own + 1, a.items, b.items);
    case Code(_, _, fields, _, table) =>
      var x, y := a.code.value.fields, b.code.value.fields;
      SameIds(references, fields, own + 1, x[..|fields|], y[..|fields|]);
      SameLast(references, table, own + 1 + AllObjects(fields), x[|fields|], y[|fields|]);
      assert x == x[..|fields|] + [x[|fields|]] && y == y[..|fields|] + [y[|fields|]];
  }

  lemma SameLast(references: seq<Id>, t: Record, own: nat, a: Id, b: Id)
    requires Denotes(references, t, own, a) && Denotes(references, t, own, b)
    ensures a == b
  {}

  /** A record describes one graph. */
  lemma OneGraph(t: Record, at: nat, a: seq<Object>, b: seq<Object>)
    requires IsGraph(t, at, a) && IsGraph(t, at, b)
    ensures a == b
  {
    hide Described, Flagged, Nodes, Objects;
    var ns, references := Nodes(t, at), Flagged(Nodes(t, at), 0);
    forall i | 0 <= i < |ns| ensures a[i] == b[i] {
      assert Described(references, ns[i], 0 + i, a[0 + i]) && Described(references, ns[i], 0 + i, b[0 + i]);
      OneObject(references, ns[i], i, a[i], b[i]);
    }
  }

  /** What reading the record from the start leaves behind. */
  lemma ReadGraph(t: Record, at: nat)
    requires Allowed(t) && Resolved(t, 0)
    ensures IsGraph(t, at, After(Start(at), t).heap)
  {
    hide After, Allowed, Resolved, Nodes, Flagged, AllDescribed;
    var s := Start(at);
    Listed(s, t);
    Graphed(s, t);
    assert After(s, t).references == Flagged(Nodes(t, at), 0);
  }

  /** Reading step by step accepts exactly these payloads, with this graph. */
  lemma AcceptsIff(payload: Bytes, headerSize: nat, c: Config, t: Record, heap: seq<Object>)
    ensures IsMarshal(payload, headerSize, c, t) && heap == After(Start(headerSize), t).heap <==>
            Accepts(payload, headerSize, c, t, heap)
  {
    hide After, Allowed, Shaped, Resolved, Nodes, Encode, Written, Sound, CodesFine, IsGraph, Height, Counted, Records,
         Codes, Scalars, Bytecodes;
    var s := Start(headerSize);
    AllowedIff(t);
    if Allowed(t) {
      WrittenIs(t);
      SoundIff(c, s, t, 1);
      if Resolved(t, 0) { ReadGraph(t, headerSize); }
      if Sound(c, s, t, 1) {
        Paid(c, s, t, 1);
        Listed(s, t);
        Budgets(c, s, After(s, t), Objects(t), Records(t), Codes(t), Scalars(t));
      }
      if IsGraph(t, headerSize, heap) && Resolved(t, 0) { OneGraph(t, headerSize, heap, After(s, t).heap); }
    }
  }

  lemma Budgets(c: Config, s: State, r: State, n: nat, records: nat, codes: nat, scalars: nat)
    requires Costs(s, r, n, records, codes, scalars) && s.heap == [] && s.used == Usage(0, 0, 0, 0)
    ensures |r.heap| == n
    ensures Within(r.used, c) <==>
      && records <= c.maxObjects && codes <= c.maxCodes && scalars <= c.maxScalar
      && Bytecodes(r.heap, 0, |r.heap|) <= c.maxBytecode
  {
    hide Bytecodes;
  }

  /** What follows the header can be read. */
  ghost predicate Acceptable(payload: Bytes, headerSize: nat, c: Config) {
    exists t, heap :: Accepts(payload, headerSize, c, t, heap)
  }

  lemma AcceptableIsMarshal(payload: Bytes, headerSize: nat, c: Config) returns (t: Record)
    requires Acceptable(payload, headerSize, c)
    ensures IsMarshal(payload, headerSize, c, t)
  {
    hide IsMarshal, Accepts, After;
    var u, heap :| Accepts(payload, headerSize, c, u, heap);
    AcceptsIff(payload, headerSize, c, u, heap);
    t := u;
  }
}
