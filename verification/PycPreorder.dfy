/** What a marshalled record means, told at one go and not step by step: the objects of its
    graph are its records in the order in which they begin, the table of references holds the
    flagged ones in that order, and an object leads to the objects that its children begin. */
module PycPreorder {
  import opened PycRecords
  import opened PycLayout
  import opened PycReading

  // ---------------------------------------------------------------- the records inside a record

  /** A record, and the position of its first byte. */
  datatype Node = Node(record: Record, at: nat)

  /** The objects of a record: references have none, and the record that ends a dictionary is
      one. */
  function Objects(t: Record): nat
    decreases t, 1
  {
    match t
    case Reference(_) => 0
    case Leaf(_, _, _) => 1
    case Container(_, _, items) => 1 + AllObjects(items)
    case Dictionary(_, items) => 2 + AllObjects(items)
    case Code(_, _, fields, _, table) => 1 + AllObjects(fields) + Objects(table)
  }

  function AllObjects(ts: seq<Record>): nat
    decreases ts, 0
  {
    if ts == [] then 0 else AllObjects(ts[..|ts| - 1]) + Objects(ts[|ts| - 1])
  }

  /** The records with an object, in the order in which they begin. */
  function Nodes(t: Record, at: nat): (ns: seq<Node>)
    ensures |ns| == Objects(t)
    decreases t, 1
  {
    match t
    case Reference(_) => []
    case Leaf(_, _, _) => [Node(t, at)]
    case Container(_, k, items) => [Node(t, at)] + AllNodes(items, if k == ')' then at + 2 else at + 5)
    case Dictionary(_, items) =>
      [Node(t, at)] + (AllNodes(items, at + 1) + [Node(Leaf(false, '0', Empty), at + 1 + |AllWritten(items)|)])
    case Code(_, _, fields, _, table) =>
      [Node(t, at)] + (AllNodes(fields, at + 25) + Nodes(table, at + 25 + |AllWritten(fields)| + 4))
  }

  function AllNodes(ts: seq<Record>, at: nat): (ns: seq<Node>)
    ensures |ns| == AllObjects(ts)
    decreases ts, 0
  {
    if ts == [] then []
    else AllNodes(ts[..|ts| - 1], at) + Nodes(ts[|ts| - 1], at + |AllWritten(ts[..|ts| - 1])|)
  }

  // ---------------------------------------------------------------- references

  predicate IsFlagged(t: Record) {
    match t
    case Reference(_) => false
    case Leaf(flag, _, _) => flag
    case Container(flag, _, _) => flag
    case Dictionary(flag, _) => flag
    case Code(flag, _, _, _, _) => flag
  }

  /** The flagged ones among records that begin with object `base`. */
  function Flagged(ns: seq<Node>, base: nat): seq<Id> {
    if ns == [] then []
    else
      Flagged(ns[..|ns| - 1], base) + (if IsFlagged(ns[|ns| - 1].record) then [base + |ns| - 1] else [])
  }

  /** How many records are flagged. */
  function Flags(t: Record): nat
    decreases t, 1
  {
    match t
    case Reference(_) => 0
    case Leaf(flag, _, _) => Bit(flag)
    case Container(flag, _, items) => Bit(flag) + AllFlags(items)
    case Dictionary(flag, items) => Bit(flag) + AllFlags(items)
    case Code(flag, _, fields, _, table) => Bit(flag) + AllFlags(fields) + Flags(table)
  }

  function Bit(b: bool): nat { if b then 1 else 0 }

  function AllFlags(ts: seq<Record>): nat
    decreases ts, 0
  {
    if ts == [] then 0 else AllFlags(ts[..|ts| - 1]) + Flags(ts[|ts| - 1])
  }

  /** Each reference is to a record that has begun, where `n` flagged ones precede `t`. */
  predicate Resolved(t: Record, n: nat)
    decreases t, 1
  {
    match t
    case Reference(i) => 0 <= i < n
    case Leaf(_, _, _) => true
    case Container(flag, _, items) => AllResolved(items, n + Bit(flag))
    case Dictionary(flag, items) => AllResolved(items, n + Bit(flag))
    case Code(flag, _, fields, _, table) =>
      AllResolved(fields, n + Bit(flag)) && Resolved(table, n + Bit(flag) + AllFlags(fields))
  }

  predicate AllResolved(ts: seq<Record>, n: nat)
    decreases ts, 0
  {
    ts == [] || (AllResolved(ts[..|ts| - 1], n) && Resolved(ts[|ts| - 1], n + AllFlags(ts[..|ts| - 1])))
  }

  // ---------------------------------------------------------------- objects

  /** A child stands for its own object, or for the flagged one that it refers to. */
  predicate Denotes(references: seq<Id>, t: Record, own: nat, id: Id) {
    if t.Reference? then 0 <= t.index < |references| && id == references[t.index] else id == own
  }

  /** The same for children whose objects begin with `first`. */
  predicate AllDenote(references: seq<Id>, ts: seq<Record>, first: nat, ids: seq<Id>) {
    && |ids| == |ts|
    && forall j | 0 <= j < |ts| :: Denotes(references, ts[j], first + AllObjects(ts[..j]), ids[j])
  }

  /** Texts keep their bytes and where these begin: behind the kind and one or four bytes of
      length. */
  predicate LeafIsOf(k: char, content: Content, at: nat, o: Object) {
    && o.kind == k && o.items == [] && o.code.None?
    && match content
       case Short(b) =>
         if k == 'z' || k == 'Z' then o.bytes == b && o.offset == at + 2 else o.bytes == [] && o.offset == 0
       case Long(b) => o.bytes == b && o.offset == at + 5
       case _ => o.bytes == [] && o.offset == 0
  }

  predicate CodeIsOf(references: seq<Id>, t: Record, own: nat, code: CodeObject)
    requires t.Code?
  {
    && code.numbers == t.numbers && code.firstLine == t.firstLine && |code.fields| == |t.fields| + 1
    && AllDenote(references, t.fields, own + 1, code.fields[..|t.fields|])
    && Denotes(references, t.lineTable, own + 1 + AllObjects(t.fields), code.fields[|t.fields|])
  }

  /** Object `o`, with the number `own`, is what the record describes. */
  predicate Described(references: seq<Id>, n: Node, own: nat, o: Object) {
    match n.record
    case Reference(_) => false
    case Leaf(_, k, content) => LeafIsOf(k, content, n.at, o)
    case Container(_, k, items) =>
      o.kind == k && o.bytes == [] && o.offset == 0 && o.code.None? && AllDenote(references, items, own + 1, o.items)
    case Dictionary(_, items) =>
      o.kind == '{' && o.bytes == [] && o.offset == 0 && o.code.None? && AllDenote(references, items, own + 1, o.items)
    case Code(_, _, _, _, _) =>
      && o.kind == 'c' && o.bytes == [] && o.offset == 0 && o.items == [] && o.code.Some?
      && CodeIsOf(references, n.record, own, o.code.value)
  }

  predicate AllDescribed(references: seq<Id>, ns: seq<Node>, base: nat, heap: seq<Object>) {
    && base + |ns| <= |heap|
    && forall i | 0 <= i < |ns| :: Described(references, ns[i], base + i, heap[base + i])
  }

  // ---------------------------------------------------------------- which objects there are

  lemma {:induction false} FlaggedParts(a: seq<Node>, b: seq<Node>, base: nat)
    ensures Flagged(a + b, base) == Flagged(a, base) + Flagged(b, base + |a|)
  {
    if b == [] {
      assert a + b == a;
    } else {
      FlaggedParts(a, b[..|b| - 1], base);
      assert (a + b)[..|a + b| - 1] == a + b[..|b| - 1];
    }
  }

  /** From one state to another the nodes are added. */
  predicate Adds(s: State, r: State, ns: seq<Node>) {
    s.heap <= r.heap && |r.heap| == |s.heap| + |ns| && r.references == s.references + Flagged(ns, |s.heap|)
  }

  lemma AddsBoth(s: State, m: State, r: State, a: seq<Node>, b: seq<Node>)
    requires Adds(s, m, a) && Adds(m, r, b)
    ensures Adds(s, r, a + b)
  {
    hide Flagged;
    FlaggedParts(a, b, |s.heap|);
  }

  /** A record with children is entered before and put in place after them. */
  lemma Shell(s: State, t: Record)
    requires !t.Reference?
    ensures var e := Opened(s, KindOf(t), t.flag);
      && e.heap == s.heap + [Blank(KindOf(t))]
      && e.references == s.references + (if t.flag then [|s.heap|] else [])
    ensures After(s, t) == Placed(s, Filled(s, t), Finished(s, t))
    ensures s.heap + [Blank(KindOf(t))] <= Filled(s, t).heap
  {
    hide Filled, Finished;
  }

  function Placed(s: State, f: State, o: Object): State
    requires |s.heap| < |f.heap|
  {
    f.(heap := f.heap[|s.heap| := o])
  }

  lemma RootAdds(s: State, e: State, f: State, root: Node, ns: seq<Node>, o: Object)
    requires Adds(e, f, ns) && |e.heap| == |s.heap| + 1 && s.heap <= e.heap
    requires e.references == s.references + (if IsFlagged(root.record) then [|s.heap|] else [])
    ensures Adds(s, Placed(s, f, o), [root] + ns)
  {
    RootFlag(root, ns, |s.heap|);
    assert s.heap <= f.heap[|s.heap| := o];
  }

  lemma {:induction false} Listed(s: State, t: Record)
    requires Allowed(t)
    ensures Adds(s, After(s, t), Nodes(t, s.position))
    decreases t, 1
  {
    hide Adds, AllAllowed, LeafAllowed, After, AfterAll, Filled, Finished, Values, AllWritten, AllNodes, Placed;
    match t
    case Reference(i) =>
      ReferenceAdds(s, i);
    case Leaf(flag, k, content) =>
      Shell(s, t);
      LeafAdds(s, flag, k, content);
      RootAdds(s, Opened(s, k, flag), Filled(s, t), Node(t, s.position), [], Finished(s, t));
      assert [Node(t, s.position)] + [] == Nodes(t, s.position);
    case Container(flag, k, items) =>
      Shell(s, t);
      ContainerFilled(s, flag, k, items);
      AllListed(Opened(s, k, flag), items);
      RootAdds(s, Opened(s, k, flag), Filled(s, t), Node(t, s.position), AllNodes(items, Opened(s, k,
          flag).position), Finished(s, t));
    case Dictionary(flag, items) =>
      Shell(s, t);
      DictionaryFilled(s, flag, items);
      DictionaryAdds(s, flag, items);
    case Code(flag, _, fields, _, table) =>
      Shell(s, t);
      CodeFilled(s, t);
      CodeAdds(s, t);
  }

  lemma ReferenceAdds(s: State, i: int)
    ensures Adds(s, After(s, Reference(i)), [])
  {}

  lemma LeafAdds(s: State, flag: bool, k: char, content: Content)
    ensures Adds(Opened(s, k, flag), Filled(s, Leaf(flag, k, content)), [])
  {
    hide ContentBytes;
  }

  lemma {:induction false} DictionaryAdds(s: State, flag: bool, items: seq<Record>)
    requires AllAllowed(items)
    ensures var t := Dictionary(flag, items);
      Adds(s, Placed(s, Filled(s, t), Finished(s, t)), Nodes(t, s.position))
    decreases items, 2
  {
    hide Adds, After, AfterAll, Filled, Finished, Values, AllWritten, AllNodes, Allowed, AllAllowed, Placed, Terminated, Flagged;
    var t, e := Dictionary(flag, items), Opened(s, '{', flag);
    DictionaryFilled(s, flag, items);
    AllListed(e, items);
    var m := AfterAll(e, items);
    var last := Node(Leaf(false, '0', Empty), s.position + 1 + |AllWritten(items)|);
    NullAdds(m, last);
    AddsBoth(e, m, Terminated(m), AllNodes(items, e.position), [last]);
    Shell(s, t);
    RootAdds(s, e, Terminated(m), Node(t, s.position), AllNodes(items, e.position) + [last], Finished(s, t));
  }

  lemma NullAdds(s: State, n: Node)
    requires !IsFlagged(n.record)
    ensures Adds(s, Terminated(s), [n])
  {
    NullFlag(n, |s.heap|);
  }

  lemma {:induction false} CodeAdds(s: State, t: Record)
    requires t.Code? && Allowed(t)
    ensures Adds(s, Placed(s, Filled(s, t), Finished(s, t)), Nodes(t, s.position))
    decreases t, 0
  {
    hide Adds, After, AfterAll, Filled, Finished, Values, AllWritten, AllNodes, AllAllowed, EncodeAll;
    var e := Opened(s, 'c', t.flag);
    CodeFilled(s, t);
    AllListed(e, t.fields);
    var m := AfterAll(e, t.fields);
    AllPlaced(e, t.fields);
    Listed(Skip(m, 4), t.lineTable);
    SkipAdds(e, m, AllNodes(t.fields, e.position));
    AddsBoth(e, Skip(m, 4), CodeRead(s, t), AllNodes(t.fields, e.position), Nodes(t.lineTable, Skip(m, 4).position));
    SpendAdds(e, CodeRead(s, t), Filled(s, t), AllNodes(t.fields, e.position) + Nodes(t.lineTable, Skip(m, 4).position));
    Shell(s, t);
    RootAdds(s, e, Filled(s, t), Node(t, s.position),
             AllNodes(t.fields, e.position) + Nodes(t.lineTable, Skip(m, 4).position), Finished(s, t));
  }

  lemma SkipAdds(s: State, r: State, ns: seq<Node>)
    requires Adds(s, r, ns)
    ensures Adds(s, Skip(r, 4), ns)
  {}

  lemma SpendAdds(s: State, r: State, q: State, ns: seq<Node>)
    requires Adds(s, r, ns) && q.heap == r.heap && q.references == r.references
    ensures Adds(s, q, ns)
  {}

  /** Reading records moves on by their bytes. */
  lemma AllPlaced(s: State, ts: seq<Record>)
    requires AllAllowed(ts)
    ensures AfterAll(s, ts).position == s.position + |AllWritten(ts)|
  {
    hide AfterAll, EncodeAll, AllWritten, Allowed, Shaped;
    AllAllowedIff(ts);
    PositionAll(s, ts);
    AllWrittenAre(ts);
  }

  lemma {:induction false} AllListed(s: State, ts: seq<Record>)
    requires AllAllowed(ts)
    ensures Adds(s, AfterAll(s, ts), AllNodes(ts, s.position))
    decreases ts, 0
  {
    hide Adds, After, Nodes, AllWritten, Allowed;
    if ts == [] {
      NothingAdds(s);
    } else {
      var most, last := ts[..|ts| - 1], ts[|ts| - 1];
      AllListed(s, most);
      AllPlaced(s, most);
      Listed(AfterAll(s, most), last);
      AddsBoth(s, AfterAll(s, most), AfterAll(s, ts), AllNodes(most, s.position), Nodes(last, AfterAll(s, most).position));
    }
  }

  lemma NothingAdds(s: State)
    ensures Adds(s, s, [])
  {}

  // ---------------------------------------------------------------- what the objects are

  lemma {:induction false} FlagsCounted(t: Record, at: nat, base: nat)
    ensures |Flagged(Nodes(t, at), base)| == Flags(t)
    decreases t, 1
  {
    hide AllNodes, AllWritten, AllFlags, Flagged;
    match t
    case Reference(_) => NoFlags(base);
    case Leaf(_, _, _) =>
      NoFlags(base + 1);
      RootFlag(Node(t, at), [], base);
      assert [Node(t, at)] + [] == Nodes(t, at);
    case Container(_, k, items) =>
      AllFlagsCounted(items, if k == ')' then at + 2 else at + 5, base + 1);
      RootFlag(Node(t, at), AllNodes(items, if k == ')' then at + 2 else at + 5), base);
    case Dictionary(_, items) =>
      var last := Node(Leaf(false, '0', Empty), at + 1 + |AllWritten(items)|);
      AllFlagsCounted(items, at + 1, base + 1);
      FlaggedParts(AllNodes(items, at + 1), [last], base + 1);
      NullFlag(last, base + 1 + |AllNodes(items, at + 1)|);
      RootFlag(Node(t, at), AllNodes(items, at + 1) + [last], base);
    case Code(_, _, fields, _, table) =>
      AllFlagsCounted(fields, at + 25, base + 1);
      var q := at + 25 + |AllWritten(fields)| + 4;
      FlagsCounted(table, q, base + 1 + |AllNodes(fields, at + 25)|);
      FlaggedParts(AllNodes(fields, at + 25), Nodes(table, q), base + 1);
      RootFlag(Node(t, at), AllNodes(fields, at + 25) + Nodes(table, q), base);
  }

  lemma NoFlags(base: nat)
    ensures Flagged([], base) == []
  {}

  lemma NullFlag(n: Node, base: nat)
    requires !IsFlagged(n.record)
    ensures Flagged([n], base) == []
  {
    NoFlags(base + 1);
    RootFlag(n, [], base);
    assert [n] + [] == [n];
  }

  lemma RootFlag(root: Node, ns: seq<Node>, base: nat)
    ensures Flagged([root] + ns, base) == (if IsFlagged(root.record) then [base] else []) + Flagged(ns, base + 1)
  {
    FlaggedParts([root], ns, base);
    assert [root][..0] == [];
    assert Flagged([root], base) == Flagged([], base) + (if IsFlagged(root.record) then [base] else []);
  }

  lemma {:induction false} AllFlagsCounted(ts: seq<Record>, at: nat, base: nat)
    ensures |Flagged(AllNodes(ts, at), base)| == AllFlags(ts)
    decreases ts, 0
  {
    hide Nodes, AllWritten, Flags;
    if ts != [] {
      var most, last := ts[..|ts| - 1], ts[|ts| - 1];
      AllFlagsCounted(most, at, base);
      FlagsCounted(last, at + |AllWritten(most)|, base + |AllNodes(most, at)|);
      FlaggedParts(AllNodes(most, at), Nodes(last, at + |AllWritten(most)|), base);
    }
  }

  lemma DenotesStill(references: seq<Id>, more: seq<Id>, t: Record, own: nat, id: Id)
    requires references <= more && Denotes(references, t, own, id)
    ensures Denotes(more, t, own, id)
  {}

  lemma AllDenoteStill(references: seq<Id>, more: seq<Id>, ts: seq<Record>, first: nat, ids: seq<Id>)
    requires references <= more && AllDenote(references, ts, first, ids)
    ensures AllDenote(more, ts, first, ids)
  {
    hide AllObjects;
    forall j | 0 <= j < |ts| ensures Denotes(more, ts[j], first + AllObjects(ts[..j]), ids[j]) {
      DenotesStill(references, more, ts[j], first + AllObjects(ts[..j]), ids[j]);
    }
  }

  /** Later flagged records change no reference. */
  lemma DescribedStill(references: seq<Id>, more: seq<Id>, n: Node, own: nat, o: Object)
    requires references <= more && Described(references, n, own, o)
    ensures Described(more, n, own, o)
  {
    hide AllDenote, Denotes, LeafIsOf, AllObjects;
    match n.record
    case Leaf(_, _, _) =>
    case Container(_, _, items) => AllDenoteStill(references, more, items, own + 1, o.items);
    case Dictionary(_, items) => AllDenoteStill(references, more, items, own + 1, o.items);
    case Code(_, _, fields, _, table) =>
      AllDenoteStill(references, more, fields, own + 1, o.code.value.fields[..|fields|]);
      DenotesStill(references, more, table, own + 1 + AllObjects(fields), o.code.value.fields[|fields|]);
  }

  /** Nor do other objects. */
  lemma AllDescribedStill(references: seq<Id>, more: seq<Id>, ns: seq<Node>, base: nat, heap: seq<Object>, after: seq<Object>)
    requires references <= more && AllDescribed(references, ns, base, heap) && |heap| <= |after|
    requires forall i | base <= i < base + |ns| :: after[i] == heap[i]
    ensures AllDescribed(more, ns, base, after)
  {
    hide Described;
    forall i | 0 <= i < |ns| ensures Described(more, ns[i], base + i, after[base + i]) {
      DescribedStill(references, more, ns[i], base + i, heap[base + i]);
    }
  }

  lemma DescribedParts(references: seq<Id>, a: seq<Node>, b: seq<Node>, base: nat, heap: seq<Object>)
    requires AllDescribed(references, a, base, heap) && AllDescribed(references, b, base + |a|, heap)
    ensures AllDescribed(references, a + b, base, heap)
  {
    hide Described;
    forall i | 0 <= i < |a + b| ensures Described(references, (a + b)[i], base + i, heap[base + i]) {
      if i >= |a| {
        assert (a + b)[i] == b[i - |a|];
        assert Described(references, b[i - |a|], base + |a| + (i - |a|), heap[base + |a| + (i - |a|)]);
      }
    }
  }

  /** The root is put in place before what its children begin. */
  lemma RootDescribed(s: State, f: State, root: Node, ns: seq<Node>, o: Object)
    requires |s.heap| < |f.heap| && AllDescribed(f.references, ns, |s.heap| + 1, f.heap)
    requires Described(f.references, root, |s.heap|, o)
    ensures AllDescribed(Placed(s, f, o).references, [root] + ns, |s.heap|, Placed(s, f, o).heap)
  {
    hide Described;
    var r := Placed(s, f, o);
    AllDescribedStill(f.references, r.references, ns, |s.heap| + 1, f.heap, r.heap);
    assert AllDescribed(r.references, [root], |s.heap|, r.heap);
    DescribedParts(r.references, [root], ns, |s.heap|, r.heap);
  }

  predicate Right(s: State, r: State, ns: seq<Node>) { AllDescribed(r.references, ns, |s.heap|, r.heap) }

  lemma {:induction false} Graphed(s: State, t: Record)
    requires Allowed(t) && Resolved(t, |s.references|)
    ensures Right(s, After(s, t), Nodes(t, s.position))
    ensures Denotes(After(s, t).references, t, |s.heap|, Value(s, t))
    decreases t, 1
  {
    hide AllDescribed, AllAllowed, LeafAllowed, After, AfterAll, Filled, Finished, Values, AllWritten, AllNodes, Placed,
         AllResolved, AllDenote, AllObjects, LeafIsOf, CodeIsOf;
    match t
    case Reference(i) =>
      ReferenceDescribed(s, i);
    case Leaf(flag, k, content) =>
      Shell(s, t);
      LeafDescribed(s, flag, k, content);
    case Container(flag, k, items) =>
      Shell(s, t);
      ContainerFilled(s, flag, k, items);
      AllGraphed(Opened(s, k, flag), items);
      RootDescribed(s, Filled(s, t), Node(t, s.position), AllNodes(items, Opened(s, k, flag).position), Finished(s, t));
    case Dictionary(flag, items) =>
      Shell(s, t);
      DictionaryGraphed(s, flag, items);
    case Code(flag, _, fields, _, table) =>
      Shell(s, t);
      CodeGraphed(s, t);
  }

  lemma ReferenceDescribed(s: State, i: int)
    requires 0 <= i < |s.references|
    ensures Right(s, After(s, Reference(i)), []) && After(s, Reference(i)).references == s.references
  {}

  lemma LeafDescribed(s: State, flag: bool, k: char, content: Content)
    ensures var t := Leaf(flag, k, content);
      Right(s, After(s, t), [Node(t, s.position)])
  {
    hide ContentBytes, After, Filled, Finished, Placed;
    var t := Leaf(flag, k, content);
    Shell(s, t);
    LeafFilled(s, flag, k, content);
    assert LeafIsOf(k, content, s.position, Finished(s, t));
    NoneDescribed(Filled(s, t), |s.heap| + 1);
    RootDescribed(s, Filled(s, t), Node(t, s.position), [], Finished(s, t));
    assert [Node(t, s.position)] + [] == [Node(t, s.position)];
  }

  lemma NoneDescribed(f: State, base: nat)
    requires base <= |f.heap|
    ensures AllDescribed(f.references, [], base, f.heap)
  {}

  lemma {:induction false} AllGraphed(s: State, ts: seq<Record>)
    requires AllAllowed(ts) && AllResolved(ts, |s.references|)
    ensures Right(s, AfterAll(s, ts), AllNodes(ts, s.position))
    ensures AllDenote(AfterAll(s, ts).references, ts, |s.heap|, Values(s, ts))
    decreases ts, 0
  {
    hide AllDescribed, After, Nodes, AllWritten, Allowed, Resolved, Flagged, AllFlags, Denotes, Value, AllDenote, AllObjects;
    if ts == [] {
      NoneDescribed(s, |s.heap|);
      NoneDenoted(s.references, |s.heap|);
    } else {
      var most, last := ts[..|ts| - 1], ts[|ts| - 1];
      var m, r := AfterAll(s, most), AfterAll(s, ts);
      AllGraphed(s, most);
      AllPlaced(s, most);
      AllListed(s, most);
      AllFlagsCounted(most, s.position, |s.heap|);
      Graphed(m, last);
      Listed(m, last);
      AllDescribedStill(m.references, r.references, AllNodes(most, s.position), |s.heap|, m.heap, r.heap);
      DescribedParts(r.references, AllNodes(most, s.position), Nodes(last, m.position), |s.heap|, r.heap);
      AllDenoteStill(m.references, r.references, most, |s.heap|, Values(s, most));
      OneDenotedMore(r.references, ts, |s.heap|, Values(s, most), Value(m, last));
    }
  }

  lemma NoneDenoted(references: seq<Id>, first: nat)
    ensures AllDenote(references, [], first, [])
  {}

  lemma OneDenotedMore(references: seq<Id>, ts: seq<Record>, first: nat, ids: seq<Id>, id: Id)
    requires ts != [] && AllDenote(references, ts[..|ts| - 1], first, ids)
    requires Denotes(references, ts[|ts| - 1], first + AllObjects(ts[..|ts| - 1]), id)
    ensures AllDenote(references, ts, first, ids + [id])
  {
    hide Denotes, AllObjects;
    var most := ts[..|ts| - 1];
    forall j | 0 <= j < |ts| ensures Denotes(references, ts[j], first + AllObjects(ts[..j]), (ids + [id])[j]) {
      if j < |most| {
        assert most[..j] == ts[..j];
        assert Denotes(references, most[j], first + AllObjects(most[..j]), ids[j]);
      }
    }
  }

  lemma {:induction false} DictionaryGraphed(s: State, flag: bool, items: seq<Record>)
    requires AllAllowed(items) && AllResolved(items, |s.references| + Bit(flag))
    ensures var t := Dictionary(flag, items);
      Right(s, Placed(s, Filled(s, t), Finished(s, t)), Nodes(t, s.position))
    decreases items, 2
  {
    hide AllDescribed, AllDenote, Allowed, After, AfterAll, Filled, Finished, Values, AllWritten, AllNodes,
         AllResolved, AllObjects, Flagged;
    var t, e := Dictionary(flag, items), Opened(s, '{', flag);
    DictionaryFilled(s, flag, items);
    Shell(s, t);
    AllGraphed(e, items);
    AllListed(e, items);
    var m := AfterAll(e, items);
    var ns, last := AllNodes(items, e.position), Node(Leaf(false, '0', Empty), s.position + 1 + |AllWritten(items)|);
    AllDescribedStill(m.references, m.references, ns, |e.heap|, m.heap, Terminated(m).heap);
    NullDescribed(m, last);
    DescribedParts(m.references, ns, [last], |e.heap|, Terminated(m).heap);
    RootDescribed(s, Terminated(m), Node(t, s.position), ns + [last], Finished(s, t));
  }

  lemma NullDescribed(m: State, n: Node)
    requires n.record == Leaf(false, '0', Empty)
    ensures AllDescribed(Terminated(m).references, [n], |m.heap|, Terminated(m).heap)
    ensures m.heap <= Terminated(m).heap && Terminated(m).references == m.references
  {}

  lemma {:induction false} CodeGraphed(s: State, t: Record)
    requires t.Code? && Allowed(t) && Resolved(t, |s.references|)
    ensures Right(s, Placed(s, Filled(s, t), Finished(s, t)), Nodes(t, s.position))
    decreases t, 0
  {
    hide AllDescribed, AllDenote, AllAllowed, After, AfterAll, Filled, Finished, Values, AllWritten, AllNodes, AllResolved,
         AllObjects, Flagged, AllFlags, Denotes, CodeIsOf, CodeOf, Value;
    var e := Opened(s, 'c', t.flag);
    Shell(s, t);
    CodeFilled(s, t);
    AllGraphed(e, t.fields);
    AllListed(e, t.fields);
    AllPlaced(e, t.fields);
    AllFlagsCounted(t.fields, e.position, |e.heap|);
    var m, f := Skip(AfterAll(e, t.fields), 4), Filled(s, t);
    var ns, tail := AllNodes(t.fields, e.position), Nodes(t.lineTable, m.position);
    Graphed(m, t.lineTable);
    Listed(m, t.lineTable);
    AllDescribedStill(m.references, f.references, ns, |e.heap|, m.heap, f.heap);
    DescribedParts(f.references, ns, tail, |e.heap|, f.heap);
    AllDenoteStill(m.references, f.references, t.fields, |e.heap|, Values(e, t.fields));
    CodeUnfolded(s, t);
    CodeOfIs(f.references, t, |s.heap|, Values(e, t.fields), Value(m, t.lineTable));
    RootDescribed(s, f, Node(t, s.position), ns + tail, Finished(s, t));
  }

  lemma CodeUnfolded(s: State, t: Record)
    requires t.Code?
    ensures var e := Opened(s, 'c', t.flag); var m := Skip(AfterAll(e, t.fields), 4);
      CodeOf(s, t) == CodeObject(t.numbers, Values(e, t.fields) + [Value(m, t.lineTable)], t.firstLine)
  {
    hide AfterAll, Value, Values, Opened, Skip;
  }

  /** The code object leads to what its fields stand for, in their order. */
  lemma CodeOfIs(references: seq<Id>, t: Record, own: nat, ids: seq<Id>, id: Id)
    requires t.Code? && AllDenote(references, t.fields, own + 1, ids)
    requires Denotes(references, t.lineTable, own + 1 + AllObjects(t.fields), id)
    ensures CodeIsOf(references, t, own, CodeObject(t.numbers, ids + [id], t.firstLine))
  {
    hide Denotes, AllObjects;
    assert (ids + [id])[..|t.fields|] == ids;
  }
}
