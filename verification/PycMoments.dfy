/** What the reader demands of a record, told at one go: how deep and how long its records are,
    what they may refer to, and that each code object meets its rules in the graph as it was when
    its last field had been read. */
module PycMoments {
  import opened Counting
  import opened PycRecords
  import opened PycLayout
  import opened PycReading
  import opened PycPreorder

  // ---------------------------------------------------------------- limits

  function Max(a: nat, b: nat): nat { if a < b then b else a }

  /** Records inside records; a dictionary holds at least the record that ends it. */
  function Height(t: Record): (h: nat)
    ensures h > 0
    decreases t, 1
  {
    match t
    case Reference(_) => 1
    case Leaf(_, _, _) => 1
    case Container(_, _, items) => 1 + Highest(items)
    case Dictionary(_, items) => 1 + Max(1, Highest(items))
    case Code(_, _, fields, _, table) => 1 + Max(Highest(fields), Height(table))
  }

  function Highest(ts: seq<Record>): (h: nat)
    ensures h == 0 <==> ts == []
    decreases ts, 0
  {
    if ts == [] then 0 else Max(Highest(ts[..|ts| - 1]), Height(ts[|ts| - 1]))
  }

  /** Items of a container, digits of a number: at most `m`; pairs of a dictionary: fewer. */
  predicate Counted(t: Record, m: nat)
    decreases t, 1
  {
    match t
    case Reference(_) => true
    case Leaf(_, _, content) => content.Digits? ==> -(m as int) <= content.digits <= m
    case Container(_, _, items) => |items| <= m && AllCounted(items, m)
    case Dictionary(_, items) => |items| < 2 * m && AllCounted(items, m)
    case Code(_, _, fields, _, table) => AllCounted(fields, m) && Counted(table, m)
  }

  predicate AllCounted(ts: seq<Record>, m: nat)
    decreases ts, 0
  {
    ts == [] || (AllCounted(ts[..|ts| - 1], m) && Counted(ts[|ts| - 1], m))
  }

  // ---------------------------------------------------------------- the moment of validation

  /** The node that begins after node `i` and all its children. */
  function End(ns: seq<Node>, i: nat): nat
    requires i < |ns|
  {
    i + Objects(ns[i].record)
  }

  predicate Nest(ns: seq<Node>) { forall i | 0 <= i < |ns| :: i < End(ns, i) <= |ns| }

  /** An object that has been entered and no more. */
  function Open(o: Object): Object { Object(o.kind, [], 0, [], None) }

  /** The heap when the last child of node `i` had been read: all objects up to there, of which
      those around it, and itself, were still open. */
  function Then(before: seq<Object>, after: seq<Object>, ns: seq<Node>, i: nat): seq<Object>
    requires Nest(ns) && i < |ns| && |before| + |ns| <= |after|
  {
    before + seq(End(ns, i), j requires 0 <= j < End(ns, i) =>
      if j <= i < End(ns, j) then Open(after[|before| + j]) else after[|before| + j])
  }

  ghost predicate Fine(c: Config, before: seq<Object>, after: seq<Object>, ns: seq<Node>, i: nat)
    requires Nest(ns) && i < |ns| && |before| + |ns| <= |after|
  {
    && after[|before| + i].code.Some?
    && CodeRule(Then(before, after, ns, i), after[|before| + i].code.value, c)
  }

  /** Every code object among the nodes met its rules at its moment. */
  ghost predicate CodesFine(c: Config, before: seq<Object>, after: seq<Object>, ns: seq<Node>) {
    && Nest(ns) && |before| + |ns| <= |after|
    && forall i | 0 <= i < |ns| && ns[i].record.Code? :: Fine(c, before, after, ns, i)
  }

  lemma NestParts(a: seq<Node>, b: seq<Node>)
    requires Nest(a) && Nest(b)
    ensures Nest(a + b)
  {
    hide Objects;
    forall i | 0 <= i < |a + b| ensures i < End(a + b, i) <= |a + b| {
      if i < |a| { assert End(a + b, i) == End(a, i); } else { assert End(a + b, i) == |a| + End(b, i - |a|); }
    }
  }

  lemma NestRoot(root: Node, ns: seq<Node>)
    requires Nest(ns) && Objects(root.record) == 1 + |ns|
    ensures Nest([root] + ns)
  {
    hide Objects;
    var all := [root] + ns;
    forall i | 0 <= i < |all| ensures i < End(all, i) <= |all| {
      if i > 0 { assert End(all, i) == 1 + End(ns, i - 1); }
    }
  }

  lemma {:induction false} Nested(t: Record, at: nat)
    ensures Nest(Nodes(t, at))
    decreases t, 1
  {
    hide Nest, AllNodes, AllWritten;
    match t
    case Reference(_) => NoNest();
    case Leaf(_, _, _) =>
      NoNest();
      NestRoot(Node(t, at), []);
      assert [Node(t, at)] + [] == Nodes(t, at);
    case Container(_, k, items) =>
      AllNested(items, if k == ')' then at + 2 else at + 5);
      NestRoot(Node(t, at), AllNodes(items, if k == ')' then at + 2 else at + 5));
    case Dictionary(_, items) =>
      var last := Node(Leaf(false, '0', Empty), at + 1 + |AllWritten(items)|);
      AllNested(items, at + 1);
      NoNest();
      NestRoot(last, []);
      assert [last] + [] == [last];
      NestParts(AllNodes(items, at + 1), [last]);
      NestRoot(Node(t, at), AllNodes(items, at + 1) + [last]);
    case Code(_, _, fields, _, table) =>
      AllNested(fields, at + 25);
      var q := at + 25 + |AllWritten(fields)| + 4;
      Nested(table, q);
      NestParts(AllNodes(fields, at + 25), Nodes(table, q));
      NestRoot(Node(t, at), AllNodes(fields, at + 25) + Nodes(table, q));
  }

  lemma NoNest()
    ensures Nest([])
  {}

  lemma {:induction false} AllNested(ts: seq<Record>, at: nat)
    ensures Nest(AllNodes(ts, at))
    decreases ts, 0
  {
    hide Nodes, AllWritten, Nest;
    if ts == [] {
      NoNest();
    } else {
      var most, last := ts[..|ts| - 1], ts[|ts| - 1];
      AllNested(most, at);
      Nested(last, at + |AllWritten(most)|);
      NestParts(AllNodes(most, at), Nodes(last, at + |AllWritten(most)|));
    }
  }

  // ---------------------------------------------------------------- code objects, part by part

  /** Only the objects of the nodes matter. */
  lemma FineStill(c: Config, before: seq<Object>, after: seq<Object>, other: seq<Object>, ns: seq<Node>)
    requires |before| + |ns| <= |after| && |before| + |ns| <= |other|
    requires forall i | |before| <= i < |before| + |ns| :: after[i] == other[i]
    ensures CodesFine(c, before, after, ns) <==> CodesFine(c, before, other, ns)
  {
    hide CodeRule, Objects, Nest, Open;
    if Nest(ns) {
      forall i | 0 <= i < |ns| && ns[i].record.Code? ensures Fine(c, before, after, ns, i) <==> Fine(c, before, other, ns, i) {
        EndIsIn(ns, i);
        assert Then(before, after, ns, i) == Then(before, other, ns, i);
      }
    }
  }

  lemma EndIsIn(ns: seq<Node>, i: nat)
    requires Nest(ns) && i < |ns|
    ensures i < End(ns, i) <= |ns|
  {}

  lemma FineParts(c: Config, before: seq<Object>, after: seq<Object>, a: seq<Node>, b: seq<Node>)
    requires Nest(a) && Nest(b) && |before| + |a| + |b| <= |after|
    ensures CodesFine(c, before, after, a + b) <==>
      CodesFine(c, before, after, a) && CodesFine(c, before + after[|before|..|before| + |a|], after, b)
  {
    hide CodeRule, Objects, Nest, Open;
    NestParts(a, b);
    var m := before + after[|before|..|before| + |a|];
    forall i | 0 <= i < |a| ensures Fine(c, before, after, a + b, i) <==> Fine(c, before, after, a, i) {
      FirstPart(before, after, a, b, i);
    }
    forall i | 0 <= i < |b| ensures Fine(c, before, after, a + b, |a| + i) <==> Fine(c, m, after, b, i) {
      SecondPart(before, after, a, b, i);
    }
    if CodesFine(c, before, after, a + b) {
      forall i | 0 <= i < |a| && a[i].record.Code? ensures Fine(c, before, after, a, i) {
        assert (a + b)[i] == a[i];
      }
      forall i | 0 <= i < |b| && b[i].record.Code? ensures Fine(c, m, after, b, i) {
        assert (a + b)[|a| + i] == b[i];
      }
    }
    if CodesFine(c, before, after, a) && CodesFine(c, m, after, b) {
      forall i | 0 <= i < |a + b| && (a + b)[i].record.Code? ensures Fine(c, before, after, a + b, i) {
        if i >= |a| {
          assert (a + b)[i] == b[i - |a|];
          assert Fine(c, m, after, b, i - |a|);
        } else {
          assert (a + b)[i] == a[i];
        }
      }
    }
  }

  lemma FirstPart(before: seq<Object>, after: seq<Object>, a: seq<Node>, b: seq<Node>, i: nat)
    requires Nest(a) && Nest(b) && Nest(a + b) && |before| + |a| + |b| <= |after| && i < |a|
    ensures Then(before, after, a + b, i) == Then(before, after, a, i)
  {
    hide Objects, Open;
    assert forall j | 0 <= j < |a| :: End(a + b, j) == End(a, j);
  }

  lemma SecondPart(before: seq<Object>, after: seq<Object>, a: seq<Node>, b: seq<Node>, i: nat)
    requires Nest(a) && Nest(b) && Nest(a + b) && |before| + |a| + |b| <= |after| && i < |b|
    ensures Then(before, after, a + b, |a| + i) == Then(before + after[|before|..|before| + |a|], after, b, i)
  {
    hide Objects, Open;
    assert forall j | 0 <= j < |a| :: End(a + b, j) == End(a, j) <= |a|;
    assert forall j | 0 <= j < |b| :: (a + b)[|a| + j] == b[j];
    assert forall j | 0 <= j < |b| :: End(a + b, |a| + j) == |a| + End(b, j);
  }

  lemma FineRoot(c: Config, before: seq<Object>, after: seq<Object>, root: Node, ns: seq<Node>)
    requires Nest(ns) && Objects(root.record) == 1 + |ns| && |before| + 1 + |ns| <= |after|
    ensures Nest([root] + ns)
    ensures CodesFine(c, before, after, [root] + ns) <==>
      && CodesFine(c, before + [Open(after[|before|])], after, ns)
      && (root.record.Code? ==> Fine(c, before, after, [root] + ns, 0))
    ensures Then(before, after, [root] + ns, 0) ==
            before + [Open(after[|before|])] + after[|before| + 1..|before| + 1 + |ns|]
  {
    hide CodeRule, Objects, Nest, Open;
    NestRoot(root, ns);
    var all, m := [root] + ns, before + [Open(after[|before|])];
    forall i | 0 <= i < |ns| ensures Fine(c, before, after, all, 1 + i) <==> Fine(c, m, after, ns, i) {
      InsideRoot(before, after, root, ns, i);
    }
    if CodesFine(c, before, after, all) {
      forall i | 0 <= i < |ns| && ns[i].record.Code? ensures Fine(c, m, after, ns, i) {
        assert all[1 + i] == ns[i];
      }
    }
    if CodesFine(c, m, after, ns) && (root.record.Code? ==> Fine(c, before, after, all, 0)) {
      forall i | 0 <= i < |all| && all[i].record.Code? ensures Fine(c, before, after, all, i) {
        if i > 0 {
          assert all[i] == ns[i - 1];
          assert Fine(c, m, after, ns, i - 1);
        }
      }
    }
    assert End(all, 0) == 1 + |ns|;
  }

  lemma InsideRoot(before: seq<Object>, after: seq<Object>, root: Node, ns: seq<Node>, i: nat)
    requires Nest(ns) && Nest([root] + ns) && Objects(root.record) == 1 + |ns|
    requires |before| + 1 + |ns| <= |after| && i < |ns|
    ensures Then(before, after, [root] + ns, 1 + i) == Then(before + [Open(after[|before|])], after, ns, i)
  {
    hide Objects, Open;
    var all, m := [root] + ns, before + [Open(after[|before|])];
    assert End(all, 0) == 1 + |ns| && End(all, 1 + i) == 1 + End(ns, i);
    var x, y := Then(before, after, all, 1 + i), Then(m, after, ns, i);
    forall j | 0 <= j < |x| ensures x[j] == y[j] {
      if j > |before| {
        var k := j - |before| - 1;
        assert all[1 + k] == ns[k] && End(all, 1 + k) == 1 + End(ns, k);
      }
    }
  }

  // ---------------------------------------------------------------- soundness

  /** A record is sound at depth `depth`, where `n` flagged ones precede it. */
  predicate Bounded(c: Config, t: Record, depth: int, n: nat) {
    depth + Height(t) <= c.maxDepth + 1 && Counted(t, c.maxItems) && Resolved(t, n)
  }

  predicate AllBounded(c: Config, ts: seq<Record>, depth: int, n: nat) {
    && (ts == [] || depth + Highest(ts) <= c.maxDepth + 1)
    && AllCounted(ts, c.maxItems) && AllResolved(ts, n)
  }

  lemma LastSound(c: Config, s: State, ts: seq<Record>, depth: int)
    requires ts != []
    ensures AllSound(c, s, ts, depth) <==>
      AllSound(c, s, ts[..|ts| - 1], depth) && Sound(c, AfterAll(s, ts[..|ts| - 1]), ts[|ts| - 1], depth)
  {
    hide AfterAll, Sound;
    var most, last := ts[..|ts| - 1], ts[|ts| - 1];
    assert ts == most + [last];
    if AllSound(c, s, most, depth) && Sound(c, AfterAll(s, most), last, depth) { OneMoreSound(c, s, most, last, depth); }
    if AllSound(c, s, ts, depth) { EarlierSound(c, s, ts, |ts| - 1, depth); }
  }

  lemma LastBounded(c: Config, ts: seq<Record>, depth: int, n: nat)
    requires ts != []
    ensures var most, last := ts[..|ts| - 1], ts[|ts| - 1];
      AllBounded(c, ts, depth, n) <==> AllBounded(c, most, depth, n) && Bounded(c, last, depth, n + AllFlags(most))
  {
    hide Height, Counted, Resolved;
  }

  lemma {:induction false} SoundIff(c: Config, s: State, t: Record, depth: int)
    requires Allowed(t)
    ensures Sound(c, s, t, depth) <==>
      Bounded(c, t, depth, |s.references|) && CodesFine(c, s.heap, After(s, t).heap, Nodes(t, s.position))
    decreases t, 1
  {
    hide Highest, AllCounted, AllResolved, AllSound, AllAllowed, CodeOk, CodeOf, After, AfterAll, LeafAllowed, AllFlags,
         CodesFine, AllNodes, Objects, Filled, Finished, Values, AllWritten, AllObjects;
    match t
    case Reference(i) =>
      NoneFine(c, s.heap, After(s, t).heap);
    case Leaf(flag, k, content) =>
      LeafFine(c, s, t);
    case Container(flag, k, items) =>
      var e := Opened(s, k, flag);
      AllSoundIff(c, e, items, depth + 1);
      ContainerFilled(s, flag, k, items);
      ContainerNodes(t, s.position);
      FinishedFine(c, s, t, AfterAll(e, items), AllNodes(items, e.position));
    case Dictionary(flag, items) => DictionarySound(c, s, flag, items, depth);
    case Code(flag, _, fields, _, table) => CodeSoundIff(c, s, t, depth);
  }

  lemma NoneFine(c: Config, before: seq<Object>, after: seq<Object>)
    requires |before| <= |after|
    ensures CodesFine(c, before, after, [])
  {
    NoNest();
  }

  lemma LeafFine(c: Config, s: State, t: Record)
    requires t.Leaf? && Allowed(t)
    ensures CodesFine(c, s.heap, After(s, t).heap, Nodes(t, s.position))
  {
    hide After;
    Nested(t, s.position);
    Listed(s, t);
  }

  /** What was fine before a container or dictionary is put in place is fine after it. */
  lemma FinishedFine(c: Config, s: State, t: Record, m: State, ns: seq<Node>)
    requires t.Container? || t.Dictionary?
    requires Nest(ns) && Objects(t) == 1 + |ns| && |m.heap| == |s.heap| + 1 + |ns|
    requires Filled(s, t) == m
    ensures CodesFine(c, s.heap, After(s, t).heap, [Node(t, s.position)] + ns) <==>
            CodesFine(c, s.heap + [Blank(KindOf(t))], m.heap, ns)
  {
    hide CodesFine, Objects, Filled, After, Nest;
    Shell(s, t);
    FinishedKind(s, t);
    var after := After(s, t).heap;
    FineRoot(c, s.heap, after, Node(t, s.position), ns);
    assert Open(after[|s.heap|]) == Blank(KindOf(t));
    FineStill(c, s.heap + [Blank(KindOf(t))], after, m.heap, ns);
  }

  lemma {:induction false} AllSoundIff(c: Config, s: State, ts: seq<Record>, depth: int)
    requires AllAllowed(ts)
    ensures AllSound(c, s, ts, depth) <==>
      AllBounded(c, ts, depth, |s.references|) && CodesFine(c, s.heap, AfterAll(s, ts).heap, AllNodes(ts, s.position))
    ensures Adds(s, AfterAll(s, ts), AllNodes(ts, s.position)) && Nest(AllNodes(ts, s.position))
    decreases ts, 0
  {
    hide AllSound, Allowed, Sound, After, AllNodes, Flagged, Flags, CodesFine, Bounded, AllBounded, Nodes, Nest, AllWritten;
    AllListed(s, ts);
    AllNested(ts, s.position);
    if ts == [] {
      NothingSound(c, s, depth);
    } else {
      var most, last := ts[..|ts| - 1], ts[|ts| - 1];
      var m := AfterAll(s, most);
      LastSound(c, s, ts, depth);
      LastBounded(c, ts, depth, |s.references|);
      AllSoundIff(c, s, most, depth);
      AllPlaced(s, most);
      AllFlagsCounted(most, s.position, |s.heap|);
      SoundIff(c, m, last, depth);
      Listed(m, last);
      Nested(last, m.position);
      JoinedFine(c, s, m, After(m, last), AllNodes(most, s.position), Nodes(last, m.position));
      LastNodes(ts, s.position);
    }
  }

  lemma LastNodes(ts: seq<Record>, at: nat)
    requires ts != []
    ensures var most := ts[..|ts| - 1];
      AllNodes(ts, at) == AllNodes(most, at) + Nodes(ts[|ts| - 1], at + |AllWritten(most)|)
  {
    hide Nodes, AllWritten;
  }

  lemma NothingSound(c: Config, s: State, depth: int)
    ensures AllSound(c, s, [], depth) && AllBounded(c, [], depth, |s.references|)
    ensures AfterAll(s, []) == s && AllNodes([], s.position) == [] && CodesFine(c, s.heap, s.heap, [])
  {
    NoNest();
  }

  lemma JoinedFine(c: Config, s: State, m: State, r: State, a: seq<Node>, b: seq<Node>)
    requires Adds(s, m, a) && Adds(m, r, b) && Nest(a) && Nest(b)
    ensures CodesFine(c, s.heap, r.heap, a + b) <==> CodesFine(c, s.heap, m.heap, a) && CodesFine(c, m.heap, r.heap, b)
  {
    hide CodesFine, Nest, Flagged;
    FineParts(c, s.heap, r.heap, a, b);
    assert s.heap + r.heap[|s.heap|..|s.heap| + |a|] == m.heap;
    FineStill(c, s.heap, r.heap, m.heap, a);
  }

  lemma {:induction false} DictionarySound(c: Config, s: State, flag: bool, items: seq<Record>, depth: int)
    requires AllAllowed(items)
    ensures var t := Dictionary(flag, items);
      Sound(c, s, t, depth) <==>
        Bounded(c, t, depth, |s.references|) && CodesFine(c, s.heap, After(s, t).heap, Nodes(t, s.position))
    decreases items, 2
  {
    hide Highest, AllCounted, AllResolved, AllSound, Allowed, After, AfterAll, CodesFine, AllNodes, AllWritten, Objects,
         Filled, Finished, Values, AllObjects, Nest, Flagged;
    var t, e := Dictionary(flag, items), Opened(s, '{', flag);
    var m, ns := AfterAll(e, items), AllNodes(items, e.position);
    var last := Node(Leaf(false, '0', Empty), s.position + 1 + |AllWritten(items)|);
    AllSoundIff(c, e, items, depth + 1);
    DictionaryFilled(s, flag, items);
    NullFine(c, m, last);
    NullAdds(m, last);
    JoinedFine(c, e, m, Terminated(m), ns, [last]);
    NestParts(ns, [last]);
    DictionaryObjects(flag, items);
    FinishedFine(c, s, t, Terminated(m), ns + [last]);
    DictionaryNodes(flag, items, s.position);
  }

  lemma ContainerNodes(t: Record, at: nat)
    requires t.Container?
    ensures Nodes(t, at) == [Node(t, at)] + AllNodes(t.items, if t.kind == ')' then at + 2 else at + 5)
    ensures Objects(t) == 1 + AllObjects(t.items)
  {
    hide AllNodes, AllObjects;
  }

  lemma DictionaryObjects(flag: bool, items: seq<Record>)
    ensures Objects(Dictionary(flag, items)) == 2 + AllObjects(items)
  {
    hide AllObjects;
  }

  lemma DictionaryNodes(flag: bool, items: seq<Record>, at: nat)
    ensures Nodes(Dictionary(flag, items), at) == [Node(Dictionary(flag, items), at)] +
      (AllNodes(items, at + 1) + [Node(Leaf(false, '0', Empty), at + 1 + |AllWritten(items)|)])
  {
    hide AllNodes, AllWritten;
  }

  lemma NullFine(c: Config, m: State, last: Node)
    requires last.record == Leaf(false, '0', Empty)
    ensures Nest([last]) && CodesFine(c, m.heap, Terminated(m).heap, [last])
  {}

  lemma {:induction false} CodeSoundIff(c: Config, s: State, t: Record, depth: int)
    requires t.Code? && Allowed(t)
    ensures Sound(c, s, t, depth) <==>
      Bounded(c, t, depth, |s.references|) && CodesFine(c, s.heap, After(s, t).heap, Nodes(t, s.position))
    decreases t, 0
  {
    hide Highest, AllCounted, AllResolved, AllSound, AllAllowed, After, AfterAll, CodesFine, AllNodes, AllWritten, Objects,
         Filled, Finished, Values, AllObjects, Nest, Flagged, CodeOk, CodeOf, Sound, Height, Counted, Resolved,
             Nodes, Bounded, AllBounded;
    var e := Opened(s, 'c', t.flag);
    var ns := AllNodes(t.fields, e.position);
    var m, f := Skip(AfterAll(e, t.fields), 4), CodeRead(s, t);
    var tail := Nodes(t.lineTable, m.position);
    CodeSound(c, s, t, depth);
    CodeAllowed(t);
    AllSoundIff(c, e, t.fields, depth + 1);
    AllPlaced(e, t.fields);
    AllFlagsCounted(t.fields, e.position, |e.heap|);
    SoundIff(c, m, t.lineTable, depth + 1);
    Listed(m, t.lineTable);
    Nested(t.lineTable, m.position);
    SkipAdds(e, AfterAll(e, t.fields), ns);
    JoinedFine(c, e, m, f, ns, tail);
    NestParts(ns, tail);
    AddsBoth(e, m, f, ns, tail);
    CodeBounded(c, t, depth, |s.references|);
    CodeNodes(t, s.position);
    OpenedCode(s, t.flag);
    CodeFine(c, s, t, ns + tail);
    FieldsThere(t);
  }

  lemma OpenedCode(s: State, flag: bool)
    ensures var e := Opened(s, 'c', flag);
      e.position == s.position + 25 && e.heap == s.heap + [Blank('c')] && |e.references| == |s.references| + Bit(flag)
  {}

  lemma CodeAllowed(t: Record)
    requires t.Code? && Allowed(t)
    ensures AllAllowed(t.fields) && Allowed(t.lineTable)
  {}

  lemma FieldsThere(t: Record)
    requires t.Code? && Allowed(t)
    ensures t.fields != []
  {}

  lemma CodeBounded(c: Config, t: Record, depth: int, n: nat)
    requires t.Code?
    ensures var k := n + Bit(t.flag);
      Bounded(c, t, depth, n) && t.fields != [] <==>
        && t.fields != [] && AllBounded(c, t.fields, depth + 1, k)
        && Bounded(c, t.lineTable, depth + 1, k + AllFlags(t.fields))
    ensures Bounded(c, t, depth, n) ==> depth <= c.maxDepth
  {
    hide Highest, AllCounted, AllResolved, AllFlags;
  }

  lemma CodeNodes(t: Record, at: nat)
    requires t.Code?
    ensures Nodes(t, at) == [Node(t, at)] +
      (AllNodes(t.fields, at + 25) + Nodes(t.lineTable, at + 25 + |AllWritten(t.fields)| + 4))
    ensures Objects(t) == 1 + AllObjects(t.fields) + Objects(t.lineTable)
  {
    hide AllNodes, AllWritten, AllObjects;
  }

  /** The code object itself is judged when its line table has been read. */
  lemma CodeFine(c: Config, s: State, t: Record, ns: seq<Node>)
    requires t.Code? && Nest(ns) && Objects(t) == 1 + |ns|
    requires Adds(Opened(s, 'c', t.flag), CodeRead(s, t), ns)
    ensures CodesFine(c, s.heap, After(s, t).heap, [Node(t, s.position)] + ns) <==>
      CodesFine(c, s.heap + [Blank('c')], CodeRead(s, t).heap, ns) && CodeOk(CodeRead(s, t).heap, CodeOf(s, t), c)
  {
    hide CodesFine, Objects, Filled, After, Nest, Finished, CodeOf, CodeRead, CodeOk, CodeRule;
    Shell(s, t);
    CodeFilled(s, t);
    FinishedKind(s, t);
    OpenedCode(s, t.flag);
    var after, f := After(s, t).heap, CodeRead(s, t);
    FineRoot(c, s.heap, after, Node(t, s.position), ns);
    assert Open(after[|s.heap|]) == Blank('c');
    FineStill(c, s.heap + [Blank('c')], after, f.heap, ns);
    assert s.heap + [Blank('c')] + after[|s.heap| + 1..|s.heap| + 1 + |ns|] == f.heap;
    CodeRuleIff(f.heap, CodeOf(s, t), c);
    assert after[|s.heap|] == Finished(s, t);
  }
}
