/** Where the records of an accepted payload stand in it, and what its bytes say of each code
    object. */
module PycPlaces {
  import opened Words
  import opened PycRecords
  import opened PycLayout
  import opened PycPreorder
  import opened PycMoments
  import opened PycAcceptance

  // ---------------------------------------------------------------- where the records stand

  predicate Stands(payload: Bytes, n: Node) {
    var b := Written(n.record);
    n.at + |b| <= |payload| && payload[n.at..n.at + |b|] == b
  }

  /** A piece of bytes that stand at `at`. */
  lemma Piece(payload: Bytes, at: nat, a: Bytes, b: Bytes, c: Bytes)
    requires at + |a| + |b| + |c| <= |payload| && payload[at..at + |a| + |b| + |c|] == a + b + c
    ensures payload[at + |a|..at + |a| + |b|] == b
  {
    var all := payload[at..at + |a| + |b| + |c|];
    forall k | 0 <= k < |b| ensures payload[at + |a| + k] == b[k] {
      assert all[|a| + k] == (a + b + c)[|a| + k];
    }
  }

  ghost predicate AllStand(payload: Bytes, ns: seq<Node>) { forall i | 0 <= i < |ns| :: Stands(payload, ns[i]) }

  lemma StandBoth(payload: Bytes, a: seq<Node>, b: seq<Node>)
    requires AllStand(payload, a) && AllStand(payload, b)
    ensures AllStand(payload, a + b)
  {
    hide Stands;
    forall i | 0 <= i < |a + b| ensures Stands(payload, (a + b)[i]) {
      if i >= |a| { assert (a + b)[i] == b[i - |a|]; }
    }
  }

  /** The bytes of each record inside a record begin at its node. */
  lemma {:induction false} NodesStand(payload: Bytes, t: Record, at: nat)
    requires Stands(payload, Node(t, at))
    ensures AllStand(payload, Nodes(t, at))
    decreases t, 1
  {
    hide AllStand, AllNodes, AllWritten, S4, Six, Length;
    match t
    case Reference(_) => NoneStand(payload);
    case Leaf(_, _, _) => OneStands(payload, Node(t, at));
    case Container(flag, k, items) =>
      var head := [Kind(k, flag)] + Length(k, |items|);
      LengthSize(k, |items|);
      assert head + AllWritten(items) == head + AllWritten(items) + [];
      Piece(payload, at, head, AllWritten(items), []);
      AllNodesStand(payload, items, at + |head|);
      OneStands(payload, Node(t, at));
      StandBoth(payload, [Node(t, at)], AllNodes(items, at + |head|));
    case Dictionary(flag, items) =>
      var last := Node(Leaf(false, '0', Empty), at + 1 + |AllWritten(items)|);
      Piece(payload, at, [Kind('{', flag)], AllWritten(items), ['0' as int]);
      AllNodesStand(payload, items, at + 1);
      Piece(payload, at, [Kind('{', flag)] + AllWritten(items), ['0' as int], []);
      OneStands(payload, last);
      StandBoth(payload, AllNodes(items, at + 1), [last]);
      OneStands(payload, Node(t, at));
      StandBoth(payload, [Node(t, at)], AllNodes(items, at + 1) + [last]);
    case Code(_, _, _, _, _) => CodeStands(payload, t, at);
  }

  lemma {:induction false} CodeStands(payload: Bytes, t: Record, at: nat)
    requires t.Code? && Stands(payload, Node(t, at))
    ensures AllStand(payload, Nodes(t, at))
    decreases t, 0
  {
    hide AllStand, AllNodes, AllWritten, S4, Six, Written;
    var head, line := [Kind('c', t.flag)] + Six(t.numbers), S4(t.firstLine);
    var fields, table := AllWritten(t.fields), Written(t.lineTable);
    CodeWritten(t);
    assert head + fields + line + table == head + fields + (line + table);
    Piece(payload, at, head, fields, line + table);
    AllNodesStand(payload, t.fields, at + 25);
    assert head + fields + line + table == head + fields + line + table + [];
    Piece(payload, at, head + fields + line, table, []);
    NodesStand(payload, t.lineTable, at + 25 + |fields| + 4);
    StandBoth(payload, AllNodes(t.fields, at + 25), Nodes(t.lineTable, at + 25 + |fields| + 4));
    OneStands(payload, Node(t, at));
    StandBoth(payload, [Node(t, at)], AllNodes(t.fields, at + 25) + Nodes(t.lineTable, at + 25 + |fields| + 4));
    CodeNodes(t, at);
  }

  lemma LengthSize(k: char, n: nat)
    ensures |Length(k, n)| == if k == ')' then 1 else 4
  {}

  lemma CodeWritten(t: Record)
    requires t.Code?
    ensures Written(t) == [Kind('c', t.flag)] + Six(t.numbers) + AllWritten(t.fields) + S4(t.firstLine) + Written(t.lineTable)
    ensures |Six(t.numbers)| == 24 && |S4(t.firstLine)| == 4
  {
    hide AllWritten;
  }

  lemma NoneStand(payload: Bytes)
    ensures AllStand(payload, [])
  {}

  lemma OneStands(payload: Bytes, n: Node)
    requires Stands(payload, n)
    ensures AllStand(payload, [n])
  {
    hide Stands;
  }

  lemma {:induction false} AllNodesStand(payload: Bytes, ts: seq<Record>, at: nat)
    requires at + |AllWritten(ts)| <= |payload| && payload[at..at + |AllWritten(ts)|] == AllWritten(ts)
    ensures AllStand(payload, AllNodes(ts, at))
    decreases ts, 0
  {
    hide AllStand, Nodes, Written;
    if ts == [] {
      NoneStand(payload);
    } else {
      var most, last := ts[..|ts| - 1], ts[|ts| - 1];
      var a, b := AllWritten(most), Written(last);
      Piece(payload, at, [], a, b);
      AllNodesStand(payload, most, at);
      Piece(payload, at, a, b, []);
      NodesStand(payload, last, at + |a|);
      StandBoth(payload, AllNodes(most, at), Nodes(last, at + |a|));
    }
  }

  /** The little-endian number of four bytes. */
  function Int4(payload: Bytes, p: nat): int
    requires p + 4 <= |payload|
  {
    var (a: int, b: int, c: int, d: int) := (payload[p], payload[p + 1], payload[p + 2], payload[p + 3]);
    a + 256 * b + 65536 * c + 16777216 * d
  }

  lemma S4Tells(payload: Bytes, p: nat, v: int)
    requires p + 4 <= |payload| && payload[p..p + 4] == S4(v) && In31(v)
    ensures Int4(payload, p) == v
  {
    var b := payload[p..p + 4];
    assert b[0] == payload[p] && b[1] == payload[p + 1] && b[2] == payload[p + 2] && b[3] == payload[p + 3];
    assert v / 256 / 256 == v / 65536 && v / 65536 / 256 == v / 16777216;
  }

  lemma {:induction false} NodesAllowed(t: Record, at: nat, i: nat)
    requires Allowed(t) && i < |Nodes(t, at)|
    ensures Allowed(Nodes(t, at)[i].record)
    decreases t, 1
  {
    hide AllNodes, AllWritten, AllAllowed;
    match t
    case Leaf(_, _, _) =>
    case Container(_, k, items) =>
      if i > 0 { AllNodesAllowed(items, if k == ')' then at + 2 else at + 5, i - 1); }
    case Dictionary(_, items) =>
      if 0 < i <= |AllNodes(items, at + 1)| {
        AllNodesAllowed(items, at + 1, i - 1);
      } else if i > 0 {
        assert Nodes(t, at)[i].record == Leaf(false, '0', Empty);
      }
    case Code(_, _, fields, _, table) =>
      var ns := AllNodes(fields, at + 25);
      if 0 < i <= |ns| {
        AllNodesAllowed(fields, at + 25, i - 1);
      } else if i > |ns| {
        NodesAllowed(table, at + 25 + |AllWritten(fields)| + 4, i - 1 - |ns|);
      }
  }

  lemma {:induction false} AllNodesAllowed(ts: seq<Record>, at: nat, i: nat)
    requires AllAllowed(ts) && i < |AllNodes(ts, at)|
    ensures Allowed(AllNodes(ts, at)[i].record)
    decreases ts, 0
  {
    hide Nodes, AllWritten, Allowed;
    var most, last := ts[..|ts| - 1], ts[|ts| - 1];
    var ns := AllNodes(most, at);
    if i < |ns| { AllNodesAllowed(most, at, i); } else { NodesAllowed(last, at + |AllWritten(most)|, i - |ns|); }
  }

  /** Each code object of an accepted payload, by the positions of its bytes: behind the kind
      stand the numbers of arguments, positional-only and keyword-only ones, the number of
      locals, the stack size and the flags. The number of locals is the number of variable names
      that had been read. */
  lemma CodePositions(payload: Bytes, headerSize: nat, c: Config, t: Record, heap: seq<Object>, i: nat)
    requires Accepts(payload, headerSize, c, t, heap)
    requires var ns := Nodes(t, headerSize); i < |ns| && ns[i].record.Code?
    ensures i < |heap| && heap[i].code.Some?
    ensures var p := Nodes(t, headerSize)[i].at; var n := heap[i].code.value.numbers;
      && p + 25 <= |payload| && payload[p] % 128 == 'c' as int
      && n.args == Int4(payload, p + 1) && n.posOnly == Int4(payload, p + 5) && n.kwOnly == Int4(payload, p + 9)
      && n.locals == Int4(payload, p + 13) && n.stack == Int4(payload, p + 17) && n.flags == Int4(payload, p + 21)
    ensures CodesFine(c, [], heap, Nodes(t, headerSize)) && |heap[i].code.value.fields| == 9
    ensures var h := Then([], heap, Nodes(t, headerSize), i); var names := heap[i].code.value.fields[3];
      names < |h| && |h[names].items| == Int4(payload, Nodes(t, headerSize)[i].at + 13)
  {
    hide Nodes, Written, Allowed, Described, CodesFine, Flagged, Bytecodes, Height, Counted, Resolved, CodeRule, Objects;
    var ns := Nodes(t, headerSize);
    var n := ns[i];
    assert Stands(payload, Node(t, headerSize)) by { assert payload[headerSize..] == payload[headerSize..|payload|]; }
    NodesStand(payload, t, headerSize);
    NodesAllowed(t, headerSize, i);
    NumbersStand(payload, n);
    assert Described(Flagged(ns, 0), n, 0 + i, heap[0 + i]);
    CodeDescribed(Flagged(ns, 0), n, i, heap[i]);
    Judged(c, heap, ns, i);
  }

  lemma CodeDescribed(references: seq<Id>, n: Node, own: nat, o: Object)
    requires Described(references, n, own, o) && n.record.Code?
    ensures o.code.Some? && o.code.value.numbers == n.record.numbers
  {
    hide AllDenote, AllObjects;
  }

  lemma Judged(c: Config, heap: seq<Object>, ns: seq<Node>, i: nat)
    requires CodesFine(c, [], heap, ns) && i < |ns| && ns[i].record.Code?
    ensures heap[i].code.Some? && CodeRule(Then([], heap, ns, i), heap[i].code.value, c)
    ensures var h := Then([], heap, ns, i); var code := heap[i].code.value;
      |code.fields| == 9 && code.fields[3] < |h| && |h[code.fields[3]].items| == code.numbers.locals
  {
    hide CodeRule, Nest, Objects;
    assert Fine(c, [], heap, ns, i);
    NineOf(Then([], heap, ns, i), heap[i].code.value, c);
  }

  lemma NineOf(h: seq<Object>, code: CodeObject, c: Config)
    requires CodeRule(h, code, c)
    ensures |code.fields| == 9 && code.fields[3] < |h| && |h[code.fields[3]].items| == code.numbers.locals
  {}

  lemma NumbersStand(payload: Bytes, n: Node)
    requires n.record.Code? && Allowed(n.record) && Stands(payload, n)
    ensures var p := n.at; var m := n.record.numbers;
      && p + 25 <= |payload| && payload[p] % 128 == 'c' as int
      && m.args == Int4(payload, p + 1) && m.posOnly == Int4(payload, p + 5) && m.kwOnly == Int4(payload, p + 9)
      && m.locals == Int4(payload, p + 13) && m.stack == Int4(payload, p + 17) && m.flags == Int4(payload, p + 21)
  {
    hide S4, Int4, AllWritten, Written, AllAllowed;
    CodeWritten(n.record);
    var t, p, m := n.record, n.at, n.record.numbers;
    var rest := AllWritten(t.fields) + S4(t.firstLine) + Written(t.lineTable);
    var head := [Kind('c', t.flag)];
    assert Written(t) == head + Six(m) + rest;
    Piece(payload, p, [], head, Six(m) + rest) by { assert Written(t) == [] + head + (Six(m) + rest); }
    assert payload[p] == payload[p..p + 1][0];
    Piece(payload, p, head, Six(m), rest);
    SixTell(payload, p + 1, m);
  }

  lemma SixTell(payload: Bytes, p: nat, m: Numbers)
    requires In31(m.args) && In31(m.posOnly) && In31(m.kwOnly) && In31(m.locals) && In31(m.stack) && In31(m.flags)
    requires p + 24 <= |payload| && payload[p..p + 24] == Six(m)
    ensures m.args == Int4(payload, p) && m.posOnly == Int4(payload, p + 4) && m.kwOnly == Int4(payload, p + 8)
    ensures m.locals == Int4(payload, p + 12) && m.stack == Int4(payload, p + 16) && m.flags == Int4(payload, p + 20)
  {
    hide Int4, S4, Six;
    SixParts(m);
    var b := Six(m);
    FourOf(payload, p, b, 0);
    FourOf(payload, p, b, 4);
    FourOf(payload, p, b, 8);
    FourOf(payload, p, b, 12);
    FourOf(payload, p, b, 16);
    FourOf(payload, p, b, 20);
    S4Tells(payload, p, m.args);
    S4Tells(payload, p + 4, m.posOnly);
    S4Tells(payload, p + 8, m.kwOnly);
    S4Tells(payload, p + 12, m.locals);
    S4Tells(payload, p + 16, m.stack);
    S4Tells(payload, p + 20, m.flags);
  }

  lemma FourOf(payload: Bytes, p: nat, b: Bytes, k: nat)
    requires p + |b| <= |payload| && payload[p..p + |b|] == b && k + 4 <= |b|
    ensures payload[p + k..p + k + 4] == b[k..k + 4]
  {
    assert b == b[..k] + b[k..k + 4] + b[k + 4..];
    Piece(payload, p, b[..k], b[k..k + 4], b[k + 4..]);
  }

  lemma SixParts(m: Numbers)
    ensures |Six(m)| == 24
    ensures Six(m)[0..4] == S4(m.args) && Six(m)[4..8] == S4(m.posOnly) && Six(m)[8..12] == S4(m.kwOnly)
    ensures Six(m)[12..16] == S4(m.locals) && Six(m)[16..20] == S4(m.stack) && Six(m)[20..24] == S4(m.flags)
  {}
}
