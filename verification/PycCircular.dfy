/** A payload that is accepted although one of its code objects fails validateCodeObject in
    the finished graph: its name tuples are the tuple it stands in, which was still empty
    when the code was validated. */
module PycCircular {
  import opened Counting
  import opened Words
  import opened PycRecords
  import opened PycReading
  import opened PycMeaning

  // ---------------------------------------------------------------- lists of records

  lemma {:induction false} InTwo(s: State, a: seq<Record>, b: seq<Record>)
    ensures AfterAll(s, a + b) == AfterAll(AfterAll(s, a), b)
    ensures Values(s, a + b) == Values(s, a) + Values(AfterAll(s, a), b)
    decreases |b|
  {
    hide After, Value, AfterAll, Values;
    if b == [] {
      assert a + b == a;
      NoneRead(AfterAll(s, a));
    } else {
      var most, last := b[..|b| - 1], b[|b| - 1];
      InTwo(s, a, most);
      OneMore(s, a + most, last);
      OneMore(AfterAll(s, a), most, last);
      assert a + b == a + most + [last] && b == most + [last];
    }
  }

  lemma NoneRead(s: State)
    ensures AfterAll(s, []) == s && Values(s, []) == []
  {}

  predicate AllReferences(s: State, ts: seq<Record>) {
    forall i | 0 <= i < |ts| :: ts[i].Reference? && 0 <= ts[i].index < |s.references|
  }

  /** References add nothing but to the count of objects. */
  lemma {:induction false} OnlyReferences(s: State, ts: seq<Record>)
    requires AllReferences(s, ts)
    ensures AfterAll(s, ts) == Spend(Skip(s, 5 * |ts|), Usage(|ts|, 0, 0, 0))
    ensures forall i | 0 <= i < |ts| :: Values(s, ts)[i] == s.references[ts[i].index]
  {
    if ts != [] {
      var n := |ts| - 1;
      OnlyReferences(s, ts[..n]);
      ReferenceRead(AfterAll(s, ts[..n]), ts[n].index);
    }
  }

  lemma ReferencesSound(c: Config, s: State, ts: seq<Record>, depth: int)
    requires AllReferences(s, ts) && depth <= c.maxDepth
    ensures AllSound(c, s, ts, depth)
  {
    forall i | 0 <= i < |ts| ensures Sound(c, AfterAll(s, ts[..i]), ts[i], depth) {
      OnlyReferences(s, ts[..i]);
    }
  }

  lemma SoundInTwo(c: Config, s: State, a: seq<Record>, b: seq<Record>, depth: int)
    requires AllSound(c, s, a, depth) && AllSound(c, AfterAll(s, a), b, depth)
    ensures AllSound(c, s, a + b, depth)
  {
    hide AfterAll, Sound;
    var all := a + b;
    forall i | 0 <= i < |all| ensures Sound(c, AfterAll(s, all[..i]), all[i], depth) {
      if i < |a| {
        assert all[..i] == a[..i];
      } else {
        assert all[..i] == a + b[..i - |a|];
        InTwo(s, a, b[..i - |a|]);
      }
    }
  }

  const NONE := Numbers(0, 0, 0, 0, 0, 0)
  const BYTES := Leaf(true, 's', Long([]))
  const LETTER := Leaf(true, 'z', Short(['m' as int]))
  const TUPLE := Container(true, ')', [])

  predicate Refer(ts: seq<Record>, indices: seq<int>) {
    |ts| == |indices| && forall i | 0 <= i < |ts| :: ts[i] == Reference(indices[i])
  }

  /** A code object whose four name tuples are the object flagged second. */
  predicate IsInner(t: Record) {
    && t.Code? && !t.flag && t.numbers == NONE && t.firstLine == 0 && t.lineTable == Reference(0)
    && Refer(t.fields, [0, 1, 1, 1, 1, 1, 2, 2])
  }

  /** That object: the tuple in which the code object stands. */
  predicate IsConstants(t: Record) {
    t.Container? && t.flag && t.kind == '(' && |t.items| == 2 && t.items[0] == LETTER && IsInner(t.items[1])
  }

  /** A module with that tuple as its constants. */
  predicate IsCircular(t: Record) {
    && t.Code? && !t.flag && t.numbers == NONE && t.firstLine == 0 && t.lineTable == Reference(0)
    && |t.fields| == 8 && t.fields[0] == BYTES && IsConstants(t.fields[1]) && t.fields[2] == TUPLE
    && Refer(t.fields[3..], [3, 3, 3, 2, 2])
  }

  const INNER := Code(false, NONE,
    [Reference(0), Reference(1), Reference(1), Reference(1), Reference(1), Reference(1), Reference(2), Reference(2)],
    0, Reference(0))

  const CIRCULAR := Code(false, NONE,
    [BYTES, Container(true, '(', [LETTER, INNER]), TUPLE,
     Reference(3), Reference(3), Reference(3), Reference(2), Reference(2)], 0, Reference(0))

  lemma CircularIsOne()
    ensures IsCircular(CIRCULAR)
  {
    assert IsInner(INNER);
    assert CIRCULAR.fields[3..] == [Reference(3), Reference(3), Reference(3), Reference(2), Reference(2)];
  }

  lemma InnerShaped(t: Record)
    requires IsInner(t)
    ensures Shaped(t)
  {
    assert AllShaped(t.fields);
  }

  lemma CircularShaped(t: Record)
    requires IsCircular(t)
    ensures Shaped(t)
  {
    var k := t.fields[1];
    InnerShaped(k.items[1]);
    assert Shaped(BYTES) && Shaped(LETTER) && Shaped(TUPLE);
    assert AllShaped(k.items) && Shaped(k);
    forall i | 0 <= i < 8 ensures Shaped(t.fields[i]) {
      if i >= 3 { assert t.fields[i] == t.fields[3..][i - 3]; }
    }
  }

  /** Depth, items and budgets leave room for this payload. */
  predicate Room(c: Config) {
    && c.maxDepth >= 4 && c.maxItems >= 2 && c.maxObjects >= 21 && c.maxCodes >= 2 && c.maxScalar >= 1
  }

  /** At most so many objects and code objects have been read, and so many bytes of text. */
  predicate Counts(u: Usage, objects: int, codes: int, scalar: int) {
    AtMost(u, Usage(objects, codes, scalar, 0))
  }

  predicate Unused(s: State) { Counts(s.used, 0, 0, 0) && s.references == [] && s.heap == [] }

  predicate Spent(a: Usage, b: Usage, objects: int, codes: int, scalar: int) {
    AtMost(b, Plus(a, Usage(objects, codes, scalar, 0)))
  }

  /** A code object that consists of references. */
  lemma ReferringCode(c: Config, s: State, t: Record, depth: int)
    requires t.Code? && !t.flag && |t.fields| == 8 && depth < c.maxDepth
    requires AllReferences(s, t.fields) && AllReferences(s, [t.lineTable])
    ensures Spent(s.used, CodeRead(s, t).used, 10, 1, 0) && CodeRead(s, t).references == s.references
    ensures CodeRead(s, t).heap == s.heap + [Blank('c')]
    ensures Sound(c, s, t, depth) <==> CodeOk(s.heap + [Blank('c')], CodeOf(s, t), c)
  {
    hide CodeOk, CodeOf, AllSound, AllReferences, Sound;
    var o := Opened(s, 'c', false);
    OpenedRefers(s, t);
    hide Opened;
    OnlyReferences(o, t.fields);
    var f := Skip(AfterAll(o, t.fields), 4);
    ReferenceRead(f, t.lineTable.index);
    CodeSound(c, s, t, depth);
    ReferencesSound(c, o, t.fields, depth + 1);
    ReferenceSound(c, f, t.lineTable.index, depth + 1);
  }

  lemma OpenedRefers(s: State, t: Record)
    requires t.Code? && AllReferences(s, t.fields) && AllReferences(s, [t.lineTable])
    ensures var o := Opened(s, 'c', false);
      && AllReferences(o, t.fields) && t.lineTable.Reference? && 0 <= t.lineTable.index < |o.references|
      && o.references == s.references && o.heap == s.heap + [Blank('c')]
      && o.used == Plus(Plus(s.used, ONE_OBJECT), ONE_CODE)
  {
    assert t.lineTable == [t.lineTable][0];
  }

  lemma ReferringFields(s: State, t: Record)
    requires t.Code? && !t.flag && |t.fields| == 8
    requires AllReferences(s, t.fields) && AllReferences(s, [t.lineTable])
    ensures |CodeOf(s, t).fields| == 9 && CodeOf(s, t).numbers == t.numbers
    ensures forall i | 0 <= i < 8 :: CodeOf(s, t).fields[i] == s.references[t.fields[i].index]
    ensures t.lineTable.Reference? && 0 <= t.lineTable.index < |s.references|
    ensures CodeOf(s, t).fields[8] == s.references[t.lineTable.index]
  {
    hide AfterAll, Values;
    OpenedRefers(s, t);
    OnlyReferences(Opened(s, 'c', false), t.fields);
  }

  /** A text or bytes string. */
  lemma ReadText(c: Config, s: State, k: char, content: Content, depth: int)
    requires content.Short? || content.Long?
    ensures var r := After(s, Leaf(true, k, content));
      && Spent(s.used, r.used, 1, 0, |content.bytes|) && r.references == s.references + [|s.heap|]
      && r.heap == s.heap + [Object(k, TextOf(k, content), TextOffset(k, content, s.position + 1), [], None)]
    ensures depth <= c.maxDepth ==> Sound(c, s, Leaf(true, k, content), depth)
  {
    hide ContentBytes, TextOf, TextOffset;
    LeafFilled(s, true, k, content);
    var o := Finished(s, Leaf(true, k, content));
    assert (s.heap + [Blank(k)])[|s.heap| := o] == s.heap + [o];
  }

  lemma Letter(heap: seq<Object>, id: Id)
    requires id < |heap| && heap[id].kind == 'z' && heap[id].bytes == ['m' as int]
    ensures NameObject(heap, id)
  {
    assert Utf8(heap[id].bytes[1..]);
  }

  /** The inner code object is validated while the tuple is still blank. */
  lemma InnerOk(c: Config, heap: seq<Object>, code: CodeObject)
    requires code.fields == [1, 2, 2, 2, 2, 2, 3, 3, 1] && code.numbers == NONE
    requires |heap| >= 4 && heap[1].kind == 's' && heap[2] == Blank('(')
    requires heap[3].kind == 'z' && heap[3].bytes == ['m' as int]
    ensures CodeOk(heap, code, c)
  {
    Letter(heap, 3);
  }

  lemma OuterOk(c: Config, heap: seq<Object>, code: CodeObject)
    requires code.fields == [1, 2, 5, 5, 5, 5, 3, 3, 1] && code.numbers == NONE
    requires |heap| >= 6 && heap[1].kind == 's' && heap[2].kind == '('
    requires heap[3].kind == 'z' && heap[3].bytes == ['m' as int]
    requires heap[5] == Blank(')')
    ensures CodeOk(heap, code, c)
  {
    Letter(heap, 3);
  }

  /** What reading the inner code object leaves behind. */
  ghost predicate InnerLeft(s: State, r: State) {
    && Spent(s.used, r.used, 10, 1, 0) && r.references == s.references && |r.heap| == 5
    && r.heap[..4] == s.heap && r.heap[4].kind == 'c' && r.heap[4].code.Some?
    && r.heap[4].code.value.fields == [1, 2, 2, 2, 2, 2, 3, 3, 1]
  }

  lemma InnerRead(c: Config, s: State, t: Record, depth: int)
    requires IsInner(t) && s.references == [1, 2, 3] && |s.heap| == 4 && depth < c.maxDepth
    requires s.heap[1].kind == 's' && s.heap[1].bytes == [] && s.heap[2] == Blank('(')
    requires s.heap[3].kind == 'z' && s.heap[3].bytes == ['m' as int]
    ensures Sound(c, s, t, depth) && InnerLeft(s, After(s, t))
  {
    hide CodeOk, After, Sound, CodeOf;
    ReferringCode(c, s, t, depth);
    ReferringFields(s, t);
    var code := CodeOf(s, t);
    assert code.fields == [1, 2, 2, 2, 2, 2, 3, 3, 1];
    InnerOk(c, s.heap + [Blank('c')], code);
    CodeUses(s, t);
    CodePlaced(s, t);
  }

  /** What reading the tuple with the letter and the inner code object leaves behind. */
  ghost predicate ConstantsLeft(s: State, r: State) {
    && Spent(s.used, r.used, 12, 1, 1) && r.references == [1, 2, 3] && |r.heap| == 5
    && r.heap[..2] == s.heap && r.heap[2] == Object('(', [], 0, [3, 4], None)
    && r.heap[3].kind == 'z' && r.heap[3].bytes == ['m' as int]
    && r.heap[4].kind == 'c' && r.heap[4].code.Some?
    && r.heap[4].code.value.fields == [1, 2, 2, 2, 2, 2, 3, 3, 1]
  }

  lemma InnerIsCode(t: Record)
    requires IsInner(t)
    ensures t.Code?
  {}

  lemma ConstantsRead(c: Config, s: State, t: Record, depth: int)
    requires |s.heap| == 2 && s.references == [1] && s.heap[1].kind == 's' && s.heap[1].bytes == []
    requires IsConstants(t) && depth + 2 <= c.maxDepth && c.maxItems >= 2
    ensures Sound(c, s, t, depth) && ConstantsLeft(s, After(s, t))
  {
    hide After, Sound, AllSound, AfterAll, Values, IsInner;
    var o := Opened(s, '(', true);
    ReadText(c, o, 'z', Short(['m' as int]), depth + 1);
    var m := After(o, t.items[0]);
    assert m.references == [1, 2, 3];
    InnerRead(c, m, t.items[1], depth + 1);
    assert t.items[1].Code? by { InnerIsCode(t.items[1]); }
    TwoRead(c, o, t.items[0], t.items[1], depth + 1);
    assert t.items == [t.items[0], t.items[1]];
    ContainerSound(c, s, true, '(', t.items, depth);
  }

  lemma ContainerSound(c: Config, s: State, flag: bool, k: char, items: seq<Record>, depth: int)
    requires depth <= c.maxDepth && |items| <= c.maxItems && AllSound(c, Opened(s, k, flag), items, depth + 1)
    ensures Sound(c, s, Container(flag, k, items), depth)
    ensures var r, a := After(s, Container(flag, k, items)), AfterAll(Opened(s, k, flag), items);
      && r.used == a.used && r.references == a.references && |s.heap| < |a.heap|
      && r.heap == a.heap[|s.heap| := Object(k, [], 0, Values(Opened(s, k, flag), items), None)]
  {
    hide AllSound, AfterAll, Values;
    ContainerFilled(s, flag, k, items);
  }

  lemma TwoRead(c: Config, s: State, a: Record, b: Record, depth: int)
    requires Sound(c, s, a, depth) && Sound(c, After(s, a), b, depth)
    ensures AfterAll(s, [a, b]) == After(After(s, a), b) && AllSound(c, s, [a, b], depth)
    ensures Values(s, [a, b]) == [Value(s, a), Value(After(s, a), b)]
  {
    hide Sound, After, Value;
    assert [a, b][..1] == [a] && [a][..0] == [];
    assert AfterAll(s, [a]) == After(s, a);
    forall i | 0 <= i < 2 ensures Sound(c, AfterAll(s, [a, b][..i]), [a, b][i], depth) {}
  }

  lemma TupleRead(c: Config, s: State, depth: int)
    requires depth <= c.maxDepth
    ensures Sound(c, s, TUPLE, depth)
    ensures var r := After(s, TUPLE);
      && Spent(s.used, r.used, 1, 0, 0) && r.references == s.references + [|s.heap|]
      && r.heap == s.heap + [Blank(')')]
  {
    ContainerSound(c, s, true, ')', [], depth);
    NoneRead(Opened(s, ')', true));
    assert (s.heap + [Blank(')')])[|s.heap| := Blank(')')] == s.heap + [Blank(')')];
  }

  lemma ThreeRead(c: Config, s: State, x: Record, y: Record, z: Record, depth: int)
    requires Sound(c, s, x, depth) && Sound(c, After(s, x), y, depth) && Sound(c, After(After(s, x), y), z, depth)
    ensures AfterAll(s, [x, y, z]) == After(After(After(s, x), y), z) && AllSound(c, s, [x, y, z], depth)
    ensures Values(s, [x, y, z]) == [Value(s, x), Value(After(s, x), y), Value(After(After(s, x), y), z)]
  {
    hide Sound, After, Value, AfterAll, AllSound, Values;
    TwoRead(c, s, x, y, depth);
    OneMore(s, [x, y], z);
    OneMoreSound(c, s, [x, y], z, depth);
    assert [x, y] + [z] == [x, y, z];
  }

  /** The heap and the references when the outer code object has its first three fields. */
  ghost predicate OuterLeft(r: State) {
    && r.references == [1, 2, 3, 5] && |r.heap| == 6
    && r.heap[0] == Blank('c') && r.heap[1].kind == 's' && r.heap[1].bytes == []
    && r.heap[2] == Object('(', [], 0, [3, 4], None)
    && r.heap[3].kind == 'z' && r.heap[3].bytes == ['m' as int]
    && r.heap[4].kind == 'c' && r.heap[4].code.Some?
    && r.heap[4].code.value.fields == [1, 2, 2, 2, 2, 2, 3, 3, 1] && r.heap[5] == Blank(')')
  }

  lemma OuterRead(c: Config, o: State, b: Record, k: Record, e: Record)
    requires Room(c) && Counts(o.used, 1, 1, 0) && o.references == [] && o.heap == [Blank('c')]
    requires b == BYTES && IsConstants(k) && e == TUPLE
    ensures Sound(c, o, b, 2) && Sound(c, After(o, b), k, 2) && Sound(c, After(After(o, b), k), e, 2)
    ensures OuterLeft(After(After(After(o, b), k), e)) && Counts(After(After(After(o, b), k), e).used, 15, 2, 1)
    ensures Value(o, b) == 1 && Value(After(o, b), k) == 2 && Value(After(After(o, b), k), e) == 5
  {
    hide After, Sound, IsConstants;
    ReadText(c, o, 's', Long([]), 2);
    var x := After(o, b);
    assert x.references == [1];
    ConstantsRead(c, x, k, 2);
    assert k.Container? by { ConstantsIs(k); }
    var y := After(x, k);
    TupleRead(c, y, 2);
    var z := After(y, e);
    assert z.references == [1, 2, 3, 5] && |z.heap| == 6;
    assert z.heap[0] == Blank('c') && z.heap[1] == x.heap[1] && z.heap[2] == y.heap[2];
    assert z.heap[3] == y.heap[3] && z.heap[4] == y.heap[4] && z.heap[5] == Blank(')');
  }

  lemma ConstantsIs(k: Record)
    requires IsConstants(k)
    ensures k.Container?
  {}

  lemma NamesRead(c: Config, s: State, names: seq<Record>)
    requires c.maxDepth >= 2 && OuterLeft(s) && Counts(s.used, 15, 2, 1) && Refer(names, [3, 3, 3, 2, 2])
    ensures OuterLeft(AfterAll(s, names)) && Counts(AfterAll(s, names).used, 20, 2, 1) && AllSound(c, s, names, 2)
    ensures Values(s, names) == [5, 5, 5, 3, 3]
  {
    hide After, AfterAll, Sound, AllSound, Values;
    OnlyReferences(s, names);
    ReferencesSound(c, s, names, 2);
  }

  lemma FieldsRead(c: Config, o: State, ts: seq<Record>)
    requires Room(c) && Counts(o.used, 1, 1, 0) && o.references == [] && o.heap == [Blank('c')]
    requires |ts| == 8 && ts[0] == BYTES && IsConstants(ts[1]) && ts[2] == TUPLE && Refer(ts[3..], [3, 3, 3, 2, 2])
    ensures OuterLeft(AfterAll(o, ts)) && Counts(AfterAll(o, ts).used, 20, 2, 1) && AllSound(c, o, ts, 2)
    ensures Values(o, ts) == [1, 2, 5, 5, 5, 5, 3, 3]
  {
    hide After, AfterAll, Sound, AllSound, Values, Value, IsConstants, OuterLeft, Refer;
    var three, names := ts[..3], ts[3..];
    OuterRead(c, o, ts[0], ts[1], ts[2]);
    ThreeRead(c, o, ts[0], ts[1], ts[2], 2);
    assert three == [ts[0], ts[1], ts[2]] && ts == three + names;
    NamesRead(c, AfterAll(o, three), names);
    InTwo(o, three, names);
    SoundInTwo(c, o, three, names, 2);
  }

  /** The outer code object's last field is a reference. */
  lemma TableRead(c: Config, f: State, table: Record)
    requires c.maxDepth >= 2 && table == Reference(0) && OuterLeft(f) && Counts(f.used, 20, 2, 1)
    ensures Sound(c, Skip(f, 4), table, 2) && Value(Skip(f, 4), table) == 1
    ensures OuterLeft(After(Skip(f, 4), table)) && Counts(After(Skip(f, 4), table).used, 21, 2, 1)
  {
    hide Sound, After, Value;
    ReferenceRead(Skip(f, 4), 0);
    ReferenceSound(c, Skip(f, 4), 0, 2);
  }

  lemma CircularRead(c: Config, s: State, t: Record)
    requires Room(c) && IsCircular(t) && Unused(s)
    ensures CodeOf(s, t).fields == [1, 2, 5, 5, 5, 5, 3, 3, 1]
    ensures Sound(c, s, t, 1)
    ensures OuterLeft(CodeRead(s, t)) && Counts(CodeRead(s, t).used, 21, 2, 1)
  {
    hide After, AfterAll, Sound, AllSound, Values, Value, CodeOk, CodeOf, IsConstants, OuterLeft, Refer;
    var o := Opened(s, 'c', false);
    FieldsRead(c, o, t.fields);
    var f := AfterAll(o, t.fields);
    TableRead(c, f, t.lineTable);
    CodeIs(s, t);
    OuterCodeOk(c, CodeRead(s, t), CodeOf(s, t));
    CodeSound(c, s, t, 1);
  }

  lemma CodeIs(s: State, t: Record)
    requires t.Code?
    ensures var o := Opened(s, 'c', t.flag);
      CodeOf(s, t) == CodeObject(t.numbers,
        Values(o, t.fields) + [Value(Skip(AfterAll(o, t.fields), 4), t.lineTable)], t.firstLine)
  {}

  lemma OuterCodeOk(c: Config, r: State, code: CodeObject)
    requires OuterLeft(r) && Counts(r.used, 21, 2, 1) && code.fields == [1, 2, 5, 5, 5, 5, 3, 3, 1] && code.numbers == NONE
    ensures CodeOk(r.heap, code, c)
  {
    hide CodeOk;
    OuterOk(c, r.heap, code);
  }

  /** The graph of the payload. */
  lemma CircularGraph(c: Config, s: State, t: Record)
    requires Room(c) && t.Code? && Unused(s) && OuterLeft(CodeRead(s, t)) && Counts(CodeRead(s, t).used, 21, 2, 1)
    requires CodeOf(s, t).fields == [1, 2, 5, 5, 5, 5, 3, 3, 1]
    ensures Within(After(s, t).used, c) && GraphIs(After(s, t).heap)
  {
    hide After, CodeOf, CodeRead;
    CodeUses(s, t);
    CodePlaced(s, t);
  }

  predicate GraphIs(g: seq<Object>) {
    && |g| == 6 && g[2] == Object('(', [], 0, [3, 4], None) && g[4].kind == 'c' && g[4].code.Some?
    && g[4].code.value.fields == [1, 2, 2, 2, 2, 2, 3, 3, 1]
  }

  /** Such a payload is accepted, and its inner code object fails its validation in the end. */
  lemma AcceptedAndInvalid(header: Bytes, c: Config, t: Record)
    requires Room(c) && IsCircular(t)
    ensures IsMarshal(header + Encode(t), |header|, c, t)
    ensures GraphIs(After(Start(|header|), t).heap)
    ensures var g := After(Start(|header|), t).heap; !CodeOk(g, g[4].code.value, c)
  {
    hide Encode, After, Sound, CodeOk, CodeOf, CodeRead, Shaped, IsConstants, Refer, OuterLeft;
    var s := Start(|header|);
    CircularRead(c, s, t);
    CircularGraph(c, s, t);
    CircularShaped(t);
    assert (header + Encode(t))[|header|..] == Encode(t);
    Invalid(After(s, t).heap, c);
  }

  /** The exhibited payload: accepted, and object 4 of its graph is a code object that fails. */
  lemma CircularAccepted(header: Bytes, c: Config)
    requires Room(c)
    ensures IsMarshal(header + Encode(CIRCULAR), |header|, c, CIRCULAR)
    ensures var g := After(Start(|header|), CIRCULAR).heap;
      GraphIs(g) && !CodeOk(g, g[4].code.value, c)
  {
    CircularIsOne();
    AcceptedAndInvalid(header, c, CIRCULAR);
  }

  lemma ReferenceSound(c: Config, s: State, i: int, depth: int)
    requires 0 <= i < |s.references| && depth <= c.maxDepth
    ensures Sound(c, s, Reference(i), depth)
  {}

  lemma Invalid(g: seq<Object>, c: Config)
    requires |g| >= 5 && g[2] == Object('(', [], 0, [3, 4], None) && g[4].kind == 'c'
    requires g[4].code.Some? && |g[4].code.value.fields| == 9 && g[4].code.value.fields[2] == 2
    ensures !CodeOk(g, g[4].code.value, c)
  {
    hide NameBytes;
    assert g[2].items[1] == 4;
    assert !NameObject(g, 4);
    assert !StringTuple(g, 2) by { assert !NameObject(g, g[2].items[1]); }
  }
}
