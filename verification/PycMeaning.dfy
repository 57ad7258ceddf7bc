/** What an accepted payload means: it has one reading, and its code objects meet their
    validation in the finished graph, except where a name tuple encloses its own code. */
module PycMeaning {
  import opened Counting
  import opened Words
  import opened PycRecords
  import opened PycGraph
  import opened PycReading

  // ---------------------------------------------------------------- one reading

  /** No byte string begins with two different records. */
  lemma {:induction false} OneReading(payload: Bytes, p: nat, a: Record, b: Record)
    requires Shaped(a) && Shaped(b)
    requires Encode(a) <= RestAt(payload, p) && Encode(b) <= RestAt(payload, p)
    ensures a == b
    decreases a, 1
  {
    hide Encode, EncodeAll, RestAt, KindByte, Writable, ContentBytes, CountBytes, SignedBytes, IntBytes;
    SameKind(payload, p, a, b);
    match a
    case Reference(i) =>
      SignedNext(i, RestAt(payload, p + 1));
      SignedNext(b.index, RestAt(payload, p + 1));
    case Leaf(_, k, content) => OneContent(k, content, b.content, RestAt(payload, p + 1));
    case Container(_, k, items) =>
      HeaderFirst(payload, At(p), a, CountBytes(k, |items|), EncodeAll(items));
      HeaderFirst(payload, At(p), b, CountBytes(k, |b.items|), EncodeAll(b.items));
      CountTells(k, |items|, RestAt(payload, p + 1));
      CountTells(k, |b.items|, RestAt(payload, p + 1));
      SameItems(payload, p + 1 + |CountBytes(k, |items|)|, items, b.items, |items|);
    case Dictionary(_, items) =>
      HeaderFirst(payload, At(p), a, EncodeAll(items), ['0' as int]);
      HeaderFirst(payload, At(p), b, EncodeAll(b.items), ['0' as int]);
      SameLength(payload, p + 1, items, b.items);
      SameItems(payload, p + 1, items, b.items, |items|);
    case Code(_, _, _, _, _) => OneCode(payload, p, a, b);
  }

  lemma {:induction false} OneCode(payload: Bytes, p: nat, a: Record, b: Record)
    requires a.Code? && b.Code? && a.flag == b.flag && Shaped(a) && Shaped(b)
    requires Body(a) <= RestAt(payload, p + 1) && Body(b) <= RestAt(payload, p + 1)
    ensures a == b
    decreases a, 0
  {
    hide Encode, EncodeAll, RestAt, SignedBytes, IntBytes, NumberList, NumbersShaped, Body;
    CodeBytes(payload, At(p), a);
    CodeBytes(payload, At(p), b);
    SameNumbers(payload, p + 1, a.numbers, b.numbers);
    SameItems(payload, p + 25, a.fields, b.fields, 8);
    assert a.fields == a.fields[..8] == b.fields[..8] == b.fields;
    var q := p + 25 + |EncodeAll(a.fields)|;
    SignedNext(a.firstLine, RestAt(payload, q));
    SignedNext(b.firstLine, RestAt(payload, q));
    OneReading(payload, q + 4, a.lineTable, b.lineTable);
  }

  function At(p: nat): State { State(p, Usage(0, 0, 0, 0), [], []) }

  lemma SameKind(payload: Bytes, p: nat, a: Record, b: Record)
    requires Shaped(a) && Shaped(b)
    requires Encode(a) <= RestAt(payload, p) && Encode(b) <= RestAt(payload, p)
    ensures KindOf(a) == KindOf(b) && FlagOf(a) == FlagOf(b)
    ensures Body(a) <= RestAt(payload, p + 1) && Body(b) <= RestAt(payload, p + 1)
    ensures a.Reference? == b.Reference? && a.Leaf? == b.Leaf? && a.Container? == b.Container?
    ensures a.Dictionary? == b.Dictionary? && a.Code? == b.Code?
    ensures a.Container? ==> IsContainer(a.kind) || a.kind == ')'
  {
    hide Body, KindByte, Encode, RestAt, Shaped;
    Begins(payload, At(p), a);
    Begins(payload, At(p), b);
    KindTells(a);
    KindTells(b);
    assert KindByte(KindOf(a), FlagOf(a)) == RestAt(payload, p)[0] == KindByte(KindOf(b), FlagOf(b));
  }

  lemma OneContent(k: char, a: Content, b: Content, rest: Bytes)
    requires Writable(k, a) && Writable(k, b) && ContentBytes(a) <= rest && ContentBytes(b) <= rest
    ensures a == b
  {
    hide Writable, ContentBytes;
    ContentTells(k, a, rest);
    ContentTells(k, b, rest);
  }

  lemma SameNumbers(payload: Bytes, p: nat, a: Numbers, b: Numbers)
    requires NumbersShaped(a) && NumbersShaped(b)
    requires IntBytes(NumberList(a)) <= RestAt(payload, p) && IntBytes(NumberList(b)) <= RestAt(payload, p)
    ensures a == b
  {
    hide IntBytes, RestAt;
    var x, y := NumberList(a), NumberList(b);
    forall i | 0 <= i < 6 ensures x[i] == y[i] {
      NumberTells(payload, p, x, i);
      NumberTells(payload, p, y, i);
    }
    assert x == y;
    assert x[0] == y[0] && x[1] == y[1] && x[2] == y[2] && x[3] == y[3] && x[4] == y[4] && x[5] == y[5];
  }

  /** The bytes of a list of records, taken apart. */
  lemma {:induction false} ItemBytes(payload: Bytes, p: nat, ts: seq<Record>, n: nat)
    requires n < |ts| && EncodeAll(ts) <= RestAt(payload, p)
    ensures EncodeAll(ts[..n]) <= RestAt(payload, p)
    ensures Encode(ts[n]) <= RestAt(payload, p + |EncodeAll(ts[..n])|)
    decreases |ts|
  {
    hide Encode, RestAt;
    var most := ts[..|ts| - 1];
    Joined(payload, p, EncodeAll(most), Encode(ts[|ts| - 1]));
    if n < |ts| - 1 {
      ItemBytes(payload, p, most, n);
      assert most[..n] == ts[..n];
    }
  }

  lemma {:induction false} SameItems(payload: Bytes, p: nat, a: seq<Record>, b: seq<Record>, n: nat)
    requires AllShaped(a) && AllShaped(b) && n <= |a| && n <= |b|
    requires EncodeAll(a) <= RestAt(payload, p) && EncodeAll(b) <= RestAt(payload, p)
    ensures a[..n] == b[..n]
    decreases a, 0, n
  {
    hide Encode, EncodeAll, RestAt, Shaped;
    if n > 0 {
      SameItems(payload, p, a, b, n - 1);
      ItemBytes(payload, p, a, n - 1);
      ItemBytes(payload, p, b, n - 1);
      OneReading(payload, p + |EncodeAll(a[..n - 1])|, a[n - 1], b[n - 1]);
      assert a[..n] == a[..n - 1] + [a[n - 1]] && b[..n] == b[..n - 1] + [b[n - 1]];
    }
  }

  /** The null record that ends one of two dictionaries ends the other. */
  lemma {:induction false} SameLength(payload: Bytes, p: nat, a: seq<Record>, b: seq<Record>)
    requires AllShaped(a) && AllShaped(b) && NULL_RECORD !in a && NULL_RECORD !in b
    requires EncodeAll(a) <= RestAt(payload, p) && EncodeAll(b) <= RestAt(payload, p)
    requires ['0' as int] <= RestAt(payload, p + |EncodeAll(a)|)
    requires ['0' as int] <= RestAt(payload, p + |EncodeAll(b)|)
    ensures |a| == |b|
    decreases a, 2
  {
    hide Encode, EncodeAll, RestAt, Shaped;
    if |a| < |b| {
      SameItems(payload, p, a, b, |a|);
      assert a[..|a|] == a;
      NoNullNext(payload, p, b, |a|);
    }
    if |b| < |a| {
      SameItems(payload, p, a, b, |b|);
      assert b[..|b|] == b;
      NoNullNext(payload, p, a, |b|);
    }
  }

  lemma NoNullNext(payload: Bytes, p: nat, ts: seq<Record>, n: nat)
    requires AllShaped(ts) && n < |ts| && NULL_RECORD !in ts && EncodeAll(ts) <= RestAt(payload, p)
    ensures !(['0' as int] <= RestAt(payload, p + |EncodeAll(ts[..n])|))
  {
    hide Encode, EncodeAll, RestAt, Shaped, KindByte;
    ItemBytes(payload, p, ts, n);
    var q := p + |EncodeAll(ts[..n])|;
    Begins(payload, At(q), ts[n]);
    KindTells(ts[n]);
    assert RestAt(payload, q)[0] == KindByte(KindOf(ts[n]), FlagOf(ts[n]));
    NullByte(ts[n]);
  }

  lemma NullByte(t: Record)
    requires Shaped(t) && t != NULL_RECORD
    ensures KindByte(KindOf(t), FlagOf(t)) != '0' as int
  {
    hide Shaped;
    KindTells(t);
  }

  // ---------------------------------------------------------------- enclosing objects

  /** Object `k` was read while object `j` was: a path of ever later objects leads from `j`
      to `k`. */
  ghost predicate Encloses(heap: seq<Object>, j: Id, k: Id)
    decreases k - j
  {
    && j < k && j < |heap|
    && exists i | i in Below(heap[j]) :: j < i <= k && (i == k || Encloses(heap, i, k))
  }

  /** Filling in blank objects, and adding some, breaks no path. */
  lemma {:induction false} EnclosesStill(a: seq<Object>, b: seq<Object>, j: Id, k: Id)
    requires Encloses(a, j, k) && |a| <= |b|
    requires forall x | j <= x < |a| :: a[x] == b[x] || Below(a[x]) == []
    ensures Encloses(b, j, k)
    decreases k - j
  {
    var i :| i in Below(a[j]) && j < i <= k && (i == k || Encloses(a, i, k));
    if i != k { EnclosesStill(a, b, i, k); }
  }

  /** One of the objects is `k`, or encloses it. */
  ghost predicate Reached(heap: seq<Object>, ids: seq<Id>, low: nat, k: Id) {
    exists v | v in ids :: low <= v <= k && (v == k || Encloses(heap, v, k))
  }

  lemma ReachedStill(a: seq<Object>, b: seq<Object>, ids: seq<Id>, more: seq<Id>, low: nat, k: Id)
    requires Reached(a, ids, low, k) && |a| <= |b| && (forall v | v in ids :: v in more)
    requires forall x | low <= x < |a| :: a[x] == b[x] || Below(a[x]) == []
    ensures Reached(b, more, low, k)
  {
    var v :| v in ids && low <= v <= k && (v == k || Encloses(a, v, k));
    if v != k { EnclosesStill(a, b, v, k); }
  }

  ghost predicate AllReached(heap: seq<Object>, ids: seq<Id>, low: nat) {
    forall k | low <= k < |heap| :: heap[k].kind != '0' ==> Reached(heap, ids, low, k)
  }

  ghost predicate AllEnclosed(heap: seq<Object>, id: Id) {
    forall k | id < k < |heap| :: heap[k].kind != '0' ==> Encloses(heap, id, k)
  }

  /** What a finished object leads to, it encloses. */
  lemma FinishingEncloses(heap: seq<Object>, id: Id, o: Object, ids: seq<Id>)
    requires id < |heap| && AllReached(heap, ids, id + 1) && forall v | v in ids :: v in Below(o)
    ensures AllEnclosed(heap[id := o], id)
  {
    var after := heap[id := o];
    forall k | id < k < |after| && after[k].kind != '0' ensures Encloses(after, id, k) {
      ReachedStill(heap, after, ids, ids, id + 1, k);
      var v :| v in ids && id + 1 <= v <= k && (v == k || Encloses(after, v, k));
      assert v in Below(after[id]);
    }
  }

  /** A record encloses every object begun inside it, except null records. */
  lemma {:induction false} Nested(s: State, t: Record)
    requires !t.Reference?
    ensures |s.heap| < |After(s, t).heap| && AllEnclosed(After(s, t).heap, |s.heap|)
    decreases t, 1
  {
    hide AllEnclosed, AllReached, AfterAll, Values;
    FinishedKind(s, t);
    var o := Opened(s, KindOf(t), FlagOf(t));
    match t
    case Leaf(_, _, _) => NoneEnclosed(After(s, t).heap, |s.heap|);
    case Container(flag, k, items) =>
      NestedAll(o, items);
      FinishingEncloses(AfterAll(o, items).heap, |s.heap|, Finished(s, t), Values(o, items));
    case Dictionary(flag, items) =>
      NestedAll(o, items);
      NullReached(AfterAll(o, items), Values(o, items), |s.heap| + 1);
      FinishingEncloses(Filled(s, t).heap, |s.heap|, Finished(s, t), Values(o, items));
    case Code(_, _, _, _, _) => NestedCode(s, t);
  }

  lemma {:induction false} NestedCode(s: State, t: Record)
    requires t.Code?
    ensures |s.heap| < |After(s, t).heap| && AllEnclosed(After(s, t).heap, |s.heap|)
    decreases t, 0
  {
    hide AllEnclosed, AllReached, AfterAll, Values;
    FinishedKind(s, t);
    var o := Opened(s, 'c', t.flag);
    var f := Skip(AfterAll(o, t.fields), 4);
    NestedAll(o, t.fields);
    if !t.lineTable.Reference? { Nested(f, t.lineTable); }
    MoreReached(f, t.lineTable, Values(o, t.fields), |s.heap| + 1);
    FinishingEncloses(CodeRead(s, t).heap, |s.heap|, Finished(s, t), CodeOf(s, t).fields);
  }

  lemma {:induction false} NestedAll(s: State, ts: seq<Record>)
    ensures AllReached(AfterAll(s, ts).heap, Values(s, ts), |s.heap|)
    decreases ts, 0
  {
    hide AllEnclosed, AllReached, After;
    if ts == [] {
      NoneReached(s.heap, []);
    } else {
      var most, last := ts[..|ts| - 1], ts[|ts| - 1];
      NestedAll(s, most);
      if !last.Reference? { Nested(AfterAll(s, most), last); }
      MoreReached(AfterAll(s, most), last, Values(s, most), |s.heap|);
    }
  }

  lemma NoneReached(heap: seq<Object>, ids: seq<Id>)
    ensures AllReached(heap, ids, |heap|)
  {}

  lemma NoneEnclosed(heap: seq<Object>, id: Id)
    requires |heap| == id + 1
    ensures AllEnclosed(heap, id)
  {}

  lemma NullReached(s: State, ids: seq<Id>, low: nat)
    requires AllReached(s.heap, ids, low)
    ensures AllReached(Terminated(s).heap, ids, low)
  {
    var after := Terminated(s).heap;
    forall k | low <= k < |after| && after[k].kind != '0' ensures Reached(after, ids, low, k) {
      ReachedStill(s.heap, after, ids, ids, low, k);
    }
  }

  lemma MoreReached(s: State, t: Record, ids: seq<Id>, low: nat)
    requires AllReached(s.heap, ids, low) && low <= |s.heap|
    requires !t.Reference? ==> |s.heap| < |After(s, t).heap| && AllEnclosed(After(s, t).heap, |s.heap|)
    ensures AllReached(After(s, t).heap, ids + [Value(s, t)], low)
  {
    hide After;
    var after, more := After(s, t).heap, ids + [Value(s, t)];
    if t.Reference? { ReferenceHeap(s, t); }
    forall k | low <= k < |after| && after[k].kind != '0' ensures Reached(after, more, low, k) {
      if k < |s.heap| {
        ReachedStill(s.heap, after, ids, more, low, k);
      } else {
        var v := |s.heap|;
        assert more[|ids|] == v;
        assert v in more;
        assert k == v || Encloses(after, v, k);
      }
    }
  }

  lemma ReferenceHeap(s: State, t: Record)
    requires t.Reference?
    ensures After(s, t).heap == s.heap
  {}

  // ---------------------------------------------------------------- validated code

  /** Heap `h` as it was when code object `k` was validated, seen from heap `g`: only `k` and
      what encloses it was still blank. */
  ghost predicate Moment(h: seq<Object>, g: seq<Object>, k: Id) {
    && |h| <= |g|
    && forall j | 0 <= j < |h| :: h[j] == g[j] || (h[j] == Blank(g[j].kind) && (j == k || Encloses(g, j, k)))
  }

  ghost predicate Judged(g: seq<Object>, k: Id, c: Config)
    requires k < |g|
  {
    g[k].code.Some? ==> exists h :: Moment(h, g, k) && CodeOk(h, g[k].code.value, c)
  }

  /** Texts and bytes lead nowhere, and code objects are of their kind. */
  predicate Typed(o: Object) {
    (Below(o) != [] ==> !IsText(o.kind) && o.kind != 's') && (o.code.Some? ==> o.kind == 'c')
  }

  ghost predicate AllJudged(g: seq<Object>, c: Config) {
    forall k | 0 <= k < |g| :: Typed(g[k]) && Judged(g, k, c)
  }

  /** Later objects do not matter. */
  lemma JudgedStill(g: seq<Object>, after: seq<Object>, c: Config, k: Id)
    requires k < |g| && g <= after && Judged(g, k, c)
    ensures Judged(after, k, c)
  {
    hide CodeOk;
    if g[k].code.Some? {
      var h :| Moment(h, g, k) && CodeOk(h, g[k].code.value, c);
      forall j | 0 <= j < |h| && h[j] != after[j] && j != k ensures Encloses(after, j, k) {
        EnclosesStill(g, after, j, k);
      }
      assert Moment(h, after, k);
    }
  }

  /** Nor does finishing an object that encloses. */
  lemma JudgedInside(g: seq<Object>, id: Id, o: Object, c: Config, k: Id)
    requires id < k < |g| && g[id] == Blank(o.kind) && Judged(g, k, c) && Typed(g[k])
    requires AllEnclosed(g[id := o], id)
    ensures Judged(g[id := o], k, c)
  {
    hide CodeOk;
    var after := g[id := o];
    if g[k].code.Some? {
      var h :| Moment(h, g, k) && CodeOk(h, g[k].code.value, c);
      assert Encloses(after, id, k);
      forall j | 0 <= j < |h| && h[j] != after[j] && j != k
        ensures h[j] == Blank(after[j].kind) && Encloses(after, j, k)
      {
        if j != id { EnclosesStill(g, after, j, k); }
      }
      assert Moment(h, after, k);
    }
  }

  lemma Extended(s: State, r: State, c: Config, o: Object)
    requires AllJudged(s.heap, c) && r.heap == s.heap + [o] && Typed(o) && o.code.None?
    ensures AllJudged(r.heap, c)
  {
    forall k | 0 <= k < |r.heap| ensures Typed(r.heap[k]) && Judged(r.heap, k, c) {
      if k < |s.heap| { JudgedStill(s.heap, r.heap, c, k); }
    }
  }

  /** A container or dictionary is finished. */
  lemma FinishingJudges(s: State, g: seq<Object>, o: Object, c: Config)
    requires AllJudged(s.heap, c) && AllJudged(g, c) && s.heap + [Blank(o.kind)] <= g
    requires Typed(o) && AllEnclosed(g[|s.heap| := o], |s.heap|)
    requires Judged(g[|s.heap| := o], |s.heap|, c)
    ensures AllJudged(g[|s.heap| := o], c)
  {
    hide AllEnclosed, Typed, Judged;
    var id, after := |s.heap|, g[|s.heap| := o];
    forall k | 0 <= k < |after| ensures Typed(after[k]) && Judged(after, k, c) {
      if k < id {
        assert s.heap <= after;
        JudgedStill(s.heap, after, c, k);
      } else if k > id {
        JudgedInside(g, id, o, c, k);
      }
    }
  }

  lemma {:induction false} JudgedAfter(c: Config, s: State, t: Record, depth: int)
    requires Shaped(t) && Sound(c, s, t, depth) && AllJudged(s.heap, c)
    ensures AllJudged(After(s, t).heap, c)
    decreases t, 1
  {
    hide AllJudged, AllSound, AfterAll, Values, CodeOf, CodeOk, Writable, AllEnclosed;
    match t
    case Reference(_) => ReferenceHeap(s, t);
    case Leaf(_, _, _) => JudgedLeaf(c, s, t);
    case Container(flag, k, items) =>
      Extended(s, Opened(s, k, flag), c, Blank(k));
      JudgedAll(c, Opened(s, k, flag), items, depth + 1);
      Nested(s, t);
      NoCode(After(s, t).heap, |s.heap|, c);
      FinishingJudges(s, Filled(s, t).heap, Finished(s, t), c);
    case Dictionary(flag, items) =>
      Extended(s, Opened(s, '{', flag), c, Blank('{'));
      JudgedAll(c, Opened(s, '{', flag), items, depth + 1);
      Extended(AfterAll(Opened(s, '{', flag), items), Filled(s, t), c, Blank('0'));
      Nested(s, t);
      NoCode(After(s, t).heap, |s.heap|, c);
      FinishingJudges(s, Filled(s, t).heap, Finished(s, t), c);
    case Code(_, _, _, _, _) => JudgedCode(c, s, t, depth);
  }

  lemma NoCode(g: seq<Object>, k: Id, c: Config)
    requires k < |g| && g[k].code.None?
    ensures Judged(g, k, c)
  {}

  lemma JudgedLeaf(c: Config, s: State, t: Record)
    requires t.Leaf? && AllJudged(s.heap, c)
    ensures AllJudged(After(s, t).heap, c)
  {
    hide AllJudged, TextOf, TextOffset, ContentBytes, Charge;
    assert Filled(s, t).heap == s.heap + [Blank(t.kind)];
    assert (s.heap + [Blank(t.kind)])[|s.heap| := Finished(s, t)] == s.heap + [Finished(s, t)];
    Extended(s, After(s, t), c, Finished(s, t));
  }

  lemma {:induction false} JudgedCode(c: Config, s: State, t: Record, depth: int)
    requires t.Code? && Shaped(t) && Sound(c, s, t, depth) && AllJudged(s.heap, c)
    ensures AllJudged(After(s, t).heap, c)
    decreases t, 0
  {
    hide AllJudged, AllSound, AfterAll, Values, CodeOf, CodeOk, AllEnclosed, Judged, CodeRead, Sound, Shaped, After;
    var o := Opened(s, 'c', t.flag);
    CodeSound(c, s, t, depth);
    CodeShaped(t);
    Extended(s, o, c, Blank('c'));
    JudgedAll(c, o, t.fields, depth + 1);
    JudgedAfter(c, Skip(AfterAll(o, t.fields), 4), t.lineTable, depth + 1);
    CodePlaced(s, t);
    Nested(s, t);
    JudgedSelf(CodeRead(s, t).heap, |s.heap|, CodeOf(s, t), c);
    FinishingJudges(s, CodeRead(s, t).heap, Finished(s, t), c);
  }

  lemma CodeShaped(t: Record)
    requires t.Code? && Shaped(t)
    ensures AllShaped(t.fields) && Shaped(t.lineTable)
  {}

  lemma CodePlaced(s: State, t: Record)
    requires t.Code?
    ensures CodeRead(s, t) == After(Skip(AfterAll(Opened(s, 'c', t.flag), t.fields), 4), t.lineTable)
    ensures s.heap + [Blank('c')] <= CodeRead(s, t).heap
    ensures After(s, t).references == CodeRead(s, t).references
    ensures Finished(s, t) == Object('c', [], 0, [], Some(CodeOf(s, t)))
    ensures After(s, t).heap == CodeRead(s, t).heap[|s.heap| := Finished(s, t)]
  {
    hide CodeOf, AfterAll;
  }

  /** At its own validation a code object is the blank one. */
  lemma JudgedSelf(h: seq<Object>, k: Id, code: CodeObject, c: Config)
    requires k < |h| && h[k] == Blank('c') && CodeOk(h, code, c)
    ensures Judged(h[k := Object('c', [], 0, [], Some(code))], k, c)
  {
    hide CodeOk;
    assert Moment(h, h[k := Object('c', [], 0, [], Some(code))], k);
  }

  lemma {:induction false} JudgedAll(c: Config, s: State, ts: seq<Record>, depth: int)
    requires AllShaped(ts) && AllSound(c, s, ts, depth) && AllJudged(s.heap, c)
    ensures AllJudged(AfterAll(s, ts).heap, c)
    decreases ts, 0
  {
    hide AllJudged, After, Sound, Shaped;
    if ts != [] {
      var n := |ts| - 1;
      EarlierSound(c, s, ts, n, depth);
      JudgedAll(c, s, ts[..n], depth);
      JudgedAfter(c, AfterAll(s, ts[..n]), ts[n], depth);
    }
  }

  // ---------------------------------------------------------------- which code objects are valid in the end

  /** None of the four name tuples encloses the code object. */
  ghost predicate NamesApart(g: seq<Object>, k: Id)
    requires k < |g| && g[k].code.Some? && |g[k].code.value.fields| == 9
  {
    forall i | 2 <= i < 6 :: !Encloses(g, g[k].code.value.fields[i], k)
  }

  /** A code object that was validated when it was read meets the validation in the finished
      graph exactly when no name tuple of it encloses it. */
  lemma ValidInTheEnd(g: seq<Object>, k: Id, c: Config)
    requires k < |g| && g[k].code.Some? && AllJudged(g, c)
    ensures |g[k].code.value.fields| == 9
    ensures CodeOk(g, g[k].code.value, c) <==> NamesApart(g, k)
  {
    hide CodeOk;
    var code := g[k].code.value;
    assert Judged(g, k, c);
    var h :| Moment(h, g, k) && CodeOk(h, code, c);
    NineFields(h, code, c);
    if NamesApart(g, k) { StaysOk(h, g, k, code, c); }
    if CodeOk(g, code, c) {
      forall i | 2 <= i < 6 ensures !Encloses(g, code.fields[i], k) {
        NamesAreTuples(g, code, c, i);
        TupleOfNames(g, code.fields[i], k);
      }
    }
  }

  lemma NineFields(h: seq<Object>, code: CodeObject, c: Config)
    requires CodeOk(h, code, c)
    ensures |code.fields| == 9
  {}

  lemma NamesAreTuples(h: seq<Object>, code: CodeObject, c: Config, i: nat)
    requires CodeOk(h, code, c) && 2 <= i < 6
    ensures |code.fields| == 9 && StringTuple(h, code.fields[i])
  {}

  predicate AllTyped(g: seq<Object>) { forall j | 0 <= j < |g| :: Typed(g[j]) }

  /** A text is no code object, and encloses none. */
  lemma TextIsApart(g: seq<Object>, x: Id, k: Id)
    requires x < |g| && (IsText(g[x].kind) || g[x].kind == 's') && Typed(g[x])
    requires k < |g| && g[k].code.Some? && Typed(g[k])
    ensures x != k && !Encloses(g, x, k)
  {
    assert Below(g[x]) == [];
  }

  /** A tuple of names encloses no code. */
  lemma TupleOfNames(g: seq<Object>, f: Id, k: Id)
    requires StringTuple(g, f) && k < |g| && g[k].code.Some?
    requires AllTyped(g)
    ensures !Encloses(g, f, k)
  {
    hide NameBytes, IsText;
    TupleIsNoCode(g, f);
    forall i | i in Below(g[f]) && f < i <= k ensures i != k && !Encloses(g, i, k) {
      ItemIsText(g, f, i);
      TextIsApart(g, i, k);
    }
  }

  lemma TupleIsNoCode(g: seq<Object>, f: Id)
    requires TupleObject(g, f) && Typed(g[f])
    ensures Below(g[f]) == g[f].items
  {}

  lemma ItemIsText(g: seq<Object>, f: Id, i: Id)
    requires StringTuple(g, f) && i in g[f].items
    ensures TextObject(g, i)
  {
    hide NameBytes, IsText;
    var n :| 0 <= n < |g[f].items| && g[f].items[n] == i;
    assert NameObject(g, g[f].items[n]);
  }

  /** A text that was there when the code was validated has not changed. */
  lemma TextStays(h: seq<Object>, g: seq<Object>, k: Id, x: Id)
    requires Moment(h, g, k) && x < |h| && k < |g| && g[k].code.Some? && AllTyped(g)
    requires IsText(h[x].kind) || h[x].kind == 's'
    ensures x < |g| && h[x] == g[x]
  {
    hide IsText, Typed;
    assert h[x].kind == g[x].kind;
    TextIsApart(g, x, k);
  }

  lemma TupleStays(h: seq<Object>, g: seq<Object>, k: Id, f: Id)
    requires Moment(h, g, k) && k < |g| && g[k].code.Some? && StringTuple(h, f) && !Encloses(g, f, k)
    requires AllTyped(g)
    ensures f < |h| && StringTuple(g, f) && h[f] == g[f]
  {
    hide NameBytes, IsText, Encloses;
    assert h[f].kind == g[f].kind && g[k].kind == 'c' by { assert Typed(g[k]); }
    assert f != k;
    forall i | 0 <= i < |g[f].items| ensures NameObject(g, g[f].items[i]) {
      assert NameObject(h, h[f].items[i]);
      TextStays(h, g, k, g[f].items[i]);
    }
  }

  lemma StaysOk(h: seq<Object>, g: seq<Object>, k: Id, code: CodeObject, c: Config)
    requires Moment(h, g, k) && k < |g| && g[k].code == Some(code) && CodeOk(h, code, c)
    requires AllTyped(g)
    requires |code.fields| == 9 && NamesApart(g, k)
    ensures CodeOk(g, code, c)
  {
    hide NameBytes, StringTuple, NumbersOk, Encloses, IsText, Moment, IsTuple, AllTyped;
    TextStays(h, g, k, code.fields[0]);
    TextStays(h, g, k, code.fields[6]);
    TextStays(h, g, k, code.fields[7]);
    TextStays(h, g, k, code.fields[8]);
    TupleStays(h, g, k, code.fields[2]);
    TupleStays(h, g, k, code.fields[3]);
    TupleStays(h, g, k, code.fields[4]);
    TupleStays(h, g, k, code.fields[5]);
    KindStays(h, g, k, code.fields[1]);
  }

  lemma KindStays(h: seq<Object>, g: seq<Object>, k: Id, x: Id)
    requires Moment(h, g, k) && x < |h|
    ensures x < |g| && h[x].kind == g[x].kind
  {}

  /** Every code object meets its validation exactly if its name tuples are apart. */
  ghost predicate ValidButForNames(g: seq<Object>, c: Config) {
    forall k | 0 <= k < |g| && g[k].code.Some? ::
      |g[k].code.value.fields| == 9 && (CodeOk(g, g[k].code.value, c) <==> NamesApart(g, k))
  }

  /** The graph of an accepted payload, and its only reading. */
  lemma AcceptedMeans(payload: Bytes, headerSize: nat, c: Config, t: Record)
    requires IsMarshal(payload, headerSize, c, t)
    ensures ValidButForNames(After(Start(headerSize), t).heap, c)
    ensures forall u | IsMarshal(payload, headerSize, c, u) :: u == t
  {
    hide Encode, Shaped, Sound, After, CodeOk, NamesApart;
    var s := Start(headerSize);
    JudgedAfter(c, s, t, 1);
    var g := After(s, t).heap;
    forall k | 0 <= k < |g| && g[k].code.Some?
      ensures |g[k].code.value.fields| == 9 && (CodeOk(g, g[k].code.value, c) <==> NamesApart(g, k))
    {
      ValidInTheEnd(g, k, c);
    }
    forall u | IsMarshal(payload, headerSize, c, u) ensures u == t {
      OneReading(payload, headerSize, u, t);
    }
  }
}
