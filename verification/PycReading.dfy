/** When a record is good, piece by piece: the steps of the reader in terms of its bytes. */
module PycReading {
  import opened Counting
  import opened Words
  import opened PycRecords
  import opened PycGraph

  /** Reading a record takes its bytes. */
  lemma {:induction false} Position(s: State, t: Record)
    requires Shaped(t)
    ensures After(s, t).position == s.position + |Encode(t)|
    decreases t, 1
  {
    hide Little, LittleBytes, SignedBytes, Writable;
    match t
    case Reference(_) =>
    case Leaf(_, _, _) =>
    case Container(flag, k, items) => PositionAll(Opened(s, k, flag), items);
    case Dictionary(flag, items) => PositionAll(Opened(s, '{', flag), items);
    case Code(flag, n, fields, line, table) =>
      PositionAll(Opened(s, 'c', flag), fields);
      Position(Skip(AfterAll(Opened(s, 'c', flag), fields), 4), table);
  }

  lemma {:induction false} PositionAll(s: State, ts: seq<Record>)
    requires AllShaped(ts)
    ensures AfterAll(s, ts).position == s.position + |EncodeAll(ts)|
    decreases ts, 0
  {
    hide Encode, After, Shaped;
    if ts != [] {
      PositionAll(s, ts[..|ts| - 1]);
      Position(AfterAll(s, ts[..|ts| - 1]), ts[|ts| - 1]);
    }
  }

  // ---------------------------------------------------------------- lists of records

  lemma OneMore(s: State, ts: seq<Record>, t: Record)
    ensures AfterAll(s, ts + [t]) == After(AfterAll(s, ts), t)
    ensures Values(s, ts + [t]) == Values(s, ts) + [Value(AfterAll(s, ts), t)]
    ensures EncodeAll(ts + [t]) == EncodeAll(ts) + Encode(t)
  {
    hide Encode, After, Value;
    assert (ts + [t])[..|ts|] == ts;
  }

  lemma OneMoreSound(c: Config, s: State, ts: seq<Record>, t: Record, depth: int)
    requires AllSound(c, s, ts, depth) && Sound(c, AfterAll(s, ts), t, depth)
    ensures AllSound(c, s, ts + [t], depth)
  {
    hide AfterAll, Sound;
    var all := ts + [t];
    forall i | 0 <= i < |all| ensures Sound(c, AfterAll(s, all[..i]), all[i], depth) {
      if i < |ts| {
        assert all[..i] == ts[..i];
        assert Sound(c, AfterAll(s, ts[..i]), ts[i], depth);
      } else {
        assert all[..i] == ts;
      }
    }
  }

  /** One record more. */
  lemma Longer(payload: Bytes, c: Config, s: State, ts: seq<Record>, t: Record, depth: int)
    requires AllGood(payload, c, s, ts, depth) && Good(payload, c, AfterAll(s, ts), t, depth)
    ensures AllGood(payload, c, s, ts + [t], depth)
    ensures AfterAll(s, ts + [t]) == After(AfterAll(s, ts), t)
    ensures Values(s, ts + [t]) == Values(s, ts) + [Value(AfterAll(s, ts), t)]
  {
    hide Encode, EncodeAll, After, AfterAll, Shaped, Sound, AllSound, Value, Values;
    OneMore(s, ts, t);
    OneMoreSound(c, s, ts, t, depth);
    PositionAll(s, ts);
    Joined(payload, s.position, EncodeAll(ts), Encode(t));
  }

  /** Two records more. */
  lemma TwoLonger(payload: Bytes, c: Config, s: State, ts: seq<Record>, t: Record, u: Record, depth: int)
    requires AllGood(payload, c, s, ts, depth) && Good(payload, c, AfterAll(s, ts), t, depth)
    requires Good(payload, c, After(AfterAll(s, ts), t), u, depth)
    ensures AllGood(payload, c, s, ts + [t, u], depth)
    ensures AfterAll(s, ts + [t, u]) == After(After(AfterAll(s, ts), t), u)
    ensures Values(s, ts + [t, u]) ==
            Values(s, ts) + [Value(AfterAll(s, ts), t), Value(After(AfterAll(s, ts), t), u)]
  {
    hide Good, AllGood, After, AfterAll, Value, Values;
    Longer(payload, c, s, ts, t, depth);
    Longer(payload, c, s, ts + [t], u, depth);
    assert ts + [t] + [u] == ts + [t, u];
  }

  /** Of a good list of even length, the two records that come next. */
  lemma TwoEarlier(payload: Bytes, c: Config, s: State, ts: seq<Record>, n: nat, depth: int)
    requires AllGood(payload, c, s, ts, depth) && n < |ts| && n % 2 == 0 == |ts| % 2
    ensures n + 1 < |ts| && Good(payload, c, AfterAll(s, ts[..n]), ts[n], depth)
    ensures Good(payload, c, After(AfterAll(s, ts[..n]), ts[n]), ts[n + 1], depth)
    ensures ts[..n + 2] == ts[..n] + [ts[n], ts[n + 1]]
  {
    hide Good, AllGood, After, AfterAll;
    Earlier(payload, c, s, ts, n, depth);
    Earlier(payload, c, s, ts, n + 1, depth);
    assert ts[..n + 1] == ts[..n] + [ts[n]];
    OneMore(s, ts[..n], ts[n]);
  }

  lemma NothingYet(payload: Bytes, c: Config, s: State, depth: int)
    requires Within(s.used, c)
    ensures AllGood(payload, c, s, [], depth) && AfterAll(s, []) == s && Values(s, []) == []
  {}

  /** The records before one of a good list are good, and it is good itself. */
  lemma {:induction false} Earlier(payload: Bytes, c: Config, s: State, ts: seq<Record>, n: nat, depth: int)
    requires AllGood(payload, c, s, ts, depth) && n <= |ts|
    ensures AllGood(payload, c, s, ts[..n], depth)
    ensures n < |ts| ==> Good(payload, c, AfterAll(s, ts[..n]), ts[n], depth)
    decreases |ts| - n
  {
    hide Encode, EncodeAll, After, AfterAll, Shaped, Sound, AllSound;
    if n == |ts| {
      assert ts[..n] == ts;
    } else {
      Earlier(payload, c, s, ts, n + 1, depth);
      assert ts[..n + 1] == ts[..n] + [ts[n]];
      OneMore(s, ts[..n], ts[n]);
      PositionAll(s, ts[..n]);
      Joined(payload, s.position, EncodeAll(ts[..n]), Encode(ts[n]));
      EarlierSound(c, s, ts, n, depth);
    }
  }

  lemma EarlierSound(c: Config, s: State, ts: seq<Record>, n: nat, depth: int)
    requires AllSound(c, s, ts, depth) && n < |ts|
    ensures AllSound(c, s, ts[..n], depth) && Sound(c, AfterAll(s, ts[..n]), ts[n], depth)
  {
    hide AfterAll, Sound;
    forall i | 0 <= i < n ensures Sound(c, AfterAll(s, ts[..n][..i]), ts[..n][i], depth) {
      assert ts[..n][..i] == ts[..i];
    }
  }

  // ---------------------------------------------------------------- content

  lemma SignedNext(v: int, rest: Bytes)
    requires -0x8000_0000 <= v < 0x8000_0000 && SignedBytes(v) <= rest
    ensures |rest| >= 4 && Signed(rest[..4]) == v
  {
    hide Signed, SignedBytes;
    SignedBack(v);
    assert rest[..4] == SignedBytes(v);
  }

  /** A length byte and that many bytes. */
  lemma ShortIff(rest: Bytes, b: Bytes)
    requires |b| < 256
    ensures LittleBytes(|b|, 1) + b <= rest <==>
            |rest| >= 1 && rest[0] == |b| && |b| <= |rest| - 1 && rest[1..][..|b|] == b
  {
    hide LittleBytes;
    OneByte(|b|);
    Consecutive([|b|], b, rest);
  }

  lemma OneByte(n: nat)
    requires n < 256
    ensures LittleBytes(n, 1) == [n]
  {
    assert LittleBytes(n / 256, 0) == [];
  }

  /** Four length bytes and some more. */
  lemma LongIff(rest: Bytes, v: int, b: Bytes)
    requires -0x8000_0000 <= v < 0x8000_0000
    ensures SignedBytes(v) + b <= rest <==>
            |rest| >= 4 && Signed(rest[..4]) == v && |b| <= |rest| - 4 && rest[4..][..|b|] == b
  {
    hide Signed, SignedBytes;
    SignedBack(v);
    if |rest| >= 4 { BytesOfSigned(rest[..4]); }
    Consecutive(SignedBytes(v), b, rest);
    assert SignedBytes(v) <= rest <==> |rest| >= 4 && rest[..4] == SignedBytes(v);
  }

  lemma Consecutive(a: Bytes, b: Bytes, rest: Bytes)
    ensures a + b <= rest <==>
            a <= rest && |b| <= |rest| - |a| && rest[|a|..][..|b|] == b
  {
    if a + b <= rest {
      assert rest[..|a| + |b|] == a + b;
      assert rest[..|a|] == a && rest[|a|..][..|b|] == rest[..|a| + |b|][|a|..];
    }
    if a <= rest && |b| <= |rest| - |a| && rest[|a|..][..|b|] == b {
      assert rest[..|a|] == a;
      assert rest == rest[..|a|] + rest[|a|..];
    }
  }

  lemma PairIff(rest: Bytes, re: Bytes, im: Bytes)
    requires |re| < 256 && |im| < 256
    ensures ContentBytes(Pair(re, im)) <= rest <==>
            LittleBytes(|re|, 1) + re <= rest && LittleBytes(|im|, 1) + im <= rest[1 + |re|..]
  {
    hide LittleBytes;
    var first, second := LittleBytes(|re|, 1) + re, LittleBytes(|im|, 1) + im;
    Consecutive(first, second, rest);
    assert ContentBytes(Pair(re, im)) == first + second;
  }

  /** What the kind, and the bytes that follow, say about content that comes next. */
  lemma ContentTells(k: char, content: Content, rest: Bytes)
    requires Writable(k, content) && ContentBytes(content) <= rest
    ensures IsPlain(k) <==> content.Empty?
    ensures FixedSize(k) > 0 <==> content.Fixed?
    ensures k == 'x' <==> content.Pair?
    ensures k == 'l' <==> content.Digits?
    ensures IsLongText(k) <==> content.Long?
    ensures k == 'f' || IsShortText(k) <==> content.Short?
    ensures k == 'f' ==> !IsShortText(k)
    ensures content.Fixed? ==> FixedSize(k) <= |rest| && rest[..FixedSize(k)] == content.bytes
    ensures content.Short? ==>
      && |content.bytes| < 256 && |rest| >= 1 && rest[0] == |content.bytes| <= |rest| - 1
      && rest[1..][..|content.bytes|] == content.bytes
      && (IsShortText(k) ==> Ascii(content.bytes))
    ensures content.Pair? ==>
      && |rest| >= 1 && rest[0] == |content.re| <= |rest| - 1 && rest[1..][..|content.re|] == content.re
      && var later := rest[1..][|content.re|..];
         |later| >= 1 && later[0] == |content.im| <= |later| - 1 && later[1..][..|content.im|] == content.im
    ensures content.Long? ==>
      && |rest| >= 4 && Signed(rest[..4]) == |content.bytes| <= |rest| - 4
      && rest[4..][..|content.bytes|] == content.bytes
      && (k == 'a' || k == 'A' ==> Ascii(content.bytes))
    ensures content.Digits? ==>
      && |rest| >= 4 && Signed(rest[..4]) == content.digits && 2 * Abs(content.digits) <= |rest| - 4
      && rest[4..][..2 * Abs(content.digits)] == content.bytes
  {
    hide Signed, SignedBytes, Ascii, LittleBytes, Little;
    match content
    case Empty =>
    case Fixed(_) =>
    case Short(b) => ShortIff(rest, b);
    case Pair(re, im) =>
      PairIff(rest, re, im);
      ShortIff(rest, re);
      ShortIff(rest[1 + |re|..], im);
      assert rest[1..][|re|..] == rest[1 + |re|..];
    case Long(b) => LongIff(rest, |b|, b);
    case Digits(d, b) => LongIff(rest, d, b);
  }

  /** Content of `n` bytes, of which `charge` are charged, is next. */
  predicate Taken(c: Config, k: char, rest: Bytes, content: Content, n: int, charge: int) {
    && Writable(k, content) && ContentBytes(content) <= rest && |ContentBytes(content)| == n
    && Charge(content) == charge && (content.Digits? ==> Abs(content.digits) <= c.maxItems)
  }

  lemma EmptyRead(c: Config, k: char, rest: Bytes)
    requires IsPlain(k)
    ensures Taken(c, k, rest, Empty, 0, 0)
  {}

  lemma FixedRead(c: Config, k: char, rest: Bytes, b: Bytes)
    requires 0 < FixedSize(k) <= |rest| && b == rest[..FixedSize(k)]
    ensures Taken(c, k, rest, Fixed(b), FixedSize(k), 0)
  {}

  lemma ShortRead(c: Config, k: char, rest: Bytes, b: Bytes)
    requires k == 'f' || (IsShortText(k) && Ascii(b))
    requires |rest| >= 1 && |b| == rest[0] <= |rest| - 1 && b == rest[1..][..|b|]
    ensures Taken(c, k, rest, Short(b), 1 + |b|, |b|)
  {
    hide Ascii, LittleBytes;
    ShortIff(rest, b);
  }

  lemma PairRead(c: Config, k: char, rest: Bytes, re: Bytes, im: Bytes)
    requires k == 'x' && |rest| >= 1 && |re| == rest[0] <= |rest| - 1 && re == rest[1..][..|re|]
    requires var later := rest[1..][|re|..];
      |later| >= 1 && |im| == later[0] <= |later| - 1 && im == later[1..][..|im|]
    ensures Taken(c, k, rest, Pair(re, im), 2 + |re| + |im|, |re| + |im|)
  {
    hide LittleBytes;
    assert rest[1..][|re|..] == rest[1 + |re|..];
    ShortIff(rest, re);
    ShortIff(rest[1 + |re|..], im);
    PairIff(rest, re, im);
  }

  lemma LongRead(c: Config, k: char, rest: Bytes, b: Bytes)
    requires IsLongText(k) && (k == 'a' || k == 'A' ==> Ascii(b))
    requires |rest| >= 4 && Signed(rest[..4]) == |b| <= |rest| - 4 && b == rest[4..][..|b|]
    ensures Taken(c, k, rest, Long(b), 4 + |b|, |b|)
  {
    hide Ascii, Signed, SignedBytes;
    LongIff(rest, |b|, b);
  }

  lemma DigitsRead(c: Config, k: char, rest: Bytes, d: int, b: Bytes)
    requires k == 'l' && |rest| >= 4 && Signed(rest[..4]) == d && Abs(d) <= c.maxItems
    requires |b| == 2 * Abs(d) <= |rest| - 4 && b == rest[4..][..|b|]
    ensures Taken(c, k, rest, Digits(d, b), 4 + |b|, |b|)
  {
    hide Signed, SignedBytes;
    LongIff(rest, d, b);
  }

  // ---------------------------------------------------------------- one record

  /** The kind of a record is next. */
  predicate Starts(payload: Bytes, s: State, k: char, flag: bool) {
    [KindByte(k, flag)] <= RestAt(payload, s.position)
  }

  lemma Begins(payload: Bytes, s: State, t: Record)
    ensures Encode(t) <= RestAt(payload, s.position) <==>
            Starts(payload, s, KindOf(t), FlagOf(t)) && Body(t) <= RestAt(payload, s.position + 1)
  {
    hide Body;
    Joined(payload, s.position, [KindByte(KindOf(t), FlagOf(t))], Body(t));
  }

  /** The first byte tells kind and flag. */
  lemma KindTells(t: Record)
    requires Shaped(t)
    ensures KindOf(t) as int < 128
    ensures KindByte(KindOf(t), FlagOf(t)) % 128 == KindOf(t) as int
    ensures KindByte(KindOf(t), FlagOf(t)) >= 128 <==> FlagOf(t)
    ensures KindOf(t) == 'r' <==> t.Reference?
    ensures IsContainer(KindOf(t)) || KindOf(t) == ')' <==> t.Container?
    ensures KindOf(t) == '{' <==> t.Dictionary?
    ensures KindOf(t) == 'c' <==> t.Code?
    ensures KindOf(t) == '0' <==> t == NULL_RECORD
  {
    hide Ascii;
  }

  lemma ReferenceGood(payload: Bytes, c: Config, s: State, index: int, depth: int)
    ensures Good(payload, c, s, Reference(index), depth) <==>
      && Starts(payload, s, 'r', false) && SignedBytes(index) <= RestAt(payload, s.position + 1)
      && Natural32(index) && index < |s.references| && depth <= c.maxDepth
      && Within(Plus(s.used, ONE_OBJECT), c)
  {
    hide SignedBytes;
    Begins(payload, s, Reference(index));
  }

  lemma LeafGood(payload: Bytes, c: Config, s: State, flag: bool, k: char, content: Content, depth: int)
    ensures Good(payload, c, s, Leaf(flag, k, content), depth) <==>
      && Starts(payload, s, k, flag) && ContentBytes(content) <= RestAt(payload, s.position + 1)
      && Writable(k, content) && (k == '0' ==> !flag) && depth <= c.maxDepth
      && (content.Digits? ==> Abs(content.digits) <= c.maxItems)
      && Within(Plus(Plus(s.used, ONE_OBJECT), Usage(0, 0, Charge(content), 0)), c)
  {
    hide ContentBytes, Writable, Charge, KindByte;
    var t := Leaf(flag, k, content);
    Begins(payload, s, t);
    assert After(s, t).used == Filled(s, t).used;
    assert Body(t) == ContentBytes(content);
  }

  lemma ContainerGood(payload: Bytes, c: Config, s: State, flag: bool, k: char, items: seq<Record>, depth: int)
    requires IsContainer(k) || k == ')'
    ensures Good(payload, c, s, Container(flag, k, items), depth) <==>
      && Starts(payload, s, k, flag) && CountBytes(k, |items|) <= RestAt(payload, s.position + 1)
      && (if k == ')' then |items| < 256 else Natural32(|items|)) && |items| <= c.maxItems
      && depth <= c.maxDepth && NULL_RECORD !in items
      && AllGood(payload, c, Opened(s, k, flag), items, depth + 1)
  {
    hide AllShaped, AllSound, EncodeAll, AfterAll, CountBytes, Encode, RestAt, Starts, After;
    ContainerBytes(payload, s, flag, k, items);
    ContainerUses(s, flag, k, items);
  }

  lemma ContainerBytes(payload: Bytes, s: State, flag: bool, k: char, items: seq<Record>)
    requires IsContainer(k) || k == ')'
    ensures Encode(Container(flag, k, items)) <= RestAt(payload, s.position) <==>
      && Starts(payload, s, k, flag) && CountBytes(k, |items|) <= RestAt(payload, s.position + 1)
      && EncodeAll(items) <= RestAt(payload, s.position + 1 + HeaderSize(k))
  {
    CountSize(k, |items|);
    hide EncodeAll, CountBytes, RestAt, Starts, Encode, IsContainer, HeaderSize;
    HeaderFirst(payload, s, Container(flag, k, items), CountBytes(k, |items|), EncodeAll(items));
  }

  lemma HeaderFirst(payload: Bytes, s: State, t: Record, header: Bytes, children: Bytes)
    requires Body(t) == header + children
    ensures Encode(t) <= RestAt(payload, s.position) <==>
      && Starts(payload, s, KindOf(t), FlagOf(t)) && header <= RestAt(payload, s.position + 1)
      && children <= RestAt(payload, s.position + 1 + |header|)
  {
    hide Body, Encode, RestAt, Starts, KindOf, FlagOf;
    Begins(payload, s, t);
    Joined(payload, s.position + 1, header, children);
  }

  lemma CountSize(k: char, n: nat)
    requires IsContainer(k) || k == ')'
    ensures |CountBytes(k, n)| == HeaderSize(k) && k != 'c'
  {}

  lemma ContainerUses(s: State, flag: bool, k: char, items: seq<Record>)
    ensures After(s, Container(flag, k, items)).used == AfterAll(Opened(s, k, flag), items).used
  {
    hide AfterAll;
  }

  lemma NullGood(payload: Bytes, c: Config, s: State, depth: int)
    ensures After(s, NULL_RECORD) == Terminated(s)
    ensures Good(payload, c, s, NULL_RECORD, depth) <==>
      ['0' as int] <= RestAt(payload, s.position) && depth <= c.maxDepth && Within(Terminated(s).used, c)
  {
    hide Good, After, RestAt;
    LeafGood(payload, c, s, false, '0', Empty, depth);
    NullRead(s);
  }

  lemma NullRead(s: State)
    ensures After(s, NULL_RECORD) == Terminated(s)
  {
    assert (s.heap + [Blank('0')])[|s.heap| := Blank('0')] == s.heap + [Blank('0')];
  }

  lemma DictionaryGood(payload: Bytes, c: Config, s: State, flag: bool, items: seq<Record>, depth: int)
    ensures Good(payload, c, s, Dictionary(flag, items), depth) <==>
      && Starts(payload, s, '{', flag) && |items| % 2 == 0 && |items| / 2 < c.maxItems
      && depth <= c.maxDepth && NULL_RECORD !in items
      && AllGood(payload, c, Opened(s, '{', flag), items, depth + 1)
      && Good(payload, c, AfterAll(Opened(s, '{', flag), items), NULL_RECORD, depth + 1)
  {
    hide AllShaped, AllSound, EncodeAll, AfterAll, Good, RestAt, Starts, Terminated;
    var o := Opened(s, '{', flag);
    DictionaryUnfolded(payload, c, s, flag, items, depth);
    DictionaryBytes(payload, s, flag, items);
    NullGood(payload, c, AfterAll(o, items), depth + 1);
    if AllShaped(items) { PositionAll(o, items); }
    assert AtMost(AfterAll(o, items).used, Terminated(AfterAll(o, items)).used) by { Grows(AfterAll(o, items)); }
  }

  lemma Grows(s: State)
    ensures AtMost(s.used, Terminated(s).used)
  {}

  lemma DictionaryBytes(payload: Bytes, s: State, flag: bool, items: seq<Record>)
    ensures Encode(Dictionary(flag, items)) <= RestAt(payload, s.position) <==>
      && Starts(payload, s, '{', flag) && EncodeAll(items) <= RestAt(payload, s.position + 1)
      && ['0' as int] <= RestAt(payload, s.position + 1 + |EncodeAll(items)|)
  {
    hide EncodeAll, RestAt, Starts, Encode;
    HeaderFirst(payload, s, Dictionary(flag, items), EncodeAll(items), ['0' as int]);
  }

  lemma DictionaryUnfolded(payload: Bytes, c: Config, s: State, flag: bool, items: seq<Record>, depth: int)
    ensures var t, o := Dictionary(flag, items), Opened(s, '{', flag);
      (Good(payload, c, s, t, depth) <==>
        && Encode(t) <= RestAt(payload, s.position)
        && |items| % 2 == 0 && AllShaped(items) && NULL_RECORD !in items
        && depth <= c.maxDepth && |items| / 2 < c.maxItems && depth + 1 <= c.maxDepth
        && AllSound(c, o, items, depth + 1) && Within(Terminated(AfterAll(o, items)).used, c))
  {
    hide AllShaped, AllSound, EncodeAll, AfterAll, Encode, RestAt;
    assert After(s, Dictionary(flag, items)).used == Terminated(AfterAll(Opened(s, '{', flag), items)).used;
  }

  /** The parts of a code object, before it is validated. */
  predicate CodeParts(payload: Bytes, c: Config, s: State, t: Record, depth: int)
    requires t.Code?
  {
    var o := Opened(s, 'c', t.flag);
    var f := AfterAll(o, t.fields);
    && Starts(payload, s, 'c', t.flag) && depth <= c.maxDepth
    && NumbersShaped(t.numbers) && IntBytes(NumberList(t.numbers)) <= RestAt(payload, s.position + 1)
    && |t.fields| == 8 && AllGood(payload, c, o, t.fields, depth + 1)
    && Natural32(t.firstLine) && SignedBytes(t.firstLine) <= RestAt(payload, f.position)
    && Good(payload, c, Skip(f, 4), t.lineTable, depth + 1)
  }

  /** The state in which a code object is validated. */
  function CodeRead(s: State, t: Record): State
    requires t.Code?
  {
    After(Skip(AfterAll(Opened(s, 'c', t.flag), t.fields), 4), t.lineTable)
  }

  lemma CodeGood(payload: Bytes, c: Config, s: State, t: Record, depth: int)
    requires t.Code?
    ensures Good(payload, c, s, t, depth) <==>
      && CodeParts(payload, c, s, t, depth) && CodeOk(CodeRead(s, t).heap, CodeOf(s, t), c)
      && Within(After(s, t).used, c)
  {
    hide AllShaped, AllSound, EncodeAll, AfterAll, Encode, IntBytes, SignedBytes, CodeOk, CodeOf,
         NumberList, NumbersShaped, After, RestAt, Starts, Body, Sound, BytecodeSize;
    Begins(payload, s, t);
    CodeBytes(payload, s, t);
    if AllShaped(t.fields) { PositionAll(Opened(s, 'c', t.flag), t.fields); }
    CodeUses(s, t);
    CodeSound(c, s, t, depth);
  }

  lemma CodeSound(c: Config, s: State, t: Record, depth: int)
    requires t.Code?
    ensures var o := Opened(s, 'c', t.flag);
      Sound(c, s, t, depth) <==>
        && depth <= c.maxDepth && AllSound(c, o, t.fields, depth + 1)
        && Sound(c, Skip(AfterAll(o, t.fields), 4), t.lineTable, depth + 1)
        && CodeOk(CodeRead(s, t).heap, CodeOf(s, t), c)
  {
    hide AllSound, AfterAll, CodeOk, CodeOf;
  }

  lemma CodeUses(s: State, t: Record)
    requires t.Code?
    ensures var f := AfterAll(Opened(s, 'c', t.flag), t.fields);
      && After(s, t).used == Plus(CodeRead(s, t).used,
           Usage(0, 0, 0, BytecodeSize(CodeRead(s, t).heap, CodeOf(s, t).fields)))
      && AtMost(f.used, CodeRead(s, t).used) && AtMost(CodeRead(s, t).used, After(s, t).used)
  {
    hide AfterAll, CodeOf;
  }

  lemma CodeBytes(payload: Bytes, s: State, t: Record)
    requires t.Code?
    ensures Body(t) <= RestAt(payload, s.position + 1) <==>
      var p := s.position + 25;
      && IntBytes(NumberList(t.numbers)) <= RestAt(payload, s.position + 1)
      && EncodeAll(t.fields) <= RestAt(payload, p)
      && SignedBytes(t.firstLine) <= RestAt(payload, p + |EncodeAll(t.fields)|)
      && Encode(t.lineTable) <= RestAt(payload, p + |EncodeAll(t.fields)| + 4)
  {
    hide EncodeAll, Encode, IntBytes, SignedBytes, RestAt;
    FourPieces(payload, s.position + 1, IntBytes(NumberList(t.numbers)), EncodeAll(t.fields),
               SignedBytes(t.firstLine), Encode(t.lineTable));
  }

  lemma FourPieces(payload: Bytes, p: nat, a: Bytes, b: Bytes, c: Bytes, d: Bytes)
    ensures a + (b + (c + d)) <= RestAt(payload, p) <==>
      && a <= RestAt(payload, p) && b <= RestAt(payload, p + |a|)
      && c <= RestAt(payload, p + |a| + |b|) && d <= RestAt(payload, p + |a| + |b| + |c|)
  {
    hide RestAt;
    Joined(payload, p, a, b + (c + d));
    Joined(payload, p + |a|, b, c + d);
    Joined(payload, p + |a| + |b|, c, d);
  }

  /** What a record stands for is in the heap, and is a null object only if the record is the
      null record. */
  lemma ValueTells(c: Config, s: State, t: Record, depth: int)
    requires Steady(s, c) && Shaped(t) && Sound(c, s, t, depth)
    ensures Value(s, t) < |After(s, t).heap|
    ensures After(s, t).heap[Value(s, t)].kind == '0' <==> t == NULL_RECORD
  {
    hide Held, Closed;
    if !t.Reference? { FinishedKind(s, t); KindTells(t); }
  }

  lemma FinishedKind(s: State, t: Record)
    requires !t.Reference?
    ensures Finished(s, t).kind == KindOf(t) && (Finished(s, t).code.Some? <==> t.Code?)
    ensures |s.heap| < |After(s, t).heap| && After(s, t).heap[|s.heap|] == Finished(s, t)
  {
    hide CodeOf, Values;
  }

  lemma ReferenceRead(s: State, index: int)
    requires 0 <= index < |s.references|
    ensures After(s, Reference(index)) == Spend(Skip(s, 5), ONE_OBJECT)
    ensures Value(s, Reference(index)) == s.references[index]
  {}

  lemma LeafFilled(s: State, flag: bool, k: char, content: Content)
    ensures Filled(s, Leaf(flag, k, content)) ==
      Spend(Skip(Entered(s, k, flag), |ContentBytes(content)|), Usage(0, 0, Charge(content), 0))
    ensures Finished(s, Leaf(flag, k, content)) ==
      Object(k, TextOf(k, content), TextOffset(k, content, s.position + 1), [], None)
    ensures |TextOf(k, content)| <= Charge(content)
  {
    hide ContentBytes;
  }

  /** What a good record says about the next byte. */
  lemma GoodTells(payload: Bytes, c: Config, s: State, t: Record, depth: int)
    requires Good(payload, c, s, t, depth)
    ensures depth <= c.maxDepth && s.used.objects < c.maxObjects
    ensures |RestAt(payload, s.position)| > 0
    ensures var raw := RestAt(payload, s.position)[0];
      raw % 128 == KindOf(t) as int && (raw >= 128 <==> FlagOf(t))
    ensures KindOf(t) == 'r' <==> t.Reference?
    ensures IsContainer(KindOf(t)) || KindOf(t) == ')' <==> t.Container?
    ensures KindOf(t) == '{' <==> t.Dictionary?
    ensures KindOf(t) == 'c' <==> t.Code?
    ensures KindOf(t) == '0' <==> t == NULL_RECORD
  {
    hide Body;
    KindTells(t);
    Begins(payload, s, t);
  }

  lemma ReferenceTells(payload: Bytes, c: Config, s: State, index: int, depth: int)
    requires Good(payload, c, s, Reference(index), depth)
    ensures var rest := RestAt(payload, s.position + 1); |rest| >= 4 && Signed(rest[..4]) == index
    ensures 0 <= index < |s.references|
  {
    hide Signed, SignedBytes;
    ReferenceGood(payload, c, s, index, depth);
    SignedNext(index, RestAt(payload, s.position + 1));
  }

  /** The count of a container is next. */
  lemma CountTells(k: char, n: nat, rest: Bytes)
    requires IsContainer(k) || k == ')'
    requires CountBytes(k, n) <= rest && (if k == ')' then n < 256 else Natural32(n))
    ensures if k == ')' then |rest| >= 1 && rest[0] == n else |rest| >= 4 && Signed(rest[..4]) == n
  {
    hide Signed, SignedBytes, LittleBytes;
    if k == ')' { OneByte(n); } else { SignedNext(n, rest); }
  }

  lemma CountRead(k: char, n: nat, rest: Bytes)
    requires IsContainer(k) || k == ')'
    requires if k == ')' then |rest| >= 1 && rest[0] == n else SignedBytes(n) <= rest
    ensures CountBytes(k, n) <= rest
  {
    hide SignedBytes, LittleBytes;
    if k == ')' { OneByte(n); }
  }

  lemma ContainerFilled(s: State, flag: bool, k: char, items: seq<Record>)
    ensures Filled(s, Container(flag, k, items)) == AfterAll(Opened(s, k, flag), items)
    ensures Finished(s, Container(flag, k, items)) == Object(k, [], 0, Values(Opened(s, k, flag), items), None)
  {}

  lemma DictionaryFilled(s: State, flag: bool, items: seq<Record>)
    ensures Filled(s, Dictionary(flag, items)) == Terminated(AfterAll(Opened(s, '{', flag), items))
    ensures Finished(s, Dictionary(flag, items)) ==
            Object('{', [], 0, Values(Opened(s, '{', flag), items), None)
  {}

  /** What a good record stands for is in the heap. */
  lemma GoodValue(payload: Bytes, c: Config, s: State, t: Record, depth: int)
    requires Steady(s, c) && Good(payload, c, s, t, depth)
    ensures Value(s, t) < |After(s, t).heap|
    ensures After(s, t).heap[Value(s, t)].kind == '0' <==> t == NULL_RECORD
  {
    ValueTells(c, s, t, depth);
  }

  // ---------------------------------------------------------------- numbers

  lemma NoNumberYet(payload: Bytes, p: nat)
    ensures IntBytes([]) <= RestAt(payload, p)
  {}

  /** One number more. */
  lemma NumberRead(payload: Bytes, p: nat, values: seq<int>, v: int)
    requires IntBytes(values) <= RestAt(payload, p)
    requires SignedBytes(v) <= RestAt(payload, p + 4 * |values|)
    ensures IntBytes(values + [v]) <= RestAt(payload, p)
  {
    hide SignedBytes, IntBytes;
    OneMoreInt(values, v);
    JoinedAt(payload, p, IntBytes(values), SignedBytes(v), 4 * |values|);
  }

  lemma JoinedAt(payload: Bytes, p: nat, a: Bytes, b: Bytes, n: nat)
    requires a <= RestAt(payload, p) && |a| == n && b <= RestAt(payload, p + n)
    ensures a + b <= RestAt(payload, p)
  {
    hide RestAt;
    Joined(payload, p, a, b);
  }

  lemma OneMoreInt(values: seq<int>, v: int)
    ensures IntBytes(values + [v]) == IntBytes(values) + SignedBytes(v)
  {
    hide SignedBytes;
    assert (values + [v])[..|values|] == values;
  }

  /** The next of the numbers that are known to be there. */
  lemma {:induction false} NumberTells(payload: Bytes, p: nat, vs: seq<int>, n: nat)
    requires n < |vs| && IntBytes(vs) <= RestAt(payload, p)
    requires forall i | 0 <= i < |vs| :: Natural32(vs[i])
    ensures var rest := RestAt(payload, p + 4 * n); |rest| >= 4 && Signed(rest[..4]) == vs[n]
    ensures vs[..n] + [vs[n]] == vs[..n + 1]
  {
    hide Signed, SignedBytes;
    var most := vs[..|vs| - 1];
    Joined(payload, p, IntBytes(most), SignedBytes(vs[|vs| - 1]));
    if n == |vs| - 1 {
      SignedNext(vs[n], RestAt(payload, p + 4 * n));
    } else {
      NumberTells(payload, p, most, n);
    }
  }

  lemma CodeFilled(s: State, t: Record)
    requires t.Code?
    ensures var heap := CodeRead(s, t).heap;
      Filled(s, t) == Spend(CodeRead(s, t), Usage(0, 0, 0, BytecodeSize(heap, CodeOf(s, t).fields)))
    ensures Finished(s, t) == Object('c', [], 0, [], Some(CodeOf(s, t)))
  {
    hide CodeOf;
  }
}
