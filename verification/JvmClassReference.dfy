/** The rules of chapter 4 and the conditions and layout of the parser agree: what is accepted
    is exactly what the rules allow, written as they say. */
module JvmClassReference {
  import opened Counting
  import opened Words
  import opened JvmDescriptors
  import opened JvmClassFormat
  import opened JvmClassLayout
  import opened JvmClassRules
  import ModifiedUtf8
  import Texts

  // ---------------------------------------------------------------- numbers

  lemma U2Is(v: nat)
    requires v <= 65535
    ensures BigBytes(v, 2) == U2(v)
  {
    assert BigBytes(v, 2) == BigBytes(v / 256, 1) + [v % 256];
    assert BigBytes(v / 256, 1) == [] + [v / 256 % 256];
  }

  lemma Quotients(v: nat)
    ensures v / 256 / 256 == v / 0x1_0000 && v / 256 / 256 / 256 == v / 0x100_0000
  {}

  lemma U4Is(v: nat)
    requires v <= 0xFFFF_FFFF
    ensures BigBytes(v, 4) == U4(v)
  {
    Quotients(v);
    assert BigBytes(v, 4) == BigBytes(v / 256, 3) + [v % 256];
    assert BigBytes(v / 256, 3) == BigBytes(v / 256 / 256, 2) + [v / 256 % 256];
    assert BigBytes(v / 256 / 256, 2) == BigBytes(v / 256 / 256 / 256, 1) + [v / 256 / 256 % 256];
    assert BigBytes(v / 256 / 256 / 256, 1) == [] + [v / 256 / 256 / 256 % 256];
  }

  lemma BigOfTwo(b: Bytes)
    requires |b| == 2
    ensures Big(b) == b[0] as int * 256 + b[1] as int
  {
    assert Big(b) == Big(b[..1]) * 256 + b[1];
    assert Big(b[..1]) == Big(b[..1][..0]) * 256 + b[0];
  }

  // ---------------------------------------------------------------- names and descriptors

  lemma {:induction false} SizeOfFront(s: string, c: char)
    ensures Size(s + [c]) == Size(s) + Size([c])
  {
    if s == "" {
      assert s + [c] == [c];
      assert [c][1..] == "";
    } else {
      assert (s + [c])[1..] == s[1..] + [c] && (s + [c])[0] == s[0];
      SizeOfFront(s[1..], c);
    }
  }

  lemma {:induction false} SizeIs(s: string)
    ensures Size(s) == Length(s)
  {
    if s != "" {
      var front, c := s[..|s| - 1], s[|s| - 1];
      assert s == front + [c];
      SizeIs(front);
      SizeOfFront(front, c);
      assert [c][1..] == "" && Size([c]) == Width(c);
    }
  }

  lemma PrintableIff(s: string, maximum: nat)
    ensures Printable(s, maximum) <==> PlainText(s, maximum)
  {
    SizeIs(s);
    LengthAtLeast(s);
  }

  lemma WithoutIff(s: string, cs: string)
    ensures Without(s, cs) <==> Lacks(s, cs)
  {
    if Lacks(s, cs) { assert forall j | 0 <= j < |cs| :: cs[j] in cs && cs[j] !in s; }
  }

  lemma NamesIff(s: string)
    ensures FieldName(s) <==> MemberName(s, false)
    ensures FieldName(s) <==> AttributeName(s)
    ensures MethodName(s) <==> MemberName(s, true)
    ensures FieldName(s) <==> MemberName(s, true) && Lacks(s, "<>")
    ensures FileName(s) <==> SourceName(s)
  {
    hide PlainText, Printable;
    PrintableIff(s, 1024);
    PrintableIff(s, 2048);
    WithoutIff(s, ".;[/");
    WithoutIff(s, "<>");
    WithoutIff(s, ".;[/<>");
    WithoutIff(s, "/\\");
    LacksMore(s);
  }

  lemma LacksMore(s: string)
    ensures Lacks(s, ".;[/<>") <==> Lacks(s, ".;[/") && Lacks(s, "<>")
  {
    assert forall c :: c in ".;[/<>" <==> c in ".;[/" || c in "<>";
  }

  /** Two slashes stand side by side. */
  predicate Doubled(s: string) { exists i | 0 <= i < |s| - 1 :: s[i] == '/' && s[i + 1] == '/' }

  lemma DoubledGrows(s: string, c: char)
    ensures Doubled(s + [c]) <==> Doubled(s) || (c == '/' && s != "" && s[|s| - 1] == '/')
  {
    var t := s + [c];
    assert forall i | 0 <= i < |s| :: t[i] == s[i];
    if Doubled(s) { var i :| 0 <= i < |s| - 1 && s[i] == '/' && s[i + 1] == '/'; assert t[i] == '/' && t[i + 1] == '/'; }
    if c == '/' && s != "" && s[|s| - 1] == '/' { assert t[|s| - 1] == '/' && t[|s| - 1 + 1] == '/'; }
    if Doubled(t) {
      var i :| 0 <= i < |t| - 1 && t[i] == '/' && t[i + 1] == '/';
      if i < |s| - 1 { assert s[i] == '/' && s[i + 1] == '/'; }
    }
  }

  /** Which parts of a string are empty: the last one, and those before. */
  lemma {:induction false} EmptyParts(s: string)
    ensures var ps := Texts.Parts(s);
      && (ps[|ps| - 1] == "" <==> s == "" || s[|s| - 1] == '/')
      && ("" in ps[..|ps| - 1] <==> (s != "" && s[0] == '/') || Doubled(s))
  {
    if s != "" {
      var front, c := s[..|s| - 1], s[|s| - 1];
      EmptyParts(front);
      assert s == front + [c];
      DoubledGrows(front, c);
      var ps, qs := Texts.Parts(front), Texts.Parts(s);
      if c == '/' {
        assert qs[..|qs| - 1] == ps;
        assert ps == ps[..|ps| - 1] + [ps[|ps| - 1]];
      } else {
        assert qs[..|qs| - 1] == ps[..|ps| - 1];
      }
      assert front != "" ==> s[0] == front[0];
    }
  }

  /** What the parts say about the characters. */
  lemma {:induction false} PartsSay(s: string)
    ensures (forall p | p in Texts.Parts(s) :: Without(p, ".;[")) <==>
            forall i | 0 <= i < |s| :: s[i] != '.' && s[i] != ';' && s[i] != '['
  {
    if s != "" {
      var front, c := s[..|s| - 1], s[|s| - 1];
      PartsSay(front);
      assert s == front + [c];
      var ps, qs := Texts.Parts(front), Texts.Parts(s);
      if c == '/' {
        assert qs == ps + [""] && Without("", ".;[");
        assert forall p :: p in qs <==> p in ps || p == "";
      } else {
        LastPart(ps, c);
      }
    }
  }

  lemma ClassNameIff(s: string)
    ensures ClassName(s) <==> InternalName(s)
  {
    hide Printable, PlainText, Without;
    PrintableIff(s, 2048);
    PartsSay(s);
    EmptyParts(s);
    var ps := Texts.Parts(s);
    assert ps == ps[..|ps| - 1] + [ps[|ps| - 1]];
    assert "" in ps <==> s == "" || s[0] == '/' || s[|s| - 1] == '/' || Doubled(s);
    if PlainText(s, 2048) { PlainNotEmpty(s); }
  }

  lemma PlainNotEmpty(s: string)
    requires PlainText(s, 2048)
    ensures s != ""
  {}

  lemma LastPart(ps: seq<string>, c: char)
    requires |ps| > 0
    ensures var qs := ps[|ps| - 1 := ps[|ps| - 1] + [c]];
      && ((forall p | p in qs :: Without(p, ".;[")) <==> (forall p | p in ps :: Without(p, ".;[")) && c != '.' && c != ';' && c != '[')
  {
    var last := |ps| - 1;
    var qs := ps[last := ps[last] + [c]];
    assert qs[last] in qs && ps[last] in ps;
    LongerWithout(ps[last], c);
    forall p | p in ps && (forall q | q in qs :: Without(q, ".;[")) ensures Without(p, ".;[") {
      var i :| 0 <= i < |ps| && ps[i] == p;
      if i != last { assert qs[i] == p; }
    }
    forall q | q in qs && (forall p | p in ps :: Without(p, ".;[")) && c != '.' && c != ';' && c != '[' ensures Without(q, ".;[") {
      var i :| 0 <= i < |qs| && qs[i] == q;
      if i != last { assert ps[i] == q; }
    }
  }

  lemma LongerWithout(s: string, c: char)
    ensures Without(s + [c], ".;[") <==> Without(s, ".;[") && c != '.' && c != ';' && c != '['
  {
    assert (s + [c])[|s|] == c;
    assert forall i | 0 <= i < |s| :: (s + [c])[i] == s[i];
    assert ".;["[0] == '.' && ".;["[1] == ';' && ".;["[2] == '[';
  }

  // ---------------------------------------------------------------- descriptors

  lemma {:induction false} TypeIs(t: FieldType, dimensions: nat)
    ensures TypeText(t) == Print(t)
    ensures IsType(t, dimensions) <==> WellFormed(t) && Dimensions(t) <= dimensions
    decreases t
  {
    hide ClassName, InternalName;
    match t
    case Primitive(c) =>
    case Class(name) =>
      ClassNameIff(name);
      assert "L" == ['L'] && ";" == [';'];
    case ArrayOf(e) =>
      assert "[" == ['['];
      TypeIs(e, if dimensions > 0 then dimensions - 1 else 0);
  }

  lemma {:induction false} TypesAre(ts: seq<FieldType>)
    ensures TypesText(ts) == PrintAll(ts)
  {
    if ts != [] {
      TypeIs(ts[0], 255);
      TypesAre(ts[1..]);
    }
  }

  lemma FieldTextIff(s: string)
    ensures FieldText(s) <==> FieldDescriptor(s)
  {
    hide Parse, IsType, Print, TypeText;
    FieldAcceptedIff(s);
    forall t ensures (IsType(t, 255) && TypeText(t) == s) <==> (Proper(t) && Print(t) == s) { TypeIs(t, 255); }
  }

  lemma MethodTextIff(s: string)
    ensures MethodText(s) <==> MethodDescriptor(s)
  {
    hide MethodParses, IsType, Print, PrintAll, TypeText, TypesText, Proper;
    MethodAcceptedIff(s);
    SizeIs(s);
    forall m: MethodType
      ensures ProperMethod(m) && PrintMethod(m) == s <==>
        && (forall i | 0 <= i < |m.arguments| :: IsType(m.arguments[i], 255))
        && (match m.result
            case None => s == "(" + TypesText(m.arguments) + ")" + "V"
            case Some(t) => IsType(t, 255) && s == "(" + TypesText(m.arguments) + ")" + TypeText(t))
    {
      MethodIs(m, s);
    }
  }

  lemma MethodIs(m: MethodType, s: string)
    ensures ProperMethod(m) && PrintMethod(m) == s <==>
      && (forall i | 0 <= i < |m.arguments| :: IsType(m.arguments[i], 255))
      && (match m.result
          case None => s == "(" + TypesText(m.arguments) + ")" + "V"
          case Some(t) => IsType(t, 255) && s == "(" + TypesText(m.arguments) + ")" + TypeText(t))
  {
    hide IsType, Print, PrintAll, TypeText, TypesText, WellFormed, Dimensions;
    TypesAre(m.arguments);
    forall i | 0 <= i < |m.arguments| ensures IsType(m.arguments[i], 255) <==> Proper(m.arguments[i]) {
      TypeIs(m.arguments[i], 255);
    }
    if m.result.Some? { TypeIs(m.result.value, 255); }
    assert "(" == ['('] && ")" == [')'];
  }

  // ---------------------------------------------------------------- the pool

  lemma {:induction false} PlacesAre(cs: seq<Constant>)
    ensures Places(cs) == SpanOf(cs) && |SlotsOf(cs)| == SpanOf(cs)
  {
    if cs != [] { PlacesAre(cs[1..]); }
  }

  /** A slot holds the constant of its index, or nothing behind a wide one. */
  lemma {:induction false} SlotIs(cs: seq<Constant>, i: nat)
    requires 0 < i <= |SlotsOf(cs)|
    ensures SlotsOf(cs)[i - 1] == if Entry(cs, i).Some? then SlotOf(Entry(cs, i).value) else EMPTY_SLOT
    ensures Entry(cs, i).None? ==> i > 1 && Entry(cs, i - 1).Some? && IsWide(Entry(cs, i - 1).value)
  {
    hide SlotOf;
    if cs != [] && i > 1 {
      var step := if IsWide(cs[0]) then 2 else 1;
      if i > step { SlotIs(cs[1..], i - step); }
    }
  }

  lemma {:induction false} NoEntry(cs: seq<Constant>, i: nat)
    requires i == 0 || i > |SlotsOf(cs)|
    ensures Entry(cs, i).None?
  {
    if cs != [] && i > 0 {
      var step := if IsWide(cs[0]) then 2 else 1;
      if i > step { NoEntry(cs[1..], i - step); }
    }
  }

  lemma TableIs(cs: seq<Constant>, i: nat)
    ensures i < |Table(cs)| ==> Table(cs)[i] == if Entry(cs, i).Some? then SlotOf(Entry(cs, i).value) else EMPTY_SLOT
    ensures i == 0 || i >= |Table(cs)| ==> Entry(cs, i).None?
  {
    hide SlotOf;
    if 0 < i < |Table(cs)| { SlotIs(cs, i); } else { NoEntry(cs, i); }
  }

  lemma TextIs(cs: seq<Constant>, i: nat)
    requires AllOk(cs)
    ensures TextAt(Table(cs), i) == TextOf(cs, i)
  {
    hide Table, AllOk;
    TableIs(cs, i);
    if Entry(cs, i).Some? { EntryOk(cs, i); }
  }

  lemma {:induction false} EntryOk(cs: seq<Constant>, i: nat)
    requires AllOk(cs) && Entry(cs, i).Some?
    ensures ConstantOk(Entry(cs, i).value) && Entry(cs, i).value in cs
  {
    hide ConstantOk;
    if i > 1 { EntryOk(cs[1..], if IsWide(cs[0]) then i - 2 else i - 1); }
  }

  lemma ClassIs(cs: seq<Constant>, i: nat)
    requires AllOk(cs)
    ensures ClassNameAt(Table(cs), i) == ClassOf(cs, i)
    ensures 0 < i < |Table(cs)| && Table(cs)[i].tag == 7 <==> IsClass(cs, i)
  {
    hide Table, AllOk, TextAt, TextOf;
    TableIs(cs, i);
    if Entry(cs, i).Some? {
      EntryOk(cs, i);
      if IsClass(cs, i) { TextIs(cs, Entry(cs, i).value.index); }
    }
  }

  lemma PairIs(cs: seq<Constant>, i: nat)
    requires AllOk(cs)
    ensures NameAndType(Table(cs), i) == PairOf(cs, i)
  {
    hide Table, AllOk, TextAt, TextOf;
    TableIs(cs, i);
    if Entry(cs, i).Some? {
      EntryOk(cs, i);
      if Entry(cs, i).value.Two? {
        TextIs(cs, Entry(cs, i).value.first);
        TextIs(cs, Entry(cs, i).value.second);
      }
    }
  }

  lemma ReferenceIs(cs: seq<Constant>, i: nat, tag: nat)
    requires AllOk(cs) && 9 <= tag <= 11
    ensures 0 < i < |Table(cs)| && Table(cs)[i].tag == tag <==> IsReference(cs, i, tag)
  {
    hide Table, AllOk;
    TableIs(cs, i);
    if Entry(cs, i).Some? { EntryOk(cs, i); }
  }

  /** The condition on a slot is the rule for the constant in it. */
  lemma SlotMeets(cs: seq<Constant>, i: nat, major: nat)
    requires AllOk(cs) && 0 < i < |Table(cs)| && Entry(cs, i).Some?
    ensures SlotOk(Table(cs), i, major) <==> Meets(cs, Entry(cs, i).value, major)
  {
    hide Table, AllOk, Meets, SlotOk;
    TableIs(cs, i);
    EntryOk(cs, i);
    match Entry(cs, i).value
    case Utf8(_) => PlainSlot(cs, i, major);
    case Fixed(_, _) => PlainSlot(cs, i, major);
    case One(_, _) => OneSlot(cs, i, major);
    case Two(_, _, _) => TwoSlot(cs, i, major);
    case Handle(_, _) => HandleSlot(cs, i, major);
  }

  lemma PlainSlot(cs: seq<Constant>, i: nat, major: nat)
    requires 0 < i < |Table(cs)| && Entry(cs, i).Some? && ConstantOk(Entry(cs, i).value)
    requires Table(cs)[i] == SlotOf(Entry(cs, i).value) && (Entry(cs, i).value.Utf8? || Entry(cs, i).value.Fixed?)
    ensures SlotOk(Table(cs), i, major) && Meets(cs, Entry(cs, i).value, major)
  {
    hide Table;
  }

  lemma OneSlot(cs: seq<Constant>, i: nat, major: nat)
    requires AllOk(cs) && 0 < i < |Table(cs)| && Entry(cs, i).Some? && ConstantOk(Entry(cs, i).value)
    requires Table(cs)[i] == SlotOf(Entry(cs, i).value) && Entry(cs, i).value.One?
    ensures SlotOk(Table(cs), i, major) <==> Meets(cs, Entry(cs, i).value, major)
  {
    hide Table, AllOk, TextAt, TextOf, FieldText, MethodText, FieldDescriptor, MethodDescriptor, ClassName, InternalName,
         Printable, PlainText;
    var index := Entry(cs, i).value.index;
    TextIs(cs, index);
    if TextOf(cs, index).Some? {
      var text := TextOf(cs, index).value;
      FieldTextIff(text);
      MethodTextIff(text);
      ClassNameIff(text);
      PrintableIff(text, 2048);
    }
  }

  lemma TwoSlot(cs: seq<Constant>, i: nat, major: nat)
    requires AllOk(cs) && 0 < i < |Table(cs)| && Entry(cs, i).Some? && ConstantOk(Entry(cs, i).value)
    requires Table(cs)[i] == SlotOf(Entry(cs, i).value) && Entry(cs, i).value.Two?
    ensures SlotOk(Table(cs), i, major) <==> Meets(cs, Entry(cs, i).value, major)
  {
    hide Table, AllOk, FieldText, MethodText, FieldDescriptor, MethodDescriptor, FieldName, MethodName, MemberName,
         NameAndType, IsClass, PairOf, TextOf;
    var c := Entry(cs, i).value;
    ClassIs(cs, c.first);
    PairIs(cs, c.second);
    PairIs(cs, i);
    OwnPair(cs, i);
    if PairOf(cs, c.second).Some? { PairLikes(PairOf(cs, c.second).value); }
    if PairOf(cs, i).Some? { PairLikes(PairOf(cs, i).value); }
  }

  lemma OwnPair(cs: seq<Constant>, i: nat)
    requires Entry(cs, i).Some? && Entry(cs, i).value.Two?
    ensures var c := Entry(cs, i).value;
      if c.tag == 12 && TextOf(cs, c.first).Some? && TextOf(cs, c.second).Some?
      then PairOf(cs, i) == Some((TextOf(cs, c.first).value, TextOf(cs, c.second).value)) else PairOf(cs, i).None?
  {
    hide TextOf;
  }

  lemma PairLikes(p: (string, string))
    ensures FieldName(p.0) <==> MemberName(p.0, false)
    ensures FieldName(p.0) <==> MemberName(p.0, true) && Lacks(p.0, "<>")
    ensures MethodName(p.0) <==> MemberName(p.0, true)
    ensures FieldText(p.1) <==> FieldDescriptor(p.1)
    ensures MethodText(p.1) <==> MethodDescriptor(p.1)
  {
    NamesIff(p.0);
    FieldTextIff(p.1);
    MethodTextIff(p.1);
  }

  lemma HandleSlot(cs: seq<Constant>, i: nat, major: nat)
    requires AllOk(cs) && 0 < i < |Table(cs)| && Entry(cs, i).Some? && ConstantOk(Entry(cs, i).value)
    requires Table(cs)[i] == SlotOf(Entry(cs, i).value) && Entry(cs, i).value.Handle?
    ensures SlotOk(Table(cs), i, major) <==> Meets(cs, Entry(cs, i).value, major)
  {
    hide Table, AllOk, IsReference;
    var c := Entry(cs, i).value;
    ReferenceIs(cs, c.index, 9);
    ReferenceIs(cs, c.index, 10);
    ReferenceIs(cs, c.index, 11);
  }

  /** Where the constant that is number `k` stands. */
  lemma {:induction false} Standing(cs: seq<Constant>, k: nat) returns (i: nat)
    requires k < |cs|
    ensures 0 < i <= |SlotsOf(cs)| && Entry(cs, i) == Some(cs[k])
  {
    if k == 0 {
      i := 1;
    } else {
      i := Standing(cs[1..], k - 1);
      i := if IsWide(cs[0]) then i + 2 else i + 1;
    }
  }

  /** The pool passes exactly if every constant meets the rule for its tag. */
  lemma PoolIff(cs: seq<Constant>, major: nat)
    requires AllOk(cs)
    ensures PoolOk(Table(cs), major) <==> forall k | 0 <= k < |cs| :: Meets(cs, cs[k], major)
  {
    hide AllOk, Meets, SlotOk;
    if PoolOk(Table(cs), major) {
      forall k | 0 <= k < |cs| ensures Meets(cs, cs[k], major) {
        var i := Standing(cs, k);
        SlotMeets(cs, i, major);
      }
    }
    if forall k | 0 <= k < |cs| :: Meets(cs, cs[k], major) {
      forall i | 0 < i < |Table(cs)| ensures SlotOk(Table(cs), i, major) { OneSlotOk(cs, i, major); }
    }
  }

  lemma OneSlotOk(cs: seq<Constant>, i: nat, major: nat)
    requires AllOk(cs) && 0 < i < |Table(cs)| && forall k | 0 <= k < |cs| :: Meets(cs, cs[k], major)
    ensures SlotOk(Table(cs), i, major)
  {
    hide AllOk, Meets, SlotOk, Table;
    if Entry(cs, i).Some? {
      EntryOk(cs, i);
      SlotMeets(cs, i, major);
    } else {
      SecondSlot(cs, i, major);
    }
  }

  lemma SecondSlot(cs: seq<Constant>, i: nat, major: nat)
    requires AllOk(cs) && 0 < i < |Table(cs)| && Entry(cs, i).None?
    ensures SlotOk(Table(cs), i, major)
  {
    hide AllOk;
    SlotIs(cs, i);
    EntryOk(cs, i - 1);
    SlotIs(cs, i - 1);
  }

  lemma HoldableIff(c: Constant)
    ensures Holdable(c) <==> ConstantOk(c)
  {}

  // ---------------------------------------------------------------- attributes and code

  lemma AttributeIff(cs: seq<Constant>, a: Attribute)
    requires AllOk(cs)
    ensures AttributeOk(Table(cs), a) <==>
      a.name <= 65535 && TextOf(cs, a.name).Some? && FieldName(TextOf(cs, a.name).value) && |a.payload| <= 0xFFFF_FFFF
  {
    hide AllOk, Table, TextAt, TextOf, FieldName, AttributeName;
    TextIs(cs, a.name);
    if TextOf(cs, a.name).Some? { NamesIff(TextOf(cs, a.name).value); }
  }

  lemma AttributedIff(cs: seq<Constant>, attributes: seq<Attribute>)
    requires AllOk(cs)
    ensures Attributed(cs, attributes) <==> CountedOk(Attributes(Table(cs)), attributes)
    ensures Attributed(cs, attributes) <==> |attributes| < 0x1_0000 && forall a | a in attributes :: AttributeOk(Table(cs), a)
  {
    hide AllOk, Table, TextAt, TextOf, FieldName, AttributeOk;
    forall a ensures AttributeOk(Table(cs), a) <==>
      a.name <= 65535 && TextOf(cs, a.name).Some? && FieldName(TextOf(cs, a.name).value) && |a.payload| <= 0xFFFF_FFFF
    {
      AttributeIff(cs, a);
    }
  }

  lemma HandlerIff(cs: seq<Constant>, n: nat, h: Handler)
    requires AllOk(cs) && n <= 65535
    ensures HandlerOk(Table(cs), n, h) <==>
      && h.start < h.end <= n && h.handler < n
      && h.catchType <= 65535 && (h.catchType != 0 ==> ClassOf(cs, h.catchType).Some?)
  {
    hide AllOk, Table, ClassNameAt, ClassOf;
    ClassIs(cs, h.catchType);
  }

  lemma CodeObeysIff(cs: seq<Constant>, c: Code)
    requires AllOk(cs)
    ensures CodeObeys(cs, c) <==> CodeOk(Table(cs), c)
  {
    hide AllOk, Table, ClassOf, HandlerOk, Attributed, AttributeOk;
    AttributedIff(cs, c.attributes);
    if |c.code| <= 65535 {
      forall h ensures HandlerOk(Table(cs), |c.code|, h) <==>
        && h.start < h.end <= |c.code| && h.handler < |c.code|
        && h.catchType <= 65535 && (h.catchType != 0 ==> ClassOf(cs, h.catchType).Some?)
      {
        HandlerIff(cs, |c.code|, h);
      }
    }
  }

  lemma {:induction false} AttributesAre(slots: seq<Slot>, attributes: seq<Attribute>)
    requires forall a | a in attributes :: a.name <= 65535 && |a.payload| <= 0xFFFF_FFFF
    ensures ManyBytes(Attributes(slots), attributes) == AttributesWritten(attributes)
  {
    hide BigBytes;
    if attributes != [] {
      U2Is(attributes[0].name);
      U4Is(|attributes[0].payload|);
      AttributesAre(slots, attributes[1..]);
    }
  }

  lemma CountedAttributes(cs: seq<Constant>, attributes: seq<Attribute>)
    requires Attributed(cs, attributes)
    ensures CountedBytes(Attributes(Table(cs)), attributes) == U2(|attributes|) + AttributesWritten(attributes)
  {
    hide BigBytes, ManyBytes, TextOf, FieldName, Table, AttributesWritten;
    U2Is(|attributes|);
    AttributesAre(Table(cs), attributes);
  }

  lemma {:induction false} HandlersAre(slots: seq<Slot>, n: nat, handlers: seq<Handler>)
    requires forall h | h in handlers :: h.start <= 65535 && h.end <= 65535 && h.handler <= 65535 && h.catchType <= 65535
    ensures ManyBytes(Handlers(slots, n), handlers) == HandlersWritten(handlers)
  {
    hide BigBytes;
    if handlers != [] {
      var h := handlers[0];
      U2Is(h.start);
      U2Is(h.end);
      U2Is(h.handler);
      U2Is(h.catchType);
      HandlersAre(slots, n, handlers[1..]);
    }
  }

  lemma CodeIs(cs: seq<Constant>, c: Code)
    requires CodeObeys(cs, c)
    ensures CodeBytes(Table(cs), c) == CodeWritten(c)
  {
    hide BigBytes, ManyBytes, Attributed, ClassOf, Table, AttributesWritten, HandlersWritten;
    U2Is(c.maxStack);
    U2Is(c.maxLocals);
    U4Is(|c.code|);
    U2Is(|c.handlers|);
    HandlersAre(Table(cs), |c.code|, c.handlers);
    CountedAttributes(cs, c.attributes);
  }

  lemma IsCodeIff(cs: seq<Constant>, payload: Bytes)
    requires AllOk(cs)
    ensures JvmClassLayout.IsCode(Table(cs), payload) <==> exists c :: CodeObeys(cs, c) && CodeWritten(c) == payload
  {
    hide AllOk, Table, CodeOk, CodeBytes, CodeObeys, CodeWritten;
    forall c ensures CodeOk(Table(cs), c) <==> CodeObeys(cs, c) { CodeObeysIff(cs, c); }
    forall c | CodeObeys(cs, c) ensures CodeBytes(Table(cs), c) == CodeWritten(c) { CodeIs(cs, c); }
  }

  // ---------------------------------------------------------------- the attributes of one name

  /** Some attribute of this name has this payload. */
  predicate Holds(cs: seq<Constant>, attributes: seq<Attribute>, name: string, p: Bytes) {
    exists i | 0 <= i < |attributes| :: Called(cs, attributes, i, name) && attributes[i].payload == p
  }

  lemma CalledGrows(cs: seq<Constant>, front: seq<Attribute>, a: Attribute, name: string)
    ensures var all := front + [a];
      && (NoneCalled(cs, all, name) <==> NoneCalled(cs, front, name) && TextOf(cs, a.name) != Some(name))
      && (OnceAtMost(cs, all, name) <==>
            OnceAtMost(cs, front, name) && (TextOf(cs, a.name) == Some(name) ==> NoneCalled(cs, front, name)))
      && forall p :: Holds(cs, all, name, p) <==>
           Holds(cs, front, name, p) || (TextOf(cs, a.name) == Some(name) && a.payload == p)
  {
    hide TextOf;
    var all, n := front + [a], |front|;
    assert forall i | 0 <= i < n :: all[i] == front[i];
    assert all[n] == a;
    assert forall i | 0 <= i < n :: Called(cs, all, i, name) <==> Called(cs, front, i, name);
    assert Called(cs, all, n, name) <==> TextOf(cs, a.name) == Some(name);
  }

  lemma {:induction false} PayloadsAre(cs: seq<Constant>, attributes: seq<Attribute>)
    requires AllOk(cs)
    ensures forall p :: p in CodePayloads(Table(cs), attributes) <==> Holds(cs, attributes, "Code", p)
    ensures CodePayloads(Table(cs), attributes) == [] <==> NoneCalled(cs, attributes, "Code")
    ensures |CodePayloads(Table(cs), attributes)| <= 1 <==> OnceAtMost(cs, attributes, "Code")
  {
    hide AllOk, Table, TextAt, TextOf;
    if attributes != [] {
      var front, a := attributes[..|attributes| - 1], attributes[|attributes| - 1];
      assert attributes == front + [a];
      PayloadsAre(cs, front);
      TextIs(cs, a.name);
      CalledGrows(cs, front, a, "Code");
      hide NoneCalled, OnceAtMost, Called, Holds;
    }
  }

  lemma {:induction false} SourcesAre(cs: seq<Constant>, attributes: seq<Attribute>)
    requires AllOk(cs)
    ensures forall p :: p in SourcePayloads(Table(cs), attributes) <==> Holds(cs, attributes, "SourceFile", p)
    ensures SourcePayloads(Table(cs), attributes) == [] <==> NoneCalled(cs, attributes, "SourceFile")
    ensures |SourcePayloads(Table(cs), attributes)| <= 1 <==> OnceAtMost(cs, attributes, "SourceFile")
  {
    hide AllOk, Table, TextAt, TextOf;
    if attributes != [] {
      var front, a := attributes[..|attributes| - 1], attributes[|attributes| - 1];
      assert attributes == front + [a];
      SourcesAre(cs, front);
      TextIs(cs, a.name);
      CalledGrows(cs, front, a, "SourceFile");
      hide NoneCalled, OnceAtMost, Called, Holds;
    }
  }

  // ---------------------------------------------------------------- fields and methods

  lemma FieldIff(cs: seq<Constant>, m: Member)
    requires AllOk(cs)
    ensures FieldOk(Table(cs), m) <==> FieldObeys(cs, m) && FieldTyped(cs, m)
  {
    hide AllOk, Table, TextAt, TextOf, FieldName, MemberName, Attributed, FieldText, FieldDescriptor, CountedOk;
    TextIs(cs, m.name);
    TextIs(cs, m.descriptor);
    AttributedIff(cs, m.attributes);
    if TextOf(cs, m.name).Some? { NamesIff(TextOf(cs, m.name).value); }
    if TextOf(cs, m.descriptor).Some? { FieldTextIff(TextOf(cs, m.descriptor).value); }
  }

  lemma VoidIff(s: string)
    ensures EndsInV(s) <==> EndsVoid(s)
  {
    if |s| >= 2 {
      assert s[|s| - 2..] == [s[|s| - 2], s[|s| - 1]];
    }
  }

  /** The codes of a method, by its attributes. */
  lemma BodyIff(cs: seq<Constant>, m: Member)
    requires AllOk(cs)
    ensures var codes := CodePayloads(Table(cs), m.attributes);
      |codes| <= 1 && (forall p | p in codes :: JvmClassLayout.IsCode(Table(cs), p)) &&
          (AbstractOrNative(m.access) <==> codes == []) <==>
      if Bodiless(m.access) then NoneCalled(cs, m.attributes, "Code")
      else OnceAtMost(cs, m.attributes, "Code") && exists i, c: Code | 0 <= i < |m.attributes| :: BodyIs(cs, m.attributes, i, c)
  {
    hide AllOk, Table, JvmClassLayout.IsCode, CodePayloads, CodeObeys, CodeWritten, NoneCalled, OnceAtMost, Called;
    var codes := CodePayloads(Table(cs), m.attributes);
    PayloadsAre(cs, m.attributes);
    if codes != [] {
      assert Holds(cs, m.attributes, "Code", codes[0]) by { assert codes[0] in codes; }
      IsCodeIff(cs, codes[0]);
      if |codes| <= 1 { OnlyCode(cs, m.attributes, codes); }
    } else {
      NoBody(cs, m.attributes);
    }
  }

  lemma NoBody(cs: seq<Constant>, attributes: seq<Attribute>)
    requires NoneCalled(cs, attributes, "Code")
    ensures forall i, c: Code | 0 <= i < |attributes| :: !BodyIs(cs, attributes, i, c)
  {
    hide CodeObeys, CodeWritten, TextOf;
  }

  lemma OnlyCode(cs: seq<Constant>, attributes: seq<Attribute>, codes: seq<Bytes>)
    requires |codes| == 1 && forall p :: p in codes <==> Holds(cs, attributes, "Code", p)
    ensures (exists c :: CodeObeys(cs, c) && CodeWritten(c) == codes[0]) <==>
            exists i, c: Code | 0 <= i < |attributes| :: BodyIs(cs, attributes, i, c)
  {
    hide CodeObeys, CodeWritten, Called;
    assert codes == [codes[0]];
    assert Holds(cs, attributes, "Code", codes[0]) by { assert codes[0] in codes; }
    var k :| 0 <= k < |attributes| && Called(cs, attributes, k, "Code") && attributes[k].payload == codes[0];
    if c :| CodeObeys(cs, c) && CodeWritten(c) == codes[0] { assert BodyIs(cs, attributes, k, c); }
    if i, c: Code :| 0 <= i < |attributes| && BodyIs(cs, attributes, i, c) {
      assert Holds(cs, attributes, "Code", attributes[i].payload);
      assert attributes[i].payload in codes;
    }
  }

  lemma MethodIff(cs: seq<Constant>, m: Member)
    requires AllOk(cs)
    ensures MethodLaidOut(Table(cs), m) <==> MethodObeys(cs, m)
  {
    hide AllOk, Table, TextAt, TextOf, MethodName, MemberName, Attributed, MethodText, MethodDescriptor, CountedOk,
         EndsVoid, EndsInV,
         CodePayloads, JvmClassLayout.IsCode, BodyIs, NoneCalled, OnceAtMost;
    TextIs(cs, m.name);
    TextIs(cs, m.descriptor);
    AttributedIff(cs, m.attributes);
    BodyIff(cs, m);
    if TextOf(cs, m.name).Some? { NamesIff(TextOf(cs, m.name).value); }
    if TextOf(cs, m.descriptor).Some? {
      MethodTextIff(TextOf(cs, m.descriptor).value);
      VoidIff(TextOf(cs, m.descriptor).value);
    }
  }

  // ---------------------------------------------------------------- the class file

  lemma NamesClassIff(cs: seq<Constant>, i: nat)
    requires AllOk(cs)
    ensures NamesClass(Table(cs), i) <==> ClassOf(cs, i).Some? && ClassName(ClassOf(cs, i).value)
  {
    hide AllOk, Table, ClassNameAt, ClassOf, ClassName, InternalName;
    ClassIs(cs, i);
    if ClassOf(cs, i).Some? { ClassNameIff(ClassOf(cs, i).value); }
  }

  lemma SourceIff(cs: seq<Constant>, attributes: seq<Attribute>)
    requires AllOk(cs)
    ensures SourcesOk(Table(cs), attributes) <==> SourceObeys(cs, attributes)
  {
    hide AllOk, Table, SourcePayloads, SourceOk, Called, OnceAtMost;
    SourcesAre(cs, attributes);
    var sources := SourcePayloads(Table(cs), attributes);
    forall p ensures SourceOk(Table(cs), p) <==> SourceOf(cs, p).Some? && FileName(SourceOf(cs, p).value) {
      SourcePayloadIff(cs, p);
    }
    forall i | 0 <= i < |attributes| && Called(cs, attributes, i, "SourceFile") ensures attributes[i].payload in sources {
      assert Holds(cs, attributes, "SourceFile", attributes[i].payload);
    }
    forall p | p in sources
      ensures exists i | 0 <= i < |attributes| :: Called(cs, attributes, i, "SourceFile") && attributes[i].payload == p
    {
      assert Holds(cs, attributes, "SourceFile", p);
    }
  }

  lemma SourcePayloadIff(cs: seq<Constant>, p: Bytes)
    requires AllOk(cs)
    ensures SourceOk(Table(cs), p) <==> SourceOf(cs, p).Some? && FileName(SourceOf(cs, p).value)
  {
    hide AllOk, Table, Big, TextAt, TextOf, SourceName, FileName;
    if |p| == 2 {
      BigOfTwo(p);
      TextIs(cs, Big(p));
      if TextOf(cs, Big(p)).Some? { NamesIff(TextOf(cs, Big(p)).value); }
    }
  }

  lemma SignaturesIff(cs: seq<Constant>, methods: seq<Member>)
    requires AllOk(cs)
    ensures SignaturesDistinct(Table(cs), methods) <==>
            forall i, j | 0 <= i < j < |methods| :: !SameSignature(cs, methods[i], methods[j])
  {
    hide AllOk, Table, TextAt, TextOf;
    forall i | 0 <= i < |methods|
      ensures TextAt(Table(cs), methods[i].name) == TextOf(cs, methods[i].name)
      ensures TextAt(Table(cs), methods[i].descriptor) == TextOf(cs, methods[i].descriptor)
    {
      TextIs(cs, methods[i].name);
      TextIs(cs, methods[i].descriptor);
    }
  }

  /** The rules and the conditions of the parser allow the same class files. */
  lemma ObeysIff(c: ClassFile)
    ensures Obeys(c) <==> WellFormedClass(c)
  {
    hide Meets, Holdable, ConstantOk, FieldObeys, FieldTyped, FieldOk, MethodObeys, MethodLaidOut, Attributed, AttributeOk,
         SourceObeys, SourcesOk, SignaturesDistinct, SameSignature, NamesClass, ClassOf, ClassName, PoolOk, Table, SpanOf, Places;
    var cs := c.constants;
    PlacesAre(cs);
    forall k ensures Holdable(k) <==> ConstantOk(k) { HoldableIff(k); }
    if AllOk(cs) {
      hide AllOk;
      PoolIff(cs, c.major);
      forall i: nat ensures NamesClass(Table(cs), i) <==> ClassOf(cs, i).Some? && ClassName(ClassOf(cs, i).value) {
        NamesClassIff(cs, i);
      }
      forall m ensures FieldOk(Table(cs), m) <==> FieldObeys(cs, m) && FieldTyped(cs, m) { FieldIff(cs, m); }
      forall m ensures MethodLaidOut(Table(cs), m) <==> MethodObeys(cs, m) { MethodIff(cs, m); }
      AttributedIff(cs, c.attributes);
      SourceIff(cs, c.attributes);
      SignaturesIff(cs, c.methods);
    }
  }

  // ---------------------------------------------------------------- the bytes

  lemma {:induction false} ConstantsAre(cs: seq<Constant>)
    requires AllOk(cs)
    ensures ConstantsBytes(cs) == ConstantsWritten(cs)
  {
    hide ConstantBytes, ConstantWritten, ConstantOk;
    if cs != [] {
      ConstantIs(cs[0]);
      ConstantsAre(cs[1..]);
    }
  }

  lemma ConstantIs(c: Constant)
    requires ConstantOk(c)
    ensures ConstantBytes(c) == ConstantWritten(c)
  {
    hide BigBytes, ModifiedUtf8.Encode;
    match c
    case Utf8(text) => U2Is(|ModifiedUtf8.Encode(text)|);
    case Fixed(_, _) =>
    case One(_, i) => U2Is(i);
    case Two(_, i, j) =>
      U2Is(i);
      U2Is(j);
    case Handle(_, i) => U2Is(i);
  }

  lemma {:induction false} InterfacesAre(slots: seq<Slot>, vs: seq<nat>)
    requires forall v | v in vs :: v <= 65535
    ensures ManyBytes(Interfaces(slots), vs) == ShortsWritten(vs)
  {
    hide BigBytes;
    if vs != [] {
      assert vs[0] in vs && forall v | v in vs[1..] :: v in vs;
      U2Is(vs[0]);
      InterfacesAre(slots, vs[1..]);
    }
  }

  lemma MemberIs(cs: seq<Constant>, m: Member)
    requires m.access <= 65535 && m.name <= 65535 && m.descriptor <= 65535 && Attributed(cs, m.attributes)
    ensures MemberBytes(Table(cs), m) ==
      U2(m.access) + U2(m.name) + U2(m.descriptor) + U2(|m.attributes|) + AttributesWritten(m.attributes)
  {
    hide BigBytes, CountedBytes, Attributed, AttributesWritten, Table;
    U2Is(m.access);
    U2Is(m.name);
    U2Is(m.descriptor);
    CountedAttributes(cs, m.attributes);
  }

  predicate Widths(cs: seq<Constant>, ms: seq<Member>) {
    forall m | m in ms :: m.access <= 65535 && m.name <= 65535 && m.descriptor <= 65535 && Attributed(cs, m.attributes)
  }

  lemma {:induction false} FieldsAre(cs: seq<Constant>, ms: seq<Member>)
    requires Widths(cs, ms)
    ensures ManyBytes(Fields(Table(cs)), ms) == MembersWritten(ms)
  {
    hide MemberBytes, Attributed, AttributesWritten, Table, U2;
    if ms != [] {
      MemberIs(cs, ms[0]);
      FieldsAre(cs, ms[1..]);
    }
  }

  lemma {:induction false} MethodsAre(cs: seq<Constant>, ms: seq<Member>)
    requires Widths(cs, ms)
    ensures ManyBytes(Methods(Table(cs)), ms) == MembersWritten(ms)
  {
    hide MemberBytes, Attributed, AttributesWritten, Table, U2;
    if ms != [] {
      MemberIs(cs, ms[0]);
      MethodsAre(cs, ms[1..]);
    }
  }

  lemma ObeysWidths(c: ClassFile)
    requires Obeys(c)
    ensures AllOk(c.constants) && Places(c.constants) <= 65534 && c.minor <= 65535 && c.major <= 1000
    ensures c.access <= 65535 && c.thisClass <= 65535 && c.superClass <= 65535
    ensures |c.interfaces| <= 65535 && |c.fields| <= 65535 && |c.methods| <= 65535
    ensures forall v | v in c.interfaces :: v <= 65535
    ensures Widths(c.constants, c.fields) && Widths(c.constants, c.methods) && Attributed(c.constants, c.attributes)
  {
    hide Meets, ConstantOk, Holdable, Attributed, MethodText, FieldText, TextOf, ClassOf, SourceObeys, BodyIs,
         NoneCalled, OnceAtMost;
    forall i | 0 <= i < |c.constants| ensures ConstantOk(c.constants[i]) { HoldableIff(c.constants[i]); }
    forall v | v in c.interfaces ensures v <= 65535 {
      var i :| 0 <= i < |c.interfaces| && c.interfaces[i] == v;
      assert NamesAClass(c.constants, c.interfaces[i]);
    }
    forall m | m in c.fields ensures m.access <= 65535 && m.name <= 65535 && m.descriptor <= 65535 &&
        Attributed(c.constants, m.attributes) {
      var i :| 0 <= i < |c.fields| && c.fields[i] == m;
      assert FieldObeys(c.constants, c.fields[i]);
    }
    forall m | m in c.methods ensures m.access <= 65535 && m.name <= 65535 && m.descriptor <= 65535 &&
        Attributed(c.constants, m.attributes) {
      var i :| 0 <= i < |c.methods| && c.methods[i] == m;
      assert MethodObeys(c.constants, c.methods[i]);
    }
  }

  lemma PoolIs(c: ClassFile)
    requires AllOk(c.constants) && Places(c.constants) <= 65534 && c.minor <= 65535 && c.major <= 65535
    ensures PoolBytes(c) ==
      [0xCA, 0xFE, 0xBA, 0xBE] + U2(c.minor) + U2(c.major) + U2(Places(c.constants) + 1) + ConstantsWritten(c.constants)
  {
    hide BigBytes, ConstantsBytes, ConstantsWritten, AllOk, U2, Places, SpanOf;
    U4Is(0xCAFEBABE);
    assert U4(0xCAFEBABE) == [0xCA, 0xFE, 0xBA, 0xBE];
    U2Is(c.minor);
    U2Is(c.major);
    PlacesAre(c.constants);
    U2Is(Places(c.constants) + 1);
    ConstantsAre(c.constants);
  }

  /** A class file that the rules allow is serialised as they say. */
  lemma WrittenIs(c: ClassFile)
    requires Obeys(c)
    ensures AllOk(c.constants) && Serialize(c) == Written(c)
  {
    hide BigBytes, PoolBytes, Table, Obeys, AllOk, U2, Places, Attributed, Widths, ManyBytes, AttributesWritten, MembersWritten,
         ShortsWritten, ConstantsWritten;
    ObeysWidths(c);
    PoolIs(c);
    var cs := c.constants;
    U2Is(c.access);
    U2Is(c.thisClass);
    U2Is(c.superClass);
    U2Is(|c.interfaces|);
    InterfacesAre(Table(cs), c.interfaces);
    U2Is(|c.fields|);
    FieldsAre(cs, c.fields);
    U2Is(|c.methods|);
    MethodsAre(cs, c.methods);
    CountedAttributes(cs, c.attributes);
  }

  /** The byte strings that serialise a well-formed class file are those that the rules allow,
      written as they say. */
  lemma SameFiles(b: Bytes, c: ClassFile)
    ensures WellFormedClass(c) && AllOk(c.constants) && Serialize(c) == b <==> Obeys(c) && Written(c) == b
  {
    hide WellFormedClass, Obeys, Serialize, Written;
    ObeysIff(c);
    if Obeys(c) { WrittenIs(c); }
  }

  /** What the parser finds in a byte string is the class file that the rules allow and that
      is written so. */
  lemma ParsedByTheRules(b: Bytes, c: ClassFile)
    ensures ParseClass(b) == Some(c) <==> Obeys(c) && Written(c) == b
  {
    hide ParseClass, WellFormedClass, Obeys, Serialize, Written;
    SameFiles(b, c);
    if ParseClass(b).Some? { SerializeParse(b); }
    if WellFormedClass(c) {
      ConstantsOk(c);
      ParseSerialize(c);
    }
  }

  lemma ConstantsOk(c: ClassFile)
    requires WellFormedClass(c)
    ensures AllOk(c.constants)
  {}
}
