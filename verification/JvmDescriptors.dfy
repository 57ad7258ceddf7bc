/** Field and method descriptors (sections 4.3.2 and 4.3.3 of the Java Virtual Machine
    Specification): the checkers accept exactly the printings of descriptor trees, and a
    descriptor has one tree. */
module JvmDescriptors {
  import opened Counting

  // ---------------------------------------------------------------- names

  /** Bytes of one character in UTF-8. */
  function Width(c: char): nat {
    var v := c as int;
    if v < 0x80 then 1 else if v < 0x800 then 2 else if v < 0x10000 then 3 else 4
  }

  /** `len(value)`: the length in bytes. */
  function Length(s: string): nat {
    if s == "" then 0 else Length(s[..|s| - 1]) + Width(s[|s| - 1])
  }

  predicate PlainText(s: string, maximum: nat) {
    && s != "" && Length(s) <= maximum
    && forall i | 0 <= i < |s| :: s[i] as int >= 0x20 && s[i] as int != 0x7F
  }

  /** An internal class name: slash-separated, no empty part, and none of `.` `;` `[`. */
  predicate InternalName(s: string) {
    && PlainText(s, 2048)
    && s[0] != '/' && s[|s| - 1] != '/'
    && (forall i | 0 <= i < |s| - 1 :: !(s[i] == '/' && s[i + 1] == '/'))
    && (forall i | 0 <= i < |s| :: s[i] != '.' && s[i] != ';' && s[i] != '[')
  }

  /** validJVMText */
  method ValidJVMText(value: string, maximum: nat) returns (ok: bool)
    ensures ok <==> PlainText(value, maximum)
  {
    if value == "" || Length(value) > maximum { return false; }
    var i := 0;
    while i < |value|
      invariant 0 <= i <= |value|
      invariant forall j | 0 <= j < i :: value[j] as int >= 0x20 && value[j] as int != 0x7F
    {
      if value[i] as int < 0x20 || value[i] as int == 0x7F { return false; }
      i := i + 1;
    }
    return true;
  }

  /** validJVMInternalName. Its last loop, over the parts between slashes, can refuse
      nothing more: empty parts and dots are out by then. */
  method ValidJVMInternalName(value: string) returns (ok: bool)
    ensures ok <==> InternalName(value)
  {
    var text := ValidJVMText(value, 2048);
    if !text || value[0] == '/' || value[|value| - 1] == '/' { return false; }
    var i := 0;
    while i < |value|
      invariant 0 <= i <= |value|
      invariant forall j | 0 <= j < i :: value[j] != '.' && value[j] != ';' && value[j] != '['
      invariant forall j | 0 <= j < i && j + 1 < |value| :: !(value[j] == '/' && value[j + 1] == '/')
    {
      if value[i] == '.' || value[i] == ';' || value[i] == '[' { return false; }
      if i + 1 < |value| && value[i] == '/' && value[i + 1] == '/' { return false; }
      i := i + 1;
    }
    return true;
  }

  // ---------------------------------------------------------------- trees

  datatype FieldType = Primitive(code: char) | Class(name: string) | ArrayOf(element: FieldType)

  datatype MethodType = MethodType(arguments: seq<FieldType>, result: Option<FieldType>)

  predicate IsCode(c: char) { c in {'B', 'C', 'D', 'F', 'I', 'J', 'S', 'Z'} }

  function Dimensions(t: FieldType): nat {
    if t.ArrayOf? then Dimensions(t.element) + 1 else 0
  }

  predicate WellFormed(t: FieldType) {
    match t
    case Primitive(c) => IsCode(c)
    case Class(name) => InternalName(name)
    case ArrayOf(e) => WellFormed(e)
  }

  /** A field type as the specification has it. */
  predicate Proper(t: FieldType) { WellFormed(t) && Dimensions(t) <= 255 }

  function Print(t: FieldType): string {
    match t
    case Primitive(c) => [c]
    case Class(name) => ['L'] + name + [';']
    case ArrayOf(e) => ['['] + Print(e)
  }

  function PrintAll(ts: seq<FieldType>): string {
    if ts == [] then "" else Print(ts[0]) + PrintAll(ts[1..])
  }

  predicate ProperMethod(m: MethodType) {
    && (forall i | 0 <= i < |m.arguments| :: Proper(m.arguments[i]))
    && (m.result.Some? ==> Proper(m.result.value))
  }

  function PrintMethod(m: MethodType): string {
    ['('] + PrintAll(m.arguments) + [')'] + (if m.result.Some? then Print(m.result.value) else "V")
  }

  // ---------------------------------------------------------------- the parser as a function

  /** strings.IndexByte */
  function IndexOf(s: string, c: char): (r: Option<nat>)
    ensures r.Some? ==> r.value < |s| && s[r.value] == c && c !in s[..r.value]
    ensures r.None? ==> c !in s
  {
    if s == "" then None
    else if s[0] == c then Some(0)
    else
      var rest := IndexOf(s[1..], c);
      if rest.None? then None
      else
        assert s[..rest.value + 1] == [s[0]] + s[1..][..rest.value];
        Some(rest.value + 1)
  }

  /** The type at the start of a string and the characters after it; `dims` brackets have
      been read already. */
  function Parse(s: string, dims: nat): (r: Option<(FieldType, string)>)
    ensures r.Some? ==> |r.value.1| < |s|
  {
    if s == "" then None
    else if IsCode(s[0]) then Some((Primitive(s[0]), s[1..]))
    else if s[0] == 'L' then
      match IndexOf(s[1..], ';')
      case None => None
      case Some(end) =>
        if InternalName(s[1..][..end]) then Some((Class(s[1..][..end]), s[1..][end + 1..])) else None
    else if s[0] == '[' && dims < 255 then
      match Parse(s[1..], dims + 1)
      case None => None
      case Some(rest) => Some((ArrayOf(rest.0), rest.1))
    else None
  }

  /** Types up to the closing parenthesis. */
  function ParseArguments(s: string): (r: Option<(seq<FieldType>, string)>)
    ensures r.Some? ==> |r.value.1| <= |s| && r.value.1 != "" && r.value.1[0] == ')'
    decreases |s|
  {
    if s == "" then None
    else if s[0] == ')' then Some(([], s))
    else
      match Parse(s, 0)
      case None => None
      case Some(first) =>
        var rest := ParseArguments(first.1);
        if rest.Some? then Some(([first.0] + rest.value.0, rest.value.1)) else None
  }

  // ---------------------------------------------------------------- the checkers

  lemma AfterBracket(s: string, dims: nat)
    requires s != "" && s[0] == '['
    ensures dims >= 255 ==> Parse(s, dims).None?
    ensures dims < 255 ==> (Parse(s, dims).Some? <==> Parse(s[1..], dims + 1).Some?)
    ensures Parse(s, dims).Some? ==> dims < 255 && Parse(s, dims).value.1 == Parse(s[1..], dims + 1).value.1
  {}

  /** parseJVMFieldType, moving the position past the type. The brackets are counted in a
      loop; then the element follows, which is no array any more. */
  method ParseJVMFieldType(value: string, start: nat) returns (ok: bool, position: nat)
    requires start <= |value|
    ensures ok <==> Parse(value[start..], 0).Some?
    ensures ok ==> start < position <= |value| && value[position..] == Parse(value[start..], 0).value.1
  {
    hide Parse;
    position := start;
    var dimensions := 0;
    while position < |value| && value[position] == '['
      invariant start <= position <= |value| && dimensions == position - start <= 255
      invariant Parse(value[start..], 0).Some? <==> Parse(value[position..], dimensions).Some?
      invariant Parse(value[start..], 0).Some? ==>
        Parse(value[start..], 0).value.1 == Parse(value[position..], dimensions).value.1
    {
      AfterBracket(value[position..], dimensions);
      assert value[position..][1..] == value[position + 1..];
      position := position + 1;
      dimensions := dimensions + 1;
      if dimensions > 255 { return false, position; }
    }
    ok, position := ParseElement(value, position, dimensions);
  }

  /** What follows the brackets. */
  method ParseElement(value: string, position: nat, ghost dims: nat) returns (ok: bool, next: nat)
    requires position <= |value| && (position < |value| ==> value[position] != '[')
    ensures ok <==> Parse(value[position..], dims).Some?
    ensures ok ==> position < next <= |value| && value[next..] == Parse(value[position..], dims).value.1
  {
    if position >= |value| { return false, position; }
    assert value[position..][0] == value[position] && value[position..][1..] == value[position + 1..];
    if IsCode(value[position]) { return true, position + 1; }
    if value[position] == 'L' {
      var end := IndexOf(value[position + 1..], ';');
      if end.None? { return false, position; }
      var name := ValidJVMInternalName(value[position + 1..][..end.value]);
      if !name { return false, position; }
      assert value[position + 1..][end.value + 1..] == value[position + 1 + end.value + 1..];
      return true, position + 1 + end.value + 1;
    }
    return false, position;
  }

  /** validJVMFieldDescriptor */
  method ValidJVMFieldDescriptor(value: string) returns (ok: bool)
    ensures ok <==> exists t :: Proper(t) && Print(t) == value
  {
    assert value[0..] == value;
    FieldAcceptedIff(value);
    var parsed, position := ParseJVMFieldType(value, 0);
    return parsed && position == |value|;
  }

  /** validJVMMethodDescriptor */
  method ValidJVMMethodDescriptor(value: string) returns (ok: bool)
    ensures ok <==> Length(value) <= 4096 && exists m :: ProperMethod(m) && PrintMethod(m) == value
  {
    hide Parse, PrintMethod, ProperMethod;
    MethodAcceptedIff(value);
    ShortLength(value);
    if Length(value) < 3 || value[0] != '(' || Length(value) > 4096 { return false; }
    var position := 1;
    ghost var tail := ParseArguments(value[1..]);
    while position < |value| && value[position] != ')'
      invariant 1 <= position <= |value|
      invariant tail.Some? <==> ParseArguments(value[position..]).Some?
      invariant tail.Some? ==> tail.value.1 == ParseArguments(value[position..]).value.1
    {
      var parsed, next := ParseJVMFieldType(value, position);
      if !parsed { return false; }
      position := next;
    }
    if position >= |value| || value[position] != ')' { return false; }
    position := position + 1;
    assert tail.value.1 == value[position - 1..];
    assert tail.value.1[1..] == value[position..];
    if position < |value| && value[position] == 'V' {
      VoidIsNoType(value[position..]);
      position := position + 1;
      return position == |value|;
    }
    var parsed, next := ParseJVMFieldType(value, position);
    return parsed && next == |value|;
  }

  // ---------------------------------------------------------------- parsing undoes printing

  lemma {:induction false} IndexOfFirst(a: string, c: char, rest: string)
    requires c !in a
    ensures IndexOf(a + [c] + rest, c) == Some(|a|)
  {
    if a != "" {
      assert (a + [c] + rest)[1..] == a[1..] + [c] + rest;
      IndexOfFirst(a[1..], c, rest);
    }
  }

  lemma {:induction false} ParsePrint(t: FieldType, dims: nat, rest: string)
    requires WellFormed(t) && dims + Dimensions(t) <= 255
    ensures Parse(Print(t) + rest, dims) == Some((t, rest))
  {
    var s := Print(t) + rest;
    match t
    case Primitive(c) => assert s[1..] == rest;
    case Class(name) =>
      assert s[1..] == name + [';'] + rest;
      assert ';' !in name;
      IndexOfFirst(name, ';', rest);
      assert s[1..][..|name|] == name && s[1..][|name| + 1..] == rest;
    case ArrayOf(e) =>
      assert s[1..] == Print(e) + rest;
      ParsePrint(e, dims + 1, rest);
  }

  /** Whatever is parsed was printed from a proper tree. */
  lemma {:induction false} PrintParse(s: string, dims: nat)
    requires dims <= 255 && Parse(s, dims).Some?
    ensures var (t, rest) := Parse(s, dims).value;
      WellFormed(t) && dims + Dimensions(t) <= 255 && Print(t) + rest == s
    decreases |s|
  {
    if IsCode(s[0]) {
    } else if s[0] == 'L' {
      var end := IndexOf(s[1..], ';').value;
      assert s[1..] == s[1..][..end] + [';'] + s[1..][end + 1..];
    } else {
      PrintParse(s[1..], dims + 1);
    }
  }

  lemma FieldAcceptedIff(s: string)
    ensures (Parse(s, 0).Some? && Parse(s, 0).value.1 == "") <==>
            exists t :: Proper(t) && Print(t) == s
  {
    if Parse(s, 0).Some? && Parse(s, 0).value.1 == "" {
      PrintParse(s, 0);
      var t := Parse(s, 0).value.0;
      assert Proper(t) && Print(t) == s by { assert Print(t) + "" == Print(t); }
    }
    if t :| Proper(t) && Print(t) == s {
      ParsePrint(t, 0, "");
      assert Print(t) + "" == s;
    }
  }

  /** A field descriptor has one tree. */
  lemma FieldTreeUnique(t: FieldType, u: FieldType)
    requires Proper(t) && Proper(u) && Print(t) == Print(u)
    ensures t == u
  {
    ParsePrint(t, 0, "");
    ParsePrint(u, 0, "");
  }

  lemma VoidIsNoType(s: string)
    requires s != "" && s[0] == 'V'
    ensures Parse(s, 0).None?
  {}

  lemma PrintStart(t: FieldType)
    requires WellFormed(t)
    ensures Print(t) != "" && Print(t)[0] != ')' && Print(t)[0] != 'V'
  {}

  lemma {:induction false} ArgumentsPrint(ts: seq<FieldType>, rest: string)
    requires forall i | 0 <= i < |ts| :: Proper(ts[i])
    requires rest != "" && rest[0] == ')'
    ensures ParseArguments(PrintAll(ts) + rest) == Some((ts, rest))
  {
    hide Parse, Print;
    if ts == [] {
      assert PrintAll(ts) + rest == rest;
    } else {
      assert [ts[0]] + ts[1..] == ts;
      var s := PrintAll(ts) + rest;
      assert s == Print(ts[0]) + (PrintAll(ts[1..]) + rest);
      PrintStart(ts[0]);
      assert s[0] == Print(ts[0])[0];
      ParsePrint(ts[0], 0, PrintAll(ts[1..]) + rest);
      ArgumentsPrint(ts[1..], rest);
    }
  }

  lemma {:induction false} PrintArguments(s: string)
    requires ParseArguments(s).Some?
    ensures var (ts, rest) := ParseArguments(s).value;
      (forall i | 0 <= i < |ts| :: Proper(ts[i])) && PrintAll(ts) + rest == s
    decreases |s|
  {
    hide Print, Parse, Dimensions, WellFormed;
    if s[0] == ')' {
      assert PrintAll([]) + s == s;
    } else {
      PrintParse(s, 0);
      var (t, after) := Parse(s, 0).value;
      PrintArguments(after);
      var (ts, rest) := ParseArguments(after).value;
      assert PrintAll([t] + ts) == Print(t) + PrintAll(ts);
      assert PrintAll([t] + ts) + rest == Print(t) + (PrintAll(ts) + rest);
    }
  }

  /** The condition the method checker ends on. */
  predicate MethodParses(s: string) {
    && s != "" && s[0] == '('
    && ParseArguments(s[1..]).Some?
    && var rest := ParseArguments(s[1..]).value.1[1..];
       rest == "V" || (Parse(rest, 0).Some? && Parse(rest, 0).value.1 == "")
  }

  function MethodTree(s: string): MethodType
    requires MethodParses(s)
  {
    var parsed := ParseArguments(s[1..]).value;
    MethodType(parsed.0, if parsed.1[1..] == "V" then None else Some(Parse(parsed.1[1..], 0).value.0))
  }

  lemma MethodParsesPrint(m: MethodType)
    requires ProperMethod(m)
    ensures MethodParses(PrintMethod(m)) && MethodTree(PrintMethod(m)) == m
  {
    hide Print, PrintAll, Parse, ParseArguments, WellFormed, Dimensions;
    var s := PrintMethod(m);
    var result := if m.result.Some? then Print(m.result.value) else "V";
    var rest := [')'] + result;
    assert s[1..] == PrintAll(m.arguments) + rest;
    ArgumentsPrint(m.arguments, rest);
    assert rest[1..] == result;
    if m.result.Some? { ResultPrint(m.result.value); }
  }

  lemma ResultPrint(t: FieldType)
    requires Proper(t)
    ensures Print(t) != "V" && Parse(Print(t), 0) == Some((t, ""))
  {
    hide Print, Parse;
    PrintStart(t);
    ParsePrint(t, 0, "");
    assert Print(t) + "" == Print(t);
  }

  lemma MethodPrintParses(s: string)
    requires MethodParses(s)
    ensures ProperMethod(MethodTree(s)) && PrintMethod(MethodTree(s)) == s
  {
    hide Print, PrintAll, Parse, ParseArguments, Dimensions, WellFormed;
    PrintArguments(s[1..]);
    var (ts, rest) := ParseArguments(s[1..]).value;
    if rest[1..] != "V" {
      PrintParse(rest[1..], 0);
      var t := Parse(rest[1..], 0).value.0;
      assert Print(t) + "" == Print(t);
    }
    assert rest == [')'] + rest[1..];
    assert s == ['('] + s[1..];
    assert PrintMethod(MethodTree(s)) == ['('] + (PrintAll(ts) + ([')'] + rest[1..]));
  }

  lemma MethodAcceptedIff(s: string)
    ensures MethodParses(s) <==> exists m :: ProperMethod(m) && PrintMethod(m) == s
  {
    if MethodParses(s) { MethodPrintParses(s); }
    if m :| ProperMethod(m) && PrintMethod(m) == s { MethodParsesPrint(m); }
  }

  /** A method descriptor has one tree. */
  lemma MethodTreeUnique(m: MethodType, n: MethodType)
    requires ProperMethod(m) && ProperMethod(n) && PrintMethod(m) == PrintMethod(n)
    ensures m == n
  {
    MethodParsesPrint(m);
    MethodParsesPrint(n);
  }

  lemma {:induction false} LengthAtLeast(s: string)
    ensures Length(s) >= |s|
  {
    if s != "" { LengthAtLeast(s[..|s| - 1]); }
  }

  /** No method descriptor is shorter than three bytes. */
  lemma ShortLength(s: string)
    ensures Length(s) < 3 ==> !MethodParses(s)
  {
    LengthAtLeast(s);
    if MethodParses(s) { MethodPrintParses(s); }
  }
}
