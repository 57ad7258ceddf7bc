/** What a listing and an output tree have to be, in terms of lines and paths: which lines make
    a member, which members make a manifest, and which files and directories agree with it.
    Nothing here uses the functions that the sandbox is proved against; that they agree is
    proved below. */
module SandboxRules {
  import opened Counting
  import opened Words
  import opened JvmDescriptors
  import opened Texts
  import opened PathNames
  import opened JvmArchiveEntries
  import opened SandboxPreflight
  import opened Splitting
  import BytecodeContract

  // ---------------------------------------------------------------- paths

  /** An ordinary relative path of at most 2048 bytes, no component of which has more than 255
      bytes or a control character, and which is no drive. */
  ghost predicate PathAllowed(s: string) {
    && Length(s) <= 2048 && '\\' !in s && !Drive(s)
    && exists ps :: Ordinary(ps) && s == Slashed(ps) && AllPrintable(ps)
  }

  predicate AllPrintable(ps: seq<string>) {
    forall i | 0 <= i < |ps| :: Length(ps[i]) <= 255 && forall j | 0 <= j < |ps[i]| :: !Controls(ps[i][j])
  }

  predicate Controls(c: char) { '\U{0}' <= c <= '\U{1F}' || '\U{7F}' <= c <= '\U{9F}' }

  lemma PathIff(s: string)
    ensures OutputPath(s) <==> PathAllowed(s)
  {
    hide Parts, Slashed, Length;
    PartsJoin(s);
    var parts := Parts(s);
    if OutputPath(s) {
      forall i | 0 <= i < |parts| ensures ProperPart(parts[i]) && '/' !in parts[i] && Length(parts[i]) <= 255 &&
                                          forall j | 0 <= j < |parts[i]| :: !Controls(parts[i][j]) {
        assert parts[i] in parts;
      }
      assert Ordinary(parts) && AllPrintable(parts);
    }
    if PathAllowed(s) {
      var ps :| Ordinary(ps) && s == Slashed(ps) && AllPrintable(ps);
      PartsIff(s, ps);
      forall p | p in ps ensures ProperPart(p) && Length(p) <= 255 && forall j | 0 <= j < |p| :: !Control(p[j]) {
        var i :| 0 <= i < |ps| && ps[i] == p;
      }
    }
  }

  // ---------------------------------------------------------------- members

  predicate Known(key: string) {
    || key == "Path" || key == "Size" || key == "Packed Size" || key == "Modified" || key == "Attributes"
    || key == "CRC" || key == "Encrypted" || key == "Method" || key == "Block"
  }

  /** A line that gives a field its value. */
  predicate Says(line: string, key: string, value: string) { line == key + " = " + value }

  ghost predicate HasField(lines: seq<string>, key: string, value: string) {
    exists i | 0 <= i < |lines| :: Says(lines[i], key, value)
  }

  /** Every line gives one of the known fields a value, and no two the same field. */
  ghost predicate OnlyFields(lines: seq<string>) {
    && (forall i | 0 <= i < |lines| :: SomeField(lines[i]))
    && forall i, j | 0 <= i < j < |lines| :: Apart(lines[i], lines[j])
  }

  ghost predicate SomeField(line: string) { exists key, value :: Known(key) && Says(line, key, value) }

  ghost predicate Apart(a: string, b: string) {
    forall key, v, w | Known(key) && Says(a, key, v) :: !Says(b, key, w)
  }

  /** A number of 63 bits in decimal, behind any zeros and perhaps a plus sign, or a zero behind
      a minus sign. */
  ghost predicate SizeText(text: string, size: int) {
    && 0 <= size <= 0x7FFF_FFFF_FFFF_FFFF
    && exists sign: string, zeros: string :: SizeSpelled(text, size, sign, zeros)
  }

  predicate SizeSpelled(text: string, size: nat, sign: string, zeros: string) {
    && (forall i | 0 <= i < |zeros| :: zeros[i] == '0') && text == sign + zeros + Decimal(size)
    && (sign == "" || sign == "+" || (sign == "-" && size == 0))
  }

  /** The member of a block: its path is the Path; its size is the Size; it is a directory if the
      Attributes have a D, and then its size is zero; it is no link and no special member, and not
      encrypted, which a 7z listing has to say. */
  ghost predicate MemberRule(lines: seq<string>, req: Request, item: Item) {
    && OnlyFields(lines) && HasField(lines, "Path", item.path) && PathAllowed(item.path)
    && (exists text :: HasField(lines, "Size", text) && SizeText(text, item.size as int))
    && (exists a :: HasField(lines, "Attributes", a) && (item.directory <==> 'D' in a) && 'l' !in a && 'L' !in a &&
                    ('r' in a ==> '-' in a))
    && (if item.directory then item.size == 0 else item.size <= req.maxEntryBytes)
    && (forall e :: HasField(lines, "Encrypted", e) ==> e == "-")
    && (req.sevenZip ==> HasField(lines, "Encrypted", "-"))
  }

  lemma KnownIff(key: string)
    ensures key in KEYS <==> Known(key)
  {}

  /** No known key has the separator in it, or runs into it. */
  lemma KeyFirst(key: string, value: string)
    requires Known(key)
    ensures FirstAt(key + " = " + value, " = ", |key|)
  {
    var s := key + " = " + value;
    assert s[|key|..|key| + 3] == " = ";
    forall j | 0 <= j < |key| ensures !Occurs(s, " = ", j) {
      if Occurs(s, " = ", j) {
        assert s[j + 1] == s[j..j + 3][1] == '=';
        assert j + 1 < |key| ==> key[j + 1] == '=';
        NoEquals(key);
      }
    }
  }

  lemma NoEquals(key: string)
    requires Known(key)
    ensures '=' !in key
  {}

  lemma SaysIff(line: string, key: string, value: string)
    requires Known(key)
    ensures Cut(line, " = ") == Some((key, value)) <==> Says(line, key, value)
  {
    hide Occurs;
    CutIff(line, " = ", key, value);
    if Says(line, key, value) { KeyFirst(key, value); }
    if Cut(line, " = ") == Some((key, value)) {
      FirstFits(line, " = ", |key|);
      assert Occurs(line, " = ", |key|);
      OccursHere(line, " = ", |key|);
      assert line == line[..|key|] + line[|key|..|key| + 3] + line[|key| + 3..];
    }
  }

  lemma OccursHere(s: string, separator: string, i: nat)
    requires Occurs(s, separator, i)
    ensures i + |separator| <= |s| && s[i..i + |separator|] == separator
  {}

  // ---------------------------------------------------------------- numbers

  lemma DigitsAre(size: nat, zeros: string)
    requires forall i | 0 <= i < |zeros| :: zeros[i] == '0'
    ensures DigitsOnly(zeros + Decimal(size)) && Value(zeros + Decimal(size)) == size
  {
    hide Decimal, Value;
    var digits := Decimal(size);
    ValueOfDecimal(size);
    assert zeros == Zeros(|zeros|);
    ZerosCountNothing(|zeros|, digits);
    forall i | 0 <= i < |zeros + digits| ensures '0' <= (zeros + digits)[i] <= '9' {
      if i >= |zeros| { assert (zeros + digits)[i] == digits[i - |zeros|]; }
    }
  }

  lemma SpelledIsRead(text: string, size: nat, sign: string, zeros: string)
    requires SizeSpelled(text, size, sign, zeros)
    ensures Atoi(text) == Some(size)
  {
    hide Decimal, Value, DigitsOnly;
    DigitsAre(size, zeros);
    var digits := zeros + Decimal(size);
    assert text == sign + digits;
    if sign == "" {
      assert text == digits;
    } else {
      assert text[0] == sign[0] && text[1..] == digits;
      SignIsNoDigit(text);
    }
  }

  lemma SignIsNoDigit(text: string)
    requires text != "" && (text[0] == '+' || text[0] == '-')
    ensures !DigitsOnly(text)
  {}

  lemma ReadIsSpelled(text: string, size: nat)
    requires Atoi(text) == Some(size)
    ensures exists sign: string, zeros: string :: SizeSpelled(text, size, sign, zeros)
  {
    hide Decimal, Value;
    if DigitsOnly(text) {
      var k := LeadingZeros(text);
      assert text == "" + Zeros(k) + Decimal(size);
      assert SizeSpelled(text, size, "", Zeros(k));
    } else {
      var k := LeadingZeros(text[1..]);
      assert text == [text[0]] + text[1..] == [text[0]] + Zeros(k) + Decimal(Value(text[1..]));
      assert SizeSpelled(text, size, [text[0]], Zeros(k));
    }
  }

  lemma SizeIff(text: string, size: int)
    requires 0 <= size <= 0x7FFF_FFFF_FFFF_FFFF
    ensures Atoi(text) == Some(size) <==> SizeText(text, size)
  {
    hide Atoi, SizeSpelled;
    if Atoi(text) == Some(size) { ReadIsSpelled(text, size); }
    if SizeText(text, size) {
      var sign: string, zeros: string :| SizeSpelled(text, size, sign, zeros);
      SpelledIsRead(text, size, sign, zeros);
    }
  }

  // ---------------------------------------------------------------- fields

  /** The fields that were read are those that the lines give. */
  ghost predicate AreFields(lines: seq<string>, fields: map<string, string>) {
    forall key, value :: key in fields && fields[key] == value <==> Known(key) && HasField(lines, key, value)
  }

  lemma {:induction false} FieldsAre(lines: seq<string>)
    ensures Fields(lines).Some? <==> OnlyFields(lines)
    ensures Fields(lines).Some? ==> AreFields(lines, Fields(lines).value)
  {
    hide Known, Says, Cut;
    if lines != [] {
      var front, line := lines[..|lines| - 1], lines[|lines| - 1];
      FieldsAre(front);
      if OnlyFields(lines) { FrontOnly(lines); }
      if Fields(front).Some? { LastField(lines, Fields(front).value); }
    }
  }

  lemma FrontOnly(lines: seq<string>)
    requires lines != [] && OnlyFields(lines)
    ensures OnlyFields(lines[..|lines| - 1])
  {
    hide SomeField, Apart;
  }

  /** The line gives this field its value, and no other. */
  ghost predicate SaysOnly(line: string, key: string, value: string) {
    && Known(key) && Says(line, key, value)
    && forall k, v | Known(k) && Says(line, k, v) :: k == key && v == value
  }

  lemma LineIs(line: string)
    ensures match Cut(line, " = ")
      case Some((key, value)) => if key in KEYS then SaysOnly(line, key, value) else !SomeField(line)
      case None => !SomeField(line)
  {
    hide Known, Says, Cut;
    forall k, v | Known(k) ensures Says(line, k, v) <==> Cut(line, " = ") == Some((k, v)) { SaysIff(line, k, v); }
    match Cut(line, " = ")
    case None =>
    case Some((key, value)) => KnownIff(key);
  }

  lemma LastField(lines: seq<string>, fields: map<string, string>)
    requires lines != [] && OnlyFields(lines[..|lines| - 1]) && AreFields(lines[..|lines| - 1], fields)
    ensures match Cut(lines[|lines| - 1], " = ")
      case Some((key, value)) =>
        && (OnlyFields(lines) <==> key in KEYS && key !in fields)
        && (OnlyFields(lines) ==> AreFields(lines, fields[key := value]))
      case None => !OnlyFields(lines)
  {
    hide Known, Says, Cut, SomeField, Apart, AreFields, HasField;
    var n := |lines| - 1;
    LineIs(lines[n]);
    match Cut(lines[n], " = ")
    case None =>
    case Some((key, value)) =>
      if key in KEYS {
        if key in fields { OldField(lines, fields, key, value); } else { NewField(lines, fields, key, value); }
      }
  }

  /** A line that gives a field for the second time. */
  lemma OldField(lines: seq<string>, fields: map<string, string>, key: string, value: string)
    requires lines != [] && AreFields(lines[..|lines| - 1], fields) && key in fields
    requires SaysOnly(lines[|lines| - 1], key, value)
    ensures !OnlyFields(lines)
  {
    hide Known, Says;
    var n := |lines| - 1;
    assert HasField(lines[..n], key, fields[key]);
    var i :| 0 <= i < n && Says(lines[..n][i], key, fields[key]);
    assert !Apart(lines[i], lines[n]);
  }

  /** A line that gives a field for the first time. */
  lemma NewField(lines: seq<string>, fields: map<string, string>, key: string, value: string)
    requires lines != [] && OnlyFields(lines[..|lines| - 1]) && AreFields(lines[..|lines| - 1], fields)
    requires key !in fields && SaysOnly(lines[|lines| - 1], key, value)
    ensures OnlyFields(lines) && AreFields(lines, fields[key := value])
  {
    hide Known, Says;
    var n := |lines| - 1;
    var front := lines[..n];
    forall i, j | 0 <= i < j < |lines| ensures Apart(lines[i], lines[j]) {
      if j == n {
        forall k, v, w | Known(k) && Says(lines[i], k, v) ensures !Says(lines[n], k, w) { assert Says(front[i], k,
            v); assert HasField(front, k, v); }
      } else {
        assert Apart(front[i], front[j]);
      }
    }
    forall i | 0 <= i < |lines| ensures SomeField(lines[i]) {
      if i < n { assert SomeField(front[i]); }
    }
    forall k, v ensures k in fields[key := value] && fields[key := value][k] == v <==> Known(k) && HasField(lines, k, v) {
      OneMoreLine(lines, k, v);
    }
  }

  lemma OneMoreLine(lines: seq<string>, key: string, value: string)
    requires lines != []
    ensures HasField(lines, key, value) <==>
            HasField(lines[..|lines| - 1], key, value) || Says(lines[|lines| - 1], key, value)
  {
    hide Says;
    var n := |lines| - 1;
    if HasField(lines[..n], key, value) {
      var i :| 0 <= i < n && Says(lines[..n][i], key, value);
      assert Says(lines[i], key, value);
    }
    if HasField(lines, key, value) {
      var i :| 0 <= i < |lines| && Says(lines[i], key, value);
      if i < n { assert Says(lines[..n][i], key, value); }
    }
  }

  lemma FieldIs(lines: seq<string>, fields: map<string, string>, key: string)
    requires AreFields(lines, fields) && Known(key)
    ensures key in fields ==> HasField(lines, key, fields[key])
    ensures forall value | HasField(lines, key, value) :: key in fields && fields[key] == value
  {
    hide HasField;
  }

  lemma ItemIff(lines: seq<string>, fields: map<string, string>, req: Request, item: Item)
    requires OnlyFields(lines) && AreFields(lines, fields)
    ensures ItemOf(fields, req) == Some(item) <==> MemberRule(lines, req, item)
  {
    hide OutputPath, Atoi, HasField, OnlyFields, AreFields, PathAllowed, SizeText;
    FieldIs(lines, fields, "Path");
    FieldIs(lines, fields, "Size");
    FieldIs(lines, fields, "Attributes");
    FieldIs(lines, fields, "Encrypted");
    PathIff(item.path);
    if "Size" in fields {
      SizeTextIff(fields["Size"], item.size as int);
    }
  }

  lemma SizeTextIff(text: string, size: int)
    ensures SizeText(text, size) <==> 0 <= size <= 0x7FFF_FFFF_FFFF_FFFF && Atoi(text) == Some(size)
  {
    hide Atoi;
    if 0 <= size <= 0x7FFF_FFFF_FFFF_FFFF { SizeIff(text, size); }
  }

  // ---------------------------------------------------------------- the listing

  /** The lines of a block make this member. */
  ghost predicate BlockRule(block: string, req: Request, item: Item) {
    exists lines :: IsSplit(block, "\n", lines) && MemberRule(lines, req, item)
  }

  lemma ReadIff(block: string, req: Request, item: Item)
    ensures Read(block, req) == Some(item) <==> BlockRule(block, req, item)
  {
    hide SplitOn, IsSplit, MemberRule, Fields, ItemOf;
    var lines := SplitOn(block, "\n");
    SplitIff(block, "\n", lines);
    FieldsAre(lines);
    if Fields(lines).Some? {
      ItemIff(lines, Fields(lines).value, req, item);
    } else {
      NoMember(lines, req, item);
    }
    forall other | IsSplit(block, "\n", other) ensures other == lines { SplitIff(block, "\n", other); }
  }

  lemma NoMember(lines: seq<string>, req: Request, item: Item)
    requires !OnlyFields(lines)
    ensures !MemberRule(lines, req, item)
  {}

  predicate White(s: string) { forall i | 0 <= i < |s| :: WhiteSpace(s[i]) }

  predicate WhiteSpace(c: char) {
    c in "\t\n\U{B}\U{C}\r \U{85}\U{A0}\U{1680}\U{2028}\U{2029}\U{202F}\U{205F}\U{3000}" || '\U{2000}' <= c <= '\U{200A}'
  }

  lemma WhiteIff(s: string)
    ensures Blank(s) <==> White(s)
  {
    forall c: char ensures Space(c) <==> WhiteSpace(c) { SpaceIff(c); }
  }

  lemma SpaceIff(c: char)
    ensures Space(c) <==> WhiteSpace(c)
  {}

  /** The members of the blocks that are not white, in their order. */
  ghost predicate Members(blocks: seq<string>, req: Request, items: seq<Item>)
    decreases |blocks|
  {
    if blocks == [] then items == []
    else
      var front, last := blocks[..|blocks| - 1], blocks[|blocks| - 1];
      if White(last) then Members(front, req, items)
      else items != [] && BlockRule(last, req, items[|items| - 1]) && Members(front, req, items[..|items| - 1])
  }

  function Sum(items: seq<Item>): int { if items == [] then 0 else Sum(items[..|items| - 1]) + items[|items| - 1].size as int }

  /** No more members, and no more bytes, than asked for, and no path twice. */
  predicate Limited(items: seq<Item>, req: Request) {
    && |items| <= req.maxEntries && Sum(items) <= req.maxExpandedBytes as int
    && forall i, j | 0 <= i < j < |items| :: items[i].path != items[j].path
  }

  /** The text of a listing: line ends of two characters become one, and there is no other
      carriage return; line ends at the end are left out. */
  ghost predicate TextOf(listing: string, text: string) {
    exists lines :: IsSplit(listing, "\r\n", lines) && NoReturn(lines) && IsTrimmed(Glued(lines, "\n"), text)
  }

  predicate NoReturn(lines: seq<string>) { forall i | 0 <= i < |lines| :: '\r' !in lines[i] }

  /** The manifest of a listing: nothing for a white one; otherwise the members of its blocks,
      which an empty line parts. */
  ghost predicate ListingRule(listing: string, req: Request, items: seq<Item>) {
    && '\0' !in listing && Limited(items, req)
    && if White(listing) then items == []
       else exists text, blocks :: TextOf(listing, text) && IsSplit(text, "\n\n", blocks) && Members(blocks, req, items)
  }

  lemma {:induction false} MembersIff(blocks: seq<string>, req: Request, items: seq<Item>)
    ensures Members(blocks, req, items) <==> AllRead(blocks, req) && items == Items(blocks, req)
    decreases |blocks|
  {
    hide Read, BlockRule, White, Blank;
    if blocks != [] {
      var n := |blocks| - 1;
      var front, last := blocks[..n], blocks[n];
      WhiteIff(last);
      LastRead(blocks, req);
      if Blank(last) {
        MembersIff(front, req, items);
      } else {
        if items != [] {
          MembersIff(front, req, items[..|items| - 1]);
          ReadIff(last, req, items[|items| - 1]);
          assert items == items[..|items| - 1] + [items[|items| - 1]];
        }
      }
    }
  }

  lemma LastRead(blocks: seq<string>, req: Request)
    requires blocks != []
    ensures var n := |blocks| - 1;
      AllRead(blocks, req) <==> AllRead(blocks[..n], req) && (!Blank(blocks[n]) ==> Read(blocks[n], req).Some?)
  {
    hide Read, Blank;
    var n := |blocks| - 1;
    assert forall i | 0 <= i < n :: blocks[..n][i] == blocks[i];
  }

  lemma {:induction false} SumIs(items: seq<Item>)
    ensures Sum(items) == Total(items)
  {
    if items != [] { SumIs(items[..|items| - 1]); }
  }

  lemma LimitedIff(items: seq<Item>, req: Request)
    ensures Limited(items, req) <==> Within(items, req)
  {
    SumIs(items);
    var paths := PathsOf(items);
    assert forall i | 0 <= i < |items| :: paths[i] == items[i].path;
  }

  lemma {:induction false} ReturnsIn(parts: seq<string>)
    ensures '\r' !in Glued(parts, "") <==> NoReturn(parts)
  {
    if |parts| > 1 {
      ReturnsIn(parts[1..]);
      assert forall i | 1 <= i < |parts| :: parts[i] == parts[1..][i - 1];
      assert Glued(parts, "") == parts[0] + "" + Glued(parts[1..], "");
    }
  }

  lemma TextIff(listing: string, text: string)
    ensures TextOf(listing, text) <==>
      '\r' !in ReplaceLineEnds(listing, "") && text == TrimNewlines(ReplaceLineEnds(listing, "\n"))
  {
    hide IsSplit, SplitOn, Glued, ReplaceLineEnds, TrimNewlines, IsTrimmed, NoReturn;
    var lines := SplitOn(listing, "\r\n");
    SplitIff(listing, "\r\n", lines);
    ReplacedIs(listing, "");
    ReplacedIs(listing, "\n");
    ReturnsIn(lines);
    TrimIff(Glued(lines, "\n"), text);
    forall other | IsSplit(listing, "\r\n", other) ensures other == lines { SplitIff(listing, "\r\n", other); }
  }

  /** A listing has exactly one manifest if it is accepted, and none if it is not. */
  lemma ListingIff(listing: string, req: Request, items: seq<Item>)
    requires 0 < req.maxExpandedBytes
    ensures ListingRule(listing, req, items) <==>
      && Readable(listing) && AllRead(Blocks(listing), req) && Within(Items(Blocks(listing), req), req)
      && items == Items(Blocks(listing), req)
  {
    hide White, Blank, TextOf, IsSplit, Members, AllRead, Items, Within, Limited, SplitOn, ReplaceLineEnds, TrimNewlines;
    WhiteIff(listing);
    LimitedIff(items, req);
    if Blank(listing) {
      NothingRead(req);
    } else {
      var text := TrimNewlines(ReplaceLineEnds(listing, "\n"));
      TextIff(listing, text);
      var blocks := SplitOn(text, "\n\n");
      SplitIff(text, "\n\n", blocks);
      MembersIff(blocks, req, items);
      forall t, bs | TextOf(listing, t) && IsSplit(t, "\n\n", bs) ensures t == text && bs == blocks {
        TextIff(listing, t);
        SplitIff(t, "\n\n", bs);
      }
    }
  }

  lemma NothingRead(req: Request)
    ensures AllRead([], req) && Items([], req) == []
  {}

  // ---------------------------------------------------------------- the output tree

  predicate ListsFile(items: seq<Item>, name: string, size: int64) {
    exists i | 0 <= i < |items| :: !items[i].directory && items[i].path == name && items[i].size == size
  }

  /** A directory is listed itself, or a listed file lies somewhere in it. */
  predicate HasReason(item: Item, name: string) {
    if item.directory then item.path == name else |name| < |item.path| && item.path[..|name| + 1] == name + "/"
  }

  predicate ListsDirectory(items: seq<Item>, name: string) {
    exists i | 0 <= i < |items| :: HasReason(items[i], name)
  }

  /** The files are the listed ones with their sizes, and every directory has a reason. */
  ghost predicate TreeRule(tree: map<string, Node>, items: seq<Item>) {
    && (forall name, size :: HasFile(tree, name, size) <==> ListsFile(items, name, size))
    && forall name | name in tree && tree[name] == Directory :: ListsDirectory(items, name)
  }

  predicate HasFile(tree: map<string, Node>, name: string, size: int64) { name in tree && tree[name] == File(size) }

  lemma LeadsIff(name: string, path: string)
    ensures LeadsTo(name, path) <==> |name| < |path| && path[..|name| + 1] == name + "/"
  {
    if |name| < |path| { assert path[..|name| + 1] == path[..|name|] + [path[|name|]]; }
  }

  lemma ReasonIff(item: Item, name: string)
    requires OutputPath(item.path)
    ensures Accounts(item, name) <==> HasReason(item, name)
  {
    hide OutputPath, Ancestors, LeadsTo;
    OutputPathIsProper(item.path);
    AncestorsArePrefixes(item.path, name);
    LeadsIff(name, item.path);
  }

  lemma DirectoryIff(items: seq<Item>, name: string)
    requires forall i | 0 <= i < |items| :: OutputPath(items[i].path)
    ensures name in Expected(items) <==> ListsDirectory(items, name)
  {
    hide OutputPath, Accounts, HasReason, Expected;
    DirectoriesAccounted(items, name);
    forall i | 0 <= i < |items| ensures Accounts(items[i], name) <==> HasReason(items[i], name) { ReasonIff(items[i], name); }
  }

  predicate Maps(files: map<string, int64>, name: string, size: int64) { name in files && files[name] == size }

  lemma FileIff(items: seq<Item>, name: string, size: int64)
    requires BytecodeContract.NoRepeats(PathsOf(items))
    ensures Maps(Listed(items), name, size) <==> ListsFile(items, name, size)
  {
    hide BytecodeContract.NoRepeats, PathsOf, Listed;
    ListedMembers(items);
  }

  /** The output is accepted exactly if its tree is the one that the members describe. */
  lemma TreeIff(tree: map<string, Node>, listing: string, req: Request)
    requires Within(Items(Blocks(listing), req), req)
    ensures Agrees(tree, Items(Blocks(listing), req)) <==> TreeRule(tree, Items(Blocks(listing), req))
  {
    hide Items, Blocks, Listed, Expected, ListsFile, ListsDirectory, OutputPath, BytecodeContract.NoRepeats, Maps, Files, HasFile;
    var items := Items(Blocks(listing), req);
    SizesAreNatural(Blocks(listing), req);
    forall name, size ensures Maps(Listed(items), name, size) <==> ListsFile(items, name, size) {
      FileIff(items, name, size);
    }
    forall name, size ensures Maps(Files(tree), name, size) <==> HasFile(tree, name, size) { HasFileIff(tree, name, size); }
    forall name ensures name in Expected(items) <==> ListsDirectory(items, name) { DirectoryIff(items, name); }
    SameMap(Files(tree), Listed(items));
  }

  lemma HasFileIff(tree: map<string, Node>, name: string, size: int64)
    ensures Maps(Files(tree), name, size) <==> HasFile(tree, name, size)
  {}

  /** Two maps are one exactly if they agree on every key and value. */
  lemma SameMap(a: map<string, int64>, b: map<string, int64>)
    ensures a == b <==> forall name, size :: Maps(a, name, size) <==> Maps(b, name, size)
  {
    if forall name, size :: Maps(a, name, size) <==> Maps(b, name, size) {
      forall name ensures name in a <==> name in b {
        if name in a { assert Maps(a, name, a[name]); }
        if name in b { assert Maps(b, name, b[name]); }
      }
      forall name | name in a ensures a[name] == b[name] { assert Maps(a, name, a[name]); }
      assert a == b;
    }
  }
}
