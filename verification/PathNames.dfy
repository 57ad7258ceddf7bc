/** Slash-separated paths: the components of a path, and the shortest path that `path.Clean`
    makes of it by dropping empty components and dots and by going up where it can. */
module PathNames {
  import opened Texts
  import opened JvmArchiveEntries

  /** The components with a slash between them. */
  function Slashed(ps: seq<string>): string {
    if ps == [] then "" else if |ps| == 1 then ps[0] else Slashed(ps[..|ps| - 1]) + "/" + ps[|ps| - 1]
  }

  predicate SlashFree(ps: seq<string>) { forall p | p in ps :: '/' !in p }

  lemma {:induction false} PartsJoin(s: string)
    ensures Slashed(Parts(s)) == s && SlashFree(Parts(s))
  {
    if s != "" {
      var front, c := Parts(s[..|s| - 1]), s[|s| - 1];
      PartsJoin(s[..|s| - 1]);
      var ps := Parts(s);
      if c == '/' {
        assert ps[..|ps| - 1] == front;
      } else {
        assert ps[..|ps| - 1] == front[..|front| - 1];
        forall p | p in ps ensures '/' !in p {
          var i :| 0 <= i < |ps| && ps[i] == p;
          assert front[i] in front;
        }
      }
      assert s == s[..|s| - 1] + [c];
    }
  }

  lemma LastGrows(front: seq<string>, last: string, c: char)
    ensures Slashed(front + [last + [c]]) == Slashed(front + [last]) + [c]
  {
    assert (front + [last])[..|front|] == front && (front + [last + [c]])[..|front|] == front;
    assert Slashed(front) + "/" + (last + [c]) == Slashed(front) + "/" + last + [c];
  }

  lemma PartsGrow(s: string, c: char)
    ensures var front := Parts(s);
      Parts(s + [c]) == if c == '/' then front + [""] else front[..|front| - 1] + [front[|front| - 1] + [c]]
  {
    assert (s + [c])[..|s|] == s;
  }

  lemma {:induction false} PartsOfJoined(ps: seq<string>)
    requires ps != [] && SlashFree(ps)
    ensures Parts(Slashed(ps)) == ps
    decreases |ps|, |ps[|ps| - 1]|
  {
    hide Parts, Slashed;
    var front, last := ps[..|ps| - 1], ps[|ps| - 1];
    assert ps == front + [last] && last in ps;
    if last != "" {
      var shorter, c := last[..|last| - 1], last[|last| - 1];
      assert last == shorter + [c] && c in last;
      PartsOfJoined(front + [shorter]);
      LastGrows(front, shorter, c);
      PartsGrow(Slashed(front + [shorter]), c);
    } else if front != [] {
      PartsOfJoined(front);
      EmptyAppended(front);
      PartsGrow(Slashed(front), '/');
    } else {
      EmptyAlone();
    }
  }

  lemma EmptyAlone()
    ensures Parts(Slashed([""])) == [""]
  {}

  lemma EmptyAppended(front: seq<string>)
    requires front != []
    ensures Slashed(front + [""]) == Slashed(front) + "/"
  {
    assert (front + [""])[..|front|] == front;
  }

  /** The parts of a path are its slash-free components. */
  lemma PartsIff(s: string, ps: seq<string>)
    ensures Parts(s) == ps <==> ps != [] && SlashFree(ps) && Slashed(ps) == s
  {
    hide Parts, Slashed, SlashFree;
    PartsJoin(s);
    if ps != [] && SlashFree(ps) { PartsOfJoined(ps); }
  }

  /** A relative path of ordinary names. */
  predicate Ordinary(ps: seq<string>) {
    ps != [] && forall i | 0 <= i < |ps| :: ps[i] != "" && ps[i] != "." && ps[i] != ".." && '/' !in ps[i]
  }

  ghost predicate OrdinaryPath(s: string) { exists ps :: Ordinary(ps) && s == Slashed(ps) }

  lemma OrdinaryIff(s: string)
    ensures (forall p | p in Parts(s) :: ProperPart(p)) <==> OrdinaryPath(s)
  {
    hide Parts, Slashed;
    PartsJoin(s);
    if forall p | p in Parts(s) :: ProperPart(p) {
      var ps := Parts(s);
      forall i | 0 <= i < |ps| ensures ps[i] != "" && ps[i] != "." && ps[i] != ".." && '/' !in ps[i] {
        assert ps[i] in ps;
      }
      assert Ordinary(ps);
    }
    if OrdinaryPath(s) {
      var ps :| Ordinary(ps) && s == Slashed(ps);
      PartsIff(s, ps);
    }
  }

  /** A letter and a colon come first. */
  predicate Drive(s: string) {
    |s| >= 2 && ('A' <= s[0] <= 'Z' || 'a' <= s[0] <= 'z') && s[1] == ':'
  }

  // ---------------------------------------------------------------- path.Clean

  /** The components that are left: going up takes the one before away, stays at a root, and is
      kept at the beginning of a relative path. */
  function Kept(ps: seq<string>, rooted: bool): seq<string> {
    if ps == [] then []
    else
      var kept, p := Kept(ps[..|ps| - 1], rooted), ps[|ps| - 1];
      if p == "" || p == "." then kept
      else if p != ".." then kept + [p]
      else if kept != [] && kept[|kept| - 1] != ".." then kept[..|kept| - 1]
      else if rooted then kept
      else kept + [".."]
  }

  predicate Rooted(s: string) { s != "" && s[0] == '/' }

  /** path.Clean */
  function Clean(s: string): string {
    var body := Slashed(Kept(Parts(s), Rooted(s)));
    if Rooted(s) then "/" + body else if body == "" then "." else body
  }

  /** What is left: names, behind a run of ".." in a relative path. */
  predicate Tidy(ps: seq<string>, rooted: bool) {
    && (forall i | 0 <= i < |ps| :: ps[i] != "" && ps[i] != "." && '/' !in ps[i] && (rooted ==> ps[i] != ".."))
    && forall i, j | 0 <= i < j < |ps| && ps[j] == ".." :: ps[i] == ".."
  }

  lemma {:induction false} KeptIsTidy(ps: seq<string>, rooted: bool)
    requires SlashFree(ps)
    ensures Tidy(Kept(ps, rooted), rooted)
  {
    if ps != [] {
      assert ps[|ps| - 1] in ps;
      KeptIsTidy(ps[..|ps| - 1], rooted);
    }
  }

  /** Nothing is taken away from what is tidy. */
  lemma {:induction false} TidyIsKept(ps: seq<string>, rooted: bool)
    requires Tidy(ps, rooted)
    ensures Kept(ps, rooted) == ps
  {
    if ps != [] {
      TidyIsKept(ps[..|ps| - 1], rooted);
      assert ps == ps[..|ps| - 1] + [ps[|ps| - 1]];
    }
  }

  lemma {:induction false} UpsDropped(ps: seq<string>)
    ensures Tidy(ps, false) && ps != [] ==> forall p | p in DropUps(ps) :: ProperPart(p)
    ensures SlashFree(ps) && (forall p | p in DropUps(ps) :: ProperPart(p)) ==> Tidy(ps, false)
  {
    if ps != [] && ps[0] == ".." {
      var rest := ps[1..];
      UpsDropped(rest);
      assert ps == [ps[0]] + rest;
      if Tidy(ps, false) {
        forall i, j | 0 <= i < j < |rest| && rest[j] == ".." ensures rest[i] == ".." { assert ps[j + 1] == ".."; }
        assert forall i | 0 <= i < |rest| :: rest[i] == ps[i + 1];
      }
      if SlashFree(ps) {
        forall p | p in rest ensures '/' !in p { assert p in ps; }
      }
    } else if ps != [] {
      if Tidy(ps, false) {
        forall p | p in ps ensures ProperPart(p) {
          var i :| 0 <= i < |ps| && ps[i] == p;
        }
      }
      if SlashFree(ps) && forall p | p in ps :: ProperPart(p) {
        forall i | 0 <= i < |ps| ensures ps[i] in ps {}
      }
    }
  }

  lemma {:induction false} BehindRoot(s: string)
    requires Rooted(s)
    ensures Parts(s) == [""] + Parts(s[1..])
  {
    var rest := Parts(s[1..]);
    PartsJoin(s[1..]);
    RootSlashed(rest);
    PartsIff(s, [""] + rest);
    assert s == "/" + s[1..];
  }

  lemma {:induction false} RootSlashed(ps: seq<string>)
    requires ps != []
    ensures Slashed([""] + ps) == "/" + Slashed(ps)
  {
    var all := [""] + ps;
    if |ps| == 1 {
      assert all[..1] == [""] && all == ["", ps[0]];
      assert Slashed(all) == Slashed(all[..1]) + "/" + all[1];
    } else {
      RootSlashed(ps[..|ps| - 1]);
      assert all[..|all| - 1] == [""] + ps[..|ps| - 1];
    }
  }

  lemma {:induction false} RootKept(ps: seq<string>, rooted: bool)
    ensures Kept([""] + ps, rooted) == Kept(ps, rooted)
  {
    var all := [""] + ps;
    if ps == [] {
      assert all[..0] == [];
      assert Kept(all, rooted) == Kept(all[..0], rooted);
    } else {
      RootKept(ps[..|ps| - 1], rooted);
      assert all[..|all| - 1] == [""] + ps[..|ps| - 1];
    }
  }

  /** A path is its own shortest form exactly if it has the shape that is checked for. */
  lemma CleanIff(s: string)
    ensures CleanPath(s) <==> Clean(s) == s
  {
    hide Parts, Slashed, Kept, Tidy, DropUps;
    PartsJoin(s);
    if Rooted(s) {
      RootedClean(s);
    } else {
      PlainClean(s);
    }
  }

  lemma RootedClean(s: string)
    requires Rooted(s)
    ensures CleanPath(s) <==> Clean(s) == s
  {
    hide Parts, Slashed, Kept, Tidy, DropUps, CleanPath;
    var rest := Parts(s[1..]);
    BehindRoot(s);
    RootKept(rest, true);
    PartsJoin(s[1..]);
    KeptIsTidy(rest, true);
    var kept := Kept(rest, true);
    assert s == "/" + s[1..];
    assert Clean(s) == "/" + Slashed(kept);
    assert Clean(s)[1..] == Slashed(kept);
    assert Clean(s) == s <==> Slashed(kept) == s[1..];
    if forall p | p in rest :: ProperPart(p) {
      ProperIsTidy(rest);
      TidyIsKept(rest, true);
    }
    if s == "/" { OneEmpty(); }
    if Clean(s) == s && s != "/" {
      EmptySlashed();
      TidyIsProper(kept);
      PartsIff(s[1..], kept);
    }
    RootedShape(s);
  }

  lemma RootedShape(s: string)
    requires Rooted(s)
    ensures CleanPath(s) <==> s == "/" || forall p | p in Parts(s[1..]) :: ProperPart(p)
  {
    hide Parts, DropUps;
  }

  lemma OneEmpty()
    ensures Parts("") == [""] && Kept([""], true) == [] && Slashed([]) == "" && "/"[1..] == ""
  {
    assert [""][..0] == [];
    assert Kept([""], true) == Kept([""][..0], true);
  }

  lemma EmptySlashed()
    ensures Slashed([]) == ""
  {}

  lemma ProperIsTidy(ps: seq<string>)
    requires SlashFree(ps) && forall p | p in ps :: ProperPart(p)
    ensures Tidy(ps, true)
  {
    forall i | 0 <= i < |ps| ensures ps[i] in ps {}
  }

  lemma TidyIsProper(ps: seq<string>)
    requires Tidy(ps, true)
    ensures SlashFree(ps) && forall p | p in ps :: ProperPart(p)
  {}

  lemma PlainClean(s: string)
    requires !Rooted(s)
    ensures CleanPath(s) <==> Clean(s) == s
  {
    hide Parts, Slashed, Kept, Tidy, DropUps;
    var ps := Parts(s);
    PartsJoin(s);
    KeptIsTidy(ps, false);
    var kept := Kept(ps, false);
    if s == "." { OneDot(); }
    if s != "." && CleanPath(s) {
      UpsDropped(ps);
      TidyIsKept(ps, false);
    }
    if s != "." && Clean(s) == s {
      EmptySlashed();
      TidySlashFree(kept);
      PartsIff(s, kept);
      UpsDropped(kept);
    }
  }

  lemma TidySlashFree(ps: seq<string>)
    requires Tidy(ps, false)
    ensures SlashFree(ps)
  {}

  lemma OneDot()
    ensures Parts(".") == ["."] && Kept(["."], false) == [] && Slashed([]) == ""
  {
    NoSlash(".");
    assert ["."][..0] == [];
    assert Kept(["."], false) == Kept(["."][..0], false);
  }
}
