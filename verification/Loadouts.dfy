/**
 Loadout manifests of internal/engine/config/config.go: lines of fields, packs that stand for
 lists of items, and lists without duplicates.
 */
module Loadouts {
  import opened Options

  datatype Kind = Plugins | Mcp | Tools

  datatype Pack = Pack(kind: Kind, items: seq<string>)

  /** What one line of a manifest is, by its first field. */
  datatype Line = Effort(args: seq<string>) | Batch(args: seq<string>) | List(kind: Kind, args: seq<string>)
    | Packs(args: seq<string>) | Other

  function KindOf(word: string): Option<Kind> {
    if word == "plugins" then Some(Plugins)
    else if word == "mcp" then Some(Mcp)
    else if word == "tools" then Some(Tools)
    else None
  }

  /** A line from its whitespace-separated fields. */
  function Parse(fields: seq<string>): Line {
    if fields == [] then Other
    else if fields[0] == "effort" then Effort(fields[1..])
    else if fields[0] == "batch" then Batch(fields[1..])
    else if fields[0] == "packs" then Packs(fields[1..])
    else if KindOf(fields[0]).Some? then List(KindOf(fields[0]).value, fields[1..])
    else Other
  }

  function Word(kind: Kind): string {
    match kind
    case Plugins => "plugins"
    case Mcp => "mcp"
    case Tools => "tools"
  }

  /** Every list line can be written down. */
  lemma ParseList(kind: Kind, items: seq<string>)
    ensures Parse([Word(kind)] + items) == List(kind, items)
  {
    assert ([Word(kind)] + items)[1..] == items;
    assert Word(kind)[0] != 'e' && Word(kind)[0] != 'b' && Word(kind)[1] != 'a';
  }

  /** The first word of a line says what it is. */
  lemma WordsDecide(args: seq<string>, word: string)
    ensures Parse(["effort"] + args) == Effort(args) && Parse(["batch"] + args) == Batch(args)
    ensures Parse(["packs"] + args) == Packs(args) && Parse(["plugins"] + args) == List(Plugins, args)
    ensures Parse(["mcp"] + args) == List(Mcp, args) && Parse(["tools"] + args) == List(Tools, args)
    ensures word !in {"effort", "batch", "packs", "plugins", "mcp", "tools"} ==> Parse([word] + args) == Other
  {
    assert forall w: string :: ([w] + args)[1..] == args;
    assert "batch"[0] != "effort"[0] && "packs"[0] != "batch"[0] && "packs"[1] != "plugins"[1];
    assert "mcp"[0] != "packs"[0] && "tools"[0] != "mcp"[0];
  }

  /** A catalogue line that defines the pack: name, kind, items. */
  predicate Defines(fields: seq<string>, name: string) {
    |fields| >= 2 && fields[0] == name && KindOf(fields[1]).Some?
  }

  predicate LastDefines(text: seq<seq<string>>, i: nat, name: string)
    requires i < |text|
  {
    Defines(text[i], name) && forall j :: i < j < |text| ==> !Defines(text[j], name)
  }

  /** The catalogue of packs: of several definitions the last one holds; lines of unknown kind
      define nothing. */
  method ReadPackCatalog(text: seq<seq<string>>) returns (out: map<string, Pack>)
    ensures forall name :: name in out <==> exists i :: 0 <= i < |text| && Defines(text[i], name)
    ensures forall i, name :: 0 <= i < |text| && LastDefines(text, i, name) ==>
              out[name] == Pack(KindOf(text[i][1]).value, text[i][2..])
  {
    out := map[];
    for n := 0 to |text|
      invariant forall name :: name in out <==> exists i :: 0 <= i < n && Defines(text[i], name)
      invariant forall i, name :: 0 <= i < n && LastDefines(text[..n], i, name) ==>
                  out[name] == Pack(KindOf(text[i][1]).value, text[i][2..])
    {
      var fields := text[n];
      if |fields| >= 2 && KindOf(fields[1]).Some? {
        out := out[fields[0] := Pack(KindOf(fields[1]).value, fields[2..])];
        assert Defines(text[n], fields[0]);
      }
      forall i, name | 0 <= i < n && LastDefines(text[..n + 1], i, name) ensures LastDefines(text[..n], i, name) {
        assert !Defines(text[..n + 1][n], name);
        assert forall j :: 0 <= j < n ==> text[..n][j] == text[..n + 1][j];
      }
    }
    assert text[..|text|] == text;
  }

  // ---------------------------------------------------------------- lists without duplicates

  /** The list with every item that is not there yet appended, in order. */
  function Union(dst: seq<string>, items: seq<string>): seq<string> {
    if items == [] then dst
    else
      var n := |items| - 1;
      var u := Union(dst, items[..n]);
      if items[n] in u then u else u + [items[n]]
  }

  method AppendUnique(dst: seq<string>, items: seq<string>) returns (r: seq<string>)
    ensures r == Union(dst, items)
  {
    r := dst;
    for i := 0 to |items|
      invariant r == Union(dst, items[..i])
    {
      assert items[..i + 1][..i] == items[..i];
      if items[i] !in r {
        r := r + [items[i]];
      }
    }
    assert items[..|items|] == items;
  }

  /** The items of a list, each where it occurs first. */
  function Dedup(items: seq<string>): seq<string> {
    Union([], items)
  }

  lemma {:induction false} UnionTwo(dst: seq<string>, a: seq<string>, b: seq<string>)
    ensures Union(dst, a + b) == Union(Union(dst, a), b)
  {
    if b == [] {
      assert a + b == a;
    } else {
      var n := |b| - 1;
      assert (a + b)[..|a| + n] == a + b[..n];
      UnionTwo(dst, a, b[..n]);
    }
  }

  /** The index of the first occurrence. */
  function First(items: seq<string>, x: string): (k: nat)
    requires x in items
    ensures k < |items| && items[k] == x && x !in items[..k]
  {
    if items[0] == x then 0 else First(items[1..], x) + 1
  }

  lemma {:induction false} FirstIn(a: seq<string>, b: seq<string>, x: string)
    requires x in a
    ensures First(a + b, x) == First(a, x)
  {
    if a[0] != x {
      assert (a + b)[1..] == a[1..] + b;
      FirstIn(a[1..], b, x);
    }
  }

  /** Dedup keeps the items, repeats none, and orders them by their first occurrence. */
  lemma {:induction false} DedupMeaning(items: seq<string>)
    ensures forall x :: x in Dedup(items) <==> x in items
    ensures forall i, j :: 0 <= i < j < |Dedup(items)| ==>
              First(items, Dedup(items)[i]) < First(items, Dedup(items)[j])
  {
    if items != [] {
      var n := |items| - 1;
      var init, d := items[..n], Dedup(items[..n]);
      DedupMeaning(init);
      assert items == init + [items[n]];
      forall x | x in init ensures First(items, x) == First(init, x) < n {
        FirstIn(init, [items[n]], x);
      }
      forall i, j | 0 <= i < j < |Dedup(items)|
        ensures First(items, Dedup(items)[i]) < First(items, Dedup(items)[j])
      {
        assert Dedup(items)[i] == d[i] && d[i] in init;
        if j < |d| {
          assert d[j] in init;
        } else {
          assert items[n] !in init;
        }
      }
    }
  }

  // ---------------------------------------------------------------- what a manifest says

  /** The items of one kind in the known ones of these packs. */
  function PackItems(packs: map<string, Pack>, names: seq<string>, kind: Kind): seq<string> {
    if names == [] then []
    else
      var n := |names| - 1;
      PackItems(packs, names[..n], kind)
      + if names[n] in packs && packs[names[n]].kind == kind then packs[names[n]].items else []
  }

  /** The items of one kind that one line brings. */
  function LineItems(packs: map<string, Pack>, line: Line, kind: Kind): seq<string> {
    if line.List? && line.kind == kind then line.args
    else if line.Packs? then PackItems(packs, line.args, kind)
    else []
  }

  /** All items of one kind, as the lines list them. */
  function Items(packs: map<string, Pack>, lines: seq<Line>, kind: Kind): seq<string> {
    if lines == [] then []
    else Items(packs, lines[..|lines| - 1], kind) + LineItems(packs, lines[|lines| - 1], kind)
  }

  /** The last effort line with a value decides. */
  function EffortOf(lines: seq<Line>): string {
    if lines == [] then ""
    else
      var line := lines[|lines| - 1];
      if line.Effort? && line.args != [] then line.args[0] else EffortOf(lines[..|lines| - 1])
  }

  /** The last batch line decides. */
  function BatchOf(lines: seq<Line>): bool {
    if lines == [] then false
    else
      var line := lines[|lines| - 1];
      if line.Batch? then line.args != [] && line.args[0] == "on" else BatchOf(lines[..|lines| - 1])
  }

  class Loadout {
    var name: string
    var effort: string
    var batch: bool
    var plugins: seq<string>
    var mcp: seq<string>
    var tools: seq<string>

    constructor (name: string)
      ensures this.name == name && effort == "" && !batch
      ensures forall kind :: Chosen(kind) == []
    {
      this.name, effort, batch, plugins, mcp, tools := name, "", false, [], [], [];
    }

    function Chosen(kind: Kind): seq<string>
      reads this
    {
      match kind
      case Plugins => plugins
      case Mcp => mcp
      case Tools => tools
    }

    /** The loadout is what the manifest says. */
    ghost predicate Says(packs: map<string, Pack>, text: seq<seq<string>>)
      reads this
    {
      && (forall k :: Chosen(k) == Dedup(Items(packs, ParseAll(text), k)))
      && effort == EffortOf(ParseAll(text)) && batch == BatchOf(ParseAll(text))
    }

    method Add(kind: Kind, items: seq<string>)
      modifies this
      ensures forall k :: Chosen(k) == if k == kind then Union(old(Chosen(k)), items) else old(Chosen(k))
      ensures name == old(name) && effort == old(effort) && batch == old(batch)
    {
      match kind
      case Plugins => plugins := AppendUnique(plugins, items);
      case Mcp => mcp := AppendUnique(mcp, items);
      case Tools => tools := AppendUnique(tools, items);
    }

    method ExpandPacks(packs: map<string, Pack>, names: seq<string>)
      modifies this
      ensures forall k :: Chosen(k) == Union(old(Chosen(k)), PackItems(packs, names, k))
      ensures name == old(name) && effort == old(effort) && batch == old(batch)
    {
      for i := 0 to |names|
        invariant forall k :: Chosen(k) == Union(old(Chosen(k)), PackItems(packs, names[..i], k))
        invariant name == old(name) && effort == old(effort) && batch == old(batch)
      {
        assert names[..i + 1][..i] == names[..i];
        if names[i] in packs {
          var p := packs[names[i]];
          UnionTwo(old(Chosen(p.kind)), PackItems(packs, names[..i], p.kind), p.items);
          Add(p.kind, p.items);
        }
        forall k | !(names[i] in packs && packs[names[i]].kind == k)
          ensures PackItems(packs, names[..i + 1], k) == PackItems(packs, names[..i], k)
        {
        }
      }
      assert names[..|names|] == names;
    }

    /** One line of the manifest. */
    method Read(packs: map<string, Pack>, line: Line)
      modifies this
      ensures forall k :: Chosen(k) == Union(old(Chosen(k)), LineItems(packs, line, k))
      ensures effort == if line.Effort? && line.args != [] then line.args[0] else old(effort)
      ensures batch == if line.Batch? then line.args != [] && line.args[0] == "on" else old(batch)
      ensures name == old(name)
    {
      match line
      case Effort(args) =>
        if args != [] {
          effort := args[0];
        }
      case Batch(args) => batch := args != [] && args[0] == "on";
      case List(kind, items) => Add(kind, items);
      case Packs(names) => ExpandPacks(packs, names);
      case Other =>
    }
  }

  /** What one more line adds to the lines before it. */
  lemma LineSays(packs: map<string, Pack>, lines: seq<Line>, i: nat)
    requires i < |lines|
    ensures forall k :: Dedup(Items(packs, lines[..i + 1], k))
                        == Union(Dedup(Items(packs, lines[..i], k)), LineItems(packs, lines[i], k))
    ensures EffortOf(lines[..i + 1])
            == if lines[i].Effort? && lines[i].args != [] then lines[i].args[0] else EffortOf(lines[..i])
    ensures BatchOf(lines[..i + 1])
            == if lines[i].Batch? then lines[i].args != [] && lines[i].args[0] == "on" else BatchOf(lines[..i])
  {
    assert lines[..i + 1][..i] == lines[..i];
    forall k ensures Dedup(Items(packs, lines[..i + 1], k))
                     == Union(Dedup(Items(packs, lines[..i], k)), LineItems(packs, lines[i], k))
    {
      UnionTwo([], Items(packs, lines[..i], k), LineItems(packs, lines[i], k));
    }
  }

  function ParseAll(text: seq<seq<string>>): (lines: seq<Line>)
    ensures |lines| == |text| && forall i :: 0 <= i < |lines| ==> lines[i] == Parse(text[i])
  {
    seq(|text|, i requires 0 <= i < |text| => Parse(text[i]))
  }

  /** Each list is the de-duplication of its items, packs expanded where they stand. */
  method ReadLoadoutManifest(name: string, text: seq<seq<string>>, packs: map<string, Pack>) returns (lo: Loadout)
    ensures fresh(lo) && lo.name == name && lo.Says(packs, text)
    ensures forall k :: lo.Chosen(k) == Dedup(Items(packs, ParseAll(text), k))
    ensures lo.effort == EffortOf(ParseAll(text)) && lo.batch == BatchOf(ParseAll(text))
  {
    lo := new Loadout(name);
    ghost var lines := ParseAll(text);
    for i := 0 to |text|
      invariant fresh(lo) && lo.name == name
      invariant forall k :: lo.Chosen(k) == Dedup(Items(packs, lines[..i], k))
      invariant lo.effort == EffortOf(lines[..i]) && lo.batch == BatchOf(lines[..i])
    {
      LineSays(packs, lines, i);
      lo.Read(packs, Parse(text[i]));
    }
    assert lines[..|lines|] == lines;
  }

  // ---------------------------------------------------------------- packs are abbreviations

  /** The known packs written out: one list line each. */
  function Unpacked(packs: map<string, Pack>, names: seq<string>): seq<Line> {
    if names == [] then []
    else
      var n := |names| - 1;
      Unpacked(packs, names[..n]) + if names[n] in packs then [List(packs[names[n]].kind, packs[names[n]].items)] else []
  }

  /** The manifest with every packs line replaced in place. */
  function Expand(packs: map<string, Pack>, lines: seq<Line>): seq<Line> {
    if lines == [] then []
    else
      var line := lines[|lines| - 1];
      Expand(packs, lines[..|lines| - 1]) + if line.Packs? then Unpacked(packs, line.args) else [line]
  }

  lemma ItemsNext(packs: map<string, Pack>, lines: seq<Line>, line: Line, kind: Kind)
    ensures Items(packs, lines + [line], kind) == Items(packs, lines, kind) + LineItems(packs, line, kind)
  {
    assert (lines + [line])[..|lines|] == lines;
  }

  lemma {:induction false} ItemsTwo(packs: map<string, Pack>, a: seq<Line>, b: seq<Line>, kind: Kind)
    ensures Items(packs, a + b, kind) == Items(packs, a, kind) + Items(packs, b, kind)
  {
    if b == [] {
      assert a + b == a;
    } else {
      var init, last := b[..|b| - 1], b[|b| - 1];
      assert Items(packs, b, kind) == Items(packs, init, kind) + LineItems(packs, last, kind);
      assert Items(packs, a + b, kind) == Items(packs, a + init, kind) + LineItems(packs, last, kind) by {
        assert a + b == (a + init) + [last];
        ItemsNext(packs, a + init, last, kind);
      }
      ItemsTwo(packs, a, init, kind);
      Regroup(Items(packs, a, kind), Items(packs, init, kind), LineItems(packs, last, kind));
    }
  }

  lemma Regroup(x: seq<string>, y: seq<string>, z: seq<string>)
    ensures (x + y) + z == x + (y + z)
  {
  }

  /** Packs written out list what the packs list, and say nothing about effort or batch. */
  lemma {:induction false} UnpackedSays(packs: map<string, Pack>, names: seq<string>, kind: Kind)
    ensures Items(map[], Unpacked(packs, names), kind) == PackItems(packs, names, kind)
    ensures forall line :: line in Unpacked(packs, names) ==> line.List?
  {
    if names != [] {
      var n := |names| - 1;
      UnpackedSays(packs, names[..n], kind);
      if names[n] in packs {
        var p := packs[names[n]];
        ItemsNext(map[], Unpacked(packs, names[..n]), List(p.kind, p.items), kind);
      } else {
        assert Unpacked(packs, names) == Unpacked(packs, names[..n]);
      }
    }
  }

  lemma {:induction false} ListsDecideNothing(a: seq<Line>, b: seq<Line>)
    requires forall line :: line in b ==> line.List?
    ensures EffortOf(a + b) == EffortOf(a) && BatchOf(a + b) == BatchOf(a)
  {
    if b == [] {
      assert a + b == a;
    } else {
      assert (a + b)[..|a + b| - 1] == a + b[..|b| - 1] && (a + b)[|a + b| - 1] == b[|b| - 1];
      assert b[|b| - 1] in b;
      ListsDecideNothing(a, b[..|b| - 1]);
    }
  }

  lemma LineDecides(a: seq<Line>, b: seq<Line>, line: Line)
    requires EffortOf(a) == EffortOf(b) && BatchOf(a) == BatchOf(b)
    ensures EffortOf(a + [line]) == EffortOf(b + [line]) && BatchOf(a + [line]) == BatchOf(b + [line])
  {
    assert (a + [line])[..|a|] == a && (b + [line])[..|b|] == b;
  }

  /** Two lists of lines say the same, one of them with the catalogue. */
  ghost predicate Alike(packs: map<string, Pack>, short: seq<Line>, long: seq<Line>, kind: Kind) {
    && Items(map[], long, kind) == Items(packs, short, kind)
    && EffortOf(long) == EffortOf(short) && BatchOf(long) == BatchOf(short)
  }

  lemma AlikeWithPacks(packs: map<string, Pack>, short: seq<Line>, long: seq<Line>, line: Line, kind: Kind)
    requires Alike(packs, short, long, kind) && line.Packs?
    ensures Alike(packs, short + [line], long + Unpacked(packs, line.args), kind)
  {
    UnpackedSays(packs, line.args, kind);
    ItemsTwo(map[], long, Unpacked(packs, line.args), kind);
    ItemsNext(packs, short, line, kind);
    ListsDecideNothing(long, Unpacked(packs, line.args));
    assert (short + [line])[..|short|] == short;
  }

  lemma AlikeWithLine(packs: map<string, Pack>, short: seq<Line>, long: seq<Line>, line: Line, kind: Kind)
    requires Alike(packs, short, long, kind) && !line.Packs?
    ensures Alike(packs, short + [line], long + [line], kind)
  {
    ItemsNext(packs, short, line, kind);
    ItemsNext(map[], long, line, kind);
    LineDecides(long, short, line);
  }

  /**
   Packs are abbreviations: replacing each packs line in place by one line for each pack the
   catalogue knows, and forgetting the catalogue, changes nothing the manifest says.
   */
  lemma {:induction false} ExpansionPreservesMeaning(packs: map<string, Pack>, lines: seq<Line>, kind: Kind)
    ensures Items(map[], Expand(packs, lines), kind) == Items(packs, lines, kind)
    ensures EffortOf(Expand(packs, lines)) == EffortOf(lines) && BatchOf(Expand(packs, lines)) == BatchOf(lines)
    ensures forall line :: line in Expand(packs, lines) ==> !line.Packs?
  {
    if lines != [] {
      var init, last := lines[..|lines| - 1], lines[|lines| - 1];
      assert lines == init + [last];
      ExpansionPreservesMeaning(packs, init, kind);
      if last.Packs? {
        UnpackedSays(packs, last.args, kind);
        AlikeWithPacks(packs, init, Expand(packs, init), last, kind);
      } else {
        AlikeWithLine(packs, init, Expand(packs, init), last, kind);
      }
    }
  }

  /** The rows of the known packs: the word of the kind, then the items. */
  function PackRows(packs: map<string, Pack>, names: seq<string>): seq<seq<string>> {
    if names == [] then []
    else
      var n := |names| - 1;
      PackRows(packs, names[..n])
      + if names[n] in packs then [[Word(packs[names[n]].kind)] + packs[names[n]].items] else []
  }

  /** The text of the manifest with every packs row replaced in place. */
  function ExpandText(packs: map<string, Pack>, text: seq<seq<string>>): seq<seq<string>> {
    if text == [] then []
    else
      var row := text[|text| - 1];
      ExpandText(packs, text[..|text| - 1]) + if Parse(row).Packs? then PackRows(packs, row[1..]) else [row]
  }

  lemma ParseTwo(a: seq<seq<string>>, b: seq<seq<string>>)
    ensures ParseAll(a + b) == ParseAll(a) + ParseAll(b)
  {
  }

  lemma {:induction false} ParsePackRows(packs: map<string, Pack>, names: seq<string>)
    ensures ParseAll(PackRows(packs, names)) == Unpacked(packs, names)
  {
    if names != [] {
      var n := |names| - 1;
      ParsePackRows(packs, names[..n]);
      if names[n] in packs {
        var p := packs[names[n]];
        ParseList(p.kind, p.items);
        ParseTwo(PackRows(packs, names[..n]), [[Word(p.kind)] + p.items]);
      } else {
        assert PackRows(packs, names) == PackRows(packs, names[..n]);
        assert Unpacked(packs, names) == Unpacked(packs, names[..n]);
      }
    }
  }

  /** Expanding the text expands the lines. */
  lemma {:induction false} ParseExpanded(packs: map<string, Pack>, text: seq<seq<string>>)
    ensures ParseAll(ExpandText(packs, text)) == Expand(packs, ParseAll(text))
  {
    if text != [] {
      var init, row := text[..|text| - 1], text[|text| - 1];
      ParseExpanded(packs, init);
      assert ParseAll(text)[..|text| - 1] == ParseAll(init);
      if Parse(row).Packs? {
        ParsePackRows(packs, row[1..]);
        ParseTwo(ExpandText(packs, init), PackRows(packs, row[1..]));
      } else {
        ParseTwo(ExpandText(packs, init), [row]);
      }
    }
  }

  /** The loadout read from a manifest and the one read from its expanded text, without any
      catalogue, have the same lists, effort and batch setting. */
  lemma ExpandedManifestReadsAlike(packs: map<string, Pack>, text: seq<seq<string>>, a: Loadout, b: Loadout)
    requires a.Says(packs, text) && b.Says(map[], ExpandText(packs, text))
    ensures forall k :: a.Chosen(k) == b.Chosen(k)
    ensures a.effort == b.effort && a.batch == b.batch
  {
    ParseExpanded(packs, text);
    forall k ensures a.Chosen(k) == b.Chosen(k) {
      ExpansionPreservesMeaning(packs, ParseAll(text), k);
    }
    ExpansionPreservesMeaning(packs, ParseAll(text), Plugins);
  }
}
