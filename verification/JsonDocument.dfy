/** What the sanitizer does to a text, said without the scanner (libvitriol/rebis.py,
    `_sanitize_json_candidate`): a text is bare characters and literals, perhaps ending inside a literal, and only
    raw newlines and tabs of literals are replaced. */
module JsonDocument {
  import opened JsonSanitizer

  /** A part of a literal: a character, or a backslash with the character it escapes. */
  datatype Item = Raw(c: char) | Escaping(c: char)

  datatype Part = Bare(c: char) | Quoted(items: seq<Item>)

  /** How a text ends: outside literals, or inside one, perhaps right after a backslash. */
  datatype Rest = Closed | Open(items: seq<Item>, dangling: bool)

  predicate ProperItem(x: Item) {
    x.Raw? ==> x.c != QUOTE && x.c != BACKSLASH
  }

  predicate ProperItems(items: seq<Item>) {
    forall i :: 0 <= i < |items| ==> ProperItem(items[i])
  }

  predicate ProperPart(p: Part) {
    match p
    case Bare(c) => c != QUOTE
    case Quoted(items) => ProperItems(items)
  }

  predicate ProperText(parts: seq<Part>, rest: Rest) {
    (forall i :: 0 <= i < |parts| ==> ProperPart(parts[i])) && (rest.Open? ==> ProperItems(rest.items))
  }

  // ---- Spelling, as it is and with newlines and tabs escaped ----

  function SpellItem(x: Item, clean: bool): string {
    match x
    case Raw(c) =>
      if clean && c == '\n' then "\\n" else if clean && c == '\t' then "\\t" else [c]
    case Escaping(c) => [BACKSLASH, c]
  }

  function SpellItems(items: seq<Item>, clean: bool): string {
    if items == [] then "" else SpellItems(items[..|items| - 1], clean) + SpellItem(items[|items| - 1], clean)
  }

  function SpellPart(p: Part, clean: bool): string {
    match p
    case Bare(c) => [c]
    case Quoted(items) => [QUOTE] + SpellItems(items, clean) + [QUOTE]
  }

  function SpellParts(parts: seq<Part>, clean: bool): string {
    if parts == [] then "" else SpellParts(parts[..|parts| - 1], clean) + SpellPart(parts[|parts| - 1], clean)
  }

  function SpellRest(rest: Rest, clean: bool): string {
    match rest
    case Closed => ""
    case Open(items, dangling) => [QUOTE] + SpellItems(items, clean) + if dangling then [BACKSLASH] else ""
  }

  function Spell(parts: seq<Part>, rest: Rest, clean: bool): string {
    SpellParts(parts, clean) + SpellRest(rest, clean)
  }

  // ---- The scanner on a spelling ----

  /** From `st` the scanner comes to `to` and writes `out`. */
  predicate Scans(s: string, st: Scan, to: Scan, out: string) {
    After(s, st) == to && Sanitize(s, st) == out
  }

  lemma ScansAppend(a: string, b: string, st: Scan, mid: Scan, to: Scan, x: string, y: string)
    requires Scans(a, st, mid, x) && Scans(b, mid, to, y)
    ensures Scans(a + b, st, to, x + y)
  {
    SanitizeAppend(a, b, st);
    AfterAppend(a, b, st);
  }

  lemma ScansOne(c: char, st: Scan)
    ensures Scans([c], st, Next(st, c), Emit(st, c)) && Scans("", st, st, "")
  {
    OneChar(c, st);
  }

  lemma ItemScans(x: Item)
    requires ProperItem(x)
    ensures Scans(SpellItem(x, false), Inside, Inside, SpellItem(x, true))
  {
    if x.Raw? {
      ScansOne(x.c, Inside);
    } else {
      ScansOne(BACKSLASH, Inside);
      ScansOne(x.c, Escaped);
      ScansAppend([BACKSLASH], [x.c], Inside, Escaped, Inside, [BACKSLASH], [x.c]);
      assert [BACKSLASH] + [x.c] == [BACKSLASH, x.c];
    }
  }

  lemma {:induction false} ItemsScan(items: seq<Item>)
    requires ProperItems(items)
    ensures Scans(SpellItems(items, false), Inside, Inside, SpellItems(items, true))
  {
    if items == [] {
      ScansOne('x', Inside);
    } else {
      hide Scans, SpellItem, ProperItem;
      var init, x := items[..|items| - 1], items[|items| - 1];
      ItemsScan(init);
      ItemScans(x);
      ScansAppend(SpellItems(init, false), SpellItem(x, false), Inside, Inside, Inside, SpellItems(init, true), SpellItem(x, true));
    }
  }

  /** An opening quote and what follows it. */
  lemma OpenScans(items: seq<Item>)
    requires ProperItems(items)
    ensures Scans([QUOTE] + SpellItems(items, false), Outside, Inside, [QUOTE] + SpellItems(items, true))
  {
    hide SpellItems;
    ScansOne(QUOTE, Outside);
    ItemsScan(items);
    ScansAppend([QUOTE], SpellItems(items, false), Outside, Inside, Inside, [QUOTE], SpellItems(items, true));
  }

  lemma PartScans(p: Part)
    requires ProperPart(p)
    ensures Scans(SpellPart(p, false), Outside, Outside, SpellPart(p, true))
  {
    hide SpellItems;
    match p
    case Bare(c) => ScansOne(c, Outside);
    case Quoted(items) =>
      OpenScans(items);
      ScansOne(QUOTE, Inside);
      ScansAppend([QUOTE] + SpellItems(items, false), [QUOTE], Outside, Inside, Outside, [QUOTE] + SpellItems(items, true), [QUOTE]);
  }

  lemma {:induction false} PartsScan(parts: seq<Part>)
    requires forall i :: 0 <= i < |parts| ==> ProperPart(parts[i])
    ensures Scans(SpellParts(parts, false), Outside, Outside, SpellParts(parts, true))
  {
    if parts == [] {
      ScansOne('x', Outside);
    } else {
      hide Scans, SpellPart, ProperPart;
      var init, p := parts[..|parts| - 1], parts[|parts| - 1];
      PartsScan(init);
      PartScans(p);
      ScansAppend(SpellParts(init, false), SpellPart(p, false), Outside, Outside, Outside, SpellParts(init, true), SpellPart(p, true));
    }
  }

  lemma RestScans(rest: Rest) returns (to: Scan)
    requires rest.Open? ==> ProperItems(rest.items)
    ensures Scans(SpellRest(rest, false), Outside, to, SpellRest(rest, true))
    ensures to == if rest.Closed? then Outside else if rest.dangling then Escaped else Inside
  {
    hide SpellItems;
    match rest
    case Closed =>
      to := Outside;
      ScansOne('x', Outside);
    case Open(items, dangling) =>
      OpenScans(items);
      if dangling {
        to := Escaped;
        ScansOne(BACKSLASH, Inside);
        ScansAppend([QUOTE] + SpellItems(items, false), [BACKSLASH], Outside, Inside, Escaped, [QUOTE] + SpellItems(items, true), [BACKSLASH]);
      } else {
        to := Inside;
        assert [QUOTE] + SpellItems(items, false) + "" == [QUOTE] + SpellItems(items, false);
        assert [QUOTE] + SpellItems(items, true) + "" == [QUOTE] + SpellItems(items, true);
      }
  }

  /** Main result: of a text spelled by parts the sanitizer writes the same parts, newlines and tabs of literals
      spelled as escapes. */
  lemma SanitizeMeans(parts: seq<Part>, rest: Rest)
    requires ProperText(parts, rest)
    ensures Sanitize(Spell(parts, rest, false), Outside) == Spell(parts, rest, true)
  {
    hide SpellParts, SpellRest, ProperPart;
    PartsScan(parts);
    var to := RestScans(rest);
    ScansAppend(SpellParts(parts, false), SpellRest(rest, false), Outside, Outside, to, SpellParts(parts, true), SpellRest(rest, true));
  }

  // ---- Every text is spelled so ----

  lemma ItemsSnoc(items: seq<Item>, x: Item, clean: bool)
    ensures SpellItems(items + [x], clean) == SpellItems(items, clean) + SpellItem(x, clean)
    ensures ProperItems(items) && ProperItem(x) ==> ProperItems(items + [x])
  {
    assert (items + [x])[..|items|] == items;
  }

  lemma PartsSnoc(parts: seq<Part>, p: Part, clean: bool)
    ensures SpellParts(parts + [p], clean) == SpellParts(parts, clean) + SpellPart(p, clean)
  {
    assert (parts + [p])[..|parts|] == parts;
  }

  lemma Longer(s: string, a: string, b: string, c: char)
    requires s == a + b
    ensures s + [c] == a + (b + [c])
  {
  }

  lemma {:induction false} EveryText(s: string) returns (parts: seq<Part>, rest: Rest)
    ensures ProperText(parts, rest) && s == Spell(parts, rest, false)
  {
    if s == [] {
      parts, rest := [], Closed;
    } else {
      hide SpellItems, SpellParts, ProperItem;
      var init, c := s[..|s| - 1], s[|s| - 1];
      assert s == init + [c];
      parts, rest := EveryText(init);
      Longer(init, SpellParts(parts, false), SpellRest(rest, false), c);
      parts, rest := OneMoreChar(parts, rest, c);
    }
  }

  lemma OneMoreChar(parts: seq<Part>, rest: Rest, c: char) returns (parts': seq<Part>, rest': Rest)
    requires ProperText(parts, rest)
    ensures ProperText(parts', rest') && Spell(parts', rest', false) == SpellParts(parts, false) + (SpellRest(rest, false) + [c])
  {
    hide SpellItems, SpellParts;
    parts', rest' := parts, rest;
    match rest
    case Closed =>
      if c == QUOTE {
        rest' := Open([], false);
        NoItems();
        assert [QUOTE] + "" + "" == "" + [QUOTE];
      } else {
        parts' := parts + [Bare(c)];
        PartsSnoc(parts, Bare(c), false);
        assert "" + [c] == [c] && SpellParts(parts', false) + "" == SpellParts(parts', false);
      }
    case Open(items, dangling) =>
      var text := SpellItems(items, false);
      if dangling {
        rest' := Open(items + [Escaping(c)], false);
        ItemsSnoc(items, Escaping(c), false);
        assert [QUOTE] + (text + [BACKSLASH, c]) + "" == [QUOTE] + text + [BACKSLASH] + [c];
      } else if c == BACKSLASH {
        rest' := Open(items, true);
        assert [QUOTE] + text + [BACKSLASH] == [QUOTE] + text + "" + [c];
      } else if c == QUOTE {
        parts', rest' := parts + [Quoted(items)], Closed;
        PartsSnoc(parts, Quoted(items), false);
        assert [QUOTE] + text + [QUOTE] == [QUOTE] + text + "" + [c];
        assert SpellParts(parts', false) + "" == SpellParts(parts', false);
      } else {
        rest' := Open(items + [Raw(c)], false);
        ItemsSnoc(items, Raw(c), false);
        assert [QUOTE] + (text + [c]) + "" == [QUOTE] + text + "" + [c];
      }
  }

  lemma NoItems()
    ensures SpellItems([], false) == "" && ProperItems([])
  {
  }
}
