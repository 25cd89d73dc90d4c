/** `Menu` of menu.py: reads the loaded menu document into fixed groups, choose
    groups with their options, the per-day carbohydrate amounts and the extra
    nutrients. */
module Menus {
  import opened Wrappers
  import opened PyStr
  import opened Dicts
  import opened Yaml
  import opened NutrientValues
  import opened Quantity

  /** One entry of `options`: `(items, n, group_id)`. */
  datatype Choice = Choice(items: seq<string>, n: nat, id: nat)

  /** What `__init__` leaves in a menu, as one value. */
  datatype MenuData = MenuData(
    extra: Nutrients,
    carbsPerDay: Dict<string, real>,
    carbsItem: Option<string>,
    fixed: seq<seq<string>>,
    options: seq<Choice>,
    chooseGroups: Dict<nat, nat>)

  /** What `_parse_sections` has built so far, with its running `choose_id`. */
  datatype Sections = Sections(fixed: seq<seq<string>>, options: seq<Choice>, groups: Dict<nat, nat>, lastId: nat)

  // ---------------------------------------------------------------- extra and carbs

  /** A loaded value used as a number; `get(key, 0)` gives 0 for an absent key. */
  function NumberOr0(n: Node): real {
    if n.Num? then n.value else 0.0
  }

  /** The nutrients of a non-empty `extra` section. */
  function ExtraOf(extra: Node): Nutrients {
    Nutrients(NumberOr0(Lookup(extra, "carbs")), NumberOr0(Lookup(extra, "protein")),
              NumberOr0(Lookup(extra, "fat")), NumberOr0(Lookup(extra, "calories")))
  }

  /** Each of `carbs`, `protein`, `fat` and `calories` absent from the section
      counts as 0. */
  lemma ExtraAbsentIsZero(extra: Node)
    ensures "carbs" !in Keys(Items(extra)) ==> ExtraOf(extra).c == 0.0
    ensures "protein" !in Keys(Items(extra)) ==> ExtraOf(extra).p == 0.0
    ensures "fat" !in Keys(Items(extra)) ==> ExtraOf(extra).f == 0.0
    ensures "calories" !in Keys(Items(extra)) ==> ExtraOf(extra).cal == 0.0
  {
  }

  /** An extra section naming only protein adds that protein and nothing else. */
  lemma ExtraOnlyProtein(x: real, text: string)
    ensures ExtraOf(Mapping([("protein", Num(x, text))])) == Nutrients(0.0, x, 0.0, 0.0)
  {
    ItemsSingle("protein", Num(x, text));
  }

  /** `str(val)` of a loaded scalar. */
  function StrOf(n: Node): string {
    match n
    case Str(s) => s
    case Num(_, text) => text
    case Null => "None"
    case _ => ""
  }

  /** `{day: parse_quantity(str(val))[0] for day, val in amounts.items()}`. */
  function PerDay(amounts: Node): (d: Dict<string, real>)
    ensures Keys(d) == Keys(Items(amounts))
  {
    var es := Items(amounts);
    seq(|es|, i requires 0 <= i < |es| => (es[i].0, ParseQuantity(StrOf(es[i].1)).amount))
  }

  /** `(carbs_item, carbs_per_day)` after `_parse_carbs(carbs)`: every entry
      overwrites both, so the last entry wins; a falsy section changes nothing. */
  function CarbsOf(carbs: Node, item: Option<string>, perDay: Dict<string, real>): (Option<string>, Dict<string, real>) {
    var es := Items(carbs);
    if !Truthy(carbs) || es == [] then (item, perDay)
    else (Some(es[|es| - 1].0), PerDay(es[|es| - 1].1))
  }

  /** One day's amount read from its loaded value. */
  lemma PerDayOne(day: string, v: Node, amount: real)
    requires amount == ParseQuantity(StrOf(v)).amount
    ensures PerDay(Mapping([(day, v)])) == [(day, amount)]
  {
    ItemsSingle(day, v);
  }

  /** A day amount written as digits and a unit letter reads as the number:
      "150g" gives 150. */
  lemma DayAmountWithUnit(day: string, ds: string)
    requires |ds| >= 1 && DigitsIn(ds, 0, |ds|)
    ensures PerDay(Mapping([(day, Str(ds + ['g']))])) == [(day, DigitsValue(ds) as real)]
  {
    ParseDigitsThenChar(ds, 'g');
    PerDayOne(day, Str(ds + ['g']), DigitsValue(ds) as real);
  }

  /** A day amount written as a bare number loses its last digit to the food text:
      150 gives 15. */
  lemma DayAmountBare(day: string, ds: string, x: real)
    requires |ds| >= 2 && DigitsIn(ds, 0, |ds|)
    ensures PerDay(Mapping([(day, Num(x, ds))])) == [(day, DigitsValue(ds[..|ds| - 1]) as real)]
  {
    var amount := DigitsValue(ds[..|ds| - 1]) as real;
    assert ParseQuantity(StrOf(Num(x, ds))).amount == amount by {
      ParseBareNumber(ds);
    }
    PerDayOne(day, Num(x, ds), amount);
  }

  // ---------------------------------------------------------------- sections

  /** `re.match(r"choose\s+(\d+)", key)` and `int(m.group(1))`: "choose", at least
      one whitespace character and digits, at the start of the key. */
  function ChooseCount(key: string): Option<nat> {
    if !StartsWith(key, "choose") then None
    else
      var s := SpaceRun(key, 6);
      var d := DigitRun(key, 6 + s);
      if s == 0 || d == 0 then None else Some(DigitsValue(key[6 + s..6 + s + d]))
  }

  /** A key written as "choose", whitespace, digits and anything that does not go on
      with a digit opens a block of that many; the match is case-sensitive. */
  lemma ChooseWritten(sp: string, ds: string, rest: string)
    requires |sp| >= 1 && SpacesIn(sp, 0, |sp|) && |ds| >= 1 && DigitsIn(ds, 0, |ds|)
    requires rest == [] || !IsDigit(rest[0])
    ensures ChooseCount("choose" + sp + ds + rest) == Some(DigitsValue(ds))
  {
    var key := "choose" + sp + ds + rest;
    assert StartsWith(key, "choose") by {
      assert key[..6] == "choose";
    }
    assert key[6 + |sp|..6 + |sp| + |ds|] == ds;
    ChooseSpaceRun(sp, ds, rest);
    DigitRunAt("choose" + sp, ds, rest);
    ChooseCountOf(key, |sp|, |ds|);
  }

  /** The whitespace after "choose" is exactly `sp` when digits follow it. */
  lemma ChooseSpaceRun(sp: string, ds: string, rest: string)
    requires SpacesIn(sp, 0, |sp|) && |ds| >= 1 && DigitsIn(ds, 0, |ds|)
    ensures SpaceRun("choose" + sp + ds + rest, 6) == |sp|
  {
    assert "choose" + sp + ds + rest == "choose" + sp + (ds + rest);
    assert (ds + rest)[0] == ds[0];
    SpaceRunAt("choose", sp, ds + rest);
  }

  /** The count read from a key, given where its whitespace and digit runs end. */
  lemma ChooseCountOf(key: string, s: nat, d: nat)
    requires StartsWith(key, "choose") && 6 + s + d <= |key| && s > 0 && d > 0
    requires SpaceRun(key, 6) == s && DigitRun(key, 6 + s) == d
    ensures ChooseCount(key) == Some(DigitsValue(key[6 + s..6 + s + d]))
  {
    var v := DigitsValue(key[6 + s..6 + s + d]);
    assert ChooseCount(key) == Some(v);
  }

  /** The pattern is case-sensitive: a key written "Choose" opens no block. */
  lemma ChooseCapitalised(rest: string)
    ensures ChooseCount("Choose" + rest) == None
  {
    assert ("Choose" + rest)[0] == 'C';
  }

  /** `key` is written as "choose", the whitespace `sp`, the digits `ds` and a
      `rest` that does not go on with a digit. */
  predicate ChooseKey(key: string, sp: string, ds: string, rest: string) {
    && key == "choose" + sp + ds + rest
    && |sp| >= 1 && SpacesIn(sp, 0, |sp|)
    && |ds| >= 1 && DigitsIn(ds, 0, |ds|)
    && (rest == [] || !IsDigit(rest[0]))
  }

  /** A key opens a block of `n` exactly when it is written as "choose", at least
      one whitespace character and digits worth `n`; every other key is ignored. */
  lemma ChooseCountWritten(key: string, n: nat)
    ensures ChooseCount(key) == Some(n) <==>
      exists sp, ds, rest :: ChooseKey(key, sp, ds, rest) && n == DigitsValue(ds)
  {
    if ChooseCount(key) == Some(n) {
      var s := SpaceRun(key, 6);
      var d := DigitRun(key, 6 + s);
      ChooseKeySplit(key, s, d);
      assert ChooseKey(key, key[6..6 + s], key[6 + s..6 + s + d], key[6 + s + d..]);
    }
    if exists sp, ds, rest :: ChooseKey(key, sp, ds, rest) && n == DigitsValue(ds) {
      var sp, ds, rest :| ChooseKey(key, sp, ds, rest) && n == DigitsValue(ds);
      ChooseWritten(sp, ds, rest);
    }
  }

  /** A key that starts with "choose", then `s` whitespace characters, then `d`
      digits not followed by another digit, splits into those parts. */
  lemma ChooseKeySplit(key: string, s: nat, d: nat)
    requires StartsWith(key, "choose") && 6 + s + d <= |key| && s > 0 && d > 0
    requires SpacesIn(key, 6, 6 + s) && DigitsIn(key, 6 + s, 6 + s + d)
    requires 6 + s + d == |key| || !IsDigit(key[6 + s + d])
    ensures ChooseKey(key, key[6..6 + s], key[6 + s..6 + s + d], key[6 + s + d..])
  {
    var sp, ds, rest := key[6..6 + s], key[6 + s..6 + s + d], key[6 + s + d..];
    assert key == key[..6] + sp + ds + rest;
    assert SpacesIn(sp, 0, |sp|) by {
      forall k | 0 <= k < |sp| ensures IsSpace(sp[k]) {
        assert sp[k] == key[6 + k];
      }
    }
    assert DigitsIn(ds, 0, |ds|) by {
      forall k | 0 <= k < |ds| ensures IsDigit(ds[k]) {
        assert ds[k] == key[6 + s + k];
      }
    }
    assert rest == [] || rest[0] == key[6 + s + d];
  }

  /** "choose" not followed by whitespace opens no block: "choose2" and
      "chooses 3" are ignored. */
  lemma ChooseNeedsSpace(rest: string)
    requires rest == [] || !IsSpace(rest[0])
    ensures ChooseCount("choose" + rest) == None
  {
    var key := "choose" + rest;
    assert rest == [] || key[6] == rest[0];
    assert SpaceRun(key, 6) == 0;
  }

  /** The string elements of a sequence of loaded values (a food list holds
      strings). */
  function Strings(ns: seq<Node>): (r: seq<string>)
    ensures |r| <= |ns|
  {
    if ns == [] then []
    else Strings(ns[..|ns| - 1]) + (if ns[|ns| - 1].Str? then [ns[|ns| - 1].s] else [])
  }

  /** The options a choose block of `n`, numbered `id`, adds for the option list
      `opts`, in order: a string gives a one-item group, a mapping the group of its
      first value; an empty mapping has no first value. */
  function ChoicesOf(opts: seq<Node>, n: nat, id: nat): (r: Result<seq<Choice>, Error>)
    ensures r.Ok? ==> |r.value| <= |opts|
    ensures r.Ok? ==> forall i :: 0 <= i < |r.value| ==> r.value[i].n == n && r.value[i].id == id
  {
    if opts == [] then Ok([])
    else
      match ChoicesOf(opts[..|opts| - 1], n, id)
      case Err(e) => Err(e)
      case Ok(cs) =>
        var opt := opts[|opts| - 1];
        if opt.Str? then Ok(cs + [Choice([opt.s], n, id)])
        else if opt.Mapping? then
          var es := Items(opt);
          if es == [] then Err(EmptyOption) else Ok(cs + [Choice(Strings(Iterate(es[0].1)), n, id)])
        else Ok(cs)
  }

  /** `opts or []`, iterated: the options listed under a choose key. */
  function OptionNodes(opts: Node): seq<Node> {
    if Truthy(opts) then Iterate(opts) else []
  }

  /** One key of a mapping item, given what `ChooseCount` reads from it: a choose key opens the next group with the
      options listed under it (none when they are falsy); other keys are ignored. */
  function OpenBlock(s: Sections, count: Option<nat>, opts: Node): Result<Sections, Error> {
    match count
    case None => Ok(s)
    case Some(n) =>
      match ChoicesOf(OptionNodes(opts), n, s.lastId + 1)
      case Err(e) => Err(e)
      case Ok(cs) => Ok(Sections(s.fixed, s.options + cs, Put(s.groups, s.lastId + 1, n), s.lastId + 1))
  }

  /** What a choose key adds, once its options are read. */
  lemma OpenBlockChosen(s: Sections, opts: Node, n: nat, cs: seq<Choice>)
    requires ChoicesOf(OptionNodes(opts), n, s.lastId + 1) == Ok(cs)
    ensures OpenBlock(s, Some(n), opts) == Ok(Sections(s.fixed, s.options + cs, Put(s.groups, s.lastId + 1, n), s.lastId + 1))
  {
  }

  /** A choose key whose options cannot be read fails with their error. */
  lemma OpenBlockFails(s: Sections, opts: Node, n: nat, e: Error)
    requires ChoicesOf(OptionNodes(opts), n, s.lastId + 1) == Err(e)
    ensures OpenBlock(s, Some(n), opts) == Err(e)
  {
  }

  /** `for key, opts in item.items()`. */
  function BlockOf(st: Sections, entries: seq<(string, Node)>): Result<Sections, Error> {
    if entries == [] then Ok(st)
    else
      match BlockOf(st, entries[..|entries| - 1])
      case Err(e) => Err(e)
      case Ok(s) => OpenBlock(s, ChooseCount(entries[|entries| - 1].0), entries[|entries| - 1].1)
  }

  /** `for item in items`: a string is a fixed group of one, anything else a
      mapping of choose blocks. */
  function ItemsOf(st: Sections, items: seq<Node>): Result<Sections, Error> {
    if items == [] then Ok(st)
    else
      match ItemsOf(st, items[..|items| - 1])
      case Err(e) => Err(e)
      case Ok(s) =>
        var item := items[|items| - 1];
        if item.Str? then Ok(s.(fixed := s.fixed + [[item.s]]))
        else BlockOf(s, Items(item))
  }

  /** `RESERVED_KEYS`. */
  predicate Reserved(section: string) {
    section == "carbs" || section == "extra"
  }

  /** One section: the reserved sections and the sections that are not lists are
      skipped. */
  function ReadSection(s: Sections, section: string, items: Node): Result<Sections, Error> {
    if Reserved(section) || !items.List? then Ok(s) else ItemsOf(s, items.elems)
  }

  /** `for section, items in data.items()`. */
  function SectionsOf(st: Sections, sections: seq<(string, Node)>): Result<Sections, Error> {
    if sections == [] then Ok(st)
    else
      match SectionsOf(st, sections[..|sections| - 1])
      case Err(e) => Err(e)
      case Ok(s) => ReadSection(s, sections[|sections| - 1].0, sections[|sections| - 1].1)
  }

  /** One more section of the file. */
  lemma SectionsStep(st: Sections, sections: seq<(string, Node)>, i: nat)
    requires i < |sections|
    ensures SectionsOf(st, sections[..i + 1]) ==
      match SectionsOf(st, sections[..i])
      case Err(e) => Err(e)
      case Ok(s) => ReadSection(s, sections[i].0, sections[i].1)
  {
    assert sections[..i + 1][..i] == sections[..i];
  }

  /** One more key of a mapping item. */
  lemma BlockOfStep(st: Sections, entries: seq<(string, Node)>, k: nat)
    requires k < |entries|
    ensures BlockOf(st, entries[..k]).Err? ==> BlockOf(st, entries[..k + 1]) == BlockOf(st, entries[..k])
    ensures BlockOf(st, entries[..k]).Ok? ==>
      BlockOf(st, entries[..k + 1]) == OpenBlock(BlockOf(st, entries[..k]).value, ChooseCount(entries[k].0), entries[k].1)
  {
    assert entries[..k + 1][..k] == entries[..k];
  }

  // An exception ends the loops: once a prefix fails, the whole fails the same way.

  lemma {:induction false} ChoicesErrSticks(opts: seq<Node>, n: nat, id: nat, i: nat)
    requires i <= |opts| && ChoicesOf(opts[..i], n, id).Err?
    ensures ChoicesOf(opts, n, id) == ChoicesOf(opts[..i], n, id)
  {
    if i < |opts| {
      var init := opts[..|opts| - 1];
      assert init[..i] == opts[..i];
      ChoicesErrSticks(init, n, id, i);
    } else {
      assert opts[..i] == opts;
    }
  }

  lemma {:induction false} BlockErrSticks(st: Sections, entries: seq<(string, Node)>, i: nat)
    requires i <= |entries| && BlockOf(st, entries[..i]).Err?
    ensures BlockOf(st, entries) == BlockOf(st, entries[..i])
  {
    if i < |entries| {
      var init := entries[..|entries| - 1];
      assert init[..i] == entries[..i];
      BlockErrSticks(st, init, i);
    } else {
      assert entries[..i] == entries;
    }
  }

  lemma {:induction false} ItemsErrSticks(st: Sections, items: seq<Node>, i: nat)
    requires i <= |items| && ItemsOf(st, items[..i]).Err?
    ensures ItemsOf(st, items) == ItemsOf(st, items[..i])
  {
    if i < |items| {
      var init := items[..|items| - 1];
      assert init[..i] == items[..i];
      ItemsErrSticks(st, init, i);
    } else {
      assert items[..i] == items;
    }
  }

  lemma {:induction false} SectionsErrSticks(st: Sections, sections: seq<(string, Node)>, i: nat)
    requires i <= |sections| && SectionsOf(st, sections[..i]).Err?
    ensures SectionsOf(st, sections) == SectionsOf(st, sections[..i])
  {
    if i < |sections| {
      var init := sections[..|sections| - 1];
      assert init[..i] == sections[..i];
      SectionsErrSticks(st, init, i);
    } else {
      assert sections[..i] == sections;
    }
  }

  /** The menu a document loads into. */
  function MenuOf(data: Node): Result<MenuData, Error> {
    var extra := Lookup(data, "extra");
    var carbs := CarbsOf(Lookup(data, "carbs"), None, []);
    match SectionsOf(Sections([], [], [], 0), Items(data))
    case Err(e) => Err(e)
    case Ok(s) => Ok(MenuData(if Truthy(extra) then ExtraOf(extra) else Zero, carbs.1, carbs.0, s.fixed, s.options, s.groups))
  }

  // ---------------------------------------------------------------- numbering

  /** The choose groups are numbered 1, 2, ... in order, `lastId` is the last
      number, and every option carries the number and the count of its group. */
  predicate Numbered(st: Sections) {
    && |st.groups| == st.lastId
    && (forall i :: 0 <= i < |st.groups| ==> st.groups[i].0 == i + 1)
    && (forall c :: c in st.options ==> 1 <= c.id <= st.lastId && st.groups[c.id - 1].1 == c.n)
  }

  /** Opening a choose block keeps the numbering. */
  /** The next group number is not yet taken. */
  lemma NextIdFresh(s: Sections)
    requires Numbered(s)
    ensures s.lastId + 1 !in Keys(s.groups)
  {
  }

  /** Appending the next group and its options keeps the numbering. */
  lemma AppendNumbered(s: Sections, n: nat, cs: seq<Choice>)
    requires Numbered(s)
    requires forall i :: 0 <= i < |cs| ==> cs[i].n == n && cs[i].id == s.lastId + 1
    ensures Numbered(Sections(s.fixed, s.options + cs, s.groups + [(s.lastId + 1, n)], s.lastId + 1))
  {
    var id := s.lastId + 1;
    var g := s.groups + [(id, n)];
    forall c | c in s.options + cs ensures 1 <= c.id <= id && g[c.id - 1].1 == c.n {
      if c in s.options {
        assert g[c.id - 1] == s.groups[c.id - 1];
      } else {
        var i :| 0 <= i < |cs| && cs[i] == c;
      }
    }
  }

  lemma OpenBlockNumbered(s: Sections, n: nat, cs: seq<Choice>)
    requires Numbered(s)
    requires forall i :: 0 <= i < |cs| ==> cs[i].n == n && cs[i].id == s.lastId + 1
    ensures Numbered(Sections(s.fixed, s.options + cs, Put(s.groups, s.lastId + 1, n), s.lastId + 1))
  {
    NextIdFresh(s);
    PutFresh(s.groups, s.lastId + 1, n);
    AppendNumbered(s, n, cs);
  }

  /** One key keeps the numbering. */
  lemma OpenBlockKeepsNumbered(s: Sections, count: Option<nat>, opts: Node, r: Sections)
    requires Numbered(s) && OpenBlock(s, count, opts) == Ok(r)
    ensures Numbered(r)
  {
    if count.Some? {
      var cs := ChoicesOf(OptionNodes(opts), count.value, s.lastId + 1).value;
      OpenBlockChosen(s, opts, count.value, cs);
      OpenBlockNumbered(s, count.value, cs);
    }
  }

  lemma {:induction false} BlockNumbered(st: Sections, entries: seq<(string, Node)>, r: Sections)
    requires Numbered(st) && BlockOf(st, entries) == Ok(r)
    ensures Numbered(r)
  {
    if entries != [] {
      var init := entries[..|entries| - 1];
      var last := entries[|entries| - 1];
      var s := BlockOf(st, init).value;
      BlockNumbered(st, init, s);
      OpenBlockKeepsNumbered(s, ChooseCount(last.0), last.1, r);
    }
  }

  lemma {:induction false} ItemsNumbered(st: Sections, items: seq<Node>, r: Sections)
    requires Numbered(st) && ItemsOf(st, items) == Ok(r)
    ensures Numbered(r)
  {
    if items != [] {
      var init := items[..|items| - 1];
      var last := items[|items| - 1];
      var s := ItemsOf(st, init).value;
      ItemsNumbered(st, init, s);
      if !last.Str? {
        BlockNumbered(s, Items(last), r);
      }
    }
  }

  /** One section keeps the numbering. */
  lemma ReadSectionNumbered(s: Sections, section: string, items: Node, r: Sections)
    requires Numbered(s) && ReadSection(s, section, items) == Ok(r)
    ensures Numbered(r)
  {
    if !Reserved(section) && items.List? {
      ItemsNumbered(s, items.elems, r);
    }
  }

  lemma {:induction false} SectionsNumbered(st: Sections, sections: seq<(string, Node)>, r: Sections)
    requires Numbered(st) && SectionsOf(st, sections) == Ok(r)
    ensures Numbered(r)
  {
    if sections != [] {
      var init := sections[..|sections| - 1];
      var last := sections[|sections| - 1];
      var s := SectionsOf(st, init).value;
      SectionsNumbered(st, init, s);
      ReadSectionNumbered(s, last.0, last.1, r);
    }
  }

  /** A loaded menu holds what the sections built. */
  lemma MenuSections(data: Node, m: MenuData)
    requires MenuOf(data) == Ok(m)
    ensures SectionsOf(Sections([], [], [], 0), Items(data)).Ok?
    ensures SectionsOf(Sections([], [], [], 0), Items(data)).value.(lastId := 0) == Sections(m.fixed, m.options, m.chooseGroups, 0)
  {
  }

  /** Each choose block of a loaded menu gets the next number from 1 on, and every
      option names a group whose count is the count of its block. */
  lemma MenuNumbered(data: Node, m: MenuData)
    requires MenuOf(data) == Ok(m)
    ensures forall i :: 0 <= i < |m.chooseGroups| ==> m.chooseGroups[i].0 == i + 1
    ensures forall c :: c in m.options ==> 1 <= c.id <= |m.chooseGroups| && m.chooseGroups[c.id - 1] == (c.id, c.n)
  {
    MenuSections(data, m);
    var s := SectionsOf(Sections([], [], [], 0), Items(data)).value;
    SectionsNumbered(Sections([], [], [], 0), Items(data), s);
    assert s.groups == m.chooseGroups && s.options == m.options;
    forall c | c in m.options
      ensures 1 <= c.id <= |m.chooseGroups| && m.chooseGroups[c.id - 1] == (c.id, c.n)
    {
      assert s.groups[c.id - 1].0 == c.id;
    }
  }

  // ---------------------------------------------------------------- fixed groups

  /** The one-item groups the bare strings of a food list give, in order. */
  function Bare(items: seq<Node>): seq<seq<string>> {
    if items == [] then []
    else Bare(items[..|items| - 1]) + (if items[|items| - 1].Str? then [[items[|items| - 1].s]] else [])
  }

  /** The fixed groups one section gives. */
  function BareSection(section: string, items: Node): seq<seq<string>> {
    if Reserved(section) || !items.List? then [] else Bare(items.elems)
  }

  /** The fixed groups of all sections. */
  function BareSections(sections: seq<(string, Node)>): seq<seq<string>> {
    if sections == [] then []
    else BareSections(sections[..|sections| - 1]) + BareSection(sections[|sections| - 1].0, sections[|sections| - 1].1)
  }

  /** A mapping item leaves the fixed groups alone. */
  lemma {:induction false} BlockFixed(st: Sections, entries: seq<(string, Node)>, r: Sections)
    requires BlockOf(st, entries) == Ok(r)
    ensures r.fixed == st.fixed
  {
    if entries != [] {
      var s := BlockOf(st, entries[..|entries| - 1]).value;
      BlockFixed(st, entries[..|entries| - 1], s);
    }
  }

  lemma {:induction false} ItemsFixed(st: Sections, items: seq<Node>, r: Sections)
    requires ItemsOf(st, items) == Ok(r)
    ensures r.fixed == st.fixed + Bare(items)
  {
    if items != [] {
      var init := items[..|items| - 1];
      var last := items[|items| - 1];
      var s := ItemsOf(st, init).value;
      ItemsFixed(st, init, s);
      if !last.Str? {
        BlockFixed(s, Items(last), r);
      }
    }
  }

  /** One section adds its bare strings to the fixed groups. */
  lemma ReadSectionFixed(s: Sections, section: string, items: Node, r: Sections)
    requires ReadSection(s, section, items) == Ok(r)
    ensures r.fixed == s.fixed + BareSection(section, items)
  {
    if !Reserved(section) && items.List? {
      ItemsFixed(s, items.elems, r);
    }
  }

  lemma {:induction false} SectionsFixed(st: Sections, sections: seq<(string, Node)>, r: Sections)
    requires SectionsOf(st, sections) == Ok(r)
    ensures r.fixed == st.fixed + BareSections(sections)
  {
    if sections != [] {
      var init := sections[..|sections| - 1];
      var last := sections[|sections| - 1];
      var prev := SectionsOf(st, init);
      assert prev.Ok? && ReadSection(prev.value, last.0, last.1) == Ok(r);
      var s := prev.value;
      SectionsFixed(st, init, s);
      ReadSectionFixed(s, last.0, last.1, r);
      assert BareSections(sections) == BareSections(init) + BareSection(last.0, last.1);
      assert r.fixed == st.fixed + BareSections(init) + BareSection(last.0, last.1);
    }
  }

  /** The fixed groups of a loaded menu are its bare food strings, one per group, in
      document order. */
  lemma MenuFixed(data: Node, m: MenuData)
    requires MenuOf(data) == Ok(m)
    ensures m.fixed == BareSections(Items(data))
  {
    MenuSections(data, m);
    var s := SectionsOf(Sections([], [], [], 0), Items(data)).value;
    SectionsFixed(Sections([], [], [], 0), Items(data), s);
  }

  // ---------------------------------------------------------------- all items

  /** The items of the groups, one group after the other. */
  function Concat(gs: seq<seq<string>>): seq<string> {
    if gs == [] then [] else Concat(gs[..|gs| - 1]) + gs[|gs| - 1]
  }

  function ChoiceItems(options: seq<Choice>): (r: seq<seq<string>>)
    ensures |r| == |options| && forall i :: 0 <= i < |options| ==> r[i] == options[i].items
  {
    seq(|options|, i requires 0 <= i < |options| => options[i].items)
  }

  /** `all_items()`: the fixed items, the option items, then `carbs_item` when it is
      set and not empty. */
  function AllItemsOf(m: MenuData): seq<string> {
    Concat(m.fixed) + Concat(ChoiceItems(m.options))
    + (if m.carbsItem.Some? && m.carbsItem.value != "" then [m.carbsItem.value] else [])
  }

  lemma {:induction false} ConcatMember(gs: seq<seq<string>>, x: string)
    ensures x in Concat(gs) <==> exists i :: 0 <= i < |gs| && x in gs[i]
  {
    if gs != [] {
      var init := gs[..|gs| - 1];
      ConcatMember(init, x);
      assert forall i :: 0 <= i < |init| ==> gs[i] == init[i];
    }
  }

  /** An item is validated exactly when some fixed group or some option holds it, or
      it is the carbohydrate item. */
  lemma AllItemsMember(m: MenuData, x: string)
    ensures x in AllItemsOf(m) <==>
      || (exists i :: 0 <= i < |m.fixed| && x in m.fixed[i])
      || (exists i :: 0 <= i < |m.options| && x in m.options[i].items)
      || (m.carbsItem == Some(x) && x != "")
  {
    ConcatMember(m.fixed, x);
    ConcatMember(ChoiceItems(m.options), x);
  }

  /** The number of items in the groups, counted from the first group on. */
  function TotalSize(gs: seq<seq<string>>): nat {
    if gs == [] then 0 else |gs[0]| + TotalSize(gs[1..])
  }

  /** Counting one more group at the end adds its size. */
  lemma {:induction false} TotalSizeSnoc(gs: seq<seq<string>>, g: seq<string>)
    ensures TotalSize(gs + [g]) == TotalSize(gs) + |g|
  {
    if gs != [] {
      assert (gs + [g])[1..] == gs[1..] + [g];
      TotalSizeSnoc(gs[1..], g);
    }
  }

  /** Putting the groups one after the other keeps every item. */
  lemma {:induction false} ConcatLength(gs: seq<seq<string>>)
    ensures |Concat(gs)| == TotalSize(gs)
  {
    if gs != [] {
      var init := gs[..|gs| - 1];
      ConcatLength(init);
      assert gs == init + [gs[|gs| - 1]];
      TotalSizeSnoc(init, gs[|gs| - 1]);
    }
  }

  /** `all_items()` has as many entries as the groups have items, plus one for a
      set carbohydrate item. */
  lemma AllItemsLength(m: MenuData)
    ensures |AllItemsOf(m)| == TotalSize(m.fixed) + TotalSize(ChoiceItems(m.options))
      + (if m.carbsItem.Some? && m.carbsItem.value != "" then 1 else 0)
  {
    ConcatLength(m.fixed);
    ConcatLength(ChoiceItems(m.options));
  }

  // ---------------------------------------------------------------- the class

  class Menu {
    var extra: Nutrients
    var carbsPerDay: Dict<string, real>
    var carbsItem: Option<string>
    var fixed: seq<seq<string>>
    var options: seq<Choice>
    var chooseGroups: Dict<nat, nat>

    /** The state of the menu as a value. */
    function Data(): MenuData
      reads this
    {
      MenuData(extra, carbsPerDay, carbsItem, fixed, options, chooseGroups)
    }

    /** The fields `_parse_extra` and `_parse_carbs` set. */
    function Loaded(): (Nutrients, Option<string>, Dict<string, real>)
      reads this
    {
      (extra, carbsItem, carbsPerDay)
    }

    /** What `_parse_sections` has built, with `choose_id` at `id`. */
    function Built(id: nat): Sections
      reads this
    {
      Sections(fixed, options, chooseGroups, id)
    }

    /** The fields `__init__` sets before it loads the file. */
    constructor ()
      ensures Data() == MenuData(Zero, [], None, [], [], [])
    {
      extra := Zero;
      carbsPerDay := [];
      carbsItem := None;
      fixed := [];
      options := [];
      chooseGroups := [];
    }

    /** `_load` after `yaml.safe_load`. */
    method Load(data: Node) returns (r: Outcome<Error>)
      modifies this
      ensures r.Pass? <==> SectionsOf(old(Built(0)), Items(data)).Ok?
      ensures r.Pass? ==> Built(0).(lastId := 0) == SectionsOf(old(Built(0)), Items(data)).value.(lastId := 0)
      ensures r.Fail? ==> SectionsOf(old(Built(0)), Items(data)) == Err(r.error)
      ensures extra == (if Truthy(Lookup(data, "extra")) then ExtraOf(Lookup(data, "extra")) else old(extra))
      ensures (carbsItem, carbsPerDay) == CarbsOf(Lookup(data, "carbs"), old(carbsItem), old(carbsPerDay))
    {
      ParseExtra(Lookup(data, "extra"));
      ParseCarbs(Lookup(data, "carbs"));
      r := ParseSections(data);
    }

    /** `_parse_extra(extra)`. */
    method ParseExtra(node: Node)
      modifies this
      ensures extra == (if Truthy(node) then ExtraOf(node) else old(extra))
      ensures Built(0) == old(Built(0)) && carbsItem == old(carbsItem) && carbsPerDay == old(carbsPerDay)
    {
      if !Truthy(node) {
        return;
      }
      extra := ExtraOf(node);
    }

    /** `_parse_carbs(carbs)`, with its loop over the entries. */
    method ParseCarbs(node: Node)
      modifies this
      ensures (carbsItem, carbsPerDay) == CarbsOf(node, old(carbsItem), old(carbsPerDay))
      ensures Built(0) == old(Built(0)) && extra == old(extra)
    {
      if !Truthy(node) {
        return;
      }
      var es := Items(node);
      for i := 0 to |es|
        invariant unchanged(`fixed, `options, `chooseGroups, `extra)
        invariant i == 0 ==> unchanged(`carbsItem, `carbsPerDay)
        invariant i > 0 ==> carbsItem == Some(es[i - 1].0) && carbsPerDay == PerDay(es[i - 1].1)
      {
        carbsItem := Some(es[i].0);
        carbsPerDay := PerDay(es[i].1);
      }
    }

    /** `_parse_sections(data)`: the loop over the sections. */
    method ParseSections(data: Node) returns (r: Outcome<Error>)
      modifies this
      ensures r.Pass? <==> SectionsOf(old(Built(0)), Items(data)).Ok?
      ensures r.Pass? ==> Built(0).(lastId := 0) == SectionsOf(old(Built(0)), Items(data)).value.(lastId := 0)
      ensures r.Fail? ==> SectionsOf(old(Built(0)), Items(data)) == Err(r.error)
      ensures Loaded() == old(Loaded())
    {
      ghost var start := Built(0);
      var chooseId := 0;
      var sections := Items(data);
      for i := 0 to |sections|
        invariant SectionsOf(start, sections[..i]) == Ok(Built(chooseId))
        invariant Loaded() == old(Loaded())
      {
        SectionsStep(start, sections, i);
        var (section, items) := sections[i];
        if Reserved(section) || !items.List? {
          continue;
        }
        var next := ParseItems(items.elems, chooseId);
        if next.Err? {
          SectionsErrSticks(start, sections, i + 1);
          return Fail(next.error);
        }
        chooseId := next.value;
      }
      assert sections[..|sections|] == sections;
      r := Pass;
    }

    /** The loop over the items of one section. */
    method ParseItems(items: seq<Node>, id0: nat) returns (r: Result<nat, Error>)
      modifies this
      ensures r.Ok? ==> ItemsOf(old(Built(id0)), items) == Ok(Built(r.value))
      ensures r.Err? ==> ItemsOf(old(Built(id0)), items) == Err(r.error)
      ensures Loaded() == old(Loaded())
    {
      var chooseId := id0;
      for j := 0 to |items|
        invariant ItemsOf(old(Built(id0)), items[..j]) == Ok(Built(chooseId))
        invariant Loaded() == old(Loaded())
      {
        assert items[..j + 1][..j] == items[..j];
        var item := items[j];
        if item.Str? {
          fixed := fixed + [[item.s]];
          continue;
        }
        var next := ParseBlock(Items(item), chooseId);
        if next.Err? {
          ItemsErrSticks(old(Built(id0)), items, j + 1);
          return Err(next.error);
        }
        chooseId := next.value;
      }
      assert items[..|items|] == items;
      r := Ok(chooseId);
    }

    /** The loop over the keys of one mapping item. */
    method ParseBlock(entries: seq<(string, Node)>, id0: nat) returns (r: Result<nat, Error>)
      modifies this
      ensures r.Ok? ==> BlockOf(old(Built(id0)), entries) == Ok(Built(r.value))
      ensures r.Err? ==> BlockOf(old(Built(id0)), entries) == Err(r.error)
      ensures Loaded() == old(Loaded())
    {
      var chooseId := id0;
      for k := 0 to |entries|
        invariant BlockOf(old(Built(id0)), entries[..k]) == Ok(Built(chooseId))
        invariant Loaded() == old(Loaded())
      {
        BlockOfStep(old(Built(id0)), entries, k);
        var next := ParseKey(ChooseCount(entries[k].0), entries[k].1, chooseId);
        if next.Err? {
          BlockErrSticks(old(Built(id0)), entries, k + 1);
          return Err(next.error);
        }
        chooseId := next.value;
      }
      assert entries[..|entries|] == entries;
      r := Ok(chooseId);
    }

    /** One key of a mapping item, given what `ChooseCount` reads from the key. */
    method ParseKey(count: Option<nat>, opts: Node, id0: nat) returns (r: Result<nat, Error>)
      modifies this
      ensures OpenBlock(old(Built(id0)), count, opts) == (if r.Ok? then Ok(Built(r.value)) else Err(r.error))
      ensures Loaded() == old(Loaded())
    {
      if count.None? {
        return Ok(id0);
      }
      r := OpenGroup(count.value, opts, id0);
    }

    /** A choose key of `n`: the next group number, its count and its options. */
    method OpenGroup(n: nat, opts: Node, id0: nat) returns (r: Result<nat, Error>)
      modifies this
      ensures OpenBlock(old(Built(id0)), Some(n), opts) == (if r.Ok? then Ok(Built(r.value)) else Err(r.error))
      ensures Loaded() == old(Loaded())
    {
      var before := Built(id0);
      var chooseId := id0 + 1;
      var choices := ChoicesOf(OptionNodes(opts), n, chooseId);
      chooseGroups := Put(chooseGroups, chooseId, n);
      var added := ParseOptions(OptionNodes(opts), n, chooseId);
      if added.Fail? {
        OpenBlockFails(before, opts, n, added.error);
        return Err(added.error);
      }
      assert Built(chooseId) == Sections(before.fixed, before.options + choices.value, Put(before.groups, chooseId, n), chooseId);
      OpenBlockChosen(before, opts, n, choices.value);
      r := Ok(chooseId);
    }

    /** The loop over the options of one choose block. */
    method ParseOptions(opts: seq<Node>, n: nat, id: nat) returns (r: Outcome<Error>)
      modifies this
      ensures ChoicesOf(opts, n, id).Ok? ==> r.Pass? && options == old(options) + ChoicesOf(opts, n, id).value
      ensures ChoicesOf(opts, n, id).Err? ==> r == Fail(ChoicesOf(opts, n, id).error)
      ensures fixed == old(fixed) && chooseGroups == old(chooseGroups)
      ensures Loaded() == old(Loaded())
    {
      for i := 0 to |opts|
        invariant ChoicesOf(opts[..i], n, id).Ok?
        invariant options == old(options) + ChoicesOf(opts[..i], n, id).value
        invariant fixed == old(fixed) && chooseGroups == old(chooseGroups)
        invariant Loaded() == old(Loaded())
      {
        assert opts[..i + 1][..i] == opts[..i];
        var opt := opts[i];
        if opt.Str? {
          options := options + [Choice([opt.s], n, id)];
        } else if opt.Mapping? {
          var es := Items(opt);
          if es == [] {
            ChoicesErrSticks(opts, n, id, i + 1);
            return Fail(EmptyOption);
          }
          options := options + [Choice(Strings(Iterate(es[0].1)), n, id)];
        }
      }
      assert opts[..|opts|] == opts;
      r := Pass;
    }

    /** `all_items()`, with its loops. */
    method AllItems() returns (items: seq<string>)
      ensures items == AllItemsOf(Data())
    {
      items := [];
      for i := 0 to |fixed|
        invariant items == Concat(fixed[..i])
      {
        assert fixed[..i + 1][..i] == fixed[..i];
        items := items + fixed[i];
      }
      assert fixed[..|fixed|] == fixed;
      var groups := ChoiceItems(options);
      for i := 0 to |options|
        invariant items == Concat(fixed) + Concat(groups[..i])
      {
        assert groups[..i + 1][..i] == groups[..i];
        items := items + options[i].items;
      }
      assert groups[..|options|] == groups;
      if carbsItem.Some? && carbsItem.value != "" {
        items := items + [carbsItem.value];
      }
    }
  }

  /** `Menu(filepath)` once the file is loaded into `data`: the menu, or the error
      that loading raises. */
  method LoadMenu(data: Node) returns (r: Result<Menu, Error>)
    ensures MenuOf(data).Ok? <==> r.Ok?
    ensures r.Ok? ==> fresh(r.value) && r.value.Data() == MenuOf(data).value
    ensures r.Err? ==> MenuOf(data) == Err(r.error)
  {
    var menu := new Menu();
    var loaded := menu.Load(data);
    if loaded.Fail? {
      return Err(loaded.error);
    }
    r := Ok(menu);
  }
}
