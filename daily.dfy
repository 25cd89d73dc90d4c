/** main.py: checking a menu against the nutrition table, and adding up the
    nutrients of one training day. */
module Daily {
  import opened Wrappers
  import opened Dicts
  import opened NutrientValues
  import opened Quantity
  import opened Nutrition
  import opened Menus

  // ---------------------------------------------------------------- check_menu

  /** `db.exists` as a function value, so that the folds below do not unfold the
      parser and the matcher. */
  function Found(items: Table): string -> bool {
    s => ItemExists(items, s)
  }

  /** The menu items that `found` rejects, in menu order. */
  function Missing(found: string -> bool, names: seq<string>): (r: seq<string>)
    ensures |r| <= |names|
  {
    if names == [] then []
    else
      var last := names[|names| - 1];
      Missing(found, names[..|names| - 1]) + (if found(last) then [] else [last])
  }

  /** An item is reported missing exactly when it is on the menu and rejected. */
  lemma {:induction false} MissingMember(found: string -> bool, names: seq<string>, x: string)
    ensures x in Missing(found, names) <==> x in names && !found(x)
  {
    if names != [] {
      var init := names[..|names| - 1];
      assert names == init + [names[|names| - 1]];
      MissingMember(found, init, x);
    }
  }

  /** How many options belong to the `[choose N]` block numbered `id`. */
  function OptionCount(options: seq<Choice>, id: nat): (k: nat)
    ensures k <= |options|
  {
    if options == [] then 0
    else OptionCount(options[..|options| - 1], id) + (if options[|options| - 1].id == id then 1 else 0)
  }

  /** The block numbers of the options, in order. */
  function Ids(options: seq<Choice>): (ids: seq<nat>)
    ensures |ids| == |options|
    ensures forall i :: 0 <= i < |options| ==> ids[i] == options[i].id
  {
    seq(|options|, i requires 0 <= i < |options| => options[i].id)
  }

  /** The count of a block's options is how often its number occurs among the
      options' numbers. */
  lemma {:induction false} OptionCountIsMultiplicity(options: seq<Choice>, id: nat)
    ensures OptionCount(options, id) == multiset(Ids(options))[id]
  {
    if options != [] {
      var init := options[..|options| - 1];
      assert Ids(options) == Ids(init) + [options[|options| - 1].id];
      OptionCountIsMultiplicity(init, id);
    }
  }

  /** The loop over `choose_groups`: the first block with fewer options than it
      asks for fails the check. */
  function GroupCheck(options: seq<Choice>, groups: Dict<nat, nat>): Outcome<Error> {
    if groups == [] then Pass
    else
      match GroupCheck(options, groups[..|groups| - 1])
      case Fail(e) => Fail(e)
      case Pass =>
        var (id, n) := groups[|groups| - 1];
        if OptionCount(options, id) < n then Fail(InsufficientOptions(n, OptionCount(options, id)))
        else Pass
  }

  /** The block check passes exactly when every block has at least as many
      options as it asks for. */
  lemma {:induction false} GroupCheckPasses(options: seq<Choice>, groups: Dict<nat, nat>)
    ensures GroupCheck(options, groups) == Pass <==>
      forall i :: 0 <= i < |groups| ==> OptionCount(options, groups[i].0) >= groups[i].1
  {
    if groups != [] {
      var init := groups[..|groups| - 1];
      GroupCheckPasses(options, init);
      assert forall i :: 0 <= i < |init| ==> init[i] == groups[i];
    }
  }

  /** A failed block check names the first block that is short of options, with
      what it asks for and what it has. */
  lemma {:induction false} GroupCheckFails(options: seq<Choice>, groups: Dict<nat, nat>, e: Error)
    returns (i: nat)
    requires GroupCheck(options, groups) == Fail(e)
    ensures i < |groups| && OptionCount(options, groups[i].0) < groups[i].1
    ensures e == InsufficientOptions(groups[i].1, OptionCount(options, groups[i].0))
    ensures forall j :: 0 <= j < i ==> OptionCount(options, groups[j].0) >= groups[j].1
  {
    var init := groups[..|groups| - 1];
    assert forall j :: 0 <= j < |init| ==> init[j] == groups[j];
    if GroupCheck(options, init).Fail? {
      i := GroupCheckFails(options, init, e);
    } else {
      GroupCheckPasses(options, init);
      i := |groups| - 1;
    }
  }

  /** Once the block check of a prefix fails, the whole check fails the same way. */
  lemma {:induction false} GroupCheckFailSticks(options: seq<Choice>, groups: Dict<nat, nat>, i: nat)
    requires i <= |groups| && GroupCheck(options, groups[..i]).Fail?
    ensures GroupCheck(options, groups) == GroupCheck(options, groups[..i])
    decreases |groups|
  {
    if i < |groups| {
      var init := groups[..|groups| - 1];
      assert init[..i] == groups[..i];
      GroupCheckFailSticks(options, init, i);
    } else {
      assert groups[..i] == groups;
    }
  }

  /** `check_menu`: first every item must be in the table, then every block must
      have enough options. */
  function CheckSpec(items: Table, m: MenuData): Outcome<Error> {
    var missing := Missing(Found(items), AllItemsOf(m));
    if missing != [] then Fail(MissingFoods(missing))
    else GroupCheck(m.options, m.chooseGroups)
  }

  /** The menu passes the check exactly when the table matches every item on it and
      every block has at least as many options as it asks for. */
  lemma CheckPasses(items: Table, m: MenuData)
    ensures CheckSpec(items, m) == Pass <==>
      (forall x :: x in AllItemsOf(m) ==> ItemExists(items, x)) &&
      (forall i :: 0 <= i < |m.chooseGroups| ==> OptionCount(m.options, m.chooseGroups[i].0) >= m.chooseGroups[i].1)
  {
    var missing := Missing(Found(items), AllItemsOf(m));
    forall x ensures x in missing <==> x in AllItemsOf(m) && !ItemExists(items, x) {
      MissingMember(Found(items), AllItemsOf(m), x);
    }
    GroupCheckPasses(m.options, m.chooseGroups);
    if missing != [] {
      assert missing[0] in missing;
    }
  }

  /** A missing item is reported before any short block. */
  lemma CheckReportsMissingFirst(items: Table, m: MenuData, x: string)
    requires x in AllItemsOf(m) && !ItemExists(items, x)
    ensures CheckSpec(items, m).Fail? && CheckSpec(items, m).error.MissingFoods?
    ensures x in CheckSpec(items, m).error.items
  {
    MissingMember(Found(items), AllItemsOf(m), x);
  }

  /** The list comprehension of `check_menu` that collects the missing items. */
  method FindMissing(db: NutritionDB, names: seq<string>) returns (missing: seq<string>)
    ensures missing == Missing(Found(db.items), names)
  {
    missing := [];
    for i := 0 to |names|
      invariant missing == Missing(Found(db.items), names[..i])
    {
      assert names[..i + 1][..i] == names[..i];
      var found := db.Exists(names[i]);
      assert found == Found(db.items)(names[i]);
      if !found {
        missing := missing + [names[i]];
      }
    }
    assert names[..|names|] == names;
  }

  /** `len([g for g, _, i in menu.options if i == id])`. */
  method CountOptions(options: seq<Choice>, id: nat) returns (count: nat)
    ensures count == OptionCount(options, id)
  {
    count := 0;
    for j := 0 to |options|
      invariant count == OptionCount(options[..j], id)
    {
      assert options[..j + 1][..j] == options[..j];
      if options[j].id == id {
        count := count + 1;
      }
    }
    assert options[..|options|] == options;
  }

  /** The loop of `check_menu` over `choose_groups`. */
  method CheckGroups(options: seq<Choice>, groups: Dict<nat, nat>) returns (r: Outcome<Error>)
    ensures r == GroupCheck(options, groups)
  {
    for i := 0 to |groups|
      invariant GroupCheck(options, groups[..i]) == Pass
    {
      assert groups[..i + 1][..i] == groups[..i];
      var (id, n) := groups[i];
      var count := CountOptions(options, id);
      if count < n {
        GroupCheckFailSticks(options, groups, i + 1);
        return Fail(InsufficientOptions(n, count));
      }
    }
    assert groups[..|groups|] == groups;
    r := Pass;
  }

  /** `check_menu(db, menu)`; the ValueError it raises becomes `Fail`. */
  method CheckMenu(db: NutritionDB, menu: Menu) returns (r: Outcome<Error>)
    ensures r == CheckSpec(db.items, menu.Data())
  {
    var all := menu.AllItems();
    var missing := FindMissing(db, all);
    if missing != [] {
      return Fail(MissingFoods(missing));
    }
    r := CheckGroups(menu.options, menu.chooseGroups);
  }

  // ---------------------------------------------------------------- get_nutrients

  /** `db.get` as a function value, so that the folds below do not unfold the
      parser and the matcher. */
  function Getter(items: Table): string -> Result<Nutrients, Error> {
    s => ItemNutrients(items, s)
  }

  /** `[get(item) for item in texts]`: the first lookup that raises ends it. */
  function GetAll(get: string -> Result<Nutrients, Error>, texts: seq<string>): (r: Result<seq<Nutrients>, Error>)
    ensures r.Ok? ==> |r.value| == |texts|
  {
    if texts == [] then Ok([])
    else
      match GetAll(get, texts[..|texts| - 1])
      case Err(e) => Err(e)
      case Ok(vs) =>
        match get(texts[|texts| - 1])
        case Err(e) => Err(e)
        case Ok(v) => Ok(vs + [v])
  }

  /** The list holds the value of each lookup, in order. */
  lemma {:induction false} GetAllValues(get: string -> Result<Nutrients, Error>, texts: seq<string>, vs: seq<Nutrients>)
    requires GetAll(get, texts) == Ok(vs)
    ensures |vs| == |texts|
    ensures forall i :: 0 <= i < |texts| ==> get(texts[i]) == Ok(vs[i])
  {
    if texts != [] {
      var init := texts[..|texts| - 1];
      var vs0 := GetAll(get, init).value;
      GetAllValues(get, init, vs0);
      assert vs == vs0 + [vs[|vs| - 1]];
    }
  }

  /** The list fails exactly when some lookup fails, and then with the error of the
      first lookup that fails. */
  lemma {:induction false} GetAllFails(get: string -> Result<Nutrients, Error>, texts: seq<string>, e: Error)
    returns (i: nat)
    requires GetAll(get, texts) == Err(e)
    ensures i < |texts| && get(texts[i]) == Err(e)
    ensures forall j :: 0 <= j < i ==> get(texts[j]).Ok?
  {
    var init := texts[..|texts| - 1];
    if GetAll(get, init).Err? {
      i := GetAllFails(get, init, e);
    } else {
      GetAllValues(get, init, GetAll(get, init).value);
      i := |texts| - 1;
    }
  }

  /** Once a prefix of the lookups fails, the whole list fails the same way. */
  lemma {:induction false} GetAllErrSticks(get: string -> Result<Nutrients, Error>, texts: seq<string>, i: nat)
    requires i <= |texts| && GetAll(get, texts[..i]).Err?
    ensures GetAll(get, texts) == GetAll(get, texts[..i])
    decreases |texts|
  {
    if i < |texts| {
      var init := texts[..|texts| - 1];
      assert init[..i] == texts[..i];
      GetAllErrSticks(get, init, i);
    } else {
      assert texts[..i] == texts;
    }
  }

  /** `get_nutrients(db, items)`: the average of the items' nutrients; an empty
      group raises ZeroDivisionError. */
  function GroupNutrients(get: string -> Result<Nutrients, Error>, group: seq<string>): Result<Nutrients, Error> {
    match GetAll(get, group)
    case Err(e) => Err(e)
    case Ok(vs) => if vs == [] then Err(ZeroDivision) else Ok(Average(vs))
  }

  /** A group of one item stands for that item; a group of alternatives for their
      average, which times their number is their sum. */
  lemma GroupValue(get: string -> Result<Nutrients, Error>, group: seq<string>, vs: seq<Nutrients>)
    requires |vs| == |group| > 0
    requires forall i :: 0 <= i < |group| ==> get(group[i]) == Ok(vs[i])
    ensures GroupNutrients(get, group) == Ok(Average(vs))
    ensures GroupNutrients(get, group).value.Times(|group| as real) == Sum(vs)
    ensures |group| == 1 ==> GroupNutrients(get, group) == Ok(vs[0])
  {
    GetAllOk(get, group, vs);
    OverTimes(Sum(vs), |vs| as real);
    if |group| == 1 {
      AverageOfCopies(vs[0], 1);
      assert vs == [vs[0]];
    }
  }

  /** When every lookup succeeds, the list holds their values. */
  lemma {:induction false} GetAllOk(get: string -> Result<Nutrients, Error>, texts: seq<string>, vs: seq<Nutrients>)
    requires |vs| == |texts|
    requires forall i :: 0 <= i < |texts| ==> get(texts[i]) == Ok(vs[i])
    ensures GetAll(get, texts) == Ok(vs)
  {
    if texts != [] {
      var k := |texts| - 1;
      GetAllOk(get, texts[..k], vs[..k]);
      assert vs == vs[..k] + [vs[k]];
    }
  }

  /** The list comprehension of `get_nutrients`, as a loop. */
  method GetEach(db: NutritionDB, texts: seq<string>) returns (r: Result<seq<Nutrients>, Error>)
    ensures r == GetAll(Getter(db.items), texts)
  {
    var values := [];
    for i := 0 to |texts|
      invariant GetAll(Getter(db.items), texts[..i]) == Ok(values)
    {
      assert texts[..i + 1][..i] == texts[..i];
      var v := db.Get(texts[i]);
      assert v == Getter(db.items)(texts[i]);
      if v.Err? {
        GetAllErrSticks(Getter(db.items), texts, i + 1);
        return Err(v.error);
      }
      values := values + [v.value];
    }
    assert texts[..|texts|] == texts;
    r := Ok(values);
  }

  /** `get_nutrients(db, items)`. */
  method GetNutrients(db: NutritionDB, group: seq<string>) returns (r: Result<Nutrients, Error>)
    ensures r == GroupNutrients(Getter(db.items), group)
  {
    var values := GetEach(db, group);
    if values.Err? {
      return Err(values.error);
    }
    r := Avg(values.value);
  }

  // ---------------------------------------------------------------- calculate

  /** The loop of `calculate` over `menu.fixed`: each group's nutrients added to
      the running total, the first failing group ending it. */
  function AddGroups(get: string -> Result<Nutrients, Error>, groups: seq<seq<string>>, start: Nutrients): Result<Nutrients, Error> {
    if groups == [] then Ok(start)
    else
      match AddGroups(get, groups[..|groups| - 1], start)
      case Err(e) => Err(e)
      case Ok(t) =>
        match GroupNutrients(get, groups[|groups| - 1])
        case Err(e) => Err(e)
        case Ok(v) => Ok(t.Plus(v))
  }

  /** When every group has nutrients `vs`, the loop adds their sum to the start. */
  lemma {:induction false} AddGroupsSum(get: string -> Result<Nutrients, Error>, groups: seq<seq<string>>, start: Nutrients, vs: seq<Nutrients>)
    requires |vs| == |groups|
    requires forall i :: 0 <= i < |groups| ==> GroupNutrients(get, groups[i]) == Ok(vs[i])
    ensures AddGroups(get, groups, start) == Ok(start.Plus(Sum(vs)))
  {
    if groups == [] {
      PlusLaws(start, Zero, Zero);
    } else {
      var k := |groups| - 1;
      AddGroupsSum(get, groups[..k], start, vs[..k]);
      assert vs == vs[..k] + [vs[k]];
      PlusLaws(start, Sum(vs[..k]), vs[k]);
    }
  }

  /** The loop fails exactly when some group fails, and then with the first
      group's error. */
  lemma {:induction false} AddGroupsFails(get: string -> Result<Nutrients, Error>, groups: seq<seq<string>>, start: Nutrients, e: Error)
    returns (i: nat)
    requires AddGroups(get, groups, start) == Err(e)
    ensures i < |groups| && GroupNutrients(get, groups[i]) == Err(e)
    ensures forall j :: 0 <= j < i ==> GroupNutrients(get, groups[j]).Ok?
  {
    var k := |groups| - 1;
    if AddGroups(get, groups[..k], start).Err? {
      i := AddGroupsFails(get, groups[..k], start, e);
    } else {
      AddGroupsOk(get, groups[..k], start);
      i := k;
    }
  }

  /** A loop that succeeds met no failing group. */
  lemma {:induction false} AddGroupsOk(get: string -> Result<Nutrients, Error>, groups: seq<seq<string>>, start: Nutrients)
    requires AddGroups(get, groups, start).Ok?
    ensures forall j :: 0 <= j < |groups| ==> GroupNutrients(get, groups[j]).Ok?
  {
    if groups != [] {
      var k := |groups| - 1;
      AddGroupsOk(get, groups[..k], start);
      assert forall j :: 0 <= j < k ==> groups[..k][j] == groups[j];
    }
  }

  /** Once a prefix of the groups fails, the whole loop fails the same way. */
  lemma {:induction false} AddGroupsErrSticks(get: string -> Result<Nutrients, Error>, groups: seq<seq<string>>, start: Nutrients, i: nat)
    requires i <= |groups| && AddGroups(get, groups[..i], start).Err?
    ensures AddGroups(get, groups, start) == AddGroups(get, groups[..i], start)
    decreases |groups|
  {
    if i < |groups| {
      var init := groups[..|groups| - 1];
      assert init[..i] == groups[..i];
      AddGroupsErrSticks(get, init, start, i);
    } else {
      assert groups[..i] == groups;
    }
  }

  /** `grouped`: for each block number, in order of first appearance, the `n` of
      its first option and the nutrients of its options in order. */
  type Grouping = Dict<nat, (nat, seq<Nutrients>)>

  /** `grouped.setdefault(id, (n, []))[1].append(v)`. */
  function SetDefaultAppend(g: Grouping, id: nat, n: nat, v: Nutrients): Grouping {
    match Get(g, id)
    case Some(entry) => Put(g, id, (entry.0, entry.1 + [v]))
    case None => Put(g, id, (n, [v]))
  }

  /** The loop of `calculate` over `menu.options`. */
  function Grouped(get: string -> Result<Nutrients, Error>, options: seq<Choice>): Result<Grouping, Error> {
    if options == [] then Ok([])
    else
      var last := options[|options| - 1];
      match Grouped(get, options[..|options| - 1])
      case Err(e) => Err(e)
      case Ok(g) =>
        match GroupNutrients(get, last.items)
        case Err(e) => Err(e)
        case Ok(v) => Ok(SetDefaultAppend(g, last.id, last.n, v))
  }

  /** Once a prefix of the options fails, the whole loop fails the same way. */
  lemma {:induction false} GroupedErrSticks(get: string -> Result<Nutrients, Error>, options: seq<Choice>, i: nat)
    requires i <= |options| && Grouped(get, options[..i]).Err?
    ensures Grouped(get, options) == Grouped(get, options[..i])
    decreases |options|
  {
    if i < |options| {
      var init := options[..|options| - 1];
      assert init[..i] == options[..i];
      GroupedErrSticks(get, init, i);
    } else {
      assert options[..i] == options;
    }
  }

  /** The nutrients `vs` of the options numbered `id`, in order. */
  function ChoicesFor(options: seq<Choice>, vs: seq<Nutrients>, id: nat): (cs: seq<Nutrients>)
    requires |vs| == |options|
    ensures |cs| == OptionCount(options, id)
  {
    if options == [] then []
    else
      var k := |options| - 1;
      ChoicesFor(options[..k], vs[..k], id) + (if options[k].id == id then [vs[k]] else [])
  }

  /** The `n` of the first option numbered `id`. */
  function FirstN(options: seq<Choice>, id: nat): nat {
    if options == [] then 0
    else
      var k := |options| - 1;
      if OptionCount(options[..k], id) > 0 then FirstN(options[..k], id)
      else if options[k].id == id then options[k].n
      else 0
  }

  /** `setdefault` then `append` changes only the entry of `id`: it extends that
      entry's list, or creates the entry with `n` and a list of one. */
  lemma SetDefaultAppendGet(g: Grouping, id: nat, n: nat, v: Nutrients, id': nat)
    ensures Get(SetDefaultAppend(g, id, n, v), id') ==
      if id' != id then Get(g, id')
      else if Get(g, id).Some? then Some((Get(g, id).value.0, Get(g, id).value.1 + [v]))
      else Some((n, [v]))
  {
    match Get(g, id)
    case Some(entry) =>
      PutGet(g, id, (entry.0, entry.1 + [v]), id');
    case None =>
      PutGet(g, id, (n, [v]), id');
  }

  /** The entry `grouped` should hold for block number `id`: the `n` of its first
      option and the nutrients `vs` of all its options in order, or none when no
      option carries that number. */
  function Expected(options: seq<Choice>, vs: seq<Nutrients>, id: nat): Option<(nat, seq<Nutrients>)>
    requires |vs| == |options|
  {
    if OptionCount(options, id) > 0 then Some((FirstN(options, id), ChoicesFor(options, vs, id))) else None
  }

  /** One turn of the loop over the options keeps `grouped` as expected. */
  lemma GroupedStep(options: seq<Choice>, vs: seq<Nutrients>, g0: Grouping, id: nat)
    requires |vs| == |options| > 0
    requires Get(g0, id) == Expected(options[..|options| - 1], vs[..|vs| - 1], id)
    ensures var last := options[|options| - 1];
      Get(SetDefaultAppend(g0, last.id, last.n, vs[|vs| - 1]), id) == Expected(options, vs, id)
  {
    var k := |options| - 1;
    var last := options[k];
    var init := options[..k];
    SetDefaultAppendGet(g0, last.id, last.n, vs[k], id);
    assert OptionCount(options, id) == OptionCount(init, id) + (if last.id == id then 1 else 0);
    assert ChoicesFor(options, vs, id) == ChoicesFor(init, vs[..k], id) + (if last.id == id then [vs[k]] else []);
    if last.id != id {
      assert ChoicesFor(options, vs, id) == ChoicesFor(init, vs[..k], id);
      assert OptionCount(init, id) > 0 ==> FirstN(options, id) == FirstN(init, id);
    } else if OptionCount(init, id) == 0 {
      assert Get(g0, id).None?;
      assert ChoicesFor(init, vs[..k], id) == [];
      assert ChoicesFor(options, vs, id) == [vs[k]];
      assert FirstN(options, id) == last.n;
      assert Expected(options, vs, id) == Some((last.n, [vs[k]]));
    } else {
      assert FirstN(options, id) == FirstN(init, id);
      assert Get(g0, id) == Some((FirstN(init, id), ChoicesFor(init, vs[..k], id)));
    }
  }

  /** Reading `grouped` back: a block number has an entry exactly when some option
      carries it, and the entry holds the `n` of its first option and the
      nutrients of all its options in order. */
  lemma {:induction false} GroupedSpec(get: string -> Result<Nutrients, Error>, options: seq<Choice>, vs: seq<Nutrients>, g: Grouping, id: nat)
    requires |vs| == |options|
    requires forall i :: 0 <= i < |options| ==> GroupNutrients(get, options[i].items) == Ok(vs[i])
    requires Grouped(get, options) == Ok(g)
    ensures Get(g, id) == Expected(options, vs, id)
  {
    if options != [] {
      var k := |options| - 1;
      var init := options[..k];
      var g0 := Grouped(get, init).value;
      assert forall i :: 0 <= i < k ==> init[i] == options[i];
      GroupedSpec(get, init, vs[..k], g0, id);
      assert g == SetDefaultAppend(g0, options[k].id, options[k].n, vs[k]);
      GroupedStep(options, vs, g0, id);
    }
  }

  /** `grouped` is a dict: it holds each block number at most once, so reading it
      entry by entry is reading it block by block. */
  lemma {:induction false} GroupedUnique(get: string -> Result<Nutrients, Error>, options: seq<Choice>, g: Grouping)
    requires Grouped(get, options) == Ok(g)
    ensures UniqueKeys(g)
  {
    if options != [] {
      var k := |options| - 1;
      var last := options[k];
      var g0 := Grouped(get, options[..k]).value;
      var v := GroupNutrients(get, last.items).value;
      GroupedUnique(get, options[..k], g0);
      assert g == SetDefaultAppend(g0, last.id, last.n, v);
      match Get(g0, last.id)
      case Some(entry) =>
        PutKeepsKeysUnique(g0, last.id, (entry.0, entry.1 + [v]));
      case None =>
        PutKeepsKeysUnique(g0, last.id, (last.n, [v]));
    }
  }

  /** The loop of `calculate` over `grouped.items()`: each block adds the average
      of its options times its `n`. */
  function AddChosen(g: Grouping, start: Nutrients): Result<Nutrients, Error> {
    if g == [] then Ok(start)
    else
      match AddChosen(g[..|g| - 1], start)
      case Err(e) => Err(e)
      case Ok(t) =>
        var (n, choices) := g[|g| - 1].1;
        if choices == [] then Err(ZeroDivision) else Ok(t.Plus(Average(choices).Times(n as real)))
  }

  /** What each block of `grouped` adds to the day: its `n` times the average of
      its options. */
  function Portions(g: Grouping): (ps: seq<Nutrients>)
    requires forall i :: 0 <= i < |g| ==> g[i].1.1 != []
    ensures |ps| == |g|
  {
    seq(|g|, i requires 0 <= i < |g| => Average(g[i].1.1).Times(g[i].1.0 as real))
  }

  /** The loop adds the blocks' portions to the start; it fails only on a block
      without options, which `Grouped` never builds. */
  lemma {:induction false} AddChosenSum(g: Grouping, start: Nutrients)
    requires forall i :: 0 <= i < |g| ==> g[i].1.1 != []
    ensures AddChosen(g, start) == Ok(start.Plus(Sum(Portions(g))))
  {
    if g == [] {
      PlusLaws(start, Zero, Zero);
    } else {
      var k := |g| - 1;
      AddChosenSum(g[..k], start);
      assert Portions(g) == Portions(g[..k]) + [Portions(g)[k]];
      PlusLaws(start, Sum(Portions(g[..k])), Portions(g)[k]);
    }
  }

  /** Every block `Grouped` builds has at least one option. */
  lemma {:induction false} GroupedNonEmpty(get: string -> Result<Nutrients, Error>, options: seq<Choice>, g: Grouping)
    requires Grouped(get, options) == Ok(g)
    ensures forall i :: 0 <= i < |g| ==> g[i].1.1 != []
  {
    if options != [] {
      var k := |options| - 1;
      var last := options[k];
      var g0 := Grouped(get, options[..k]).value;
      GroupedNonEmpty(get, options[..k], g0);
      var v := GroupNutrients(get, last.items).value;
      forall i | 0 <= i < |g| ensures g[i].1.1 != [] {
        PutEntry(g0, last.id, if Get(g0, last.id).Some? then (Get(g0, last.id).value.0, Get(g0, last.id).value.1 + [v]) else (last.n, [v]), i);
      }
    }
  }

  /** An entry of `d[k] = v` is `(k, v)` or an entry of `d`. */
  lemma {:induction false} PutEntry<K, V>(d: Dict<K, V>, k: K, v: V, i: nat)
    requires i < |Put(d, k, v)|
    ensures Put(d, k, v)[i] == (k, v) || Put(d, k, v)[i] in d
  {
    if d != [] && d[0].0 != k && i > 0 {
      assert Put(d, k, v)[1..] == Put(d[1..], k, v);
      PutEntry(d[1..], k, v, i - 1);
    }
  }

  /** Choosing all `n` of `n` options eats each of them once. */
  lemma ChooseAllEatsAll(choices: seq<Nutrients>, n: nat)
    requires n == |choices| > 0
    ensures Average(choices).Times(n as real) == Sum(choices)
  {
    OverTimes(Sum(choices), n as real);
  }

  /** The text `calculate` looks up for the day's carbohydrate portion,
      `f"{grams}g {menu.carbs_item}"`; `show` is Python's `str` of a float. */
  function CarbText(grams: real, item: string, show: real -> string): string {
    show(grams) + "g " + item
  }

  /** The per-day carbohydrate portion: nothing without a carbohydrate item, or
      without an amount for the day, or with an amount of 0. */
  function CarbPortion(get: string -> Result<Nutrients, Error>, m: MenuData, day: string, show: real -> string): Result<Option<Nutrients>, Error> {
    if m.carbsItem.None? || m.carbsItem.value == "" then Ok(None)
    else
      match Get(m.carbsPerDay, day)
      case None => Ok(None)
      case Some(grams) =>
        if grams == 0.0 then Ok(None)
        else
          match get(CarbText(grams, m.carbsItem.value, show))
          case Err(e) => Err(e)
          case Ok(v) => Ok(Some(v))
  }

  /** When `show` writes the amount as a plain decimal, the looked-up text parses
      back as that many grams of the carbohydrate item. */
  lemma CarbTextParses(grams: real, item: string, show: real -> string, ds: string, fs: string)
    requires WellWritten(ds, fs, "", Some(Gram), " ", item)
    requires show(grams) == NumberText(ds, fs) && DecimalValue(ds, fs) == grams
    ensures ParseQuantity(CarbText(grams, item, show)) == Quantity(grams, Some(Gram), item)
  {
    assert CarbText(grams, item, show) == WrittenText(ds, fs, "", Some(Gram), " ", item);
    ParseWritten(ds, fs, "", Some(Gram), " ", item);
  }

  /** So the day's carbohydrate portion is the table's entry for the item scaled to
      that many grams. */
  lemma CarbPortionGrams(items: Table, m: MenuData, day: string, show: real -> string, grams: real, ds: string, fs: string)
    requires m.carbsItem.Some? && Get(m.carbsPerDay, day) == Some(grams) && grams != 0.0
    requires WellWritten(ds, fs, "", Some(Gram), " ", m.carbsItem.value)
    requires show(grams) == NumberText(ds, fs) && DecimalValue(ds, fs) == grams
    ensures var text := CarbText(grams, m.carbsItem.value, show);
      var r := GetParsed(items, text, Quantity(grams, Some(Gram), m.carbsItem.value));
      CarbPortion(Getter(items), m, day, show) == if r.Ok? then Ok(Some(r.value)) else Err(r.error)
  {
    CarbTextParses(grams, m.carbsItem.value, show, ds, fs);
  }

  /** `extra` with the calories of its carbohydrate, protein and fat added. */
  function ExtraPart(e: Nutrients): Nutrients {
    Nutrients(e.c, e.p, e.f, e.cal + e.c * KcalPerGramCarbs + e.p * KcalPerGramProtein + e.f * KcalPerGramFat)
  }

  /** The last two steps of `calculate`: the day's carbohydrate portion, if any,
      then the extra. */
  function Finish(t: Nutrients, carbs: Result<Option<Nutrients>, Error>, extra: Nutrients): Result<Nutrients, Error> {
    match carbs
    case Err(e) => Err(e)
    case Ok(portion) =>
      var t' := if portion.Some? then t.Plus(portion.value) else t;
      Ok(t'.Plus(ExtraPart(extra)))
  }

  /** `calculate(db, menu, day)`: fixed groups, then the blocks' portions, then the
      day's carbohydrate portion, then the extra. */
  function DayTotal(get: string -> Result<Nutrients, Error>, m: MenuData, day: string, show: real -> string): Result<Nutrients, Error> {
    match AddGroups(get, m.fixed, Zero)
    case Err(e) => Err(e)
    case Ok(t1) =>
      match Grouped(get, m.options)
      case Err(e) => Err(e)
      case Ok(g) =>
        match AddChosen(g, t1)
        case Err(e) => Err(e)
        case Ok(t2) => Finish(t2, CarbPortion(get, m, day, show), m.extra)
  }

  /** The day's total, part by part: the sum of the fixed groups' averages, then
      each block's portion, then the day's carbohydrate portion and the extra. */
  lemma DayTotalParts(get: string -> Result<Nutrients, Error>, m: MenuData, day: string, show: real -> string, fvs: seq<Nutrients>, g: Grouping)
    requires |fvs| == |m.fixed|
    requires forall i :: 0 <= i < |m.fixed| ==> GroupNutrients(get, m.fixed[i]) == Ok(fvs[i])
    requires Grouped(get, m.options) == Ok(g)
    ensures UniqueKeys(g)
    ensures (forall i :: 0 <= i < |g| ==> g[i].1.1 != []) &&
      DayTotal(get, m, day, show) == Finish(Sum(fvs).Plus(Sum(Portions(g))), CarbPortion(get, m, day, show), m.extra)
  {
    AddGroupsSum(get, m.fixed, Zero, fvs);
    PlusLaws(Zero, Sum(fvs), Zero);
    PlusLaws(Sum(fvs), Zero, Zero);
    GroupedUnique(get, m.options, g);
    GroupedNonEmpty(get, m.options, g);
    AddChosenSum(g, Sum(fvs));
  }

  /** A day with one fixed item and an extra: the item's nutrients plus the extra
      with the calories of its macronutrients added. */
  lemma OneItemDay(get: string -> Result<Nutrients, Error>, text: string, v: Nutrients, e: Nutrients, day: string, show: real -> string)
    requires get(text) == Ok(v)
    ensures DayTotal(get, MenuData(e, [], None, [[text]], [], []), day, show) == Ok(v.Plus(ExtraPart(e)))
  {
    GroupValue(get, [text], [v]);
    AddGroupsSum(get, [[text]], Zero, [v]);
    assert Sum([v]) == Zero.Plus(v);
    PlusLaws(Zero, v, v);
    PlusLaws(v, Zero, v);
  }

  /** An extra of 10 g protein adds 40 kcal. */
  lemma ExtraProteinExample(get: string -> Result<Nutrients, Error>, day: string, show: real -> string)
    ensures DayTotal(get, MenuData(Nutrients(0.0, 10.0, 0.0, 0.0), [], None, [], [], []), day, show)
      == Ok(Nutrients(0.0, 10.0, 0.0, 40.0))
  {
  }

  /** A `[choose 2]` block with two options eats both of them. */
  lemma ChooseTwoOfTwo(get: string -> Result<Nutrients, Error>, a: string, b: string, x: Nutrients, y: Nutrients, day: string, show: real -> string)
    requires get(a) == Ok(x) && get(b) == Ok(y)
    ensures DayTotal(get, MenuData(Zero, [], None, [], [Choice([a], 2, 1), Choice([b], 2, 1)], [(1, 2)]), day, show)
      == Ok(x.Plus(y))
  {
    var options := [Choice([a], 2, 1), Choice([b], 2, 1)];
    GroupValue(get, [a], [x]);
    GroupValue(get, [b], [y]);
    assert options[..1] == [Choice([a], 2, 1)];
    assert Grouped(get, options[..1]) == Ok([(1, (2, [x]))]);
    var g1: Grouping := [(1, (2, [x]))];
    assert Get(g1, 1) == Some((2, [x]));
    assert [x] + [y] == [x, y];
    assert g1[1..] == [];
    assert Put(g1, 1, (2, [x, y])) == [(1, (2, [x, y]))];
    assert Grouped(get, options) == Ok([(1, (2, [x, y]))]);
    var g: Grouping := [(1, (2, [x, y]))];
    AddChosenSum(g, Zero);
    assert Portions(g) == [Average([x, y]).Times(2.0)];
    ChooseAllEatsAll([x, y], 2);
    SumOfTwo(x, y);
    assert Sum(Portions(g)) == Zero.Plus(x.Plus(y));
    PlusLaws(Zero, x.Plus(y), x.Plus(y));
    PlusLaws(x.Plus(y), Zero, Zero);
  }

  /** The loop of `calculate` over `menu.fixed`. */
  method AddFixed(db: NutritionDB, groups: seq<seq<string>>, start: Nutrients) returns (r: Result<Nutrients, Error>)
    ensures r == AddGroups(Getter(db.items), groups, start)
  {
    var totals := start;
    for i := 0 to |groups|
      invariant AddGroups(Getter(db.items), groups[..i], start) == Ok(totals)
    {
      assert groups[..i + 1][..i] == groups[..i];
      var v := GetNutrients(db, groups[i]);
      if v.Err? {
        AddGroupsErrSticks(Getter(db.items), groups, start, i + 1);
        return Err(v.error);
      }
      totals := totals.Plus(v.value);
    }
    assert groups[..|groups|] == groups;
    r := Ok(totals);
  }

  /** The loop of `calculate` that fills `grouped`. */
  method GroupOptions(db: NutritionDB, options: seq<Choice>) returns (r: Result<Grouping, Error>)
    ensures r == Grouped(Getter(db.items), options)
  {
    var grouped: Grouping := [];
    for i := 0 to |options|
      invariant Grouped(Getter(db.items), options[..i]) == Ok(grouped)
    {
      assert options[..i + 1][..i] == options[..i];
      var v := GetNutrients(db, options[i].items);
      if v.Err? {
        GroupedErrSticks(Getter(db.items), options, i + 1);
        return Err(v.error);
      }
      grouped := SetDefaultAppend(grouped, options[i].id, options[i].n, v.value);
    }
    assert options[..|options|] == options;
    r := Ok(grouped);
  }

  /** The loop of `calculate` over `grouped.items()`. */
  method AddAverages(grouped: Grouping, start: Nutrients) returns (r: Result<Nutrients, Error>)
    ensures r == AddChosen(grouped, start)
  {
    var totals := start;
    for i := 0 to |grouped|
      invariant AddChosen(grouped[..i], start) == Ok(totals)
    {
      assert grouped[..i + 1][..i] == grouped[..i];
      var (n, choices) := grouped[i].1;
      var avg := Avg(choices);
      if avg.Err? {
        AddChosenErrSticks(grouped, start, i + 1);
        return Err(avg.error);
      }
      totals := totals.Plus(avg.value.Times(n as real));
    }
    assert grouped[..|grouped|] == grouped;
    r := Ok(totals);
  }

  /** Once a prefix of the blocks fails, the whole loop fails the same way. */
  lemma {:induction false} AddChosenErrSticks(g: Grouping, start: Nutrients, i: nat)
    requires i <= |g| && AddChosen(g[..i], start).Err?
    ensures AddChosen(g, start) == AddChosen(g[..i], start)
    decreases |g|
  {
    if i < |g| {
      var init := g[..|g| - 1];
      assert init[..i] == g[..i];
      AddChosenErrSticks(init, start, i);
    } else {
      assert g[..i] == g;
    }
  }

  /** The per-day carbohydrate step of `calculate`. */
  method CarbsOfDay(db: NutritionDB, menu: Menu, day: string, show: real -> string) returns (r: Result<Option<Nutrients>, Error>)
    ensures r == CarbPortion(Getter(db.items), menu.Data(), day, show)
  {
    if menu.carbsItem.None? || menu.carbsItem.value == "" {
      return Ok(None);
    }
    var grams := Get(menu.carbsPerDay, day);
    if grams.None? || grams.value == 0.0 {
      return Ok(None);
    }
    var v := db.Get(CarbText(grams.value, menu.carbsItem.value, show));
    assert v == Getter(db.items)(CarbText(grams.value, menu.carbsItem.value, show));
    if v.Err? {
      return Err(v.error);
    }
    r := Ok(Some(v.value));
  }

  /** `calculate(db, menu, day)`; an exception it raises becomes `Err`. */
  method Calculate(db: NutritionDB, menu: Menu, day: string, show: real -> string) returns (r: Result<Nutrients, Error>)
    ensures r == DayTotal(Getter(db.items), menu.Data(), day, show)
  {
    var fixed := AddFixed(db, menu.fixed, Zero);
    if fixed.Err? {
      return Err(fixed.error);
    }
    var grouped := GroupOptions(db, menu.options);
    if grouped.Err? {
      return Err(grouped.error);
    }
    var totals := AddAverages(grouped.value, fixed.value);
    if totals.Err? {
      return Err(totals.error);
    }
    var carbs := CarbsOfDay(db, menu, day, show);
    r := AddCarbsAndExtra(totals.value, carbs, menu.extra);
  }

  /** The end of `calculate`: adds the carbohydrate portion, if any, and the extra
      with the calories of its macronutrients. */
  method AddCarbsAndExtra(totals: Nutrients, carbs: Result<Option<Nutrients>, Error>, extra: Nutrients) returns (r: Result<Nutrients, Error>)
    ensures r == Finish(totals, carbs, extra)
  {
    if carbs.Err? {
      return Err(carbs.error);
    }
    var t := totals;
    if carbs.value.Some? {
      t := t.Plus(carbs.value.value);
    }
    var extraCal := extra.c * KcalPerGramCarbs + extra.p * KcalPerGramProtein + extra.f * KcalPerGramFat;
    r := Ok(t.Plus(Nutrients(extra.c, extra.p, extra.f, extra.cal + extraCal)));
  }
}
