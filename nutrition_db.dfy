/** `NutritionDB` of nutrition.py: the nutrition table, the word-overlap match of a
    food text against its names, and the scaled look-up of a menu text. */
module Nutrition {
  import opened Wrappers
  import opened PyStr
  import opened Dicts
  import opened NutrientValues
  import opened Quantity

  /** One row of the table: nutrients per serving of `servingAmt` `servingUnit`. */
  datatype Record = Record(c: real, p: real, f: real, servingAmt: real, servingUnit: string, cal: real)

  /** `self.items`: food names, in table order, with their rows. */
  type Table = Dict<string, Record>

  /** The nutrient fields of a row. */
  function NutrientsOf(rec: Record): Nutrients {
    Nutrients(rec.c, rec.p, rec.f, rec.cal)
  }

  // ---------------------------------------------------------------- loading

  /** `[c.strip() for c in line.split("|")[1:-1]]`: the cells between the first and
      the last bar. */
  function Cells(line: string): (cols: seq<string>)
    requires '|' in line
    ensures |cols| == |SplitOn(line, '|')| - 2
  {
    var parts := SplitOn(line, '|');
    seq(|parts| - 2, i requires 0 <= i < |parts| - 2 => Strip(parts[i + 1]))
  }

  /** What `_load` makes of one line after the header: nothing for a blank line, a
      line without a bar or one with fewer than eight cells, and otherwise the
      lower-cased name of the second cell with its row. `num` stands for `float()`. */
  function RowOf(line: string, num: string -> real): Option<(string, Record)> {
    if Strip(line) == [] || '|' !in line then None
    else
      var cols := Cells(line);
      if |cols| >= 8 then
        Some((Lower(cols[1]), Record(num(cols[2]), num(cols[3]), num(cols[4]), num(cols[5]), Lower(cols[6]), num(cols[7]))))
      else None
  }

  /** The rows of `lines`, in order. */
  function Rows(lines: seq<string>, num: string -> real): seq<(string, Record)> {
    if lines == [] then []
    else
      var init := Rows(lines[..|lines| - 1], num);
      match RowOf(lines[|lines| - 1], num)
      case Some(row) => init + [row]
      case None => init
  }

  /** `lines[2:]`. */
  function Body(lines: seq<string>): seq<string> {
    if |lines| >= 2 then lines[2..] else []
  }

  /** The table `_load` builds: the rows after the header and the separator line,
      assigned in order, so a repeated name keeps its first place and its last row. */
  function Load(lines: seq<string>, num: string -> real): Table {
    FromPairs(Rows(Body(lines), num))
  }

  /** One more line assigns its row, if it has one, to the table built so far. */
  lemma LoadStep(lines: seq<string>, i: nat, num: string -> real)
    requires i < |lines|
    ensures FromPairs(Rows(lines[..i + 1], num)) ==
      match RowOf(lines[i], num)
      case Some(row) => Put(FromPairs(Rows(lines[..i], num)), row.0, row.1)
      case None => FromPairs(Rows(lines[..i], num))
  {
    assert lines[..i + 1][..i] == lines[..i];
    var row := RowOf(lines[i], num);
    if row.Some? {
      var rows := Rows(lines[..i], num) + [row.value];
      assert rows[..|rows| - 1] == Rows(lines[..i], num);
    }
  }

  lemma LowerCharIdempotent(ch: char)
    ensures LowerChar(LowerChar(ch)) == LowerChar(ch)
  {
  }

  /** Every name of a row is lower case. */
  lemma {:induction false} RowNamesLower(lines: seq<string>, num: string -> real)
    ensures forall i :: 0 <= i < |Rows(lines, num)| ==> Lower(Rows(lines, num)[i].0) == Rows(lines, num)[i].0
  {
    if lines != [] {
      RowNamesLower(lines[..|lines| - 1], num);
      var row := RowOf(lines[|lines| - 1], num);
      if row.Some? {
        var name := row.value.0;
        forall j | 0 <= j < |name| ensures LowerChar(name[j]) == name[j] {
          var cols := Cells(lines[|lines| - 1]);
          LowerCharIdempotent(cols[1][j]);
        }
      }
    }
  }

  /** The loaded table has distinct names, all of them lower case, and each name
      holds the row of its last line. */
  lemma LoadKeys(lines: seq<string>, num: string -> real, name: string)
    ensures UniqueKeys(Load(lines, num))
    ensures name in Keys(Load(lines, num)) ==> Lower(name) == name
    ensures name in Keys(Load(lines, num)) <==> name in Keys(Rows(Body(lines), num))
  {
    var rows := Rows(Body(lines), num);
    FromPairsKeys(rows);
    RowNamesLower(Body(lines), num);
    if name in Keys(rows) {
      var i :| 0 <= i < |rows| && Keys(rows)[i] == name;
      assert rows[i].0 == name;
    }
  }

  /** A name holds the row of the last line that names it. */
  lemma LoadLastWins(lines: seq<string>, num: string -> real, i: nat)
    requires i < |Rows(Body(lines), num)|
    requires forall j :: i < j < |Rows(Body(lines), num)| ==> Rows(Body(lines), num)[j].0 != Rows(Body(lines), num)[i].0
    ensures Dicts.Get(Load(lines, num), Rows(Body(lines), num)[i].0) == Some(Rows(Body(lines), num)[i].1)
  {
    FromPairsLastWins(Rows(Body(lines), num), i);
  }

  // ---------------------------------------------------------------- matching

  lemma IntersectionSmaller<T>(a: set<T>, b: set<T>)
    ensures |a * b| <= |b|
  {
    var rest := b - a;
    assert b == (a * b) + rest;
    assert (a * b) * rest == {};
  }

  /** `len(text_words & name_words) / len(name_words)`, and 0 for a name without
      words. */
  function Score(textWords: set<string>, name: string): (r: real)
    ensures 0.0 <= r <= 1.0
  {
    var nameWords := WordSet(name);
    if nameWords == {} then 0.0
    else
      IntersectionSmaller(textWords, nameWords);
      |textWords * nameWords| as real / |nameWords| as real
  }

  /** The score of every name against the words of one text. */
  function Scorer(textWords: set<string>): string -> real {
    name => Score(textWords, name)
  }

  /** `(best, best_score)` after the loop of `match` has visited `items`, scoring
      with `score`: a name replaces the best so far only when its score is strictly
      higher. */
  function Best(items: Table, score: string -> real): (Option<string>, real) {
    if items == [] then (None, 0.0)
    else
      var prev := Best(items[..|items| - 1], score);
      var s := score(items[|items| - 1].0);
      if s > prev.1 then (Some(items[|items| - 1].0), s) else prev
  }

  /** Each step of the loop keeps the best so far or takes the new name. */
  lemma BestStep(items: Table, score: string -> real)
    requires items != []
    ensures var last := |items| - 1;
      || (Best(items, score) == (Some(items[last].0), score(items[last].0)) && score(items[last].0) > Best(items[..last], score).1)
      || (Best(items, score) == Best(items[..last], score) && score(items[last].0) <= Best(items[..last], score).1)
  {
  }

  /** With scores that are never negative, there is no best name exactly when the
      best score is 0. */
  lemma {:induction false} BestNoneIffZero(items: Table, score: string -> real)
    requires forall j :: 0 <= j < |items| ==> score(items[j].0) >= 0.0
    ensures Best(items, score).0.None? <==> Best(items, score).1 == 0.0
    ensures Best(items, score).1 >= 0.0
  {
    if items != [] {
      var init := items[..|items| - 1];
      assert forall j :: 0 <= j < |init| ==> init[j] == items[j];
      BestNoneIffZero(init, score);
      BestStep(items, score);
    }
  }

  /** The best score is at least every score. */
  lemma {:induction false} BestIsHighest(items: Table, score: string -> real)
    ensures forall j :: 0 <= j < |items| ==> score(items[j].0) <= Best(items, score).1
  {
    if items != [] {
      var init := items[..|items| - 1];
      BestIsHighest(init, score);
      BestStep(items, score);
      assert forall j :: 0 <= j < |init| ==> items[j] == init[j];
    }
  }

  /** The best name is the first one with the best score: the index of that name. */
  lemma {:induction false} BestIndex(items: Table, score: string -> real) returns (i: nat)
    requires Best(items, score).0.Some?
    ensures i < |items| && items[i].0 == Best(items, score).0.value && score(items[i].0) == Best(items, score).1
    ensures forall j :: 0 <= j < i ==> score(items[j].0) < Best(items, score).1
  {
    var init := items[..|items| - 1];
    var last := |items| - 1;
    BestStep(items, score);
    if score(items[last].0) > Best(init, score).1 {
      BestIsHighest(init, score);
      i := last;
      assert forall j :: 0 <= j < i ==> items[j] == init[j];
    } else {
      i := BestIndex(init, score);
      assert forall j :: 0 <= j < i ==> items[j] == init[j];
      assert items[i] == init[i];
    }
  }

  /** The best name is a name of the table. */
  lemma BestIsKey(items: Table, score: string -> real)
    ensures Best(items, score).0.Some? ==> Best(items, score).0.value in Keys(items)
  {
    if Best(items, score).0.Some? {
      var i := BestIndex(items, score);
      assert Keys(items)[i] == items[i].0;
    }
  }

  /** `text.lower().strip()`. */
  function MatchKey(text: string): string {
    Strip(Lower(text))
  }

  /** `match(text)`: the text itself when it is a name, otherwise the first name of
      highest word-overlap score when that score is above 0.5. */
  function MatchText(items: Table, text: string): Option<string> {
    var key := MatchKey(text);
    if key in Keys(items) then Some(key)
    else
      var best := Best(items, Scorer(WordSet(key)));
      if best.1 > 0.5 then best.0 else None
  }

  /** `match` returns a name of the table, or nothing. */
  lemma MatchIsName(items: Table, text: string)
    ensures MatchText(items, text).Some? ==> MatchText(items, text).value in Keys(items)
  {
    var key := MatchKey(text);
    if key !in Keys(items) {
      var best := Best(items, Scorer(WordSet(key)));
      assert MatchText(items, text) == if best.1 > 0.5 then best.0 else None;
      BestIsKey(items, Scorer(WordSet(key)));
    }
  }

  /** A name of the table is returned as is; otherwise `match` finds nothing exactly
      when no name scores above 0.5. */
  lemma MatchNone(items: Table, text: string)
    ensures MatchKey(text) in Keys(items) ==> MatchText(items, text) == Some(MatchKey(text))
    ensures MatchKey(text) !in Keys(items) ==>
      (MatchText(items, text).None? <==>
        forall j :: 0 <= j < |items| ==> Score(WordSet(MatchKey(text)), items[j].0) <= 0.5)
  {
    var score := Scorer(WordSet(MatchKey(text)));
    BestIsHighest(items, score);
    BestNoneIffZero(items, score);
    if MatchKey(text) !in Keys(items) && Best(items, score).1 > 0.5 {
      var i := BestIndex(items, score);
    }
  }

  /** Otherwise the name `match` returns is, at index `i`, the first of highest
      score, and that score is above 0.5. */
  lemma MatchPick(items: Table, text: string) returns (i: nat)
    requires MatchKey(text) !in Keys(items) && MatchText(items, text).Some?
    ensures i < |items| && items[i].0 == MatchText(items, text).value
    ensures Score(WordSet(MatchKey(text)), items[i].0) > 0.5
    ensures forall j :: 0 <= j < |items| ==> Score(WordSet(MatchKey(text)), items[j].0) <= Score(WordSet(MatchKey(text)), items[i].0)
    ensures forall j :: 0 <= j < i ==> Score(WordSet(MatchKey(text)), items[j].0) < Score(WordSet(MatchKey(text)), items[i].0)
  {
    var words := WordSet(MatchKey(text));
    var score := Scorer(words);
    assert Best(items, score).0 == MatchText(items, text) && Best(items, score).1 > 0.5;
    i := BestPick(items, score);
    assert forall name :: score(name) == Score(words, name);
  }

  /** The best name, when there is one, is at index `i`: the first of highest
      score. */
  lemma BestPick(items: Table, score: string -> real) returns (i: nat)
    requires Best(items, score).0.Some?
    ensures i < |items| && items[i].0 == Best(items, score).0.value && score(items[i].0) == Best(items, score).1
    ensures forall j :: 0 <= j < |items| ==> score(items[j].0) <= score(items[i].0)
    ensures forall j :: 0 <= j < i ==> score(items[j].0) < score(items[i].0)
  {
    BestIsHighest(items, score);
    i := BestIndex(items, score);
  }

  // ---------------------------------------------------------------- look-up

  /** Whether `get` scales by the serving: the request is in grams and the serving
      too, or in the serving's unit, or has no unit. */
  predicate PerServing(unit: Option<Unit>, servingUnit: string) {
    if unit == Some(Gram) && servingUnit == "g" then true
    else if unit.Some? && UnitText(unit) == servingUnit then true
    else unit.None?
  }

  /** `ratio`: the amount over the serving amount when `get` scales by the serving,
      and the amount itself on a unit mismatch. */
  function Ratio(q: Quantity, rec: Record): (r: Result<real, Error>)
    ensures r.Err? <==> PerServing(q.unit, rec.servingUnit) && rec.servingAmt == 0.0
    ensures r.Ok? ==> r.value * (if PerServing(q.unit, rec.servingUnit) then rec.servingAmt else 1.0) == q.amount
  {
    if PerServing(q.unit, rec.servingUnit) then
      if rec.servingAmt == 0.0 then Err(ZeroDivision) else Ok(q.amount / rec.servingAmt)
    else Ok(q.amount)
  }

  /** `get` once the menu text is parsed into `q`. */
  function GetParsed(items: Table, menuText: string, q: Quantity): (r: Result<Nutrients, Error>)
    ensures r.Err? && r.error.ItemNotFound? ==> r.error.text == menuText
    ensures r.Err? ==> r.error == ItemNotFound(menuText) || r.error == ZeroDivision
  {
    var name := MatchText(items, q.text);
    if name.None? || name.value == "" then Err(ItemNotFound(menuText))
    else
      // `self.items[name]`: the name is always a key (`MatchIsName`)
      match Dicts.Get(items, name.value)
      case None => Err(ItemNotFound(menuText))
      case Some(rec) =>
        match Ratio(q, rec)
        case Ok(ratio) => Ok(NutrientsOf(rec).Times(ratio))
        case Err(e) => Err(e)
  }

  /** `get(menu_text)`: the row the food text matches, scaled by the ratio. */
  function ItemNutrients(items: Table, menuText: string): Result<Nutrients, Error> {
    GetParsed(items, menuText, ParseQuantity(menuText))
  }

  /** `exists(menu_text)`. */
  function ItemExists(items: Table, menuText: string): bool {
    MatchText(items, ParseQuantity(menuText).text).Some?
  }

  /** `get` scales the matched row: by the amount over the serving amount when the
      units agree or the request has none, by the amount itself otherwise. */
  lemma GetScales(items: Table, menuText: string, name: string, rec: Record)
    requires MatchText(items, ParseQuantity(menuText).text) == Some(name) && name != ""
    requires Dicts.Get(items, name) == Some(rec)
    ensures var q := ParseQuantity(menuText);
      PerServing(q.unit, rec.servingUnit) && rec.servingAmt != 0.0 ==>
        ItemNutrients(items, menuText) == Ok(NutrientsOf(rec).Times(q.amount / rec.servingAmt))
    ensures var q := ParseQuantity(menuText);
      PerServing(q.unit, rec.servingUnit) && rec.servingAmt == 0.0 ==>
        ItemNutrients(items, menuText) == Err(ZeroDivision)
    ensures var q := ParseQuantity(menuText);
      !PerServing(q.unit, rec.servingUnit) ==> ItemNutrients(items, menuText) == Ok(NutrientsOf(rec).Times(q.amount))
  {
  }

  /** `get` finds no item exactly when `exists` is false, or when the match is a
      row with an empty name, which `if not name` refuses. */
  lemma GetFailsIffMissing(items: Table, menuText: string)
    ensures ItemNutrients(items, menuText) == Err(ItemNotFound(menuText)) <==>
      !ItemExists(items, menuText) || MatchText(items, ParseQuantity(menuText).text) == Some("")
  {
    var q := ParseQuantity(menuText);
    var name := MatchText(items, q.text);
    if name.Some? && name.value != "" {
      MatchIsName(items, q.text);
      var rec := Dicts.Get(items, name.value).value;
      assert GetParsed(items, menuText, q) == match Ratio(q, rec)
        case Ok(ratio) => Ok(NutrientsOf(rec).Times(ratio))
        case Err(e) => Err(e);
    }
  }

  /** A request for exactly the serving, in the serving's unit or without a unit,
      returns the row's own nutrients. */
  lemma GetAtServing(q: Quantity, rec: Record)
    requires PerServing(q.unit, rec.servingUnit) && rec.servingAmt != 0.0 && q.amount == rec.servingAmt
    ensures Ratio(q, rec) == Ok(1.0)
    ensures NutrientsOf(rec).Times(1.0) == NutrientsOf(rec)
  {
    assert q.amount / rec.servingAmt == 1.0;
  }

  /** 50 g of a food listed per 100 g with 20 g of carbohydrate holds 10 g. */
  lemma HalfServingExample(text: string, p: real, f: real, cal: real)
    ensures var rec := Record(20.0, p, f, 100.0, "g", cal);
      Ratio(Quantity(50.0, Some(Gram), text), rec) == Ok(0.5)
      && NutrientsOf(rec).Times(0.5).c == 10.0
  {
  }

  /** A table holding a row with an empty name: an empty menu text exists, yet
      `get` reports it as not found. */
  lemma EmptyNameExistsButNotFound(rec: Record)
    ensures ItemExists([("", rec)], "")
    ensures ItemNutrients([("", rec)], "") == Err(ItemNotFound(""))
  {
    ParseEmpty();
    assert MatchKey("") == "";
  }

  // ---------------------------------------------------------------- the class

  /** The nutrition table: `items`, filled once by the constructor. */
  class NutritionDB {
    var items: Table

    /** `NutritionDB(filepath)` over the lines of the file, `_load` included. */
    constructor (lines: seq<string>, num: string -> real)
      ensures items == Load(lines, num)
    {
      items := [];
      new;
      var body := Body(lines);
      for i := 0 to |body|
        invariant items == FromPairs(Rows(body[..i], num))
      {
        LoadStep(body, i, num);
        var row := RowOf(body[i], num);
        if row.Some? {
          items := Put(items, row.value.0, row.value.1);
        }
      }
      assert body[..|body|] == body;
    }

    /** `match(text)`, with its loop over the names in table order. */
    method Match(text: string) returns (r: Option<string>)
      ensures r == MatchText(items, text)
    {
      var key := Strip(Lower(text));
      if key in Keys(items) {
        return Some(key);
      }
      var best, bestScore := BestMatch(WordSet(key));
      r := if bestScore > 0.5 then best else None;
    }

    /** The scoring loop of `match`: the first name of highest score, and that
        score. */
    method BestMatch(textWords: set<string>) returns (best: Option<string>, bestScore: real)
      ensures (best, bestScore) == Best(items, Scorer(textWords))
    {
      best, bestScore := None, 0.0;
      for i := 0 to |items|
        invariant (best, bestScore) == Best(items[..i], Scorer(textWords))
      {
        assert items[..i + 1][..i] == items[..i];
        var name := items[i].0;
        var score := Score(textWords, name);
        if score > bestScore {
          best, bestScore := Some(name), score;
        }
      }
      assert items[..|items|] == items;
    }

    /** `get(menu_text)`. */
    method Get(menuText: string) returns (r: Result<Nutrients, Error>)
      ensures r == ItemNutrients(items, menuText)
    {
      var q := ParseQuantity(menuText);
      var name := Match(q.text);
      if name.None? || name.value == "" {
        return Err(ItemNotFound(menuText));
      }
      MatchIsName(items, q.text);
      var rec := Dicts.Get(items, name.value).value;
      var ratio := Ratio(q, rec);
      if ratio.Err? {
        return Err(ratio.error);
      }
      r := Ok(NutrientsOf(rec).Times(ratio.value));
    }

    /** `exists(menu_text)`. */
    method Exists(menuText: string) returns (r: bool)
      ensures r == ItemExists(items, menuText)
    {
      var q := ParseQuantity(menuText);
      var name := Match(q.text);
      r := name.Some?;
    }
  }
}
